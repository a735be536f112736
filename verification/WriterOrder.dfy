/**
  What a writer that nobody disturbs puts on the socket (transport/ws/connection.go,
  drainPendingWrites and writeBroadcastBatch), on values.
  */
module WriterOrder {
  import opened Outbound

  /** The two queues and what the socket took. */
  datatype Queues = Queues(direct: seq<Message>, broadcast: seq<Message>, socket: seq<Message>)

  /** Up to n direct messages are written. */
  function Burst(q: Queues, n: nat): Queues {
    var k := if n < |q.direct| then n else |q.direct|;
    Queues(q.direct[k..], q.broadcast, q.socket + q.direct[..k])
  }

  function OneBroadcast(q: Queues): Queues
    requires q.broadcast != []
  {
    Queues(q.direct, q.broadcast[1..], q.socket + [q.broadcast[0]])
  }

  /** The head of round i of a batch: every eighth lets up to four direct messages pass. */
  function Preempted(i: nat, q: Queues): Queues { if i % 8 == 0 then Burst(q, 4) else q }

  /** The rest of a batch of which i broadcasts are written. */
  function BatchFrom(i: nat, q: Queues): Queues
    decreases 32 - i
  {
    if i >= 32 then Burst(q, 4)
    else
      var p := Preempted(i, q);
      if p.broadcast == [] then Burst(p, 4) else BatchFrom(i + 1, OneBroadcast(p))
  }

  /** One drain: a direct message if there is one, otherwise a batch. */
  function Drained(q: Queues): Queues {
    if q.direct != [] then Burst(q, 1)
    else if q.broadcast != [] then BatchFrom(1, OneBroadcast(q))
    else q
  }

  function Size(q: Queues): nat { |q.direct| + |q.broadcast| }

  lemma BurstSizes(q: Queues, n: nat)
    ensures Size(Burst(q, n)) <= Size(q) && (n > 0 && q.direct != [] ==> Size(Burst(q, n)) < Size(q))
  {
  }

  lemma {:induction false} BatchSizes(i: nat, q: Queues)
    ensures Size(BatchFrom(i, q)) <= Size(q)
    decreases 32 - i
  {
    if i < 32 && Preempted(i, q).broadcast != [] {
      BatchSizes(i + 1, OneBroadcast(Preempted(i, q)));
    }
  }

  lemma DrainedSizes(q: Queues)
    ensures Size(q) > 0 ==> Size(Drained(q)) < Size(q)
  {
    if q.direct == [] && q.broadcast != [] {
      BatchSizes(1, OneBroadcast(q));
    }
  }

  /** The whole pump: one drain after the other until there is nothing left. */
  function Pumped(q: Queues): Queues
    decreases Size(q)
  {
    DrainedSizes(q);
    if Size(q) == 0 then q else Pumped(Drained(q))
  }

  // ------------------------------------------------------------------------------
  // What that means
  // ------------------------------------------------------------------------------

  /** Everything there is, in whatever order. */
  function All(q: Queues): multiset<Message> { multiset(q.direct) + multiset(q.broadcast) + multiset(q.socket) }

  /** The socket has taken more, and nothing has come or gone. */
  ghost predicate Onwards(q: Queues, q': Queues) { q.socket <= q'.socket && All(q) == All(q') }

  lemma BurstOnwards(q: Queues, n: nat)
    ensures Onwards(q, Burst(q, n))
  {
    var k := if n < |q.direct| then n else |q.direct|;
    assert q.direct == q.direct[..k] + q.direct[k..];
  }

  lemma OneOnwards(q: Queues)
    requires q.broadcast != []
    ensures Onwards(q, OneBroadcast(q))
  {
    assert q.broadcast == [q.broadcast[0]] + q.broadcast[1..];
  }

  lemma {:induction false} BatchOnwards(i: nat, q: Queues)
    ensures Onwards(q, BatchFrom(i, q))
    decreases 32 - i
  {
    BurstOnwards(q, 4);
    if i < 32 {
      var p := Preempted(i, q);
      if p.broadcast == [] {
        BurstOnwards(p, 4);
      } else {
        OneOnwards(p);
        BatchOnwards(i + 1, OneBroadcast(p));
      }
    }
  }

  /** An undisturbed writer leaves nothing behind: everything queued is on the socket, once. */
  lemma {:induction false} PumpedDelivers(q: Queues)
    ensures Pumped(q).direct == [] && Pumped(q).broadcast == [] && q.socket <= Pumped(q).socket
    ensures multiset(Pumped(q).socket) == All(q)
    decreases Size(q)
  {
    DrainedSizes(q);
    if Size(q) == 0 {
      assert multiset(q.direct) == multiset{} && multiset(q.broadcast) == multiset{};
    } else {
      if q.direct != [] {
        BurstOnwards(q, 1);
      } else {
        OneOnwards(q);
        BatchOnwards(1, OneBroadcast(q));
      }
      PumpedDelivers(Drained(q));
    }
  }

  lemma BurstNothing(q: Queues, n: nat)
    requires q.direct == []
    ensures Burst(q, n) == q
  {
    assert q.socket + [] == q.socket;
  }

  lemma SplitFirst(b: seq<Message>, socket: seq<Message>, k: nat)
    requires 0 < k <= |b|
    ensures b[k..] == b[1..][k - 1..] && socket + [b[0]] + b[1..][..k - 1] == socket + b[..k]
  {
    assert b[..k] == [b[0]] + b[1..][..k - 1];
  }

  /** The first k broadcasts are written. */
  function Sent(q: Queues, k: nat): Queues
    requires k <= |q.broadcast|
  {
    Queues(q.direct, q.broadcast[k..], q.socket + q.broadcast[..k])
  }

  lemma SentOneMore(q: Queues, k: nat)
    requires 0 < k <= |q.broadcast|
    ensures Sent(OneBroadcast(q), k - 1) == Sent(q, k)
  {
    SplitFirst(q.broadcast, q.socket, k);
  }

  lemma SentNone(q: Queues)
    ensures Sent(q, 0) == q
  {
    assert q.socket + [] == q.socket;
  }

  function Smaller(x: nat, y: nat): nat { if x < y then x else y }

  lemma BatchStep(i: nat, q: Queues)
    requires q.direct == [] && i < 32 && q.broadcast != []
    ensures BatchFrom(i, q) == BatchFrom(i + 1, OneBroadcast(q))
  {
    BurstNothing(q, 4);
  }

  lemma BatchStop(i: nat, q: Queues)
    requires q.direct == [] && (i == 32 || q.broadcast == [])
    ensures BatchFrom(i, q) == q
  {
    BurstNothing(q, 4);
  }

  /** Without direct messages the broadcasts of a batch go out in order. */
  lemma {:induction false} BatchInOrder(i: nat, q: Queues)
    requires q.direct == [] && i <= 32
    ensures BatchFrom(i, q) == Sent(q, Smaller(32 - i, |q.broadcast|))
    decreases 32 - i
  {
    if i < 32 && q.broadcast != [] {
      BatchStep(i, q);
      BatchInOrder(i + 1, OneBroadcast(q));
      SentOneMore(q, Smaller(32 - i, |q.broadcast|));
    } else {
      BatchStop(i, q);
      SentNone(q);
    }
  }

  /** Direct messages that are there go out first, in order. */
  lemma {:induction false} DirectGoesFirst(d: seq<Message>, b: seq<Message>, socket: seq<Message>)
    ensures Pumped(Queues(d, b, socket)) == Pumped(Queues([], b, socket + d))
    decreases |d|
  {
    if d == [] {
      assert socket + d == socket;
    } else {
      OneDirect(d, b, socket);
      DirectGoesFirst(d[1..], b, socket + [d[0]]);
      SplitFirst(d, socket, |d|);
      assert d[..|d|] == d && d[1..][..|d| - 1] == d[1..];
    }
  }

  lemma OneDirect(d: seq<Message>, b: seq<Message>, socket: seq<Message>)
    requires d != []
    ensures Pumped(Queues(d, b, socket)) == Pumped(Queues(d[1..], b, socket + [d[0]]))
  {
    DrainedSizes(Queues(d, b, socket));
    assert d[..1] == [d[0]];
  }

  lemma OneBatch(b: seq<Message>, socket: seq<Message>) returns (k: nat)
    requires b != []
    ensures 0 < k <= |b| && Pumped(Queues([], b, socket)) == Pumped(Queues([], b[k..], socket + b[..k]))
  {
    var q := Queues([], b, socket);
    k := Smaller(32, |b|);
    DrainedSizes(q);
    BatchInOrder(1, OneBroadcast(q));
    SentOneMore(q, k);
  }

  lemma Rejoin(socket: seq<Message>, b: seq<Message>, k: nat)
    requires k <= |b|
    ensures socket + b[..k] + b[k..] == socket + b
  {
  }

  lemma {:induction false} BroadcastsInOrder(b: seq<Message>, socket: seq<Message>)
    ensures Pumped(Queues([], b, socket)) == Queues([], [], socket + b)
    decreases |b|
  {
    if b == [] {
      assert socket + b == socket;
    } else {
      var k := OneBatch(b, socket);
      BroadcastsInOrder(b[k..], socket + b[..k]);
      Rejoin(socket, b, k);
    }
  }

  /** So what an undisturbed writer finds queued goes out like this: the direct messages, then the broadcasts. */
  lemma PumpedIs(q: Queues)
    ensures Pumped(q) == Queues([], [], q.socket + q.direct + q.broadcast)
  {
    DirectGoesFirst(q.direct, q.broadcast, q.socket);
    BroadcastsInOrder(q.broadcast, q.socket + q.direct);
  }

  /** What the socket will have taken when an undisturbed writer is through. */
  function Total(q: Queues): seq<Message> { q.socket + q.direct + q.broadcast }

  lemma BroadcastKeepsTotal(q: Queues)
    requires q.direct == [] && q.broadcast != []
    ensures Total(OneBroadcast(q)) == Total(q)
  {
    assert q.broadcast == [q.broadcast[0]] + q.broadcast[1..];
  }

  lemma DirectKeepsTotal(q: Queues, k: nat)
    requires k <= |q.direct|
    ensures Total(Queues(q.direct[k..], q.broadcast, q.socket + q.direct[..k])) == Total(q)
  {
    assert q.direct == q.direct[..k] + q.direct[k..];
  }

  // ------------------------------------------------------------------------------
  // A writer of the transition system, alone
  // ------------------------------------------------------------------------------

  function Unpack(ps: seq<Packet>): seq<Message> {
    if ps == [] then [] else Unpack(ps[..|ps| - 1]) + [ps[|ps| - 1].message]
  }

  lemma UnpackAppend(ps: seq<Packet>, p: Packet)
    ensures Unpack(ps + [p]) == Unpack(ps) + [p.message]
  {
    assert (ps + [p])[..|ps|] == ps;
  }

  function View(c: Conn): Queues { Queues(c.direct, c.broadcast, Unpack(c.written)) }

  /** Thread t acts n times, nobody else does, and every write succeeds. */
  function Alone(t: nat, n: nat): seq<Event> { seq(n, _ => Run(t, true)) }

  predicate At(s: State, t: nat, pc: Pc) { t < |s.threads| && s.threads[t] == pc }

  predicate LeadsIn(s: State, t: nat, n: nat, s': State) { s' == Exec(s, Alone(t, n)) }

  /** Thread t, acting alone and without write errors, comes from s to s'. */
  ghost predicate Leads(s: State, t: nat, s': State) { exists n: nat :: LeadsIn(s, t, n, s') }

  lemma LeadsOn(s: State, t: nat, s1: State, s2: State)
    requires Leads(s, t, s1) && Leads(s1, t, s2)
    ensures Leads(s, t, s2)
  {
    var n: nat :| LeadsIn(s, t, n, s1);
    var m: nat :| LeadsIn(s1, t, m, s2);
    assert Alone(t, n + m) == Alone(t, n) + Alone(t, m);
    ExecSplit(s, Alone(t, n), Alone(t, m));
    assert LeadsIn(s, t, n + m, s2);
  }

  lemma LeadsNowhere(s: State, t: nat)
    ensures Leads(s, t, s)
  {
    assert LeadsIn(s, t, 0, s);
  }

  lemma LeadsOne(s: State, t: nat)
    ensures Leads(s, t, Apply(s, Run(t, true)))
  {
    assert Alone(t, 1)[1..] == [];
    assert LeadsIn(s, t, 1, Apply(s, Run(t, true)));
  }

  lemma LoneEmpty(s: State, t: nat, site: Site) returns (s': State)
    requires At(s, t, Selecting(site)) && s.c.Queue(Source(site)) == []
    ensures Leads(s, t, s') && At(s', t, WhenEmpty(site)) && View(s'.c) == View(s.c)
  {
    LeadsOne(s, t);
    s' := Apply(s, Run(t, true));
  }

  lemma LoneWrite(s: State, t: nat, site: Site) returns (s': State)
    requires At(s, t, Selecting(site)) && s.c.Queue(Source(site)) != []
    ensures Leads(s, t, s') && At(s', t, Selecting(WhenWritten(site)))
    ensures View(s'.c) == if site.Batch? then OneBroadcast(View(s.c)) else Burst(View(s.c), 1)
  {
    var m := s.c.Queue(Source(site))[0];
    var s1 := Apply(s, Run(t, true));
    s' := Apply(s1, Run(t, true));
    LeadsOne(s, t);
    LeadsOne(s1, t);
    LeadsOn(s, t, s1, s');
    UnpackAppend(s1.c.written, Packet(Source(site), m));
    assert !site.Batch? ==> s.c.direct[..1] == [m];
  }

  lemma BurstOneMore(q: Queues, left: nat)
    requires left >= 1 && q.direct != []
    ensures Burst(q, left) == Burst(Burst(q, 1), left - 1)
  {
    var k := if left < |q.direct| then left else |q.direct|;
    SplitFirst(q.direct, q.socket, k);
    assert q.direct[..1] == [q.direct[0]];
  }

  lemma {:induction false} LoneBurst(s: State, t: nat, i: nat, left: nat, last: bool) returns (s': State)
    requires left >= 1 && At(s, t, Selecting(Site.Burst(i, left, last)))
    ensures Leads(s, t, s') && At(s', t, Selecting(AfterBurst(i, last))) && View(s'.c) == Burst(View(s.c), left)
    decreases left
  {
    var site := Site.Burst(i, left, last);
    if s.c.direct == [] {
      s' := LoneEmpty(s, t, site);
      BurstNothing(View(s.c), left);
    } else {
      var s1 := LoneWrite(s, t, site);
      BurstOneMore(View(s.c), left);
      if left == 1 {
        s' := s1;
        assert Burst(View(s.c), 1) == Burst(Burst(View(s.c), 1), 0);
      } else {
        s' := LoneBurst(s1, t, i, left - 1, last);
        LeadsOn(s, t, s1, s');
      }
    }
  }

  /** In round i of a batch, at the receive. */
  lemma LoneRound(s: State, t: nat, i: nat) returns (s': State)
    requires 1 <= i < 32 && At(s, t, Selecting(Batch(i)))
    ensures Leads(s, t, s')
    ensures var q := View(s.c);
      if q.broadcast == [] then At(s', t, Selecting(Priority)) && View(s'.c) == Burst(q, 4)
      else At(s', t, Selecting(WhenWritten(Batch(i)))) && View(s'.c) == OneBroadcast(q)
  {
    if s.c.broadcast == [] {
      var s1 := LoneEmpty(s, t, Batch(i));
      s' := LoneBurst(s1, t, i, 4, true);
      LeadsOn(s, t, s1, s');
    } else {
      s' := LoneWrite(s, t, Batch(i));
    }
  }

  lemma LonePreempt(s: State, t: nat, i: nat) returns (s': State)
    requires 1 <= i < 32 && At(s, t, Selecting(WhenWritten(Batch(i - 1))))
    ensures Leads(s, t, s') && At(s', t, Selecting(Batch(i))) && View(s'.c) == Preempted(i, View(s.c))
  {
    if i % 8 == 0 {
      s' := LoneBurst(s, t, i, 4, false);
    } else {
      s' := s;
      LeadsNowhere(s, t);
    }
  }

  /**
    A batch of a lone writer: up to 32 broadcasts, before every eighth of which up to four
    direct messages pass, and up to four at the end, be it of the batch or of the queue.
    */
  lemma {:induction false} LoneBatch(s: State, t: nat, i: nat) returns (s': State)
    requires 1 <= i <= 32 && At(s, t, Selecting(WhenWritten(Batch(i - 1))))
    ensures Leads(s, t, s') && At(s', t, Selecting(Priority)) && View(s'.c) == BatchFrom(i, View(s.c))
    decreases 32 - i
  {
    if i == 32 {
      s' := LoneBurst(s, t, 32, 4, true);
    } else {
      var s1 := LonePreempt(s, t, i);
      var s2 := LoneRound(s1, t, i);
      LeadsOn(s, t, s1, s2);
      if s1.c.broadcast == [] {
        s' := s2;
      } else {
        s' := LoneBatch(s2, t, i + 1);
        LeadsOn(s, t, s2, s');
      }
    }
  }

  /** One drain of a lone writer, which ends idle exactly if both queues are empty. */
  lemma LoneDrain(s: State, t: nat) returns (s': State)
    requires At(s, t, Selecting(Priority))
    ensures Leads(s, t, s') && View(s'.c) == Drained(View(s.c))
    ensures At(s', t, if Size(View(s.c)) == 0 then Clearing else Selecting(Priority))
  {
    if s.c.direct != [] {
      s' := LoneWrite(s, t, Priority);
    } else {
      var s1 := LoneEmpty(s, t, Priority);
      if s.c.broadcast == [] {
        s' := LoneEmpty(s1, t, Batch(0));
        LeadsOn(s, t, s1, s');
      } else {
        var s2 := LoneWrite(s1, t, Batch(0));
        LeadsOn(s, t, s1, s2);
        s' := LoneBatch(s2, t, 1);
        LeadsOn(s, t, s2, s');
      }
    }
  }
}
