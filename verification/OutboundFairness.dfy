/**
  Broadcast traffic cannot starve direct messages: a bound on the broadcast writes that
  can still precede a queued direct message, kept by every step of every thread.
  */
module OutboundFairness {
  import opened Outbound
  import opened Threads
  import opened OutboundSafety

  function Min(x: nat, y: nat): nat { if x < y then x else y }

  /** A batch that has written i broadcasts writes no more than the rest of it. */
  function InBatch(i: nat, n: nat): nat { if i < BATCH_SIZE then Min(n, BATCH_SIZE - i) else 0 }

  /** Broadcast writes of a thread at `pc` before it receives the direct message with q others ahead of it. */
  function Ahead(pc: Pc, q: nat): nat {
    if pc.Selecting? || pc.Writing? then
      match pc.site
      case Priority => 0
      case Batch(i) => InBatch(i, PREEMPT_EVERY - i % PREEMPT_EVERY + PREEMPT_EVERY * (q / DRAIN_BURST))
      case Burst(i, left, last) =>
        // while writing, one of the `left` is already in hand
        var room := if pc.Writing? && left > 0 then left - 1 else left;
        if last || q < room then 0
        else InBatch(i, PREEMPT_EVERY + PREEMPT_EVERY * ((q - room) / DRAIN_BURST))
    else 0
  }

  function AheadBy(q: nat): Pc -> nat { pc => Ahead(pc, q) }

  function Potential(s: State, q: nat): nat { Sum(AheadBy(q), s.threads) }

  /** How many direct messages have been received so far, and how many broadcasts written. */
  function Received(s: State): nat { |Through(s.c.taken, Direct)| }

  function BroadcastWrites(s: State): nat { |Through(s.c.written, Broadcast)| }

  lemma AheadMonotone(pc: Pc, q: nat, q': nat)
    requires q <= q'
    ensures Ahead(pc, q) <= Ahead(pc, q')
  {
  }

  lemma {:induction false} PotentialMonotone(threads: seq<Pc>, q: nat, q': nat)
    requires q <= q'
    ensures Sum(AheadBy(q), threads) <= Sum(AheadBy(q'), threads)
    decreases |threads|
  {
    if threads != [] {
      AheadMonotone(threads[|threads| - 1], q, q');
      PotentialMonotone(threads[..|threads| - 1], q, q');
    }
  }

  predicate TakesDirect(pc: Pc) { pc.Selecting? && !pc.site.Batch? }

  predicate WritesBroadcast(pc: Pc, ok: bool) { pc.Writing? && pc.site.Batch? && ok }

  lemma AheadSelecting(c: Conn, site: Site, ok: bool, q: nat)
    requires GoodPc(Selecting(site), c.closed) && q < |c.direct|
    requires !site.Batch? ==> q > 0
    ensures Ahead(NextPc(c, Selecting(site), ok), if site.Batch? then q else q - 1) <= Ahead(Selecting(site), q)
  {
  }

  /** The room that a burst makes: four direct messages for eight broadcasts. */
  lemma FourForEight(q: nat)
    ensures q >= DRAIN_BURST ==> (q - DRAIN_BURST) / DRAIN_BURST + 1 == q / DRAIN_BURST
  {
  }

  lemma WritingInBatch(i: nat, m: Message, q: nat)
    requires i < BATCH_SIZE
    ensures 1 + Ahead(Selecting(WhenWritten(Batch(i))), q) <= Ahead(Writing(Batch(i), m), q)
  {
    FourForEight(q);
  }

  lemma WritingInBurst(i: nat, left: nat, last: bool, m: Message, q: nat)
    requires GoodSite(Burst(i, left, last))
    ensures Ahead(Selecting(WhenWritten(Burst(i, left, last))), q) <= Ahead(Writing(Burst(i, left, last), m), q)
  {
  }

  lemma AheadWriting(c: Conn, site: Site, m: Message, ok: bool, q: nat)
    requires GoodPc(Writing(site, m), c.closed)
    ensures (if site.Batch? && ok then 1 else 0) + Ahead(NextPc(c, Writing(site, m), ok), q)
            <= Ahead(Writing(site, m), q)
  {
    match site
    case Priority =>
    case Batch(i) => WritingInBatch(i, m, q);
    case Burst(i, left, last) => WritingInBurst(i, left, last, m, q);
  }

  /** The heart of the bound, for one action that does not receive the message itself. */
  lemma AheadOne(c: Conn, pc: Pc, ok: bool, q: nat)
    requires GoodPc(pc, c.closed) && q < |c.direct|
    requires TakesDirect(pc) ==> q > 0
    ensures (if WritesBroadcast(pc, ok) then 1 else 0)
            + Ahead(NextPc(c, pc, ok), if TakesDirect(pc) then q - 1 else q)
            <= Ahead(pc, q)
  {
    match pc
    case Selecting(site) => AheadSelecting(c, site, ok, q);
    case Writing(site, m) => AheadWriting(c, site, m, ok, q);
    case _ =>
  }

  lemma WritesOne(c: Conn, t: nat, pc: Pc, ok: bool)
    ensures |Through(NextConn(c, t, pc, ok).written, Broadcast)|
         == |Through(c.written, Broadcast)| + (if WritesBroadcast(pc, ok) then 1 else 0)
  {
    if pc.Writing? && ok {
      ThroughAppend(c.written, Packet(Source(pc.site), pc.message), Broadcast);
    }
  }

  lemma ReceivesOne(c: Conn, t: nat, pc: Pc, ok: bool)
    ensures |Through(NextConn(c, t, pc, ok).taken, Direct)|
         == |Through(c.taken, Direct)| + (if TakesDirect(pc) && c.direct != [] then 1 else 0)
  {
    if pc.Selecting? && c.Queue(Source(pc.site)) != [] {
      ThroughAppend(c.taken, Packet(Source(pc.site), c.Queue(Source(pc.site))[0]), Direct);
    }
  }

  /** Direct message number k (from 0, in acceptance order) is in the queue. */
  predicate Waiting(s: State, k: nat) {
    Received(s) <= k < Received(s) + |s.c.direct|
  }

  /** Broadcasts written so far and those that may still precede message k. */
  function Spent(s: State, k: nat): nat
    requires Received(s) <= k
  {
    BroadcastWrites(s) + Potential(s, k - Received(s))
  }

  /** What one action of thread t does to the sum. */
  lemma PotentialMove(c: Conn, threads: seq<Pc>, t: nat, ok: bool, q: nat)
    requires t < |threads| && GoodPc(threads[t], c.closed) && q < |c.direct|
    requires TakesDirect(threads[t]) ==> q > 0
    ensures var pc, q' := threads[t], if TakesDirect(threads[t]) then q - 1 else q;
      (if WritesBroadcast(pc, ok) then 1 else 0) + Sum(AheadBy(q'), threads[t := NextPc(c, pc, ok)])
      <= Sum(AheadBy(q), threads)
  {
    var pc := threads[t];
    var q' := if TakesDirect(pc) then q - 1 else q;
    AheadOne(c, pc, ok, q);
    SumUpdate(AheadBy(q'), threads, t, NextPc(c, pc, ok));
    AheadMonotone(pc, q', q);
    SpendOne(threads, t, q, q');
  }

  /** The three counts that one action changes. */
  lemma ActCounts(s: State, t: nat, ok: bool)
    requires t < |s.threads|
    ensures var s', pc := Apply(s, Run(t, ok)), s.threads[t];
      && Received(s') == Received(s) + (if TakesDirect(pc) && s.c.direct != [] then 1 else 0)
      && BroadcastWrites(s') == BroadcastWrites(s) + (if WritesBroadcast(pc, ok) then 1 else 0)
      && |s'.c.direct| + (if TakesDirect(pc) && s.c.direct != [] then 1 else 0) >= |s.c.direct|
  {
    ReceivesOne(s.c, t, s.threads[t], ok);
    WritesOne(s.c, t, s.threads[t], ok);
    QueueAfter(s.c, t, s.threads[t], ok);
  }

  lemma PotentialAct(s: State, t: nat, ok: bool, k: nat)
    requires t < |s.threads| && Shape(s) && Waiting(s, k) && Received(Apply(s, Run(t, ok))) <= k
    ensures Waiting(Apply(s, Run(t, ok)), k)
    ensures Spent(Apply(s, Run(t, ok)), k) <= Spent(s, k)
  {
    ActCounts(s, t, ok);
    PotentialMove(s.c, s.threads, t, ok, k - Received(s));
  }

  /** No step of any thread can spend more than the potential while the message waits. */
  lemma PotentialStep(s: State, e: Event, k: nat)
    requires Shape(s) && Waiting(s, k) && Received(Apply(s, e)) <= k
    ensures Waiting(Apply(s, e), k)
    ensures Spent(Apply(s, e), k) <= Spent(s, k)
  {
    match e
    case Arrive(p) => SumAppend(AheadBy(k - Received(s)), s.threads, Offered(p));
    case Shut =>
    case Run(t, ok) =>
      if t < |s.threads| {
        PotentialAct(s, t, ok, k);
      }
  }

  lemma QueueAfter(c: Conn, t: nat, pc: Pc, ok: bool)
    ensures |NextConn(c, t, pc, ok).direct| + (if TakesDirect(pc) && c.direct != [] then 1 else 0) >= |c.direct|
  {
  }

  /** Everybody else's share shrinks along with q. */
  lemma SpendOne(threads: seq<Pc>, t: nat, q: nat, q': nat)
    requires t < |threads| && q' <= q
    ensures Sum(AheadBy(q'), threads) + Ahead(threads[t], q) <= Sum(AheadBy(q), threads) + Ahead(threads[t], q')
  {
    SumUpdate(AheadBy(q), threads, t, Finished);
    SumUpdate(AheadBy(q'), threads, t, Finished);
    PotentialMonotone(threads[t := Finished], q', q);
  }

  /** What only grows in a run. */
  predicate Grows(s: State, s': State) {
    && s.c.staleClears <= s'.c.staleClears && |s.c.lost| <= |s'.c.lost| && s.c.taken <= s'.c.taken
    && Received(s) <= Received(s') && BroadcastWrites(s) <= BroadcastWrites(s')
  }

  lemma GrowsOne(c: Conn, t: nat, pc: Pc, ok: bool)
    ensures var c' := NextConn(c, t, pc, ok);
      c.staleClears <= c'.staleClears && |c.lost| <= |c'.lost| && c.taken <= c'.taken
  {
    MovesOne(c, t, pc, ok);
  }

  lemma StepGrows(s: State, e: Event)
    ensures Grows(s, Apply(s, e))
  {
    if e.Run? && e.t < |s.threads| {
      ReceivesOne(s.c, e.t, s.threads[e.t], e.ok);
      WritesOne(s.c, e.t, s.threads[e.t], e.ok);
      GrowsOne(s.c, e.t, s.threads[e.t], e.ok);
    }
  }

  lemma GrowsTransitive(s: State, s': State, s'': State)
    requires Grows(s, s') && Grows(s', s'')
    ensures Grows(s, s'')
  {
  }

  lemma {:induction false} RunGrows(s: State, es: seq<Event>)
    ensures Grows(s, Exec(s, es))
    decreases |es|
  {
    if es != [] {
      StepGrows(s, es[0]);
      RunGrows(Apply(s, es[0]), es[1..]);
      GrowsTransitive(s, Apply(s, es[0]), Exec(Apply(s, es[0]), es[1..]));
    }
  }

  lemma PotentialFirst(s: State, es: seq<Event>, k: nat) returns (s1: State)
    requires es != [] && Shape(s) && Waiting(s, k) && Received(Exec(s, es)) <= k
    ensures Exec(s, es) == Exec(s1, es[1..])
    ensures Shape(s1) && Waiting(s1, k) && Spent(s1, k) <= Spent(s, k)
  {
    s1 := Apply(s, es[0]);
    RunGrows(s1, es[1..]);
    PotentialStep(s, es[0], k);
    ShapeStep(s, es[0]);
  }

  /** Any number of writers: while the message waits, broadcasts stay within the potential. */
  lemma {:induction false} PotentialRun(s: State, es: seq<Event>, k: nat)
    requires Shape(s) && Waiting(s, k) && Received(Exec(s, es)) <= k
    ensures Waiting(Exec(s, es), k)
    ensures Spent(Exec(s, es), k) <= Spent(s, k)
    decreases |es|
  {
    if es != [] {
      var s1 := PotentialFirst(s, es, k);
      PotentialRun(s1, es[1..], k);
    }
  }

  /** With q messages ahead, position p = q + 1: min(8 * ceil(p / 4), 32) broadcasts. */
  function Bound(q: nat): nat { Min(8 * ((q + 4) / 4), 32) }

  lemma AheadBound(pc: Pc, q: nat)
    ensures Ahead(pc, q) <= Bound(q) * Holder()(pc)
  {
    assert (q + 4) / 4 == q / DRAIN_BURST + 1;
  }

  lemma Distribute(b: nat, x: nat, y: nat)
    ensures b * (x + y) == b * x + b * y
  {
  }

  lemma MulMonotone(b: nat, x: nat, y: nat)
    requires x <= y
    ensures b * x <= b * y
  {
  }

  lemma {:induction false} PotentialBound(threads: seq<Pc>, q: nat)
    ensures Sum(AheadBy(q), threads) <= Bound(q) * Sum(Holder(), threads)
    decreases |threads|
  {
    if threads != [] {
      var n := |threads| - 1;
      PotentialBound(threads[..n], q);
      var h := Sum(Holder(), threads[..n]);
      AheadBound(threads[n], q);
      Distribute(Bound(q), h, Holder()(threads[n]));
    }
  }

  /** The writer is not inside a broadcast batch that has another broadcast to come. */
  predicate BetweenBatches(pc: Pc) {
    pc.Selecting? || pc.Writing? ==> pc.site.Priority? || (pc.site.Burst? && pc.site.last)
  }

  lemma {:induction false} PotentialBetweenBatches(threads: seq<Pc>, q: nat)
    requires forall t :: 0 <= t < |threads| ==> BetweenBatches(threads[t])
    ensures Sum(AheadBy(q), threads) == 0
    decreases |threads|
  {
    if threads != [] {
      PotentialBetweenBatches(threads[..|threads| - 1], q);
    }
  }

  /** The next step either leaves message k waiting, within the bound, or receives it and writes nothing. */
  lemma InHandFirst(s: State, es: seq<Event>, k: nat) returns (s1: State)
    requires Inv(s) && Waiting(s, k) && es != []
    ensures Exec(s, es) == Exec(s1, es[1..]) && Inv(s1)
    ensures Received(s1) <= k ==> Waiting(s1, k) && Spent(s1, k) <= Spent(s, k)
    ensures Received(s1) > k ==> Received(s1) == k + 1 && BroadcastWrites(s1) == BroadcastWrites(s)
  {
    var e := es[0];
    s1 := Apply(s, e);
    InvStep(s, e);
    if Received(s1) <= k {
      PotentialStep(s, e, k);
    } else {
      ReceivesOne(s.c, e.t, s.threads[e.t], e.ok);
      WritesOne(s.c, e.t, s.threads[e.t], e.ok);
    }
  }

  /** No stale clear, no write error, and direct message k is still not written. */
  predicate StillToCome(s: State, k: nat) {
    s.c.staleClears == 0 && s.c.lost == [] && |Through(s.c.written, Direct)| <= k
  }

  /** In a run without stale clear or write error, nothing is written between a message's receive and its write. */
  lemma {:induction false} InHandIsNext(s: State, es: seq<Event>, k: nat)
    requires Inv(s) && Waiting(s, k)
    requires Received(Exec(s, es)) > k && StillToCome(Exec(s, es), k)
    ensures BroadcastWrites(Exec(s, es)) <= Spent(s, k)
    decreases |es|
  {
    var s1 := InHandFirst(s, es, k);
    if Received(s1) <= k {
      InHandIsNext(s1, es[1..], k);
    } else {
      NothingBetween(s1, es[1..], k);
    }
  }

  lemma NothingBetween(s: State, es: seq<Event>, k: nat)
    requires Inv(s) && Received(s) == k + 1
    requires StillToCome(Exec(s, es), k)
    ensures BroadcastWrites(Exec(s, es)) <= BroadcastWrites(s)
  {
    var s' := Exec(s, es);
    InvRun(s, es);
    RunGrows(s, es);
    OneHand(s);
    OneHand(s');
    LastIsInHand(s.c.taken, s.c.written, Hands(s.threads), s'.c.taken, s'.c.written, Hands(s'.threads), k);
  }

  /** Direct number k was the last received at first, and is still in hand later. */
  lemma LastIsInHand(taken: seq<Packet>, written: seq<Packet>, hands: seq<Packet>,
                     taken': seq<Packet>, written': seq<Packet>, hands': seq<Packet>, k: nat)
    requires taken == written + hands && |hands| <= 1
    requires taken' == written' + hands' && |hands'| <= 1
    requires taken <= taken' && |Through(taken, Direct)| == k + 1
    requires |Through(written', Direct)| <= k
    ensures |Through(written', Broadcast)| <= |Through(written, Broadcast)|
  {
    if |taken| <= |written'| {
      var more := written'[|taken|..];
      assert written' == taken + more;
      ThroughConcat(taken, more, Direct);
      assert false;
    }
    assert taken == taken' && |hands'| == 1;
    var d := hands'[0];
    ThroughAppend(written', d, Direct);
    ThroughAppend(written', d, Broadcast);
    if hands == [] {
      assert written == taken;
    } else {
      assert written == taken[..|taken| - 1] == written';
    }
  }

  /** What n writers can still put before message k. */
  lemma SpentBound(s: State, k: nat, n: nat)
    requires Waiting(s, k) && Holders(s) <= n
    ensures Spent(s, k) <= BroadcastWrites(s) + Bound(k - Received(s)) * n
  {
    PotentialBound(s.threads, k - Received(s));
    MulMonotone(Bound(k - Received(s)), Holders(s), n);
  }

  lemma SpentLater(s: State, es: seq<Event>, k: nat)
    requires Inv(s) && Waiting(s, k) && StillToCome(Exec(s, es), k)
    ensures BroadcastWrites(Exec(s, es)) <= Spent(s, k)
  {
    if Received(Exec(s, es)) <= k {
      PotentialRun(s, es, k);
    } else {
      InHandIsNext(s, es, k);
    }
  }

  ghost predicate AllBetweenBatches(s: State) { forall t :: 0 <= t < |s.threads| ==> BetweenBatches(s.threads[t]) }

  lemma SpentBetweenBatches(s: State, k: nat)
    requires Waiting(s, k) && AllBetweenBatches(s)
    ensures Spent(s, k) == BroadcastWrites(s)
  {
    PotentialBetweenBatches(s.threads, k - Received(s));
  }

  predicate IsReached(s: State, directCap: nat, broadcastCap: nat, past: seq<Event>) {
    s == Exec(Init(directCap, broadcastCap), past)
  }

  ghost predicate Reached(s: State) {
    exists directCap, broadcastCap, past :: IsReached(s, directCap, broadcastCap, past)
  }

  lemma ReachedInv(s: State)
    requires Reached(s)
    ensures Inv(s)
  {
    var directCap, broadcastCap, past :| IsReached(s, directCap, broadcastCap, past);
    Reachable(directCap, broadcastCap, past);
  }

  lemma DirectFrom(s: State, es: seq<Event>, k: nat)
    requires Reached(s) && Waiting(s, k) && StillToCome(Exec(s, es), k)
    ensures BroadcastWrites(Exec(s, es)) <= BroadcastWrites(s) + Bound(k - Received(s))
    ensures AllBetweenBatches(s) ==> BroadcastWrites(Exec(s, es)) == BroadcastWrites(s)
  {
    ReachedInv(s);
    RunGrows(s, es);
    SpentLater(s, es, k);
    SpentBound(s, k, 1);
    if AllBetweenBatches(s) {
      SpentBetweenBatches(s, k);
    }
  }

  /**
    Direct traffic is not starved: in a run without stale clear or write error, a direct
    message with q others ahead of it (position p = q + 1) is preceded by at most
    8 * ceil(p / 4) further broadcast writes, never by more than a batch of 32, and by none if
    the writer was between batches.
    */
  lemma DirectIsNotStarved(directCap: nat, broadcastCap: nat, past: seq<Event>, es: seq<Event>, k: nat)
    requires var s := Exec(Init(directCap, broadcastCap), past);
      Waiting(s, k) && StillToCome(Exec(s, es), k)
    ensures var s := Exec(Init(directCap, broadcastCap), past);
      && BroadcastWrites(Exec(s, es)) <= BroadcastWrites(s) + Bound(k - Received(s))
      && (AllBetweenBatches(s) ==> BroadcastWrites(Exec(s, es)) == BroadcastWrites(s))
  {
    var s := Exec(Init(directCap, broadcastCap), past);
    assert IsReached(s, directCap, broadcastCap, past);
    DirectFrom(s, es, k);
  }

  /** With overlapping writers the bound scales with their number; it still needs no assumption on the schedule. */
  lemma StarvationBoundPerWriter(directCap: nat, broadcastCap: nat, past: seq<Event>, es: seq<Event>, k: nat)
    requires var s := Exec(Init(directCap, broadcastCap), past);
      Waiting(s, k) && Received(Exec(s, es)) <= k
    ensures var s := Exec(Init(directCap, broadcastCap), past);
      BroadcastWrites(Exec(s, es))
      <= BroadcastWrites(s) + Bound(k - Received(s)) * ((if s.c.writerRunning then 1 else 0) + s.c.staleClears)
  {
    var s := Exec(Init(directCap, broadcastCap), past);
    Reachable(directCap, broadcastCap, past);
    PotentialRun(s, es, k);
    SpentBound(s, k, (if s.c.writerRunning then 1 else 0) + s.c.staleClears);
  }
}
