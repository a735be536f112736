/**
  What every interleaving of Outbound keeps: queue bounds, the exact account of the
  writers, no lost wakeup, and conservation and order of the messages.
  */
module OutboundSafety {
  import opened Outbound
  import opened Threads

  // ------------------------------------------------------------------------------
  // Local shape of the threads
  // ------------------------------------------------------------------------------

  predicate GoodSite(site: Site) {
    match site
    case Priority => true
    case Batch(i) => i < BATCH_SIZE
    case Burst(i, left, last) =>
      1 <= left <= DRAIN_BURST && (!last ==> 0 < i < BATCH_SIZE && i % PREEMPT_EVERY == 0)
  }

  predicate GoodPc(pc: Pc, closed: bool) {
    && (pc.Selecting? || pc.Writing? ==> GoodSite(pc.site))
    && (pc == Exiting(false) ==> closed)
  }

  ghost predicate Shape(s: State) {
    && (forall t :: 0 <= t < |s.threads| ==> GoodPc(s.threads[t], s.c.closed))
    && |s.c.direct| <= s.c.directCap
    && |s.c.broadcast| <= s.c.broadcastCap
  }

  lemma ShapeOne(c: Conn, t: nat, pc: Pc, ok: bool)
    requires GoodPc(pc, c.closed) && |c.direct| <= c.directCap && |c.broadcast| <= c.broadcastCap
    ensures var c' := NextConn(c, t, pc, ok);
      && GoodPc(NextPc(c, pc, ok), c'.closed)
      && |c'.direct| <= c'.directCap && |c'.broadcast| <= c'.broadcastCap
      && c'.directCap == c.directCap && c'.broadcastCap == c.broadcastCap
      && (c.closed ==> c'.closed)
  {
  }

  lemma ShapeStep(s: State, e: Event)
    requires Shape(s)
    ensures Shape(Apply(s, e))
  {
    if e.Run? && e.t < |s.threads| {
      ShapeOne(s.c, e.t, s.threads[e.t], e.ok);
    }
  }

  // ------------------------------------------------------------------------------
  // Writers
  // ------------------------------------------------------------------------------

  function Holder(): Pc -> nat { pc => if Holds(pc) then 1 else 0 }

  function Holders(s: State): nat { Sum(Holder(), s.threads) }

  predicate Owned(s: State) {
    s.c.writerRunning ==> s.c.owner < |s.threads| && Holds(s.threads[s.c.owner])
  }

  predicate Accounted(s: State) {
    Holders(s) + s.c.wastedClears == (if s.c.writerRunning then 1 else 0) + s.c.staleClears
  }

  lemma OwnedStep(s: State, e: Event)
    requires Owned(s)
    ensures Owned(Apply(s, e))
  {
  }

  lemma AccountedOne(c: Conn, t: nat, pc: Pc, ok: bool)
    ensures var c' := NextConn(c, t, pc, ok);
      Holder()(NextPc(c, pc, ok)) + c'.wastedClears + c.staleClears + (if c.writerRunning then 1 else 0)
      == Holder()(pc) + c.wastedClears + c'.staleClears + (if c'.writerRunning then 1 else 0)
  {
  }

  lemma AccountedStep(s: State, e: Event)
    requires Accounted(s)
    ensures Accounted(Apply(s, e))
  {
    match e
    case Arrive(p) => SumAppend(Holder(), s.threads, Offered(p));
    case Shut =>
    case Run(t, ok) =>
      if t < |s.threads| {
        SumUpdate(Holder(), s.threads, t, NextPc(s.c, s.threads[t], ok));
        AccountedOne(s.c, t, s.threads[t], ok);
      }
  }

  // ------------------------------------------------------------------------------
  // No lost wakeup
  // ------------------------------------------------------------------------------

  /** The thread is draining, will still look at queue `ch`, or has its flag attempt ahead. */
  predicate Attends(pc: Pc, ch: Channel) {
    match pc
    case Ensuring | Claiming => true
    case Selecting(_) | Writing(_, _) | Clearing | RecheckClosed | RecheckDirect => true
    case RecheckBroadcast => ch == Broadcast
    case Reclaiming | Failing => true
    case Offered(_) | Pushing(_) | Exiting(_) | Finished => false
  }

  ghost predicate Attended(s: State, ch: Channel) {
    exists t :: 0 <= t < |s.threads| && Attends(s.threads[t], ch)
  }

  ghost predicate NoLostWakeup(s: State) {
    !s.c.closed ==> forall ch :: s.c.Queue(ch) != [] ==> Attended(s, ch)
  }

  lemma NoLostWakeupStep(s: State, e: Event)
    requires NoLostWakeup(s) && Owned(s) && Shape(s)
    ensures NoLostWakeup(Apply(s, e))
  {
    var s' := Apply(s, e);
    if !s'.c.closed {
      forall ch | s'.c.Queue(ch) != []
        ensures Attended(s', ch)
      {
        if e.Run? && e.t < |s.threads| && Attends(s'.threads[e.t], ch) {
          // the moving thread still attends
        } else {
          var w :| 0 <= w < |s.threads| && Attends(s.threads[w], ch);
          if e.Run? && w == e.t {
            // w gives up: only because somebody else holds the flag
            assert s.c.writerRunning && s.c.owner != w;
            assert GoodPc(s.threads[s.c.owner], s.c.closed);
            assert s'.threads[s.c.owner] == s.threads[s.c.owner];
          } else {
            assert s'.threads[w] == s.threads[w];
          }
        }
      }
    }
  }

  // ------------------------------------------------------------------------------
  // Conservation and order
  // ------------------------------------------------------------------------------

  /** The messages of the packets that travelled through `ch`, in order. */
  function Through(ps: seq<Packet>, ch: Channel): seq<Message> {
    if ps == [] then []
    else
      var rest := Through(ps[..|ps| - 1], ch);
      var p := ps[|ps| - 1];
      if p.channel == ch then rest + [p.message] else rest
  }

  lemma ThroughAppend(ps: seq<Packet>, p: Packet, ch: Channel)
    ensures Through(ps + [p], ch) == Through(ps, ch) + (if p.channel == ch then [p.message] else [])
  {
    assert (ps + [p])[..|ps|] == ps;
  }

  /** How often a message went through a queue is how often its packet did. */
  lemma {:induction false} ThroughCounts(ps: seq<Packet>, ch: Channel, m: Message)
    ensures multiset(Through(ps, ch))[m] == multiset(ps)[Packet(ch, m)]
    decreases |ps|
  {
    if ps != [] {
      var n := |ps| - 1;
      ThroughCounts(ps[..n], ch, m);
      assert ps == ps[..n] + [ps[n]];
    }
  }

  /** The same packets are the same messages in each queue. */
  lemma SameThrough(ps: seq<Packet>, qs: seq<Packet>, ch: Channel)
    requires multiset(ps) == multiset(qs)
    ensures multiset(Through(ps, ch)) == multiset(Through(qs, ch))
  {
    forall m
      ensures multiset(Through(ps, ch))[m] == multiset(Through(qs, ch))[m]
    {
      ThroughCounts(ps, ch, m);
      ThroughCounts(qs, ch, m);
    }
  }

  /** What a thread has received but not yet written. */
  function Hand(pc: Pc): seq<Packet> {
    if pc.Writing? then [Packet(Source(pc.site), pc.message)] else []
  }

  function Hands(threads: seq<Pc>): seq<Packet> {
    if threads == [] then []
    else Hands(threads[..|threads| - 1]) + Hand(threads[|threads| - 1])
  }

  lemma {:induction false} HandsUpdate(threads: seq<Pc>, t: nat, pc: Pc)
    requires t < |threads|
    ensures multiset(Hands(threads[t := pc])) + multiset(Hand(threads[t]))
         == multiset(Hands(threads)) + multiset(Hand(pc))
    decreases |threads|
  {
    var n := |threads| - 1;
    var moved := threads[t := pc];
    assert Hands(moved) == Hands(moved[..n]) + Hand(moved[n]);
    assert Hands(threads) == Hands(threads[..n]) + Hand(threads[n]);
    if t < n {
      assert moved[..n] == threads[..n][t := pc];
      HandsUpdate(threads[..n], t, pc);
      MultisetSwap(Hands(moved[..n]), Hands(threads[..n]), Hand(threads[n]), Hand(threads[t]), Hand(pc));
    } else {
      assert moved[..n] == threads[..n];
    }
  }

  lemma MultisetSwap(a: seq<Packet>, b: seq<Packet>, x: seq<Packet>, y: seq<Packet>, z: seq<Packet>)
    requires multiset(a) + multiset(y) == multiset(b) + multiset(z)
    ensures multiset(a + x) + multiset(y) == multiset(b + x) + multiset(z)
  {
    assert multiset(a + x) + multiset(y) == (multiset(a) + multiset(y)) + multiset(x);
    assert multiset(b + x) + multiset(z) == (multiset(b) + multiset(z)) + multiset(x);
  }

  lemma HandsAppend(threads: seq<Pc>, pc: Pc)
    requires Hand(pc) == []
    ensures Hands(threads + [pc]) == Hands(threads)
  {
    assert (threads + [pc])[..|threads|] == threads;
  }

  /** Each queue is exactly what was accepted on it and not yet received, in order. */
  predicate QueueIsSuffix(c: Conn, ch: Channel) {
    Through(c.accepted, ch) == Through(c.taken, ch) + c.Queue(ch)
  }

  /** Nothing received is duplicated or forgotten. */
  predicate Conserved(s: State) {
    multiset(s.c.taken) == multiset(s.c.written) + multiset(s.c.lost) + multiset(Hands(s.threads))
  }

  lemma QueuesPush(c: Conn, p: Packet, ch: Channel)
    requires QueueIsSuffix(c, ch)
    ensures QueueIsSuffix(Push(c, p), ch)
  {
    ThroughAppend(c.accepted, p, ch);
  }

  lemma QueuesTake(c: Conn, from: Channel, ch: Channel)
    requires c.Queue(from) != [] && QueueIsSuffix(c, ch)
    ensures QueueIsSuffix(Take(c, from), ch)
  {
    var p := Packet(from, c.Queue(from)[0]);
    ThroughAppend(c.taken, p, ch);
    if from == ch {
      MoveFirst(Through(c.taken, ch), c.Queue(ch));
    } else {
      assert Take(c, from).Queue(ch) == c.Queue(ch);
    }
  }

  lemma MoveFirst(done: seq<Message>, queue: seq<Message>)
    requires queue != []
    ensures done + queue == (done + [queue[0]]) + queue[1..]
  {
  }

  lemma QueuesStep(s: State, e: Event, ch: Channel)
    requires QueueIsSuffix(s.c, ch)
    ensures QueueIsSuffix(Apply(s, e).c, ch)
  {
    if e.Run? && e.t < |s.threads| {
      match s.threads[e.t]
      case Pushing(p) => QueuesPush(s.c, p, ch);
      case Selecting(site) =>
        if s.c.Queue(Source(site)) != [] {
          QueuesTake(s.c, Source(site), ch);
        }
      case _ =>
    }
  }

  /** An atomic action receives, writes or loses one packet, or moves none. */
  predicate Moves(c: Conn, c': Conn, pc: Pc, pc': Pc) { MovesHand(c, c', Hand(pc), Hand(pc')) }

  predicate MovesHand(c: Conn, c': Conn, hand: seq<Packet>, hand': seq<Packet>) {
    || (c'.taken == c.taken && c'.written == c.written && c'.lost == c.lost && hand' == hand)
    || (c'.taken == c.taken + hand' && c'.written == c.written && c'.lost == c.lost && hand == [])
    || (c'.taken == c.taken && c'.written == c.written + hand && c'.lost == c.lost && hand' == [])
    || (c'.taken == c.taken && c'.written == c.written && c'.lost == c.lost + hand && |c'.lost| > 0 && hand' == [])
  }

  lemma MovesOne(c: Conn, t: nat, pc: Pc, ok: bool)
    ensures Moves(c, NextConn(c, t, pc, ok), pc, NextPc(c, pc, ok))
  {
  }

  lemma ConservedMove(c: Conn, c': Conn, threads: seq<Pc>, t: nat, pc': Pc)
    requires Conserved(State(c, threads)) && t < |threads| && Moves(c, c', threads[t], pc')
    ensures Conserved(State(c', threads[t := pc']))
  {
    HandsUpdate(threads, t, pc');
    Rebalance(multiset(c.taken), multiset(c.written), multiset(c.lost), multiset(Hands(threads)),
              multiset(Hand(threads[t])), multiset(Hand(pc')), multiset(Hands(threads[t := pc'])));
  }

  lemma ConservedStep(s: State, e: Event)
    requires Conserved(s)
    ensures Conserved(Apply(s, e))
  {
    match e
    case Arrive(p) => HandsAppend(s.threads, Offered(p));
    case Shut =>
    case Run(t, ok) =>
      if t < |s.threads| {
        MovesOne(s.c, t, s.threads[t], ok);
        ConservedMove(s.c, NextConn(s.c, t, s.threads[t], ok), s.threads, t, NextPc(s.c, s.threads[t], ok));
      }
  }

  lemma Rebalance(taken: multiset<Packet>, written: multiset<Packet>, lost: multiset<Packet>,
                  hands: multiset<Packet>, x: multiset<Packet>, y: multiset<Packet>, hands': multiset<Packet>)
    requires taken == written + lost + hands && hands' + x == hands + y
    ensures x == y ==> taken == written + lost + hands'
    ensures x == multiset{} ==> taken + y == written + lost + hands'
    ensures y == multiset{} ==> taken == (written + x) + lost + hands'
    ensures y == multiset{} ==> taken == written + (lost + x) + hands'
  {
    if x == y {
      assert hands == (hands + y) - y;
      assert hands' == (hands' + x) - x;
    }
    if x == multiset{} {
      assert hands' == hands' + x;
    }
    if y == multiset{} {
      assert hands == hands + y;
      assert hands == x + hands';
    }
  }

  /** With nobody else holding anything, the hands are those of thread t. */
  lemma {:induction false} LoneHand(threads: seq<Pc>, t: nat)
    requires t < |threads| && OthersEmptyHanded(threads, t)
    ensures Hands(threads) == Hand(threads[t])
    decreases |threads|
  {
    var n := |threads| - 1;
    if t < n {
      LoneHand(threads[..n], t);
    } else {
      EmptyHands(threads[..n]);
    }
  }

  lemma {:induction false} EmptyHands(threads: seq<Pc>)
    requires forall u :: 0 <= u < |threads| ==> Hand(threads[u]) == []
    ensures Hands(threads) == []
    decreases |threads|
  {
    if threads != [] {
      EmptyHands(threads[..|threads| - 1]);
    }
  }

  /** While no stale clear has happened, at most one thread holds the flag. */
  lemma SingleHolder(s: State, t: nat, u: nat)
    requires Accounted(s) && s.c.staleClears == 0
    requires t < |s.threads| && u < |s.threads| && t != u
    ensures !(Holds(s.threads[t]) && Holds(s.threads[u]))
  {
    SumCovers(Holder(), s.threads, t, u);
  }

  /** Without a stale clear and without a write error, writes follow receives. */
  predicate Ordered(s: State) {
    s.c.staleClears == 0 && s.c.lost == [] ==> s.c.taken == s.c.written + Hands(s.threads)
  }

  ghost predicate OthersEmptyHanded(threads: seq<Pc>, t: nat) {
    forall u :: 0 <= u < |threads| && u != t ==> Hand(threads[u]) == []
  }

  lemma OrderedHand(c: Conn, c': Conn, hand: seq<Packet>, hand': seq<Packet>)
    requires MovesHand(c, c', hand, hand') && c.lost == [] && c'.lost == []
    requires c.taken == c.written + hand
    ensures c'.taken == c'.written + hand'
  {
  }

  lemma OrderedMove(c: Conn, c': Conn, threads: seq<Pc>, t: nat, pc': Pc)
    requires t < |threads| && Moves(c, c', threads[t], pc')
    requires c.staleClears <= c'.staleClears
    requires Ordered(State(c, threads))
    requires c'.staleClears == 0 && Hand(threads[t]) != Hand(pc') ==> OthersEmptyHanded(threads, t)
    ensures Ordered(State(c', threads[t := pc']))
  {
    if c'.staleClears == 0 && c'.lost == [] {
      LostStays(c, c', Hand(threads[t]), Hand(pc'));
      if Hand(threads[t]) == Hand(pc') {
        SameHands(threads, t, pc');
        SameHand(c, c', Hand(pc'), Hands(threads));
      } else {
        LoneHand(threads, t);
        LoneHand(threads[t := pc'], t);
        OrderedHand(c, c', Hand(threads[t]), Hand(pc'));
      }
    }
  }

  lemma LostStays(c: Conn, c': Conn, hand: seq<Packet>, hand': seq<Packet>)
    requires MovesHand(c, c', hand, hand') && c'.lost == []
    ensures c.lost == []
  {
  }

  lemma SameHand(c: Conn, c': Conn, hand: seq<Packet>, hands: seq<Packet>)
    requires MovesHand(c, c', hand, hand) && c'.lost == [] && c.taken == c.written + hands
    ensures c'.taken == c'.written + hands
  {
  }

  lemma OrderedStep(s: State, e: Event)
    requires Ordered(s) && Accounted(s)
    ensures Ordered(Apply(s, e))
  {
    match e
    case Arrive(p) => HandsAppend(s.threads, Offered(p));
    case Shut =>
    case Run(t, ok) =>
      if t < |s.threads| {
        var pc, pc' := s.threads[t], NextPc(s.c, s.threads[t], ok);
        var c' := NextConn(s.c, t, pc, ok);
        MovesOne(s.c, t, pc, ok);
        if c'.staleClears == 0 && Hand(pc) != Hand(pc') {
          AccountedStep(s, e);
          Alone(s, State(c', s.threads[t := pc']), t);
        }
        OrderedMove(s.c, c', s.threads, t, pc');
      }
  }

  lemma Alone(s: State, s': State, t: nat)
    requires Accounted(s) && Accounted(s') && s.c.staleClears == s'.c.staleClears == 0
    requires t < |s.threads| == |s'.threads| && s'.threads == s.threads[t := s'.threads[t]]
    requires Hand(s.threads[t]) != [] || Hand(s'.threads[t]) != []
    ensures OthersEmptyHanded(s.threads, t)
  {
    forall u | 0 <= u < |s.threads| && u != t
      ensures Hand(s.threads[u]) == []
    {
      if Hand(s'.threads[t]) != [] {
        SingleHolder(s', t, u);
      } else {
        SingleHolder(s, t, u);
      }
    }
  }

  lemma {:induction false} SameHands(threads: seq<Pc>, t: nat, pc: Pc)
    requires t < |threads| && Hand(pc) == Hand(threads[t])
    ensures Hands(threads[t := pc]) == Hands(threads)
    decreases |threads|
  {
    var n := |threads| - 1;
    if t < n {
      assert threads[t := pc][..n] == threads[..n][t := pc];
      SameHands(threads[..n], t, pc);
    } else {
      assert threads[t := pc][..n] == threads[..n];
    }
  }

  // ------------------------------------------------------------------------------
  // Reachable states
  // ------------------------------------------------------------------------------

  /** A write error closes the connection, at the next step of the thread that had it. */
  ghost predicate LossCloses(s: State) {
    s.c.lost != [] ==> s.c.closed || exists t :: 0 <= t < |s.threads| && s.threads[t].Failing?
  }

  lemma LossOne(c: Conn, t: nat, pc: Pc, ok: bool)
    ensures NextConn(c, t, pc, ok).lost != c.lost ==> NextPc(c, pc, ok).Failing?
    ensures pc.Failing? || c.closed ==> NextConn(c, t, pc, ok).closed
  {
  }

  lemma LossClosesStep(s: State, e: Event)
    requires LossCloses(s)
    ensures LossCloses(Apply(s, e))
  {
    var s' := Apply(s, e);
    if e.Run? && e.t < |s.threads| {
      LossOne(s.c, e.t, s.threads[e.t], e.ok);
      if s'.c.lost != s.c.lost {
        assert s'.threads[e.t].Failing?;
      }
    }
    if s.c.lost != [] && !s'.c.closed {
      var t :| 0 <= t < |s.threads| && s.threads[t].Failing?;
      assert s'.threads[t].Failing?;
    }
  }

  ghost predicate Inv(s: State) {
    LossCloses(s) && Shape(s) && Owned(s) && Accounted(s) && NoLostWakeup(s)
    && QueueIsSuffix(s.c, Direct) && QueueIsSuffix(s.c, Broadcast) && Conserved(s) && Ordered(s)
  }

  lemma InvStep(s: State, e: Event)
    requires Inv(s)
    ensures Inv(Apply(s, e))
  {
    LossClosesStep(s, e);
    ShapeStep(s, e);
    OwnedStep(s, e);
    AccountedStep(s, e);
    NoLostWakeupStep(s, e);
    QueuesStep(s, e, Direct);
    QueuesStep(s, e, Broadcast);
    ConservedStep(s, e);
    OrderedStep(s, e);
  }

  lemma {:induction false} InvRun(s: State, es: seq<Event>)
    requires Inv(s)
    ensures Inv(Exec(s, es))
    decreases |es|
  {
    if es != [] {
      InvStep(s, es[0]);
      InvRun(Apply(s, es[0]), es[1..]);
    }
  }

  lemma Reachable(directCap: nat, broadcastCap: nat, es: seq<Event>)
    ensures Inv(Exec(Init(directCap, broadcastCap), es))
  {
    InvRun(Init(directCap, broadcastCap), es);
  }

  /** No wakeup is lost in any interleaving of any number of producers and writers. */
  lemma NoWakeupIsLost(directCap: nat, broadcastCap: nat, es: seq<Event>, ch: Channel)
    ensures var s := Exec(Init(directCap, broadcastCap), es);
      s.c.Queue(ch) != [] && !s.c.closed ==> exists t :: 0 <= t < |s.threads| && Attends(s.threads[t], ch)
  {
    Reachable(directCap, broadcastCap, es);
  }

  /** Writers that may write, or have yet to put the flag down. */
  predicate Draining(pc: Pc) { pc.Selecting? || pc.Writing? }

  function Drainer(): Pc -> nat { pc => if Draining(pc) then 1 else 0 }

  lemma {:induction false} DrainersHold(threads: seq<Pc>)
    ensures Sum(Drainer(), threads) <= Sum(Holder(), threads)
    decreases |threads|
  {
    if threads != [] {
      DrainersHold(threads[..|threads| - 1]);
    }
  }

  /** The overlap of writers is exactly the balance of flag, stale and wasted clears. */
  lemma WriterOverlap(directCap: nat, broadcastCap: nat, es: seq<Event>)
    ensures var s := Exec(Init(directCap, broadcastCap), es);
      && Holders(s) + s.c.wastedClears == (if s.c.writerRunning then 1 else 0) + s.c.staleClears
      && Sum(Drainer(), s.threads) <= (if s.c.writerRunning then 1 else 0) + s.c.staleClears
      && (s.c.staleClears == 0 ==>
            forall t, u :: 0 <= t < u < |s.threads| ==>
              !(Draining(s.threads[t]) && Draining(s.threads[u])))
  {
    Reachable(directCap, broadcastCap, es);
    var s := Exec(Init(directCap, broadcastCap), es);
    DrainersHold(s.threads);
    if s.c.staleClears == 0 {
      forall t, u | 0 <= t < u < |s.threads|
        ensures !(Draining(s.threads[t]) && Draining(s.threads[u]))
      {
        SingleHolder(s, t, u);
      }
    }
  }

  /** In every state accepted = received + queued, and received = written + lost + in hand. */
  lemma MessagesAreConserved(directCap: nat, broadcastCap: nat, es: seq<Event>, ch: Channel)
    ensures var s := Exec(Init(directCap, broadcastCap), es);
      && Through(s.c.accepted, ch) == Through(s.c.taken, ch) + s.c.Queue(ch)
      && multiset(s.c.taken) == multiset(s.c.written) + multiset(s.c.lost) + multiset(Hands(s.threads))
      && |s.c.Queue(ch)| <= s.c.Cap(ch)
  {
    Reachable(directCap, broadcastCap, es);
  }

  lemma {:induction false} ThroughConcat(ps: seq<Packet>, qs: seq<Packet>, ch: Channel)
    ensures Through(ps + qs, ch) == Through(ps, ch) + Through(qs, ch)
    decreases |qs|
  {
    if qs == [] {
      assert ps + qs == ps;
    } else {
      var n := |qs| - 1;
      ThroughConcat(ps, qs[..n], ch);
      assert ps + qs == (ps + qs[..n]) + [qs[n]];
      ThroughAppend(ps + qs[..n], qs[n], ch);
      assert Through(ps, ch) + Through(qs, ch)
          == Through(ps, ch) + Through(qs[..n], ch) + (if qs[n].channel == ch then [qs[n].message] else []);
    }
  }

  lemma OneHand(s: State)
    requires Accounted(s) && s.c.staleClears == 0
    ensures |Hands(s.threads)| <= 1
  {
    if t :| 0 <= t < |s.threads| && Hand(s.threads[t]) != [] {
      forall u | 0 <= u < |s.threads| && u != t
        ensures Hand(s.threads[u]) == []
      {
        SingleHolder(s, t, u);
      }
      LoneHand(s.threads, t);
    } else {
      EmptyHands(s.threads);
    }
  }

  /** First in, first out: written, then the one in hand, then the queue. */
  lemma DeliveryIsFifo(directCap: nat, broadcastCap: nat, es: seq<Event>, ch: Channel)
    ensures var s := Exec(Init(directCap, broadcastCap), es);
      s.c.staleClears == 0 && s.c.lost == [] ==>
        && |Hands(s.threads)| <= 1
        && Through(s.c.accepted, ch) == Through(s.c.written, ch) + Through(Hands(s.threads), ch) + s.c.Queue(ch)
  {
    Reachable(directCap, broadcastCap, es);
    var s := Exec(Init(directCap, broadcastCap), es);
    if s.c.staleClears == 0 && s.c.lost == [] {
      ThroughConcat(s.c.written, Hands(s.threads), ch);
      OneHand(s);
    }
  }

  /**
    Writer exclusivity does not hold outright: writer 0 puts the flag down and decides to
    leave, thread 1 takes the flag, writer 0's deferred clear drops it, and thread 2 joins.
    */
  lemma TwoWritersCanOverlap(m: Message)
    ensures exists es: seq<Event> ::
      var s := Exec(Init(64, 32), es);
      && |s.threads| == 3 && Draining(s.threads[1]) && Draining(s.threads[2])
      && s.c.staleClears == 1
  {
    var s0 := Init(64, 32);
    var a, s1 := Enlist(s0, m);
    var b, s2 := Leave(s1, 0);
    ExecSplit(s0, a, b);
    var c, s3 := Enlist(s2, m);
    ExecSplit(s0, a + b, c);
    var d := [Run(0, true)];
    var s4 := Apply(s3, d[0]);
    assert Exec(s3, d) == s4;
    ExecSplit(s0, a + b + c, d);
    var f, s5 := Enlist(s4, m);
    ExecSplit(s0, a + b + c + d, f);
    assert s5 == Exec(s0, a + b + c + d + f);
  }

  lemma Snoc(s: State, es: seq<Event>, e: Event)
    ensures Exec(s, es + [e]) == Apply(Exec(s, es), e)
  {
    ExecSplit(s, es, [e]);
  }

  /**
    A broadcast can be queued and answered with the closed error: somebody closes the
    connection between the push and the second look at it.
    */
  lemma QueuedAndClosed(m: Message)
    ensures exists es: seq<Event> ::
      var s := Exec(Init(64, 32), es);
      && s.threads == [Ensuring] && s.c.closed && s.c.accepted == [Packet(Broadcast, m)] && s.c.broadcast == [m]
      && Advance(s, 0, true).threads == [Finished]
  {
    var p, r, s0 := Packet(Broadcast, m), Run(0, true), Init(64, 32);
    var es, s := [Arrive(p)], Apply(s0, Arrive(p));
    Snoc(s0, es, r); es, s := es + [r], Apply(s, r);
    assert s.threads == [Pushing(p)];
    Snoc(s0, es, r); es, s := es + [r], Apply(s, r);
    assert s.threads == [Ensuring];
    Snoc(s0, es, Shut); es, s := es + [Shut], Apply(s, Shut);
    assert s == Exec(s0, es);
  }

  /** A new sender of m becomes the writer. */
  lemma Enlist(s: State, m: Message) returns (es: seq<Event>, s': State)
    requires !s.c.closed && !s.c.writerRunning && |s.c.direct| < s.c.directCap
    ensures s' == Exec(s, es)
    ensures s'.threads == s.threads + [Selecting(Priority)]
    ensures s'.c == Push(s.c, Packet(Direct, m)).(writerRunning := true, owner := |s.threads|)
  {
    var p := Packet(Direct, m);
    var n := |s.threads|;
    var r := Run(n, true);
    es, s' := [Arrive(p)], Apply(s, Arrive(p));
    Snoc(s, es, r); es, s' := es + [r], Apply(s', r);
    assert s'.threads == s.threads + [Pushing(p)];
    Snoc(s, es, r); es, s' := es + [r], Apply(s', r);
    assert s'.threads == s.threads + [Ensuring];
    Snoc(s, es, r); es, s' := es + [r], Apply(s', r);
    assert s'.threads == s.threads + [Claiming];
    Snoc(s, es, r); es, s' := es + [r], Apply(s', r);
  }

  /** Writer t writes the one queued message and decides to leave. */
  lemma Leave(s: State, t: nat) returns (es: seq<Event>, s': State)
    requires t < |s.threads| && s.threads[t] == Selecting(Priority)
    requires !s.c.closed && s.c.writerRunning && |s.c.direct| == 1 && s.c.broadcast == []
    ensures s' == Exec(s, es)
    ensures s'.threads == s.threads[t := Exiting(true)]
    ensures s'.c.direct == [] && !s'.c.writerRunning && !s'.c.closed
    ensures s'.c.staleClears == s.c.staleClears && s'.c.directCap == s.c.directCap
  {
    var r := Run(t, true);
    es, s' := [r], Apply(s, r);
    assert s'.threads[t] == Writing(Priority, s.c.direct[0]);
    Snoc(s, es, r); es, s' := es + [r], Apply(s', r);
    Snoc(s, es, r); es, s' := es + [r], Apply(s', r);
    assert s'.threads[t] == Selecting(Batch(0));
    Snoc(s, es, r); es, s' := es + [r], Apply(s', r);
    assert s'.threads[t] == Clearing;
    Snoc(s, es, r); es, s' := es + [r], Apply(s', r);
    assert s'.threads[t] == RecheckClosed;
    Snoc(s, es, r); es, s' := es + [r], Apply(s', r);
    Snoc(s, es, r); es, s' := es + [r], Apply(s', r);
    assert s'.threads[t] == RecheckBroadcast;
    Snoc(s, es, r); es, s' := es + [r], Apply(s', r);
  }
}
