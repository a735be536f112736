/**
  Every interleaving of Outbound terminates once nobody starts a new send, and what is
  left then is either a closed connection or two empty queues.
  */
module OutboundProgress {
  import opened Outbound
  import opened Threads
  import opened OutboundSafety

  const TOP_RANK: nat := 23

  /**
    A thread's distance to its next push, its next receive or its end, when the queues do
    not change meanwhile.  The drain loop is a cycle, so where the cycle starts depends on
    which queue is non-empty: at the receive that will succeed.
    */
  function Rank(pc: Pc, someDirect: bool, someBroadcast: bool): (rank: nat)
    ensures rank <= TOP_RANK
  {
    var priority := if someDirect then 3 else if someBroadcast then 4 else 8;
    match pc
    case Offered(_) => 23
    case Pushing(_) => 22
    case Ensuring => 21
    case Claiming => 20
    case Writing(_, _) => priority + 4
    case Selecting(site) =>
      (match site
       case Priority => priority
       case Batch(i) =>
         if i > 0 then priority + 2
         else if someDirect then 9 else if someBroadcast then 3 else 7
       case Burst(_, _, last) => if last then priority + 1 else priority + 3)
    case Clearing => if someDirect then 8 else if someBroadcast then 9 else 6
    case RecheckClosed => if someDirect then 7 else if someBroadcast then 8 else 5
    case RecheckDirect => if someDirect then 6 else if someBroadcast then 7 else 4
    case RecheckBroadcast => if someDirect then 5 else if someBroadcast then 6 else 3
    case Reclaiming => if someDirect then 4 else if someBroadcast then 5 else 9
    case Failing => 2
    case Exiting(_) => 1
    case Finished => 0
  }

  function RankBy(someDirect: bool, someBroadcast: bool): Pc -> nat {
    pc => Rank(pc, someDirect, someBroadcast)
  }

  function Ranks(s: State): nat {
    Sum(RankBy(s.c.direct != [], s.c.broadcast != []), s.threads)
  }

  function Sender(): Pc -> nat { (pc: Pc) => if pc.Offered? || pc.Pushing? then 1 else 0 }

  /** Pushes still possible count twice, messages still queued once. */
  function Load(s: State): nat {
    2 * Sum(Sender(), s.threads) + |s.c.direct| + |s.c.broadcast|
  }

  function Fuel(s: State): nat {
    Load(s) * (TOP_RANK * |s.threads| + 1) + Ranks(s)
  }

  lemma {:induction false} SumBound(f: Pc -> nat, threads: seq<Pc>, top: nat)
    requires forall pc :: f(pc) <= top
    ensures Sum(f, threads) <= top * |threads|
    decreases |threads|
  {
    if threads != [] {
      SumBound(f, threads[..|threads| - 1], top);
    }
  }

  /** The local form of progress: one of push, receive, or a smaller rank. */
  lemma ProgressOne(c: Conn, t: nat, pc: Pc, ok: bool)
    requires pc != Finished && GoodPc(pc, c.closed)
    ensures var c', pc' := NextConn(c, t, pc, ok), NextPc(c, pc, ok);
      || (Sender()(pc) == 1 && Sender()(pc') == 0
          && |c'.direct| + |c'.broadcast| <= |c.direct| + |c.broadcast| + 1)
      || (Sender()(pc) == Sender()(pc') && |c'.direct| + |c'.broadcast| + 1 == |c.direct| + |c.broadcast|)
      || (Sender()(pc) == Sender()(pc') && c'.direct == c.direct && c'.broadcast == c.broadcast
          && Rank(pc', c.direct != [], c.broadcast != []) < Rank(pc, c.direct != [], c.broadcast != []))
  {
  }

  lemma LighterLoad(load: nat, load': nat, width: nat, ranks: nat, ranks': nat)
    requires load' < load && ranks' <= width
    ensures load' * (width + 1) + ranks' < load * (width + 1) + ranks
  {
    assert load * (width + 1) >= (load' + 1) * (width + 1) == load' * (width + 1) + width + 1;
  }

  lemma FuelBurns(s: State, t: nat, ok: bool)
    requires Shape(s) && t < |s.threads| && s.threads[t] != Finished
    ensures Fuel(Advance(s, t, ok)) < Fuel(s)
  {
    var s' := Advance(s, t, ok);
    var pc, pc' := s.threads[t], NextPc(s.c, s.threads[t], ok);
    ProgressOne(s.c, t, pc, ok);
    SumUpdate(Sender(), s.threads, t, pc');
    SumBound(RankBy(s'.c.direct != [], s'.c.broadcast != []), s'.threads, TOP_RANK);
    if Load(s') < Load(s) {
      LighterLoad(Load(s), Load(s'), TOP_RANK * |s.threads|, Ranks(s), Ranks(s'));
    } else {
      SumUpdate(RankBy(s.c.direct != [], s.c.broadcast != []), s.threads, t, pc');
    }
  }

  /** No new send and no Close: only threads that still have something to do move. */
  predicate Settling(s: State, es: seq<Event>)
    decreases |es|
  {
    es != [] ==>
      && es[0].Run? && es[0].t < |s.threads| && s.threads[es[0].t] != Finished
      && Settling(Apply(s, es[0]), es[1..])
  }

  predicate Quiescent(s: State) {
    forall t :: 0 <= t < |s.threads| ==> s.threads[t] == Finished
  }

  lemma {:induction false} SettlingIsFinite(s: State, es: seq<Event>)
    requires Shape(s) && Settling(s, es)
    ensures |es| <= Fuel(s)
    decreases |es|
  {
    if es != [] {
      FuelBurns(s, es[0].t, es[0].ok);
      ShapeStep(s, es[0]);
      SettlingIsFinite(Apply(s, es[0]), es[1..]);
    }
  }

  /** Everything accepted on a queue was written, and in that order unless writers overlapped. */
  predicate Delivered(c: Conn, ch: Channel) {
    && c.Queue(ch) == [] && c.lost == [] && !c.writerRunning
    && multiset(Through(c.accepted, ch)) == multiset(Through(c.written, ch))
    && (c.staleClears == 0 ==> Through(c.accepted, ch) == Through(c.written, ch))
  }

  /** With every thread finished, an open connection has written everything it accepted. */
  lemma QuietMeansDelivered(s: State, ch: Channel)
    requires Inv(s) && Quiescent(s) && !s.c.closed
    ensures Delivered(s.c, ch)
  {
    EmptyHands(s.threads);
    assert !Attended(s, ch);
    assert s.c.lost == [];
    assert Conserved(s) && Ordered(s) && Owned(s);
    assert s.c.written + [] == s.c.written;
    assert QueueIsSuffix(s.c, ch) && Through(s.c.taken, ch) + [] == Through(s.c.taken, ch);
    SameThrough(s.c.taken, s.c.written, ch);
  }

  /**
    From any reachable state, however the threads are scheduled and whichever writes fail:
    the run without new sends is bounded, and where it ends the connection is closed or
    every accepted message has been written, in order unless writers overlapped.
    */
  lemma EveryScheduleDelivers(directCap: nat, broadcastCap: nat, past: seq<Event>, es: seq<Event>, ch: Channel)
    requires Settling(Exec(Init(directCap, broadcastCap), past), es)
    ensures var s := Exec(Init(directCap, broadcastCap), past);
      var s' := Exec(s, es);
      && |es| <= Fuel(s)
      && (Quiescent(s') && !s'.c.closed ==> Delivered(s'.c, ch))
  {
    var s := Exec(Init(directCap, broadcastCap), past);
    Reachable(directCap, broadcastCap, past);
    SettlingIsFinite(s, es);
    InvRun(s, es);
    if Quiescent(Exec(s, es)) && !Exec(s, es).c.closed {
      QuietMeansDelivered(Exec(s, es), ch);
    }
  }

  /** Such a run never gets stuck: from every state some schedule reaches the end. */
  lemma {:induction false} CanFinish(s: State) returns (es: seq<Event>)
    requires Shape(s)
    ensures Settling(s, es) && Quiescent(Exec(s, es))
    decreases Fuel(s)
  {
    if Quiescent(s) {
      es := [];
    } else {
      var t :| 0 <= t < |s.threads| && s.threads[t] != Finished;
      var e := Run(t, true);
      FuelBurns(s, t, true);
      ShapeStep(s, e);
      var rest := CanFinish(Apply(s, e));
      es := [e] + rest;
      assert es[1..] == rest;
    }
  }
}
