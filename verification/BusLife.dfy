/** What the event bus (events/events.go) promises over whole runs. */
module BusLife {
  import opened Bus
  import opened Threads

  ghost predicate Reachable(s: State) {
    exists opts, es :: Corrected(opts) && s == Exec(Init(opts), es)
  }

  lemma ReachableInv(s: State)
    requires Reachable(s)
    ensures Inv(s)
  {
    var opts, es :| Corrected(opts) && s == Exec(Init(opts), es);
    InitInv(opts);
    InvRun(Init(opts), es);
  }

  /**
    Every accepted job is buffered, held by a worker or handled, exactly once; handlers are
    started in the order of acceptance, by at most workerCount workers.
    */
  lemma JobsAreConserved(s: State)
    requires Reachable(s)
    ensures forall job :: Times(s.hub.accepted, job) ==
              Times(s.hub.buffer, job) + Sum(Holders(job), s.threads) + Times(s.hub.handled, job)
    ensures s.hub.taken <= s.hub.accepted
    ensures Sum(Workers(), s.threads) <= s.hub.opts.workerCount
    ensures |s.hub.buffer| <= s.hub.opts.bufferSize
  {
    ReachableInv(s);
    forall job
      ensures Times(s.hub.accepted, job) ==
              Times(s.hub.buffer, job) + Sum(Holders(job), s.threads) + Times(s.hub.handled, job)
    {
      assert Conserved(s.hub, s.threads, job);
    }
  }

  // ------------------------------------------------------------------------------
  // One worker
  // ------------------------------------------------------------------------------

  /** The job in hand is the only one started and not finished. */
  predicate InHand(h: Hub, pc: Pc) { pc.Handling? ==> h.taken == h.handled + [pc.job] }

  ghost predicate Lined(h: Hub, threads: seq<Pc>) {
    && (forall t :: 0 <= t < |threads| ==> InHand(h, threads[t]))
    && ((forall t :: 0 <= t < |threads| ==> !threads[t].Handling?) ==> h.taken == h.handled)
  }

  lemma OnlyWorker(h: Hub, threads: seq<Pc>, t: nat, u: nat)
    requires Counted(h, threads) && Flags(h) && h.opts.workerCount == 1
    requires t < |threads| && u < |threads| && t != u && IsWorker(threads[t])
    ensures !IsWorker(threads[u])
  {
    SumCovers(Workers(), threads, t, u);
  }

  lemma LinedRun(h: Hub, threads: seq<Pc>, t: nat, choice: bool)
    requires Counted(h, threads) && Flags(h) && h.opts.workerCount == 1
    requires Lined(h, threads) && t < |threads|
    ensures Lined(NextHub(h, threads[t], choice), RunThreads(h, threads, t, choice))
  {
    var pc, threads' := threads[t], RunThreads(h, threads, t, choice);
    if IsWorker(pc) {
      forall u | 0 <= u < |threads| && u != t
        ensures !IsWorker(threads[u])
      {
        OnlyWorker(h, threads, t, u);
      }
      assert InHand(h, pc);
      assert threads'[t] == NextPc(h, pc, choice);
    } else {
      forall u | 0 <= u < |threads'|
        ensures InHand(h, threads'[u])
        ensures u < |threads| ==> threads'[u].Handling? == threads[u].Handling?
      {
        assert u < |threads| ==> InHand(h, threads[u]);
      }
    }
  }

  lemma LinedStep(s: State, e: Event)
    requires Inv(s) && s.hub.opts.workerCount == 1 && Lined(s.hub, s.threads)
    ensures Lined(Apply(s, e).hub, Apply(s, e).threads)
  {
    match e
    case Run(t, choice) =>
      if t < |s.threads| {
        LinedRun(s.hub, s.threads, t, choice);
      }
    case Publish(_, _) | Close | Subscribe(_, _) | Unsubscribe(_, _) =>
      var s' := Apply(s, e);
      assert forall u :: 0 <= u < |s.threads| ==> s'.threads[u] == s.threads[u];
      forall u | 0 <= u < |s'.threads|
        ensures InHand(s'.hub, s'.threads[u])
      {
        assert u < |s.threads| ==> InHand(s.hub, s.threads[u]);
      }
  }

  lemma {:induction false} LinedRuns(s: State, es: seq<Event>)
    requires Inv(s) && s.hub.opts.workerCount == 1 && Lined(s.hub, s.threads)
    ensures Lined(Exec(s, es).hub, Exec(s, es).threads)
    decreases |es|
  {
    if es != [] {
      InvStep(s, es[0]);
      LinedStep(s, es[0]);
      LinedRuns(Apply(s, es[0]), es[1..]);
    }
  }

  /** With one worker, the jobs handled so far are the first ones accepted, in that order. */
  lemma OneWorkerHandlesInOrder(opts: Options, es: seq<Event>)
    requires Corrected(opts) && opts.workerCount == 1
    ensures Exec(Init(opts), es).hub.handled <= Exec(Init(opts), es).hub.accepted
  {
    var s := Exec(Init(opts), es);
    InitInv(opts);
    InvRun(Init(opts), es);
    LinedRuns(Init(opts), es);
    if t :| 0 <= t < |s.threads| && s.threads[t].Handling? {
      assert InHand(s.hub, s.threads[t]);
    }
  }

  // ------------------------------------------------------------------------------
  // Handlers after Close
  // ------------------------------------------------------------------------------

  /** A publisher that may yet start a worker. */
  predicate MayStart(h: Hub, pc: Pc) {
    || (pc.Sending? && pc.jobs != [] && h.once.Fresh?)
    || (pc.Starting? && pc.count < h.opts.workerCount)
  }

  ghost predicate NoMoreStarts(h: Hub, threads: seq<Pc>) {
    forall t :: 0 <= t < |threads| ==> !MayStart(h, threads[t])
  }

  /** Closed, and nobody is left who could start a worker. */
  ghost predicate Settled(s: State) {
    s.hub.dir.closed && NoMoreStarts(s.hub, s.threads) && (s.hub.returned ==> s.hub.live == 0)
  }

  lemma SettledRun(s: State, t: nat, choice: bool)
    requires Inv(s) && Settled(s) && t < |s.threads|
    ensures Settled(Apply(s, Run(t, choice)))
    ensures s.hub.returned ==> Apply(s, Run(t, choice)).hub.taken == s.hub.taken
  {
    var pc, s' := s.threads[t], Apply(s, Run(t, choice));
    assert !MayStart(s.hub, pc) && Placed(s.hub, pc);
    SumCovers(Workers(), s.threads, t, t);
    assert s'.threads[t] == NextPc(s.hub, pc, choice);
    forall u | 0 <= u < |s'.threads|
      ensures !MayStart(s'.hub, s'.threads[u])
    {
      assert u < |s.threads| ==> !MayStart(s.hub, s.threads[u]);
    }
  }

  lemma SettledStep(s: State, e: Event)
    requires Inv(s) && Settled(s)
    ensures Settled(Apply(s, e))
    ensures s.hub.returned ==> Apply(s, e).hub.taken == s.hub.taken && Apply(s, e).hub.returned
  {
    match e
    case Run(t, choice) =>
      if t < |s.threads| {
        SettledRun(s, t, choice);
      }
    case Publish(_, _) | Close | Subscribe(_, _) | Unsubscribe(_, _) =>
      forall u | 0 <= u < |Apply(s, e).threads|
        ensures !MayStart(Apply(s, e).hub, Apply(s, e).threads[u])
      {
        assert u < |s.threads| ==> !MayStart(s.hub, s.threads[u]);
      }
  }

  lemma {:induction false} SettledRuns(s: State, es: seq<Event>)
    requires Inv(s) && Settled(s)
    ensures Inv(Exec(s, es)) && Settled(Exec(s, es))
    ensures s.hub.returned ==> Exec(s, es).hub.taken == s.hub.taken
    decreases |es|
  {
    if es != [] {
      InvStep(s, es[0]);
      SettledStep(s, es[0]);
      SettledRuns(Apply(s, es[0]), es[1..]);
    }
  }

  /** Thread c is about to close an open bus. */
  predicate AboutToClose(s: State, c: nat) {
    c < |s.threads| && s.threads[c].Closing? && !s.hub.dir.closed
  }

  /** Somewhere in the run es from s, Close has returned; in the rest fs, a handler is started. */
  predicate StartsLate(s: State, es: seq<Event>, fs: seq<Event>) {
    Exec(s, es).hub.returned && Exec(Exec(s, es), fs).hub.taken != Exec(s, es).hub.taken
  }

  /** If all who could start a worker are done before Close, its return is final. */
  lemma CloseIsFinal(s: State, c: nat, choice: bool, es: seq<Event>, fs: seq<Event>)
    requires Inv(s) && AboutToClose(s, c) && NoMoreStarts(s.hub, s.threads)
    ensures !StartsLate(Apply(s, Run(c, choice)), es, fs)
  {
    var s1 := Apply(s, Run(c, choice));
    InvStep(s, Run(c, choice));
    forall u | 0 <= u < |s1.threads|
      ensures !MayStart(s1.hub, s1.threads[u])
    {
      assert !MayStart(s.hub, s.threads[u]);
    }
    SettledRuns(s1, es);
    SettledRuns(Exec(s1, es), fs);
  }

  /** In particular if the workers had all been started when Close was called. */
  lemma StartedWorkersMakeCloseFinal(s: State)
    requires Inv(s) && s.hub.once.Finished?
    ensures NoMoreStarts(s.hub, s.threads)
  {
    forall t | 0 <= t < |s.threads|
      ensures !MayStart(s.hub, s.threads[t])
    {
      assert Placed(s.hub, s.threads[t]);
    }
  }

  // ------------------------------------------------------------------------------
  // The other direction: a run in which a handler starts after Close has returned
  // ------------------------------------------------------------------------------

  lemma {:induction false} SomeSummand(f: Pc -> nat, threads: seq<Pc>) returns (t: nat)
    requires Sum(f, threads) > 0
    ensures t < |threads| && f(threads[t]) > 0
    decreases |threads|
  {
    var n := |threads| - 1;
    if f(threads[n]) > 0 {
      t := n;
    } else {
      t := SomeSummand(f, threads[..n]);
    }
  }

  lemma ExecFirst(s: State, e: Event, es: seq<Event>)
    ensures Exec(s, [e] + es) == Exec(Apply(s, e), es)
  {
    assert ([e] + es)[1..] == es;
  }

  lemma ExecOne(s: State, e: Event)
    ensures Exec(s, [e]) == Apply(s, e)
  {
    ExecFirst(s, e, []);
  }

  /** Everything but the workers is as before. */
  ghost predicate OnlyWorkersMoved(s: State, s': State) {
    && |s'.threads| == |s.threads|
    && (forall t :: 0 <= t < |s.threads| && !IsWorker(s.threads[t]) ==> s'.threads[t] == s.threads[t])
    && s'.hub.once == s.hub.once && s'.hub.opts == s.hub.opts && s'.hub.buffer == s.hub.buffer
    && s'.hub.dir.closed == s.hub.dir.closed && s'.hub.done == s.hub.done
  }

  /** One worker finishes what it holds and sees that the bus is done. */
  lemma EvictOne(s: State, t: nat) returns (es: seq<Event>)
    requires s.hub.done && t < |s.threads| && IsWorker(s.threads[t])
    ensures OnlyWorkersMoved(s, Exec(s, es)) && Exec(s, es).hub.live == s.hub.live - 1
  {
    var leave := Run(t, true);
    if s.threads[t].Polling? {
      es := [leave];
      ExecOne(s, leave);
    } else {
      var s1 := Apply(s, leave);
      assert s1.threads[t].Polling? && OnlyWorkersMoved(s, s1);
      es := [leave, leave];
      ExecOne(s1, leave);
      assert [leave, leave] == [leave] + [leave];
      ExecFirst(s, leave, [leave]);
    }
  }

  lemma {:induction false} EvictAll(s: State) returns (es: seq<Event>)
    requires Inv(s) && s.hub.done
    ensures Inv(Exec(s, es)) && OnlyWorkersMoved(s, Exec(s, es)) && Exec(s, es).hub.live == 0
    decreases s.hub.live
  {
    if s.hub.live == 0 {
      es := [];
    } else {
      var t := SomeSummand(Workers(), s.threads);
      var first := EvictOne(s, t);
      InvRun(s, first);
      var rest := EvictAll(Exec(s, first));
      es := first + rest;
      ExecSplit(s, first, rest);
    }
  }

  /** Close, having taken its lock, runs to its end while publisher p waits. */
  lemma CloseReturns(s: State, c: nat, p: nat) returns (es: seq<Event>)
    requires Inv(s) && AboutToClose(s, c) && p < |s.threads| && MayStart(s.hub, s.threads[p])
    ensures var s' := Exec(Apply(s, Run(c, true)), es);
      && Inv(s') && s'.hub.returned && s'.hub.done && s'.hub.opts == s.hub.opts
      && p < |s'.threads| && MayStart(s'.hub, s'.threads[p])
  {
    var s1 := Apply(s, Run(c, true));
    var s2 := Apply(s1, Run(c, true));
    InvStep(s, Run(c, true));
    InvStep(s1, Run(c, true));
    assert s2.threads[c].Waiting? && s2.threads[p] == s.threads[p] && s2.hub.done;
    var quiet := EvictAll(s2);
    var s3 := Exec(s2, quiet);
    assert s3.threads[c].Waiting? && s3.threads[p] == s.threads[p];
    InvStep(s3, Run(c, true));
    es := [Run(c, true)] + (quiet + [Run(c, true)]);
    ExecFirst(s1, Run(c, true), quiet + [Run(c, true)]);
    ExecSplit(s2, quiet, [Run(c, true)]);
    ExecOne(s3, Run(c, true));
  }

  /** Publisher p starts the remaining workers and comes to its select; worker w waits. */
  lemma {:induction false} FinishStarting(s: State, p: nat, w: nat) returns (es: seq<Event>)
    requires p < |s.threads| && w < |s.threads| && p != w && s.threads[w].Polling?
    requires s.threads[p].Starting? && s.threads[p].count <= s.hub.opts.workerCount
    ensures var s' := Exec(s, es);
      && |s'.threads| >= |s.threads| && s'.threads[w].Polling? && s'.threads[p] == Selecting(s.threads[p].jobs)
      && s'.hub == s.hub.(once := Finished, live := s'.hub.live)
    decreases s.hub.opts.workerCount - s.threads[p].count
  {
    var s1 := Apply(s, Run(p, true));
    if s.threads[p].count == s.hub.opts.workerCount {
      es := [Run(p, true)];
      ExecOne(s, Run(p, true));
    } else {
      var rest := FinishStarting(s1, p, w);
      es := [Run(p, true)] + rest;
      ExecFirst(s, Run(p, true), rest);
    }
  }

  /** A polling worker may take a job although the bus is done. */
  lemma TakeLate(h: Hub)
    requires h.buffer != []
    ensures NextHub(h, Polling, false).taken != h.taken
  {
    assert |NextHub(h, Polling, false).taken| == |h.taken| + 1;
  }

  lemma StartWorkerLate(s: State, p: nat) returns (es: seq<Event>)
    requires Corrected(s.hub.opts) && p < |s.threads|
    requires s.threads[p].Starting? && s.threads[p].count < s.hub.opts.workerCount && s.threads[p].jobs != []
    ensures Exec(s, es).hub.taken != s.hub.taken
  {
    var w := |s.threads|;
    var s1 := Apply(s, Run(p, true));
    assert s1.threads[w].Polling?;
    if s.hub.buffer != [] {
      TakeLate(s1.hub);
      ExecOne(s1, Run(w, false));
      es := [Run(p, true)] + [Run(w, false)];
      ExecFirst(s, Run(p, true), [Run(w, false)]);
    } else {
      var start := FinishStarting(s1, p, w);
      var s2 := Exec(s1, start);
      var s3 := Apply(s2, Run(p, true));
      TakeLate(s3.hub);
      ExecOne(s3, Run(w, false));
      es := [Run(p, true)] + (start + ([Run(p, true)] + [Run(w, false)]));
      ExecFirst(s, Run(p, true), start + ([Run(p, true)] + [Run(w, false)]));
      ExecSplit(s1, start, [Run(p, true)] + [Run(w, false)]);
      ExecFirst(s2, Run(p, true), [Run(w, false)]);
    }
  }

  lemma StartLate(s: State, p: nat) returns (es: seq<Event>)
    requires Inv(s) && p < |s.threads| && MayStart(s.hub, s.threads[p])
    ensures Exec(s, es).hub.taken != s.hub.taken
  {
    assert Placed(s.hub, s.threads[p]);
    if s.threads[p].Starting? {
      es := StartWorkerLate(s, p);
    } else {
      var s1 := Apply(s, Run(p, true));
      var rest := StartWorkerLate(s1, p);
      es := [Run(p, true)] + rest;
      ExecFirst(s, Run(p, true), rest);
    }
  }

  /**
    Exactly when a handler can be started after Close has returned: a publisher that passed
    the closed check has still to start a worker when Close takes the lock.
    */
  lemma HandlersAfterClose(s: State, c: nat)
    requires Reachable(s) && AboutToClose(s, c)
    ensures (exists es, fs :: StartsLate(Apply(s, Run(c, true)), es, fs)) <==> !NoMoreStarts(s.hub, s.threads)
  {
    ReachableInv(s);
    var s1 := Apply(s, Run(c, true));
    if NoMoreStarts(s.hub, s.threads) {
      forall es, fs
        ensures !StartsLate(s1, es, fs)
      {
        CloseIsFinal(s, c, true, es, fs);
      }
    } else {
      var p :| 0 <= p < |s.threads| && MayStart(s.hub, s.threads[p]);
      var es := CloseReturns(s, c, p);
      var fs := StartLate(Exec(s1, es), p);
      assert StartsLate(s1, es, fs);
    }
  }

  /** That happens: a publisher has passed the closed check, and Close comes before it starts the workers. */
  lemma CloseCanComeTooEarly(opts: Options)
    requires Corrected(opts)
    ensures exists es ::
      var s := Exec(Init(opts), es);
      && AboutToClose(s, 1) && !NoMoreStarts(s.hub, s.threads)
      && exists more, late :: StartsLate(Apply(s, Run(1, true)), more, late)
  {
    var s0 := Init(opts);
    var e0, e1, e2, e3 := Subscribe("t", 0), Publish("t", 0), Run(0, true), Close;
    var s1 := Apply(s0, e0);
    var s2 := Apply(s1, e1);
    var s3 := Apply(s2, e2);
    var s4 := Apply(s3, e3);
    ExecOne(s3, e3);
    ExecFirst(s2, e2, [e3]);
    ExecFirst(s1, e1, [e2] + [e3]);
    ExecFirst(s0, e0, [e1] + ([e2] + [e3]));
    var es := [e0] + ([e1] + ([e2] + [e3]));
    assert s4 == Exec(s0, es);
    assert |Recipients(s1.hub.dir.subscribers, "t")| == 1;
    assert s3.threads[0].Sending? && |s3.threads[0].jobs| == 1;
    assert s4.threads[0] == s3.threads[0] && s4.threads[1] == Closing;
    assert MayStart(s4.hub, s4.threads[0]);
    assert Reachable(s4);
    HandlersAfterClose(s4, 1);
  }

  // ------------------------------------------------------------------------------
  // A Close that finds the bus closed
  // ------------------------------------------------------------------------------

  /** A publisher that still has jobs to send. */
  predicate Holds(pc: Pc) { (pc.Sending? && pc.jobs != []) || pc.Starting? || pc.Selecting? }

  ghost predicate NoSender(threads: seq<Pc>) {
    forall t :: 0 <= t < |threads| ==> !Holds(threads[t])
  }

  /** No worker is left and none can come, or no job is left and none can come. */
  ghost predicate Dry(s: State) {
    || (s.hub.live == 0 && NoMoreStarts(s.hub, s.threads))
    || (s.hub.buffer == [] && NoSender(s.threads))
  }

  lemma DryRun(s: State, t: nat, choice: bool)
    requires Inv(s) && s.hub.dir.closed && Dry(s) && t < |s.threads|
    ensures Dry(Apply(s, Run(t, choice))) && Apply(s, Run(t, choice)).hub.taken == s.hub.taken
  {
    var pc, s' := s.threads[t], Apply(s, Run(t, choice));
    assert Placed(s.hub, pc);
    SumCovers(Workers(), s.threads, t, t);
    assert s'.threads[t] == NextPc(s.hub, pc, choice);
    if s.hub.live == 0 && NoMoreStarts(s.hub, s.threads) {
      assert !MayStart(s.hub, pc);
      forall u | 0 <= u < |s'.threads|
        ensures !MayStart(s'.hub, s'.threads[u])
      {
        assert u < |s.threads| ==> !MayStart(s.hub, s.threads[u]);
      }
    } else {
      assert !Holds(pc);
      forall u | 0 <= u < |s'.threads|
        ensures !Holds(s'.threads[u])
      {
        assert u < |s.threads| ==> !Holds(s.threads[u]);
      }
    }
  }

  lemma DryStep(s: State, e: Event)
    requires Inv(s) && s.hub.dir.closed && Dry(s)
    ensures Apply(s, e).hub.dir.closed && Dry(Apply(s, e)) && Apply(s, e).hub.taken == s.hub.taken
  {
    match e
    case Run(t, choice) =>
      if t < |s.threads| {
        DryRun(s, t, choice);
      }
    case Publish(_, _) | Close | Subscribe(_, _) | Unsubscribe(_, _) =>
      var s' := Apply(s, e);
      assert forall u :: 0 <= u < |s.threads| ==> s'.threads[u] == s.threads[u];
      assert s'.hub.once == s.hub.once && s'.hub.opts == s.hub.opts;
  }

  lemma {:induction false} DryRuns(s: State, es: seq<Event>)
    requires Inv(s) && s.hub.dir.closed && Dry(s)
    ensures Exec(s, es).hub.taken == s.hub.taken
    decreases |es|
  {
    if es != [] {
      InvStep(s, es[0]);
      DryStep(s, es[0]);
      DryRuns(Apply(s, es[0]), es[1..]);
    }
  }

  /** A worker takes a job that is there. */
  lemma TakeNow(s: State, w: nat) returns (es: seq<Event>)
    requires w < |s.threads| && IsWorker(s.threads[w]) && s.hub.buffer != []
    ensures Exec(s, es).hub.taken != s.hub.taken
  {
    TakeLate(s.hub);
    if s.threads[w].Polling? {
      es := [Run(w, false)];
      ExecOne(s, Run(w, false));
    } else {
      var s1 := Apply(s, Run(w, true));
      TakeLate(s1.hub);
      ExecOne(s1, Run(w, false));
      ExecFirst(s, Run(w, true), [Run(w, false)]);
      es := [Run(w, true)] + [Run(w, false)];
    }
  }

  /** A publisher in its select sends, and a worker takes. */
  lemma SendAndTake(s: State, p: nat, w: nat) returns (es: seq<Event>)
    requires Corrected(s.hub.opts) && s.hub.buffer == []
    requires p < |s.threads| && s.threads[p].Selecting? && s.threads[p].jobs != []
    requires w < |s.threads| && IsWorker(s.threads[w])
    ensures Exec(s, es).hub.taken != s.hub.taken
  {
    var s1 := Apply(s, Run(p, true));
    assert s1.threads[w] == s.threads[w];
    var rest := TakeNow(s1, w);
    ExecFirst(s, Run(p, true), rest);
    es := [Run(p, true)] + rest;
  }

  lemma HolderDelivers(s: State, p: nat, w: nat) returns (es: seq<Event>)
    requires Inv(s) && NoMoreStarts(s.hub, s.threads) && s.hub.buffer == []
    requires p < |s.threads| && Holds(s.threads[p]) && w < |s.threads| && IsWorker(s.threads[w])
    ensures Exec(s, es).hub.taken != s.hub.taken
  {
    var q := p;
    assert Placed(s.hub, s.threads[p]) && !MayStart(s.hub, s.threads[p]);
    if s.threads[p].Sending? && s.hub.once.Busy? {
      // somebody else is inside startOnce, with a job of its own
      q := SomeSummand(Starters(), s.threads);
    }
    assert Placed(s.hub, s.threads[q]) && !MayStart(s.hub, s.threads[q]);
    if s.threads[q].Selecting? {
      es := SendAndTake(s, q, w);
    } else {
      var s1 := Apply(s, Run(q, true));
      assert s1.threads[w] == s.threads[w];
      assert s1.threads[q].Selecting? && s1.threads[q].jobs == s.threads[q].jobs;
      var rest := SendAndTake(s1, q, w);
      ExecFirst(s, Run(q, true), rest);
      es := [Run(q, true)] + rest;
    }
  }

  /** Unless the bus is dry, some run starts another handler. */
  lemma NotDry(s: State) returns (es: seq<Event>)
    requires Inv(s) && !Dry(s)
    ensures Exec(s, es).hub.taken != s.hub.taken
  {
    if p :| 0 <= p < |s.threads| && MayStart(s.hub, s.threads[p]) {
      es := StartLate(s, p);
    } else {
      var w := SomeSummand(Workers(), s.threads);
      if s.hub.buffer != [] {
        es := TakeNow(s, w);
      } else {
        var p :| 0 <= p < |s.threads| && Holds(s.threads[p]);
        es := HolderDelivers(s, p, w);
      }
    }
  }

  /** Thread c is a Close that finds the bus closed: it returns at once, waiting for nobody. */
  predicate ClosesAgain(s: State, c: nat) {
    c < |s.threads| && s.threads[c].Closing? && s.hub.dir.closed
  }

  /**
    After such a Close has returned a handler can still be started exactly when a worker is
    left or to come, and a job is left or to come for it.
    */
  lemma HandlersAfterSecondClose(s: State, c: nat)
    requires Reachable(s) && ClosesAgain(s, c)
    ensures var s' := Apply(s, Run(c, true));
      && s'.threads[c].Gone?
      && ((exists es :: Exec(s', es).hub.taken != s'.hub.taken) <==> !Dry(s'))
  {
    ReachableInv(s);
    InvStep(s, Run(c, true));
    var s' := Apply(s, Run(c, true));
    if Dry(s') {
      forall es
        ensures Exec(s', es).hub.taken == s'.hub.taken
      {
        DryRuns(s', es);
      }
    } else {
      var es := NotDry(s');
    }
  }

  /** A publisher has started the workers and sent its job; worker 1 has yet to take it. */
  lemma OneJobBuffered(opts: Options) returns (es: seq<Event>, s: State)
    requires Corrected(opts)
    ensures s == Exec(Init(opts), es) && |s.threads| >= 2 && s.threads[1].Polling?
    ensures s.hub.once.Finished? && !s.hub.dir.closed && s.hub.buffer != []
  {
    var s0 := Init(opts);
    var r := Run(0, true);
    var s1 := Apply(s0, Subscribe("t", 0));
    var s2 := Apply(s1, Publish("t", 0));
    var s3 := Apply(s2, r);
    assert |Recipients(s1.hub.dir.subscribers, "t")| == 1;
    assert s3.threads[0].Sending? && |s3.threads[0].jobs| == 1;
    var s4 := Apply(s3, r);
    assert s4.threads[0] == Starting(0, s3.threads[0].jobs);
    var s5 := Apply(s4, r);
    assert s5.threads[1].Polling?;
    var start := FinishStarting(s5, 0, 1);
    var s6 := Exec(s5, start);
    s := Apply(s6, r);
    ExecOne(s6, r);
    ExecSplit(s5, start, [r]);
    ExecFirst(s4, r, start + [r]);
    ExecFirst(s3, r, [r] + (start + [r]));
    ExecFirst(s2, r, [r] + ([r] + (start + [r])));
    ExecFirst(s1, Publish("t", 0), [r] + ([r] + ([r] + (start + [r]))));
    ExecFirst(s0, Subscribe("t", 0), [Publish("t", 0)] + ([r] + ([r] + ([r] + (start + [r])))));
    es := [Subscribe("t", 0)] + ([Publish("t", 0)] + ([r] + ([r] + ([r] + (start + [r])))));
  }

  /**
    The second of two Closes is not final, although the workers were all started before
    either: it returns while the first one waits, and a handler is started afterwards.
    */
  lemma SecondCloseIsNotFinal(opts: Options)
    requires Corrected(opts)
    ensures exists es, c ::
      var s := Exec(Init(opts), es);
      && s.hub.once.Finished? && ClosesAgain(s, c)
      && exists more :: Exec(Apply(s, Run(c, true)), more).hub.taken != s.hub.taken
  {
    var es, s := OneJobBuffered(opts);
    var n := |s.threads|;
    var s1 := Apply(s, Close);
    var s2 := Apply(s1, Close);
    var s3 := Apply(s2, Run(n, true));
    ExecOne(s2, Run(n, true));
    ExecFirst(s1, Close, [Run(n, true)]);
    ExecFirst(s, Close, [Close] + [Run(n, true)]);
    ExecSplit(Init(opts), es, [Close] + ([Close] + [Run(n, true)]));
    assert s3 == Exec(Init(opts), es + ([Close] + ([Close] + [Run(n, true)])));
    assert s3.threads[1].Polling? && ClosesAgain(s3, n + 1);
    var more := TakeNow(Apply(s3, Run(n + 1, true)), 1);
  }
}
