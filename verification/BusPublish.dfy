/**
  What a publication and the workers of the event bus (events/events.go) do in every run:
  every job is sent, in order, and nothing gets stuck.
  */
module BusPublish {
  import opened Bus
  import opened BusLife
  import opened Threads

  // ------------------------------------------------------------------------------
  // A publisher sends what it is for
  // ------------------------------------------------------------------------------

  /** The jobs that this event sent, if it is an action of thread t. */
  function SentIn(s: State, e: Event, t: nat): seq<Job> {
    var after := Apply(s, e).hub.accepted;
    if e.Run? && e.t == t && |s.hub.accepted| <= |after| then after[|s.hub.accepted|..] else []
  }

  /** The jobs that thread t sent in a run, in order. */
  function SentBy(s: State, es: seq<Event>, t: nat): seq<Job>
    decreases |es|
  {
    if es == [] then [] else SentIn(s, es[0], t) + SentBy(Apply(s, es[0]), es[1..], t)
  }

  predicate Publishes(pc: Pc) { pc.Sending? || pc.Starting? || pc.Selecting? }

  /** The jobs a publisher has still to send. */
  function Left(pc: Pc): seq<Job> { if Publishes(pc) then pc.jobs else [] }

  /** What has become of a publisher that had `jobs` to send and sent `sent`. */
  predicate Goes(h: Hub, pc: Pc, jobs: seq<Job>, sent: seq<Job>) {
    if Publishes(pc) then sent + Left(pc) == jobs
    else pc.Gone? && sent <= jobs && (sent == jobs || h.done)
  }

  lemma StepGoes(s: State, e: Event, t: nat)
    requires t < |s.threads| && Publishes(s.threads[t]) && Placed(s.hub, s.threads[t])
    ensures t < |Apply(s, e).threads|
    ensures Goes(Apply(s, e).hub, Apply(s, e).threads[t], Left(s.threads[t]), SentIn(s, e, t))
  {
  }

  lemma StaysGone(s: State, e: Event, t: nat)
    requires t < |s.threads| && s.threads[t].Gone?
    ensures Apply(s, e).threads[t].Gone? && SentIn(s, e, t) == [] && (s.hub.done ==> Apply(s, e).hub.done)
  {
  }

  lemma {:induction false} GoneSendsNothing(s: State, es: seq<Event>, t: nat)
    requires t < |s.threads| && s.threads[t].Gone?
    ensures t < |Exec(s, es).threads| && Exec(s, es).threads[t].Gone? && SentBy(s, es, t) == []
    ensures s.hub.done ==> Exec(s, es).hub.done
    decreases |es|
  {
    if es != [] {
      StaysGone(s, es[0], t);
      GoneSendsNothing(Apply(s, es[0]), es[1..], t);
    }
  }

  lemma GoesOn(h: Hub, pc: Pc, jobs: seq<Job>, sent: seq<Job>, left: seq<Job>, rest: seq<Job>)
    requires sent + left == jobs && Goes(h, pc, left, rest)
    ensures Goes(h, pc, jobs, sent + rest)
  {
    assert sent + (rest + Left(pc)) == sent + rest + Left(pc);
  }

  /**
    In every run a publisher sends its jobs in order, one after the other; it ends early only
    on a bus that is done.
    */
  lemma {:induction false} PublisherSendsItsJobs(s: State, es: seq<Event>, t: nat)
    requires Inv(s) && t < |s.threads| && Publishes(s.threads[t])
    ensures t < |Exec(s, es).threads|
    ensures Goes(Exec(s, es).hub, Exec(s, es).threads[t], Left(s.threads[t]), SentBy(s, es, t))
    decreases |es|
  {
    if es != [] {
      var s1 := Apply(s, es[0]);
      assert Placed(s.hub, s.threads[t]);
      StepGoes(s, es[0], t);
      InvStep(s, es[0]);
      var sent := SentIn(s, es[0], t);
      if Publishes(s1.threads[t]) {
        PublisherSendsItsJobs(s1, es[1..], t);
        GoesOn(Exec(s1, es[1..]).hub, Exec(s1, es[1..]).threads[t], Left(s.threads[t]), sent,
               Left(s1.threads[t]), SentBy(s1, es[1..], t));
      } else {
        GoneSendsNothing(s1, es[1..], t);
        assert sent + [] == sent;
      }
    }
  }

  /**
    Publish on an open bus takes up a job for every subscriber of the topic and then for every
    one of "*", in order, and on a closed one none.
    */
  lemma PublishTakesUp(s: State, t: nat, choice: bool)
    requires t < |s.threads| && s.threads[t].Entering?
    ensures var d, pc, pc' := s.hub.dir, s.threads[t], Apply(s, Run(t, choice)).threads[t];
      if d.closed then pc'.Gone?
      else pc'.Sending? && CallsBoth(pc'.jobs, Listeners(d.subscribers, pc.topic), Listeners(d.subscribers, "*"), pc.event)
  {
  }

  // ------------------------------------------------------------------------------
  // The selects
  // ------------------------------------------------------------------------------

  predicate Room(h: Hub) { |h.buffer| < h.opts.bufferSize }

  /** What thread t has done when it is in its select: sent its first job, given up, or nothing yet. */
  datatype Answer = Sent | GaveUp | Waits

  ghost predicate Answers(s: State, t: nat, choice: bool, answer: Answer)
    requires t < |s.threads| && s.threads[t].Selecting? && s.threads[t].jobs != []
  {
    var jobs, s' := s.threads[t].jobs, Apply(s, Run(t, choice));
    match answer
    case Sent =>
      && s'.threads[t] == Sending(jobs[1..]) && s'.hub.buffer == s.hub.buffer + [jobs[0]]
      && s'.hub.accepted == s.hub.accepted + [jobs[0]]
    case GaveUp => s'.threads[t].Gone? && s'.hub == s.hub
    case Waits => s' == s
  }

  /** The select of a publisher: it takes a case that is ready, either one if both are, and waits if none is. */
  lemma PublisherSelects(s: State, t: nat)
    requires t < |s.threads| && s.threads[t].Selecting? && s.threads[t].jobs != []
    ensures Room(s.hub) && !s.hub.done ==> forall choice :: Answers(s, t, choice, Sent)
    ensures !Room(s.hub) && s.hub.done ==> forall choice :: Answers(s, t, choice, GaveUp)
    ensures Room(s.hub) && s.hub.done ==> Answers(s, t, true, Sent) && Answers(s, t, false, GaveUp)
    ensures !Room(s.hub) && !s.hub.done ==> forall choice :: Answers(s, t, choice, Waits)
  {
    assert !Room(s.hub) && !s.hub.done ==> forall choice :: Apply(s, Run(t, choice)).threads == s.threads;
  }

  /** The select of a worker, which takes the oldest job, leaves, or waits in the same way. */
  lemma WorkerSelects(h: Hub)
    ensures h.buffer != [] && !h.done ==>
              forall choice :: NextPc(h, Polling, choice) == Handling(h.buffer[0])
                               && NextHub(h, Polling, choice) == h.(buffer := h.buffer[1..], taken := h.taken + [h.buffer[0]])
    ensures h.buffer == [] && h.done ==>
              forall choice :: NextPc(h, Polling, choice).Gone? && NextHub(h, Polling, choice) == h.(live := h.live - 1)
    ensures h.buffer != [] && h.done ==>
              NextPc(h, Polling, true).Gone? && NextPc(h, Polling, false) == Handling(h.buffer[0])
    ensures h.buffer == [] && !h.done ==>
              forall choice :: NextPc(h, Polling, choice) == Polling && NextHub(h, Polling, choice) == h
  {
  }

  /** The Close that shut the bus ends exactly when no worker is left. */
  lemma CloseWaits(h: Hub, choice: bool)
    ensures if h.live == 0 then NextPc(h, Waiting, choice).Gone? && NextHub(h, Waiting, choice) == h.(returned := true)
            else NextPc(h, Waiting, choice).Waiting? && NextHub(h, Waiting, choice) == h
  {
  }

  // ------------------------------------------------------------------------------
  // Nothing gets stuck
  // ------------------------------------------------------------------------------

  /** Until the bus is done, all workers that were started are there. */
  predicate Staffed(h: Hub, pc: Pc) {
    !h.done ==> (h.once.Finished? ==> h.live == h.opts.workerCount) && (pc.Starting? ==> h.live == pc.count)
  }

  ghost predicate AllStaffed(s: State) {
    && (!s.hub.done && s.hub.once.Finished? ==> s.hub.live == s.hub.opts.workerCount)
    && (s.hub.buffer != [] ==> s.hub.once.Finished?)
    && forall t :: 0 <= t < |s.threads| ==> Staffed(s.hub, s.threads[t])
  }

  lemma StaffedOne(h: Hub, pc: Pc, choice: bool, other: Pc)
    requires Flags(h) && Placed(h, pc) && Staffed(h, pc) && Staffed(h, other)
    requires !(pc.Starting? && other.Starting?)
    ensures Staffed(NextHub(h, pc, choice), NextPc(h, pc, choice))
    ensures Staffed(NextHub(h, pc, choice), other)
  {
  }

  lemma StaffedStep(s: State, e: Event)
    requires Inv(s) && AllStaffed(s)
    ensures AllStaffed(Apply(s, e))
  {
    var s' := Apply(s, e);
    if e.Run? && e.t < |s.threads| {
      var h, pc := s.hub, s.threads[e.t];
      assert Placed(h, pc) && Staffed(h, pc);
      forall u | 0 <= u < |s'.threads|
        ensures Staffed(s'.hub, s'.threads[u])
      {
        if u == e.t {
          StaffedOne(h, pc, e.choice, Gone);
        } else if u < |s.threads| {
          Alone(h, s.threads, e.t, u);
          StaffedOne(h, pc, e.choice, s.threads[u]);
        } else {
          StaffedOne(h, pc, e.choice, Gone);
        }
      }
      StaffedOne(h, pc, e.choice, Gone);
    } else {
      forall u | 0 <= u < |s'.threads|
        ensures Staffed(s'.hub, s'.threads[u])
      {
        assert u < |s.threads| ==> Staffed(s.hub, s.threads[u]);
      }
    }
  }

  lemma {:induction false} StaffedRun(s: State, es: seq<Event>)
    requires Inv(s) && AllStaffed(s)
    ensures AllStaffed(Exec(s, es))
    decreases |es|
  {
    if es != [] {
      InvStep(s, es[0]);
      StaffedStep(s, es[0]);
      StaffedRun(Apply(s, es[0]), es[1..]);
    }
  }

  /** In every reachable state of a bus that is not done: once started, all workers are still there. */
  lemma WorkersStay(s: State)
    requires Reachable(s)
    ensures AllStaffed(s)
    ensures !s.hub.done && s.hub.once.Finished? ==> Sum(Workers(), s.threads) == s.hub.opts.workerCount
  {
    ReachableInv(s);
    var opts, es :| Corrected(opts) && s == Exec(Init(opts), es);
    InitInv(opts);
    StaffedRun(Init(opts), es);
  }

  /** No thread can do anything. */
  ghost predicate Quiet(s: State) {
    forall t, choice :: 0 <= t < |s.threads| ==> Apply(s, Run(t, choice)) == s
  }

  lemma QuietPc(s: State, t: nat)
    requires Quiet(s) && t < |s.threads|
    ensures forall choice :: NextPc(s.hub, s.threads[t], choice) == s.threads[t]
    ensures !s.threads[t].Starting?
  {
    forall choice
      ensures NextPc(s.hub, s.threads[t], choice) == s.threads[t]
    {
      var s' := Apply(s, Run(t, choice));
      assert s' == s && s'.threads[t] == NextPc(s.hub, s.threads[t], choice);
    }
    assert NextPc(s.hub, s.threads[t], true) == s.threads[t];
  }

  lemma WorkerIsThere(s: State) returns (w: nat)
    requires Reachable(s) && !s.hub.done && s.hub.once.Finished?
    ensures w < |s.threads| && IsWorker(s.threads[w])
  {
    WorkersStay(s);
    ReachableInv(s);
    w := SomeSummand(Workers(), s.threads);
  }

  /** A publisher that cannot send has a full buffer before it. */
  lemma FullBuffer(h: Hub, pc: Pc)
    requires pc.Selecting? && pc.jobs != [] && h.opts.bufferSize >= 1
    requires NextPc(h, pc, true) == pc && NextPc(h, pc, false) == pc
    ensures !h.done && h.buffer != []
  {
  }

  lemma Idle(s: State, w: nat)
    requires Quiet(s) && w < |s.threads| && IsWorker(s.threads[w])
    ensures s.hub.buffer == []
  {
    QuietPc(s, w);
    assert NextPc(s.hub, s.threads[w], false) == s.threads[w];
  }

  /** Where a thread can be in a quiet state. */
  lemma QuietThread(s: State, t: nat)
    requires Reachable(s) && Quiet(s) && t < |s.threads|
    ensures s.threads[t].Gone? || s.threads[t].Waiting? || (s.threads[t].Polling? && !s.hub.done && s.hub.buffer == [])
  {
    ReachableInv(s);
    QuietPc(s, t);
    var h, pc := s.hub, s.threads[t];
    assert Placed(h, pc);
    assert NextPc(h, pc, true) == pc && NextPc(h, pc, false) == pc;
    if pc.Sending? {
      if pc.jobs != [] && h.once.Busy? {
        var u := SomeSummand(Starters(), s.threads);
        QuietPc(s, u);
        assert false;
      }
      assert false;
    } else if pc.Selecting? {
      FullBuffer(h, pc);
      var w := WorkerIsThere(s);
      Idle(s, w);
      assert false;
    }
  }

  /**
    Nothing gets stuck: when no thread can move, every publisher and every Close is at its end;
    if the bus is not done, the workers wait with an empty buffer and every accepted job was
    handled; if it is, the workers have left.
    */
  lemma QuietMeansHandled(s: State)
    requires Reachable(s) && Quiet(s)
    ensures forall t :: 0 <= t < |s.threads| ==> s.threads[t].Gone? || (s.threads[t].Polling? && !s.hub.done)
    ensures !s.hub.done ==>
              s.hub.buffer == [] && forall job :: Times(s.hub.accepted, job) == Times(s.hub.handled, job)
    ensures s.hub.done ==> s.hub.live == 0
  {
    ReachableInv(s);
    forall t | 0 <= t < |s.threads|
      ensures s.threads[t].Gone? || s.threads[t].Waiting? || (s.threads[t].Polling? && !s.hub.done && s.hub.buffer == [])
    {
      QuietThread(s, t);
    }
    if s.hub.done {
      NoneCounted(Workers(), s.threads);
      forall t | 0 <= t < |s.threads|
        ensures s.threads[t].Gone?
      {
        QuietPc(s, t);
        assert NextPc(s.hub, s.threads[t], true) == s.threads[t];
      }
    } else {
      forall t | 0 <= t < |s.threads|
        ensures !s.threads[t].Waiting?
      {
        assert Placed(s.hub, s.threads[t]);
      }
      QuietIsEmpty(s);
    }
  }

  lemma QuietIsEmpty(s: State)
    requires Reachable(s) && Quiet(s) && !s.hub.done
    requires forall t :: 0 <= t < |s.threads| ==> s.threads[t].Gone? || (s.threads[t].Polling? && s.hub.buffer == [])
    ensures s.hub.buffer == [] && forall job :: Times(s.hub.accepted, job) == Times(s.hub.handled, job)
  {
    WorkersStay(s);
    if s.hub.buffer != [] {
      var w := WorkerIsThere(s);
    }
    JobsAreConserved(s);
    forall job
      ensures Times(s.hub.accepted, job) == Times(s.hub.handled, job)
    {
      NoneCounted(Holders(job), s.threads);
    }
  }

  lemma {:induction false} NoneCounted(f: Pc -> nat, threads: seq<Pc>)
    requires forall t :: 0 <= t < |threads| ==> f(threads[t]) == 0
    ensures Sum(f, threads) == 0
    decreases |threads|
  {
    if threads != [] {
      NoneCounted(f, threads[..|threads| - 1]);
    }
  }
}
