/**
  The asynchronous event bus (events/events.go) as a transition system: any number of
  publishers, closers and workers, each lock region, each channel operation and each
  WaitGroup operation one step.  `choice` settles a select with two ready cases.
  */
module Bus {
  import opened Threads

  datatype Subscription = Subscription(id: nat, handler: nat)

  type Subscribers = map<string, seq<Subscription>>

  /** What the lock of the bus protects. */
  datatype Directory = Directory(subscribers: Subscribers, nextID: nat, closed: bool)

  datatype Job = Job(handler: nat, event: nat)

  /** Options after NewBus has corrected them. */
  datatype Options = Options(bufferSize: nat, workerCount: nat)

  predicate Corrected(opts: Options) { opts.bufferSize >= 1 && opts.workerCount >= 1 }

  /** startOnce: not yet called, inside the function, or done. */
  datatype Once = Fresh | Busy | Finished

  datatype Pc =
    | Entering(topic: string, event: nat)        // Publish, before the read lock
    | Sending(jobs: seq<Job>)                    // the loop of Publish over the jobs left
    | Starting(count: nat, jobs: seq<Job>)       // inside startOnce, `count` workers started
    | Selecting(jobs: seq<Job>)                  // the select of enqueue
    | Closing | Signalling | Waiting             // Close: lock region, close(done), Wait
    | Polling | Handling(job: Job)               // a worker
    | Gone

  datatype Hub = Hub(
    opts: Options,
    dir: Directory,
    done: bool,             // the done channel is closed
    once: Once,
    live: int,              // the WaitGroup
    buffer: seq<Job>,       // the job channel
    accepted: seq<Job>,     // every job sent so far
    taken: seq<Job>,        // every job whose handler has been started
    handled: seq<Job>,      // every job whose handler has returned
    returned: bool)         // the Close that closed the bus has returned

  datatype State = State(hub: Hub, threads: seq<Pc>)

  function Init(opts: Options): State {
    State(Hub(opts, Directory(map[], 0, false), false, Fresh, 0, [], [], [], [], false), [])
  }

  function Listeners(subscribers: Subscribers, topic: string): seq<Subscription> {
    if topic in subscribers then subscribers[topic] else []
  }

  function JobsFor(subs: seq<Subscription>, event: nat): seq<Job> {
    seq(|subs|, i requires 0 <= i < |subs| => Job(subs[i].handler, event))
  }

  /** The subscribers a publication is for: those of the topic, then those of everything. */
  function Recipients(subscribers: Subscribers, topic: string): seq<Subscription> {
    Listeners(subscribers, topic) + Listeners(subscribers, "*")
  }

  /** The call for one subscription. */
  predicate CallFor(job: Job, sub: Subscription, event: nat) { job.handler == sub.handler && job.event == event }

  /** First a call for each of `own`, then one for each of `wild`, in order. */
  predicate CallsBoth(called: seq<Job>, own: seq<Subscription>, wild: seq<Subscription>, event: nat) {
    && |called| == |own| + |wild|
    && (forall i :: 0 <= i < |own| ==> CallFor(called[i], own[i], event))
    && (forall i :: 0 <= i < |wild| ==> CallFor(called[|own| + i], wild[i], event))
  }

  predicate Sends(h: Hub, choice: bool) { |h.buffer| < h.opts.bufferSize && (!h.done || choice) }

  predicate Exits(h: Hub, choice: bool) { h.done && (choice || h.buffer == []) }

  function NextPc(h: Hub, pc: Pc, choice: bool): Pc {
    match pc
    case Entering(topic, event) =>
      if h.dir.closed then Gone else Sending(JobsFor(Recipients(h.dir.subscribers, topic), event))
    case Sending(jobs) =>
      if jobs == [] then Gone
      else (match h.once case Fresh => Starting(0, jobs) case Busy => pc case Finished => Selecting(jobs))
    case Starting(count, jobs) =>
      if count < h.opts.workerCount then Starting(count + 1, jobs) else Selecting(jobs)
    case Selecting(jobs) =>
      if Sends(h, choice) && jobs != [] then Sending(jobs[1..]) else if h.done then Gone else pc
    case Closing => if h.dir.closed then Gone else Signalling
    case Signalling => Waiting
    case Waiting => if h.live == 0 then Gone else pc
    case Polling =>
      if Exits(h, choice) then Gone else if h.buffer != [] then Handling(h.buffer[0]) else pc
    case Handling(_) => Polling
    case Gone => Gone
  }

  function NextHub(h: Hub, pc: Pc, choice: bool): Hub {
    match pc
    case Sending(jobs) => if jobs != [] && h.once.Fresh? then h.(once := Busy) else h
    case Starting(count, _) =>
      if count < h.opts.workerCount then h.(live := h.live + 1) else h.(once := Finished)
    case Selecting(jobs) =>
      if Sends(h, choice) && jobs != [] then
        h.(buffer := h.buffer + [jobs[0]], accepted := h.accepted + [jobs[0]])
      else h
    case Closing =>
      if h.dir.closed then h else h.(dir := Shut(h.dir))
    case Signalling => h.(done := true)
    case Waiting => if h.live == 0 then h.(returned := true) else h
    case Polling =>
      if Exits(h, choice) then h.(live := h.live - 1)
      else if h.buffer != [] then h.(buffer := h.buffer[1..], taken := h.taken + [h.buffer[0]])
      else h
    case Handling(job) => h.(handled := h.handled + [job])
    case Entering(_, _) | Gone => h
  }

  /** Only startOnce brings new threads into being. */
  function Spawned(h: Hub, pc: Pc): seq<Pc> {
    if pc.Starting? && pc.count < h.opts.workerCount then [Polling] else []
  }

  datatype Event =
    | Publish(topic: string, event: nat)
    | Close
    | Run(t: nat, choice: bool)
    | Subscribe(topic: string, handler: nat)
    | Unsubscribe(topic: string, id: nat)

  /** The subscriptions without the first one of that ID. */
  function Dropped(subs: seq<Subscription>, id: nat): seq<Subscription> {
    if subs == [] then []
    else if subs[0].id == id then subs[1..]
    else [subs[0]] + Dropped(subs[1..], id)
  }

  function Subscribed(d: Directory, topic: string, handler: nat): Directory {
    if d.closed then d
    else
      var sub := Subscription(d.nextID + 1, handler);
      Directory(d.subscribers[topic := Listeners(d.subscribers, topic) + [sub]], d.nextID + 1, false)
  }

  function Unsubscribed(d: Directory, topic: string, id: nat): Directory {
    if topic !in d.subscribers then d
    else d.(subscribers := d.subscribers[topic := Dropped(d.subscribers[topic], id)])
  }

  /** The lock region of Close. */
  function Shut(d: Directory): Directory { d.(subscribers := map[], closed := true) }

  function Apply(s: State, e: Event): State {
    match e
    case Publish(topic, event) => State(s.hub, s.threads + [Entering(topic, event)])
    case Close => State(s.hub, s.threads + [Closing])
    case Subscribe(topic, handler) => State(s.hub.(dir := Subscribed(s.hub.dir, topic, handler)), s.threads)
    case Unsubscribe(topic, id) => State(s.hub.(dir := Unsubscribed(s.hub.dir, topic, id)), s.threads)
    case Run(t, choice) =>
      if t < |s.threads| then
        var pc := s.threads[t];
        State(NextHub(s.hub, pc, choice), s.threads[t := NextPc(s.hub, pc, choice)] + Spawned(s.hub, pc))
      else s
  }

  function Exec(s: State, es: seq<Event>): State
    decreases |es|
  {
    if es == [] then s else Exec(Apply(s, es[0]), es[1..])
  }

  lemma {:induction false} ExecSplit(s: State, xs: seq<Event>, ys: seq<Event>)
    ensures Exec(s, xs + ys) == Exec(Exec(s, xs), ys)
    decreases |xs|
  {
    if xs == [] {
      assert xs + ys == ys;
    } else {
      assert (xs + ys)[1..] == xs[1..] + ys;
      ExecSplit(Apply(s, xs[0]), xs[1..], ys);
    }
  }

  // ------------------------------------------------------------------------------
  // What every step keeps
  // ------------------------------------------------------------------------------

  predicate IsWorker(pc: Pc) { pc.Polling? || pc.Handling? }

  function Workers(): Pc -> nat { (pc: Pc) => if IsWorker(pc) then 1 else 0 }

  function Starters(): Pc -> nat { (pc: Pc) => if pc.Starting? then 1 else 0 }

  function Holders(job: Job): Pc -> nat { (pc: Pc) => if pc == Handling(job) then 1 else 0 }

  function Times(jobs: seq<Job>, job: Job): nat { multiset(jobs)[job] }

  /** A job whose handler was started has returned or is held by a worker. */
  predicate Conserved(h: Hub, threads: seq<Pc>, job: Job) {
    Times(h.taken, job) == Times(h.handled, job) + Sum(Holders(job), threads)
  }

  /** Jobs go through the channel in order; none appears or disappears. */
  predicate Queued(h: Hub) {
    h.accepted == h.taken + h.buffer && |h.buffer| <= h.opts.bufferSize
  }

  ghost predicate Flow(s: State) {
    Queued(s.hub) && forall job :: Conserved(s.hub, s.threads, job)
  }

  /** What a thread's position says about the hub. */
  predicate Placed(h: Hub, pc: Pc) {
    && (pc.Starting? ==> h.once.Busy? && h.live <= pc.count <= h.opts.workerCount && pc.jobs != [])
    && (pc.Selecting? ==> h.once.Finished? && pc.jobs != [])
    && (pc.Signalling? ==> h.dir.closed && !h.done)
    && (pc.Waiting? ==> h.done)
  }

  ghost predicate AllPlaced(h: Hub, threads: seq<Pc>) {
    forall t :: 0 <= t < |threads| ==> Placed(h, threads[t])
  }

  /** Close is between its lock region and its signal. */
  function Signallers(): Pc -> nat { (pc: Pc) => if pc.Signalling? then 1 else 0 }

  /** The WaitGroup counts the workers; at most one thread is inside startOnce, at most one closes. */
  predicate Counted(h: Hub, threads: seq<Pc>) {
    && h.live == Sum(Workers(), threads)
    && Sum(Starters(), threads) == (if h.once.Busy? then 1 else 0)
    && Sum(Signallers(), threads) == (if h.dir.closed && !h.done then 1 else 0)
  }

  predicate Flags(h: Hub) {
    && (h.done ==> h.dir.closed)
    && (h.returned ==> h.done)
    && (h.once.Fresh? ==> h.live == 0)
    && 0 <= h.live <= h.opts.workerCount
  }

  ghost predicate Inv(s: State) {
    && Corrected(s.hub.opts) && Flow(s) && Counted(s.hub, s.threads)
    && AllPlaced(s.hub, s.threads) && Flags(s.hub)
  }

  // ------------------------------------------------------------------------------

  function RunThreads(h: Hub, threads: seq<Pc>, t: nat, choice: bool): seq<Pc>
    requires t < |threads|
  {
    threads[t := NextPc(h, threads[t], choice)] + Spawned(h, threads[t])
  }

  lemma RunSum(f: Pc -> nat, h: Hub, threads: seq<Pc>, t: nat, choice: bool)
    requires t < |threads|
    ensures Sum(f, RunThreads(h, threads, t, choice)) + f(threads[t]) ==
            Sum(f, threads) + f(NextPc(h, threads[t], choice)) + (if Spawned(h, threads[t]) == [] then 0 else f(Polling))
  {
    var pc' := NextPc(h, threads[t], choice);
    SumUpdate(f, threads, t, pc');
    if Spawned(h, threads[t]) == [] {
      assert threads[t := pc'] + [] == threads[t := pc'];
    } else {
      SumAppend(f, threads[t := pc'], Polling);
    }
  }

  lemma CountedRun(h: Hub, threads: seq<Pc>, t: nat, choice: bool)
    requires Counted(h, threads) && Flags(h) && t < |threads| && Placed(h, threads[t])
    ensures Counted(NextHub(h, threads[t], choice), RunThreads(h, threads, t, choice))
  {
    RunSum(Workers(), h, threads, t, choice);
    RunSum(Starters(), h, threads, t, choice);
    RunSum(Signallers(), h, threads, t, choice);
  }

  lemma FlagsRun(h: Hub, threads: seq<Pc>, t: nat, choice: bool)
    requires Counted(h, threads) && Flags(h) && t < |threads| && Placed(h, threads[t])
    ensures Flags(NextHub(h, threads[t], choice))
  {
    SumCovers(Workers(), threads, t, t);
  }

  lemma PlacedSelf(h: Hub, pc: Pc, choice: bool)
    requires Flags(h) && Placed(h, pc)
    ensures Placed(NextHub(h, pc, choice), NextPc(h, pc, choice))
  {
  }

  lemma PlacedOther(h: Hub, pc: Pc, choice: bool, other: Pc)
    requires Placed(h, pc) && Placed(h, other)
    requires !(pc.Starting? && other.Starting?) && !(pc.Signalling? && other.Signalling?)
    ensures Placed(NextHub(h, pc, choice), other)
  {
  }

  lemma Alone(h: Hub, threads: seq<Pc>, t: nat, u: nat)
    requires Counted(h, threads) && t < |threads| && u < |threads| && t != u
    ensures !(threads[t].Starting? && threads[u].Starting?)
    ensures !(threads[t].Signalling? && threads[u].Signalling?)
  {
    SumCovers(Starters(), threads, t, u);
    SumCovers(Signallers(), threads, t, u);
  }

  lemma PlacedRun(h: Hub, threads: seq<Pc>, t: nat, choice: bool)
    requires AllPlaced(h, threads) && Counted(h, threads) && Flags(h) && t < |threads|
    ensures AllPlaced(NextHub(h, threads[t], choice), RunThreads(h, threads, t, choice))
  {
    var threads' := RunThreads(h, threads, t, choice);
    forall u | 0 <= u < |threads'|
      ensures Placed(NextHub(h, threads[t], choice), threads'[u])
    {
      if u == t {
        PlacedSelf(h, threads[t], choice);
      } else if u < |threads| {
        Alone(h, threads, t, u);
        PlacedOther(h, threads[t], choice, threads[u]);
      }
    }
  }

  lemma TimesAppend(jobs: seq<Job>, last: Job, job: Job)
    ensures Times(jobs + [last], job) == Times(jobs, job) + (if last == job then 1 else 0)
  {
  }

  /** The step starts a handler for this job. */
  predicate Takes(h: Hub, pc: Pc, choice: bool, job: Job) {
    pc.Polling? && !Exits(h, choice) && h.buffer != [] && h.buffer[0] == job
  }

  lemma StartedOne(h: Hub, pc: Pc, choice: bool, job: Job)
    ensures Times(NextHub(h, pc, choice).taken, job) == Times(h.taken, job) + (if Takes(h, pc, choice, job) then 1 else 0)
  {
    if pc.Polling? && h.buffer != [] {
      TimesAppend(h.taken, h.buffer[0], job);
    }
  }

  lemma FinishedOne(h: Hub, pc: Pc, choice: bool, job: Job)
    ensures Times(NextHub(h, pc, choice).handled, job) == Times(h.handled, job) + Holders(job)(pc)
  {
    if pc.Handling? {
      TimesAppend(h.handled, pc.job, job);
    }
  }

  lemma HeldOne(h: Hub, pc: Pc, choice: bool, job: Job)
    ensures Holders(job)(NextPc(h, pc, choice)) == if Takes(h, pc, choice, job) then 1 else 0
  {
  }

  lemma ConservedRun(h: Hub, threads: seq<Pc>, t: nat, choice: bool, job: Job)
    requires Conserved(h, threads, job) && t < |threads|
    ensures Conserved(NextHub(h, threads[t], choice), RunThreads(h, threads, t, choice), job)
  {
    RunSum(Holders(job), h, threads, t, choice);
    StartedOne(h, threads[t], choice, job);
    FinishedOne(h, threads[t], choice, job);
    HeldOne(h, threads[t], choice, job);
  }

  lemma QueuedOne(h: Hub, pc: Pc, choice: bool)
    requires Queued(h)
    ensures Queued(NextHub(h, pc, choice))
  {
    var h' := NextHub(h, pc, choice);
    if pc.Polling? && h.buffer != [] {
      assert h.taken + h.buffer == h.taken + [h.buffer[0]] + h.buffer[1..];
    } else if pc.Selecting? && pc.jobs != [] {
      assert h.taken + (h.buffer + [pc.jobs[0]]) == h.taken + h.buffer + [pc.jobs[0]];
    }
  }

  lemma FlowRun(s: State, t: nat, choice: bool)
    requires Flow(s) && t < |s.threads|
    ensures Flow(Apply(s, Run(t, choice)))
  {
    QueuedOne(s.hub, s.threads[t], choice);
    forall job
      ensures Conserved(Apply(s, Run(t, choice)).hub, Apply(s, Run(t, choice)).threads, job)
    {
      ConservedRun(s.hub, s.threads, t, choice, job);
    }
  }

  lemma ArrivalKeeps(s: State, pc: Pc)
    requires Inv(s) && (pc.Entering? || pc.Closing?)
    ensures Inv(State(s.hub, s.threads + [pc]))
  {
    SumAppend(Workers(), s.threads, pc);
    SumAppend(Starters(), s.threads, pc);
    SumAppend(Signallers(), s.threads, pc);
    forall job
      ensures Conserved(s.hub, s.threads + [pc], job)
    {
      assert Conserved(s.hub, s.threads, job);
      SumAppend(Holders(job), s.threads, pc);
    }
  }

  /** Subscribing and unsubscribing concern later publications only. */
  lemma SubscriptionKeeps(s: State, h': Hub)
    requires Inv(s) && h'.dir.closed == s.hub.dir.closed && h' == s.hub.(dir := h'.dir)
    ensures Inv(State(h', s.threads))
  {
    forall job
      ensures Conserved(h', s.threads, job)
    {
      assert Conserved(s.hub, s.threads, job);
    }
    forall t | 0 <= t < |s.threads|
      ensures Placed(h', s.threads[t])
    {
      assert Placed(s.hub, s.threads[t]);
    }
  }

  lemma InvStep(s: State, e: Event)
    requires Inv(s)
    ensures Inv(Apply(s, e))
  {
    match e
    case Publish(topic, event) => ArrivalKeeps(s, Entering(topic, event));
    case Close => ArrivalKeeps(s, Closing);
    case Subscribe(_, _) | Unsubscribe(_, _) => SubscriptionKeeps(s, Apply(s, e).hub);
    case Run(t, choice) =>
      if t < |s.threads| {
        FlowRun(s, t, choice);
        CountedRun(s.hub, s.threads, t, choice);
        PlacedRun(s.hub, s.threads, t, choice);
        FlagsRun(s.hub, s.threads, t, choice);
      }
  }

  lemma {:induction false} InvRun(s: State, es: seq<Event>)
    requires Inv(s)
    ensures Inv(Exec(s, es))
    decreases |es|
  {
    if es != [] {
      InvStep(s, es[0]);
      InvRun(Apply(s, es[0]), es[1..]);
    }
  }

  lemma InitInv(opts: Options)
    requires Corrected(opts)
    ensures Inv(Init(opts))
  {
  }
}
