/**
  Outbound delivery of one WebSocket connection (transport/ws/connection.go) as a
  transition system.

  Any number of threads share two bounded queues, the `closed` flag and the
  `writerRunning` flag.  A thread is a producer on its way through
  `Send`/`SendRaw`/`SendPrepared`/`sendBroadcastMessage`, or a writer inside `writePump`;
  a producer whose compare-and-swap succeeds becomes the writer (inline) or spawns it,
  and both are the same transition here.  Every channel operation, every atomic
  operation and every socket write is one step, and a run is any sequence of events.
  */
module Outbound {
  import opened Threads

  datatype Channel = Direct | Broadcast

  datatype Message = Binary(data: seq<bv8>) | Prepared(data: seq<bv8>) | Ping

  // A message together with the queue it travels through.
  datatype Packet = Packet(channel: Channel, message: Message)

  const BATCH_SIZE: nat := 32
  const DRAIN_BURST: nat := 4
  const PREEMPT_EVERY: nat := 8

  /** The `select` statements of the drain loop. */
  datatype Site =
    | Priority                              // drainPendingWrites: a burst of one direct message
    | Batch(i: nat)                         // i broadcasts of the current batch are written
    | Burst(i: nat, left: nat, last: bool)  // up to `left` direct messages inside a batch

  datatype Pc =
    // producers
    | Offered(packet: Packet)                 // first closed.Load()
    | Pushing(packet: Packet)                 // select { case queue <- m }
    | Ensuring                                // closed.Load() of ensureWriter / tryServeWriterInline
    | Claiming                                // their CompareAndSwap(false, true)
    // writers
    | Selecting(site: Site)
    | Writing(site: Site, message: Message)   // holds a message taken at `site`
    | Clearing                                // Store(false) after an idle drain
    | RecheckClosed
    | RecheckDirect                           // len(send)
    | RecheckBroadcast                        // len(broadcast)
    | Reclaiming                              // CompareAndSwap(false, true) of writePump
    | Failing                                 // write error, about to Close
    | Exiting(released: bool)                 // deferred Store(false); `released`: already cleared once
    | Finished

  /** What the threads share, and the history of what passed through it. */
  datatype Conn = Conn(
    directCap: nat, broadcastCap: nat,
    closed: bool, writerRunning: bool,
    direct: seq<Message>, broadcast: seq<Message>,
    accepted: seq<Packet>,   // pushed into a queue, in push order
    taken: seq<Packet>,      // received from a queue, in receive order
    written: seq<Packet>,    // written to the socket, in write order
    lost: seq<Packet>,       // in hand when a write failed
    owner: nat,              // thread of the latest successful CompareAndSwap
    staleClears: nat,        // deferred clears by a released writer that found the flag set
    wastedClears: nat)       // clears by a flag holder that found the flag already down
  {
    function Queue(ch: Channel): seq<Message> { if ch.Direct? then direct else broadcast }

    function Cap(ch: Channel): nat { if ch.Direct? then directCap else broadcastCap }
  }

  datatype State = State(c: Conn, threads: seq<Pc>)

  function NewConn(directCap: nat, broadcastCap: nat): Conn {
    Conn(directCap, broadcastCap, false, false, [], [], [], [], [], [], 0, 0, 0)
  }

  function Init(directCap: nat, broadcastCap: nat): State {
    State(NewConn(directCap, broadcastCap), [])
  }

  function Source(site: Site): Channel {
    if site.Batch? then Broadcast else Direct
  }

  function AfterBurst(i: nat, last: bool): Site {
    if last then Priority else Batch(i)
  }

  /** Where the drain loop goes when the queue it selects on is empty. */
  function WhenEmpty(site: Site): Pc {
    match site
    case Priority => Selecting(Batch(0))
    case Batch(i) => if i == 0 then Clearing else Selecting(Burst(i, DRAIN_BURST, true))
    case Burst(i, left, last) => Selecting(AfterBurst(i, last))
  }

  /** Where the drain loop goes once the message taken at `site` is written. */
  function WhenWritten(site: Site): Site {
    match site
    case Priority => Priority
    case Batch(i) =>
      if i + 1 >= BATCH_SIZE then Burst(i + 1, DRAIN_BURST, true)
      else if (i + 1) % PREEMPT_EVERY == 0 then Burst(i + 1, DRAIN_BURST, false)
      else Batch(i + 1)
    case Burst(i, left, last) =>
      if left <= 1 then AfterBurst(i, last) else Burst(i, left - 1, last)
  }

  /** True from a thread's successful CompareAndSwap until its own next Store(false). */
  predicate Holds(pc: Pc) {
    pc.Selecting? || pc.Writing? || pc.Clearing? || pc.Failing? || pc == Exiting(false)
  }

  function Push(c: Conn, p: Packet): Conn {
    if p.channel.Direct? then
      c.(direct := c.direct + [p.message], accepted := c.accepted + [p])
    else
      c.(broadcast := c.broadcast + [p.message], accepted := c.accepted + [p])
  }

  function Take(c: Conn, ch: Channel): Conn
    requires c.Queue(ch) != []
  {
    if ch.Direct? then
      c.(direct := c.direct[1..], taken := c.taken + [Packet(ch, c.direct[0])])
    else
      c.(broadcast := c.broadcast[1..], taken := c.taken + [Packet(ch, c.broadcast[0])])
  }

  /** CompareAndSwap(false, true) by thread t. */
  function Claim(c: Conn, t: nat): Conn {
    if c.writerRunning then c else c.(writerRunning := true, owner := t)
  }

  /** Store(false), with the bookkeeping of whose flag it was. */
  function Clear(c: Conn, holder: bool): Conn {
    c.(writerRunning := false,
       staleClears := c.staleClears + (if !holder && c.writerRunning then 1 else 0),
       wastedClears := c.wastedClears + (if holder && !c.writerRunning then 1 else 0))
  }

  /** Where a thread at `pc` goes next; `ok` says whether a socket write succeeds. */
  function NextPc(c: Conn, pc: Pc, ok: bool): Pc {
    match pc
    case Offered(p) => if c.closed then Finished else Pushing(p)
    case Pushing(p) => if |c.Queue(p.channel)| < c.Cap(p.channel) then Ensuring else Finished
    case Ensuring => if c.closed then Finished else Claiming
    case Claiming => if c.writerRunning then Finished else Selecting(Priority)
    case Selecting(site) =>
      var q := c.Queue(Source(site));
      if q == [] then WhenEmpty(site) else Writing(site, q[0])
    case Writing(site, m) => if ok then Selecting(WhenWritten(site)) else Failing
    case Clearing => RecheckClosed
    case RecheckClosed => if c.closed then Exiting(true) else RecheckDirect
    case RecheckDirect => if c.direct != [] then Reclaiming else RecheckBroadcast
    case RecheckBroadcast => if c.broadcast != [] then Reclaiming else Exiting(true)
    case Reclaiming => if c.writerRunning then Exiting(true) else Selecting(Priority)
    case Failing => Exiting(false)
    case Exiting(released) => Finished
    case Finished => Finished
  }

  /** What the atomic action of thread t at `pc` does to the shared state. */
  function NextConn(c: Conn, t: nat, pc: Pc, ok: bool): Conn {
    match pc
    case Pushing(p) => if |c.Queue(p.channel)| < c.Cap(p.channel) then Push(c, p) else c
    case Claiming | Reclaiming => Claim(c, t)
    case Selecting(site) => if c.Queue(Source(site)) == [] then c else Take(c, Source(site))
    case Writing(site, m) =>
      var p := Packet(Source(site), m);
      if ok then c.(written := c.written + [p]) else c.(lost := c.lost + [p])
    case Clearing => Clear(c, true)
    case Failing => c.(closed := true)
    case Exiting(released) => Clear(c, !released)
    case Offered(_) | Ensuring | RecheckClosed | RecheckDirect | RecheckBroadcast | Finished => c
  }

  function Advance(s: State, t: nat, ok: bool): State
    requires t < |s.threads|
  {
    State(NextConn(s.c, t, s.threads[t], ok), s.threads[t := NextPc(s.c, s.threads[t], ok)])
  }

  datatype Event =
    | Arrive(packet: Packet)    // somebody calls a send operation
    | Run(t: nat, ok: bool)     // thread t takes its next atomic action
    | Shut                      // somebody calls Close

  function Apply(s: State, e: Event): State {
    match e
    case Arrive(p) => State(s.c, s.threads + [Offered(p)])
    case Run(t, ok) => if t < |s.threads| then Advance(s, t, ok) else s
    case Shut => State(s.c.(closed := true), s.threads)
  }

  function Exec(s: State, es: seq<Event>): State
    decreases |es|
  {
    if es == [] then s else Exec(Apply(s, es[0]), es[1..])
  }

  lemma {:induction false} ExecSplit(s: State, xs: seq<Event>, ys: seq<Event>)
    ensures Exec(s, xs + ys) == Exec(Exec(s, xs), ys)
    decreases |xs|
  {
    if xs == [] {
      assert xs + ys == ys;
    } else {
      assert (xs + ys)[1..] == xs[1..] + ys;
      ExecSplit(Apply(s, xs[0]), xs[1..], ys);
    }
  }
}
