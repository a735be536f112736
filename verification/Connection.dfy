/**
  The methods of a connection as the source writes them, with their loops.  Each is proved
  to be a sequence of actions of one thread of Outbound, with any finite number of actions
  of other threads before each of its own.
  */
module Connection {
  import opened Outbound
  import opened OutboundSafety
  import OutboundProgress
  import opened WriterOrder
  import opened Wrappers

  datatype Error = ConnectionClosed | BufferFull | WriteFailed

  /** What other threads do never moves thread `me`. */
  lemma {:induction false} OthersKeepPc(s: State, es: seq<Event>, me: nat)
    requires me < |s.threads|
    requires forall e :: e in es ==> !(e.Run? && e.t == me)
    ensures me < |Exec(s, es).threads| && Exec(s, es).threads[me] == s.threads[me]
    decreases |es|
  {
    if es != [] {
      assert es[0] in es;
      OthersKeepPc(Apply(s, es[0]), es[1..], me);
    }
  }

  /** How many actions of a trace are thread me's own. */
  ghost function Own(me: nat, es: seq<Event>): nat {
    if es == [] then 0
    else
      var n := |es| - 1;
      Own(me, es[..n]) + (if es[n].Run? && es[n].t == me then 1 else 0)
  }

  lemma {:induction false} OwnAppend(me: nat, es: seq<Event>, more: seq<Event>)
    requires forall e :: e in more ==> !(e.Run? && e.t == me)
    ensures Own(me, es + more) == Own(me, es)
    decreases |more|
  {
    if more == [] {
      assert es + more == es;
    } else {
      var n := |more| - 1;
      assert (es + more)[..|es| + n] == es + more[..n];
      OwnAppend(me, es, more[..n]);
    }
  }

  /** A burst that nobody disturbs takes from the front of the queue, at most `limit`, and writes in order. */
  predicate WroteBurst(queue: seq<Message>, queue': seq<Message>, socket: seq<Message>, socket': seq<Message>,
                       limit: nat, failed: bool)
  {
    var n := |queue| - |queue'|;
    && 0 <= n <= limit && queue' == queue[n..]
    && (if failed then n > 0 && socket' == socket + queue[..n - 1]
        else (n == limit || queue' == []) && socket' == socket + queue[..n])
  }

  predicate Midburst(queue: seq<Message>, now: seq<Message>, socket: seq<Message>, socketNow: seq<Message>, k: nat) {
    k <= |queue| && now == queue[k..] && socketNow == socket + queue[..k]
  }

  lemma WroteOneMore(queue: seq<Message>, now: seq<Message>, after: seq<Message>, socket: seq<Message>,
                     socketNow: seq<Message>, socketAfter: seq<Message>, k: nat, limit: nat, ok: bool)
    requires Midburst(queue, now, socket, socketNow, k) && k < limit
    requires now != [] && after == now[1..] && socketAfter == (if ok then socketNow + [now[0]] else socketNow)
    ensures ok ==> Midburst(queue, after, socket, socketAfter, k + 1)
    ensures !ok ==> WroteBurst(queue, after, socket, socketAfter, limit, true)
  {
    assert queue[..k + 1] == queue[..k] + [queue[k]];
  }

  lemma WroteAll(queue: seq<Message>, now: seq<Message>, socket: seq<Message>, socketNow: seq<Message>, k: nat, limit: nat)
    requires Midburst(queue, now, socket, socketNow, k) && k <= limit && (k == limit || now == [])
    ensures WroteBurst(queue, now, socket, socketNow, limit, false)
    ensures k > 0 ==> queue != []
    ensures k == 0 && limit > 0 ==> queue == []
  {
  }

  /** One round of a burst. */
  lemma WroteRound(queue: seq<Message>, now: seq<Message>, after: seq<Message>, socket: seq<Message>,
                   socketNow: seq<Message>, socketAfter: seq<Message>, k: nat, limit: nat, some: bool, ok: bool)
    requires Midburst(queue, now, socket, socketNow, k) && k < limit && (some <==> now != [])
    requires some ==> after == now[1..] && socketAfter == (if ok then socketNow + [now[0]] else socketNow)
    requires !some ==> after == now && socketAfter == socketNow
    ensures !some ==> WroteBurst(queue, after, socket, socketAfter, limit, false) && (k > 0 <==> queue != [])
    ensures some && ok ==> Midburst(queue, after, socket, socketAfter, k + 1)
    ensures some && !ok ==> WroteBurst(queue, after, socket, socketAfter, limit, true)
  {
    if some {
      WroteOneMore(queue, now, after, socket, socketNow, socketAfter, k, limit, ok);
    } else {
      WroteAll(queue, after, socket, socketAfter, k, limit);
    }
  }

  lemma WroteKeepsTotal(q: Queues, q': Queues, limit: nat)
    requires q'.broadcast == q.broadcast && WroteBurst(q.direct, q'.direct, q.socket, q'.socket, limit, false)
    ensures Total(q') == Total(q)
  {
    DirectKeepsTotal(q, |q.direct| - |q'.direct|);
  }

  class Connection {
    const sendCap: nat
    const broadcastCap: nat
    var closed: bool
    var writerRunning: bool
    var send: seq<Message>
    var broadcast: seq<Message>
    var socket: seq<Message>     // everything written so far
    ghost var state: State
    ghost var trace: seq<Event>
    ghost var budget: nat        // actions the other threads will still take

    ghost predicate Valid()
      reads this
    {
      && state == Exec(Init(sendCap, broadcastCap), trace)
      && state.c.directCap == sendCap && state.c.broadcastCap == broadcastCap
      && state.c.closed == closed && state.c.writerRunning == writerRunning
      && state.c.direct == send && state.c.broadcast == broadcast
      && Unpack(state.c.written) == socket
    }

    ghost predicate At(me: nat, pc: Pc)
      reads this
    {
      Valid() && me < |state.threads| && state.threads[me] == pc
    }

    constructor (sendCap: nat, broadcastCap: nat, ghost budget: nat)
      ensures Valid() && this.budget == budget
      ensures send == [] && broadcast == [] && socket == [] && !closed && !writerRunning
    {
      this.sendCap, this.broadcastCap := sendCap, broadcastCap;
      closed, writerRunning := false, false;
      send, broadcast, socket := [], [], [];
      state, trace := Init(sendCap, broadcastCap), [];
      this.budget := budget;
    }

    /** Time passes: the other threads take some of their actions. */
    method Interfere(ghost me: nat) returns (ghost es: seq<Event>)
      requires Valid()
      modifies this
      ensures Valid() && trace == old(trace) + es && budget + |es| == old(budget)
      ensures forall e :: e in es ==> !(e.Run? && e.t == me)
    {
      es := [];
    }

    ghost function Now(): Queues
      reads this`send, this`broadcast, this`socket
    {
      Queues(send, broadcast, socket)
    }

    /** One of this thread's own actions, or of the others' together with it. */
    twostate predicate Progressed()
      reads this
    {
      && old(trace) <= trace
      && (budget < old(budget)
          || (budget == old(budget)
              && OutboundProgress.Fuel(state) < OutboundProgress.Fuel(old(state))))
    }

    /** The queues and flags are as before. */
    twostate predicate Untouched()
      reads this`send, this`broadcast, this`socket, this`writerRunning, this`closed
    {
      && Now() == old(Now())
      && writerRunning == old(writerRunning) && closed == old(closed)
    }

    /** Action k of the trace was this thread's, at `pc`, and found the connection closed or not. */
    ghost predicate Looked(me: nat, pc: Pc, k: int, isClosed: bool)
      reads this`trace
    {
      && 0 <= k < |trace| && trace[k] == Run(me, true)
      && LookedIn(Exec(Init(sendCap, broadcastCap), trace[..k]), me, pc, isClosed)
    }

    static ghost predicate LookedIn(s: State, me: nat, pc: Pc, isClosed: bool) {
      me < |s.threads| && s.threads[me] == pc && s.c.closed == isClosed
    }

    /** Others move; this thread is still where it was. */
    method Yield(ghost me: nat, ghost pc: Pc)
      requires At(me, pc)
      modifies this
      ensures At(me, pc) && old(trace) <= trace
      ensures budget < old(budget) || (budget == old(budget) && state == old(state))
      ensures Own(me, trace) == Own(me, old(trace))
    {
      var es := Interfere(me);
      OwnAppend(me, old(trace), es);
      ExecSplit(Init(sendCap, broadcastCap), old(trace), es);
      OthersKeepPc(old(state), es, me);
    }

    /** Bookkeeping of this thread's own action. */
    ghost method Record(me: nat, ok: bool)
      requires state == Exec(Init(sendCap, broadcastCap), trace) && me < |state.threads|
      requires state.threads[me] != Finished
      modifies this`state, this`trace
      ensures state == Exec(Init(sendCap, broadcastCap), trace)
      ensures state == Advance(old(state), me, ok)
      ensures trace == old(trace) + [Run(me, ok)] && Own(me, trace) == Own(me, old(trace)) + 1
      ensures OutboundProgress.Fuel(state) < OutboundProgress.Fuel(old(state))
    {
      Reachable(sendCap, broadcastCap, trace);
      OutboundProgress.FuelBurns(state, me, ok);
      Snoc(Init(sendCap, broadcastCap), trace, Run(me, ok));
      state := Advance(state, me, ok);
      trace := trace + [Run(me, ok)];
      assert trace[..|trace| - 1] == old(trace);
    }

    /** select { case m := <-c.send: ... default: ... } */
    method ReceiveSend(ghost me: nat, ghost site: Site) returns (m: Option<Message>)
      requires At(me, Selecting(site)) && Source(site) == Direct
      modifies this
      ensures Progressed() && At(me, if m.None? then WhenEmpty(site) else Writing(site, m.value))
      ensures budget == old(budget) ==> broadcast == old(broadcast) && socket == old(socket)
      ensures budget == old(budget) ==>
                if m.None? then send == old(send) == []
                else old(send) != [] && m.value == old(send)[0] && send == old(send)[1..]
      ensures Own(me, trace) == Own(me, old(trace)) + 1
    {
      Yield(me, Selecting(site));
      if send == [] {
        m := None;
      } else {
        m := Some(send[0]);
        send := send[1..];
      }
      Record(me, true);
    }

    /** select { case m := <-c.broadcast: ... default: ... } */
    method ReceiveBroadcast(ghost me: nat, ghost site: Site) returns (m: Option<Message>)
      requires At(me, Selecting(site)) && Source(site) == Broadcast
      modifies this
      ensures Progressed() && At(me, if m.None? then WhenEmpty(site) else Writing(site, m.value))
      ensures budget == old(budget) ==> send == old(send) && socket == old(socket)
      ensures budget == old(budget) ==>
                if m.None? then broadcast == old(broadcast) == []
                else old(broadcast) != [] && m.value == old(broadcast)[0] && broadcast == old(broadcast)[1..]
      ensures Own(me, trace) == Own(me, old(trace)) + 1
    {
      Yield(me, Selecting(site));
      if broadcast == [] {
        m := None;
      } else {
        m := Some(broadcast[0]);
        broadcast := broadcast[1..];
      }
      Record(me, true);
    }

    /** The write itself: the socket takes the message, or not. */
    method Put(ghost me: nat, ghost site: Site, m: Message) returns (ok: bool)
      requires At(me, Writing(site, m))
      modifies this`socket, this`state, this`trace
      ensures At(me, if ok then Selecting(WhenWritten(site)) else Failing)
      ensures socket == old(socket) + (if ok then [m] else [])
      ensures trace == old(trace) + [Run(me, ok)] && Own(me, trace) == Own(me, old(trace)) + 1
      ensures OutboundProgress.Fuel(state) < OutboundProgress.Fuel(old(state))
    {
      ok := *;
      ghost var before := state.c.written;
      if ok {
        UnpackAppend(before, Packet(Source(site), m));
        socket := socket + [m];
        Record(me, true);
        assert state.c.written == before + [Packet(Source(site), m)];
      } else {
        Record(me, false);
        assert state.c.written == before;
      }
    }

    /** writeOutbound, some time later. */
    method WriteOutbound(ghost me: nat, ghost site: Site, m: Message) returns (ok: bool)
      requires At(me, Writing(site, m))
      modifies this
      ensures Progressed() && At(me, if ok then Selecting(WhenWritten(site)) else Failing)
      ensures ok ==> socket != [] && socket[|socket| - 1] == m
      ensures budget == old(budget) ==>
                && send == old(send) && broadcast == old(broadcast)
                && socket == old(socket) + (if ok then [m] else [])
      ensures Own(me, trace) == Own(me, old(trace)) + 1
    {
      Yield(me, Writing(site, m));
      ok := Put(me, site, m);
    }

    /** One round of the burst loop: receive and write. */
    method WriteDirect(ghost me: nat, ghost site: Site) returns (some: bool, ok: bool)
      requires At(me, Selecting(site)) && Source(site) == Direct
      modifies this
      ensures Progressed()
      ensures !some ==> ok && At(me, WhenEmpty(site))
      ensures some && ok ==> At(me, Selecting(WhenWritten(site)))
      ensures !ok ==> At(me, Failing)
      ensures budget == old(budget) ==> broadcast == old(broadcast) && (some <==> old(send) != [])
      ensures budget == old(budget) && !some ==> send == old(send) && socket == old(socket)
      ensures budget == old(budget) && some ==>
                send == old(send)[1..] && socket == (if ok then old(socket) + [old(send)[0]] else old(socket))
      ensures Own(me, trace) <= Own(me, old(trace)) + 2
    {
      var m := ReceiveSend(me, site);
      if m.None? {
        return false, true;
      }
      some := true;
      ok := WriteOutbound(me, site, m.value);
    }

    /**
      tryWriteDirectBurst: at most `limit` messages, for each of which this thread acts twice;
      undisturbed, exactly the first ones of the queue.
      */
    method TryWriteDirectBurst(ghost me: nat, limit: nat, ghost site: Site)
        returns (wrote: bool, err: Option<Error>)
      requires At(me, Selecting(site)) && limit > 0
      requires (site.Priority? && limit == 1) || (site.Burst? && site.left == limit)
      modifies this
      ensures Progressed()
      ensures err.Some? ==> At(me, Failing)
      ensures err.None? && site.Priority? ==> At(me, if wrote then Selecting(Priority) else Selecting(Batch(0)))
      ensures err.None? && site.Burst? ==> At(me, Selecting(AfterBurst(site.i, site.last)))
      ensures budget == old(budget) ==>
                && broadcast == old(broadcast)
                && WroteBurst(old(send), send, old(socket), socket, limit, err.Some?)
                && (err.None? ==> (wrote <==> old(send) != []))
      ensures Own(me, trace) <= Own(me, old(trace)) + 2 * limit
    {
      wrote := false;
      ghost var at := site;
      for k := 0 to limit
        invariant k == 0 ==> at == site && budget == old(budget) && state == old(state) && trace == old(trace) && Valid()
        invariant wrote <==> k > 0
        invariant k > 0 ==> Progressed()
        invariant budget == old(budget) ==>
                    broadcast == old(broadcast) && Midburst(old(send), send, old(socket), socket, k)
        invariant Own(me, trace) <= Own(me, old(trace)) + 2 * k
        invariant k < limit ==> At(me, Selecting(at))
        invariant k < limit && site.Priority? ==> at == site
        invariant k < limit && site.Burst? ==> at == Site.Burst(site.i, limit - k, site.last)
        invariant k == limit ==> At(me, if site.Priority? then Selecting(Priority)
                                        else Selecting(AfterBurst(site.i, site.last)))
      {
        ghost var now, socketNow := send, socket;
        var some, ok := WriteDirect(me, at);
        if budget == old(budget) {
          WroteRound(old(send), now, send, old(socket), socketNow, socket, k, limit, some, ok);
        }
        if !some {
          return wrote, None;
        }
        if !ok {
          return false, Some(WriteFailed);
        }
        at := WhenWritten(at);
        wrote := true;
      }
      if budget == old(budget) {
        WroteAll(old(send), send, old(socket), socket, limit, limit);
      }
      return wrote, None;
    }

    /** The preemption point at the head of the batch loop. */
    method PreemptBatch(ghost me: nat, i: nat) returns (err: Option<Error>)
      requires 1 <= i < BATCH_SIZE && At(me, Selecting(WhenWritten(Batch(i - 1))))
      modifies this
      ensures old(trace) <= trace
      ensures Progressed() || (budget == old(budget) && state == old(state))
      ensures At(me, if err.Some? then Failing else Selecting(Batch(i)))
      ensures budget == old(budget) && old(send) == [] && err.None? ==> Now() == old(Now())
    {
      if i % PREEMPT_EVERY == 0 {
        var _, e := TryWriteDirectBurst(me, DRAIN_BURST, Site.Burst(i, DRAIN_BURST, false));
        return e;
      }
      return None;
    }

    /** One round of the batch loop; `last` when the broadcast queue has run dry. */
    method BatchRound(ghost me: nat, i: nat) returns (last: bool, err: Option<Error>)
      requires 1 <= i < BATCH_SIZE && At(me, Selecting(WhenWritten(Batch(i - 1))))
      modifies this
      ensures Progressed()
      ensures At(me, if err.Some? then Failing else if last then Selecting(Priority)
                     else Selecting(WhenWritten(Batch(i))))
      ensures budget == old(budget) && old(send) == [] && err.None? ==>
                send == [] && Total(Now()) == old(Total(Now())) && (last ==> broadcast == [])
    {
      ghost var before := Now();
      err := PreemptBatch(me, i);
      if err.Some? {
        return false, err;
      }
      var pending := ReceiveBroadcast(me, Batch(i));
      if pending.None? {
        var _, e := TryWriteDirectBurst(me, DRAIN_BURST, Site.Burst(i, DRAIN_BURST, true));
        return true, e;
      }
      if budget == old(budget) && old(send) == [] {
        BroadcastKeepsTotal(before);
      }
      var ok := WriteOutbound(me, Batch(i), pending.value);
      return false, if ok then None else Some(WriteFailed);
    }

    /** The loop of writeBroadcastBatch, and the burst after a full batch. */
    method FinishBatch(ghost me: nat) returns (err: Option<Error>)
      requires At(me, Selecting(WhenWritten(Batch(0))))
      modifies this
      ensures Progressed()
      ensures At(me, if err.Some? then Failing else Selecting(Priority))
      ensures budget == old(budget) && old(send) == [] && err.None? ==>
                send == [] && Total(Now()) == old(Total(Now()))
    {
      for i := 1 to BATCH_SIZE
        invariant i == 1 ==> Valid() && trace == old(trace) && state == old(state) && budget == old(budget)
        invariant i > 1 ==> Progressed()
        invariant At(me, Selecting(WhenWritten(Batch(i - 1))))
        invariant budget == old(budget) && old(send) == [] ==> send == [] && Total(Now()) == old(Total(Now()))
      {
        var last, e := BatchRound(me, i);
        if e.Some? || last {
          return e;
        }
      }
      var _, e := TryWriteDirectBurst(me, DRAIN_BURST, Site.Burst(BATCH_SIZE, DRAIN_BURST, true));
      return e;
    }

    /** writeBroadcastBatch: up to 32 broadcasts, a burst of direct messages every 8 and at the end. */
    method WriteBroadcastBatch(ghost me: nat, first: Message) returns (err: Option<Error>)
      requires At(me, Writing(Batch(0), first))
      modifies this
      ensures Progressed()
      ensures At(me, if err.Some? then Failing else Selecting(Priority))
      ensures budget == old(budget) && old(send) == [] && err.None? ==>
                send == [] && Total(Now()) == old(socket) + [first] + old(broadcast)
    {
      var ok := WriteOutbound(me, Batch(0), first);
      if !ok {
        return Some(WriteFailed);
      }
      err := FinishBatch(me);
    }

    /** drainPendingWrites: one direct message, or else one batch of broadcasts. */
    method DrainPendingWrites(ghost me: nat) returns (wrote: bool, err: Option<Error>)
      requires At(me, Selecting(Priority))
      modifies this
      ensures Progressed()
      ensures At(me, if err.Some? then Failing else if wrote then Selecting(Priority) else Clearing)
      ensures err.None? && !wrote && budget == old(budget) ==>
                old(send) == send == [] && old(broadcast) == broadcast == []
      ensures budget == old(budget) && err.None? ==> Total(Now()) == old(Total(Now()))
    {
      var direct, e := TryWriteDirectBurst(me, 1, Priority);
      if e.Some? {
        return false, e;
      }
      if direct {
        if budget == old(budget) {
          WroteKeepsTotal(old(Now()), Now(), 1);
        }
        return true, None;
      }
      wrote, err := DrainBroadcasts(me);
    }

    /** The second half of a drain: a batch, if there is a broadcast. */
    method DrainBroadcasts(ghost me: nat) returns (wrote: bool, err: Option<Error>)
      requires At(me, Selecting(Batch(0)))
      modifies this
      ensures Progressed()
      ensures At(me, if err.Some? then Failing else if wrote then Selecting(Priority) else Clearing)
      ensures budget == old(budget) && err.None? && !wrote ==> Now() == old(Now()) && broadcast == []
      ensures budget == old(budget) && err.None? && old(send) == [] ==> send == [] && Total(Now()) == old(Total(Now()))
    {
      var m := ReceiveBroadcast(me, Batch(0));
      if m.None? {
        return false, None;
      }
      if budget == old(budget) && old(send) == [] {
        BroadcastKeepsTotal(old(Now()));
      }
      var e := WriteBroadcastBatch(me, m.value);
      return e.None?, e;
    }

    /** writerRunning.Store(false) */
    method StoreNotRunning(ghost me: nat, ghost pc: Pc)
      requires At(me, pc) && (pc == Clearing || pc.Exiting?)
      modifies this
      ensures Progressed() && At(me, if pc == Clearing then RecheckClosed else Finished)
      ensures budget == old(budget) ==> Now() == old(Now()) && closed == old(closed)
    {
      Yield(me, pc);
      writerRunning := false;
      Record(me, true);
    }

    /** writerRunning.CompareAndSwap(false, true) */
    method CompareAndSwap(ghost me: nat, ghost pc: Pc) returns (won: bool)
      requires At(me, pc) && (pc == Claiming || pc == Reclaiming)
      modifies this
      ensures Progressed()
      ensures At(me, if won then Selecting(Priority) else if pc == Claiming then Finished else Exiting(true))
      ensures budget == old(budget) ==>
                won == !old(writerRunning) && Now() == old(Now()) && (!won ==> state.c == old(state.c))
    {
      Yield(me, pc);
      won := !writerRunning;
      writerRunning := true;
      Record(me, true);
    }

    /** closed.Load() */
    method LoadClosed(ghost me: nat, ghost pc: Pc) returns (b: bool)
      requires At(me, pc) && (pc.Offered? || pc == Ensuring || pc == RecheckClosed)
      modifies this
      ensures Progressed() && (b ==> closed)
      ensures |old(trace)| < |trace| && Looked(me, pc, |trace| - 1, b)
      ensures At(me, NextPc(state.c.(closed := b), pc, true))
      ensures budget == old(budget) ==>
                b == old(closed) && Untouched() && state.c == old(state.c)
    {
      Yield(me, pc);
      b := closed;
      ghost var before := trace;
      Record(me, true);
      assert trace[..|trace| - 1] == before;
    }

    /** len(c.send) > 0 */
    method SendPending(ghost me: nat) returns (b: bool)
      requires At(me, RecheckDirect)
      modifies this
      ensures Progressed() && At(me, if b then Reclaiming else RecheckBroadcast)
      ensures budget == old(budget) ==> Untouched() && (b <==> send != [])
    {
      Yield(me, RecheckDirect);
      b := |send| > 0;
      Record(me, true);
    }

    /** len(c.broadcast) > 0 */
    method BroadcastPending(ghost me: nat) returns (b: bool)
      requires At(me, RecheckBroadcast)
      modifies this
      ensures Progressed() && At(me, if b then Reclaiming else Exiting(true))
      ensures budget == old(budget) ==> Untouched() && (b <==> broadcast != [])
    {
      Yield(me, RecheckBroadcast);
      b := |broadcast| > 0;
      Record(me, true);
    }

    /** hasPendingMessages: the two lengths are read one after the other. */
    method HasPendingMessages(ghost me: nat) returns (b: bool)
      requires At(me, RecheckDirect)
      modifies this
      ensures Progressed() && At(me, if b then Reclaiming else Exiting(true))
      ensures budget == old(budget) ==> Untouched() && (b <==> send != [] || broadcast != [])
    {
      b := SendPending(me);
      if b {
        return;
      }
      b := BroadcastPending(me);
    }

    /** The `closed` part of Close. */
    method Close(ghost me: nat)
      requires At(me, Failing)
      modifies this
      ensures Progressed() && At(me, Exiting(false)) && closed
    {
      Yield(me, Failing);
      closed := true;
      Record(me, true);
    }

    /** The idle end of writePump: drop the flag, look again, and perhaps take it back. */
    method ReleaseOrResume(ghost me: nat) returns (again: bool)
      requires At(me, Clearing)
      modifies this
      ensures Progressed() && At(me, if again then Selecting(Priority) else Exiting(true))
      ensures budget == old(budget) ==> Now() == old(Now())
      ensures budget == old(budget) && old(send) == [] && old(broadcast) == [] ==> !again
      ensures budget == old(budget) && old(closed) ==> !again
    {
      StoreNotRunning(me, Clearing);
      var isClosed := LoadClosed(me, RecheckClosed);
      if isClosed {
        return false;
      }
      var pending := HasPendingMessages(me);
      if !pending {
        return false;
      }
      again := CompareAndSwap(me, Reclaiming);
    }

    /**
      writePump.  It terminates whatever the other threads do in their finite budget, and
      when they do nothing and no write fails it leaves both queues empty and what they held
      on the socket: the direct messages and then the broadcasts, each in order.
      */
    method WritePump(ghost me: nat)
      requires At(me, Selecting(Priority))
      modifies this
      ensures At(me, Finished) && old(trace) <= trace && budget <= old(budget)
      ensures budget == old(budget) && !closed ==> Now() == Queues([], [], old(Total(Now())))
    {
      while true
        invariant At(me, Selecting(Priority)) && old(trace) <= trace && budget <= old(budget)
        invariant budget == old(budget) ==> Total(Now()) == old(Total(Now()))
        decreases budget, OutboundProgress.Fuel(state)
      {
        var wrote, err := DrainPendingWrites(me);
        if err.Some? {
          Close(me);
          StoreNotRunning(me, Exiting(false));
          return;
        }
        if !wrote {
          var again := ReleaseOrResume(me);
          if !again {
            StoreNotRunning(me, Exiting(true));
            return;
          }
        }
      }
    }

    /** Any thread starts a send operation. */
    method Arrival(p: Packet) returns (ghost me: nat)
      requires Valid()
      modifies this
      ensures At(me, Offered(p)) && old(trace) <= trace && budget == old(budget)
      ensures Untouched() && state.c == old(state.c)
    {
      me := |state.threads|;
      Snoc(Init(sendCap, broadcastCap), trace, Arrive(p));
      state := Apply(state, Arrive(p));
      trace := trace + [Arrive(p)];
    }

    /** select { case c.send <- m: ... default: ... } */
    method TryPushSend(ghost me: nat, m: Message) returns (ok: bool)
      requires At(me, Pushing(Packet(Direct, m)))
      modifies this
      ensures Progressed() && At(me, if ok then Ensuring else Finished)
      ensures ok ==> Packet(Direct, m) in state.c.accepted
      ensures budget == old(budget) ==>
                && ok == (|old(send)| < sendCap)
                && state.c == if ok then Push(old(state.c), Packet(Direct, m)) else old(state.c)
    {
      Yield(me, Pushing(Packet(Direct, m)));
      ok := |send| < sendCap;
      if ok {
        send := send + [m];
      }
      Record(me, true);
    }

    /** The same select on the broadcast queue. */
    method TryPushBroadcast(ghost me: nat, m: Message) returns (ok: bool)
      requires At(me, Pushing(Packet(Broadcast, m)))
      modifies this
      ensures Progressed() && At(me, if ok then Ensuring else Finished)
      ensures ok ==> Packet(Broadcast, m) in state.c.accepted
      ensures budget == old(budget) ==>
                && ok == (|old(broadcast)| < broadcastCap)
                && state.c == if ok then Push(old(state.c), Packet(Broadcast, m)) else old(state.c)
    {
      Yield(me, Pushing(Packet(Broadcast, m)));
      ok := |broadcast| < broadcastCap;
      if ok {
        broadcast := broadcast + [m];
      }
      Record(me, true);
    }

    method TryPush(ghost me: nat, p: Packet) returns (ok: bool)
      requires At(me, Pushing(p))
      modifies this
      ensures Progressed() && At(me, if ok then Ensuring else Finished)
      ensures ok ==> p in state.c.accepted
      ensures budget == old(budget) ==>
                && ok == (|old(state.c.Queue(p.channel))| < state.c.Cap(p.channel))
                && state.c == if ok then Push(old(state.c), p) else old(state.c)
    {
      if p.channel.Direct? {
        ok := TryPushSend(me, p.message);
      } else {
        ok := TryPushBroadcast(me, p.message);
      }
    }

    /** The first part of every send operation: the closed check and the push. */
    method Enqueue(p: Packet) returns (ghost me: nat, err: Option<Error>)
      requires Valid()
      modifies this
      ensures Valid() && old(trace) <= trace && budget <= old(budget)
      ensures At(me, if err.None? then Ensuring else Finished)
      ensures err.None? ==> p in state.c.accepted
      ensures err == Some(ConnectionClosed) ==> closed
      ensures err != Some(WriteFailed)
      ensures budget == old(budget) ==>
                && err == (if old(closed) then Some(ConnectionClosed)
                           else if |old(state.c.Queue(p.channel))| >= state.c.Cap(p.channel) then Some(BufferFull)
                           else None)
                && state.c == if err.None? then Push(old(state.c), p) else old(state.c)
    {
      me := Arrival(p);
      var isClosed := LoadClosed(me, Offered(p));
      if isClosed {
        return me, Some(ConnectionClosed);
      }
      var ok := TryPush(me, p);
      err := if ok then None else Some(BufferFull);
    }

    /**
      tryServeWriterInline: become the writer unless the connection is closed, which is an
      error, or another holds the flag, which is not.  ensureWriter is the same with the
      writer as a new goroutine and without the error.
      */
    method TryServeWriterInline(ghost me: nat) returns (err: Option<Error>, ghost k: nat)
      requires At(me, Ensuring)
      modifies this
      ensures At(me, Finished) && old(trace) <= trace && budget <= old(budget)
      ensures err == None || err == Some(ConnectionClosed)
      ensures |old(trace)| <= k && Looked(me, Ensuring, k, err.Some?)
      ensures budget == old(budget) ==> err == if old(closed) then Some(ConnectionClosed) else None
      ensures budget == old(budget) && (old(closed) || old(writerRunning)) ==> state.c == old(state.c)
      ensures budget == old(budget) && err.None? && !old(writerRunning) && !closed ==>
                Now() == Queues([], [], old(Total(Now())))
    {
      var isClosed := LoadClosed(me, Ensuring);
      k := |trace| - 1;
      if isClosed {
        return Some(ConnectionClosed), k;
      }
      ghost var looked := trace;
      var won := CompareAndSwap(me, Claiming);
      if won {
        WritePump(me);
      }
      assert trace[..k] == looked[..k];
      err := None;
    }

    /**
      Send, SendRaw and SendPrepared: without an error the message was accepted, and stays
      accepted whether this thread's writer, another one or nobody (once the connection is
      closed) takes care of it.  The thread has finished: it served the queues, found that
      another held the flag, or found the connection closed.  Undisturbed, an idle connection
      is served to the end, and one with a writer is left to that.
      */
    method Send(p: Packet) returns (err: Option<Error>, ghost me: nat)
      requires Valid()
      modifies this
      ensures At(me, Finished) && old(trace) <= trace
      ensures err.None? ==> p in state.c.accepted
      ensures err != Some(WriteFailed)
      ensures budget == old(budget) ==>
                err == (if old(closed) then Some(ConnectionClosed)
                        else if |old(state.c.Queue(p.channel))| >= state.c.Cap(p.channel) then Some(BufferFull)
                        else None)
      ensures budget == old(budget) && err.Some? ==> state.c == old(state.c)
      ensures budget == old(budget) && err.None? && old(writerRunning) ==> state.c == Push(old(state.c), p)
      ensures budget == old(budget) && err.None? && !old(writerRunning) && !closed ==>
                Now() == Queues([], [], Total(View(Push(old(state.c), p))))
    {
      me, err := Enqueue(p);
      if err.Some? {
        return;
      }
      ghost var accepted := trace;
      var _, _ := TryServeWriterInline(me);
      AcceptedStays(sendCap, broadcastCap, accepted, trace, p);
    }

    /**
      sendBroadcastMessage: an accepted message is answered with ErrConnectionClosed exactly
      when the second look, action k of the trace, finds the connection closed.  What becomes
      of the message is as for Send.
      */
    method SendBroadcast(m: Message) returns (err: Option<Error>, accepted: bool, ghost me: nat, ghost k: nat)
      requires Valid()
      modifies this
      ensures At(me, Finished) && old(trace) <= trace
      ensures err.None? ==> accepted
      ensures accepted ==> Packet(Broadcast, m) in state.c.accepted && err != Some(BufferFull)
      ensures accepted ==> |old(trace)| <= k && Looked(me, Ensuring, k, err.Some?)
      ensures err != Some(WriteFailed)
      ensures budget == old(budget) ==> accepted == err.None?
      ensures budget == old(budget) ==>
                err == (if old(closed) then Some(ConnectionClosed)
                        else if |old(broadcast)| >= broadcastCap then Some(BufferFull)
                        else None)
      ensures budget == old(budget) && err.Some? ==> state.c == old(state.c)
      ensures budget == old(budget) && err.None? && old(writerRunning) ==>
                state.c == Push(old(state.c), Packet(Broadcast, m))
      ensures budget == old(budget) && err.None? && !old(writerRunning) && !closed ==>
                Now() == Queues([], [], Total(View(Push(old(state.c), Packet(Broadcast, m)))))
    {
      var p := Packet(Broadcast, m);
      k := 0;
      me, err := Enqueue(p);
      accepted := err.None?;
      if err.Some? {
        return;
      }
      ghost var pushed := trace;
      err, k := TryServeWriterInline(me);
      AcceptedStays(sendCap, broadcastCap, pushed, trace, p);
    }
  }

  lemma AcceptedStays(directCap: nat, broadcastCap: nat, xs: seq<Event>, ys: seq<Event>, p: Packet)
    requires xs <= ys && p in Exec(Init(directCap, broadcastCap), xs).c.accepted
    ensures p in Exec(Init(directCap, broadcastCap), ys).c.accepted
  {
    var more := ys[|xs|..];
    assert ys == xs + more;
    ExecSplit(Init(directCap, broadcastCap), xs, more);
    AcceptedGrows(Exec(Init(directCap, broadcastCap), xs), more);
  }

  lemma {:induction false} AcceptedGrows(s: State, es: seq<Event>)
    ensures s.c.accepted <= Exec(s, es).c.accepted
    decreases |es|
  {
    if es != [] {
      AcceptedGrows(Apply(s, es[0]), es[1..]);
    }
  }
}
