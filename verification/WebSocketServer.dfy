/**
  The bookkeeping of the WebSocket server as the source writes it (transport/ws/ws.go):
  the compare-and-swap loop, the counter of connection IDs and the sharded map.  Each method
  is proved to be a sequence of actions of one request of Slots, with any finite number of
  actions of other requests before each of its own.  A request's number stands for the
  connection it serves.
  */
module WebSocketServer {
  import opened ConnectionIds
  import opened Slots
  import opened Threads

  /** What other requests do never moves request `me`. */
  lemma {:induction false} OthersKeepPc(s: State, es: seq<Event>, me: nat)
    requires me < |s.threads|
    requires forall e :: e in es ==> !(e.Run? && e.t == me)
    ensures me < |Exec(s, es).threads| && Exec(s, es).threads[me] == s.threads[me]
    ensures Exec(s, es).c.table.shardOf == s.c.table.shardOf
    ensures Exec(s, es).c.maxConnections == s.c.maxConnections
    decreases |es|
  {
    if es != [] {
      assert es[0] in es;
      OthersKeepPc(Apply(s, es[0]), es[1..], me);
    }
  }

  predicate ShardStores(shard: map<string, nat>, c: nat) { exists id :: id in shard && shard[id] == c }

  predicate Stores(shards: seq<map<string, nat>>, c: nat) {
    exists i :: 0 <= i < |shards| && ShardStores(shards[i], c)
  }

  lemma StoresNext(shards: seq<map<string, nat>>, i: nat)
    requires i < |shards|
    ensures forall c :: Stores(shards[..i + 1], c) <==> Stores(shards[..i], c) || ShardStores(shards[i], c)
  {
    forall c
      ensures Stores(shards[..i + 1], c) <==> Stores(shards[..i], c) || ShardStores(shards[i], c)
    {
      if Stores(shards[..i], c) {
        var k :| 0 <= k < i && ShardStores(shards[..i][k], c);
        assert ShardStores(shards[..i + 1][k], c);
      }
      if ShardStores(shards[i], c) {
        assert ShardStores(shards[..i + 1][i], c);
      }
      if Stores(shards[..i + 1], c) && !ShardStores(shards[i], c) {
        var k :| 0 <= k < i + 1 && ShardStores(shards[..i + 1][k], c);
        assert ShardStores(shards[..i][k], c);
      }
    }
  }

  predicate OneIdEach(shard: map<string, nat>) {
    forall x, y :: x in shard && y in shard && x != y ==> shard[x] != shard[y]
  }

  predicate Unlike(conns: seq<nat>) { forall i, j :: 0 <= i < j < |conns| ==> conns[i] != conns[j] }

  /** The connection is in the table, or was and never will be again. */
  predicate WasStored(pc: Pc) { pc.Open? || pc.Removing? || pc.Subtracting? || pc.Gone? }

  /** Nobody comes back into the table, and nobody changes number there. */
  predicate Follows(pc: Pc, pc': Pc) {
    WasStored(pc) ==> WasStored(pc') && (InTable(pc') ==> InTable(pc) && pc'.number == pc.number)
  }

  lemma {:induction false} RequestsGoOn(s: State, es: seq<Event>)
    ensures |s.threads| <= |Exec(s, es).threads| && s.c.issued <= Exec(s, es).c.issued
    ensures forall t :: 0 <= t < |s.threads| ==> Follows(s.threads[t], Exec(s, es).threads[t])
    decreases |es|
  {
    if es != [] {
      var s1 := Apply(s, es[0]);
      assert forall t :: 0 <= t < |s.threads| ==> Follows(s.threads[t], s1.threads[t]);
      RequestsGoOn(s1, es[1..]);
    }
  }

  /** In the table, and in one of the first i shards. */
  predicate Under(shardOf: string -> Shard, pc: Pc, i: nat) { InTable(pc) && shardOf(Format(pc.number)) < i }

  predicate Met(shardOf: string -> Shard, threads: seq<Pc>, i: nat, c: nat) {
    c < |threads| && WasStored(threads[c]) && (InTable(threads[c]) ==> Under(shardOf, threads[c], i))
  }

  ghost predicate SeenIn(shardOf: string -> Shard, threads: seq<Pc>, i: nat, conns: seq<nat>, start: seq<Pc>) {
    && Unlike(conns)
    && (forall c :: c in conns ==> Met(shardOf, threads, i, c))
    && (forall t :: 0 <= t < |start| && t < |threads| && InTable(start[t]) && Under(shardOf, threads[t], i) ==> t in conns)
  }

  /** In the table at the start and at the end, and so all the time. */
  predicate StayedIn(start: seq<Pc>, end: seq<Pc>, t: int) {
    0 <= t < |start| && t < |end| && InTable(start[t]) && InTable(end[t])
  }

  lemma SeenLater(shardOf: string -> Shard, threads: seq<Pc>, threads': seq<Pc>, i: nat, conns: seq<nat>, start: seq<Pc>)
    requires SeenIn(shardOf, threads, i, conns, start) && |start| <= |threads| <= |threads'|
    requires forall t :: 0 <= t < |threads| ==> Follows(threads[t], threads'[t])
    requires forall t :: 0 <= t < |start| ==> Follows(start[t], threads[t])
    ensures SeenIn(shardOf, threads', i, conns, start)
  {
    forall c | c in conns
      ensures Met(shardOf, threads', i, c)
    {
      assert Met(shardOf, threads, i, c) && Follows(threads[c], threads'[c]);
    }
    forall t | 0 <= t < |start| && InTable(start[t]) && Under(shardOf, threads'[t], i)
      ensures t in conns
    {
      assert Follows(start[t], threads[t]) && Follows(threads[t], threads'[t]);
      assert Under(shardOf, threads[t], i);
    }
  }

  /** What reading shard i adds. */
  lemma SeenMore(s: State, i: nat, conns: seq<nat>, part: seq<nat>, start: seq<Pc>)
    requires i < SHARDS && SeenIn(s.c.table.shardOf, s.threads, i, conns, start)
    requires Tabled(s.c.table, s.threads)
    requires forall c :: c in part <==> ShardStores(s.c.table.shards[i], c)
    requires OneIdEach(s.c.table.shards[i]) ==> Unlike(part)
    ensures SeenIn(s.c.table.shardOf, s.threads, i + 1, conns + part, start)
  {
    var shardOf, shard := s.c.table.shardOf, s.c.table.shards[i];
    forall x, y | x in shard && y in shard && x != y
      ensures shard[x] != shard[y]
    {
      assert GoodEntry(shardOf, i, x, shard[x], s.threads) && GoodEntry(shardOf, i, y, shard[y], s.threads);
    }
    forall c | c in part
      ensures c < |s.threads| && InTable(s.threads[c]) && shardOf(Format(s.threads[c].number)) == i
    {
      var id :| id in shard && shard[id] == c;
      assert GoodEntry(shardOf, i, id, c, s.threads);
    }
    forall c | c in conns
      ensures Met(shardOf, s.threads, i + 1, c) && c !in part
    {
      assert Met(shardOf, s.threads, i, c);
    }
    UnlikeBoth(conns, part);
    forall t | 0 <= t < |start| && t < |s.threads| && InTable(start[t]) && Under(shardOf, s.threads[t], i + 1)
      ensures t in conns + part
    {
      if !Under(shardOf, s.threads[t], i) {
        assert Listed(s.c.table, t, s.threads[t]);
        assert ShardStores(shard, t);
      }
    }
  }

  lemma UnlikeBoth(xs: seq<nat>, ys: seq<nat>)
    requires Unlike(xs) && Unlike(ys) && forall x :: x in xs ==> x !in ys
    ensures Unlike(xs + ys)
  {
    var all := xs + ys;
    forall i, j | 0 <= i < j < |all|
      ensures all[i] != all[j]
    {
      assert i < |xs| <= j ==> xs[i] in xs && ys[j - |xs|] in ys;
    }
  }

  class Server {
    const maxConnections: int
    const shardOf: string -> Shard
    var activeCount: int
    var nextConnID: nat          // wraps at 2^64
    var shards: Shards
    var requests: nat            // requests so far
    ghost var state: State
    ghost var trace: seq<Event>
    ghost var budget: nat        // actions the other requests will still take

    ghost predicate Valid()
      reads this
    {
      && state == Exec(Init(shardOf, maxConnections), trace)
      && state.c.maxConnections == maxConnections && state.c.table.shardOf == shardOf
      && state.c.activeCount == activeCount && state.c.table.shards == shards
      && nextConnID == state.c.issued % WORD && requests == |state.threads|
    }

    ghost predicate At(me: nat, pc: Pc)
      reads this
    {
      Valid() && me < |state.threads| && state.threads[me] == pc
    }

    constructor (maxConnections: int, shardOf: string -> Shard, ghost budget: nat)
      ensures Valid() && this.budget == budget && activeCount == 0
      ensures this.maxConnections == maxConnections && this.shardOf == shardOf
    {
      this.maxConnections, this.shardOf, this.budget := maxConnections, shardOf, budget;
      activeCount, nextConnID, requests := 0, 0, 0;
      shards := seq(SHARDS, _ => map[]);
      state, trace := Init(shardOf, maxConnections), [];
    }

    /** Time passes: other requests take some of their actions. */
    method Interfere(ghost me: nat) returns (ghost es: seq<Event>)
      requires Valid()
      modifies this
      ensures Valid() && trace == old(trace) + es && budget + |es| == old(budget)
      ensures forall e :: e in es ==> !(e.Run? && e.t == me)
    {
      es := [];
    }

    /** Others move; this request is still where it was. */
    method Yield(ghost me: nat, ghost pc: Pc)
      requires At(me, pc)
      modifies this
      ensures At(me, pc) && old(trace) <= trace
      ensures budget < old(budget) || (budget == old(budget) && state == old(state))
    {
      var es := Interfere(me);
      ExecSplit(Init(shardOf, maxConnections), old(trace), es);
      OthersKeepPc(old(state), es, me);
    }

    /** Bookkeeping of this request's own action. */
    ghost method Record(me: nat, ok: bool)
      requires state == Exec(Init(shardOf, maxConnections), trace) && me < |state.threads|
      modifies this`state, this`trace
      ensures state == Exec(Init(shardOf, maxConnections), trace) && state == Apply(old(state), Run(me, ok))
      ensures old(trace) <= trace
    {
      ExecSplit(Init(shardOf, maxConnections), trace, [Run(me, ok)]);
      state, trace := Apply(state, Run(me, ok)), trace + [Run(me, ok)];
    }

    /** A request comes in. */
    method Arrive() returns (me: nat)
      requires Valid()
      modifies this`state, this`trace, this`requests
      ensures At(me, if maxConnections <= 0 then Adding else Loading) && old(trace) <= trace
    {
      ExecSplit(Init(shardOf, maxConnections), trace, [Request]);
      state, trace := Apply(state, Request), trace + [Request];
      me, requests := requests, requests + 1;
    }

    /** activeCount.Load() */
    method LoadCount(me: nat) returns (current: int)
      requires At(me, Loading)
      modifies this
      ensures old(trace) <= trace && budget <= old(budget)
      ensures current == activeCount
      ensures At(me, if current >= maxConnections then Gone else Swapping(current))
      ensures budget == old(budget) ==> current == old(activeCount) && shards == old(shards)
    {
      Yield(me, Loading);
      current := activeCount;
      Record(me, true);
    }

    /** activeCount.CompareAndSwap(current, current + 1) */
    method SwapCount(me: nat, current: int) returns (swapped: bool)
      requires At(me, Swapping(current))
      modifies this
      ensures old(trace) <= trace && budget <= old(budget)
      ensures At(me, if swapped then Upgrading else Loading)
      ensures swapped ==> activeCount == current + 1
      ensures budget == old(budget) ==>
                && swapped == (old(activeCount) == current) && (!swapped ==> activeCount == old(activeCount))
                && shards == old(shards)
    {
      Yield(me, Swapping(current));
      swapped := activeCount == current;
      if swapped {
        activeCount := current + 1;
      }
      Record(me, true);
    }

    /**
      tryAcquireConnectionSlot.  It ends although others may win the swap any finite number of
      times; undisturbed it succeeds exactly below the limit, and takes one slot.
      */
    method TryAcquireConnectionSlot(me: nat) returns (ok: bool)
      requires At(me, if maxConnections <= 0 then Adding else Loading)
      modifies this
      ensures old(trace) <= trace && budget <= old(budget)
      ensures At(me, if ok then Upgrading else Gone)
      ensures maxConnections <= 0 ==> ok
      ensures budget == old(budget) ==>
                && (ok <==> maxConnections <= 0 || old(activeCount) < maxConnections)
                && activeCount == old(activeCount) + (if ok then 1 else 0) && shards == old(shards)
    {
      if maxConnections <= 0 {
        Yield(me, Adding);
        activeCount := activeCount + 1;
        Record(me, true);
        return true;
      }
      while true
        invariant At(me, Loading) && old(trace) <= trace && budget <= old(budget)
        invariant budget == old(budget) ==> activeCount == old(activeCount) && shards == old(shards)
        decreases budget
      {
        var current := LoadCount(me);
        if current >= maxConnections {
          return false;
        }
        ok := SwapCount(me, current);
        if ok {
          return;
        }
      }
    }

    /** releaseConnectionSlot, after a failed upgrade. */
    method ReleaseConnectionSlot(me: nat)
      requires At(me, Releasing)
      modifies this
      ensures old(trace) <= trace && budget <= old(budget) && At(me, Gone)
      ensures budget == old(budget) ==> activeCount == old(activeCount) - 1 && shards == old(shards)
    {
      Yield(me, Releasing);
      activeCount := activeCount - 1;
      Record(me, true);
    }

    /** nextConnectionID */
    method NextConnectionID(me: nat) returns (n: nat)
      requires At(me, Numbering)
      modifies this
      ensures old(trace) <= trace && budget <= old(budget) && At(me, Storing(n))
      ensures n == nextConnID < WORD
      ensures budget == old(budget) ==>
                n == (old(nextConnID) + 1) % WORD && activeCount == old(activeCount) && shards == old(shards)
    {
      Yield(me, Numbering);
      n := (nextConnID + 1) % WORD;
      nextConnID := n;
      NextNumber(state.c.issued);
      Record(me, true);
    }

    /** storeConnection */
    method StoreConnection(me: nat, n: nat)
      requires At(me, Storing(n))
      modifies this
      ensures old(trace) <= trace && budget <= old(budget) && At(me, Open(n))
      ensures Format(n) in shards[shardOf(Format(n))] && shards[shardOf(Format(n))][Format(n)] == me
      ensures budget == old(budget) ==>
                && shards == Table(shardOf, old(shards)).Store(Format(n), me).shards
                && activeCount == old(activeCount)
    {
      Yield(me, Storing(n));
      var id := Format(n);
      var i := shardOf(id);
      var shard: map<string, nat> := shards[i][id := me];
      shards := shards[i := shard];
      Record(me, true);
    }

    /**
      The bookkeeping of handleWebSocket, when the upgrade succeeds or fails.  A connection
      that comes out of it is in the table, under its ID, in the shard of its ID.
      */
    method HandleWebSocket(upgrades: bool) returns (me: nat, accepted: bool, n: nat)
      requires Valid()
      modifies this
      ensures old(trace) <= trace && At(me, if accepted then Open(n) else Gone)
      ensures accepted ==> upgrades
      ensures accepted ==> Format(n) in shards[shardOf(Format(n))] && shards[shardOf(Format(n))][Format(n)] == me
      ensures budget == old(budget) ==>
                && (accepted <==> upgrades && (maxConnections <= 0 || old(activeCount) < maxConnections))
                && activeCount == old(activeCount) + (if accepted then 1 else 0)
                && (!accepted ==> shards == old(shards))
    {
      n := 0;
      me := Arrive();
      var ok := TryAcquireConnectionSlot(me);
      if !ok {
        return me, false, 0;
      }
      Upgrade(me, upgrades);
      if !upgrades {
        ReleaseConnectionSlot(me);
        return me, false, 0;
      }
      n := Admit(me);
      accepted := true;
    }

    /** The new connection gets an ID and its place in the table. */
    method Admit(me: nat) returns (n: nat)
      requires At(me, Numbering)
      modifies this
      ensures old(trace) <= trace && budget <= old(budget) && At(me, Open(n))
      ensures Format(n) in shards[shardOf(Format(n))] && shards[shardOf(Format(n))][Format(n)] == me
      ensures budget == old(budget) ==> activeCount == old(activeCount)
    {
      n := NextConnectionID(me);
      StoreConnection(me, n);
    }

    /** The handshake itself. */
    method Upgrade(me: nat, upgrades: bool)
      requires At(me, Upgrading)
      modifies this
      ensures old(trace) <= trace && budget <= old(budget)
      ensures At(me, if upgrades then Numbering else Releasing)
      ensures budget == old(budget) ==> activeCount == old(activeCount) && shards == old(shards)
    {
      Yield(me, Upgrading);
      Record(me, upgrades);
    }

    /** The connection has ended: Close calls removeConnection. */
    method End(me: nat, n: nat)
      requires At(me, Open(n))
      modifies this
      ensures old(trace) <= trace && budget <= old(budget) && At(me, Removing(n))
      ensures budget == old(budget) ==> activeCount == old(activeCount) && shards == old(shards)
    {
      Yield(me, Open(n));
      Record(me, true);
    }

    /** The map part of removeConnection. */
    method Delete(me: nat, n: nat) returns (found: bool)
      requires At(me, Removing(n))
      modifies this
      ensures old(trace) <= trace && budget <= old(budget) && At(me, if found then Subtracting else Gone)
      ensures Format(n) !in shards[shardOf(Format(n))]
      ensures budget == old(budget) ==>
                var before := Table(shardOf, old(shards));
                && found == before.Has(Format(n)) && activeCount == old(activeCount)
                && shards == (if found then before.Remove(Format(n)).shards else old(shards))
    {
      Yield(me, Removing(n));
      var id := Format(n);
      var i := shardOf(id);
      found := id in shards[i];
      if found {
        var shard := shards[i] - {id};
        shards := shards[i := shard];
      }
      Record(me, true);
    }

    /** removeConnection: one entry and one slot, if the entry is there. */
    method RemoveConnection(me: nat, n: nat)
      requires At(me, Removing(n))
      modifies this
      ensures old(trace) <= trace && budget <= old(budget) && At(me, Gone)
      ensures budget == old(budget) ==>
                var before := Table(shardOf, old(shards));
                && shards == (if before.Has(Format(n)) then before.Remove(Format(n)).shards else old(shards))
                && activeCount == old(activeCount) - (if before.Has(Format(n)) then 1 else 0)
    {
      var found := Delete(me, n);
      if found {
        Subtract(me);
      }
    }

    method Subtract(me: nat)
      requires At(me, Subtracting)
      modifies this
      ensures old(trace) <= trace && budget <= old(budget) && At(me, Gone)
      ensures budget == old(budget) ==> activeCount == old(activeCount) - 1 && shards == old(shards)
    {
      Yield(me, Subtracting);
      activeCount := activeCount - 1;
      Record(me, true);
    }

    /** The inner loop of snapshotConnections, in any order of the keys. */
    method ListShard(shard: map<string, nat>) returns (conns: seq<nat>)
      ensures |conns| == |shard|
      ensures forall c :: c in conns <==> ShardStores(shard, c)
      ensures OneIdEach(shard) ==> Unlike(conns)
    {
      conns := [];
      var rest := shard.Keys;
      while rest != {}
        invariant rest <= shard.Keys && |conns| + |rest| == |shard|
        invariant forall c :: c in conns <==> exists id :: id in shard && id !in rest && shard[id] == c
        invariant OneIdEach(shard) ==> Unlike(conns)
        decreases |rest|
      {
        var id :| id in rest;
        ghost var before, left := conns, rest;
        if OneIdEach(shard) {
          assert shard[id] !in conns;
        }
        conns := conns + [shard[id]];
        rest := rest - {id};
        forall c
          ensures c in conns <==> exists x :: x in shard && x !in rest && shard[x] == c
        {
          if c in before {
            var x :| x in shard && x !in left && shard[x] == c;
            assert x !in rest;
          }
        }
      }
    }

    /** Time passes for a reader of the table: requests come in and take any of their actions. */
    method Pass() returns (ghost es: seq<Event>)
      requires Valid()
      modifies this
      ensures Valid() && trace == old(trace) + es && budget + |es| == old(budget)
    {
      es := [];
    }

    /** Others act while this thread is between two shards. */
    method Drift()
      requires Valid()
      modifies this
      ensures Valid() && old(trace) <= trace && budget <= old(budget)
      ensures budget == old(budget) ==> shards == old(shards) && state == old(state)
      ensures |state.threads| >= |old(state.threads)| && state.c.issued >= old(state.c.issued)
      ensures forall t :: 0 <= t < |old(state.threads)| ==> Follows(old(state.threads)[t], state.threads[t])
    {
      var es := Pass();
      ExecSplit(Init(shardOf, maxConnections), old(trace), es);
      RequestsGoOn(old(state), es);
    }

    /** One shard of snapshotConnections, read under its lock. */
    method ReadShard(i: nat, conns: seq<nat>, ghost start: seq<Pc>) returns (conns': seq<nat>)
      requires Valid() && i < SHARDS
      requires Seen(i, conns, start)
      ensures Seen(i + 1, conns', start)
      ensures |conns'| == |conns| + |shards[i]|
      ensures forall c :: c in conns' <==> c in conns || ShardStores(shards[i], c)
    {
      var part := ListShard(shards[i]);
      conns' := conns + part;
      if state.c.issued < WORD {
        SlotsAreAccountedFor(shardOf, maxConnections, trace);
        SeenMore(state, i, conns, part, start);
      }
    }

    /**
      The first i shards were read, at different times: no connection was met twice; whoever
      was met is in the table under those shards, or gone; and whoever was in the table at the
      start and still is, under those shards, was met.
      */
    ghost predicate Seen(i: nat, conns: seq<nat>, start: seq<Pc>)
      reads this
    {
      state.c.issued < WORD ==> SeenIn(shardOf, state.threads, i, conns, start)
    }

    /**
      snapshotConnections, with other requests at work between the shards: no connection
      twice, nobody who never was in the table, and everybody who is in it from beginning to
      end.  Undisturbed it is exactly the table.
      */
    method SnapshotConnections() returns (conns: seq<nat>)
      requires Valid()
      modifies this
      ensures Valid() && old(trace) <= trace
      ensures state.c.issued < WORD ==>
                && Unlike(conns)
                && (forall c :: c in conns ==> c < |state.threads| && WasStored(state.threads[c]))
                && (forall t :: StayedIn(old(state.threads), state.threads, t) ==> t in conns)
      ensures budget == old(budget) ==>
                |conns| == Stored(shards) && forall c :: c in conns <==> Stores(shards, c)
    {
      conns := [];
      ghost var start := state.threads;
      for i := 0 to SHARDS
        invariant Valid() && old(trace) <= trace && budget <= old(budget)
        invariant |start| <= |state.threads| && forall t :: 0 <= t < |start| ==> Follows(start[t], state.threads[t])
        invariant Seen(i, conns, start)
        invariant budget == old(budget) ==>
                    && shards == old(shards) && |conns| == Stored(shards[..i])
                    && forall c :: c in conns <==> Stores(shards[..i], c)
      {
        ghost var before := state.threads;
        ghost var early := state.c.issued;
        Drift();
        if state.c.issued < WORD {
          SeenLater(shardOf, before, state.threads, i, conns, start);
        }
        assert shards[..i + 1][..i] == shards[..i];
        StoresNext(shards, i);
        conns := ReadShard(i, conns, start);
      }
      assert shards[..SHARDS] == shards;
    }

    /**
      At every moment, while fewer than 2^64 IDs were issued: the counter is the stored
      connections and the slots held on the way in or out, and it keeps the limit.
      */
    lemma CountIsExact()
      requires Valid() && state.c.issued < WORD
      ensures activeCount == Stored(shards) + Sum(Handshake(), state.threads) + Sum(Deletion(), state.threads)
      ensures maxConnections > 0 ==> Stored(shards) <= activeCount <= maxConnections
    {
      SlotsAreAccountedFor(shardOf, maxConnections, trace);
    }
  }

  lemma NextNumber(issued: nat)
    ensures (issued % WORD + 1) % WORD == (issued + 1) % WORD
  {
  }

  /** The server of the source: connections are spread by the FNV-1a hash of their IDs. */
  method NewServer(maxConnections: int, ghost budget: nat) returns (s: Server)
    ensures fresh(s) && s.Valid() && s.budget == budget && s.maxConnections == maxConnections
    ensures s.shardOf == ShardIndex
  {
    s := new Server(maxConnections, ShardIndex, budget);
  }
}
