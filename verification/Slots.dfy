/**
  Admission slots and the sharded connection table of the WebSocket server
  (transport/ws/ws.go) under every interleaving of handshakes, failed upgrades and closes.
  A thread follows one request from tryAcquireConnectionSlot to removeConnection; every
  atomic operation and every locked table access is one step.
  */
module Slots {
  import opened ConnectionIds
  import opened Threads

  datatype Pc =
    | Loading                    // activeCount.Load()
    | Swapping(current: int)     // CompareAndSwap(current, current + 1)
    | Adding                     // activeCount.Add(1): no limit configured
    | Upgrading
    | Releasing                  // upgrade failed: releaseConnectionSlot
    | Numbering                  // nextConnectionID
    | Storing(number: nat)       // storeConnection
    | Open(number: nat)
    | Removing(number: nat)      // removeConnection, table part
    | Subtracting                // removeConnection, activeCount.Add(-1)
    | Gone

  type Shards = s: seq<map<string, nat>> | |s| == SHARDS witness seq(SHARDS, _ => map[])

  /** The connection table: one map per shard, and the hash that picks the shard of an ID. */
  datatype Table = Table(shardOf: string -> Shard, shards: Shards) {
    predicate Has(id: string) { id in shards[shardOf(id)] }

    /** storeConnection */
    function Store(id: string, t: nat): Table {
      var shard: map<string, nat> := shards[shardOf(id)][id := t];
      this.(shards := shards[shardOf(id) := shard])
    }

    /** The table part of removeConnection. */
    function Remove(id: string): Table {
      this.(shards := shards[shardOf(id) := shards[shardOf(id)] - {id}])
    }
  }

  datatype Core = Core(
    maxConnections: int,
    activeCount: int,
    issued: nat,       // successful nextConnectionID calls so far
    table: Table)      // connection ID to the thread serving it

  datatype State = State(c: Core, threads: seq<Pc>)

  function Init(shardOf: string -> Shard, maxConnections: int): State {
    State(Core(maxConnections, 0, 0, Table(shardOf, seq(SHARDS, _ => map[]))), [])
  }

  /** `ok`: whether the upgrade succeeds. */
  function NextPc(c: Core, pc: Pc, ok: bool): Pc {
    match pc
    case Loading => if c.activeCount >= c.maxConnections then Gone else Swapping(c.activeCount)
    case Swapping(current) => if c.activeCount == current then Upgrading else Loading
    case Adding => Upgrading
    case Upgrading => if ok then Numbering else Releasing
    case Releasing => Gone
    case Numbering => Storing((c.issued + 1) % WORD)
    case Storing(n) => Open(n)
    case Open(n) => Removing(n)
    case Removing(n) => if c.table.Has(Format(n)) then Subtracting else Gone
    case Subtracting => Gone
    case Gone => Gone
  }

  function NextCore(c: Core, t: nat, pc: Pc): Core {
    match pc
    case Swapping(current) => if c.activeCount == current then c.(activeCount := current + 1) else c
    case Adding => c.(activeCount := c.activeCount + 1)
    case Releasing | Subtracting => c.(activeCount := c.activeCount - 1)
    case Numbering => c.(issued := c.issued + 1)
    case Storing(n) => c.(table := c.table.Store(Format(n), t))
    case Removing(n) => if c.table.Has(Format(n)) then c.(table := c.table.Remove(Format(n))) else c
    case Loading | Upgrading | Open(_) | Gone => c
  }

  datatype Event = Request | Run(t: nat, ok: bool)

  function Apply(s: State, e: Event): State {
    match e
    case Request => State(s.c, s.threads + [if s.c.maxConnections <= 0 then Adding else Loading])
    case Run(t, ok) =>
      if t < |s.threads| then
        State(NextCore(s.c, t, s.threads[t]), s.threads[t := NextPc(s.c, s.threads[t], ok)])
      else s
  }

  function Exec(s: State, es: seq<Event>): State
    decreases |es|
  {
    if es == [] then s else Exec(Apply(s, es[0]), es[1..])
  }

  lemma {:induction false} ExecSplit(s: State, xs: seq<Event>, ys: seq<Event>)
    ensures Exec(s, xs + ys) == Exec(Exec(s, xs), ys)
    decreases |xs|
  {
    if xs == [] {
      assert xs + ys == ys;
    } else {
      assert (xs + ys)[1..] == xs[1..] + ys;
      ExecSplit(Apply(s, xs[0]), xs[1..], ys);
    }
  }

  // ------------------------------------------------------------------------------

  /** Handshakes that hold a slot without being in the table yet. */
  predicate HoldsSlot(pc: Pc) {
    pc.Upgrading? || pc.Releasing? || pc.Numbering? || pc.Storing?
  }

  function Handshake(): Pc -> nat { (pc: Pc) => if HoldsSlot(pc) then 1 else 0 }

  function Deletion(): Pc -> nat { (pc: Pc) => if pc.Subtracting? then 1 else 0 }

  function Stored(shards: seq<map<string, nat>>): nat {
    if shards == [] then 0 else Stored(shards[..|shards| - 1]) + |shards[|shards| - 1]|
  }

  lemma {:induction false} StoredUpdate(shards: seq<map<string, nat>>, i: nat, m: map<string, nat>)
    requires i < |shards|
    ensures Stored(shards[i := m]) + |shards[i]| == Stored(shards) + |m|
    decreases |shards|
  {
    var n := |shards| - 1;
    if i < n {
      assert shards[i := m][..n] == shards[..n][i := m];
      StoredUpdate(shards[..n], i, m);
    } else {
      assert shards[i := m][..n] == shards[..n];
    }
  }

  predicate HasNumber(pc: Pc) { pc.Storing? || pc.Open? || pc.Removing? }

  predicate InTable(pc: Pc) { pc.Open? || pc.Removing? }

  /** Numbers are distinct while the 64-bit counter has not wrapped. */
  ghost predicate Numbered(issued: nat, threads: seq<Pc>) {
    && (forall t :: 0 <= t < |threads| && HasNumber(threads[t]) ==> threads[t].number <= issued)
    && (forall t, u :: 0 <= t < u < |threads| && HasNumber(threads[t]) && HasNumber(threads[u]) ==>
          threads[t].number != threads[u].number)
  }

  /** An entry for thread t under `id` is right: the right shard, and t serves that connection. */
  predicate GoodEntry(shardOf: string -> Shard, i: nat, id: string, t: nat, threads: seq<Pc>) {
    i == shardOf(id) && t < |threads| && InTable(threads[t]) && Format(threads[t].number) == id
  }

  predicate Listed(table: Table, t: nat, pc: Pc) {
    InTable(pc) ==>
      var id := Format(pc.number);
      table.Has(id) && table.shards[table.shardOf(id)][id] == t
  }

  /** The table holds exactly the open connections, each only in the shard of its ID. */
  ghost predicate Tabled(table: Table, threads: seq<Pc>) {
    && (forall i, id :: 0 <= i < SHARDS && id in table.shards[i] ==>
          GoodEntry(table.shardOf, i, id, table.shards[i][id], threads))
    && (forall t :: 0 <= t < |threads| ==> Listed(table, t, threads[t]))
  }

  predicate Balanced(s: State) {
    s.c.activeCount == Stored(s.c.table.shards) + Sum(Handshake(), s.threads) + Sum(Deletion(), s.threads)
  }

  predicate MayClaim(pc: Pc, maxConnections: int) {
    && (pc.Adding? ==> maxConnections <= 0)
    && (pc.Swapping? ==> pc.current < maxConnections)
  }

  predicate Limited(s: State) {
    && (s.c.maxConnections > 0 ==> s.c.activeCount <= s.c.maxConnections)
    && (forall t :: 0 <= t < |s.threads| ==> MayClaim(s.threads[t], s.c.maxConnections))
  }

  ghost predicate Inv(s: State) {
    s.c.issued < WORD ==>
      Numbered(s.c.issued, s.threads) && Tabled(s.c.table, s.threads) && Balanced(s) && Limited(s)
  }

  lemma NumberedMove(issued: nat, threads: seq<Pc>, t: nat, pc': Pc)
    requires Numbered(issued, threads) && t < |threads|
    requires HasNumber(pc') ==> HasNumber(threads[t]) && pc'.number == threads[t].number
    ensures Numbered(issued, threads[t := pc'])
  {
  }

  lemma NumberedStep(s: State, e: Event)
    requires Numbered(s.c.issued, s.threads) && Apply(s, e).c.issued < WORD
    ensures Numbered(Apply(s, e).c.issued, Apply(s, e).threads)
  {
    if e.Run? && e.t < |s.threads| {
      var pc := s.threads[e.t];
      if !pc.Numbering? {
        NumberedMove(s.c.issued, s.threads, e.t, NextPc(s.c, pc, e.ok));
      }
    }
  }

  lemma OtherIds(issued: nat, threads: seq<Pc>, t: nat, u: nat)
    requires Numbered(issued, threads) && t < |threads| && u < |threads| && t != u
    requires HasNumber(threads[t]) && HasNumber(threads[u])
    ensures Format(threads[t].number) != Format(threads[u].number)
  {
    if Format(threads[t].number) == Format(threads[u].number) {
      FormatInjective(threads[t].number, threads[u].number);
    }
  }

  lemma StoreKeepsTable(issued: nat, table: Table, threads: seq<Pc>, t: nat)
    requires Numbered(issued, threads) && Tabled(table, threads) && t < |threads| && threads[t].Storing?
    ensures var n := threads[t].number;
      !table.Has(Format(n)) && Tabled(table.Store(Format(n), t), threads[t := Open(n)])
  {
    var id := Format(threads[t].number);
    if table.Has(id) {
      var other := table.shards[table.shardOf(id)][id];
      assert GoodEntry(table.shardOf, table.shardOf(id), id, other, threads);
      OtherIds(issued, threads, t, other);
    }
    var table', threads' := table.Store(id, t), threads[t := Open(threads[t].number)];
    forall u | 0 <= u < |threads'|
      ensures Listed(table', u, threads'[u])
    {
      assert Listed(table, u, threads[u]);
      if u != t && InTable(threads[u]) {
        OtherIds(issued, threads, t, u);
      }
    }
    forall j, x | 0 <= j < SHARDS && x in table'.shards[j]
      ensures GoodEntry(table.shardOf, j, x, table'.shards[j][x], threads')
    {
      if x in table.shards[j] {
        assert GoodEntry(table.shardOf, j, x, table.shards[j][x], threads);
      }
    }
  }

  lemma RemoveKeepsTable(issued: nat, table: Table, threads: seq<Pc>, t: nat)
    requires Numbered(issued, threads) && Tabled(table, threads) && t < |threads| && threads[t].Removing?
    ensures var n := threads[t].number;
      table.Has(Format(n)) && Tabled(table.Remove(Format(n)), threads[t := Subtracting])
  {
    var id := Format(threads[t].number);
    assert Listed(table, t, threads[t]);
    var table', threads' := table.Remove(id), threads[t := Subtracting];
    forall u | 0 <= u < |threads'|
      ensures Listed(table', u, threads'[u])
    {
      assert Listed(table, u, threads[u]);
      if u != t && InTable(threads[u]) {
        OtherIds(issued, threads, t, u);
      }
    }
    forall j, x | 0 <= j < SHARDS && x in table'.shards[j]
      ensures GoodEntry(table.shardOf, j, x, table'.shards[j][x], threads')
    {
      assert GoodEntry(table.shardOf, j, x, table.shards[j][x], threads);
    }
  }

  lemma TableMove(table: Table, threads: seq<Pc>, t: nat, pc': Pc)
    requires Tabled(table, threads) && t < |threads| && InTable(pc') == InTable(threads[t])
    requires InTable(pc') ==> pc'.number == threads[t].number
    ensures Tabled(table, threads[t := pc'])
  {
    var threads' := threads[t := pc'];
    forall u | 0 <= u < |threads'|
      ensures Listed(table, u, threads'[u])
    {
      assert Listed(table, u, threads[u]);
    }
    forall j, x | 0 <= j < SHARDS && x in table.shards[j]
      ensures GoodEntry(table.shardOf, j, x, table.shards[j][x], threads')
    {
      assert GoodEntry(table.shardOf, j, x, table.shards[j][x], threads);
    }
  }

  lemma TableAppend(table: Table, threads: seq<Pc>, pc: Pc)
    requires Tabled(table, threads) && !InTable(pc)
    ensures Tabled(table, threads + [pc])
  {
    var threads' := threads + [pc];
    forall u | 0 <= u < |threads'|
      ensures Listed(table, u, threads'[u])
    {
      assert u < |threads| ==> Listed(table, u, threads[u]);
    }
    forall j, x | 0 <= j < SHARDS && x in table.shards[j]
      ensures GoodEntry(table.shardOf, j, x, table.shards[j][x], threads')
    {
      assert GoodEntry(table.shardOf, j, x, table.shards[j][x], threads);
    }
  }

  lemma TabledRun(c: Core, issued: nat, threads: seq<Pc>, t: nat, ok: bool)
    requires Numbered(issued, threads) && Tabled(c.table, threads) && t < |threads|
    ensures Tabled(NextCore(c, t, threads[t]).table, threads[t := NextPc(c, threads[t], ok)])
  {
    match threads[t]
    case Storing(n) => StoreKeepsTable(issued, c.table, threads, t);
    case Removing(n) => RemoveKeepsTable(issued, c.table, threads, t);
    case _ =>
      assert NextCore(c, t, threads[t]).table == c.table;
      TableMove(c.table, threads, t, NextPc(c, threads[t], ok));
  }

  lemma TabledStep(s: State, e: Event)
    requires Numbered(s.c.issued, s.threads) && Tabled(s.c.table, s.threads)
    ensures Tabled(Apply(s, e).c.table, Apply(s, e).threads)
  {
    match e
    case Request => TableAppend(s.c.table, s.threads, if s.c.maxConnections <= 0 then Adding else Loading);
    case Run(t, ok) =>
      if t < |s.threads| {
        TabledRun(s.c, s.c.issued, s.threads, t, ok);
      }
  }

  /** A connection about to be stored is not there yet; one about to be removed is. */
  lemma TableFacts(issued: nat, table: Table, threads: seq<Pc>, t: nat)
    requires Numbered(issued, threads) && Tabled(table, threads) && t < |threads|
    ensures threads[t].Storing? ==> !table.Has(Format(threads[t].number))
    ensures threads[t].Removing? ==> table.Has(Format(threads[t].number))
  {
    if threads[t].Storing? {
      StoreKeepsTable(issued, table, threads, t);
    } else if threads[t].Removing? {
      RemoveKeepsTable(issued, table, threads, t);
    }
  }

  /** What one action does to the count, the table size and the thread's own share. */
  lemma BalancedOne(c: Core, t: nat, pc: Pc, ok: bool)
    requires pc.Storing? ==> !c.table.Has(Format(pc.number))
    requires pc.Removing? ==> c.table.Has(Format(pc.number))
    ensures var c', pc' := NextCore(c, t, pc), NextPc(c, pc, ok);
      c'.activeCount + Stored(c.table.shards) + Handshake()(pc) + Deletion()(pc)
      == c.activeCount + Stored(c'.table.shards) + Handshake()(pc') + Deletion()(pc')
  {
    match pc
    case Storing(n) =>
      var i := c.table.shardOf(Format(n));
      var shard: map<string, nat> := c.table.shards[i][Format(n) := t];
      StoredUpdate(c.table.shards, i, shard);
    case Removing(n) =>
      var i := c.table.shardOf(Format(n));
      var shard := c.table.shards[i] - {Format(n)};
      StoredUpdate(c.table.shards, i, shard);
      assert shard.Keys == c.table.shards[i].Keys - {Format(n)};
    case _ =>
  }

  lemma BalancedRun(c: Core, threads: seq<Pc>, t: nat, ok: bool)
    requires Numbered(c.issued, threads) && Tabled(c.table, threads) && Balanced(State(c, threads))
    requires t < |threads|
    ensures Balanced(State(NextCore(c, t, threads[t]), threads[t := NextPc(c, threads[t], ok)]))
  {
    TableFacts(c.issued, c.table, threads, t);
    SumUpdate(Handshake(), threads, t, NextPc(c, threads[t], ok));
    SumUpdate(Deletion(), threads, t, NextPc(c, threads[t], ok));
    BalancedOne(c, t, threads[t], ok);
  }

  lemma BalancedStep(s: State, e: Event)
    requires Numbered(s.c.issued, s.threads) && Tabled(s.c.table, s.threads) && Balanced(s)
    ensures Balanced(Apply(s, e))
  {
    match e
    case Request =>
      var pc := if s.c.maxConnections <= 0 then Adding else Loading;
      SumAppend(Handshake(), s.threads, pc);
      SumAppend(Deletion(), s.threads, pc);
    case Run(t, ok) =>
      if t < |s.threads| {
        BalancedRun(s.c, s.threads, t, ok);
      }
  }

  lemma LimitedStep(s: State, e: Event)
    requires Limited(s)
    ensures Limited(Apply(s, e))
  {
  }

  lemma InvStep(s: State, e: Event)
    requires Inv(s)
    ensures Inv(Apply(s, e))
  {
    if Apply(s, e).c.issued < WORD {
      NumberedStep(s, e);
      TabledStep(s, e);
      BalancedStep(s, e);
      LimitedStep(s, e);
    }
  }

  lemma {:induction false} InvRun(s: State, es: seq<Event>)
    requires Inv(s)
    ensures Inv(Exec(s, es))
    ensures Exec(s, es).c.maxConnections == s.c.maxConnections
    ensures Exec(s, es).c.table.shardOf == s.c.table.shardOf
    decreases |es|
  {
    if es != [] {
      InvStep(s, es[0]);
      InvRun(Apply(s, es[0]), es[1..]);
    }
  }

  lemma Reachable(shardOf: string -> Shard, maxConnections: int, es: seq<Event>)
    ensures Inv(Exec(Init(shardOf, maxConnections), es))
    ensures Exec(Init(shardOf, maxConnections), es).c.maxConnections == maxConnections
    ensures Exec(Init(shardOf, maxConnections), es).c.table.shardOf == shardOf
  {
    NothingStored(SHARDS);
    InvRun(Init(shardOf, maxConnections), es);
  }

  lemma {:induction false} NothingStored(n: nat)
    ensures Stored(seq<map<string, nat>>(n, _ => map[])) == 0
    decreases n
  {
    if n > 0 {
      var shards := seq<map<string, nat>>(n, _ => map[]);
      assert shards[..n - 1] == seq<map<string, nat>>(n - 1, _ => map[]);
      NothingStored(n - 1);
    }
  }

  /**
    The slot account of every reachable state: the counter is stored connections plus
    handshakes holding a slot plus deletions not yet subtracted; with a limit it is kept;
    every stored connection sits in the shard of its ID and nowhere else, and every open
    connection is stored.
    */
  lemma SlotsAreAccountedFor(shardOf: string -> Shard, maxConnections: int, es: seq<Event>)
    requires Exec(Init(shardOf, maxConnections), es).c.issued < WORD
    ensures var s := Exec(Init(shardOf, maxConnections), es);
      && s.c.activeCount == Stored(s.c.table.shards) + Sum(Handshake(), s.threads) + Sum(Deletion(), s.threads)
      && (maxConnections > 0 ==> Stored(s.c.table.shards) <= s.c.activeCount <= maxConnections)
      && (forall i, id :: 0 <= i < SHARDS && id in s.c.table.shards[i] ==>
            GoodEntry(shardOf, i, id, s.c.table.shards[i][id], s.threads))
      && (forall t :: 0 <= t < |s.threads| ==> Listed(s.c.table, t, s.threads[t]))
  {
    Reachable(shardOf, maxConnections, es);
  }

  /** When every request has ended, the counter is back to zero: no slot leaks. */
  lemma NoSlotLeaks(shardOf: string -> Shard, maxConnections: int, es: seq<Event>)
    requires Exec(Init(shardOf, maxConnections), es).c.issued < WORD
    requires AllEnded(Exec(Init(shardOf, maxConnections), es).threads)
    ensures Exec(Init(shardOf, maxConnections), es).c.activeCount == 0
  {
    var s := Exec(Init(shardOf, maxConnections), es);
    Reachable(shardOf, maxConnections, es);
    AllGone(Handshake(), s.threads);
    AllGone(Deletion(), s.threads);
    EmptyShards(s.c.table.shards);
  }

  predicate AllEnded(threads: seq<Pc>) {
    forall t :: 0 <= t < |threads| ==> threads[t] == Gone
  }

  lemma {:induction false} AllGone(f: Pc -> nat, threads: seq<Pc>)
    requires f(Gone) == 0 && AllEnded(threads)
    ensures Sum(f, threads) == 0
    decreases |threads|
  {
    if threads != [] {
      AllGone(f, threads[..|threads| - 1]);
    }
  }

  lemma {:induction false} EmptyShards(shards: seq<map<string, nat>>)
    requires forall i, id :: 0 <= i < |shards| ==> id !in shards[i]
    ensures Stored(shards) == 0
    decreases |shards|
  {
    if shards != [] {
      var n := |shards| - 1;
      assert forall id :: id !in shards[n];
      assert shards[n] == map[];
      EmptyShards(shards[..n]);
    }
  }
}
