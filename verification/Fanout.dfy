/**
  Broadcasting to a snapshot of connections (transport/ws/ws.go): one goroutine per chunk,
  an error channel sized for the workers, and the sequential loop below the threshold.
  `outcomes[i]` is what sendBroadcastMessage returns for connection i.
  */
module Fanout {
  import opened Wrappers

  const THRESHOLD: nat := 256

  type Outcome = Option<string>

  /**
    broadcastWorkerCount for runtime.GOMAXPROCS(0) == procs: as many workers as possible, but
    not more than connections or than four for each processor, and at least one.
    */
  function WorkerCount(n: nat, procs: int): (w: nat)
    ensures n > 0 ==> 1 <= w <= n
    ensures w <= 1 || w <= procs * 4
    ensures w == n || w >= procs * 4
  {
    if n <= 1 then n
    else if procs * 4 < 1 then 1
    else if procs * 4 > n then n
    else procs * 4
  }

  /** What the caller of a broadcast may rely on: nil exactly when every send succeeded, and a real error otherwise. */
  ghost predicate Reports(err: Outcome, outcomes: seq<Outcome>) {
    && (err.None? <==> forall i :: 0 <= i < |outcomes| ==> outcomes[i].None?)
    && (err.Some? ==> err in outcomes)
  }

  lemma CeilingCovers(n: nat, workers: nat)
    requires workers > 0
    ensures n <= workers * ((n + workers - 1) / workers)
  {
    var q := (n + workers - 1) / workers;
    var r := (n + workers - 1) % workers;
    assert n + workers - 1 == workers * q + r;
  }

  /** A chunk that starts inside the connections is one of the first `workers`. */
  lemma FewerThanWorkers(n: nat, workers: nat, size: nat, g: nat)
    requires n <= workers * size && g * size < n
    ensures g < workers
  {
    if g >= workers {
      MulMonotone(workers, g, size);
    }
  }

  lemma MulMonotone(x: nat, y: nat, size: nat)
    requires x <= y
    ensures x * size <= y * size
  {
  }

  /** errCh: sends block when the buffer is full, so a send is allowed only below the capacity. */
  class ErrorChannel {
    const capacity: nat
    var buffer: seq<Outcome>

    constructor (capacity: nat)
      ensures this.capacity == capacity && buffer == []
    {
      this.capacity, buffer := capacity, [];
    }

    method Send(err: Outcome)
      requires |buffer| < capacity
      modifies this
      ensures buffer == old(buffer) + [err]
    {
      buffer := buffer + [err];
    }
  }

  /** Send i failed with err and no later one did. */
  predicate LastAt(err: Outcome, outcomes: seq<Outcome>, i: int) {
    && 0 <= i < |outcomes| && err.Some? && outcomes[i] == err
    && forall j :: i < j < |outcomes| ==> outcomes[j].None?
  }

  /** The last error there was, if any. */
  ghost predicate IsLast(err: Outcome, outcomes: seq<Outcome>) {
    if err.None? then forall i :: 0 <= i < |outcomes| ==> outcomes[i].None?
    else exists i :: LastAt(err, outcomes, i)
  }

  lemma LastReports(err: Outcome, outcomes: seq<Outcome>)
    requires IsLast(err, outcomes)
    ensures Reports(err, outcomes)
  {
    if err.Some? {
      var i :| LastAt(err, outcomes, i);
      assert outcomes[i] == err;
    }
  }

  /** The body of one goroutine, and of the sequential loop: send to each, remember the last error. */
  method SendAll(outcomes: seq<Outcome>, from: nat, to: nat) returns (lastErr: Outcome, sent: seq<nat>)
    requires from <= to <= |outcomes|
    ensures IsLast(lastErr, outcomes[from..to])
    ensures sent == seq(to - from, i requires 0 <= i => from + i)
  {
    lastErr, sent := None, [];
    for i := from to to
      invariant IsLast(lastErr, outcomes[from..i])
      invariant sent == seq(i - from, k requires 0 <= k => from + k)
    {
      assert outcomes[from..i + 1] == outcomes[from..i] + [outcomes[i]];
      LastStep(lastErr, outcomes[from..i], outcomes[i]);
      sent := sent + [i];
      if outcomes[i].Some? {
        lastErr := outcomes[i];
      }
    }
  }

  lemma LastStep(err: Outcome, outcomes: seq<Outcome>, o: Outcome)
    requires IsLast(err, outcomes)
    ensures IsLast(if o.Some? then o else err, outcomes + [o])
  {
    if o.Some? {
      assert LastAt(o, outcomes + [o], |outcomes|);
    } else if err.Some? {
      var i :| LastAt(err, outcomes, i);
      assert LastAt(err, outcomes + [o], i);
    }
  }

  type Chunk = (nat, nat)

  predicate InChunk(i: int, chunks: seq<Chunk>, g: int) {
    0 <= g < |chunks| && chunks[g].0 <= i < chunks[g].1
  }

  ghost predicate Covered(chunks: seq<Chunk>, i: int) { exists g :: InChunk(i, chunks, g) }

  /** The chunks are non-empty, in order, do not overlap and cover exactly 0 .. upto. */
  ghost predicate Partition(chunks: seq<Chunk>, upto: nat) {
    && (forall g :: 0 <= g < |chunks| ==> chunks[g].0 < chunks[g].1 <= upto)
    && (forall g, h :: 0 <= g < h < |chunks| ==> chunks[g].1 <= chunks[h].0)
    && (forall i :: 0 <= i < upto ==> Covered(chunks, i))
  }

  lemma PartitionStep(chunks: seq<Chunk>, from: nat, to: nat)
    requires Partition(chunks, from) && from < to
    ensures Partition(chunks + [(from, to)], to)
  {
    var all := chunks + [(from, to)];
    forall i | 0 <= i < to
      ensures Covered(all, i)
    {
      if i < from {
        assert Covered(chunks, i);
        var g :| InChunk(i, chunks, g);
        assert InChunk(i, all, g);
      } else {
        assert InChunk(i, all, |chunks|);
      }
    }
  }

  /** The length of every chunk but the last. */
  function ChunkSize(n: nat, workers: nat): nat
    requires workers > 0
  {
    (n + workers - 1) / workers
  }

  /** Chunk g of n connections. */
  function ChunkAt(n: nat, size: nat, g: nat): (c: Chunk) { (g * size, if (g + 1) * size > n then n else (g + 1) * size) }

  /** The chunking loop of broadcastParallel: never more chunks than workers, of equal length but for the last. */
  method Split(n: nat, workers: nat) returns (chunks: seq<Chunk>)
    requires 0 < workers <= n
    ensures Partition(chunks, n) && |chunks| <= workers
    ensures forall g :: 0 <= g < |chunks| ==> chunks[g] == ChunkAt(n, ChunkSize(n, workers), g)
    ensures forall g :: 0 <= g < |chunks| ==> FairShare(chunks[g], n, workers)
  {
    var chunkSize := (n + workers - 1) / workers;
    CeilingCovers(n, workers);
    chunks := [];
    var start := 0;
    while start < n
      invariant start == |chunks| * chunkSize && chunkSize > 0
      invariant |chunks| <= workers
      invariant Partition(chunks, if start < n then start else n)
      invariant forall g :: 0 <= g < |chunks| ==> chunks[g] == ChunkAt(n, chunkSize, g)
      invariant forall g :: 0 <= g < |chunks| ==> FairShare(chunks[g], n, workers)
    {
      var end := if start + chunkSize > n then n else start + chunkSize;
      FewerThanWorkers(n, workers, chunkSize, |chunks|);
      PartitionStep(chunks, start, end);
      AtMostItsShare(n, workers, end - start);
      OneMore(|chunks|, chunkSize);
      chunks := chunks + [(start, end)];
      start := start + chunkSize;
    }
  }

  /** No more than n / workers, rounded up. */
  predicate FairShare(c: Chunk, n: nat, workers: nat) { c.0 < c.1 && (c.1 - c.0 - 1) * workers < n }

  lemma AtMostItsShare(n: nat, workers: nat, length: nat)
    requires 0 < workers && 0 < length <= (n + workers - 1) / workers
    ensures (length - 1) * workers < n
  {
    MulMonotone(length - 1, (n + workers - 1) / workers - 1, workers);
    CeilingBelow(n, workers);
  }

  lemma CeilingBelow(n: nat, workers: nat)
    requires workers > 0
    ensures ((n + workers - 1) / workers - 1) * workers < n
  {
    var q := (n + workers - 1) / workers;
    var r := (n + workers - 1) % workers;
    assert n + workers - 1 == workers * q + r;
  }

  lemma OneMore(g: nat, size: nat)
    ensures (g + 1) * size == g * size + size
  {
  }

  /** Index i has been served: its chunk is no longer pending. */
  ghost predicate Served(chunks: seq<Chunk>, pending: set<nat>, i: int) {
    exists g :: InChunk(i, chunks, g) && g !in pending
  }

  ghost predicate Distinct(s: seq<nat>) {
    forall a, b :: 0 <= a < b < |s| ==> s[a] != s[b]
  }

  /** The last error of chunk g. */
  ghost predicate LastOf(e: Outcome, outcomes: seq<Outcome>, chunks: seq<Chunk>, g: int) {
    0 <= g < |chunks| && chunks[g].0 <= chunks[g].1 <= |outcomes| && IsLast(e, outcomes[chunks[g].0..chunks[g].1])
  }

  ghost predicate LastOfSome(e: Outcome, outcomes: seq<Outcome>, chunks: seq<Chunk>) {
    exists g :: LastOf(e, outcomes, chunks, g)
  }

  /** State of the fan-out once exactly the goroutines outside `pending` have finished. */
  ghost predicate Midway(outcomes: seq<Outcome>, chunks: seq<Chunk>, pending: set<nat>,
                         sent: seq<nat>, buffer: seq<Outcome>) {
    && Distinct(sent)
    && (forall i :: i in sent <==> Served(chunks, pending, i))
    && (forall i :: i in sent ==> i < |outcomes|)
    && (forall e :: e in buffer ==> e.Some? && LastOfSome(e, outcomes, chunks))
    && (buffer == [] <==> forall i :: i in sent ==> i < |outcomes| && outcomes[i].None?)
  }

  lemma ServeChunk(outcomes: seq<Outcome>, chunks: seq<Chunk>, pending: set<nat>, g: nat,
                   sent: seq<nat>, mine: seq<nat>)
    requires Partition(chunks, |outcomes|) && g in pending && g < |chunks|
    requires Distinct(sent) && forall i :: i in sent <==> Served(chunks, pending, i)
    requires mine == seq(chunks[g].1 - chunks[g].0, i requires 0 <= i => chunks[g].0 + i)
    ensures Distinct(sent + mine)
    ensures forall i :: i in sent + mine <==> Served(chunks, pending - {g}, i)
    ensures forall i :: i in mine <==> InChunk(i, chunks, g)
  {
    forall i
      ensures i in mine <==> InChunk(i, chunks, g)
    {
      if InChunk(i, chunks, g) {
        assert mine[i - chunks[g].0] == i;
      }
    }
    forall i
      ensures i in sent + mine <==> Served(chunks, pending - {g}, i)
    {
      if InChunk(i, chunks, g) {
        assert i in mine;
      } else if Served(chunks, pending - {g}, i) {
        var h :| InChunk(i, chunks, h) && h !in pending - {g};
        assert h !in pending;
      }
    }
    forall a, b | 0 <= a < |sent| && 0 <= b < |mine|
      ensures sent[a] != mine[b]
    {
      assert sent[a] in sent && mine[b] in mine;
      var h :| InChunk(sent[a], chunks, h) && h !in pending;
      assert h != g;
    }
  }

  lemma FinishOne(outcomes: seq<Outcome>, chunks: seq<Chunk>, pending: set<nat>, g: nat,
                  sent: seq<nat>, mine: seq<nat>, buffer: seq<Outcome>, lastErr: Outcome)
    requires Partition(chunks, |outcomes|) && g in pending && g < |chunks|
    requires Midway(outcomes, chunks, pending, sent, buffer)
    requires mine == seq(chunks[g].1 - chunks[g].0, i requires 0 <= i => chunks[g].0 + i)
    requires IsLast(lastErr, outcomes[chunks[g].0..chunks[g].1])
    ensures Midway(outcomes, chunks, pending - {g}, sent + mine,
                   if lastErr.Some? then buffer + [lastErr] else buffer)
  {
    ServeChunk(outcomes, chunks, pending, g, sent, mine);
    var part := outcomes[chunks[g].0..chunks[g].1];
    assert LastOf(lastErr, outcomes, chunks, g);
    if lastErr.Some? {
      var k :| LastAt(lastErr, part, k);
      assert InChunk(chunks[g].0 + k, chunks, g);
    } else {
      forall i | i in mine
        ensures outcomes[i].None?
      {
        assert part[i - chunks[g].0].None?;
      }
    }
  }

  function Range(n: nat): (r: set<nat>)
    ensures |r| == n && forall g :: g in r <==> 0 <= g < n
  {
    if n == 0 then {}
    else
      var r := Range(n - 1);
      assert n - 1 !in r;
      r + {n - 1}
  }

  /** What broadcastParallel answers: nil exactly if all succeeded, else the last error of some chunk. */
  ghost predicate ReportsChunks(err: Outcome, outcomes: seq<Outcome>, procs: int) {
    && Reports(err, outcomes)
    && (err.Some? ==> exists g :: LastInChunk(err, outcomes, procs, g))
  }

  ghost predicate LastInChunk(err: Outcome, outcomes: seq<Outcome>, procs: int, g: nat) {
    && |outcomes| > 0
    && var c := ChunkAt(|outcomes|, ChunkSize(|outcomes|, WorkerCount(|outcomes|, procs)), g);
      c.0 <= c.1 <= |outcomes| && IsLast(err, outcomes[c.0..c.1])
  }

  /**
    broadcastParallel.  The goroutines finish in any order; the error channel has room for
    every one of them, every connection is sent to exactly once, and the result is the last
    error of a chunk, if any send failed.
    */
  method BroadcastParallel(outcomes: seq<Outcome>, procs: int) returns (err: Outcome, sent: seq<nat>)
    ensures ReportsChunks(err, outcomes, procs)
    ensures Distinct(sent) && forall i :: i in sent <==> 0 <= i < |outcomes|
  {
    err, sent := None, [];
    if |outcomes| == 0 {
      return;
    }
    var workers := WorkerCount(|outcomes|, procs);
    var chunks := Split(|outcomes|, workers);
    var errCh := new ErrorChannel(workers);
    var pending := Range(|chunks|);
    while pending != {}
      invariant fresh(errCh) && errCh.capacity == workers
      invariant pending <= Range(|chunks|)
      invariant |errCh.buffer| + |pending| <= |chunks|
      invariant Midway(outcomes, chunks, pending, sent, errCh.buffer)
      decreases |pending|
    {
      var g :| g in pending;
      var lastErr, mine := SendAll(outcomes, chunks[g].0, chunks[g].1);
      FinishOne(outcomes, chunks, pending, g, sent, mine, errCh.buffer, lastErr);
      pending := pending - {g};
      sent := sent + mine;
      if lastErr.Some? {
        errCh.Send(lastErr);
      }
    }
    for k := 0 to |errCh.buffer|
      invariant err.None? <==> k == 0
      invariant err.Some? ==> err in errCh.buffer
    {
      if errCh.buffer[k].Some? {
        err := errCh.buffer[k];
      }
    }
    AllServed(outcomes, chunks, sent, errCh.buffer);
    if err.Some? {
      ErrorOfAChunk(err, outcomes, chunks, procs);
    }
  }

  lemma ErrorOfAChunk(err: Outcome, outcomes: seq<Outcome>, chunks: seq<Chunk>, procs: int)
    requires |outcomes| > 0 && err.Some? && LastOfSome(err, outcomes, chunks)
    requires forall g :: 0 <= g < |chunks| ==>
               chunks[g] == ChunkAt(|outcomes|, ChunkSize(|outcomes|, WorkerCount(|outcomes|, procs)), g)
    ensures err in outcomes && exists g :: LastInChunk(err, outcomes, procs, g)
  {
    var g :| LastOf(err, outcomes, chunks, g);
    assert LastInChunk(err, outcomes, procs, g);
    var k :| LastAt(err, outcomes[chunks[g].0..chunks[g].1], k);
    assert outcomes[chunks[g].0 + k] == err;
  }

  lemma AllServed(outcomes: seq<Outcome>, chunks: seq<Chunk>, sent: seq<nat>, buffer: seq<Outcome>)
    requires Partition(chunks, |outcomes|) && Midway(outcomes, chunks, {}, sent, buffer)
    ensures forall i :: i in sent <==> 0 <= i < |outcomes|
    ensures buffer == [] <==> forall i :: 0 <= i < |outcomes| ==> outcomes[i].None?
  {
    forall i | 0 <= i < |outcomes|
      ensures i in sent
    {
      assert Covered(chunks, i);
      var g :| InChunk(i, chunks, g);
      assert Served(chunks, {}, i);
    }
  }

  lemma SentAll(err: Outcome, outcomes: seq<Outcome>, sent: seq<nat>)
    requires IsLast(err, outcomes[0..|outcomes|]) && sent == seq(|outcomes|, i requires 0 <= i => 0 + i)
    ensures IsLast(err, outcomes) && Reports(err, outcomes)
    ensures Distinct(sent) && forall i :: i in sent <==> 0 <= i < |outcomes|
  {
    assert outcomes[0..|outcomes|] == outcomes;
    LastReports(err, outcomes);
    forall i | 0 <= i < |outcomes|
      ensures i in sent
    {
      assert sent[i] == i;
    }
  }

  /** What a broadcast to n connections answers. */
  ghost predicate Answers(err: Outcome, outcomes: seq<Outcome>, n: nat, procs: int) {
    if n < THRESHOLD then IsLast(err, outcomes) else ReportsChunks(err, outcomes, procs)
  }

  /** The two schedules: one loop below the threshold, goroutines from there on; n connections were there before filtering. */
  method Serve(outcomes: seq<Outcome>, n: nat, procs: int) returns (err: Outcome, sent: seq<nat>)
    ensures Reports(err, outcomes) && Answers(err, outcomes, n, procs)
    ensures Distinct(sent) && forall i :: i in sent <==> 0 <= i < |outcomes|
    ensures n < THRESHOLD ==> sent == seq(|outcomes|, i requires 0 <= i => 0 + i)
  {
    if n < THRESHOLD {
      err, sent := SendAll(outcomes, 0, |outcomes|);
      SentAll(err, outcomes, sent);
    } else {
      err, sent := BroadcastParallel(outcomes, procs);
    }
  }

  /**
    Broadcast: whatever the threshold chooses, each connection is sent to once and the answer
    is nil exactly if all succeeded.  Below it the order is that of the connections and the
    error is the last one.
    */
  method Broadcast(outcomes: seq<Outcome>, procs: int) returns (err: Outcome, sent: seq<nat>)
    ensures Reports(err, outcomes) && Answers(err, outcomes, |outcomes|, procs)
    ensures Distinct(sent) && forall i :: i in sent <==> 0 <= i < |outcomes|
    ensures |outcomes| < THRESHOLD ==> forall i :: 0 <= i < |sent| ==> sent[i] == i
  {
    err, sent := Serve(outcomes, |outcomes|, procs);
  }

  /** Who is left, in order. */
  function Kept(ids: seq<string>, excluded: set<string>): (kept: seq<nat>)
    ensures forall k :: 0 <= k < |kept| ==> kept[k] < |ids|
  {
    if ids == [] then []
    else
      var n := |ids| - 1;
      Kept(ids[..n], excluded) + (if ids[n] in excluded then [] else [n])
  }

  predicate Ascending(s: seq<nat>) { forall a, b :: 0 <= a < b < |s| ==> s[a] < s[b] }

  lemma {:induction false} KeptAreTheOthers(ids: seq<string>, excluded: set<string>)
    ensures Ascending(Kept(ids, excluded))
    ensures forall i :: i in Kept(ids, excluded) <==> 0 <= i < |ids| && ids[i] !in excluded
    decreases |ids|
  {
    if ids != [] {
      KeptAreTheOthers(ids[..|ids| - 1], excluded);
    }
  }

  /** The loop that builds `filtered`. */
  method Filter(ids: seq<string>, excluded: set<string>) returns (kept: seq<nat>)
    ensures kept == Kept(ids, excluded)
  {
    kept := [];
    for i := 0 to |ids|
      invariant kept == Kept(ids[..i], excluded)
    {
      assert ids[..i + 1][..i] == ids[..i];
      if ids[i] !in excluded {
        kept := kept + [i];
      }
    }
    assert ids[..|ids|] == ids;
  }

  /** The elements of xs at the given positions. */
  function Pick<T>(xs: seq<T>, at: seq<nat>): (r: seq<T>)
    requires forall k :: 0 <= k < |at| ==> at[k] < |xs|
    ensures |r| == |at| && forall k :: 0 <= k < |at| ==> r[k] == xs[at[k]]
  {
    seq(|at|, k requires 0 <= k < |at| => xs[at[k]])
  }

  /**
    BroadcastExcept: exactly the connections whose ID is not excluded are sent to, once
    each, and the answer is that of a broadcast to just those; which schedule it is depends
    on the number of all connections.
    */
  method BroadcastExcept(ids: seq<string>, outcomes: seq<Outcome>, excluded: set<string>, procs: int)
      returns (err: Outcome, sent: seq<nat>)
    requires |ids| == |outcomes|
    ensures Distinct(sent) && forall i :: i in sent <==> 0 <= i < |ids| && ids[i] !in excluded
    ensures err.None? <==> forall i :: 0 <= i < |ids| && ids[i] !in excluded ==> outcomes[i].None?
    ensures err.Some? ==> exists i :: 0 <= i < |ids| && ids[i] !in excluded && outcomes[i] == err
    ensures Answers(err, Pick(outcomes, Kept(ids, excluded)), |ids|, procs)
    ensures |ids| < THRESHOLD ==> sent == Kept(ids, excluded)
  {
    var kept := Filter(ids, excluded);
    KeptAreTheOthers(ids, excluded);
    var chosen;
    err, chosen := Serve(Pick(outcomes, kept), |ids|, procs);
    BelowLength(chosen, |kept|);
    sent := Pick(kept, chosen);
    ThroughKept(kept, chosen, sent);
    ReportsKept(err, ids, outcomes, excluded, kept);
  }

  lemma BelowLength(chosen: seq<nat>, n: nat)
    requires forall i :: i in chosen <==> 0 <= i < n
    ensures forall k :: 0 <= k < |chosen| ==> chosen[k] < n
  {
    forall k | 0 <= k < |chosen|
      ensures chosen[k] < n
    {
      assert chosen[k] in chosen;
    }
  }

  lemma ReportsKept(err: Outcome, ids: seq<string>, outcomes: seq<Outcome>, excluded: set<string>, kept: seq<nat>)
    requires |ids| == |outcomes| && forall k :: 0 <= k < |kept| ==> kept[k] < |ids|
    requires forall i :: i in kept <==> 0 <= i < |ids| && ids[i] !in excluded
    requires Reports(err, Pick(outcomes, kept))
    ensures err.None? <==> forall i :: 0 <= i < |ids| && ids[i] !in excluded ==> outcomes[i].None?
    ensures err.Some? ==> exists i :: 0 <= i < |ids| && ids[i] !in excluded && outcomes[i] == err
  {
    var results := Pick(outcomes, kept);
    if err.None? {
      forall i | 0 <= i < |ids| && ids[i] !in excluded
        ensures outcomes[i].None?
      {
        assert i in kept;
        var k :| 0 <= k < |kept| && kept[k] == i;
        assert results[k].None?;
      }
    } else {
      var k :| 0 <= k < |results| && results[k] == err;
      assert kept[k] in kept;
    }
  }

  lemma ThroughKept(kept: seq<nat>, chosen: seq<nat>, sent: seq<nat>)
    requires Distinct(kept) && Distinct(chosen) && forall k :: k in chosen <==> 0 <= k < |kept|
    requires |sent| == |chosen| && forall k :: 0 <= k < |chosen| ==> chosen[k] < |kept| && sent[k] == kept[chosen[k]]
    ensures Distinct(sent) && forall i :: i in sent <==> i in kept
  {
    forall i | i in kept
      ensures i in sent
    {
      var j :| 0 <= j < |kept| && kept[j] == i;
      assert j in chosen;
      var k :| 0 <= k < |chosen| && chosen[k] == j;
      assert sent[k] == i;
    }
  }
}
