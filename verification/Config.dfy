/**
  Configuration trees (config/config.go) as values: merging one source over another, and
  looking a dotted key up in the result.  Trees are already parsed.
  */
module Config {
  /** A parsed value: null, a scalar or list the merge never looks into, or a mapping. */
  datatype Value = Nil | Leaf(text: string) | Node(entries: map<string, Value>)

  type Path = seq<string>

  // ------------------------------------------------------------------------------
  // What merging and looking up mean
  // ------------------------------------------------------------------------------

  /** src over dst: mappings are merged key by key, anything else is replaced. */
  function Merge(dst: Value, src: Value): Value
    decreases src
  {
    if dst.Node? && src.Node? then
      Node(map k | k in dst.entries.Keys + src.entries.Keys ::
        if k !in src.entries then dst.entries[k]
        else if k in dst.entries then Merge(dst.entries[k], src.entries[k])
        else src.entries[k])
    else src
  }

  /** Following a path; Nil when it leads nowhere. */
  function Lookup(v: Value, path: Path): Value {
    if path == [] then v
    else if v.Node? && path[0] in v.entries then Lookup(v.entries[path[0]], path[1..])
    else Nil
  }

  /** What one tree has to say about a path. */
  datatype Word =
    | Silent           // only mappings on the way, then nothing
    | Blocked          // a value that is not a mapping on the way
    | Says(v: Value)   // this value at the end of it

  function Ask(v: Value, path: Path): Word {
    if path == [] then Says(v)
    else if !v.Node? then Blocked
    else if path[0] in v.entries then Ask(v.entries[path[0]], path[1..])
    else Silent
  }

  lemma {:induction false} LookupAsks(v: Value, path: Path)
    ensures Lookup(v, path) == (if Ask(v, path).Says? then Ask(v, path).v else Nil)
    decreases |path|
  {
    if path != [] && v.Node? && path[0] in v.entries {
      LookupAsks(v.entries[path[0]], path[1..]);
    }
  }

  /** The value found along a path after a merge, from the two trees that were merged. */
  function Combined(dst: Value, src: Value, path: Path): Value {
    match Ask(src, path)
    case Silent => Lookup(dst, path)
    case Blocked => Nil
    case Says(v) => if v.Node? && Lookup(dst, path).Node? then Merge(Lookup(dst, path), v) else v
  }

  /** The merge law, for every path. */
  lemma {:induction false} MergeLaw(dst: Value, src: Value, path: Path)
    requires dst.Node? && src.Node?
    ensures Lookup(Merge(dst, src), path) == Combined(dst, src, path)
    decreases |path|
  {
    if path != [] && path[0] in src.entries {
      var k, rest := path[0], path[1..];
      if k in dst.entries && dst.entries[k].Node? && src.entries[k].Node? {
        MergeLaw(dst.entries[k], src.entries[k], rest);
      } else {
        assert Merge(dst, src).entries[k] == src.entries[k];
        LookupAsks(src.entries[k], rest);
        assert Ask(src, path) == Ask(src.entries[k], rest);
        if !src.entries[k].Node? {
          assert Ask(src.entries[k], rest) == if rest == [] then Says(src.entries[k]) else Blocked;
        } else if k in dst.entries {
          assert Lookup(dst, path) == Lookup(dst.entries[k], rest);
          assert Lookup(dst.entries[k], rest) == if rest == [] then dst.entries[k] else Nil;
        } else {
          assert Lookup(dst, path) == Nil;
        }
      }
    }
  }

  lemma {:induction false} MergeSelf(s: Value)
    ensures Merge(s, s) == s
    decreases s
  {
    if s.Node? {
      forall k | k in s.entries.Keys
        ensures Merge(s.entries[k], s.entries[k]) == s.entries[k]
      {
        MergeSelf(s.entries[k]);
      }
      assert Merge(s, s).entries == s.entries;
    }
  }

  /** Merging the same source again changes nothing. */
  lemma {:induction false} MergeTwice(dst: Value, src: Value)
    ensures Merge(Merge(dst, src), src) == Merge(dst, src)
    decreases src
  {
    if dst.Node? && src.Node? {
      var m := Merge(dst, src);
      forall k | k in src.entries.Keys
        ensures Merge(m.entries[k], src.entries[k]) == m.entries[k]
      {
        if k in dst.entries {
          MergeTwice(dst.entries[k], src.entries[k]);
        } else {
          MergeSelf(src.entries[k]);
        }
      }
      assert Merge(m, src).entries == m.entries;
    } else {
      MergeSelf(src);
    }
  }

  // ------------------------------------------------------------------------------
  // When the sources may be grouped differently
  // ------------------------------------------------------------------------------

  /** Everything `v` holds is overridden by `over`. */
  predicate Covers(over: Value, v: Value)
    decreases over
  {
    (over.Node? && v.Node?) ==>
      forall k :: k in v.entries ==> k in over.entries && Covers(over.entries[k], v.entries[k])
  }

  lemma {:induction false} CoveredIsReplaced(dst: Value, src: Value)
    ensures Merge(dst, src) == src <==> Covers(src, dst)
    decreases src
  {
    if dst.Node? && src.Node? {
      var m := Merge(dst, src);
      forall k | k in src.entries && k in dst.entries
        ensures m.entries[k] == src.entries[k] <==> Covers(src.entries[k], dst.entries[k])
      {
        CoveredIsReplaced(dst.entries[k], src.entries[k]);
      }
      if Covers(src, dst) {
        assert m.entries == src.entries;
      }
      if m == src {
        forall k | k in dst.entries
          ensures k in src.entries && Covers(src.entries[k], dst.entries[k])
        {
          assert k in m.entries;
        }
      }
    }
  }

  /** Somewhere `b` puts a plain value over a mapping of `a`, and `c` a mapping that does not cover it. */
  predicate Clash(a: Value, b: Value, c: Value)
    decreases c
  {
    && a.Node? && c.Node?
    && if !b.Node? then !Covers(c, a)
       else exists k :: k in a.entries && k in b.entries && k in c.entries
                        && Clash(a.entries[k], b.entries[k], c.entries[k])
  }

  /** Three sources can be merged in either grouping exactly when they do not clash. */
  lemma {:induction false} GroupingMatters(a: Value, b: Value, c: Value)
    ensures Merge(Merge(a, b), c) == Merge(a, Merge(b, c)) <==> !Clash(a, b, c)
    decreases c
  {
    if !(a.Node? && b.Node? && c.Node?) {
      CoveredIsReplaced(a, c);
    } else {
      var left, right := Merge(Merge(a, b), c), Merge(a, Merge(b, c));
      assert left.entries.Keys == right.entries.Keys;
      forall k | k in left.entries
        ensures left.entries[k] == right.entries[k] <==>
                !(k in a.entries && k in b.entries && k in c.entries && Clash(a.entries[k], b.entries[k], c.entries[k]))
      {
        if k in a.entries && k in b.entries && k in c.entries {
          GroupingMatters(a.entries[k], b.entries[k], c.entries[k]);
        }
      }
      if !Clash(a, b, c) {
        assert left.entries == right.entries;
      }
    }
  }

  // ------------------------------------------------------------------------------
  // Many sources
  // ------------------------------------------------------------------------------

  type Tree = map<string, Value>

  /** A document of a source, after parsing. */
  datatype Doc = Unreadable | Parsed(tree: Tree)

  /** What Load of one source returned. */
  datatype Batch = Failed | Loaded(docs: seq<Doc>)

  /** The documents merged over the data, first to last. */
  function Merged(data: Value, trees: seq<Value>): Value
    decreases |trees|
  {
    if trees == [] then data else Merged(Merge(data, trees[0]), trees[1..])
  }

  predicate AllNodes(trees: seq<Value>) { forall i :: 0 <= i < |trees| ==> trees[i].Node? }

  /** The documents Load works on, in order; a source that fails stops it like an unreadable one. */
  function Documents(batches: seq<Batch>): seq<Doc> {
    if batches == [] then []
    else (if batches[0].Failed? then [Unreadable] else batches[0].docs) + Documents(batches[1..])
  }

  /** The trees of the documents before the first unreadable one. */
  function UpToError(docs: seq<Doc>): seq<Value> {
    if docs == [] || docs[0].Unreadable? then [] else [Node(docs[0].tree)] + UpToError(docs[1..])
  }

  /** The trees of the readable documents. */
  function Readable(docs: seq<Doc>): seq<Value> {
    if docs == [] then []
    else (if docs[0].Unreadable? then [] else [Node(docs[0].tree)]) + Readable(docs[1..])
  }

  lemma {:induction false} ReadableSplit(docs: seq<Doc>, more: seq<Doc>)
    ensures Readable(docs + more) == Readable(docs) + Readable(more)
    decreases |docs|
  {
    if docs == [] {
      assert docs + more == more;
    } else {
      assert (docs + more)[1..] == docs[1..] + more;
      ReadableSplit(docs[1..], more);
    }
  }

  lemma {:induction false} UpToErrorSplit(docs: seq<Doc>, more: seq<Doc>)
    ensures UpToError(docs + more) == UpToError(docs) + (if Unreadable in docs then [] else UpToError(more))
    decreases |docs|
  {
    if docs == [] {
      assert docs + more == more;
    } else {
      assert (docs + more)[1..] == docs[1..] + more;
      assert docs == [docs[0]] + docs[1..];
      if docs[0].Parsed? {
        UpToErrorSplit(docs[1..], more);
      }
    }
  }

  /** A watched change skips what it cannot read; a Load ends there. */
  lemma UnreadableStops(docs: seq<Doc>, more: seq<Doc>)
    ensures Readable(docs + [Unreadable] + more) == Readable(docs) + Readable(more)
    ensures UpToError(docs + [Unreadable] + more) == UpToError(docs)
  {
    ReadableSplit(docs + [Unreadable], more);
    ReadableSplit(docs, [Unreadable]);
    UpToErrorSplit(docs + [Unreadable], more);
    UpToErrorSplit(docs, [Unreadable]);
    assert Unreadable in docs + [Unreadable] && [Unreadable][1..] == [];
    assert Readable([Unreadable]) == [] && UpToError([Unreadable]) == [];
  }

  /** Every other one takes part in its place. */
  lemma ReadableCounts(docs: seq<Doc>, tree: Tree, more: seq<Doc>)
    ensures Readable(docs + [Parsed(tree)] + more) == Readable(docs) + [Node(tree)] + Readable(more)
    ensures Unreadable !in docs ==>
              UpToError(docs + [Parsed(tree)] + more) == UpToError(docs) + [Node(tree)] + UpToError(more)
  {
    ReadableSplit(docs + [Parsed(tree)], more);
    ReadableSplit(docs, [Parsed(tree)]);
    UpToErrorSplit(docs + [Parsed(tree)], more);
    UpToErrorSplit(docs, [Parsed(tree)]);
    assert [Parsed(tree)][1..] == [];
    assert Readable([Parsed(tree)]) == [Node(tree)] && UpToError([Parsed(tree)]) == [Node(tree)];
  }

  lemma {:induction false} DocumentsBoth(batches: seq<Batch>, more: seq<Batch>)
    ensures Documents(batches + more) == Documents(batches) + Documents(more)
    decreases |batches|
  {
    if batches == [] {
      assert batches + more == more;
    } else {
      assert (batches + more)[1..] == batches[1..] + more;
      DocumentsBoth(batches[1..], more);
    }
  }

  /** Sources are worked through one after the other; one that fails is like an unreadable document. */
  lemma DocumentsSplit(batches: seq<Batch>, docs: seq<Doc>, more: seq<Batch>)
    ensures Documents(batches + [Loaded(docs)] + more) == Documents(batches) + docs + Documents(more)
    ensures Documents(batches + [Failed] + more) == Documents(batches) + [Unreadable] + Documents(more)
  {
    DocumentsBoth(batches + [Loaded(docs)], more);
    DocumentsBoth(batches, [Loaded(docs)]);
    DocumentsBoth(batches + [Failed], more);
    DocumentsBoth(batches, [Failed]);
    assert [Loaded(docs)][1..] == [] && [Failed][1..] == [];
    assert Documents([Loaded(docs)]) == docs && Documents([Failed]) == [Unreadable];
  }

  datatype Outcome = Outcome(data: Value, ok: bool)

  /** Merging documents one by one until one is unreadable. */
  function Absorb(data: Value, docs: seq<Doc>): Outcome
    decreases |docs|
  {
    if docs == [] then Outcome(data, true)
    else if docs[0].Unreadable? then Outcome(data, false)
    else Absorb(Merge(data, Node(docs[0].tree)), docs[1..])
  }

  lemma {:induction false} AbsorbMeans(data: Value, docs: seq<Doc>)
    ensures Absorb(data, docs) == Outcome(Merged(data, UpToError(docs)), Unreadable !in docs)
    decreases |docs|
  {
    if docs != [] {
      assert docs == [docs[0]] + docs[1..];
      if docs[0].Parsed? {
        AbsorbMeans(Merge(data, Node(docs[0].tree)), docs[1..]);
        assert UpToError(docs)[1..] == UpToError(docs[1..]);
      }
    }
  }

  lemma {:induction false} AbsorbSplit(data: Value, docs: seq<Doc>, more: seq<Doc>)
    ensures Absorb(data, docs + more) ==
            if Absorb(data, docs).ok then Absorb(Absorb(data, docs).data, more) else Absorb(data, docs)
    decreases |docs|
  {
    if docs == [] {
      assert docs + more == more;
    } else {
      assert (docs + more)[1..] == docs[1..] + more;
      if docs[0].Parsed? {
        AbsorbSplit(Merge(data, Node(docs[0].tree)), docs[1..], more);
      }
    }
  }

  lemma {:induction false} SilenceKeeps(data: Value, trees: seq<Value>, path: Path)
    requires data.Node? && AllNodes(trees)
    requires forall i :: 0 <= i < |trees| ==> Ask(trees[i], path) == Silent
    ensures Lookup(Merged(data, trees), path) == Lookup(data, path)
    decreases |trees|
  {
    if trees != [] {
      MergeLaw(data, trees[0], path);
      SilenceKeeps(Merge(data, trees[0]), trees[1..], path);
    }
  }

  lemma {:induction false} MergedIsNode(data: Value, trees: seq<Value>)
    requires data.Node? && AllNodes(trees)
    ensures Merged(data, trees).Node?
    decreases |trees|
  {
    if trees != [] {
      MergedIsNode(Merge(data, trees[0]), trees[1..]);
    }
  }

  lemma {:induction false} MergedSplit(data: Value, trees: seq<Value>, k: nat)
    requires k <= |trees|
    ensures Merged(data, trees) == Merged(Merged(data, trees[..k]), trees[k..])
    decreases k
  {
    if k > 0 {
      MergedSplit(Merge(data, trees[0]), trees[1..], k - 1);
      assert trees[..k][1..] == trees[1..][..k - 1] && trees[k..] == trees[1..][k - 1..];
    } else {
      assert trees[..0] == [] && trees[0..] == trees;
    }
  }

  /**
    The last document with something to say about a path decides, together with what the
    documents before it made of the path: a plain value replaces that, a mapping is merged
    over another mapping.
    */
  lemma LastWordWins(data: Value, trees: seq<Value>, path: Path, last: nat)
    requires data.Node? && AllNodes(trees) && last < |trees|
    requires forall i :: last < i < |trees| ==> Ask(trees[i], path) == Silent
    ensures Lookup(Merged(data, trees), path) == Combined(Merged(data, trees[..last]), trees[last], path)
    ensures Ask(trees[last], path).Says? && !Ask(trees[last], path).v.Node? ==>
              Lookup(Merged(data, trees), path) == Ask(trees[last], path).v
  {
    var before, rest := Merged(data, trees[..last]), trees[last..];
    MergedSplit(data, trees, last);
    MergedIsNode(data, trees[..last]);
    MergeLaw(before, trees[last], path);
    assert rest[1..] == trees[last + 1..];
    SilenceKeeps(Merge(before, trees[last]), rest[1..], path);
  }

  /** The word of the last document that has one. */
  function LastWord(trees: seq<Value>, path: Path): Word {
    if trees == [] then Silent
    else
      var n := |trees| - 1;
      if Ask(trees[n], path).Silent? then LastWord(trees[..n], path) else Ask(trees[n], path)
  }

  /** What a path leads to after any number of documents, up to the contents of a mapping. */
  predicate Tells(word: Word, before: Value, after: Value) {
    match word
    case Silent => after == before
    case Blocked => after == Nil
    case Says(v) => if v.Node? then after.Node? else after == v
  }

  lemma {:induction false} LastWordTells(data: Value, trees: seq<Value>, path: Path)
    requires data.Node? && AllNodes(trees)
    ensures Tells(LastWord(trees, path), Lookup(data, path), Lookup(Merged(data, trees), path))
    decreases |trees|
  {
    if trees != [] {
      var n := |trees| - 1;
      LastWordTells(data, trees[..n], path);
      MergedSplit(data, trees, n);
      MergedIsNode(data, trees[..n]);
      MergeLaw(Merged(data, trees[..n]), trees[n], path);
      assert trees[n..] == [trees[n]] && [trees[n]][1..] == [];
    }
  }

  lemma ReadableNext(docs: seq<Doc>, i: nat)
    requires i < |docs|
    ensures docs[i].Unreadable? ==> Readable(docs[i..]) == Readable(docs[i + 1..])
    ensures docs[i].Parsed? ==> Readable(docs[i..]) != [] && Readable(docs[i..])[0] == Node(docs[i].tree)
    ensures docs[i].Parsed? ==> Readable(docs[i..])[1..] == Readable(docs[i + 1..])
  {
    assert docs[i..][1..] == docs[i + 1..];
  }
}
