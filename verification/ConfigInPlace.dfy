/**
  The configuration object (config/config.go): mutable mappings that hold each other, merged
  in place with whole mappings of the source taken over by reference, the walk down a dotted
  key, the loops over sources and documents, and the cache.
  */
module ConfigInPlace {
  import opened Config
  import opened Strings
  import opened Wrappers

  datatype Item = Null | Scalar(text: string) | Sub(mapping: Mapping)

  /** A tree together with the mappings that hold it. */
  datatype Shape = Empty | Plain(text: string) | Held(id: Mapping, kids: map<string, Shape>)

  // ------------------------------------------------------------------------------
  // Shapes
  // ------------------------------------------------------------------------------

  /** The tree without the mappings. */
  ghost function Erased(s: Shape): Value {
    match s
    case Empty => Nil
    case Plain(text) => Leaf(text)
    case Held(_, kids) => Node(map k | k in kids :: Erased(kids[k]))
  }

  /** What a mapping holds for a shape. */
  ghost function ItemOf(s: Shape): Item {
    match s
    case Empty => Null
    case Plain(text) => Scalar(text)
    case Held(id, _) => Sub(id)
  }

  ghost function Find(s: Shape, path: Path): Shape {
    if path == [] then s
    else if s.Held? && path[0] in s.kids then Find(s.kids[path[0]], path[1..])
    else Empty
  }

  /** Merging in place: where both have a mapping it is the destination's that stays. */
  ghost function Blend(dst: Shape, src: Shape): Shape
    decreases src
  {
    if dst.Held? && src.Held? then
      Held(dst.id, map k | k in dst.kids.Keys + src.kids.Keys ::
        if k !in src.kids then dst.kids[k]
        else if k in dst.kids then Blend(dst.kids[k], src.kids[k])
        else src.kids[k])
    else src
  }

  /** Every mapping of the shape is one of these. */
  ghost predicate HeldBy(s: Shape, owners: set<Mapping>) {
    s.Held? ==> s.id in owners && forall k :: k in s.kids ==> HeldBy(s.kids[k], owners)
  }

  lemma {:induction false} BlendErases(dst: Shape, src: Shape)
    ensures Erased(Blend(dst, src)) == Merge(Erased(dst), Erased(src))
    decreases src
  {
    if dst.Held? && src.Held? {
      forall k | k in dst.kids && k in src.kids
        ensures Erased(Blend(dst.kids[k], src.kids[k])) == Merge(Erased(dst.kids[k]), Erased(src.kids[k]))
      {
        BlendErases(dst.kids[k], src.kids[k]);
      }
      assert Erased(Blend(dst, src)).entries == Merge(Erased(dst), Erased(src)).entries;
    }
  }

  /** Finding in a shape is looking up in its tree. */
  lemma {:induction false} FindLooksUp(s: Shape, path: Path)
    ensures Erased(Find(s, path)) == Lookup(Erased(s), path)
    decreases |path|
  {
    if path != [] && s.Held? && path[0] in s.kids {
      FindLooksUp(s.kids[path[0]], path[1..]);
    }
  }

  lemma {:induction false} FindHeldBy(s: Shape, path: Path, owners: set<Mapping>)
    requires HeldBy(s, owners)
    ensures Find(s, path).Held? ==> Find(s, path).id in owners
    decreases |path|
  {
    if path != [] && s.Held? && path[0] in s.kids {
      FindHeldBy(s.kids[path[0]], path[1..], owners);
    }
  }

  /** What one merge leaves at a path where `o` was, when the source says `word` and holds `n` there. */
  ghost function Left(word: Word, o: Item, n: Item): Item {
    match word
    case Silent => o
    case Blocked => Null
    case Says(v) => if v.Node? && o.Sub? then o else n
  }

  /** The merge law for references. */
  lemma {:induction false} BlendLaw(dst: Shape, src: Shape, path: Path)
    requires dst.Held? && src.Held?
    ensures ItemOf(Find(Blend(dst, src), path)) ==
            Left(Ask(Erased(src), path), ItemOf(Find(dst, path)), ItemOf(Find(src, path)))
    decreases |path|
  {
    if path != [] && path[0] in src.kids {
      var k, rest := path[0], path[1..];
      assert Ask(Erased(src), path) == Ask(Erased(src.kids[k]), rest);
      if k in dst.kids && dst.kids[k].Held? && src.kids[k].Held? {
        BlendLaw(dst.kids[k], src.kids[k], rest);
      } else {
        assert Blend(dst, src).kids[k] == src.kids[k];
        SilentFindsNothing(src.kids[k], rest);
        if k in dst.kids {
          assert Find(dst, path) == Find(dst.kids[k], rest);
          assert !dst.kids[k].Held? ==> Find(dst.kids[k], rest) == if rest == [] then dst.kids[k] else Empty;
        }
        assert !src.kids[k].Held? ==>
            Ask(Erased(src.kids[k]), rest) == if rest == [] then Says(Erased(src.kids[k])) else Blocked;
      }
    }
  }

  lemma {:induction false} SilentFindsNothing(s: Shape, path: Path)
    ensures !Ask(Erased(s), path).Says? ==> Find(s, path) == Empty
    decreases |path|
  {
    if path != [] && s.Held? && path[0] in s.kids {
      SilentFindsNothing(s.kids[path[0]], path[1..]);
    }
  }

  /** Many sources, one after the other. */
  ghost function BlendAll(s: Shape, srcs: seq<Shape>): Shape {
    if srcs == [] then s else Blend(BlendAll(s, srcs[..|srcs| - 1]), srcs[|srcs| - 1])
  }

  ghost function ErasedAll(srcs: seq<Shape>): (trees: seq<Value>)
    ensures |trees| == |srcs|
  {
    if srcs == [] then [] else ErasedAll(srcs[..|srcs| - 1]) + [Erased(srcs[|srcs| - 1])]
  }

  ghost predicate AllHeld(srcs: seq<Shape>) { forall i :: 0 <= i < |srcs| ==> srcs[i].Held? }

  /** The document is silent at the path or says a mapping there. */
  predicate Spares(tree: Value, path: Path) {
    Ask(tree, path).Silent? || (Ask(tree, path).Says? && Ask(tree, path).v.Node?)
  }

  /**
    When what was found at a path before some documents were merged is still what is found
    there: for a plain value, when the last document that speaks says the same; for a mapping,
    when every document is silent or says a mapping.
    */
  predicate StaysRight(item: Item, trees: seq<Value>, path: Path) {
    var word := LastWord(trees, path);
    match item
    case Null => word == Silent || word == Blocked || word == Says(Nil)
    case Scalar(text) => word == Silent || word == Says(Leaf(text))
    case Sub(_) => forall i :: 0 <= i < |trees| ==> Spares(trees[i], path)
  }

  lemma {:induction false} BlendAllErases(s: Shape, srcs: seq<Shape>)
    requires s.Held? && AllHeld(srcs)
    ensures BlendAll(s, srcs).Held? && AllNodes(ErasedAll(srcs))
    ensures Erased(BlendAll(s, srcs)) == Merged(Erased(s), ErasedAll(srcs))
    decreases |srcs|
  {
    if srcs != [] {
      var n := |srcs| - 1;
      var trees := ErasedAll(srcs);
      BlendAllErases(s, srcs[..n]);
      BlendErases(BlendAll(s, srcs[..n]), srcs[n]);
      assert trees[..n] == ErasedAll(srcs[..n]) && trees[n..] == [Erased(srcs[n])];
      MergedSplit(Erased(s), trees, n);
      assert [Erased(srcs[n])][1..] == [];
    }
  }

  lemma PlainStays(s: Shape, srcs: seq<Shape>, path: Path)
    requires s.Held? && AllHeld(srcs) && !ItemOf(Find(s, path)).Sub?
    ensures ItemOf(Find(BlendAll(s, srcs), path)) == ItemOf(Find(s, path)) <==>
            StaysRight(ItemOf(Find(s, path)), ErasedAll(srcs), path)
  {
    BlendAllErases(s, srcs);
    LastWordTells(Erased(s), ErasedAll(srcs), path);
    FindLooksUp(s, path);
    FindLooksUp(BlendAll(s, srcs), path);
  }

  lemma {:induction false} MappingStays(s: Shape, srcs: seq<Shape>, path: Path, item: Item)
    requires s.Held? && AllHeld(srcs) && item == ItemOf(Find(s, path)) && item.Sub?
    requires forall i :: 0 <= i < |srcs| ==> ItemOf(Find(srcs[i], path)) != item
    ensures ItemOf(Find(BlendAll(s, srcs), path)) == item <==> StaysRight(item, ErasedAll(srcs), path)
    decreases |srcs|
  {
    if srcs != [] {
      var n := |srcs| - 1;
      var trees := ErasedAll(srcs);
      MappingStays(s, srcs[..n], path, item);
      BlendAllErases(s, srcs[..n]);
      BlendLaw(BlendAll(s, srcs[..n]), srcs[n], path);
      assert trees[..n] == ErasedAll(srcs[..n]) && trees[n] == Erased(srcs[n]);
      assert StaysRight(item, trees, path) <==> StaysRight(item, trees[..n], path) && Spares(trees[n], path);
    }
  }

  // ------------------------------------------------------------------------------
  // Mappings
  // ------------------------------------------------------------------------------

  /** src without the keys that are left. */
  ghost function PartlyBlended(dst: Shape, src: Shape, rest: set<string>): Shape
    requires src.Held?
  {
    Blend(dst, Held(src.id, src.kids - rest))
  }

  lemma BlendOneKey(dst: Shape, src: Shape, rest: set<string>, k: string)
    requires dst.Held? && src.Held? && k in rest && rest <= src.kids.Keys
    ensures var part := PartlyBlended(dst, src, rest);
      && (k in part.kids <==> k in dst.kids) && (k in dst.kids ==> part.kids[k] == dst.kids[k])
      && PartlyBlended(dst, src, rest - {k}) ==
         Held(dst.id, part.kids[k := if k in dst.kids then Blend(dst.kids[k], src.kids[k]) else src.kids[k]])
  {
  }

  lemma BlendEnds(dst: Shape, src: Shape)
    requires dst.Held? && src.Held?
    ensures PartlyBlended(dst, src, src.kids.Keys) == dst
    ensures PartlyBlended(dst, src, {}) == Blend(dst, src)
  {
    assert src.kids - src.kids.Keys == map[] && src.kids - {} == src.kids;
  }

  class Mapping {
    var entries: map<string, Item>
    ghost var shape: Shape           // the tree this mapping stands for, with the mappings that hold it
    ghost var repr: set<Mapping>     // this mapping and all those below it

    ghost predicate Shows(item: Item, s: Shape)
      reads this, repr
      decreases repr, 0
    {
      match item
      case Null => s == Empty
      case Scalar(text) => s == Plain(text)
      case Sub(m) => m in repr && m.repr < repr && this !in m.repr && m.Valid() && m.shape == s
    }

    ghost predicate Valid()
      reads this, repr
      decreases repr, 1
    {
      && this in repr
      && shape.Held? && shape.id == this && shape.kids.Keys == entries.Keys
      && (forall k :: k in entries ==> Shows(entries[k], shape.kids[k]))
      && (forall j, k :: j in entries && k in entries && j != k && entries[j].Sub? && entries[k].Sub? ==>
            entries[j].mapping.repr !! entries[k].mapping.repr)
    }

    constructor ()
      ensures Valid() && fresh(repr) && shape == Held(this, map[])
    {
      entries := map[];
      shape := Held(this, map[]);
      repr := {this};
    }

    /** dst[k] = v for anything but a mapping. */
    method Put(k: string, item: Item, ghost s: Shape)
      requires Valid() && ((item.Null? && s == Empty) || (item.Scalar? && s == Plain(item.text)))
      modifies this
      ensures Valid() && repr == old(repr)
      ensures entries == old(entries)[k := item]
      ensures shape == Held(this, old(shape).kids[k := s])
    {
      entries := entries[k := item];
      shape := Held(this, shape.kids[k := s]);
    }

    /** dst[k] = v for a mapping: from now on it belongs to both trees. */
    method Adopt(k: string, m: Mapping)
      requires Valid() && m.Valid() && m.repr !! repr
      modifies this
      ensures Valid() && repr == old(repr) + m.repr
      ensures entries == old(entries)[k := Sub(m)]
      ensures shape == Held(this, old(shape).kids[k := m.shape])
    {
      entries := entries[k := Sub(m)];
      shape := Held(this, shape.kids[k := m.shape]);
      repr := repr + m.repr;
    }

    /** The contents of another mapping instead of its own. */
    method Assign(m: Mapping)
      requires Valid() && m.Valid() && m.repr !! repr
      modifies this
      ensures Valid() && repr == {this} + m.repr && shape == Held(this, m.shape.kids)
    {
      entries := m.entries;
      shape, repr := Held(this, m.shape.kids), {this} + m.repr;
    }

    /** Both hold a mapping at k: the source's is merged into the destination's. */
    method MergeAt(k: string, sub: Mapping)
      requires Valid() && k in entries && entries[k].Sub?
      requires sub.Valid() && sub.repr !! repr
      modifies this, entries[k].mapping.repr
      ensures Valid() && entries == old(entries) && repr <= old(repr) + sub.repr
      ensures shape == Held(this, old(shape).kids[k := Blend(old(shape).kids[k], sub.shape)])
      ensures forall j :: j in entries && j != k && entries[j].Sub? ==>
                entries[j].mapping.repr == old(entries[j].mapping.repr)
      decreases sub.shape, 2
    {
      var mine := entries[k].mapping;
      assert Shows(entries[k], shape.kids[k]);
      mine.MergeInto(sub);
      assert this !in mine.repr;
      forall j | j in entries && j != k && entries[j].Sub?
        ensures Apart(entries[j].mapping, mine) && entries[j].mapping.shape == shape.kids[j]
        ensures entries[j].mapping.repr == old(entries[j].mapping.repr)
      {
        var m := entries[j].mapping;
        assert old(Shows(entries[j], shape.kids[j]));
        assert old(m.Valid()) && m in old(m.repr) && old(m.repr) !! old(mine.repr);
        assert m.repr == old(m.repr) && m.shape == old(m.shape);
        assert m.Valid();
      }
      Mend(k, mine);
    }

    /** m is a tree of its own, and this mapping is in neither. */
    ghost predicate Apart(m: Mapping, mine: Mapping)
      reads m, m.repr, mine
    {
      m.Valid() && m.repr !! mine.repr && this !in m.repr && this !in mine.repr
    }

    /** The ghost fields follow what happened to the mapping at k. */
    ghost method Mend(k: string, mine: Mapping)
      requires k in entries && entries[k] == Sub(mine) && mine.Valid() && this !in mine.repr
      requires this in repr && shape.Held? && shape.id == this && shape.kids.Keys == entries.Keys
      requires forall j :: j in entries && j != k && !entries[j].Sub? ==> Shows(entries[j], shape.kids[j])
      requires forall j :: j in entries && j != k && entries[j].Sub? ==>
                 && Apart(entries[j].mapping, mine) && entries[j].mapping.shape == shape.kids[j]
                 && entries[j].mapping.repr < repr
      requires forall i, j :: i in entries && j in entries && i != k && j != k && i != j
                              && entries[i].Sub? && entries[j].Sub? ==>
                 entries[i].mapping.repr !! entries[j].mapping.repr
      modifies this`shape, this`repr
      ensures Valid() && repr == old(repr) + mine.repr
      ensures shape == Held(this, old(shape).kids[k := mine.shape])
    {
      shape := Held(this, shape.kids[k := mine.shape]);
      repr := repr + mine.repr;
    }

    /** The keys left to merge: below them the source is still apart, and this tree is still its old self. */
    ghost predicate Pending(src: Mapping, rest: set<string>, home: set<Mapping>)
      requires Valid() && src.Valid()
      reads this, repr, src, src.repr
    {
      && rest <= src.entries.Keys
      && (forall k :: k in rest ==> Clear(src, k) && Homely(k, home))
    }

    ghost predicate Clear(src: Mapping, k: string)
      requires src.Valid() && k in src.entries
      reads this, src, src.repr
    {
      assert src.Shows(src.entries[k], src.shape.kids[k]);
      src.entries[k].Sub? ==> src.entries[k].mapping.repr !! repr
    }

    ghost predicate Homely(k: string, home: set<Mapping>)
      requires Valid()
      reads this, repr
    {
      assert k in entries ==> Shows(entries[k], shape.kids[k]);
      k in entries && entries[k].Sub? ==> entries[k].mapping.repr <= home
    }

    /** One round of the loop: key k of the source. */
    method MergeKey(src: Mapping, k: string, ghost rest: set<string>, ghost home: set<Mapping>)
      requires Valid() && src.Valid() && this in home && home !! src.repr && src !in repr
      requires k in rest && Pending(src, rest, home)
      modifies home
      ensures Valid() && src.Valid() && src.entries == old(src.entries) && src.shape == old(src.shape)
      ensures src.repr == old(src.repr) && src !in repr && repr <= old(repr) + src.repr
      ensures shape == Held(this, old(shape).kids[k := if k in old(entries) then Blend(old(shape).kids[k], src.shape.kids[k])
                                                       else src.shape.kids[k]])
      ensures Pending(src, rest - {k}, home)
      decreases src.shape, 0
    {
      assert src.Shows(src.entries[k], src.shape.kids[k]);
      assert Clear(src, k) && Homely(k, home);
      match src.entries[k]
      case Sub(sub) =>
        if k in entries && entries[k].Sub? {
          MergeAt(k, sub);
        } else {
          Adopt(k, sub);
        }
      case Null => Put(k, Null, Empty);
      case Scalar(text) => Put(k, Scalar(text), Plain(text));
    }

    /** mergeMaps(this, src), the keys of src in any order. */
    method MergeInto(src: Mapping)
      requires Valid() && src.Valid() && src.repr !! repr
      modifies repr
      ensures Valid() && shape == Blend(old(shape), old(src.shape))
      ensures repr <= old(repr) + old(src.repr)
      decreases src.shape, 1
    {
      var rest := src.entries.Keys;
      ghost var start := shape;
      BlendEnds(start, src.shape);
      while rest != {}
        invariant Valid() && src.Valid() && src !in repr
        invariant src.entries == old(src.entries) && src.shape == old(src.shape) && src.repr == old(src.repr)
        invariant shape == PartlyBlended(start, src.shape, rest)
        invariant repr <= old(repr) + src.repr
        invariant Pending(src, rest, old(repr))
        decreases |rest|
      {
        var k :| k in rest;
        BlendOneKey(start, src.shape, rest, k);
        MergeKey(src, k, rest, old(repr));
        rest := rest - {k};
      }
      BlendEnds(start, src.shape);
    }
  }

  lemma {:induction false} HeldByMore(s: Shape, owners: set<Mapping>, more: set<Mapping>)
    requires HeldBy(s, owners) && owners <= more
    ensures HeldBy(s, more)
    decreases s
  {
    if s.Held? {
      forall k | k in s.kids
        ensures HeldBy(s.kids[k], more)
      {
        HeldByMore(s.kids[k], owners, more);
      }
    }
  }

  lemma {:induction false} ShapeHeldBy(m: Mapping)
    requires m.Valid()
    ensures HeldBy(m.shape, m.repr)
    decreases m.repr
  {
    forall k | k in m.shape.kids
      ensures HeldBy(m.shape.kids[k], m.repr)
    {
      assert m.Shows(m.entries[k], m.shape.kids[k]);
      if m.entries[k].Sub? {
        var sub := m.entries[k].mapping;
        ShapeHeldBy(sub);
        HeldByMore(sub.shape, sub.repr, m.repr);
      }
    }
  }

  /** What parsing a document hands over: new mappings throughout. */
  method Build(tree: Tree) returns (m: Mapping)
    ensures fresh(m.repr) && m.Valid() && Erased(m.shape) == Node(tree)
    decreases Node(tree)
  {
    m := new Mapping();
    var rest := tree.Keys;
    while rest != {}
      invariant rest <= tree.Keys && fresh(m.repr) && m.Valid()
      invariant Erased(m.shape) == Node(tree - rest)
      decreases |rest|
    {
      var k :| k in rest;
      ghost var before := m.shape;
      match tree[k] {
        case Nil => m.Put(k, Null, Empty);
        case Leaf(text) => m.Put(k, Scalar(text), Plain(text));
        case Node(kids) =>
          var sub := Build(kids);
          m.Adopt(k, sub);
      }
      ErasedOneMore(before, m.shape, tree, rest, k);
      rest := rest - {k};
    }
    assert tree - {} == tree;
  }

  lemma ErasedOneMore(s: Shape, s': Shape, tree: Tree, rest: set<string>, k: string)
    requires s.Held? && s'.Held? && k in rest && rest <= tree.Keys
    requires Erased(s) == Node(tree - rest)
    requires k in s'.kids && s'.kids == s.kids[k := s'.kids[k]] && Erased(s'.kids[k]) == tree[k]
    ensures Erased(s') == Node(tree - (rest - {k}))
  {
    assert Erased(s').entries == Erased(s).entries[k := tree[k]];
    assert (tree - rest)[k := tree[k]] == tree - (rest - {k});
  }

  method SnapshotItem(item: Item, ghost s: Shape) returns (v: Value)
    requires item == ItemOf(s) && (item.Sub? ==> item.mapping.Valid() && item.mapping.shape == s)
    ensures v == Erased(s)
    decreases s, 1
  {
    match item
    case Null => v := Nil;
    case Scalar(text) => v := Leaf(text);
    case Sub(sub) =>
      var part := Snapshot(sub);
      v := Node(part);
  }

  /** An entry of a valid mapping. */
  lemma EntryShows(m: Mapping, k: string)
    requires m.Valid() && k in m.entries
    ensures k in m.shape.kids && m.entries[k] == ItemOf(m.shape.kids[k])
    ensures m.entries[k].Sub? ==> m.entries[k].mapping.Valid() && m.entries[k].mapping.shape == m.shape.kids[k]
  {
    assert m.Shows(m.entries[k], m.shape.kids[k]);
    if m.entries[k].Sub? {
      assert m.entries[k].mapping.Valid();
    }
  }

  lemma OneKidMore(kids: Tree, rest: set<string>, k: string)
    requires k in rest && rest <= kids.Keys
    ensures (kids - rest)[k := kids[k]] == kids - (rest - {k})
  {
  }

  /** The tree that a mapping stands for, read off it. */
  method Snapshot(m: Mapping) returns (tree: Tree)
    requires m.Valid()
    ensures Node(tree) == Erased(m.shape)
    decreases m.shape, 0
  {
    tree := map[];
    var rest := m.entries.Keys;
    ghost var kids := Erased(m.shape).entries;
    assert kids - rest == map[];
    while rest != {}
      invariant rest <= m.entries.Keys && tree == kids - rest
      decreases |rest|
    {
      var k :| k in rest;
      EntryShows(m, k);
      assert kids[k] == Erased(m.shape.kids[k]);
      var v := SnapshotItem(m.entries[k], m.shape.kids[k]);
      OneKidMore(kids, rest, k);
      tree := tree[k := v];
      rest := rest - {k};
    }
    assert kids - {} == kids;
  }

  /** getValue: walking down the parts of a dotted key. */
  method GetValue(data: Mapping, key: string) returns (item: Item)
    requires data.Valid()
    ensures item == ItemOf(Find(data.shape, Split(key, '.')))
  {
    var parts := Split(key, '.');
    item := Sub(data);
    ghost var at := data.shape;
    for i := 0 to |parts|
      invariant item == ItemOf(at) && Find(at, parts[i..]) == Find(data.shape, parts)
      invariant item.Sub? ==> item.mapping.Valid() && item.mapping.shape == at
    {
      assert parts[i..][0] == parts[i] && parts[i..][1..] == parts[i + 1..];
      if !item.Sub? || parts[i] !in item.mapping.entries {
        return Null;
      }
      var m := item.mapping;
      EntryShows(m, parts[i]);
      item, at := m.entries[parts[i]], m.shape.kids[parts[i]];
      if item == Null {
        return;
      }
    }
  }

  /** The configuration: its data and the cache of values already asked for. */
  class Store {
    var data: Mapping
    var cached: map<string, Item>

    ghost predicate Valid()
      reads this, data, data.repr
    {
      data.Valid()
    }

    ghost function Tree(): Value
      reads this, data
    {
      Erased(data.shape)
    }

    /** What looking the key up in the data gives. */
    ghost function Found(key: string): Item
      reads this, data
    {
      ItemOf(Find(data.shape, Split(key, '.')))
    }

    /** Every cached value is what looking the key up would give. */
    ghost predicate Coherent()
      reads this, data
    {
      forall key :: key in cached ==> cached[key] == Found(key)
    }

    constructor ()
      ensures Valid() && fresh(data.repr) && Tree() == Node(map[]) && cached == map[] && Coherent()
    {
      data := new Mapping();
      cached := map[];
    }

    /** The decoder, from a parsed document on. */
    method Decode(d: Doc) returns (ok: bool, ghost src: Shape, ghost owners: set<Mapping>)
      requires Valid()
      modifies data.repr
      ensures Valid() && fresh(data.repr - old(data.repr))
      ensures ok <==> d.Parsed?
      ensures data.shape == if ok then Blend(old(data.shape), src) else old(data.shape)
      ensures fresh(owners) && (ok ==> Erased(src) == Node(d.tree) && HeldBy(src, owners))
    {
      src, owners := Empty, {};
      if d.Unreadable? {
        return false, src, owners;
      }
      var parsed := Build(d.tree);
      src, owners := parsed.shape, parsed.repr;
      ShapeHeldBy(parsed);
      data.MergeInto(parsed);
      ok := true;
    }

    /** The data is `start` with the documents merged in, all of them on mappings of their own. */
    ghost predicate Traced(start: Shape, srcs: seq<Shape>, owners: set<Mapping>)
      reads this, data
    {
      data.shape == BlendAll(start, srcs) && AllHeld(srcs) && AllHeldBy(srcs, owners)
    }

    /** The inner loop of Load. */
    method DecodeUntilError(docs: seq<Doc>, ghost start: Shape, ghost before: seq<Shape>, ghost owned: set<Mapping>)
        returns (ok: bool, ghost srcs: seq<Shape>, ghost owners: set<Mapping>)
      requires Valid() && Traced(start, before, owned)
      modifies data.repr
      ensures Valid() && fresh(data.repr - old(data.repr))
      ensures Traced(start, srcs, owners) && fresh(owners - owned)
      ensures ok <==> Unreadable !in docs
      ensures ErasedAll(srcs) == ErasedAll(before) + UpToError(docs)
    {
      srcs, owners := before, owned;
      for i := 0 to |docs|
        invariant Valid() && fresh(data.repr - old(data.repr))
        invariant Traced(start, srcs, owners) && fresh(owners - owned) && Unreadable !in docs[..i]
        invariant ErasedAll(srcs) + UpToError(docs[i..]) == ErasedAll(before) + UpToError(docs)
      {
        NextDoc(docs, i, ErasedAll(srcs));
        ghost var src, more;
        ok, src, more := Decode(docs[i]);
        if !ok {
          return;
        }
        TraceMore(start, srcs, owners, src, more);
        srcs, owners := srcs + [src], owners + more;
      }
      assert docs[..|docs|] == docs;
      ok := true;
    }

    /** The loop of Load over the sources. */
    method LoadSources(batches: seq<Batch>) returns (ok: bool, ghost srcs: seq<Shape>, ghost owners: set<Mapping>)
      requires Valid()
      modifies data.repr
      ensures Valid() && fresh(data.repr - old(data.repr))
      ensures Traced(old(data.shape), srcs, owners) && fresh(owners)
      ensures ok <==> !Fails(batches)
      ensures ErasedAll(srcs) == Usable(batches)
    {
      srcs, owners := [], {};
      for i := 0 to |batches|
        invariant Valid() && fresh(data.repr - old(data.repr))
        invariant Traced(old(data.shape), srcs, owners) && fresh(owners)
        invariant Fails(batches[i..]) == Fails(batches)
        invariant ErasedAll(srcs) + Usable(batches[i..]) == Usable(batches)
      {
        NextBatch(batches, i, ErasedAll(srcs));
        if batches[i].Failed? {
          return false, srcs, owners;
        }
        ok, srcs, owners := DecodeUntilError(batches[i].docs, old(data.shape), srcs, owners);
        if !ok {
          return;
        }
      }
      ok := true;
    }

    /** The placeholder resolver: it answers what it leaves in the data, and whether it succeeded. */
    method Resolve(resolver: Tree -> (Tree, bool)) returns (ok: bool)
      requires Valid()
      modifies data.repr
      ensures Valid() && fresh(data.repr - old(data.repr))
      ensures var answer := resolver(old(Tree()).entries); Tree() == Node(answer.0) && ok == answer.1
    {
      var tree := Snapshot(data);
      var answer := resolver(tree);
      var resolved := Build(answer.0);
      data.Assign(resolved);
      ok := answer.1;
    }

    /**
      Load: every source in turn, until one fails or brings something unreadable, and then the
      resolver.  The cache is not touched.  Unless a resolver ran, each cached value is still
      what its key leads to exactly when the documents say so: StaysRight.
      */
    method Load(batches: seq<Batch>, resolver: Option<Tree -> (Tree, bool)>) returns (ok: bool)
      requires Valid()
      modifies data.repr
      ensures Valid() && fresh(data.repr - old(data.repr))
      ensures var o := Absorb(old(Tree()), Documents(batches));
        if o.ok && resolver.Some? && o.data.Node? then
          var answer := resolver.value(o.data.entries);
          Tree() == Node(answer.0) && ok == answer.1
        else Outcome(Tree(), ok) == o
      ensures resolver.None? ==> (ok <==> forall b :: b in batches ==> b.Loaded? && Unreadable !in b.docs)
      ensures old(Coherent()) && (resolver.None? || Unreadable in Documents(batches)) ==>
                forall key :: key in cached ==>
                  (cached[key] == Found(key) <==>
                   StaysRight(cached[key], UpToError(Documents(batches)), Split(key, '.')))
    {
      ghost var srcs, owners;
      ok, srcs, owners := LoadSources(batches);
      AbsorbMeans(old(Tree()), Documents(batches));
      FailsExactlyWhen(batches);
      BlendAllErases(old(data.shape), srcs);
      forall key | old(Coherent()) && key in cached
        ensures cached[key] == Found(key) <==> StaysRight(cached[key], ErasedAll(srcs), Split(key, '.'))
      {
        assert cached[key].Sub? ==> cached[key].mapping !in owners;
        CachedStays(old(data.shape), srcs, owners, Split(key, '.'), cached[key]);
      }
      if ok && resolver.Some? {
        ok := Resolve(resolver.value);
      }
    }

    /** One round of watchSource: unreadable documents are skipped, and the cache starts afresh. */
    method Update(docs: seq<Doc>)
      requires Valid()
      modifies this`cached, data.repr
      ensures Valid() && fresh(data.repr - old(data.repr))
      ensures Tree() == Merged(old(Tree()), Readable(docs))
      ensures cached == if docs == [] then old(cached) else map[]
    {
      if docs == [] {
        return;
      }
      for i := 0 to |docs|
        invariant Valid() && fresh(data.repr - old(data.repr))
        invariant Merged(Tree(), Readable(docs[i..])) == Merged(old(Tree()), Readable(docs))
      {
        ReadableNext(docs, i);
        ghost var before := data.shape;
        var ok, src, _ := Decode(docs[i]);
        if ok {
          BlendErases(before, src);
        }
      }
      cached := map[];
    }

    /**
      Value: a cached value, or the one looked up, which is then cached unless it is null.  A
      cached mapping is the live one: later merges into it show.
      */
    method Get(key: string) returns (item: Item)
      requires Valid()
      modifies this`cached
      ensures Valid()
      ensures key in old(cached) ==> item == old(cached)[key] && cached == old(cached)
      ensures key !in old(cached) ==> item == Found(key)
      ensures key !in old(cached) ==> cached == if item == Null then old(cached) else old(cached)[key := item]
      ensures old(Coherent()) ==> Coherent() && item == Found(key)
    {
      if key in cached {
        return cached[key];
      }
      item := GetValue(data, key);
      if item == Null {
        return;
      }
      cached := cached[key := item];
    }
  }

  ghost predicate AllHeldBy(srcs: seq<Shape>, owners: set<Mapping>) {
    forall i :: 0 <= i < |srcs| ==> HeldBy(srcs[i], owners)
  }

  lemma TraceMore(start: Shape, srcs: seq<Shape>, owners: set<Mapping>, src: Shape, more: set<Mapping>)
    requires AllHeld(srcs) && AllHeldBy(srcs, owners) && Erased(src).Node? && HeldBy(src, more)
    ensures AllHeld(srcs + [src]) && AllHeldBy(srcs + [src], owners + more)
    ensures ErasedAll(srcs + [src]) == ErasedAll(srcs) + [Erased(src)]
    ensures BlendAll(start, srcs + [src]) == Blend(BlendAll(start, srcs), src)
  {
    assert (srcs + [src])[..|srcs|] == srcs;
    forall i | 0 <= i < |srcs + [src]|
      ensures HeldBy((srcs + [src])[i], owners + more)
    {
      if i < |srcs| {
        HeldByMore(srcs[i], owners, owners + more);
      } else {
        HeldByMore(src, more, owners + more);
      }
    }
  }

  predicate Fails(batches: seq<Batch>) { Unreadable in Documents(batches) }

  /** A source fails, or one of its documents cannot be read. */
  lemma {:induction false} FailsExactlyWhen(batches: seq<Batch>)
    ensures !Fails(batches) <==> forall b :: b in batches ==> b.Loaded? && Unreadable !in b.docs
    decreases |batches|
  {
    if batches != [] {
      FailsExactlyWhen(batches[1..]);
      assert batches == [batches[0]] + batches[1..];
    }
  }

  /** The trees that are merged. */
  function Usable(batches: seq<Batch>): seq<Value> { UpToError(Documents(batches)) }

  /** The next document is unreadable, or is merged. */
  lemma NextDoc(docs: seq<Doc>, i: nat, got: seq<Value>)
    requires i < |docs| && Unreadable !in docs[..i]
    ensures docs[i].Unreadable? ==> Unreadable in docs && got + UpToError(docs[i..]) == got
    ensures docs[i].Parsed? ==> Unreadable !in docs[..i + 1]
    ensures docs[i].Parsed? ==>
              got + UpToError(docs[i..]) == (got + [Node(docs[i].tree)]) + UpToError(docs[i + 1..])
  {
    assert docs[i..][1..] == docs[i + 1..] && docs[..i + 1] == docs[..i] + [docs[i]];
  }

  /** The next source fails, or brings the next documents. */
  lemma NextBatch(batches: seq<Batch>, i: nat, got: seq<Value>)
    requires i < |batches| && Fails(batches[i..]) == Fails(batches)
    requires got + Usable(batches[i..]) == Usable(batches)
    ensures var b, more := batches[i], batches[i + 1..];
      if b.Failed? then Fails(batches) && got == Usable(batches)
      else
        && (Unreadable in b.docs ==> Fails(batches) && got + UpToError(b.docs) == Usable(batches))
        && (Unreadable !in b.docs ==>
              Fails(more) == Fails(batches) && (got + UpToError(b.docs)) + Usable(more) == Usable(batches))
  {
    assert batches[i..][1..] == batches[i + 1..];
    if batches[i].Loaded? {
      UpToErrorSplit(batches[i].docs, Documents(batches[i + 1..]));
    }
  }

  /** A cached item is none of the mappings that the documents brought. */
  lemma CachedStays(s: Shape, srcs: seq<Shape>, owners: set<Mapping>, path: Path, item: Item)
    requires s.Held? && AllHeld(srcs) && AllHeldBy(srcs, owners)
    requires item == ItemOf(Find(s, path)) && (item.Sub? ==> item.mapping !in owners)
    ensures ItemOf(Find(BlendAll(s, srcs), path)) == item <==> StaysRight(item, ErasedAll(srcs), path)
  {
    if item.Sub? {
      forall i | 0 <= i < |srcs|
        ensures ItemOf(Find(srcs[i], path)) != item
      {
        FindHeldBy(srcs[i], path, owners);
      }
      MappingStays(s, srcs, path, item);
    } else {
      PlainStays(s, srcs, path);
    }
  }

  /** One source with one document: key := text. */
  function Single(key: string, text: string): seq<Batch> { [Loaded([Parsed(map[key := Leaf(text)])])] }

  lemma SingleAbsorbs(data: Value, key: string, text: string)
    requires data.Node?
    ensures Absorb(data, Documents(Single(key, text))) == Outcome(Merge(data, Node(map[key := Leaf(text)])), true)
    ensures Lookup(Merge(data, Node(map[key := Leaf(text)])), [key]) == Leaf(text)
  {
    var docs := [Parsed(map[key := Leaf(text)])];
    assert Documents(Single(key, text)) == docs + [];
    assert docs + [] == docs && docs[1..] == [] && [key][1..] == [];
  }

  method LoadOne(store: Store, key: string, text: string)
    requires store.Valid() && Free(key, '.')
    modifies store.data.repr
    ensures store.Valid() && fresh(store.data.repr - old(store.data.repr))
    ensures store.Found(key) == Scalar(text)
  {
    SplitFree(key, '.');
    SingleAbsorbs(store.Tree(), key, text);
    var _ := store.Load(Single(key, text), None);
    FindLooksUp(store.data.shape, [key]);
  }

  /** Load does not clear the cache: a value read before it is returned after it, although the data has changed. */
  method ReadLoadRead(key: string, text: string, text': string) returns (store: Store, before: Item, after: Item)
    requires Free(key, '.')
    ensures store.Valid() && before == after == Scalar(text) && store.Found(key) == Scalar(text')
  {
    store := new Store();
    LoadOne(store, key, text);
    before := store.Get(key);
    LoadOne(store, key, text');
    after := store.Get(key);
  }
}
