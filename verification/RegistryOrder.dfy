/**
  What happens when two calls of registry/memory.go overlap: notify runs after the table
  lock is released, so a watcher may get the two events the other way round.
  */
module RegistryOrder {
  import opened Registry

  /** Getting e2 before e1 rebuilds the same lists, for events that fit in the order e1, e2. */
  predicate Swappable(e1: Event, e2: Event) {
    var s1, s2 := e1.service, e2.service;
    if s1.name != s2.name then true
    else if s1.id != s2.id then !(e1.kind.Create? && e2.kind.Create?)
    else e1.kind.Delete? || (e1.kind.Update? && e2.kind.Delete?) || (e2.kind.Update? && s1 == s2)
  }

  // ------------------------------------------------------------------------------
  // On one list
  // ------------------------------------------------------------------------------

  lemma HasRest(list: seq<Service>, id: string)
    requires list != []
    ensures Has(list, id) <==> list[0].id == id || Has(list[1..], id)
  {
    if Has(list, id) && list[0].id != id {
      var i :| 0 <= i < |list| && list[i].id == id;
      assert list[1..][i - 1].id == id;
    }
    if Has(list[1..], id) {
      var i :| 0 <= i < |list| - 1 && list[1..][i].id == id;
      assert list[i + 1].id == id;
    }
  }

  lemma {:induction false} AbsentKeeps(list: seq<Service>, s: Service)
    requires !Has(list, s.id)
    ensures Replace(list, s) == list && Without(list, s.id) == list
    decreases |list|
  {
    if list != [] {
      HasRest(list, s.id);
      AbsentKeeps(list[1..], s);
    }
  }

  /** A service at the end is out of reach, unless it is the only one of that ID. */
  lemma {:induction false} EndKeeps(list: seq<Service>, x: Service, s: Service)
    requires x.id != s.id || Has(list, s.id)
    ensures Replace(list + [x], s) == Replace(list, s) + [x]
    ensures Without(list + [x], s.id) == Without(list, s.id) + [x]
    decreases |list|
  {
    if list == [] {
      assert [x][1..] == [];
    } else {
      assert (list + [x])[1..] == list[1..] + [x];
      HasRest(list, s.id);
      if list[0].id != s.id {
        EndKeeps(list[1..], x, s);
      }
    }
  }

  lemma {:induction false} EndOnly(list: seq<Service>, x: Service, s: Service)
    requires x.id == s.id && !Has(list, s.id)
    ensures Replace(list + [x], s) == list + [s] && Without(list + [x], s.id) == list
    decreases |list|
  {
    if list == [] {
      assert [x][1..] == [];
    } else {
      assert (list + [x])[1..] == list[1..] + [x];
      HasRest(list, s.id);
      EndOnly(list[1..], x, s);
    }
  }

  lemma {:induction false} OtherIdsCommute(list: seq<Service>, s1: Service, s2: Service)
    requires s1.id != s2.id
    ensures Replace(Replace(list, s1), s2) == Replace(Replace(list, s2), s1)
    ensures Without(Replace(list, s1), s2.id) == Replace(Without(list, s2.id), s1)
    ensures Without(Without(list, s1.id), s2.id) == Without(Without(list, s2.id), s1.id)
    decreases |list|
  {
    if list != [] {
      OtherIdsCommute(list[1..], s1, s2);
    }
  }

  lemma {:induction false} SameIdTwice(list: seq<Service>, s1: Service, s2: Service)
    requires s1.id == s2.id && UniqueIds(list) && Has(list, s1.id)
    ensures Replace(Replace(list, s1), s2) == Replace(list, s2)
    ensures Without(Replace(list, s1), s2.id) == Without(list, s2.id)
    ensures Replace(Without(list, s2.id), s1) == Without(list, s2.id)
    ensures Replace(list, s1) == Replace(list, s2) ==> s1 == s2
    decreases |list|
  {
    HasRest(list, s1.id);
    if list[0].id != s1.id {
      SameIdTwice(list[1..], s1, s2);
    } else {
      AbsentKeeps(list[1..], s1);
    }
  }

  lemma DifferentIds(list: seq<Service>, e1: Event, e2: Event)
    requires e1.service.id != e2.service.id
    ensures ReplayOne(ReplayOne(list, e1), e2) == ReplayOne(ReplayOne(list, e2), e1) <==>
            !(e1.kind.Create? && e2.kind.Create?)
  {
    var s1, s2 := e1.service, e2.service;
    if e1.kind.Create? && e2.kind.Create? {
      assert (list + [s1] + [s2])[|list|] == s1 && (list + [s2] + [s1])[|list|] == s2;
    } else if e1.kind.Create? {
      EndKeeps(list, s1, s2);
    } else if e2.kind.Create? {
      EndKeeps(list, s2, s1);
    } else {
      OtherIdsCommute(list, s1, s2);
      OtherIdsCommute(list, s2, s1);
    }
  }

  predicate FitsList(list: seq<Service>, e: Event) { e.kind.Create? <==> !Has(list, e.service.id) }

  lemma SameId(list: seq<Service>, e1: Event, e2: Event)
    requires UniqueIds(list) && e1.service.id == e2.service.id && e1.service.name == e2.service.name
    requires FitsList(list, e1) && FitsList(ReplayOne(list, e1), e2)
    ensures ReplayOne(ReplayOne(list, e1), e2) == ReplayOne(ReplayOne(list, e2), e1) <==> Swappable(e1, e2)
  {
    var s1, s2 := e1.service, e2.service;
    match e1.kind
    case Create =>
      assert (list + [s1])[|list|].id == s2.id;
      EndOnly(list, s1, s2);
      AbsentKeeps(list, s2);
      assert (list + [s1])[|list|] == s1 && (list + [s2])[|list|] == s2;
    case Update =>
      var k := ReplaceFacts(list, s1);
      assert Replace(list, s1)[k].id == s2.id;
      assert !e2.kind.Create?;
      SameIdTwice(list, s1, s2);
      SameIdTwice(list, s2, s1);
    case Delete =>
      var k := WithoutFacts(list, s1.id);
      assert !Has(Without(list, s1.id), s2.id);
      EndKeeps(list, s2, s1);
  }

  // ------------------------------------------------------------------------------
  // On the table
  // ------------------------------------------------------------------------------

  /**
    Two events told in the wrong order: the lists a watcher rebuilds are right exactly when the
    events are swappable.  A Create and the Delete of the same service, two Creates under one
    name and two different versions of one service are not.
    */
  lemma SwappedNotifies(t: Table, e1: Event, e2: Event)
    requires Wellformed(t) && Fits(t, e1) && Fits(ApplyEvent(t, e1), e2)
    ensures Same(ApplyEvent(ApplyEvent(t, e1), e2), ApplyEvent(ApplyEvent(t, e2), e1)) <==> Swappable(e1, e2)
  {
    var right, wrong := ApplyEvent(ApplyEvent(t, e1), e2), ApplyEvent(ApplyEvent(t, e2), e1);
    var name := e1.service.name;
    if e2.service.name == name {
      var list := Lookup(t, name);
      assert Lookup(right, name) == ReplayOne(ReplayOne(list, e1), e2);
      assert Lookup(wrong, name) == ReplayOne(ReplayOne(list, e2), e1);
      if e1.service.id == e2.service.id {
        SameId(list, e1, e2);
      } else {
        DifferentIds(list, e1, e2);
      }
    }
    assert forall other :: other != name && other != e2.service.name ==> Lookup(right, other) == Lookup(wrong, other);
  }

  /** Such a pair: a registration and a deregistration that overtakes it leave a service that is gone. */
  lemma OvertakenRegistration(s: Service, now: int)
    ensures var t := Registered(map[], s, now);
      var e1, e2 := RegisterEvent(map[], s, now), Event(Delete, s);
      && Lookup(Deregistered(t, s), s.name) == []
      && Lookup(ApplyEvent(ApplyEvent(map[], e2), e1), s.name) == [Stamped(s, now)]
  {
    var t := Registered(map[], s, now);
    assert Lookup(t, s.name) == [Stamped(s, now)];
    assert [Stamped(s, now)][0].id == s.id && [Stamped(s, now)][1..] == [];
  }
}
