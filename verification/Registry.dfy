/**
  The in-memory registry on values (registry/memory.go): the service table, the events that
  describe its changes, and what a watcher can rebuild from them.
  */
module Registry {
  import opened Wrappers

  /** `version` stands for the payload fields the registry never looks at. */
  datatype Service = Service(name: string, id: string, version: string, ttl: int, lastSeen: int, healthy: bool)

  datatype Kind = Create | Update | Delete

  datatype Event = Event(kind: Kind, service: Service)

  type Table = map<string, seq<Service>>

  /** An absent name and an empty list look the same to every reader. */
  function Lookup(t: Table, name: string): seq<Service> { if name in t then t[name] else [] }

  predicate Has(list: seq<Service>, id: string) { exists i :: 0 <= i < |list| && list[i].id == id }

  predicate UniqueIds(list: seq<Service>) {
    forall i, j :: 0 <= i < j < |list| ==> list[i].id != list[j].id
  }

  /** The list with the first service of that ID replaced. */
  function Replace(list: seq<Service>, s: Service): seq<Service> {
    if list == [] then []
    else if list[0].id == s.id then [s] + list[1..]
    else [list[0]] + Replace(list[1..], s)
  }

  /** The list without the first service of that ID. */
  function Without(list: seq<Service>, id: string): seq<Service> {
    if list == [] then []
    else if list[0].id == id then list[1..]
    else [list[0]] + Without(list[1..], id)
  }

  predicate Expired(s: Service, now: int) { s.ttl != 0 && now - s.lastSeen >= s.ttl }

  function Active(list: seq<Service>, now: int): seq<Service> {
    if list == [] then []
    else (if Expired(list[0], now) then [] else [list[0]]) + Active(list[1..], now)
  }

  function Stamped(s: Service, now: int): Service { s.(lastSeen := now, healthy := true) }

  // ------------------------------------------------------------------------------
  // The operations on the table
  // ------------------------------------------------------------------------------

  function Registered(t: Table, s: Service, now: int): Table {
    var list := Lookup(t, s.name);
    t[s.name := if Has(list, s.id) then Replace(list, Stamped(s, now)) else list + [Stamped(s, now)]]
  }

  function RegisterEvent(t: Table, s: Service, now: int): Event {
    Event(if Has(Lookup(t, s.name), s.id) then Update else Create, Stamped(s, now))
  }

  function Deregistered(t: Table, s: Service): Table {
    if Has(Lookup(t, s.name), s.id) then t[s.name := Without(t[s.name], s.id)] else t
  }

  function Cleaned(t: Table, now: int): Table {
    map name | name in t && Active(t[name], now) != [] :: Active(t[name], now)
  }

  predicate Usable(s: Service, now: int) { s.healthy && !Expired(s, now) }

  /** The filter of GetService and ListServices. */
  function Live(list: seq<Service>, now: int): seq<Service> {
    if list == [] then []
    else
      var n := |list| - 1;
      Live(list[..n], now) + (if Usable(list[n], now) then [list[n]] else [])
  }

  lemma {:induction false} LiveMembers(list: seq<Service>, now: int)
    ensures forall s :: s in Live(list, now) <==> s in list && Usable(s, now)
    decreases |list|
  {
    if list != [] {
      LiveMembers(list[..|list| - 1], now);
      assert list == list[..|list| - 1] + [list[|list| - 1]];
    }
  }

  lemma {:induction false} LiveUnique(list: seq<Service>, now: int)
    requires UniqueIds(list)
    ensures UniqueIds(Live(list, now))
    decreases |list|
  {
    if list != [] {
      var before, s := list[..|list| - 1], list[|list| - 1];
      LiveUnique(before, now);
      LiveMembers(before, now);
      forall i | 0 <= i < |Live(before, now)|
        ensures Live(before, now)[i].id != s.id
      {
        assert Live(before, now)[i] in before;
      }
    }
  }

  /** GetService: not found when nothing usable is left. */
  function Get(t: Table, name: string, now: int): Option<seq<Service>> {
    var live := Live(Lookup(t, name), now);
    if live == [] then None else Some(live)
  }

  // ------------------------------------------------------------------------------
  // Replaying events
  // ------------------------------------------------------------------------------

  function ReplayOne(list: seq<Service>, e: Event): seq<Service> {
    match e.kind
    case Create => list + [e.service]
    case Update => Replace(list, e.service)
    case Delete => Without(list, e.service.id)
  }

  /** The events about one name, in order: what a watcher filtered on it receives. */
  function About(es: seq<Event>, name: string): seq<Event> {
    if es == [] then []
    else
      var n := |es| - 1;
      About(es[..n], name) + (if es[n].service.name == name then [es[n]] else [])
  }

  function ReplayList(list: seq<Service>, es: seq<Event>): seq<Service> {
    if es == [] then list else ReplayOne(ReplayList(list, es[..|es| - 1]), es[|es| - 1])
  }

  function ApplyEvent(t: Table, e: Event): Table {
    t[e.service.name := ReplayOne(Lookup(t, e.service.name), e)]
  }

  /** Replaying events over a whole table. */
  function Replay(t: Table, es: seq<Event>): Table {
    if es == [] then t else ApplyEvent(Replay(t, es[..|es| - 1]), es[|es| - 1])
  }

  /** The event fits what it is applied to: Create for an absent ID, the others for a present one. */
  predicate Fits(t: Table, e: Event) {
    e.kind.Create? <==> !Has(Lookup(t, e.service.name), e.service.id)
  }

  predicate AllFit(t: Table, es: seq<Event>) {
    es == [] || (AllFit(t, es[..|es| - 1]) && Fits(Replay(t, es[..|es| - 1]), es[|es| - 1]))
  }

  ghost predicate Same(t: Table, u: Table) { forall name :: Lookup(t, name) == Lookup(u, name) }

  lemma AboutAppend(es: seq<Event>, e: Event, name: string)
    ensures About(es + [e], name) == About(es, name) + (if e.service.name == name then [e] else [])
  {
    assert (es + [e])[..|es|] == es;
  }

  lemma ReplayListAppend(list: seq<Service>, es: seq<Event>, e: Event)
    ensures ReplayList(list, es + [e]) == ReplayOne(ReplayList(list, es), e)
  {
    assert (es + [e])[..|es|] == es;
  }

  lemma ReplayAppend(t: Table, es: seq<Event>, e: Event)
    ensures Replay(t, es + [e]) == ApplyEvent(Replay(t, es), e)
  {
    assert (es + [e])[..|es|] == es;
  }

  lemma FitAppend(t: Table, es: seq<Event>, e: Event)
    ensures AllFit(t, es + [e]) <==> AllFit(t, es) && Fits(Replay(t, es), e)
  {
    assert (es + [e])[..|es|] == es;
  }

  /** Replay works name by name, so each name needs only its own events. */
  lemma {:induction false} ReplayByName(t: Table, es: seq<Event>, name: string)
    ensures Lookup(Replay(t, es), name) == ReplayList(Lookup(t, name), About(es, name))
    decreases |es|
  {
    if es != [] {
      var n := |es| - 1;
      ReplayByName(t, es[..n], name);
      ReplayListAppend(Lookup(t, name), About(es[..n], name), es[n]);
      if es[n].service.name != name {
        assert About(es, name) == About(es[..n], name);
      }
    }
  }

  /** Filtering first and replaying then gives the same list as replaying everything. */
  lemma {:induction false} AboutTwice(es: seq<Event>, name: string)
    ensures About(About(es, name), name) == About(es, name)
    decreases |es|
  {
    if es != [] {
      var n := |es| - 1;
      AboutTwice(es[..n], name);
      AboutAppend(About(es[..n], name), es[n], name);
      if es[n].service.name != name {
        assert About(es, name) == About(es[..n], name);
      }
    }
  }

  lemma FilteredReplay(t: Table, es: seq<Event>, name: string)
    ensures Lookup(Replay(t, About(es, name)), name) == Lookup(Replay(t, es), name)
  {
    ReplayByName(t, es, name);
    ReplayByName(t, About(es, name), name);
    AboutTwice(es, name);
  }

  lemma {:induction false} ReplaySplit(t: Table, xs: seq<Event>, ys: seq<Event>)
    ensures Replay(t, xs + ys) == Replay(Replay(t, xs), ys)
    decreases |ys|
  {
    if ys == [] {
      assert xs + ys == xs;
    } else {
      ReplaySplit(t, xs, ys[..|ys| - 1]);
      assert (xs + ys)[..|xs + ys| - 1] == xs + ys[..|ys| - 1];
    }
  }

  lemma {:induction false} FitSplit(t: Table, xs: seq<Event>, ys: seq<Event>)
    ensures AllFit(t, xs + ys) <==> AllFit(t, xs) && AllFit(Replay(t, xs), ys)
    decreases |ys|
  {
    if ys == [] {
      assert xs + ys == xs;
    } else {
      var n := |ys| - 1;
      FitSplit(t, xs, ys[..n]);
      ReplaySplit(t, xs, ys[..n]);
      assert xs + ys == (xs + ys[..n]) + [ys[n]];
      FitAppend(t, xs + ys[..n], ys[n]);
    }
  }

  lemma FitsSame(t: Table, u: Table, e: Event)
    requires Lookup(t, e.service.name) == Lookup(u, e.service.name)
    ensures Fits(t, e) == Fits(u, e)
  {
  }

  /** A filtered log still fits: each event is about the same list as before. */
  lemma {:induction false} FilteredFit(t: Table, es: seq<Event>, name: string)
    requires AllFit(t, es)
    ensures AllFit(t, About(es, name))
    decreases |es|
  {
    if es != [] {
      var n := |es| - 1;
      FilteredFit(t, es[..n], name);
      if es[n].service.name == name {
        FilteredReplay(t, es[..n], name);
        FitsSame(Replay(t, About(es[..n], name)), Replay(t, es[..n]), es[n]);
        FitAppend(t, About(es[..n], name), es[n]);
      } else {
        assert About(es, name) == About(es[..n], name);
      }
    }
  }

  lemma {:induction false} SameFit(t: Table, u: Table, es: seq<Event>)
    requires Same(t, u) && AllFit(t, es)
    ensures AllFit(u, es)
    decreases |es|
  {
    if es != [] {
      var n := |es| - 1;
      SameFit(t, u, es[..n]);
      SameReplay(t, u, es[..n], es[n].service.name);
      FitsSame(Replay(t, es[..n]), Replay(u, es[..n]), es[n]);
    }
  }

  /** Replay respects the reading of empty lists as absent. */
  lemma SameReplay(t: Table, u: Table, es: seq<Event>, name: string)
    requires Same(t, u)
    ensures Lookup(Replay(t, es), name) == Lookup(Replay(u, es), name)
  {
    ReplayByName(t, es, name);
    ReplayByName(u, es, name);
    assert Lookup(t, name) == Lookup(u, name);
  }

  // ------------------------------------------------------------------------------
  // Every change of the table is told by its events
  // ------------------------------------------------------------------------------

  ghost predicate Wellformed(t: Table) {
    forall name :: name in t ==> UniqueIds(t[name]) && forall i :: 0 <= i < |t[name]| ==> t[name][i].name == name
  }

  lemma FirstAt(list: seq<Service>, id: string) returns (k: nat)
    requires Has(list, id)
    ensures k < |list| && list[k].id == id && forall i :: 0 <= i < k ==> list[i].id != id
    ensures list == list[..k] + [list[k]] + list[k + 1..]
  {
    k := 0;
    while list[k].id != id
      invariant k < |list| && (forall i :: 0 <= i < k ==> list[i].id != id)
      decreases |list| - k
    {
      var j :| 0 <= j < |list| && list[j].id == id;
      assert j > k;
      k := k + 1;
    }
  }

  lemma {:induction false} WithoutNth(a: seq<Service>, s: Service, b: seq<Service>)
    requires forall i :: 0 <= i < |a| ==> a[i].id != s.id
    ensures Without(a + [s] + b, s.id) == a + b
    decreases |a|
  {
    if a == [] {
      assert [] + [s] + b == [s] + b;
    } else {
      assert (a + [s] + b)[1..] == a[1..] + [s] + b;
      WithoutNth(a[1..], s, b);
      assert a + b == [a[0]] + (a[1..] + b);
    }
  }

  lemma {:induction false} ReplaceNth(a: seq<Service>, old': Service, b: seq<Service>, s: Service)
    requires old'.id == s.id && forall i :: 0 <= i < |a| ==> a[i].id != s.id
    ensures Replace(a + [old'] + b, s) == a + [s] + b
    decreases |a|
  {
    if a == [] {
      assert [] + [old'] + b == [old'] + b;
    } else {
      assert (a + [old'] + b)[1..] == a[1..] + [old'] + b;
      ReplaceNth(a[1..], old', b, s);
      assert a + [s] + b == [a[0]] + (a[1..] + [s] + b);
    }
  }

  lemma ReplaceFacts(list: seq<Service>, s: Service) returns (k: nat)
    requires Has(list, s.id)
    ensures k < |list| && list[k].id == s.id && Replace(list, s) == list[k := s]
  {
    k := FirstAt(list, s.id);
    ReplaceNth(list[..k], list[k], list[k + 1..], s);
    assert list[k := s] == list[..k] + [s] + list[k + 1..];
  }

  lemma WithoutFacts(list: seq<Service>, id: string) returns (k: nat)
    requires Has(list, id)
    ensures k < |list| && list[k].id == id && Without(list, id) == list[..k] + list[k + 1..]
  {
    k := FirstAt(list, id);
    WithoutNth(list[..k], list[k], list[k + 1..]);
  }

  lemma RegisterTold(t: Table, s: Service, now: int)
    requires Wellformed(t)
    ensures var e := RegisterEvent(t, s, now);
      && Wellformed(Registered(t, s, now))
      && Fits(t, e)
      && Registered(t, s, now) == ApplyEvent(t, e)
  {
    var list := Lookup(t, s.name);
    if Has(list, s.id) {
      var k := ReplaceFacts(list, Stamped(s, now));
    }
  }

  /** A wellformed list stays one when a service leaves. */
  lemma WithoutKeeps(list: seq<Service>, id: string, name: string)
    requires Has(list, id) && UniqueIds(list)
    requires forall i :: 0 <= i < |list| ==> list[i].name == name
    ensures UniqueIds(Without(list, id))
    ensures forall i :: 0 <= i < |Without(list, id)| ==> Without(list, id)[i].name == name
  {
    var k := WithoutFacts(list, id);
    var rest := Without(list, id);
    assert forall i :: 0 <= i < |rest| ==> rest[i] == list[if i < k then i else i + 1];
  }

  lemma DeregisterTold(t: Table, s: Service)
    requires Wellformed(t) && Has(Lookup(t, s.name), s.id)
    ensures Wellformed(Deregistered(t, s))
    ensures Fits(t, Event(Delete, s))
    ensures Deregistered(t, s) == ApplyEvent(t, Event(Delete, s))
  {
    WithoutKeeps(Lookup(t, s.name), s.id, s.name);
  }

  /** The Delete events of one cleanup round for one list. */
  function Expiries(list: seq<Service>, now: int): seq<Event> {
    if list == [] then []
    else
      var n := |list| - 1;
      Expiries(list[..n], now) + (if Expired(list[n], now) then [Event(Delete, list[n])] else [])
  }

  lemma {:induction false} ActiveAppend(list: seq<Service>, s: Service, now: int)
    ensures Active(list + [s], now) == Active(list, now) + (if Expired(s, now) then [] else [s])
    decreases |list|
  {
    if list == [] {
      assert [s][1..] == [];
    } else {
      assert (list + [s])[1..] == list[1..] + [s];
      ActiveAppend(list[1..], s, now);
    }
  }

  lemma {:induction false} ActiveMembers(list: seq<Service>, now: int)
    ensures forall x :: x in Active(list, now) <==> x in list && !Expired(x, now)
    ensures UniqueIds(list) ==> UniqueIds(Active(list, now))
    decreases |list|
  {
    if list != [] {
      ActiveMembers(list[1..], now);
      assert list == [list[0]] + list[1..];
      if UniqueIds(list) {
        assert forall x :: x in list[1..] ==> x.id != list[0].id;
        assert forall x :: x in Active(list[1..], now) ==> x.id != list[0].id;
      }
    }
  }

  lemma ExpiriesAppend(list: seq<Service>, s: Service, now: int)
    ensures Expiries(list + [s], now) ==
            Expiries(list, now) + (if Expired(s, now) then [Event(Delete, s)] else [])
  {
    assert (list + [s])[..|list|] == list;
  }

  /** The effect of one more service on the replay of a cleanup round. */
  lemma OneExpiry(before: seq<Service>, s: Service, rest: seq<Service>, now: int)
    requires forall x :: x in before ==> x.id != s.id
    ensures ReplayOne(Active(before, now) + ([s] + rest), Event(Delete, s)) == Active(before, now) + rest
  {
    var active := Active(before, now);
    ActiveMembers(before, now);
    assert active + ([s] + rest) == active + [s] + rest;
    WithoutNth(active, s, rest);
  }

  lemma ExpiryStep(list: seq<Service>, before: seq<Service>, s: Service, rest: seq<Service>, now: int)
    requires ReplayList(list, Expiries(before, now)) == Active(before, now) + ([s] + rest)
    requires forall x :: x in before ==> x.id != s.id
    ensures ReplayList(list, Expiries(before + [s], now)) == Active(before + [s], now) + rest
  {
    if Expired(s, now) {
      ExpiredStep(list, before, s, rest, now);
    } else {
      ActiveStep(list, before, s, rest, now);
    }
  }

  lemma ExpiredStep(list: seq<Service>, before: seq<Service>, s: Service, rest: seq<Service>, now: int)
    requires ReplayList(list, Expiries(before, now)) == Active(before, now) + ([s] + rest)
    requires Expired(s, now) && forall x :: x in before ==> x.id != s.id
    ensures ReplayList(list, Expiries(before + [s], now)) == Active(before + [s], now) + rest
  {
    ActiveAppend(before, s, now);
    ExpiriesAppend(before, s, now);
    ReplayListAppend(list, Expiries(before, now), Event(Delete, s));
    OneExpiry(before, s, rest, now);
  }

  lemma ActiveStep(list: seq<Service>, before: seq<Service>, s: Service, rest: seq<Service>, now: int)
    requires ReplayList(list, Expiries(before, now)) == Active(before, now) + ([s] + rest)
    requires !Expired(s, now)
    ensures ReplayList(list, Expiries(before + [s], now)) == Active(before + [s], now) + rest
  {
    ActiveAppend(before, s, now);
    ExpiriesAppend(before, s, now);
    assert (Active(before, now) + [s]) + rest == Active(before, now) + ([s] + rest);
    assert Expiries(before + [s], now) == Expiries(before, now);
  }

  lemma SplitBefore(list: seq<Service>, k: nat)
    requires UniqueIds(list) && 0 < k <= |list|
    ensures list[..k] == list[..k - 1] + [list[k - 1]]
    ensures list[k - 1..] == [list[k - 1]] + list[k..]
    ensures forall x :: x in list[..k - 1] ==> x.id != list[k - 1].id
  {
  }

  /** After the Delete events of the first k services, the rest of the list is still there. */
  lemma {:induction false} ExpiriesTold(list: seq<Service>, k: nat, now: int)
    requires UniqueIds(list) && k <= |list|
    ensures ReplayList(list, Expiries(list[..k], now)) == Active(list[..k], now) + list[k..]
    decreases k
  {
    if k == 0 {
      assert Active(list[..0], now) + list[0..] == list;
    } else {
      ExpiriesTold(list, k - 1, now);
      SplitBefore(list, k);
      ExpiryStep(list, list[..k - 1], list[k - 1], list[k..], now);
    }
  }

  /** The Delete events of a list all concern its name. */
  lemma {:induction false} ExpiriesAbout(list: seq<Service>, name: string, now: int)
    requires forall x :: x in list ==> x.name == name
    ensures About(Expiries(list, now), name) == Expiries(list, now)
    ensures forall other :: other != name ==> About(Expiries(list, now), other) == []
    decreases |list|
  {
    if list != [] {
      var before, s := list[..|list| - 1], list[|list| - 1];
      ExpiriesAbout(before, name, now);
      var es, e := Expiries(before, now), Event(Delete, s);
      if Expired(s, now) {
        forall other
          ensures About(es + [e], other) == if other == name then es + [e] else []
        {
          AboutAppend(es, e, other);
        }
      } else {
        assert Expiries(list, now) == es;
      }
    }
  }

  /** Each Delete event of a list finds its service still there. */
  lemma {:induction false} ExpiriesFit(t: Table, name: string, list: seq<Service>, k: nat, now: int)
    requires UniqueIds(list) && k <= |list| && Lookup(t, name) == list
    requires forall x :: x in list ==> x.name == name
    ensures AllFit(t, Expiries(list[..k], now))
    decreases k
  {
    if k > 0 {
      var before, s := list[..k - 1], list[k - 1];
      ExpiriesFit(t, name, list, k - 1, now);
      SplitBefore(list, k);
      ExpiriesAppend(before, s, now);
      var es := Expiries(before, now);
      if Expired(s, now) {
        assert Has(ReplayList(list, es), s.id) by {
          ExpiriesTold(list, k - 1, now);
          assert (Active(before, now) + list[k - 1..])[|Active(before, now)|] == s;
        }
        ReplayByName(t, es, name);
        ExpiriesAbout(before, name, now);
        FitAppend(t, es, Event(Delete, s));
      } else {
        assert Expiries(list[..k], now) == es;
      }
    }
  }

  /** One list of a cleanup round: its Delete events take the table from `list` to its active part. */
  lemma CleanupTold(t: Table, name: string, list: seq<Service>, now: int)
    requires UniqueIds(list) && Lookup(t, name) == list
    requires forall x :: x in list ==> x.name == name
    ensures AllFit(t, Expiries(list, now))
    ensures forall other :: Lookup(Replay(t, Expiries(list, now)), other) ==
              if other == name then Active(list, now) else Lookup(t, other)
  {
    var n := |list|;
    assert list[..n] == list;
    ExpiriesFit(t, name, list, n, now);
    ExpiriesAbout(list, name, now);
    ExpiriesTold(list, n, now);
    assert Active(list, now) + list[n..] == Active(list, now);
    forall other
      ensures Lookup(Replay(t, Expiries(list, now)), other) ==
              if other == name then Active(list, now) else Lookup(t, other)
    {
      ReplayByName(t, Expiries(list, now), other);
    }
  }

  lemma CleanedWellformed(t: Table, now: int)
    requires Wellformed(t)
    ensures Wellformed(Cleaned(t, now))
  {
    forall name | name in Cleaned(t, now)
      ensures UniqueIds(Active(t[name], now))
      ensures forall i :: 0 <= i < |Active(t[name], now)| ==> Active(t[name], now)[i].name == name
    {
      ActiveMembers(t[name], now);
      forall i | 0 <= i < |Active(t[name], now)|
        ensures Active(t[name], now)[i].name == name
      {
        assert Active(t[name], now)[i] in Active(t[name], now);
      }
    }
  }
}
