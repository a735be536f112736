/**
  Eager expiry refines lazy expiry: the cleanup rounds of registry/memory.go are invisible
  to GetService and ListServices, wherever they fall in a run.
  */
module RegistryExpiry {
  import opened Registry
  import opened Wrappers

  datatype Op = Register(service: Service) | Deregister(service: Service) | Cleanup | Query(name: string) | ListAll

  datatype Call = Call(op: Op, at: int)

  /** What a caller can tell apart: nothing found, or which services were returned. */
  datatype Answer = NotFound | Found(services: set<Service>)

  function LiveSet(list: seq<Service>, now: int): set<Service> {
    set s | s in list && Usable(s, now)
  }

  function Everything(t: Table, now: int): set<Service> {
    set name, s | name in t && s in LiveSet(t[name], now) :: s
  }

  function After(t: Table, c: Call): Table {
    match c.op
    case Register(s) => Registered(t, s, c.at)
    case Deregister(s) => Deregistered(t, s)
    case Cleanup => Cleaned(t, c.at)
    case Query(_) | ListAll => t
  }

  function Seen(found: Option<seq<Service>>): Answer {
    match found
    case None => NotFound
    case Some(list) => Found(set s | s in list)
  }

  function Reply(t: Table, c: Call): seq<Answer> {
    match c.op
    case Query(name) => [Seen(Get(t, name, c.at))]
    case ListAll => [Found(Everything(t, c.at))]
    case Register(_) | Deregister(_) | Cleanup => []
  }

  function Run(t: Table, calls: seq<Call>): seq<Answer>
    decreases |calls|
  {
    if calls == [] then [] else Reply(t, calls[0]) + Run(After(t, calls[0]), calls[1..])
  }

  function AfterAll(t: Table, calls: seq<Call>): Table
    decreases |calls|
  {
    if calls == [] then t else AfterAll(After(t, calls[0]), calls[1..])
  }

  /** The last answer of a run is the reply of the table that the calls before it have left. */
  lemma {:induction false} LastAnswer(t: Table, calls: seq<Call>, last: Call)
    ensures Run(t, calls + [last]) == Run(t, calls) + Reply(AfterAll(t, calls), last)
    decreases |calls|
  {
    if calls == [] {
      assert calls + [last] == [last] && [last][1..] == [];
      assert Reply(t, last) + [] == Reply(t, last);
    } else {
      assert (calls + [last])[1..] == calls[1..] + [last];
      LastAnswer(After(t, calls[0]), calls[1..], last);
      var first, rest := Reply(t, calls[0]), Run(After(t, calls[0]), calls[1..]);
      assert first + (rest + Reply(AfterAll(t, calls), last)) == first + rest + Reply(AfterAll(t, calls), last);
    }
  }

  function Uncleaned(calls: seq<Call>): seq<Call> {
    if calls == [] then []
    else (if calls[0].op.Cleanup? then [] else [calls[0]]) + Uncleaned(calls[1..])
  }

  /** The clock never runs backwards. */
  predicate Timely(from: int, calls: seq<Call>)
    decreases |calls|
  {
    calls == [] || (from <= calls[0].at && Timely(calls[0].at, calls[1..]))
  }

  // ------------------------------------------------------------------------------

  /** Both tables show the same usable services under every name, now and (expired stays expired) later. */
  ghost predicate Agree(t: Table, u: Table, now: int) {
    && Wellformed(t) && Wellformed(u)
    && forall name :: LiveSet(Lookup(t, name), now) == LiveSet(Lookup(u, name), now)
  }

  lemma LiveLater(list: seq<Service>, list': seq<Service>, now: int, later: int)
    requires now <= later && LiveSet(list, now) == LiveSet(list', now)
    ensures LiveSet(list, later) == LiveSet(list', later)
  {
    forall s | s in LiveSet(list, later) || s in LiveSet(list', later)
      ensures s in LiveSet(list, later) && s in LiveSet(list', later)
    {
      assert s in LiveSet(list, now) || s in LiveSet(list', now);
      assert s in LiveSet(list, now) && s in LiveSet(list', now);
    }
  }

  lemma AgreeLater(t: Table, u: Table, now: int, later: int)
    requires Agree(t, u, now) && now <= later
    ensures Agree(t, u, later)
  {
    forall name
      ensures LiveSet(Lookup(t, name), later) == LiveSet(Lookup(u, name), later)
    {
      LiveLater(Lookup(t, name), Lookup(u, name), now, later);
    }
  }

  /** The services of a set under other IDs. */
  function Others(ss: set<Service>, id: string): set<Service> { set s | s in ss && s.id != id }

  lemma MembersWithout(list: seq<Service>, id: string)
    requires UniqueIds(list) && Has(list, id)
    ensures forall s :: s in Without(list, id) <==> s in list && s.id != id
  {
    var k := WithoutFacts(list, id);
    var a, b := list[..k], list[k + 1..];
    assert list == a + [list[k]] + b;
    assert forall s :: s in a ==> s.id != id;
    assert forall s :: s in b ==> s.id != id;
  }

  lemma MembersReplaced(list: seq<Service>, s: Service)
    requires UniqueIds(list) && Has(list, s.id)
    ensures forall x :: x in Replace(list, s) <==> x == s || (x in list && x.id != s.id)
  {
    var k := ReplaceFacts(list, s);
    var list' := Replace(list, s);
    assert list'[k] == s;
    forall x | x in list && x.id != s.id
      ensures x in list'
    {
      var i :| 0 <= i < |list| && list[i] == x;
      assert list'[i] == x;
    }
    forall x | x in list' && x != s
      ensures x in list && x.id != s.id
    {
      var i :| 0 <= i < |list'| && list'[i] == x;
      assert i != k && list[i] == x;
    }
  }

  function Maybe(s: Service, now: int): set<Service> { if Usable(s, now) then {s} else {} }

  lemma LiveRegistered(t: Table, s: Service, now: int, name: string)
    requires Wellformed(t)
    ensures LiveSet(Lookup(Registered(t, s, now), name), now) ==
            if name == s.name then Others(LiveSet(Lookup(t, name), now), s.id) + Maybe(Stamped(s, now), now)
            else LiveSet(Lookup(t, name), now)
  {
    var list := Lookup(t, s.name);
    if Has(list, s.id) {
      MembersReplaced(list, Stamped(s, now));
    } else {
      assert forall x :: x in list ==> x.id != s.id;
    }
  }

  lemma LiveDeregistered(t: Table, s: Service, now: int, name: string)
    requires Wellformed(t)
    ensures LiveSet(Lookup(Deregistered(t, s), name), now) ==
            if name == s.name then Others(LiveSet(Lookup(t, name), now), s.id)
            else LiveSet(Lookup(t, name), now)
  {
    var list := Lookup(t, s.name);
    if Has(list, s.id) {
      MembersWithout(list, s.id);
    } else {
      assert forall x :: x in list ==> x.id != s.id;
    }
  }

  lemma LiveCleaned(t: Table, now: int, name: string)
    requires Wellformed(t)
    ensures LiveSet(Lookup(Cleaned(t, now), name), now) == LiveSet(Lookup(t, name), now)
  {
    ActiveMembers(Lookup(t, name), now);
  }

  lemma AfterWellformed(t: Table, c: Call)
    requires Wellformed(t)
    ensures Wellformed(After(t, c))
  {
    match c.op
    case Register(s) => RegisterTold(t, s, c.at);
    case Deregister(s) =>
      if Has(Lookup(t, s.name), s.id) {
        DeregisterTold(t, s);
      }
    case Cleanup => CleanedWellformed(t, c.at);
    case Query(_) | ListAll =>
  }

  /** A change made to both tables keeps them in agreement; a cleanup of one of them does too. */
  lemma AgreeAfter(t: Table, u: Table, c: Call)
    requires Agree(t, u, c.at)
    ensures c.op.Cleanup? ==> Agree(After(t, c), u, c.at)
    ensures !c.op.Cleanup? ==> Agree(After(t, c), After(u, c), c.at)
  {
    AfterWellformed(t, c);
    AfterWellformed(u, c);
    forall name
      ensures LiveSet(Lookup(After(t, c), name), c.at) ==
              LiveSet(Lookup(if c.op.Cleanup? then u else After(u, c), name), c.at)
    {
      assert LiveSet(Lookup(t, name), c.at) == LiveSet(Lookup(u, name), c.at);
      match c.op
      case Register(s) =>
        LiveRegistered(t, s, c.at, name);
        LiveRegistered(u, s, c.at, name);
      case Deregister(s) =>
        LiveDeregistered(t, s, c.at, name);
        LiveDeregistered(u, s, c.at, name);
      case Cleanup => LiveCleaned(t, c.at, name);
      case Query(_) | ListAll =>
    }
  }

  lemma SameEverything(t: Table, u: Table, now: int)
    requires Agree(t, u, now)
    ensures Everything(t, now) == Everything(u, now)
  {
    forall s | s in Everything(t, now)
      ensures s in Everything(u, now)
    {
      SeenUnder(t, u, s, now);
    }
    forall s | s in Everything(u, now)
      ensures s in Everything(t, now)
    {
      SeenUnder(u, t, s, now);
    }
  }

  lemma SameReply(t: Table, u: Table, c: Call)
    requires Agree(t, u, c.at)
    ensures Reply(t, c) == Reply(u, c)
  {
    match c.op
    case Query(name) =>
      SameFound(Lookup(t, name), Lookup(u, name), c.at);
      assert Seen(Get(t, name, c.at)) == Seen(Get(u, name, c.at));
    case ListAll => SameEverything(t, u, c.at);
    case Register(_) | Deregister(_) | Cleanup =>
  }

  lemma SeenUnder(t: Table, u: Table, s: Service, now: int)
    requires s in Everything(t, now)
    requires forall name :: LiveSet(Lookup(t, name), now) == LiveSet(Lookup(u, name), now)
    ensures s in Everything(u, now)
  {
    var name :| name in t && s in LiveSet(t[name], now);
    assert s in LiveSet(Lookup(t, name), now);
    assert s in LiveSet(Lookup(u, name), now);
  }

  lemma SameFound(list: seq<Service>, list': seq<Service>, now: int)
    requires LiveSet(list, now) == LiveSet(list', now)
    ensures Live(list, now) == [] <==> Live(list', now) == []
    ensures (set s | s in Live(list, now)) == (set s | s in Live(list', now))
  {
    LiveMembers(list, now);
    LiveMembers(list', now);
    assert (set s | s in Live(list, now)) == LiveSet(list, now);
    assert (set s | s in Live(list', now)) == LiveSet(list', now);
    if Live(list, now) != [] {
      assert Live(list, now)[0] in LiveSet(list', now);
    }
    if Live(list', now) != [] {
      assert Live(list', now)[0] in LiveSet(list, now);
    }
  }

  lemma {:induction false} CleanupIsInvisible(t: Table, u: Table, calls: seq<Call>, now: int)
    requires Agree(t, u, now) && Timely(now, calls)
    ensures Run(t, calls) == Run(u, Uncleaned(calls))
    decreases |calls|
  {
    if calls != [] {
      var c := calls[0];
      AgreeLater(t, u, now, c.at);
      AgreeAfter(t, u, c);
      if c.op.Cleanup? {
        CleanupIsInvisible(After(t, c), u, calls[1..], c.at);
        assert Uncleaned(calls) == Uncleaned(calls[1..]);
      } else {
        SameReply(t, u, c);
        CleanupIsInvisible(After(t, c), After(u, c), calls[1..], c.at);
        assert Uncleaned(calls) == [c] + Uncleaned(calls[1..]);
      }
    }
  }

  /**
    Two runs that differ only in where cleanup rounds happen, if at all, give their callers
    the same services at every GetService and ListServices.
    */
  lemma EagerExpiryRefinesLazyExpiry(eager: seq<Call>, other: seq<Call>, start: int)
    requires Timely(start, eager) && Timely(start, other)
    requires Uncleaned(eager) == Uncleaned(other)
    ensures Run(map[], eager) == Run(map[], other)
  {
    CleanupIsInvisible(map[], map[], eager, start);
    CleanupIsInvisible(map[], map[], other, start);
  }
}
