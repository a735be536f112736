/**
  The registry object of registry/memory.go, used one call at a time.  `history` is the
  sequence of all events since the registry was created or last closed.
  */
module MemoryRegistry {
  import opened Registry
  import opened Wrappers

  const BUFFER_SIZE: nat := 1024

  /** A watcher: its filter ("" for everything) and channel, and what it was given since Watch. */
  datatype Watcher = Watcher(
    service: string,
    queue: seq<Event>,           // buffered, not yet read
    ghost read: seq<Event>,      // already returned by Next
    ghost start: nat,            // length of the history at Watch
    ghost base: Table,           // the table at Watch
    ghost dropped: bool)         // some event found the channel full
  {
    /** Everything delivered so far. */
    ghost function Log(): seq<Event> { read + queue }
  }

  /** Healthy, and seen less than its time to live ago if it has one. */
  predicate Serves(s: Service, now: int) { s.healthy && (s.ttl == 0 || now < s.lastSeen + s.ttl) }

  predicate Watches(w: Watcher, name: string) { w.service == "" || w.service == name }

  /** The watcher after Next has returned the first buffered event. */
  function Consumed(w: Watcher): Watcher
    requires w.queue != []
  {
    w.(read := w.read + [w.queue[0]], queue := w.queue[1..])
  }

  /** What a watcher should see of a stretch of history. */
  function Seen(es: seq<Event>, service: string): seq<Event> {
    if service == "" then es else About(es, service)
  }

  /** The select of notify. */
  function Delivered(w: Watcher, e: Event): Watcher {
    if !Watches(w, e.service.name) then w
    else if |w.queue| < BUFFER_SIZE then w.(queue := w.queue + [e])
    else w.(dropped := true)
  }

  /**
    What an event does to one watcher: in its channel if it asked for that name and fewer than
    1024 events wait there; dropped if it asked and the channel is full; nothing otherwise.
    */
  ghost predicate Notified(w: Watcher, w': Watcher, e: Event) {
    var asked := w.service == "" || w.service == e.service.name;
    && w'.queue == (if asked && |w.queue| < 1024 then w.queue + [e] else w.queue)
    && (w'.dropped <==> w.dropped || (asked && |w.queue| >= 1024))
    && w'.service == w.service && w'.read == w.read
  }

  ghost predicate Based(start: nat, base: Table, history: seq<Event>)
    requires start <= |history|
  {
    Same(Replay(map[], history[..start]), base)
  }

  /** The log is everything since Watch that passes the filter. */
  ghost predicate Logged(w: Watcher, since: seq<Event>) {
    |w.queue| <= BUFFER_SIZE && (!w.dropped ==> w.Log() == Seen(since, w.service))
  }

  ghost predicate Faithful(w: Watcher, history: seq<Event>) {
    w.start <= |history| && Based(w.start, w.base, history) && Logged(w, history[w.start..])
  }

  lemma DeliveredLogged(w: Watcher, since: seq<Event>, e: Event)
    requires Logged(w, since)
    ensures Logged(Delivered(w, e), since + [e])
  {
    AboutAppend(since, e, w.service);
    assert w.read + (w.queue + [e]) == w.Log() + [e];
    if !Watches(w, e.service.name) {
      assert Seen(since + [e], w.service) == Seen(since, w.service);
    }
  }

  lemma DeliveredFaithful(w: Watcher, history: seq<Event>, e: Event)
    requires Faithful(w, history)
    ensures Faithful(Delivered(w, e), history + [e])
  {
    assert (history + [e])[..w.start] == history[..w.start];
    assert (history + [e])[w.start..] == history[w.start..] + [e];
    DeliveredLogged(w, history[w.start..], e);
  }

  lemma ConsumedFaithful(w: Watcher, history: seq<Event>)
    requires Faithful(w, history) && w.queue != []
    ensures Faithful(Consumed(w), history)
  {
    assert w.queue == [w.queue[0]] + w.queue[1..];
    assert Consumed(w).Log() == w.Log();
  }

  /** Service k is the first of that ID. */
  predicate FirstOf(list: seq<Service>, id: string, k: int) {
    0 <= k < |list| && list[k].id == id && forall i :: 0 <= i < k ==> list[i].id != id
  }

  /** s is in the place of the first service of its ID, or at the end if there was none. */
  ghost predicate Lists(list: seq<Service>, list': seq<Service>, s: Service) {
    && (forall k :: FirstOf(list, s.id, k) ==> list' == list[k := s])
    && (!Has(list, s.id) ==> list' == list + [s])
  }

  /** The first service of that ID is gone, and nothing else has changed. */
  ghost predicate Unlists(list: seq<Service>, list': seq<Service>, id: string) {
    && (forall k :: FirstOf(list, id, k) ==> list' == list[..k] + list[k + 1..])
    && (!Has(list, id) ==> list' == list)
  }

  lemma PlacedLists(list: seq<Service>, s: Service)
    ensures Lists(list, if Has(list, s.id) then Replace(list, s) else list + [s], s)
  {
    forall k | FirstOf(list, s.id, k)
      ensures Replace(list, s) == list[k := s]
    {
      ReplacedAt(list, s, k);
    }
  }

  lemma SplitAt(list: seq<Service>, k: nat, s: Service)
    requires k < |list|
    ensures list == list[..k] + [list[k]] + list[k + 1..] && list[k := s] == list[..k] + [s] + list[k + 1..]
  {
  }

  lemma ReplacedAt(list: seq<Service>, s: Service, k: nat)
    requires FirstOf(list, s.id, k)
    ensures Replace(list, s) == list[k := s]
  {
    SplitAt(list, k, s);
    ReplaceNth(list[..k], list[k], list[k + 1..], s);
  }

  lemma LeftAt(list: seq<Service>, id: string, k: nat)
    requires FirstOf(list, id, k)
    ensures Without(list, id) == list[..k] + list[k + 1..]
  {
    SplitAt(list, k, list[k]);
    WithoutNth(list[..k], list[k], list[k + 1..]);
  }

  lemma LeavesUnlists(list: seq<Service>, id: string)
    ensures Unlists(list, if Has(list, id) then Without(list, id) else list, id)
  {
    forall k | FirstOf(list, id, k)
      ensures Without(list, id) == list[..k] + list[k + 1..]
    {
      LeftAt(list, id, k);
    }
  }

  ghost predicate Told(t: Table, history: seq<Event>) {
    Same(Replay(map[], history), t) && AllFit(map[], history)
  }

  /**
    What a watcher that lost nothing can do with its log: replay it over the table it
    started from, and get the current list of every name it watches; every event it got
    was a Create of something absent or an Update or Delete of something present.
    */
  lemma WatcherCanRebuild(w: Watcher, t: Table, history: seq<Event>, name: string)
    requires Faithful(w, history) && Told(t, history) && !w.dropped && Watches(w, name)
    ensures Lookup(Replay(w.base, w.Log()), name) == Lookup(t, name)
    ensures AllFit(w.base, w.Log())
  {
    var before, after := history[..w.start], history[w.start..];
    assert history == before + after;
    ReplaySplit(map[], before, after);
    FitSplit(map[], before, after);
    SameFit(Replay(map[], before), w.base, after);
    SameReplay(Replay(map[], before), w.base, after, name);
    if w.service != "" {
      FilteredReplay(w.base, after, name);
      FilteredFit(w.base, after, name);
    }
  }

  class Store {
    const filter: string
    var services: Table
    var watchers: map<nat, Watcher>
    var nextID: nat
    var running: bool
    ghost var history: seq<Event>

    ghost predicate Watched()
      reads this
    {
      && (forall id :: id in watchers ==> Faithful(watchers[id], history))
      && (forall id :: id in watchers ==> id <= nextID)
    }

    ghost predicate Valid()
      reads this
    {
      Wellformed(services) && Told(services, history) && Watched()
    }

    constructor (filter: string)
      ensures Valid() && services == map[] && watchers == map[] && history == [] && !running && this.filter == filter
    {
      this.filter := filter;
      services, watchers, nextID, running, history := map[], map[], 0, false, [];
    }

    /** Connect, without the cleanup goroutine it starts: CleanupRound is one of its rounds. */
    method Connect()
      requires Valid()
      modifies this`running
      ensures Valid() && running
    {
      running := true;
    }

    /** Close forgets services and watchers; it tells nobody. */
    method Close()
      requires Valid()
      modifies this
      ensures Valid() && !running
      ensures old(running) ==> services == map[] && watchers == map[] && history == []
      ensures !old(running) ==> services == old(services) && watchers == old(watchers) && history == old(history)
    {
      if !running {
        return;
      }
      running := false;
      watchers := map[];
      services := map[];
      history := [];
    }

    /** The loop of notify over the watchers, in any order. */
    method Deliver(e: Event)
      modifies this`watchers
      ensures watchers.Keys == old(watchers).Keys
      ensures forall id :: id in watchers ==> watchers[id] == Delivered(old(watchers)[id], e)
    {
      var rest := watchers.Keys;
      while rest != {}
        invariant watchers.Keys == old(watchers).Keys
        invariant rest <= watchers.Keys
        invariant forall id :: id in watchers.Keys ==>
                    watchers[id] == if id in rest then old(watchers)[id] else Delivered(old(watchers)[id], e)
        decreases |rest|
      {
        var id :| id in rest;
        watchers := watchers[id := Delivered(watchers[id], e)];
        rest := rest - {id};
      }
    }

    /** notify: every interested watcher gets the event unless its channel is full. */
    method Notify(e: Event)
      requires Watched()
      modifies this`watchers, this`history
      ensures Watched() && history == old(history) + [e]
      ensures watchers.Keys == old(watchers).Keys
      ensures forall id :: id in watchers ==> watchers[id] == Delivered(old(watchers)[id], e)
      ensures forall id :: id in watchers ==> Notified(old(watchers)[id], watchers[id], e)
    {
      Deliver(e);
      history := history + [e];
      forall id | id in watchers
        ensures Faithful(watchers[id], history)
      {
        DeliveredFaithful(old(watchers)[id], old(history), e);
      }
    }

    /** The search loop of Register and Deregister. */
    method FindService(list: seq<Service>, id: string) returns (i: nat)
      ensures i <= |list| && (i < |list| <==> Has(list, id))
      ensures i < |list| ==> list[i].id == id
      ensures forall k :: 0 <= k < i ==> list[k].id != id
    {
      i := 0;
      while i < |list| && list[i].id != id
        invariant i <= |list| && forall k :: 0 <= k < i ==> list[k].id != id
      {
        i := i + 1;
      }
    }

    /** The list part of Register: in place of the service with that ID, or at the end. */
    method Place(list: seq<Service>, s: Service) returns (list': seq<Service>, found: bool)
      ensures found <==> Has(list, s.id)
      ensures list' == if found then Replace(list, s) else list + [s]
    {
      var i := FindService(list, s.id);
      found := i < |list|;
      if found {
        ReplacedAt(list, s, i);
        list' := list[i := s];
      } else {
        list' := list + [s];
      }
    }

    method Register(s: Service, now: int)
      requires Valid()
      modifies this`services, this`watchers, this`history
      ensures Valid() && services == Registered(old(services), s, now)
      ensures history == old(history) + [RegisterEvent(old(services), s, now)]
      ensures services.Keys == old(services).Keys + {s.name} && forall name :: name in services && name != s.name ==> services[name] == old(services)[name]
      ensures Lists(old(Lookup(services, s.name)), Lookup(services, s.name), s.(lastSeen := now, healthy := true))
    {
      PlacedLists(Lookup(services, s.name), Stamped(s, now));
      RegisterTold(services, s, now);
      var stamped := Stamped(s, now);
      var list, found := Place(Lookup(services, s.name), stamped);
      var event := Event(if found then Update else Create, stamped);
      ToldStep(services, history, services[s.name := list], event);
      services := services[s.name := list];
      Notify(event);
    }

    /** The list part of Deregister: without the first service of that ID. */
    method TakeOut(list: seq<Service>, id: string) returns (list': seq<Service>, found: bool)
      ensures found <==> Has(list, id)
      ensures list' == if found then Without(list, id) else list
    {
      var i := FindService(list, id);
      found := i < |list|;
      list' := list;
      if found {
        LeftAt(list, id, i);
        list' := list[..i] + list[i + 1..];
      }
    }

    method Deregister(s: Service)
      requires Valid()
      modifies this`services, this`watchers, this`history
      ensures Valid() && services == Deregistered(old(services), s)
      ensures history == old(history) + (if Has(Lookup(old(services), s.name), s.id) then [Event(Delete, s)] else [])
      ensures services.Keys == old(services).Keys && forall name :: name in services && name != s.name ==> services[name] == old(services)[name]
      ensures Unlists(old(Lookup(services, s.name)), Lookup(services, s.name), s.id)
    {
      LeavesUnlists(Lookup(services, s.name), s.id);
      var list := Lookup(services, s.name);
      var list', found := TakeOut(list, s.id);
      if found {
        DeregisterTold(services, s);
        services := services[s.name := list'];
        ToldStep(old(services), history, services, Event(Delete, s));
        Notify(Event(Delete, s));
      }
    }

    /** The locked part of a cleanup round: the loops over names and lists. */
    method SweepAll(now: int) returns (expired: seq<Event>)
      requires Wellformed(services) && Told(services, history)
      modifies this`services
      ensures services == Cleaned(old(services), now) && Told(services, history + expired)
    {
      expired := [];
      assert history + expired == history;
      var rest := services.Keys;
      AllLeft(services, now);
      while rest != {}
        invariant rest <= old(services).Keys
        invariant services == PartlyCleaned(old(services), rest, now)
        invariant Told(services, history + expired)
        decreases |rest|
      {
        var name :| name in rest;
        var list := services[name];
        var active, gone := Sweep(list, now);
        SweepNext(old(services), rest, name, now, history, expired);
        if |active| > 0 {
          services := services[name := active];
        } else {
          services := services - {name};
        }
        expired := expired + gone;
        rest := rest - {name};
      }
      NoneLeft(old(services), now);
    }

    /** One round of cleanup: expired services go, and a Delete tells of each of them. */
    method CleanupRound(now: int)
      requires Valid()
      modifies this`services, this`watchers, this`history
      ensures Valid() && services == Cleaned(old(services), now)
    {
      var expired := SweepAll(now);
      CleanedWellformed(old(services), now);
      NotifyEach(expired);
    }

    method NotifyEach(es: seq<Event>)
      requires Watched()
      modifies this`watchers, this`history
      ensures Watched() && history == old(history) + es
    {
      for j := 0 to |es|
        invariant Watched() && history == old(history) + es[..j]
      {
        Notify(es[j]);
        assert old(history) + es[..j] + [es[j]] == old(history) + es[..j + 1];
      }
      assert es[..|es|] == es;
    }

    /** The inner loop of cleanup over one list. */
    method Sweep(list: seq<Service>, now: int) returns (active: seq<Service>, gone: seq<Event>)
      ensures active == Active(list, now) && gone == Expiries(list, now)
    {
      active, gone := [], [];
      for k := 0 to |list|
        invariant active == Active(list[..k], now) && gone == Expiries(list[..k], now)
      {
        assert list[..k + 1] == list[..k] + [list[k]];
        ActiveAppend(list[..k], list[k], now);
        ExpiriesAppend(list[..k], list[k], now);
        if list[k].ttl == 0 || now - list[k].lastSeen < list[k].ttl {
          active := active + [list[k]];
        } else {
          gone := gone + [Event(Delete, list[k])];
        }
      }
      assert list[..|list|] == list;
    }

    method GetService(name: string, now: int) returns (r: Option<seq<Service>>)
      ensures r == Get(services, name, now)
      ensures r.Some? ==> r.value != [] && forall s :: s in r.value <==> s in Lookup(services, name) && Serves(s, now)
      ensures r.None? ==> forall s :: s in Lookup(services, name) ==> !Serves(s, now)
    {
      LiveMembers(Lookup(services, name), now);
      if name !in services || |services[name]| == 0 {
        return None;
      }
      var result := Usables(services[name], now);
      return if |result| == 0 then None else Some(result);
    }

    method Usables(list: seq<Service>, now: int) returns (result: seq<Service>)
      ensures result == Live(list, now)
    {
      result := [];
      for i := 0 to |list|
        invariant result == Live(list[..i], now)
      {
        var s := list[i];
        assert list[..i + 1][..i] == list[..i];
        if s.healthy && (s.ttl == 0 || now - s.lastSeen < s.ttl) {
          result := result + [s];
        }
      }
      assert list[..|list|] == list;
    }

    /** ListServices: everything usable under any name, in some order, and nothing twice. */
    method ListServices(now: int) returns (result: seq<Service>)
      ensures Wellformed(services) ==> Different(result)
      ensures forall s :: s in result <==> exists name :: name in services && s in Live(services[name], now)
      ensures forall s :: s in result ==> Serves(s, now)
      ensures forall name, s :: name in services && s in services[name] && Serves(s, now) ==> s in result
    {
      result := [];
      var rest := services.Keys;
      while rest != {}
        invariant rest <= services.Keys
        invariant forall s :: s in result <==>
                    exists name :: name in services && name !in rest && s in Live(services[name], now)
        invariant Wellformed(services) ==> Different(result)
        decreases |rest|
      {
        var name :| name in rest;
        var usable := Usables(services[name], now);
        ghost var before := result;
        if Wellformed(services) {
          ListMore(services, rest, result, name, now);
        }
        result := result + usable;
        rest := rest - {name};
        forall s
          ensures s in result <==> exists x :: x in services && x !in rest && s in Live(services[x], now)
        {
          if s in before {
            var x :| x in services && x !in rest && x != name && s in Live(services[x], now);
          }
        }
      }
      forall name, s | name in services && s in services[name]
        ensures s in Live(services[name], now) <==> Serves(s, now)
      {
        LiveMembers(services[name], now);
      }
      forall s | s in result
        ensures Serves(s, now)
      {
        var name :| name in services && s in Live(services[name], now);
        LiveMembers(services[name], now);
      }
    }

    /** Watch: the new watcher starts from the current table. */
    method Watch() returns (id: nat)
      requires Valid()
      modifies this`watchers, this`nextID
      ensures Valid() && id !in old(watchers) && id == nextID == old(nextID) + 1
      ensures watchers == old(watchers)[id := Watcher(filter, [], [], |history|, services, false)]
    {
      nextID := nextID + 1;
      id := nextID;
      watchers := watchers[id := Watcher(filter, [], [], |history|, services, false)];
      assert history[..|history|] == history && history[|history|..] == [];
    }

    /** Next, when an event is buffered. */
    method Next(id: nat) returns (e: Event)
      requires Valid() && id in watchers && watchers[id].queue != []
      modifies this`watchers
      ensures Valid() && e == old(watchers)[id].queue[0]
      ensures watchers == old(watchers)[id := Consumed(old(watchers)[id])]
    {
      e := watchers[id].queue[0];
      ConsumedFaithful(watchers[id], history);
      watchers := watchers[id := Consumed(watchers[id])];
    }

    /** Stop, for the watcher with that id. */
    method StopWatcher(id: nat)
      requires Valid()
      modifies this`watchers
      ensures Valid() && watchers == old(watchers) - {id}
    {
      watchers := watchers - {id};
    }

    /** At any time between calls: the replayed log of a watcher that lost nothing is the table. */
    lemma ReplayEqualsTable(id: nat, name: string)
      requires Valid() && id in watchers && !watchers[id].dropped && Watches(watchers[id], name)
      ensures Lookup(Replay(watchers[id].base, watchers[id].Log()), name) == Lookup(services, name)
      ensures AllFit(watchers[id].base, watchers[id].Log())
    {
      WatcherCanRebuild(watchers[id], services, history, name);
    }
  }

  /** The table when only the names outside `rest` have been swept. */
  function PartlyCleaned(t: Table, rest: set<string>, now: int): Table {
    map name | name in t && (name in rest || Active(t[name], now) != []) ::
      if name in rest then t[name] else Active(t[name], now)
  }

  predicate Different(list: seq<Service>) { forall i, j :: 0 <= i < j < |list| ==> list[i] != list[j] }

  /** The services of another name are none of those listed. */
  lemma ListMore(t: Table, rest: set<string>, listed: seq<Service>, name: string, now: int)
    requires Wellformed(t) && name in rest && name in t && Different(listed)
    requires forall s :: s in listed ==> exists x :: x in t && x !in rest && s in Live(t[x], now)
    ensures Different(listed + Live(t[name], now))
  {
    var more := Live(t[name], now);
    LiveUnique(t[name], now);
    LiveMembers(t[name], now);
    forall i, j | 0 <= i < |listed| && 0 <= j < |more|
      ensures listed[i] != more[j]
    {
      assert listed[i] in listed && more[j] in more;
      var x :| x in t && x !in rest && listed[i] in Live(t[x], now);
      LiveMembers(t[x], now);
    }
  }

  lemma ToldStep(t: Table, history: seq<Event>, t': Table, e: Event)
    requires Told(t, history) && Fits(t, e)
    requires t' == ApplyEvent(t, e)
    ensures Told(t', history + [e])
  {
    ReplayAppend(map[], history, e);
    FitAppend(map[], history, e);
    assert Lookup(Replay(map[], history), e.service.name) == Lookup(t, e.service.name);
    FitsSame(Replay(map[], history), t, e);
    forall name
      ensures Lookup(Replay(map[], history + [e]), name) == Lookup(t', name)
    {
      assert Lookup(Replay(map[], history), name) == Lookup(t, name);
    }
  }

  lemma ToldSweep(t: Table, history: seq<Event>, name: string, list: seq<Service>, now: int)
    requires Told(t, history) && name in t && t[name] == list
    requires UniqueIds(list) && forall i :: 0 <= i < |list| ==> list[i].name == name
    ensures Told(Swept(t, name, now), history + Expiries(list, now))
  {
    var u := Replay(map[], history);
    assert Lookup(u, name) == Lookup(t, name);
    CleanupTold(u, name, list, now);
    ReplaySplit(map[], history, Expiries(list, now));
    FitSplit(map[], history, Expiries(list, now));
    forall other
      ensures Lookup(Replay(map[], history + Expiries(list, now)), other) == Lookup(Swept(t, name, now), other)
    {
      assert Lookup(u, other) == Lookup(t, other);
    }
  }

  /** The table with one name swept. */
  function Swept(t: Table, name: string, now: int): Table
    requires name in t
  {
    if Active(t[name], now) != [] then t[name := Active(t[name], now)] else t - {name}
  }

  lemma AllLeft(t: Table, now: int)
    ensures PartlyCleaned(t, t.Keys, now) == t
  {
  }

  lemma NoneLeft(t: Table, now: int)
    ensures PartlyCleaned(t, {}, now) == Cleaned(t, now)
  {
  }

  lemma SweepOne(t: Table, rest: set<string>, name: string, now: int)
    requires name in rest && rest <= t.Keys
    ensures name in PartlyCleaned(t, rest, now)
    ensures PartlyCleaned(t, rest, now)[name] == t[name]
    ensures Swept(PartlyCleaned(t, rest, now), name, now) == PartlyCleaned(t, rest - {name}, now)
  {
  }

  lemma SweepNext(t: Table, rest: set<string>, name: string, now: int, history: seq<Event>, expired: seq<Event>)
    requires Wellformed(t) && name in rest && rest <= t.Keys
    requires Told(PartlyCleaned(t, rest, now), history + expired)
    ensures name in PartlyCleaned(t, rest, now) && PartlyCleaned(t, rest, now)[name] == t[name]
    ensures Swept(PartlyCleaned(t, rest, now), name, now) == PartlyCleaned(t, rest - {name}, now)
    ensures Told(PartlyCleaned(t, rest - {name}, now), history + (expired + Expiries(t[name], now)))
  {
    SweepOne(t, rest, name, now);
    ToldSweep(PartlyCleaned(t, rest, now), history + expired, name, t[name], now);
    TellOn(history, expired, Expiries(t[name], now));
  }

  lemma TellOn(history: seq<Event>, expired: seq<Event>, more: seq<Event>)
    ensures history + (expired + more) == history + expired + more
  {
  }
}
