/**
  What a caller of registry/memory.go reads after it has written: registering, deregistering
  and cleaning up, seen through GetService.
  */
module RegistryReads {
  import opened Registry
  import opened RegistryExpiry
  import opened MemoryRegistry
  import opened Wrappers

  /** GetService for that name, at that time, returns x among others. */
  predicate Finds(t: Table, name: string, now: int, x: Service) {
    var found := Get(t, name, now);
    found.Some? && x in found.value
  }

  /** Exactly the healthy services that were seen less than their time to live ago, or live for ever. */
  lemma FindsMeans(t: Table, name: string, now: int, x: Service)
    ensures Finds(t, name, now, x) <==>
            x in Lookup(t, name) && Serves(x, now)
  {
    LiveMembers(Lookup(t, name), now);
  }

  /** In the order of the list. */
  lemma {:induction false} LiveInOrder(list: seq<Service>, now: int, i: nat, j: nat) returns (k: nat, l: nat)
    requires i <= j < |Live(list, now)|
    ensures k <= l < |list| && Live(list, now)[i] == list[k] && Live(list, now)[j] == list[l]
    ensures i < j ==> k < l
    decreases |list|
  {
    var n := |list| - 1;
    var before := Live(list[..n], now);
    if j < |before| {
      k, l := LiveInOrder(list[..n], now, i, j);
    } else if i < j {
      k, l := LiveInOrder(list[..n], now, i, i);
      l := n;
    } else {
      k, l := n, n;
    }
  }

  /**
    After Register: the service is found under its name, stamped and healthy, exactly until its
    time to live has passed, and no other version of that ID is; everybody else is found as before.
    */
  lemma RegisterThenGet(t: Table, s: Service, now: int, name: string, later: int, x: Service)
    requires Wellformed(t)
    ensures Finds(Registered(t, s, now), name, later, x) <==>
            if name == s.name && x.id == s.id then
              x == s.(lastSeen := now, healthy := true) && (s.ttl == 0 || later < now + s.ttl)
            else Finds(t, name, later, x)
  {
    FindsMeans(t, name, later, x);
    FindsMeans(Registered(t, s, now), name, later, x);
    var list := Lookup(t, s.name);
    if Has(list, s.id) {
      MembersReplaced(list, Stamped(s, now));
    } else {
      assert forall y :: y in list ==> y.id != s.id;
    }
  }

  /** After Deregister nothing of that ID is found under the name; everybody else is found as before. */
  lemma DeregisterThenGet(t: Table, s: Service, name: string, later: int, x: Service)
    requires Wellformed(t)
    ensures Finds(Deregistered(t, s), name, later, x) <==>
            Finds(t, name, later, x) && !(name == s.name && x.id == s.id)
  {
    FindsMeans(t, name, later, x);
    FindsMeans(Deregistered(t, s), name, later, x);
    var list := Lookup(t, s.name);
    if Has(list, s.id) {
      MembersWithout(list, s.id);
    } else {
      assert forall y :: y in list ==> y.id != s.id;
    }
  }

  /** What a cleanup round leaves, healthy or not: what has not outlived its time to live. */
  lemma CleanupLeaves(t: Table, now: int, name: string, x: Service)
    ensures x in Lookup(Cleaned(t, now), name) <==>
            x in Lookup(t, name) && (x.ttl == 0 || now - x.lastSeen < x.ttl)
    ensures name in Cleaned(t, now) ==> Lookup(Cleaned(t, now), name) != []
  {
    ActiveMembers(Lookup(t, name), now);
  }

  /** On the object: a registered service is what GetService returns, until it expires. */
  method RegisterAndGet(store: Store, s: Service, now: int, later: int) returns (found: Option<seq<Service>>)
    requires store.Valid()
    modifies store`services, store`watchers, store`history
    ensures store.Valid()
    ensures s.ttl == 0 || later < now + s.ttl ==>
              found.Some? && s.(lastSeen := now, healthy := true) in found.value
    ensures s.ttl != 0 && later >= now + s.ttl && found.Some? ==> forall x :: x in found.value ==> x.id != s.id
  {
    ghost var before := store.services;
    store.Register(s, now);
    found := store.GetService(s.name, later);
    RegisterThenGet(before, s, now, s.name, later, s.(lastSeen := now, healthy := true));
    if found.Some? {
      forall x | x in found.value
        ensures x.id == s.id ==> s.ttl == 0 || later < now + s.ttl
      {
        RegisterThenGet(before, s, now, s.name, later, x);
      }
    }
  }
}
