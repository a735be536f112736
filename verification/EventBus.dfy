/**
  The event bus object (events/events.go): subscriptions, and publishing without workers,
  where Publish calls the handlers itself.
  */
module EventBus {
  import opened Bus

  datatype Change = Added(topic: string, handler: nat) | Removed(topic: string, id: nat) | Closed

  function Changed(d: Directory, c: Change): Directory {
    match c
    case Added(topic, handler) => Subscribed(d, topic, handler)
    case Removed(topic, id) => Unsubscribed(d, topic, id)
    case Closed => Shut(d)
  }

  predicate Unlike(subs: seq<Subscription>) {
    forall i, j :: 0 <= i < j < |subs| ==> subs[i].id != subs[j].id
  }

  predicate Issued(subs: seq<Subscription>, nextID: nat) {
    forall i :: 0 <= i < |subs| ==> subs[i].id <= nextID
  }

  predicate Separate(subs: seq<Subscription>, others: seq<Subscription>) {
    forall x, y :: x in subs && y in others ==> x.id != y.id
  }

  /** Subscription IDs were all handed out before, and differ everywhere. */
  ghost predicate Wellformed(d: Directory) {
    && (forall topic :: Unlike(Listeners(d.subscribers, topic)) && Issued(Listeners(d.subscribers, topic), d.nextID))
    && (forall topic, other :: topic != other ==>
          Separate(Listeners(d.subscribers, topic), Listeners(d.subscribers, other)))
  }

  predicate Lists(subs: seq<Subscription>, id: nat) { exists i :: 0 <= i < |subs| && subs[i].id == id }

  /** The list without its i-th subscription, which is the first one of that ID. */
  predicate Without(subs: seq<Subscription>, id: nat, i: int, subs': seq<Subscription>) {
    && 0 <= i < |subs| && subs[i].id == id && (forall k :: 0 <= k < i ==> subs[k].id != id)
    && subs' == subs[..i] + subs[i + 1..]
  }

  lemma {:induction false} DroppedMembers(subs: seq<Subscription>, id: nat)
    ensures forall x :: x in Dropped(subs, id) ==> x in subs
    decreases |subs|
  {
    if subs != [] && subs[0].id != id {
      DroppedMembers(subs[1..], id);
    }
  }

  lemma {:induction false} DroppedUnlike(subs: seq<Subscription>, id: nat)
    requires Unlike(subs)
    ensures Unlike(Dropped(subs, id)) && !Lists(Dropped(subs, id), id)
    decreases |subs|
  {
    if subs != [] && subs[0].id != id {
      DroppedUnlike(subs[1..], id);
      DroppedMembers(subs[1..], id);
      var rest := Dropped(subs[1..], id);
      forall i | 0 <= i < |rest|
        ensures rest[i].id != subs[0].id
      {
        assert rest[i] in subs[1..];
      }
    }
  }

  lemma {:induction false} OthersStay(subs: seq<Subscription>, id: nat, other: Subscription)
    requires other in subs && other.id != id
    ensures other in Dropped(subs, id)
    decreases |subs|
  {
    if subs[0].id != id && other != subs[0] {
      OthersStay(subs[1..], id, other);
    }
  }

  /** A change leaves a topic's list alone, shortens it, or puts a new ID at its end. */
  lemma ChangedListeners(d: Directory, c: Change, topic: string)
    requires Wellformed(d)
    ensures var subs, subs' := Listeners(d.subscribers, topic), Listeners(Changed(d, c).subscribers, topic);
      && Unlike(subs') && Issued(subs', Changed(d, c).nextID) && d.nextID <= Changed(d, c).nextID
      && forall x :: x in subs' ==> x in subs || (c.Added? && c.topic == topic && x.id == d.nextID + 1)
  {
    var subs := Listeners(d.subscribers, topic);
    assert Unlike(subs) && Issued(subs, d.nextID);
    if c.Removed? {
      var rest := Dropped(subs, c.id);
      DroppedMembers(subs, c.id);
      DroppedUnlike(subs, c.id);
      assert forall i :: 0 <= i < |rest| ==> rest[i] in subs;
    }
  }

  lemma ChangeKeeps(d: Directory, c: Change)
    requires Wellformed(d)
    ensures Wellformed(Changed(d, c))
  {
    var d' := Changed(d, c);
    forall topic
      ensures Unlike(Listeners(d'.subscribers, topic)) && Issued(Listeners(d'.subscribers, topic), d'.nextID)
    {
      ChangedListeners(d, c, topic);
    }
    forall topic, other | topic != other
      ensures Separate(Listeners(d'.subscribers, topic), Listeners(d'.subscribers, other))
    {
      ChangedListeners(d, c, topic);
      ChangedListeners(d, c, other);
      assert Separate(Listeners(d.subscribers, topic), Listeners(d.subscribers, other));
      assert Issued(Listeners(d.subscribers, topic), d.nextID) && Issued(Listeners(d.subscribers, other), d.nextID);
    }
  }

  lemma AbsentStays(d: Directory, c: Change, topic: string, id: nat)
    requires Wellformed(d) && id <= d.nextID && !Lists(Listeners(d.subscribers, topic), id)
    ensures id <= Changed(d, c).nextID && !Lists(Listeners(Changed(d, c).subscribers, topic), id)
  {
    var subs, subs' := Listeners(d.subscribers, topic), Listeners(Changed(d, c).subscribers, topic);
    if c.Removed? {
      DroppedMembers(subs, c.id);
    }
    forall i | 0 <= i < |subs'|
      ensures subs'[i].id != id
    {
      assert subs'[i] in subs || subs'[i].id == d.nextID + 1;
    }
  }

  /** What an event of the bus does to the directory is one change, or nothing. */
  lemma EventChanges(s: State, e: Event)
    ensures var d, d' := s.hub.dir, Apply(s, e).hub.dir; d' == d || exists c :: d' == Changed(d, c)
  {
    var d := s.hub.dir;
    match e
    case Subscribe(topic, handler) => assert Changed(d, Added(topic, handler)) == Apply(s, e).hub.dir;
    case Unsubscribe(topic, id) => assert Changed(d, Removed(topic, id)) == Apply(s, e).hub.dir;
    case Run(_, _) => assert Changed(d, Change.Closed) == Shut(d);
    case Publish(_, _) | Close =>
  }

  lemma {:induction false} AbsentForGood(s: State, es: seq<Event>, topic: string, id: nat)
    requires Wellformed(s.hub.dir) && id <= s.hub.dir.nextID && !Lists(Listeners(s.hub.dir.subscribers, topic), id)
    ensures !Lists(Listeners(Exec(s, es).hub.dir.subscribers, topic), id)
    decreases |es|
  {
    if es != [] {
      var d, s1 := s.hub.dir, Apply(s, es[0]);
      EventChanges(s, es[0]);
      if s1.hub.dir != d {
        var c :| s1.hub.dir == Changed(d, c);
        ChangeKeeps(d, c);
        AbsentStays(d, c, topic, id);
      }
      AbsentForGood(s1, es[1..], topic, id);
    }
  }

  /** In every state of every run of the bus. */
  lemma {:induction false} DirectoryIsWellformed(s: State, es: seq<Event>)
    requires Wellformed(s.hub.dir)
    ensures Wellformed(Exec(s, es).hub.dir)
    decreases |es|
  {
    if es != [] {
      var d, s1 := s.hub.dir, Apply(s, es[0]);
      EventChanges(s, es[0]);
      if s1.hub.dir != d {
        var c :| s1.hub.dir == Changed(d, c);
        ChangeKeeps(d, c);
      }
      DirectoryIsWellformed(s1, es[1..]);
    }
  }

  lemma Cancelled(d: Directory, topic: string, id: nat)
    requires Wellformed(d)
    ensures var d' := Unsubscribed(d, topic, id);
      && Wellformed(d') && !Lists(Listeners(d'.subscribers, topic), id)
      && forall other, x :: x in Listeners(d.subscribers, other) && !(other == topic && x.id == id) ==>
           x in Listeners(d'.subscribers, other)
  {
    assert Unlike(Listeners(d.subscribers, topic));
    DroppedUnlike(Listeners(d.subscribers, topic), id);
    ChangeKeeps(d, Removed(topic, id));
    forall other, x | x in Listeners(d.subscribers, other) && !(other == topic && x.id == id)
      ensures x in Listeners(Unsubscribed(d, topic, id).subscribers, other)
    {
      if other == topic {
        OthersStay(Listeners(d.subscribers, topic), id, x);
      }
    }
  }

  lemma UnsubscribedFrom(s: State, topic: string, id: nat, es: seq<Event>)
    requires Wellformed(s.hub.dir) && id <= s.hub.dir.nextID
    ensures forall other, x :: x in Listeners(s.hub.dir.subscribers, other) && !(other == topic && x.id == id) ==>
              x in Listeners(Apply(s, Unsubscribe(topic, id)).hub.dir.subscribers, other)
    ensures !Lists(Listeners(Exec(Apply(s, Unsubscribe(topic, id)), es).hub.dir.subscribers, topic), id)
  {
    Cancelled(s.hub.dir, topic, id);
    AbsentForGood(Apply(s, Unsubscribe(topic, id)), es, topic, id);
  }

  /**
    In every run: a subscription that is cancelled is never served again, whatever happens to
    the bus afterwards; the others of its topic, and all those of other topics, are.
    */
  lemma UnsubscribedForGood(opts: Options, past: seq<Event>, topic: string, id: nat, es: seq<Event>)
    requires id <= Exec(Init(opts), past).hub.dir.nextID
    ensures var s := Exec(Init(opts), past);
      var s' := Apply(s, Unsubscribe(topic, id));
      && (forall other, x :: x in Listeners(s.hub.dir.subscribers, other) && !(other == topic && x.id == id) ==>
            x in Listeners(s'.hub.dir.subscribers, other))
      && !Lists(Listeners(Exec(s', es).hub.dir.subscribers, topic), id)
  {
    DirectoryIsWellformed(Init(opts), past);
    UnsubscribedFrom(Exec(Init(opts), past), topic, id, es);
  }

  lemma {:induction false} UnlikeOnce(subs: seq<Subscription>, x: Subscription)
    requires Unlike(subs) && x in subs
    ensures multiset(subs)[x] == 1
    decreases |subs|
  {
    assert subs == [subs[0]] + subs[1..];
    if x == subs[0] {
      forall i | 0 <= i < |subs| - 1
        ensures subs[1..][i] != x
      {
        assert subs[i + 1].id != subs[0].id;
      }
      assert x !in subs[1..];
    } else {
      UnlikeOnce(subs[1..], x);
    }
  }

  /**
    A publication is for every subscriber once, except on the topic "*": there the wildcard
    subscribers are the topic's own as well, and each is served twice.
    */
  lemma ServedOnceExactlyWhen(opts: Options, es: seq<Event>, topic: string)
    ensures var subscribers := Exec(Init(opts), es).hub.dir.subscribers;
      && (Unlike(Recipients(subscribers, topic)) <==> topic != "*" || Listeners(subscribers, "*") == [])
      && forall x :: x in Listeners(subscribers, "*") ==> multiset(Recipients(subscribers, "*"))[x] == 2
  {
    DirectoryIsWellformed(Init(opts), es);
    var subscribers := Exec(Init(opts), es).hub.dir.subscribers;
    var own, wild := Listeners(subscribers, topic), Listeners(subscribers, "*");
    assert Unlike(own) && Unlike(wild);
    var all := Recipients(subscribers, topic);
    if topic != "*" {
      assert Separate(own, wild);
      forall i, j | 0 <= i < j < |all|
        ensures all[i].id != all[j].id
      {
        assert i < |own| <= j ==> own[i] in own && wild[j - |own|] in wild;
      }
    } else if wild != [] {
      assert all[0] == all[|own|];
    }
    forall x | x in wild
      ensures multiset(Recipients(subscribers, "*"))[x] == 2
    {
      UnlikeOnce(wild, x);
    }
  }

  /** For every topic a publication is for its own subscribers and for those of "*", as often as each is listed. */
  lemma ServedAsListed(subscribers: Subscribers, topic: string, x: Subscription)
    ensures multiset(Recipients(subscribers, topic))[x] ==
            multiset(Listeners(subscribers, topic))[x] + multiset(Listeners(subscribers, "*"))[x]
  {
  }

  /**
    What a synchronous publication does: call k answers fails(k); the handlers are called in
    order, the first failure is the last call, and the answer is the last call's.
    */
  ghost predicate Ran(jobs: seq<Job>, from: nat, fails: nat -> bool, ok: bool, called: seq<Job>) {
    && called <= jobs
    && (forall k :: from <= k < from + |called| - 1 ==> !fails(k))
    && (|called| < |jobs| ==> !ok)
    && (!ok <==> called != [] && fails(from + |called| - 1))
  }

  lemma CalledAll(own: seq<Subscription>, wild: seq<Subscription>, event: nat)
    ensures CallsBoth(JobsFor(own, event) + JobsFor(wild, event), own, wild, event)
  {
  }

  lemma RanBoth(jobs: seq<Job>, more: seq<Job>, fails: nat -> bool, ok: bool, called: seq<Job>)
    requires Ran(more, |jobs|, fails, ok, called)
    requires forall k :: 0 <= k < |jobs| ==> !fails(k)
    ensures Ran(jobs + more, 0, fails, ok, jobs + called)
  {
  }

  class EventBus {
    var subscribers: Subscribers
    var closed: bool
    var nextID: nat

    ghost function View(): Directory
      reads this
    {
      Directory(subscribers, nextID, closed)
    }

    constructor ()
      ensures View() == Directory(map[], 0, false) && Wellformed(View())
    {
      subscribers, closed, nextID := map[], false, 0;
    }

    method Subscribe(topic: string, handler: nat) returns (ok: bool, sub: Subscription)
      modifies this
      ensures View() == Subscribed(old(View()), topic, handler)
      ensures ok <==> !old(closed)
      ensures ok ==> sub == Subscription(old(nextID) + 1, handler) && nextID == old(nextID) + 1
      ensures subscribers == if ok then old(subscribers)[topic := old(Listeners(subscribers, topic)) + [sub]] else old(subscribers)
    {
      if closed {
        return false, Subscription(0, handler);
      }
      nextID := nextID + 1;
      sub := Subscription(nextID, handler);
      subscribers := subscribers[topic := Listeners(subscribers, topic) + [sub]];
      ok := true;
    }

    method Unsubscribe(topic: string, id: nat)
      modifies this`subscribers
      ensures View() == Unsubscribed(old(View()), topic, id)
      ensures forall other :: other != topic ==> Listeners(subscribers, other) == old(Listeners(subscribers, other))
      ensures var subs := old(Listeners(subscribers, topic));
        if Lists(subs, id) then exists i :: Without(subs, id, i, Listeners(subscribers, topic))
        else Listeners(subscribers, topic) == subs
    {
      if topic !in subscribers {
        return;
      }
      var subs := subscribers[topic];
      var i := 0;
      while i < |subs|
        invariant i <= |subs| && subscribers == old(subscribers)
        invariant Dropped(subs, id) == subs[..i] + Dropped(subs[i..], id)
        invariant forall k :: 0 <= k < i ==> subs[k].id != id
      {
        assert subs[i..][1..] == subs[i + 1..];
        if subs[i].id == id {
          subscribers := subscribers[topic := subs[..i] + subs[i + 1..]];
          assert Without(old(Listeners(subscribers, topic)), id, i, Listeners(subscribers, topic));
          return;
        }
        assert subs[..i + 1] + Dropped(subs[i + 1..], id) == subs[..i] + ([subs[i]] + Dropped(subs[i + 1..], id));
        i := i + 1;
      }
      assert subs[..i] + [] == subs;
      assert subscribers[topic := subs] == subscribers;
    }

    /** One of the two loops of a synchronous Publish, when `from` handlers were called before. */
    method CallAll(jobs: seq<Job>, from: nat, fails: nat -> bool) returns (ok: bool, called: seq<Job>)
      ensures Ran(jobs, from, fails, ok, called)
      ensures ok ==> called == jobs && forall k :: from <= k < from + |jobs| ==> !fails(k)
    {
      called := [];
      for i := 0 to |jobs|
        invariant called == jobs[..i] && forall k :: from <= k < from + i ==> !fails(k)
      {
        called := called + [jobs[i]];
        assert jobs[..i + 1] == jobs[..i] + [jobs[i]];
        if fails(from + i) {
          return false, called;
        }
      }
      ok := true;
    }

    /**
      Publish without workers.  The handlers run outside the lock; what they do to the bus
      does not change whom this publication is for.
      */
    method Publish(topic: string, event: nat, fails: nat -> bool) returns (ok: bool, called: seq<Job>)
      ensures closed ==> !ok && called == []
      ensures !closed ==> Ran(JobsFor(Recipients(subscribers, topic), event), 0, fails, ok, called)
      ensures ok ==> CallsBoth(called, Listeners(subscribers, topic), Listeners(subscribers, "*"), event)
      ensures !closed && (forall k :: !fails(k)) ==> ok
    {
      if closed {
        return false, [];
      }
      var own := JobsFor(Listeners(subscribers, topic), event);
      var wild := JobsFor(Listeners(subscribers, "*"), event);
      assert own + wild == JobsFor(Recipients(subscribers, topic), event);
      ok, called := CallAll(own, 0, fails);
      if !ok {
        return;
      }
      var more;
      ok, more := CallAll(wild, |own|, fails);
      RanBoth(own, wild, fails, ok, more);
      CalledAll(Listeners(subscribers, topic), Listeners(subscribers, "*"), event);
      called := called + more;
    }

    method Close()
      modifies this
      ensures View() == if old(closed) then old(View()) else Shut(old(View()))
      ensures closed && nextID == old(nextID) && (!old(closed) ==> subscribers == map[])
    {
      if closed {
        return;
      }
      closed := true;
      subscribers := map[];
    }
  }
}
