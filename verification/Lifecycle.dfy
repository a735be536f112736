/**
  Starting and stopping an application (grodyia.go), one call at a time.  The log holds, in
  order, what was done to transports and registry.
  */
module Lifecycle {
  import opened Wrappers

  datatype Action = Started(t: nat) | Stopped(t: nat) | Connected | Disconnected

  /** How the calls out of Start end: logger, before-start hooks, registry, each transport, publication. */
  datatype Script = Script(logger: bool, hooks: seq<bool>, connect: bool, starts: nat -> bool, publish: bool)

  datatype App = App(running: bool, transports: seq<nat>, hasRegistry: bool, busClosed: bool, log: seq<Action>)

  function StartsOf(ts: seq<nat>): (acts: seq<Action>)
    ensures |acts| == |ts|
  {
    seq(|ts|, i requires 0 <= i < |ts| => Started(ts[i]))
  }

  function StopsOf(ts: seq<nat>): (acts: seq<Action>)
    ensures |acts| == |ts|
  {
    seq(|ts|, i requires 0 <= i < |ts| => Stopped(ts[i]))
  }

  /** Stops in reverse order. */
  function StopsBack(ts: seq<nat>): (acts: seq<Action>)
    ensures |acts| == |ts|
  {
    seq(|ts|, i requires 0 <= i < |ts| => Stopped(ts[|ts| - 1 - i]))
  }

  /** How many transports start before one refuses. */
  function FirstRefusal(n: nat, starts: nat -> bool): (k: nat)
    ensures k <= n && (forall i :: 0 <= i < k ==> starts(i)) && (k < n ==> !starts(k))
  {
    if n == 0 then 0
    else
      var k := FirstRefusal(n - 1, starts);
      if k < n - 1 || !starts(n - 1) then k else n
  }

  /** Start gets as far as the registry. */
  predicate Prepares(s: Script) { s.logger && false !in s.hooks }

  function Connecting(a: App, s: Script): seq<Action> {
    if a.hasRegistry && s.connect then [Connected] else []
  }

  function Disconnecting(a: App, s: Script): seq<Action> {
    if a.hasRegistry && s.connect then [Disconnected] else []
  }

  predicate Comes(a: App, s: Script) {
    Prepares(s) && FirstRefusal(|a.transports|, s.starts) == |a.transports| && !a.busClosed && s.publish
  }

  predicate StartOk(a: App, s: Script) { a.running || Comes(a, s) }

  function AfterStart(a: App, s: Script): App {
    if a.running || !Prepares(s) then a
    else
      var ts := a.transports[..FirstRefusal(|a.transports|, s.starts)];
      var up := Connecting(a, s) + StartsOf(ts);
      if Comes(a, s) then a.(running := true, log := a.log + up)
      else a.(log := a.log + up + (StopsBack(ts) + Disconnecting(a, s)))
  }

  function AfterStop(a: App): App {
    if !a.running then a
    else
      a.(running := false, busClosed := true,
         log := a.log + ((if a.hasRegistry then [Disconnected] else []) + StopsOf(a.transports)))
  }

  datatype Op = Start(script: Script) | Stop | Bind(ts: seq<nat>)

  function After(a: App, op: Op): App {
    match op
    case Start(s) => AfterStart(a, s)
    case Stop => AfterStop(a)
    case Bind(ts) => a.(transports := a.transports + ts)
  }

  function Run(a: App, ops: seq<Op>): App
    decreases |ops|
  {
    if ops == [] then a else Run(After(a, ops[0]), ops[1..])
  }

  function New(hasRegistry: bool): App { App(false, [], hasRegistry, false, []) }

  // ------------------------------------------------------------------------------
  // Balance
  // ------------------------------------------------------------------------------

  function Times(ts: seq<nat>, t: nat): nat { multiset(ts)[t] }

  function Weight(act: Action, t: nat): int {
    if act == Started(t) then 1 else if act == Stopped(t) then -1 else 0
  }

  /** Starts minus stops of one transport. */
  function Balance(log: seq<Action>, t: nat): int {
    if log == [] then 0 else Balance(log[..|log| - 1], t) + Weight(log[|log| - 1], t)
  }

  lemma {:induction false} BalanceSplit(log: seq<Action>, more: seq<Action>, t: nat)
    ensures Balance(log + more, t) == Balance(log, t) + Balance(more, t)
    decreases |more|
  {
    if more == [] {
      assert log + more == log;
    } else {
      var n := |more| - 1;
      assert (log + more)[..|log| + n] == log + more[..n];
      BalanceSplit(log, more[..n], t);
    }
  }

  lemma TimesTake(ts: seq<nat>, n: nat, t: nat)
    requires n < |ts|
    ensures Times(ts[..n + 1], t) == Times(ts[..n], t) + (if ts[n] == t then 1 else 0)
  {
    assert ts[..n + 1] == ts[..n] + [ts[n]];
  }

  lemma TimesGrow(ts: seq<nat>, n: nat, t: nat)
    requires n <= |ts|
    ensures Times(ts[..n], t) <= Times(ts, t)
  {
    assert ts == ts[..n] + ts[n..];
  }

  lemma {:induction false} StartsBalance(ts: seq<nat>, n: nat, t: nat)
    requires n <= |ts|
    ensures Balance(StartsOf(ts)[..n], t) == Times(ts[..n], t)
    decreases n
  {
    if n > 0 {
      StartsBalance(ts, n - 1, t);
      TimesTake(ts, n - 1, t);
      assert StartsOf(ts)[..n][..n - 1] == StartsOf(ts)[..n - 1];
    }
  }

  lemma {:induction false} StopsBalance(ts: seq<nat>, n: nat, t: nat)
    requires n <= |ts|
    ensures Balance(StopsOf(ts)[..n], t) == 0 - Times(ts[..n], t)
    decreases n
  {
    if n > 0 {
      StopsBalance(ts, n - 1, t);
      TimesTake(ts, n - 1, t);
      assert StopsOf(ts)[..n][..n - 1] == StopsOf(ts)[..n - 1];
    }
  }

  /** Stopping backwards leaves, at every moment, the transports that were started first. */
  lemma {:induction false} StopsBackBalance(ts: seq<nat>, n: nat, t: nat)
    requires n <= |ts|
    ensures Balance(StopsBack(ts)[..n], t) == Times(ts[..|ts| - n], t) - Times(ts, t)
    decreases n
  {
    if n == 0 {
      assert ts[..|ts|] == ts;
    } else {
      StopsBackBalance(ts, n - 1, t);
      TimesTake(ts, |ts| - n, t);
      assert StopsBack(ts)[..n][..n - 1] == StopsBack(ts)[..n - 1];
    }
  }

  predicate Within(x: int, limit: nat) { 0 <= x <= limit }

  /** At no moment was a transport stopped more often than started, or started beyond its bindings. */
  ghost predicate Orderly(log: seq<Action>, t: nat, limit: nat) {
    forall n :: 0 <= n <= |log| ==> Within(Balance(log[..n], t), limit)
  }

  ghost predicate OrderlyFrom(start: int, log: seq<Action>, t: nat, limit: nat) {
    forall n :: 0 <= n <= |log| ==> Within(start + Balance(log[..n], t), limit)
  }

  lemma OrderlyMore(log: seq<Action>, more: seq<Action>, t: nat, limit: nat)
    requires Orderly(log, t, limit) && OrderlyFrom(Balance(log, t), more, t, limit)
    ensures Orderly(log + more, t, limit)
  {
    forall n | 0 <= n <= |log + more|
      ensures Within(Balance((log + more)[..n], t), limit)
    {
      if n <= |log| {
        assert (log + more)[..n] == log[..n];
      } else {
        assert (log + more)[..n] == log + more[..n - |log|];
        BalanceSplit(log, more[..n - |log|], t);
        assert Within(Balance(log, t) + Balance(more[..n - |log|], t), limit);
      }
    }
  }

  /** A stretch that says nothing about transports. */
  lemma QuietStretch(log: seq<Action>, act: Action, t: nat, limit: nat)
    requires Orderly(log, t, limit) && (act.Connected? || act.Disconnected?)
    ensures Orderly(log + [act], t, limit) && Balance(log + [act], t) == Balance(log, t)
  {
    BalanceSplit(log, [act], t);
    assert Balance(log[..|log|], t) == Balance(log, t) by { assert log[..|log|] == log; }
    forall n | 0 <= n <= 1
      ensures Within(Balance(log, t) + Balance([act][..n], t), limit)
    {
      assert Within(Balance(log[..|log|], t), limit);
    }
    OrderlyMore(log, [act], t, limit);
  }

  lemma StartStretch(log: seq<Action>, all: seq<nat>, k: nat, t: nat)
    requires Orderly(log, t, Times(all, t)) && Balance(log, t) == 0 && k <= |all|
    ensures Orderly(log + StartsOf(all[..k]), t, Times(all, t))
    ensures Balance(log + StartsOf(all[..k]), t) == Times(all[..k], t)
  {
    var ts := all[..k];
    forall n | 0 <= n <= |ts|
      ensures Within(Balance(log, t) + Balance(StartsOf(ts)[..n], t), Times(all, t))
    {
      StartsBalance(ts, n, t);
      assert ts[..n] == all[..n];
      TimesGrow(all, n, t);
    }
    OrderlyMore(log, StartsOf(ts), t, Times(all, t));
    BalanceSplit(log, StartsOf(ts), t);
    StartsBalance(ts, |ts|, t);
    assert StartsOf(ts)[..|ts|] == StartsOf(ts) && ts[..|ts|] == ts;
  }

  lemma StopBackStretch(log: seq<Action>, all: seq<nat>, k: nat, t: nat)
    requires k <= |all| && Orderly(log, t, Times(all, t)) && Balance(log, t) == Times(all[..k], t)
    ensures Orderly(log + StopsBack(all[..k]), t, Times(all, t))
    ensures Balance(log + StopsBack(all[..k]), t) == 0
  {
    var ts := all[..k];
    forall n | 0 <= n <= |ts|
      ensures Within(Balance(log, t) + Balance(StopsBack(ts)[..n], t), Times(all, t))
    {
      StopsBackBalance(ts, n, t);
      assert ts[..|ts| - n] == all[..k - n];
      TimesGrow(all, k - n, t);
    }
    OrderlyMore(log, StopsBack(ts), t, Times(all, t));
    BalanceSplit(log, StopsBack(ts), t);
    StopsBackBalance(ts, |ts|, t);
    assert StopsBack(ts)[..|ts|] == StopsBack(ts) && ts[..0] == [];
  }

  lemma StopStretch(log: seq<Action>, all: seq<nat>, t: nat)
    requires Orderly(log, t, Times(all, t)) && Balance(log, t) == Times(all, t)
    ensures Orderly(log + StopsOf(all), t, Times(all, t))
    ensures Balance(log + StopsOf(all), t) == 0
  {
    forall n | 0 <= n <= |all|
      ensures Within(Balance(log, t) + Balance(StopsOf(all)[..n], t), Times(all, t))
    {
      StopsBalance(all, n, t);
      TimesGrow(all, n, t);
    }
    OrderlyMore(log, StopsOf(all), t, Times(all, t));
    BalanceSplit(log, StopsOf(all), t);
    StopsBalance(all, |all|, t);
    assert StopsOf(all)[..|all|] == StopsOf(all) && all[..|all|] == all;
  }

  /** Each binding of a transport is up once when the application runs, and down otherwise. */
  ghost predicate Balanced(a: App, t: nat) {
    && Balance(a.log, t) == (if a.running then Times(a.transports, t) else 0)
    && Orderly(a.log, t, Times(a.transports, t))
  }

  /** Actions that say nothing about transports. */
  predicate Quiet(acts: seq<Action>) { acts == [] || (|acts| == 1 && (acts[0].Connected? || acts[0].Disconnected?)) }

  lemma QuietStretches(log: seq<Action>, acts: seq<Action>, t: nat, limit: nat)
    requires Orderly(log, t, limit) && Quiet(acts)
    ensures Orderly(log + acts, t, limit) && Balance(log + acts, t) == Balance(log, t)
  {
    if acts == [] {
      assert log + acts == log;
    } else {
      QuietStretch(log, acts[0], t, limit);
      assert acts == [acts[0]];
    }
  }

  lemma Join(log: seq<Action>, more: seq<Action>, rest: seq<Action>)
    ensures log + (more + rest) == (log + more) + rest
  {
  }

  lemma UpStretch(log: seq<Action>, quiet: seq<Action>, all: seq<nat>, k: nat, t: nat)
    requires Orderly(log, t, Times(all, t)) && Balance(log, t) == 0 && Quiet(quiet) && k <= |all|
    ensures var up := log + (quiet + StartsOf(all[..k]));
      Orderly(up, t, Times(all, t)) && Balance(up, t) == Times(all[..k], t)
  {
    QuietStretches(log, quiet, t, Times(all, t));
    StartStretch(log + quiet, all, k, t);
    Join(log, quiet, StartsOf(all[..k]));
  }

  lemma RollbackStretch(log: seq<Action>, quiet: seq<Action>, all: seq<nat>, k: nat, t: nat)
    requires k <= |all| && Quiet(quiet) && Orderly(log, t, Times(all, t)) && Balance(log, t) == Times(all[..k], t)
    ensures var down := log + (StopsBack(all[..k]) + quiet);
      Orderly(down, t, Times(all, t)) && Balance(down, t) == 0
  {
    StopBackStretch(log, all, k, t);
    QuietStretches(log + StopsBack(all[..k]), quiet, t, Times(all, t));
    Join(log, StopsBack(all[..k]), quiet);
  }

  lemma StartKeepsBalance(a: App, s: Script, t: nat)
    requires Balanced(a, t)
    ensures Balanced(AfterStart(a, s), t)
  {
    if !a.running && Prepares(s) {
      var k := FirstRefusal(|a.transports|, s.starts);
      UpStretch(a.log, Connecting(a, s), a.transports, k, t);
      if Comes(a, s) {
        assert a.transports[..k] == a.transports;
      } else {
        var up := a.log + (Connecting(a, s) + StartsOf(a.transports[..k]));
        RollbackStretch(up, Disconnecting(a, s), a.transports, k, t);
      }
    }
  }

  lemma StopKeepsBalance(a: App, t: nat)
    requires Balanced(a, t)
    ensures Balanced(AfterStop(a), t)
  {
    if a.running {
      var quiet := if a.hasRegistry then [Disconnected] else [];
      QuietStretches(a.log, quiet, t, Times(a.transports, t));
      StopStretch(a.log + quiet, a.transports, t);
      assert a.log + (quiet + StopsOf(a.transports)) == a.log + quiet + StopsOf(a.transports);
    }
  }

  /** Binding keeps the balance exactly when the application is not running, or nothing new is bound. */
  lemma BindKeepsBalance(a: App, ts: seq<nat>, t: nat)
    requires Balanced(a, t)
    ensures Balanced(After(a, Bind(ts)), t) <==> !a.running || t !in ts
  {
    assert multiset(a.transports + ts) == multiset(a.transports) + multiset(ts);
    forall n | 0 <= n <= |a.log|
      ensures Within(Balance(a.log[..n], t), Times(a.transports + ts, t))
    {
      assert Within(Balance(a.log[..n], t), Times(a.transports, t));
    }
    assert t in ts <==> Times(ts, t) > 0;
  }

  /** Transports are bound only while the application is not running. */
  predicate BindsEarly(a: App, ops: seq<Op>)
    decreases |ops|
  {
    ops == [] || ((ops[0].Bind? ==> !a.running) && BindsEarly(After(a, ops[0]), ops[1..]))
  }

  lemma {:induction false} RunKeepsBalance(a: App, ops: seq<Op>, t: nat)
    requires Balanced(a, t) && BindsEarly(a, ops)
    ensures Balanced(Run(a, ops), t)
    decreases |ops|
  {
    if ops != [] {
      match ops[0] {
        case Start(s) => StartKeepsBalance(a, s, t);
        case Stop => StopKeepsBalance(a, t);
        case Bind(ts) => BindKeepsBalance(a, ts, t);
      }
      RunKeepsBalance(After(a, ops[0]), ops[1..], t);
    }
  }

  /** The balance over whole runs. */
  lemma TransportsBalance(hasRegistry: bool, ops: seq<Op>, t: nat)
    requires BindsEarly(New(hasRegistry), ops)
    ensures Balanced(Run(New(hasRegistry), ops), t)
  {
    RunKeepsBalance(New(hasRegistry), ops, t);
  }

  /** Once an application was stopped it never runs again: every Start fails and undoes itself. */
  lemma {:induction false} StoppedForGood(a: App, ops: seq<Op>, s: Script)
    requires !a.running && a.busClosed
    ensures var b := Run(a, ops);
      && !b.running && b.busClosed && !StartOk(b, s) && !AfterStart(b, s).running
      && forall t :: Balance(AfterStart(b, s).log, t) == Balance(b.log, t)
    decreases |ops|
  {
    if ops == [] {
      forall t
        ensures Balance(AfterStart(a, s).log, t) == Balance(a.log, t)
      {
        FailedStartUndone(a, s, t);
      }
    } else {
      StoppedForGood(After(a, ops[0]), ops[1..], s);
    }
  }

  lemma QuietBalance(acts: seq<Action>, t: nat)
    requires Quiet(acts)
    ensures Balance(acts, t) == 0
  {
    if acts != [] {
      assert acts[..|acts| - 1] == [];
    }
  }

  lemma RollbackBalance(ts: seq<nat>, t: nat)
    ensures Balance(StartsOf(ts), t) + Balance(StopsBack(ts), t) == 0
  {
    StartsBalance(ts, |ts|, t);
    StopsBackBalance(ts, |ts|, t);
    assert StartsOf(ts)[..|ts|] == StartsOf(ts) && StopsBack(ts)[..|ts|] == StopsBack(ts);
    assert ts[..|ts|] == ts && ts[..0] == [];
  }

  lemma FailedStartUndone(a: App, s: Script, t: nat)
    requires !StartOk(a, s)
    ensures Balance(AfterStart(a, s).log, t) == Balance(a.log, t)
  {
    if Prepares(s) {
      var ts := a.transports[..FirstRefusal(|a.transports|, s.starts)];
      UndoneBalance(a.log, Connecting(a, s), StartsOf(ts), StopsBack(ts), Disconnecting(a, s), ts, t);
    }
  }

  lemma UndoneBalance(log: seq<Action>, conn: seq<Action>, up: seq<Action>, down: seq<Action>, disc: seq<Action>,
                      ts: seq<nat>, t: nat)
    requires Quiet(conn) && Quiet(disc) && up == StartsOf(ts) && down == StopsBack(ts)
    ensures Balance(log + (conn + up) + (down + disc), t) == Balance(log, t)
  {
    BalanceSplit(log + (conn + up), down + disc, t);
    BalanceSplit(log, conn + up, t);
    BalanceSplit(conn, up, t);
    BalanceSplit(down, disc, t);
    QuietBalance(conn, t);
    QuietBalance(disc, t);
    RollbackBalance(ts, t);
  }

  function Inverse(act: Action): Action {
    match act
    case Started(t) => Stopped(t)
    case Stopped(t) => Started(t)
    case Connected => Disconnected
    case Disconnected => Connected
  }

  /** Undoing a sequence of actions: the last one first. */
  function Undo(acts: seq<Action>): seq<Action> {
    if acts == [] then [] else Undo(acts[1..]) + [Inverse(acts[0])]
  }

  lemma {:induction false} UndoSplit(xs: seq<Action>, ys: seq<Action>)
    ensures Undo(xs + ys) == Undo(ys) + Undo(xs)
    decreases |xs|
  {
    if xs == [] {
      assert xs + ys == ys;
    } else {
      assert (xs + ys)[1..] == xs[1..] + ys;
      UndoSplit(xs[1..], ys);
    }
  }

  lemma {:induction false} UndoStarts(ts: seq<nat>)
    ensures Undo(StartsOf(ts)) == StopsBack(ts)
    decreases |ts|
  {
    if ts != [] {
      UndoStarts(ts[1..]);
      assert StartsOf(ts)[1..] == StartsOf(ts[1..]);
      assert StopsBack(ts) == StopsBack(ts[1..]) + [Stopped(ts[0])];
    }
  }

  /** What a Start did before it failed or succeeded. */
  function Did(a: App, s: Script): seq<Action> {
    if !Prepares(s) then []
    else Connecting(a, s) + StartsOf(a.transports[..FirstRefusal(|a.transports|, s.starts)])
  }

  /** A failed Start takes back exactly what it did, in reverse order; a successful one takes nothing back. */
  lemma StartIsAllOrNothing(a: App, s: Script)
    requires !a.running
    ensures AfterStart(a, s).log == a.log + Did(a, s) + (if StartOk(a, s) then [] else Undo(Did(a, s)))
  {
    if Prepares(s) {
      var ts := a.transports[..FirstRefusal(|a.transports|, s.starts)];
      UndoSplit(Connecting(a, s), StartsOf(ts));
      UndoStarts(ts);
      if a.hasRegistry && s.connect {
        assert Undo([Connected][1..]) == [];
      }
    }
  }

  // ------------------------------------------------------------------------------
  // The registry
  // ------------------------------------------------------------------------------

  /** The connection to the registry after these actions. */
  function Linked(log: seq<Action>): bool {
    if log == [] then false
    else
      match log[|log| - 1]
      case Connected => true
      case Disconnected => false
      case Started(_) | Stopped(_) => Linked(log[..|log| - 1])
  }

  lemma {:induction false} LinkedSplit(log: seq<Action>, more: seq<Action>)
    requires forall i :: 0 <= i < |more| ==> more[i].Started? || more[i].Stopped?
    ensures Linked(log + more) == Linked(log)
    decreases |more|
  {
    if more == [] {
      assert log + more == log;
    } else {
      var n := |more| - 1;
      assert (log + more)[..|log| + n] == log + more[..n];
      LinkedSplit(log, more[..n]);
    }
  }

  lemma LinkedBoth(log: seq<Action>, quiet: seq<Action>, acts: seq<Action>)
    requires forall i :: 0 <= i < |acts| ==> acts[i].Started? || acts[i].Stopped?
    ensures Linked(log + (quiet + acts)) == Linked(log + quiet)
    ensures Linked(log + (acts + quiet)) == if quiet == [] then Linked(log) else Linked(log + acts + quiet)
  {
    Join(log, quiet, acts);
    Join(log, acts, quiet);
    LinkedSplit(log + quiet, acts);
    LinkedSplit(log, acts);
    assert quiet == [] ==> log + acts + quiet == log + acts;
  }

  /** A Start that comes up is connected if the registry could be reached; one that fails is not. */
  lemma StartLinks(a: App, s: Script)
    requires !a.running && !Linked(a.log)
    ensures Linked(AfterStart(a, s).log) <==> StartOk(a, s) && a.hasRegistry && s.connect
  {
    if Prepares(s) {
      var ts := a.transports[..FirstRefusal(|a.transports|, s.starts)];
      var conn, disc := Connecting(a, s), Disconnecting(a, s);
      LinkedBoth(a.log, conn, StartsOf(ts));
      assert conn == [] ==> a.log + conn == a.log;
      if !Comes(a, s) {
        LinkedBoth(a.log + (conn + StartsOf(ts)), disc, StopsBack(ts));
      }
    }
  }

  lemma StopUnlinks(a: App)
    requires a.running && (Linked(a.log) ==> a.hasRegistry)
    ensures !Linked(AfterStop(a).log)
  {
    var quiet := if a.hasRegistry then [Disconnected] else [];
    LinkedBoth(a.log, quiet, StopsOf(a.transports));
    assert quiet == [] ==> a.log + quiet == a.log;
  }

  lemma {:induction false} RunReleasesRegistry(a: App, ops: seq<Op>)
    requires Linked(a.log) ==> a.running && a.hasRegistry
    ensures var b := Run(a, ops); Linked(b.log) ==> b.running && b.hasRegistry
    decreases |ops|
  {
    if ops != [] {
      match ops[0] {
        case Start(s) =>
          if !a.running {
            StartLinks(a, s);
          }
        case Stop =>
          if a.running {
            StopUnlinks(a);
          }
        case Bind(_) =>
      }
      RunReleasesRegistry(After(a, ops[0]), ops[1..]);
    }
  }

  /** In every run: an application that is not running has no connection to the registry left. */
  lemma RegistryIsReleased(hasRegistry: bool, ops: seq<Op>)
    ensures var a := Run(New(hasRegistry), ops); Linked(a.log) ==> a.running && a.hasRegistry
  {
    RunReleasesRegistry(New(hasRegistry), ops);
  }

  type Outcome = Option<string>

  /** The error of the last of n calls that had one; none exactly when none had. */
  ghost predicate LastError(n: nat, errors: nat -> Outcome, err: Outcome) {
    if err.None? then forall i :: 0 <= i < n ==> errors(i).None?
    else exists k :: 0 <= k < n && errors(k) == err && forall i :: k < i < n ==> errors(i).None?
  }

  // ------------------------------------------------------------------------------
  // The object
  // ------------------------------------------------------------------------------

  class Application {
    var running: bool
    var starting: bool
    var transports: seq<nat>
    const hasRegistry: bool
    var busClosed: bool
    var log: seq<Action>

    ghost function View(): App
      reads this
    {
      App(running, transports, hasRegistry, busClosed, log)
    }

    constructor (hasRegistry: bool)
      ensures View() == New(hasRegistry) && !starting
      ensures !running && !busClosed && transports == [] && log == [] && this.hasRegistry == hasRegistry
    {
      this.hasRegistry := hasRegistry;
      running, starting, busClosed := false, false, false;
      transports, log := [], [];
    }

    method Bind(ts: seq<nat>)
      modifies this`transports
      ensures View() == After(old(View()), Op.Bind(ts)) && starting == old(starting)
      ensures transports == old(transports) + ts
    {
      transports := transports + ts;
    }

    /** The before-start hooks, up to the first that fails. */
    method RunHooks(hooks: seq<bool>) returns (ok: bool)
      ensures ok <==> false !in hooks
    {
      for i := 0 to |hooks|
        invariant false !in hooks[..i]
      {
        if !hooks[i] {
          return false;
        }
      }
      ok := true;
    }

    /** The loop over the transports. */
    method StartTransports(starts: nat -> bool) returns (ok: bool, started: seq<nat>)
      modifies this`log
      ensures var k := FirstRefusal(|transports|, starts);
        ok == (k == |transports|) && started == transports[..k]
      ensures log == old(log) + StartsOf(started)
    {
      started := [];
      for i := 0 to |transports|
        invariant started == transports[..i] && log == old(log) + StartsOf(started)
        invariant forall j :: 0 <= j < i ==> starts(j)
      {
        if !starts(i) {
          return false, started;
        }
        log := log + [Started(transports[i])];
        started := started + [transports[i]];
        assert StartsOf(started) == StartsOf(transports[..i]) + [Started(transports[i])];
      }
      ok := true;
    }

    /** The deferred rollback: the started transports in reverse order, then the registry. */
    method Rollback(started: seq<nat>, connected: bool)
      modifies this`log
      ensures log == old(log) + (StopsBack(started) + (if connected then [Disconnected] else []))
    {
      var i := |started|;
      while i > 0
        invariant 0 <= i <= |started| && log == old(log) + StopsBack(started)[..|started| - i]
      {
        i := i - 1;
        log := log + [Stopped(started[i])];
      }
      assert log == old(log) + StopsBack(started);
      if connected {
        log := log + [Disconnected];
      }
    }

    method Start(s: Script) returns (ok: bool)
      modifies this
      ensures old(starting) ==> ok && View() == old(View()) && starting
      ensures !old(starting) ==> View() == AfterStart(old(View()), s) && ok == StartOk(old(View()), s) && !starting
      ensures !old(starting) && !old(running) ==>
                (ok <==> && s.logger && (forall i :: 0 <= i < |s.hooks| ==> s.hooks[i])
                         && (forall i :: 0 <= i < |transports| ==> s.starts(i)) && !busClosed && s.publish)
    {
      if running || starting {
        return true;
      }
      starting := true;
      var connected, started;
      ok, connected, started := Bring(s);
      starting := false;
      running := ok;
      if !ok {
        Rollback(started, connected);
      }
    }

    /** A registry that cannot be reached only causes a warning. */
    method ConnectRegistry(reachable: bool) returns (connected: bool)
      modifies this`log
      ensures connected == (hasRegistry && reachable)
      ensures log == old(log) + (if connected then [Connected] else [])
    {
      connected := hasRegistry && reachable;
      if connected {
        log := log + [Connected];
      }
    }

    /** The body of Start up to its return; meanwhile another Start finds `starting` set. */
    method Bring(s: Script) returns (ok: bool, connected: bool, started: seq<nat>)
      requires starting && !running
      modifies this`log
      ensures connected == (Prepares(s) && hasRegistry && s.connect)
      ensures started == if Prepares(s) then transports[..FirstRefusal(|transports|, s.starts)] else []
      ensures log == old(log) + ((if connected then [Connected] else []) + StartsOf(started))
      ensures ok <==> Prepares(s) && started == transports && !busClosed && s.publish
    {
      connected, started := false, [];
      if !s.logger {
        return false, connected, started;
      }
      ok := RunHooks(s.hooks);
      if !ok {
        return;
      }
      connected := ConnectRegistry(s.connect);
      ok, started := StartTransports(s.starts);
      if !ok {
        return;
      }
      assert transports[..|transports|] == transports;
      ok := !busClosed && s.publish;
    }

    /**
      Stop; stopping transport i answers errors(i).  An error stops nothing else from being
      stopped, and the last one is returned.
      */
    method Stop(errors: nat -> Outcome) returns (err: Outcome)
      modifies this
      ensures View() == AfterStop(old(View())) && starting == old(starting)
      ensures old(running) ==> !running && busClosed
      ensures old(running) ==> log == old(log) + (if hasRegistry then [Disconnected] else []) + StopsOf(transports)
      ensures !old(running) ==> err.None?
      ensures old(running) ==> LastError(|old(transports)|, errors, err)
    {
      err := None;
      if !running {
        return;
      }
      running := false;
      if hasRegistry {
        log := log + [Disconnected];
      }
      ghost var before := log;
      for i := 0 to |transports|
        invariant transports == old(transports) && !running
        invariant starting == old(starting) && busClosed == old(busClosed)
        invariant log == before + StopsOf(transports)[..i]
        invariant LastError(i, errors, err)
      {
        log := log + [Stopped(transports[i])];
        if errors(i).Some? {
          err := errors(i);
        }
      }
      assert StopsOf(transports)[..|transports|] == StopsOf(transports);
      busClosed := true;
    }
  }
}
