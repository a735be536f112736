/**
  The circuit breaker (middleware/circuitbreaker.go).  Every method runs under one lock, so
  what concurrent callers do to a breaker is one sequence of calls, whatever its order.
  */
module Breaker {
  import opened Spacing

  datatype State = Closed | Open | HalfOpen

  datatype Settings = Settings(failureThreshold: int, successThreshold: int, timeout: int)

  /**
    A call and the clock readings it makes: Allow reads the clock to check the timeout, and
    a change of state reads it once more.
    */
  datatype Call = Ask(check: int, stamp: int) | Success(stamp: int) | Failure(stamp: int)

  datatype Status = Status(state: State, failures: int, successes: int, since: int)

  function Changed(to': State, stamp: int): Status { Status(to', 0, 0, stamp) }

  /** The wait of an open breaker is over. */
  predicate Rested(cfg: Settings, m: Status, check: int) { check - m.since >= cfg.timeout }

  function Next(cfg: Settings, m: Status, c: Call): Status {
    match c
    case Ask(check, stamp) =>
      if m.state.Open? && Rested(cfg, m, check) then Changed(HalfOpen, stamp) else m
    case Success(stamp) =>
      (match m.state
       case Closed => m.(failures := 0)
       case HalfOpen =>
         if m.successes + 1 >= cfg.successThreshold then Changed(Closed, stamp)
         else m.(successes := m.successes + 1)
       case Open => m)
    case Failure(stamp) =>
      (match m.state
       case Closed =>
         if m.failures + 1 >= cfg.failureThreshold then Changed(Open, stamp)
         else m.(failures := m.failures + 1)
       case HalfOpen => Changed(Open, stamp)
       case Open => m)
  }

  predicate Admits(cfg: Settings, m: Status, check: int) { !m.state.Open? || Rested(cfg, m, check) }

  /** The breaker created at time `born`, after the given calls. */
  function After(cfg: Settings, born: int, calls: seq<Call>): Status {
    if calls == [] then Changed(Closed, born)
    else Next(cfg, After(cfg, born, calls[..|calls| - 1]), calls[|calls| - 1])
  }

  // ------------------------------------------------------------------------------
  // The history, read without the counters
  // ------------------------------------------------------------------------------

  predicate Moves(cfg: Settings, born: int, calls: seq<Call>, c: Call) {
    After(cfg, born, calls + [c]).state != After(cfg, born, calls).state
  }

  /** The calls since the state last changed. */
  function Phase(cfg: Settings, born: int, calls: seq<Call>): seq<Call> {
    if calls == [] then []
    else
      var before, c := calls[..|calls| - 1], calls[|calls| - 1];
      if Moves(cfg, born, before, c) then [] else Phase(cfg, born, before) + [c]
  }

  /** How many failures in a row the calls end with; asking for admission does not interrupt them. */
  function Streak(calls: seq<Call>): nat {
    if calls == [] then 0
    else
      match calls[|calls| - 1]
      case Ask(_, _) => Streak(calls[..|calls| - 1])
      case Success(_) => 0
      case Failure(_) => Streak(calls[..|calls| - 1]) + 1
  }

  function Successes(calls: seq<Call>): nat {
    if calls == [] then 0
    else Successes(calls[..|calls| - 1]) + (if calls[|calls| - 1].Success? then 1 else 0)
  }

  predicate NoFailure(calls: seq<Call>) { forall i :: 0 <= i < |calls| ==> !calls[i].Failure? }

  lemma AfterAppend(cfg: Settings, born: int, calls: seq<Call>, c: Call)
    ensures After(cfg, born, calls + [c]) == Next(cfg, After(cfg, born, calls), c)
    ensures Phase(cfg, born, calls + [c]) ==
            if Moves(cfg, born, calls, c) then [] else Phase(cfg, born, calls) + [c]
  {
    assert (calls + [c])[..|calls|] == calls;
  }

  lemma CountsAppend(calls: seq<Call>, c: Call)
    ensures Streak(calls + [c]) ==
            if c.Failure? then Streak(calls) + 1 else if c.Success? then 0 else Streak(calls)
    ensures Successes(calls + [c]) == Successes(calls) + (if c.Success? then 1 else 0)
  {
    assert (calls + [c])[..|calls|] == calls;
  }

  /** The counters are what the history of the current state says, and below their thresholds. */
  predicate Recorded(cfg: Settings, m: Status, phase: seq<Call>) {
    match m.state
    case Closed =>
      m.successes == 0 && m.failures == Streak(phase) && (m.failures == 0 || m.failures < cfg.failureThreshold)
    case Open => m.failures == 0 && m.successes == 0
    case HalfOpen =>
      && m.failures == 0 && m.successes == Successes(phase) && NoFailure(phase)
      && (m.successes == 0 || m.successes < cfg.successThreshold)
  }

  /** Whatever the thresholds, and whatever the clock reads. */
  lemma {:induction false} CountersFoldTheHistory(cfg: Settings, born: int, calls: seq<Call>)
    ensures Recorded(cfg, After(cfg, born, calls), Phase(cfg, born, calls))
    decreases |calls|
  {
    if calls != [] {
      var before, c := calls[..|calls| - 1], calls[|calls| - 1];
      CountersFoldTheHistory(cfg, born, before);
      assert calls == before + [c];
      AfterAppend(cfg, born, before, c);
      CountsAppend(Phase(cfg, born, before), c);
    }
  }

  /**
    Opening, exactly: on a failure in half-open, or on the failure that completes a row of
    failureThreshold since closing (any failure, when the threshold is below two).
    */
  lemma OpensExactlyWhen(cfg: Settings, born: int, calls: seq<Call>, c: Call)
    ensures var m, phase := After(cfg, born, calls), Phase(cfg, born, calls);
      !m.state.Open? && After(cfg, born, calls + [c]).state.Open? <==>
      c.Failure? && (m.state.HalfOpen? || (m.state.Closed? && Streak(phase) + 1 >= cfg.failureThreshold))
    ensures var m, phase := After(cfg, born, calls), Phase(cfg, born, calls);
      m.state.Closed? && 1 <= cfg.failureThreshold ==> Streak(phase) + 1 <= cfg.failureThreshold
  {
    AfterAppend(cfg, born, calls, c);
    CountersFoldTheHistory(cfg, born, calls);
    NextOpens(cfg, After(cfg, born, calls), c);
  }

  lemma NextOpens(cfg: Settings, m: Status, c: Call)
    ensures !m.state.Open? && Next(cfg, m, c).state.Open? <==>
            c.Failure? && (m.state.HalfOpen? || (m.state.Closed? && m.failures + 1 >= cfg.failureThreshold))
  {
  }

  /** Closing, exactly: on the last of successThreshold successes in half-open, without a failure there. */
  lemma ClosesExactlyWhen(cfg: Settings, born: int, calls: seq<Call>, c: Call)
    ensures var m, phase := After(cfg, born, calls), Phase(cfg, born, calls);
      !m.state.Closed? && After(cfg, born, calls + [c]).state.Closed? <==>
      c.Success? && m.state.HalfOpen? && NoFailure(phase) && Successes(phase) + 1 >= cfg.successThreshold
    ensures var m, phase := After(cfg, born, calls), Phase(cfg, born, calls);
      m.state.HalfOpen? && 1 <= cfg.successThreshold ==> Successes(phase) + 1 <= cfg.successThreshold
  {
    AfterAppend(cfg, born, calls, c);
    CountersFoldTheHistory(cfg, born, calls);
  }

  // ------------------------------------------------------------------------------
  // The clock
  // ------------------------------------------------------------------------------

  function First(c: Call): int { if c.Ask? then c.check else c.stamp }

  /** The clock never runs backwards. */
  predicate Timely(born: int, calls: seq<Call>) {
    && (forall i :: 0 <= i < |calls| ==> born <= First(calls[i]) <= calls[i].stamp)
    && forall i, j :: 0 <= i < j < |calls| ==> calls[i].stamp <= First(calls[j])
  }

  predicate OpensAt(cfg: Settings, born: int, calls: seq<Call>, i: nat)
    requires i < |calls|
  {
    !After(cfg, born, calls[..i]).state.Open? && After(cfg, born, calls[..i + 1]).state.Open?
  }

  /** The times at which the breaker opened. */
  function Openings(cfg: Settings, born: int, calls: seq<Call>): seq<int> {
    if calls == [] then []
    else
      var n := |calls| - 1;
      Openings(cfg, born, calls[..n]) + (if OpensAt(cfg, born, calls, n) then [calls[n].stamp] else [])
  }

  /** Since opening at `start`, either still waiting, or the wait is over and it is now at least `now`. */
  predicate Waited(cfg: Settings, m: Status, start: int, now: int) {
    if m.state.Open? then m.since >= start else start + cfg.timeout <= now
  }

  lemma {:induction false} WaitsAfterOpening(cfg: Settings, born: int, calls: seq<Call>, i: nat, j: nat)
    requires Timely(born, calls) && i < j <= |calls| && OpensAt(cfg, born, calls, i)
    ensures Waited(cfg, After(cfg, born, calls[..j]), calls[i].stamp, calls[j - 1].stamp)
    decreases j
  {
    assert calls[..j][..j - 1] == calls[..j - 1];
    if j == i + 1 {
      AfterAppend(cfg, born, calls[..i], calls[i]);
      assert calls[..j] == calls[..i] + [calls[i]];
    } else {
      WaitsAfterOpening(cfg, born, calls, i, j - 1);
    }
  }

  /** After an opening nobody is admitted until the timeout has passed. */
  lemma NothingAdmittedBeforeTimeout(cfg: Settings, born: int, calls: seq<Call>, i: nat, j: nat)
    requires Timely(born, calls) && i < j < |calls| && OpensAt(cfg, born, calls, i)
    requires calls[j].Ask? && Admits(cfg, After(cfg, born, calls[..j]), calls[j].check)
    ensures calls[i].stamp + cfg.timeout <= calls[j].check
  {
    WaitsAfterOpening(cfg, born, calls, i, j);
  }

  lemma {:induction false} StillOpen(cfg: Settings, born: int, calls: seq<Call>, i: nat, j: nat)
    requires i < j <= |calls| && OpensAt(cfg, born, calls, i)
    requires forall k :: i < k <= j ==> After(cfg, born, calls[..k]).state.Open?
    ensures After(cfg, born, calls[..j]).since == calls[i].stamp
    decreases j
  {
    assert calls[..j][..j - 1] == calls[..j - 1] && calls[..j][j - 1] == calls[j - 1];
    if j > i + 1 {
      StillOpen(cfg, born, calls, i, j - 1);
    }
  }

  /** And exactly then: while the breaker stays open, a request is admitted from the timeout on. */
  lemma AdmittedExactlyAfterTimeout(cfg: Settings, born: int, calls: seq<Call>, i: nat, j: nat, check: int)
    requires i < j <= |calls| && OpensAt(cfg, born, calls, i)
    requires forall k :: i < k <= j ==> After(cfg, born, calls[..k]).state.Open?
    ensures Admits(cfg, After(cfg, born, calls[..j]), check) <==> check >= calls[i].stamp + cfg.timeout
  {
    StillOpen(cfg, born, calls, i, j);
  }

  /** When the breaker last opened, and how that bounds the next time. */
  predicate Rests(cfg: Settings, m: Status, times: seq<int>, now: int) {
    && Spaced(times, cfg.timeout)
    && (times == [] ==> !m.state.Open?)
    && (times != [] ==> Waited(cfg, m, times[|times| - 1], now))
  }

  lemma RestsStep(cfg: Settings, m: Status, times: seq<int>, now: int, c: Call)
    requires Rests(cfg, m, times, now) && now <= First(c) <= c.stamp
    ensures var m' := Next(cfg, m, c);
      Rests(cfg, m', if !m.state.Open? && m'.state.Open? then times + [c.stamp] else times, c.stamp)
  {
    if times != [] && !m.state.Open? {
      SpacedAppend(times, cfg.timeout, c.stamp);
    }
  }

  function Latest(born: int, calls: seq<Call>): int { if calls == [] then born else calls[|calls| - 1].stamp }

  lemma {:induction false} OpeningsAreSpaced(cfg: Settings, born: int, calls: seq<Call>)
    requires Timely(born, calls)
    ensures Rests(cfg, After(cfg, born, calls), Openings(cfg, born, calls), Latest(born, calls))
    decreases |calls|
  {
    if calls != [] {
      var n := |calls| - 1;
      OpeningsAreSpaced(cfg, born, calls[..n]);
      assert Latest(born, calls[..n]) <= First(calls[n]);
      RestsStep(cfg, After(cfg, born, calls[..n]), Openings(cfg, born, calls[..n]), Latest(born, calls[..n]), calls[n]);
      assert calls[..n + 1] == calls;
      assert Openings(cfg, born, calls[..n]) + [] == Openings(cfg, born, calls[..n]);
    }
  }

  /** In any span of length `span` the breaker opens at most 1 + span / timeout times. */
  lemma OpeningsInSpan(cfg: Settings, born: int, calls: seq<Call>, i: nat, j: nat, span: int)
    requires Timely(born, calls) && cfg.timeout > 0
    requires i <= j < |Openings(cfg, born, calls)|
    requires Openings(cfg, born, calls)[j] - Openings(cfg, born, calls)[i] <= span
    ensures j - i + 1 <= 1 + span / cfg.timeout
  {
    OpeningsAreSpaced(cfg, born, calls);
    Distance(Openings(cfg, born, calls), cfg.timeout, i, j);
    Fits(j - i, cfg.timeout, span);
  }

  lemma Fits(n: nat, gap: int, span: int)
    requires gap > 0 && n * gap <= span
    ensures n <= span / gap
  {
    var q := span / gap;
    assert span < (q + 1) * gap;
    assert q < n ==> (q + 1) * gap <= n * gap;
  }

  // ------------------------------------------------------------------------------
  // Half-open is not limited
  // ------------------------------------------------------------------------------

  predicate OnlyAsks(calls: seq<Call>) { forall i :: 0 <= i < |calls| ==> calls[i].Ask? }

  lemma {:induction false} HalfOpenStays(cfg: Settings, born: int, calls: seq<Call>, asks: seq<Call>)
    requires After(cfg, born, calls).state.HalfOpen? && OnlyAsks(asks)
    ensures After(cfg, born, calls + asks) == After(cfg, born, calls)
    decreases |asks|
  {
    if asks == [] {
      assert calls + asks == calls;
    } else {
      var n := |asks| - 1;
      HalfOpenStays(cfg, born, calls, asks[..n]);
      assert calls + asks == (calls + asks[..n]) + [asks[n]];
      AfterAppend(cfg, born, calls + asks[..n], asks[n]);
    }
  }

  /** However many requests ask a half-open breaker, all are admitted, and asking changes nothing. */
  lemma HalfOpenAdmitsAll(cfg: Settings, born: int, calls: seq<Call>, asks: seq<Call>)
    requires After(cfg, born, calls).state.HalfOpen? && OnlyAsks(asks)
    ensures After(cfg, born, calls + asks) == After(cfg, born, calls)
    ensures forall i :: 0 <= i < |asks| ==> Admits(cfg, After(cfg, born, calls + asks[..i]), asks[i].check)
  {
    HalfOpenStays(cfg, born, calls, asks);
    forall i | 0 <= i < |asks|
      ensures Admits(cfg, After(cfg, born, calls + asks[..i]), asks[i].check)
    {
      HalfOpenStays(cfg, born, calls, asks[..i]);
    }
  }

  function Failures(n: nat, stamp: int): seq<Call> { seq(n, _ => Failure(stamp)) }

  lemma {:induction false} FailuresCount(cfg: Settings, born: int, n: nat)
    requires n == 0 || n < cfg.failureThreshold
    ensures After(cfg, born, Failures(n, born)) == Status(Closed, n, 0, born)
    decreases n
  {
    if n > 0 {
      FailuresCount(cfg, born, n - 1);
      assert Failures(n, born) == Failures(n - 1, born) + [Failure(born)];
      AfterAppend(cfg, born, Failures(n - 1, born), Failure(born));
    }
  }

  function Enough(cfg: Settings): nat { if cfg.failureThreshold > 1 then cfg.failureThreshold else 1 }

  function RestedAt(cfg: Settings, born: int): int { if cfg.timeout > 0 then born + cfg.timeout else born }

  lemma FailuresOpen(cfg: Settings, born: int)
    ensures After(cfg, born, Failures(Enough(cfg), born)) == Changed(Open, born)
  {
    var n := Enough(cfg) - 1;
    FailuresCount(cfg, born, n);
    assert Failures(n + 1, born) == Failures(n, born) + [Failure(born)];
    AfterAppend(cfg, born, Failures(n, born), Failure(born));
  }

  /** A run from creation to half-open, for any settings: enough failures, and the timeout. */
  function ToHalfOpen(cfg: Settings, born: int): seq<Call> {
    Failures(Enough(cfg), born) + [Ask(RestedAt(cfg, born), RestedAt(cfg, born))]
  }

  lemma ToHalfOpenGetsThere(cfg: Settings, born: int)
    ensures After(cfg, born, ToHalfOpen(cfg, born)).state.HalfOpen?
  {
    FailuresOpen(cfg, born);
    AfterAppend(cfg, born, Failures(Enough(cfg), born), Ask(RestedAt(cfg, born), RestedAt(cfg, born)));
  }

  lemma ToHalfOpenIsTimely(cfg: Settings, born: int)
    ensures Timely(born, ToHalfOpen(cfg, born))
  {
    var calls := ToHalfOpen(cfg, born);
    assert forall i :: 0 <= i < |calls| ==>
        calls[i] == if i < Enough(cfg) then Failure(born) else Ask(RestedAt(cfg, born), RestedAt(cfg, born));
  }

  /** So a breaker gets half-open and then admits any number of requests. */
  lemma HalfOpenIsReached(cfg: Settings, born: int, asks: seq<Call>)
    requires OnlyAsks(asks)
    ensures Timely(born, ToHalfOpen(cfg, born)) && After(cfg, born, ToHalfOpen(cfg, born)).state.HalfOpen?
    ensures forall i :: 0 <= i < |asks| ==>
              Admits(cfg, After(cfg, born, ToHalfOpen(cfg, born) + asks[..i]), asks[i].check)
  {
    ToHalfOpenIsTimely(cfg, born);
    ToHalfOpenGetsThere(cfg, born);
    HalfOpenAdmitsAll(cfg, born, ToHalfOpen(cfg, born), asks);
  }

  // ------------------------------------------------------------------------------
  // The object
  // ------------------------------------------------------------------------------

  class CircuitBreaker {
    const cfg: Settings
    ghost const born: int
    var state: State
    var failures: int
    var successes: int
    var lastStateChange: int
    ghost var calls: seq<Call>

    ghost function Now(): Status
      reads this`state, this`failures, this`successes, this`lastStateChange
    {
      Status(state, failures, successes, lastStateChange)
    }

    ghost predicate Valid()
      reads this
    {
      Now() == After(cfg, born, calls)
    }

    constructor (cfg: Settings, now: int)
      ensures Valid() && this.cfg == cfg && born == now && calls == []
    {
      this.cfg, born := cfg, now;
      state, failures, successes, lastStateChange := Closed, 0, 0, now;
      calls := [];
    }

    method SetState(newState: State, stamp: int)
      modifies this`state, this`failures, this`successes, this`lastStateChange
      ensures Now() == Changed(newState, stamp)
    {
      state, lastStateChange := newState, stamp;
      failures, successes := 0, 0;
    }

    method Allow(check: int, stamp: int) returns (ok: bool)
      requires Valid()
      modifies this
      ensures Valid() && calls == old(calls) + [Ask(check, stamp)]
      ensures ok == Admits(cfg, old(Now()), check)
      ensures !ok <==> old(state).Open? && check < old(lastStateChange) + cfg.timeout
      ensures if ok && old(state).Open? then state.HalfOpen? && lastStateChange == stamp else Now() == old(Now())
    {
      AfterAppend(cfg, born, calls, Ask(check, stamp));
      calls := calls + [Ask(check, stamp)];
      match state
      case Closed => ok := true;
      case Open =>
        ok := check - lastStateChange >= cfg.timeout;
        if ok {
          SetState(HalfOpen, stamp);
        }
      case HalfOpen => ok := true;
    }

    method RecordSuccess(stamp: int)
      requires Valid()
      modifies this
      ensures Valid() && calls == old(calls) + [Success(stamp)]
    {
      AfterAppend(cfg, born, calls, Success(stamp));
      calls := calls + [Success(stamp)];
      match state
      case Closed => failures := 0;
      case Open =>
      case HalfOpen =>
        successes := successes + 1;
        if successes >= cfg.successThreshold {
          SetState(Closed, stamp);
        }
    }

    method RecordFailure(stamp: int)
      requires Valid()
      modifies this
      ensures Valid() && calls == old(calls) + [Failure(stamp)]
    {
      AfterAppend(cfg, born, calls, Failure(stamp));
      calls := calls + [Failure(stamp)];
      match state
      case Closed =>
        failures := failures + 1;
        if failures >= cfg.failureThreshold {
          SetState(Open, stamp);
        }
      case Open =>
      case HalfOpen => SetState(Open, stamp);
    }

    /** Other callers use the breaker any number of times. */
    method Interfere()
      requires Valid()
      modifies this
      ensures Valid() && old(calls) <= calls
    {
    }

    /**
      Execute of a function that fails or not, with other callers in between: one request
      for admission, and one outcome exactly when it was admitted.
      */
    method Execute(fails: bool, check: int, stamp: int, end: int) returns (ran: bool, failed: bool)
      requires Valid()
      modifies this
      ensures Valid() && old(calls) + [Ask(check, stamp)] <= calls
      ensures ran == Admits(cfg, old(Now()), check)
      ensures !ran ==> calls == old(calls) + [Ask(check, stamp)]
      ensures ran ==> calls[|calls| - 1] == if fails then Failure(end) else Success(end)
      ensures failed == (!ran || fails)
    {
      ran := Allow(check, stamp);
      if !ran {
        return false, true;
      }
      Interfere();
      if fails {
        RecordFailure(end);
        return true, true;
      }
      RecordSuccess(end);
      failed := false;
    }
  }
}
