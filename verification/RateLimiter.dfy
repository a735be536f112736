/**
  The token bucket of middleware/ratelimit.go over whole runs, with reals for the floats.
  */
module RateLimiter {

  /** One call of Allow: when, and whether it was admitted. */
  datatype Call = Call(at: real, admitted: bool)

  /** Admitted calls among calls from .. upto. */
  function Admitted(calls: seq<Call>, from: nat, upto: nat): nat
    requires from <= upto <= |calls|
  {
    if from == upto then 0
    else Admitted(calls, from, upto - 1) + (if calls[upto - 1].admitted then 1 else 0)
  }

  /** Where window j starts: at creation for j = 0, at call j - 1 otherwise. */
  function Start(created: real, calls: seq<Call>, j: nat): real
    requires j <= |calls|
  {
    if j == 0 then created else calls[j - 1].at
  }

  /** Index of the first call that window j counts. */
  function First(j: nat): nat { if j == 0 then 0 else j - 1 }

  /** Burst plus accrual minus admissions over window j, if it is closed at time `now`. */
  function Slack(rate: real, burst: int, created: real, calls: seq<Call>, j: nat, now: real): real
    requires j <= |calls|
  {
    burst as real + rate * (now - Start(created, calls, j)) - Admitted(calls, First(j), |calls|) as real
  }

  /** The least slack of any window ending now, together with the empty window. */
  ghost predicate IsLeastSlack(x: real, rate: real, burst: int, created: real, calls: seq<Call>, now: real) {
    && (forall j :: 0 <= j <= |calls| ==> x <= Slack(rate, burst, created, calls, j, now))
    && (exists j :: 0 <= j <= |calls| && x == Slack(rate, burst, created, calls, j, now))
  }

  /** One more admission in a window with `admitted` ones keeps it within burst + rate * length. */
  predicate Leaves(rate: real, burst: int, start: real, now: real, admitted: nat) {
    admitted as real + 1.0 <= burst as real + rate * (now - start)
  }

  /** Window j, ended at `now`, has room for one more request. */
  predicate Fits(rate: real, burst: int, created: real, calls: seq<Call>, now: real, j: nat)
    requires j <= |calls|
  {
    Leaves(rate, burst, Start(created, calls, j), now, Admitted(calls, First(j), |calls|))
  }

  /** The declarative rule: with this request, every window ending now stays within burst + rate * length. */
  ghost predicate WithinEveryWindow(rate: real, burst: int, created: real, calls: seq<Call>, now: real) {
    && 1 <= burst
    && forall j :: 0 <= j <= |calls| ==> Fits(rate, burst, created, calls, now, j)
  }

  ghost predicate DecidedAt(rate: real, burst: int, created: real, calls: seq<Call>, k: nat)
    requires k < |calls|
  {
    calls[k].admitted <==> WithinEveryWindow(rate, burst, created, calls[..k], calls[k].at)
  }

  /** Every call so far was decided by the declarative rule. */
  ghost predicate Decided(rate: real, burst: int, created: real, calls: seq<Call>) {
    forall k :: 0 <= k < |calls| ==> DecidedAt(rate, burst, created, calls, k)
  }

  ghost predicate Monotone(created: real, calls: seq<Call>) {
    && (forall k :: 0 <= k < |calls| ==> created <= calls[k].at)
    && (forall i, k :: 0 <= i < k < |calls| ==> calls[i].at <= calls[k].at)
  }

  lemma {:induction false} AdmittedPrefix(calls: seq<Call>, more: seq<Call>, from: nat, upto: nat)
    requires from <= upto <= |calls|
    ensures Admitted(calls + more, from, upto) == Admitted(calls, from, upto)
    decreases upto
  {
    if from < upto {
      AdmittedPrefix(calls, more, from, upto - 1);
    }
  }

  /** Time passing by dt adds rate * dt to the least slack. */
  lemma SlackAccrues(x: real, rate: real, burst: int, created: real, calls: seq<Call>, now: real, now': real)
    requires IsLeastSlack(x, rate, burst, created, calls, now)
    ensures IsLeastSlack(x + (now' - now) * rate, rate, burst, created, calls, now')
  {
    forall j | 0 <= j <= |calls|
      ensures Slack(rate, burst, created, calls, j, now')
           == Slack(rate, burst, created, calls, j, now) + (now' - now) * rate
    {
    }
  }

  function Cost(admitted: bool): real { if admitted then 1.0 else 0.0 }

  lemma SlackShifts(rate: real, burst: int, created: real, calls: seq<Call>, now: real, admitted: bool, j: nat)
    requires j <= |calls|
    ensures Slack(rate, burst, created, calls + [Call(now, admitted)], j, now)
         == Slack(rate, burst, created, calls, j, now) - Cost(admitted)
  {
    AdmittedPrefix(calls, [Call(now, admitted)], First(j), |calls|);
  }

  lemma SlackOfNewest(rate: real, burst: int, created: real, calls: seq<Call>, now: real, admitted: bool)
    ensures Slack(rate, burst, created, calls + [Call(now, admitted)], |calls| + 1, now) == burst as real - Cost(admitted)
  {
    var calls', n := calls + [Call(now, admitted)], |calls|;
    assert Admitted(calls', n, n) == 0;
    assert Admitted(calls', n, n + 1) == if admitted then 1 else 0;
  }

  /** A call adds one window and charges its admission to all of them. */
  lemma SlackAfterCall(x: real, rate: real, burst: int, created: real, calls: seq<Call>, now: real, admitted: bool)
    requires IsLeastSlack(x, rate, burst, created, calls, now)
    ensures var capped := if x > burst as real then burst as real else x;
      IsLeastSlack(capped - Cost(admitted), rate, burst, created, calls + [Call(now, admitted)], now)
  {
    var calls', n := calls + [Call(now, admitted)], |calls|;
    forall j | 0 <= j <= n
      ensures Slack(rate, burst, created, calls', j, now) == Slack(rate, burst, created, calls, j, now) - Cost(admitted)
    {
      SlackShifts(rate, burst, created, calls, now, admitted, j);
    }
    SlackOfNewest(rate, burst, created, calls, now, admitted);
    var least :| 0 <= least <= n && x == Slack(rate, burst, created, calls, least, now);
    var witness' := if x > burst as real then n + 1 else least;
    assert Slack(rate, burst, created, calls', witness', now)
        == (if x > burst as real then burst as real else x) - Cost(admitted);
  }

  /** Refill to the cap, and charge one token if there is one: the arithmetic of Allow. */
  function Refilled(tokens: real, elapsed: real, rate: real, burst: int): real {
    var t := tokens + elapsed * rate;
    if t > burst as real then burst as real else t
  }

  function Charged(t: real): real { if t >= 1.0 then t - 1.0 else t }

  lemma LeastAfterAllow(rate: real, burst: int, created: real, calls: seq<Call>, tokens: real, last: real, now: real)
    requires IsLeastSlack(tokens, rate, burst, created, calls, last)
    ensures var t := Refilled(tokens, now - last, rate, burst);
      && IsLeastSlack(Charged(t), rate, burst, created, calls + [Call(now, t >= 1.0)], now)
      && (t >= 1.0 <==> WithinEveryWindow(rate, burst, created, calls, now))
  {
    var x := tokens + (now - last) * rate;
    var t := Refilled(tokens, now - last, rate, burst);
    SlackAccrues(tokens, rate, burst, created, calls, last, now);
    SlackAfterCall(x, rate, burst, created, calls, now, t >= 1.0);
    LeastDecides(x, rate, burst, created, calls, now);
  }

  lemma StaysNonNegative(rate: real, burst: int, tokens: real, elapsed: real)
    requires rate >= 0.0 && burst >= 0 && tokens >= 0.0 && elapsed >= 0.0
    ensures Charged(Refilled(tokens, elapsed, rate, burst)) >= 0.0
  {
    NonNegative(elapsed, rate);
  }

  lemma MonotoneStep(created: real, calls: seq<Call>, call: Call)
    requires Monotone(created, calls) && Start(created, calls, |calls|) <= call.at
    ensures Monotone(created, calls + [call])
  {
  }

  /** Own calls among those from `from` on, in order; only the last one is admitted, if any is. */
  predicate Polls(calls: seq<Call>, from: nat, mine: seq<nat>, ok: bool) {
    && (forall i :: 0 <= i < |mine| ==> from <= mine[i] < |calls|)
    && (forall i, j :: 0 <= i < j < |mine| ==> mine[i] < mine[j])
    && (forall i :: 0 <= i < |mine| ==> calls[mine[i]].admitted == (ok && i == |mine| - 1))
  }

  lemma PollAgain(calls: seq<Call>, calls': seq<Call>, from: nat, mine: seq<nat>, ok: bool)
    requires Polls(calls, from, mine, false) && from <= |calls| < |calls'| && calls <= calls'
    requires calls'[|calls'| - 1].admitted == ok
    ensures Polls(calls', from, mine + [|calls'| - 1], ok)
  {
  }

  class Limiter {
    const rate: real
    const burst: int
    var tokens: real
    var lastUpdate: real
    ghost const created: real
    ghost var calls: seq<Call>

    ghost predicate Valid()
      reads this
    {
      && lastUpdate == Start(created, calls, |calls|)
      && Monotone(created, calls)
      && IsLeastSlack(tokens, rate, burst, created, calls, lastUpdate)
      && Decided(rate, burst, created, calls)
      && (rate >= 0.0 && burst >= 0 ==> tokens >= 0.0)
    }

    constructor (rate: real, burst: int, now: real)
      ensures Valid() && calls == [] && created == now && this.rate == rate && this.burst == burst
    {
      this.rate, this.burst := rate, burst;
      tokens, lastUpdate := burst as real, now;
      created, calls := now, [];
      new;
      assert Slack(rate, burst, created, calls, 0, now) == tokens;
    }

    method AddTokens(elapsed: real)
      modifies this`tokens
      ensures tokens == Refilled(old(tokens), elapsed, rate, burst)
    {
      tokens := tokens + elapsed * rate;
      if tokens > burst as real {
        tokens := burst as real;
      }
    }

    /**
      Allow at time `now`: admitted exactly when, with this request counted, every window that
      ends now and started at creation, at an earlier call or at this one stays within burst
      plus rate times its length.
      */
    method Allow(now: real) returns (ok: bool)
      requires Valid() && lastUpdate <= now
      modifies this
      ensures Valid() && lastUpdate == now
      ensures calls == old(calls) + [Call(now, ok)]
      ensures ok <==> WithinEveryWindow(rate, burst, created, old(calls), now)
    {
      LeastAfterAllow(rate, burst, created, calls, tokens, lastUpdate, now);
      if rate >= 0.0 && burst >= 0 {
        StaysNonNegative(rate, burst, tokens, now - lastUpdate);
      }
      ghost var before := calls;
      var elapsed := now - lastUpdate;
      lastUpdate := now;
      AddTokens(elapsed);
      ok := tokens >= 1.0;
      if ok {
        tokens := tokens - 1.0;
      }
      DecidedStep(rate, burst, created, before, Call(now, ok));
      MonotoneStep(created, before, Call(now, ok));
      calls := calls + [Call(now, ok)];
    }

    /** Time passes and other callers use the limiter; `now` is the clock after that. */
    method Interfere() returns (now: real)
      requires Valid()
      modifies this
      ensures Valid() && old(calls) <= calls && old(lastUpdate) <= lastUpdate <= now
    {
      now := lastUpdate;
    }

    /** One poll of Wait, some time later. */
    method Poll() returns (ok: bool)
      requires Valid()
      modifies this
      ensures Valid() && old(calls) <= calls && |old(calls)| < |calls|
      ensures calls[|calls| - 1].admitted == ok
    {
      var now := Interfere();
      ok := Allow(now);
    }

    /**
      Wait polls Allow until it is admitted or the context ends, which leaves room for `rounds`
      polls; others may call in between.  `mine` are the positions of its own polls in the log:
      the last one is admitted if Wait succeeds, and no other.
      */
    method Wait(rounds: nat) returns (ok: bool, ghost mine: seq<nat>)
      requires Valid()
      modifies this
      ensures Valid() && old(calls) <= calls && |mine| <= rounds
      ensures Polls(calls, |old(calls)|, mine, ok)
      ensures if ok then mine != [] else |mine| == rounds
    {
      ok, mine := false, [];
      for used := 0 to rounds
        invariant Valid() && old(calls) <= calls && |mine| == used && !ok
        invariant Polls(calls, |old(calls)|, mine, false)
      {
        ghost var before := calls;
        ok := Poll();
        PollAgain(before, calls, |old(calls)|, mine, ok);
        mine := mine + [|calls| - 1];
        if ok {
          return;
        }
      }
    }
  }

  lemma NonNegative(x: real, y: real)
    ensures x >= 0.0 && y >= 0.0 ==> x * y >= 0.0
  {
  }

  lemma Distribute(x: real, y: real, z: real)
    ensures x * z + y * z == (x + y) * z
  {
  }

  lemma LeastDecides(x: real, rate: real, burst: int, created: real, calls: seq<Call>, now: real)
    requires IsLeastSlack(x, rate, burst, created, calls, now)
    ensures (x >= 1.0 && burst >= 1) <==> WithinEveryWindow(rate, burst, created, calls, now)
  {
    forall j | 0 <= j <= |calls|
      ensures Slack(rate, burst, created, calls, j, now) >= 1.0 <==> Fits(rate, burst, created, calls, now, j)
    {
    }
  }

  lemma DecidedStep(rate: real, burst: int, created: real, calls: seq<Call>, call: Call)
    requires Decided(rate, burst, created, calls)
    requires call.admitted <==> WithinEveryWindow(rate, burst, created, calls, call.at)
    ensures Decided(rate, burst, created, calls + [call])
  {
    var calls' := calls + [call];
    forall k | 0 <= k < |calls'|
      ensures DecidedAt(rate, burst, created, calls', k)
    {
      assert calls'[..k] == calls[..k];
      if k == |calls| {
        assert calls[..k] == calls;
      } else {
        assert DecidedAt(rate, burst, created, calls, k);
      }
    }
  }

  /** So many admissions fit into a stretch of that length. */
  predicate Obeys(rate: real, burst: int, length: real, admitted: nat) {
    admitted as real <= burst as real + rate * length
  }

  /**
    Hence no window, from creation (w = 0) or from call w - 1 up to call j, admits more than
    burst plus rate times its length.
    */
  lemma {:induction false} NoWindowExceeds(rate: real, burst: int, created: real, calls: seq<Call>, w: nat, j: nat)
    requires Decided(rate, burst, created, calls) && Monotone(created, calls)
    requires rate >= 0.0 && burst >= 0 && w <= j + 1 <= |calls|
    ensures Obeys(rate, burst, calls[j].at - Start(created, calls, w), Admitted(calls, First(w), j + 1))
    decreases j
  {
    NonNegative(calls[j].at - Start(created, calls, w), rate);
    if calls[j].admitted {
      AdmittedWithin(rate, burst, created, calls, w, j);
    } else if First(w) < j {
      NoWindowExceeds(rate, burst, created, calls, w, j - 1);
      ObeysLonger(rate, burst, calls[j - 1].at - Start(created, calls, w), calls[j].at - Start(created, calls, w),
                  Admitted(calls, First(w), j));
    }
  }

  /** The same for any interval of time [a, b], whose calls are i .. j. */
  lemma NoIntervalExceeds(rate: real, burst: int, created: real, calls: seq<Call>, i: nat, j: nat, a: real, b: real)
    requires Decided(rate, burst, created, calls) && Monotone(created, calls)
    requires rate >= 0.0 && burst >= 0 && i <= j < |calls|
    requires a <= calls[i].at && calls[j].at <= b
    ensures Obeys(rate, burst, b - a, Admitted(calls, i, j + 1))
  {
    NoWindowExceeds(rate, burst, created, calls, i + 1, j);
    ObeysLonger(rate, burst, calls[j].at - Start(created, calls, i + 1), b - a, Admitted(calls, i, j + 1));
  }

  lemma ObeysLonger(rate: real, burst: int, x: real, y: real, admitted: nat)
    requires rate >= 0.0 && x <= y && Obeys(rate, burst, x, admitted)
    ensures Obeys(rate, burst, y, admitted)
  {
    NonNegative(y - x, rate);
    Distribute(x, y - x, rate);
  }

  lemma AdmittedWithin(rate: real, burst: int, created: real, calls: seq<Call>, w: nat, j: nat)
    requires Decided(rate, burst, created, calls)
    requires w <= j + 1 <= |calls| && calls[j].admitted
    ensures Obeys(rate, burst, calls[j].at - Start(created, calls, w), Admitted(calls, First(w), j + 1))
  {
    assert DecidedAt(rate, burst, created, calls, j);
    if w <= j {
      FitsMeans(rate, burst, created, calls, j, w);
    }
  }

  /** The window rule for call j, said about the whole log instead of its past. */
  lemma FitsMeans(rate: real, burst: int, created: real, calls: seq<Call>, j: nat, w: nat)
    requires w <= j < |calls|
    ensures Fits(rate, burst, created, calls[..j], calls[j].at, w) <==>
            Leaves(rate, burst, Start(created, calls, w), calls[j].at, Admitted(calls, First(w), j))
  {
    assert calls == calls[..j] + calls[j..];
    AdmittedPrefix(calls[..j], calls[j..], First(w), j);
    assert Start(created, calls[..j], w) == Start(created, calls, w);
  }

  lemma {:induction false} NoneAdmitted(calls: seq<Call>, from: nat, mid: nat, upto: nat)
    requires from <= mid <= upto <= |calls|
    requires forall k :: mid <= k < upto ==> !calls[k].admitted
    ensures Admitted(calls, from, upto) == Admitted(calls, from, mid)
    decreases upto
  {
    if mid < upto {
      NoneAdmitted(calls, from, mid, upto - 1);
    }
  }

  /**
    A bucket with room for a token refuses only what comes too soon: between any call i and
    a refused call j with nothing admitted in between, less than one token has accrued.  So
    a lone Wait is granted no later than one token's time after the previous call.
    */
  lemma RefusedOnlyTooSoon(rate: real, burst: int, created: real, calls: seq<Call>, i: nat, j: nat)
    requires Decided(rate, burst, created, calls) && Monotone(created, calls)
    requires rate >= 0.0 && burst >= 1 && i < j < |calls|
    requires forall k :: i < k <= j ==> !calls[k].admitted
    ensures rate * (calls[j].at - calls[i].at) < 1.0
  {
    var w := TightWindow(rate, burst, created, calls, j);
    if w <= i + 1 {
      NoneAdmitted(calls, First(w), i + 1, j);
      NoWindowExceeds(rate, burst, created, calls, w, i);
      Accrued(rate, burst, Start(created, calls, w), calls[i].at, calls[j].at, Admitted(calls, First(w), j));
    } else {
      NoneAdmitted(calls, First(w), First(w), j);
      EmptyLeaves(rate, burst, Start(created, calls, w), calls[j].at);
      assert false;
    }
  }

  lemma Accrued(rate: real, burst: int, start: real, mid: real, now: real, admitted: nat)
    requires Obeys(rate, burst, mid - start, admitted) && !Leaves(rate, burst, start, now, admitted)
    ensures rate * (now - mid) < 1.0
  {
    Distribute(mid - start, now - mid, rate);
  }

  lemma EmptyLeaves(rate: real, burst: int, start: real, now: real)
    requires rate >= 0.0 && burst >= 1 && start <= now
    ensures Leaves(rate, burst, start, now, 0)
  {
    NonNegative(now - start, rate);
  }

  /** A refused call has a window without room for it. */
  lemma TightWindow(rate: real, burst: int, created: real, calls: seq<Call>, j: nat) returns (w: nat)
    requires Decided(rate, burst, created, calls) && burst >= 1 && j < |calls| && !calls[j].admitted
    ensures w <= j
    ensures !Leaves(rate, burst, Start(created, calls, w), calls[j].at, Admitted(calls, First(w), j))
  {
    assert DecidedAt(rate, burst, created, calls, j);
    w :| 0 <= w <= j && !Fits(rate, burst, created, calls[..j], calls[j].at, w);
    FitsMeans(rate, burst, created, calls, j, w);
  }
}
