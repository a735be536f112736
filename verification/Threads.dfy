/** Adding up over threads: how many of them are at some point of their program. */
module Threads {

  function Sum<T>(f: T -> nat, threads: seq<T>): nat {
    if threads == [] then 0
    else Sum(f, threads[..|threads| - 1]) + f(threads[|threads| - 1])
  }

  lemma {:induction false} SumUpdate<T>(f: T -> nat, threads: seq<T>, t: nat, pc: T)
    requires t < |threads|
    ensures Sum(f, threads[t := pc]) + f(threads[t]) == Sum(f, threads) + f(pc)
    decreases |threads|
  {
    var n := |threads| - 1;
    if t < n {
      assert threads[t := pc][..n] == threads[..n][t := pc];
      SumUpdate(f, threads[..n], t, pc);
    } else {
      assert threads[t := pc][..n] == threads[..n];
    }
  }

  lemma SumAppend<T>(f: T -> nat, threads: seq<T>, pc: T)
    ensures Sum(f, threads + [pc]) == Sum(f, threads) + f(pc)
  {
    assert (threads + [pc])[..|threads|] == threads;
  }

  /** A summand never exceeds the sum, and two of them never do. */
  lemma {:induction false} SumCovers<T>(f: T -> nat, threads: seq<T>, t: nat, u: nat)
    requires t < |threads| && u < |threads|
    ensures f(threads[t]) <= Sum(f, threads)
    ensures t != u ==> f(threads[t]) + f(threads[u]) <= Sum(f, threads)
    decreases |threads|
  {
    var n := |threads| - 1;
    if t < n && u < n {
      SumCovers(f, threads[..n], t, u);
    } else if t < n {
      SumCovers(f, threads[..n], t, t);
    } else if u < n {
      SumCovers(f, threads[..n], u, u);
    }
  }
}
