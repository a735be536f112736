/** Instants that keep a minimum distance, and how many of them fit into a span. */
module Spacing {

  predicate Spaced(ts: seq<int>, gap: int) {
    forall i :: 0 < i < |ts| ==> ts[i - 1] + gap <= ts[i]
  }

  lemma SpacedAppend(ts: seq<int>, gap: int, t: int)
    requires Spaced(ts, gap)
    requires ts == [] || ts[|ts| - 1] + gap <= t
    ensures Spaced(ts + [t], gap)
  {
  }

  /** n + 1 instants span at least n gaps: a span shorter than n gaps holds at most n of them. */
  lemma {:induction false} Distance(ts: seq<int>, gap: int, i: nat, j: nat)
    requires Spaced(ts, gap) && i <= j < |ts|
    ensures ts[i] + (j - i) * gap <= ts[j]
    decreases j - i
  {
    if i < j {
      Distance(ts, gap, i, j - 1);
      assert (j - i) * gap == (j - 1 - i) * gap + gap;
    }
  }
}
