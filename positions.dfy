// Item positions: lists of indices into the added items, the sum of a
// per-item size over such a list, and two facts of real arithmetic the
// closed forms of the cursors use.
module Positions {
  /** Every listed position is below `n`. */
  predicate InRange(s: seq<nat>, n: nat) {
    forall i :: 0 <= i < |s| ==> s[i] < n
  }

  function Members(s: seq<nat>): set<nat> {
    set x | x in s
  }

  /** No position is listed twice. */
  predicate Distinct(s: seq<nat>) {
    forall i, j :: 0 <= i < j < |s| ==> s[i] != s[j]
  }

  lemma DistinctLast(line: seq<nat>, n: nat)
    requires 0 < n <= |line| && Distinct(line)
    ensures line[n - 1] !in line[..n - 1]
  {
  }

  /** The sum of the sizes of the listed positions. */
  function SumAt(mts: seq<real>, s: seq<nat>): real
    requires InRange(s, |mts|)
  {
    if |s| == 0 then 0.0 else SumAt(mts, s[..|s| - 1]) + mts[s[|s| - 1]]
  }

  /** Changing one size changes the sum by the difference when the position is listed, and not otherwise. */
  lemma {:induction false} SumAtUpdate(mts: seq<real>, s: seq<nat>, idx: nat, v: real)
    requires InRange(s, |mts|) && idx < |mts| && Distinct(s)
    ensures SumAt(mts[idx := v], s) == SumAt(mts, s) + (if idx in s then v - mts[idx] else 0.0)
  {
    if |s| > 0 {
      var t := s[..|s| - 1];
      assert s == t + [s[|s| - 1]];
      SumAtUpdate(mts, t, idx, v);
      if idx == s[|s| - 1] {
        assert idx !in t;
      }
    }
  }

  lemma MulSucc(a: real, x: real)
    ensures (a + 1.0) * x == a * x + x
  {
  }

  lemma MulDiv(a: real, x: real)
    requires a != 0.0
    ensures a * (x / a) == x
  {
  }
}
