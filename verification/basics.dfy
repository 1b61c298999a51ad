/** Small shared vocabulary: optional values, pass/fail outcomes and sums over
    rows of pits. */
module Basics {

  datatype Option<T> = None | Some(value: T)

  /** A check that either passes or fails with an error value
      (Rust's `Result<(), E>`). */
  datatype Outcome<E> = Pass | Fail(error: E)

  function Max(a: int, b: int): (r: int)
    ensures r >= a && r >= b && (r == a || r == b)
  {
    if a >= b then a else b
  }

  function Sum(s: seq<nat>): nat
  {
    if |s| == 0 then 0 else s[0] + Sum(s[1..])
  }

  predicate AllZero(s: seq<nat>)
  {
    forall i :: 0 <= i < |s| ==> s[i] == 0
  }

  lemma {:induction false} SumZeroIff(s: seq<nat>)
    ensures Sum(s) == 0 <==> AllZero(s)
  {
    if |s| > 0 {
      SumZeroIff(s[1..]);
      assert forall i :: 1 <= i < |s| ==> s[i] == s[1..][i - 1];
    }
  }

  /** Every element of a row is bounded by the sum of the row. */
  lemma {:induction false} ElementBelowSum(s: seq<nat>, i: nat)
    requires i < |s|
    ensures s[i] <= Sum(s)
  {
    if i > 0 {
      ElementBelowSum(s[1..], i - 1);
    }
  }

  /** Replacing one element changes the sum by the difference. */
  lemma {:induction false} SumUpdate(s: seq<nat>, i: nat, v: nat)
    requires i < |s|
    ensures Sum(s[i := v]) + s[i] == Sum(s) + v
  {
    if i == 0 {
      assert s[i := v][1..] == s[1..];
    } else {
      assert s[i := v][1..] == s[1..][i - 1 := v];
      SumUpdate(s[1..], i - 1, v);
    }
  }

  /** The row with one more seed in every pit of `[lo, hi)`. */
  function IncRange(s: seq<nat>, lo: nat, hi: nat): (r: seq<nat>)
    requires lo <= hi <= |s|
    ensures |r| == |s|
    ensures forall i {:trigger r[i]} :: 0 <= i < |s| ==> r[i] == if lo <= i < hi then s[i] + 1 else s[i]
  {
    seq(|s|, i requires 0 <= i < |s| => if lo <= i < hi then s[i] + 1 else s[i])
  }

  lemma {:induction false} SumIncRange(s: seq<nat>, lo: nat, hi: nat)
    requires lo <= hi <= |s|
    ensures Sum(IncRange(s, lo, hi)) == Sum(s) + (hi - lo)
    decreases hi - lo
  {
    if lo == hi {
      assert IncRange(s, lo, hi) == s;
    } else {
      var t := IncRange(s, lo, hi - 1);
      SumIncRange(s, lo, hi - 1);
      assert IncRange(s, lo, hi) == t[hi - 1 := t[hi - 1] + 1];
      SumUpdate(t, hi - 1, t[hi - 1] + 1);
    }
  }
}
