/** `assess` (`util/mod.rs`): reading a value off a scale of (bound, label) pairs. */
module Assessments {

  /** `i` is the position of the first pair whose bound is strictly greater than `value`. */
  predicate FirstAbove<U>(scale: seq<(int, U)>, value: int, i: int)
  {
    0 <= i < |scale| && scale[i].0 > value && forall k :: 0 <= k < i ==> scale[k].0 <= value
  }

  predicate NoneAbove<U>(scale: seq<(int, U)>, value: int)
  {
    forall k :: 0 <= k < |scale| ==> scale[k].0 <= value
  }

  /**
   * The label of the first pair whose bound is strictly greater than
   * `value`, or `default` when there is none.
   */
  function Assess<U>(scale: seq<(int, U)>, value: int, default: U): (r: U)
    ensures forall i :: FirstAbove(scale, value, i) ==> r == scale[i].1
    ensures NoneAbove(scale, value) ==> r == default
    decreases |scale|
  {
    if scale == [] then default
    else if scale[0].0 > value then scale[0].1
    else
      var r := Assess(scale[1..], value, default);
      FirstAboveTail(scale, value);
      r
  }

  lemma FirstAboveTail<U>(scale: seq<(int, U)>, value: int)
    requires scale != [] && scale[0].0 <= value
    ensures forall i :: FirstAbove(scale, value, i) ==> i >= 1 && FirstAbove(scale[1..], value, i - 1)
    ensures NoneAbove(scale, value) ==> NoneAbove(scale[1..], value)
  {
    forall i | FirstAbove(scale, value, i)
      ensures i >= 1 && FirstAbove(scale[1..], value, i - 1)
    {
      forall k | 0 <= k < i - 1
        ensures scale[1..][k].0 <= value
      {
        assert scale[1..][k] == scale[k + 1];
      }
    }
    if NoneAbove(scale, value) {
      forall k | 0 <= k < |scale| - 1
        ensures scale[1..][k].0 <= value
      {
        assert scale[1..][k] == scale[k + 1];
      }
    }
  }

  /** An empty scale always gives the default. */
  lemma AssessEmpty<U>(value: int, default: U)
    ensures Assess([], value, default) == default
  {
  }

  predicate BoundsAscending<U>(scale: seq<(int, U)>)
  {
    forall i, j :: 0 <= i < j < |scale| ==> scale[i].0 <= scale[j].0
  }

  /** The labels rise along the scale, and the default ranks at least as high as any of them. */
  predicate LabelsAscending<U>(scale: seq<(int, U)>, default: U, rank: U -> int)
  {
    (forall i, j :: 0 <= i < j < |scale| ==> rank(scale[i].1) <= rank(scale[j].1)) &&
    (forall i :: 0 <= i < |scale| ==> rank(scale[i].1) <= rank(default))
  }

  /**
   * On a scale whose bounds and labels both ascend, a greater value never
   * gets a lower label.
   */
  lemma {:induction false} AssessMonotone<U>(scale: seq<(int, U)>, default: U, rank: U -> int, v1: int, v2: int)
    requires BoundsAscending(scale) && LabelsAscending(scale, default, rank)
    requires v1 <= v2
    ensures rank(Assess(scale, v1, default)) <= rank(Assess(scale, v2, default))
    decreases |scale|
  {
    if scale != [] {
      var tail := scale[1..];
      assert BoundsAscending(tail) && LabelsAscending(tail, default, rank) by {
        assert forall i :: 0 <= i < |tail| ==> tail[i] == scale[i + 1];
      }
      if scale[0].0 > v1 {
        if scale[0].0 <= v2 {
          // v2 reads a later label or the default, both ranked at least `scale[0].1`.
          AssessRankAtLeast(tail, default, rank, v2, rank(scale[0].1));
        }
      } else {
        AssessMonotone(tail, default, rank, v1, v2);
      }
    }
  }

  /** Every label a scale can give, and its default, rank at least `floor`. */
  lemma {:induction false} AssessRankAtLeast<U>(scale: seq<(int, U)>, default: U, rank: U -> int, v: int, floor: int)
    requires forall i :: 0 <= i < |scale| ==> floor <= rank(scale[i].1)
    requires floor <= rank(default)
    ensures floor <= rank(Assess(scale, v, default))
    decreases |scale|
  {
    if scale != [] && scale[0].0 <= v {
      assert forall i :: 0 <= i < |scale[1..]| ==> scale[1..][i] == scale[i + 1];
      AssessRankAtLeast(scale[1..], default, rank, v, floor);
    }
  }
}
