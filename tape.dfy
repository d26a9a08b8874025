/**
 * The random number source seen by the game rules. The range helpers of
 * `Rng` (`random_number_in_range`, `random`, `random_element`) are not part
 * of this model; each draw reads the next raw value of a finite tape and
 * reduces it into the range asked for. A run that reaches the end of the
 * tape reports failure instead of drawing.
 */
module Tapes {
  import opened Wrappers

  /** Raw values and how many of them have been used. */
  class Tape {
    var values: seq<nat>
    var position: nat

    constructor (values: seq<nat>)
      ensures this.values == values && position == 0
    {
      this.values := values;
      position := 0;
    }

    /** A value in `lo..=hi`, or nothing once the tape is used up. */
    method InRange(lo: int, hi: int) returns (r: Option<int>)
      requires lo <= hi
      modifies this`position
      ensures old(position) < |values| <==> r.Some?
      ensures r.Some? ==> lo <= r.value <= hi && position == old(position) + 1
      ensures r.None? ==> position == old(position)
    {
      if position >= |values| {
        return None;
      }
      r := Some(lo + values[position] % (hi - lo + 1));
      position := position + 1;
    }

    /**
     * `random(n)`: a value in `0..n`. For an empty range (`n <= 0`) the
     * draw is taken to give 0.
     */
    method Below(n: int) returns (r: Option<int>)
      modifies this`position
      ensures old(position) < |values| <==> r.Some?
      ensures r.Some? ==> 0 <= r.value && (n > 0 ==> r.value < n) && (n <= 0 ==> r.value == 0)
      ensures r.Some? && n > 0 ==> r.value == values[old(position)] % n
      ensures r.Some? ==> position == old(position) + 1
      ensures r.None? ==> position == old(position)
    {
      if position >= |values| {
        return None;
      }
      r := Some(if n > 0 then values[position] % n else 0);
      position := position + 1;
    }
  }
}
