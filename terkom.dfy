/** `logic/scene_router/terkom.rs`: the TERKOM job's pay and its clerk's hiccups. */
module Terkom {
  import opened Ints
  import opened Wrappers
  import opened Characteristics
  import opened Tapes

  /** The hours at which the hiccups get worse. */
  const HICCUP_THRESHOLDS: seq<int> := [10, 14, 16, 18]

  /** `Iterator::position`: the first index whose threshold is above `hour`. */
  function FirstAbove(thresholds: seq<int>, hour: int): (r: Option<nat>)
    ensures r.Some? ==>
      (r.value < |thresholds| && thresholds[r.value] > hour && forall k :: 0 <= k < r.value ==> thresholds[k] <= hour)
    ensures r.None? ==> forall k :: 0 <= k < |thresholds| ==> thresholds[k] <= hour
  {
    if thresholds == [] then None
    else if thresholds[0] > hour then Some(0)
    else match FirstAbove(thresholds[1..], hour)
      case None => None
      case Some(i) => Some(i + 1)
  }

  /**
   * `hiccup`: 5 minus the position of the first threshold above the hour,
   * or 1 when the hour is past them all. The smaller, the more often the
   * clerk hiccups.
   */
  function Hiccup(hour: u8): (r: u8)
    ensures 1 <= r <= 5
  {
    var position := FirstAbove(HICCUP_THRESHOLDS, hour);
    5 - (if position.Some? then position.value else 4)
  }

  /** Hour by hour: 5 before 10, 4 before 14, 3 before 16, 2 before 18, then 1. */
  lemma HiccupByHour(hour: u8)
    ensures Hiccup(hour) == (if hour < 10 then 5 else if hour < 14 then 4 else if hour < 16 then 3
                             else if hour < 18 then 2 else 1)
  {
    var position := FirstAbove(HICCUP_THRESHOLDS, hour);
    if hour < 10 {
      assert HICCUP_THRESHOLDS[0] > hour;
    } else if hour < 14 {
      assert HICCUP_THRESHOLDS[1] > hour;
    } else if hour < 16 {
      assert HICCUP_THRESHOLDS[2] > hour;
    } else if hour < 18 {
      assert HICCUP_THRESHOLDS[3] > hour;
    }
  }

  /** The later in the day, the more the clerk hiccups. */
  lemma HiccupNeverIncreases(earlier: u8, later: u8)
    requires earlier <= later
    ensures Hiccup(later) <= Hiccup(earlier)
  {
    HiccupByHour(earlier);
    HiccupByHour(later);
  }

  /**
   * `earned_money`: a draw below the player's brain plus charisma, a draw
   * below that, plus one; while the result is above 4, it is redrawn in
   * `2..income - 1`. `None` when the tape runs out.
   */
  method EarnedMoney(brain: i16, charisma: i16, tape: Tape) returns (r: Option<Money>)
    requires -0x8000 <= brain + charisma < 0x8000
    modifies tape`position
    ensures r.Some? ==> 1 <= r.value.amount <= 4
  {
    var first := tape.Below(brain + charisma);
    if first.None? {
      return None;
    }
    var second := tape.Below(first.value);
    if second.None? {
      return None;
    }
    assert second.value < 0x7fff;
    var income := second.value + 1;
    while income > 4
      invariant income >= 1
      decreases income
    {
      var next := tape.InRange(2, income - 2);
      if next.None? {
        return None;
      }
      income := next.value;
    }
    return Some(Money(income));
  }
}
