/**
 * The player's characteristics (`logic/characteristics.rs`): the scales that
 * turn health, brain, stamina, charisma and knowledge levels into the
 * assessments the game shows, and the `Money` amounts.
 */
module Characteristics {
  import opened Wrappers
  import opened Ints
  import opened Assessments

  function Clamp(x: int, lo: int, hi: int): int
  {
    if x < lo then lo else if x > hi then hi else x
  }

  // ---- Health ----

  datatype HealthAssessment = LivingDead | TimeToDie | Bad | SoSo | Average | Good | Great

  /** The derived `Ord`: declaration order. */
  function HealthRank(a: HealthAssessment): int
  {
    match a
    case LivingDead => 0
    case TimeToDie => 1
    case Bad => 2
    case SoSo => 3
    case Average => 4
    case Good => 5
    case Great => 6
  }

  const HEALTH_SCALE: seq<(int, HealthAssessment)> :=
    [(1, LivingDead), (9, TimeToDie), (17, HealthAssessment.Bad), (25, SoSo), (33, Average), (41, HealthAssessment.Good)]

  const LOCATION_CHANGE_LARGE_HEALTH_PENALTY: i16 := 3
  const LOCATION_CHANGE_SMALL_HEALTH_PENALTY: i16 := 2

  /**
   * `HealthAssessment::from_health_level`: below 1 is a living corpse, 41 and
   * above is great, and in between every eight points is one step up.
   */
  function FromHealthLevel(level: i16): (r: HealthAssessment)
    ensures level < 1 <==> r == LivingDead
    ensures level >= 41 <==> r == Great
    ensures 1 <= level < 41 ==> HealthRank(r) == (level - 1) / 8 + 1
  {
    HealthScaleRead(level);
    Assess(HEALTH_SCALE, level, Great)
  }

  lemma HealthScaleRead(level: int)
    ensures level < 1 ==> Assess(HEALTH_SCALE, level, Great) == LivingDead
    ensures level >= 41 ==> Assess(HEALTH_SCALE, level, Great) == Great
    ensures 1 <= level < 41 ==> HealthRank(Assess(HEALTH_SCALE, level, Great)) == (level - 1) / 8 + 1
  {
    var s := HEALTH_SCALE;
    if level < 1 {
      assert FirstAbove(s, level, 0);
    } else if level < 9 {
      assert FirstAbove(s, level, 1);
    } else if level < 17 {
      assert FirstAbove(s, level, 2);
    } else if level < 25 {
      assert FirstAbove(s, level, 3);
    } else if level < 33 {
      assert FirstAbove(s, level, 4);
    } else if level < 41 {
      assert FirstAbove(s, level, 5);
    } else {
      assert NoneAbove(s, level);
    }
  }

  // ---- Brain ----

  datatype BrainAssessment =
    | ClinicalBrainDeath
    | BrainIsAlmostNonFunctioning
    | ThinkingIsAlmostImpossible
    | ThinkingIsDifficult
    | BrainIsAlmostOK
    | BrainIsOK
    | BrainIsFresh
    | ExtraordinaryEaseOfThought
    | ContactTheDeveloper

  function BrainRank(a: BrainAssessment): int
  {
    match a
    case ClinicalBrainDeath => 0
    case BrainIsAlmostNonFunctioning => 1
    case ThinkingIsAlmostImpossible => 2
    case ThinkingIsDifficult => 3
    case BrainIsAlmostOK => 4
    case BrainIsOK => 5
    case BrainIsFresh => 6
    case ExtraordinaryEaseOfThought => 7
    case ContactTheDeveloper => 8
  }

  const BRAIN_SCALE: seq<(int, BrainAssessment)> :=
    [(0, ClinicalBrainDeath), (1, BrainIsAlmostNonFunctioning), (2, ThinkingIsAlmostImpossible),
     (3, ThinkingIsDifficult), (4, BrainIsAlmostOK), (5, BrainIsOK), (6, BrainIsFresh),
     (101, ExtraordinaryEaseOfThought)]

  /**
   * `BrainAssessment::from_brain_level`: one step per point from 0 to 6, then
   * "extraordinary" up to 100. The Rust code asserts that the scale's default
   * is never reached, so a level of 101 or more panics.
   */
  function FromBrainLevel(level: i16): (r: BrainAssessment)
    requires level < 101
    ensures r != ContactTheDeveloper
    ensures BrainRank(r) == Clamp(level + 1, 0, 7)
  {
    BrainScaleRead(level);
    Assess(BRAIN_SCALE, level, ContactTheDeveloper)
  }

  lemma BrainScaleRead(level: int)
    ensures level < 101 ==> BrainRank(Assess(BRAIN_SCALE, level, ContactTheDeveloper)) == Clamp(level + 1, 0, 7)
    ensures level >= 101 ==> Assess(BRAIN_SCALE, level, ContactTheDeveloper) == ContactTheDeveloper
  {
    var s := BRAIN_SCALE;
    if level < 0 {
      assert FirstAbove(s, level, 0);
    } else if level < 6 {
      assert forall k :: 0 <= k < 7 ==> s[k].0 == k;
      assert FirstAbove(s, level, level + 1);
    } else if level < 101 {
      assert FirstAbove(s, level, 7);
    } else {
      assert NoneAbove(s, level);
    }
  }

  // ---- Knowledge ----

  datatype KnowledgeAssessment = Bad | Satisfactory | Good | VeryGood | Excellent

  function KnowledgeRank(a: KnowledgeAssessment): int
  {
    match a
    case Bad => 0
    case Satisfactory => 1
    case Good => 2
    case VeryGood => 3
    case Excellent => 4
  }

  const KNOWLEDGE_SCALE: seq<(int, KnowledgeAssessment)> :=
    [(6, KnowledgeAssessment.Bad), (13, Satisfactory), (21, KnowledgeAssessment.Good), (31, VeryGood)]

  /** `KnowledgeAssessment::absolute`: bounds 6, 13, 21 and 31, excellent from 31 on. */
  function AbsoluteKnowledge(knowledge: i16): (r: KnowledgeAssessment)
    ensures knowledge < 6 <==> r == KnowledgeAssessment.Bad
    ensures 6 <= knowledge < 13 <==> r == Satisfactory
    ensures 13 <= knowledge < 21 <==> r == KnowledgeAssessment.Good
    ensures 21 <= knowledge < 31 <==> r == VeryGood
    ensures 31 <= knowledge <==> r == Excellent
  {
    var s := KNOWLEDGE_SCALE;
    if knowledge < 6 then
      assert FirstAbove(s, knowledge, 0);
      Assess(s, knowledge, Excellent)
    else if knowledge < 13 then
      assert FirstAbove(s, knowledge, 1);
      Assess(s, knowledge, Excellent)
    else if knowledge < 21 then
      assert FirstAbove(s, knowledge, 2);
      Assess(s, knowledge, Excellent)
    else if knowledge < 31 then
      assert FirstAbove(s, knowledge, 3);
      Assess(s, knowledge, Excellent)
    else
      assert NoneAbove(s, knowledge);
      Assess(s, knowledge, Excellent)
  }

  // ---- Stamina ----

  datatype StaminaAssessment =
    | MamaTakeMeBack
    | CompletelyOverstudied
    | ICantTakeIt
    | IWishItAllEndedSoon
    | ALittleMoreAndThenRest
    | ABitTired
    | ReadyForEverything
    | GreatThingsAwaitUs

  function StaminaRank(a: StaminaAssessment): int
  {
    match a
    case MamaTakeMeBack => 0
    case CompletelyOverstudied => 1
    case ICantTakeIt => 2
    case IWishItAllEndedSoon => 3
    case ALittleMoreAndThenRest => 4
    case ABitTired => 5
    case ReadyForEverything => 6
    case GreatThingsAwaitUs => 7
  }

  const STAMINA_SCALE: seq<(int, StaminaAssessment)> :=
    [(0, MamaTakeMeBack), (1, CompletelyOverstudied), (2, ICantTakeIt), (3, IWishItAllEndedSoon),
     (4, ALittleMoreAndThenRest), (5, ABitTired), (6, ReadyForEverything)]

  /** `StaminaAssessment::from_stamina_level`: one step per point, from below 0 up to 6 and beyond. */
  function FromStaminaLevel(level: i16): (r: StaminaAssessment)
    ensures StaminaRank(r) == Clamp(level + 1, 0, 7)
  {
    var s := STAMINA_SCALE;
    if level < 0 then
      assert FirstAbove(s, level, 0);
      Assess(s, level, GreatThingsAwaitUs)
    else if level < 6 then
      assert forall k :: 0 <= k < 7 ==> s[k].0 == k;
      assert FirstAbove(s, level, level + 1);
      Assess(s, level, GreatThingsAwaitUs)
    else
      assert NoneAbove(s, level);
      Assess(s, level, GreatThingsAwaitUs)
  }

  /** A higher stamina level never reads worse. */
  lemma StaminaMonotone(l1: i16, l2: i16)
    requires l1 <= l2
    ensures StaminaRank(FromStaminaLevel(l1)) <= StaminaRank(FromStaminaLevel(l2))
  {
  }

  // ---- Charisma ----

  datatype CharismaAssessment =
    | VeryIntroverted
    | PreferSolitariness
    | VeryHardToTalkToPeople
    | NotEasyToTalkToPeople
    | Normal
    | ManyFriends
    | TonsOfFriends

  function CharismaRank(a: CharismaAssessment): int
  {
    match a
    case VeryIntroverted => 0
    case PreferSolitariness => 1
    case VeryHardToTalkToPeople => 2
    case NotEasyToTalkToPeople => 3
    case Normal => 4
    case ManyFriends => 5
    case TonsOfFriends => 6
  }

  const CHARISMA_SCALE: seq<(int, CharismaAssessment)> :=
    [(1, VeryIntroverted), (2, PreferSolitariness), (3, VeryHardToTalkToPeople),
     (4, NotEasyToTalkToPeople), (5, Normal), (6, ManyFriends)]

  /** `CharismaAssessment::from_charisma_level`: one step per point from 1 to 6. */
  function FromCharismaLevel(level: i16): (r: CharismaAssessment)
    ensures CharismaRank(r) == Clamp(level, 0, 6)
  {
    var s := CHARISMA_SCALE;
    if level < 1 then
      assert FirstAbove(s, level, 0);
      Assess(s, level, TonsOfFriends)
    else if level < 6 then
      assert forall k :: 0 <= k < 6 ==> s[k].0 == k + 1;
      assert FirstAbove(s, level, level);
      Assess(s, level, TonsOfFriends)
    else
      assert NoneAbove(s, level);
      Assess(s, level, TonsOfFriends)
  }

  /** A higher charisma level never reads worse. */
  lemma CharismaMonotone(l1: i16, l2: i16)
    requires l1 <= l2
    ensures CharismaRank(FromCharismaLevel(l1)) <= CharismaRank(FromCharismaLevel(l2))
  {
  }

  // ---- Money ----

  /** `Money(pub i16)`: its arithmetic is `i16` arithmetic, which panics on overflow. */
  datatype Money = Money(amount: i16)

  const ZERO: Money := Money(0)
  /** The oat tincture for Kolya. */
  const OAT_TINCTURE_COST: Money := Money(15)
  const STIPEND: Money := Money(50)
  /** Prices in the mausoleum. */
  const COLA_COST: Money := Money(4)
  const SOUP_COST: Money := Money(6)
  const BEER_COST: Money := Money(8)
  /** Prices at the PUNK and PDMI buffets. */
  const DRINK_COST: Money := Money(2)
  const PASTRY_COST: Money := Money(4)
  const DRINK_WITH_PASTRY_COST: Money := Money(6)
  /** Train tickets to PDMI and back, and from PDMI to PUNK. */
  const ROUNDTRIP_TRAIN_TICKET_COST: Money := Money(10)
  const ONE_WAY_TRAIN_TICKET_COST: Money := Money(5)

  function Add(a: Money, b: i16): (r: Money)
    requires -0x8000 <= a.amount + b < 0x8000
    ensures r.amount == a.amount + b
  {
    Money(a.amount + b)
  }

  function Sub(a: Money, b: i16): (r: Money)
    requires -0x8000 <= a.amount - b < 0x8000
    ensures r.amount == a.amount - b
  {
    Money(a.amount - b)
  }

  /** Spending what was earned gives back the same amount. */
  lemma AddSub(a: Money, b: i16)
    requires -0x8000 <= a.amount + b < 0x8000
    ensures Sub(Add(a, b), b) == a
  {
  }

  /**
   * `/=` on `i16`: the quotient is truncated toward zero (unlike Dafny's
   * Euclidean `/`); dividing by zero, or `i16::MIN` by -1, panics.
   */
  function Abs(x: int): nat
  {
    if x < 0 then -x else x
  }

  /** The quotient of natural numbers, bracketed by multiples of the divisor. */
  lemma QuotientBounds(n: nat, m: nat)
    requires m > 0
    ensures (n / m) * m <= n < (n / m + 1) * m
    ensures n / m <= n
  {
    var q: nat := n / m;
    var k: nat := m - 1;
    assert n == q * m + n % m;
    assert (q + 1) * m == q * m + m;
    assert q * m == q + q * k;
    assert q * k >= 0;
  }

  /** Division truncated toward zero, as Rust's `/` on signed integers. */
  function TruncDiv(x: int, y: int): int
    requires y != 0
  {
    if (x < 0) == (y < 0) then Abs(x) / Abs(y) else -(Abs(x) / Abs(y))
  }

  /**
   * The truncated quotient is the largest multiple of the divisor not
   * exceeding the dividend in magnitude, with the sign of the exact quotient.
   */
  lemma TruncDivBounds(x: int, y: int)
    requires y != 0
    ensures Abs(TruncDiv(x, y)) * Abs(y) <= Abs(x) < (Abs(TruncDiv(x, y)) + 1) * Abs(y)
    ensures TruncDiv(x, y) != 0 ==> (TruncDiv(x, y) < 0 <==> (x < 0) != (y < 0))
  {
    QuotientBounds(Abs(x), Abs(y));
    assert Abs(TruncDiv(x, y)) == Abs(x) / Abs(y);
  }

  /** Unlike Dafny's Euclidean division, the Rust quotient rounds toward zero. */
  lemma TruncDivRoundsTowardZero()
    ensures TruncDiv(-7, 2) == -3 && -7 / 2 == -4
  {
  }

  lemma HalfBound(n: nat, m: nat)
    requires m >= 2
    ensures 2 * (n / m) <= n
  {
    var q: nat := n / m;
    var k: nat := m - 2;
    assert q * m <= n by { assert n == q * m + n % m; }
    assert q * m == 2 * q + q * k;
    assert q * k >= 0;
  }

  /** The only `i16` quotient that does not fit in `i16` is `i16::MIN / -1`. */
  lemma TruncDivFits(x: i16, y: i16)
    requires y != 0 && !(x == -0x8000 && y == -1)
    ensures -0x8000 <= TruncDiv(x, y) < 0x8000
  {
    var n, m := Abs(x), Abs(y);
    if m == 1 {
      assert n / m == n;
    } else {
      HalfBound(n, m);
    }
  }

  /** `/=`: the amount divided with truncation; dividing by zero, or `i16::MIN` by -1, panics. */
  function DivAssign(a: Money, d: i16): (r: Money)
    requires d != 0 && !(a.amount == -0x8000 && d == -1)
    ensures r.amount == TruncDiv(a.amount, d)
  {
    TruncDivFits(a.amount, d);
    Money(TruncDiv(a.amount, d))
  }

  /** `TryFrom<u64>`: fits when the value is at most `i16::MAX`. */
  function MoneyFromU64(value: nat): (r: Option<Money>)
    requires value < U64_LIMIT
    ensures r.Some? <==> value < 0x8000
    ensures r.Some? ==> r.value.amount == value
  {
    if value < 0x8000 then Some(Money(value)) else None
  }

  /** `TryFrom<Money> for u64`: fits when the amount is not negative. */
  function MoneyToU64(m: Money): (r: Option<nat>)
    ensures r.Some? <==> m.amount >= 0
    ensures r.Some? ==> r.value == m.amount
  {
    if m.amount >= 0 then Some(m.amount) else None
  }

  /** A non-negative amount survives the trip through `u64`, and a fitting `u64` survives the way back. */
  lemma MoneyU64RoundTrip(m: Money, value: nat)
    requires value < U64_LIMIT
    ensures m.amount >= 0 ==> MoneyFromU64(MoneyToU64(m).value) == Some(m)
    ensures MoneyFromU64(value).Some? ==> MoneyToU64(MoneyFromU64(value).value) == Some(value)
  {
  }
}
