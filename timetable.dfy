/**
 * `logic/timetable.rs`: hours of the day and their arithmetic, a day's exam
 * slots, and the random exam timetable for the six days of the game.
 */
module Timetables {
  import opened Ints
  import opened Wrappers
  import opened Subjects
  import opened Tapes

  const NUM_DAYS: nat := 6

  /** Hours since midnight. */
  datatype Time = Time(hour: u8)

  /** A number of hours, possibly negative. */
  datatype Duration = Duration(hours: i8)

  const WORKDAY_BEGINS: Time := Time(9)
  const WORKDAY_ENDS: Time := Time(18)

  /** `is_midnight`: hour 0, or hour 24 reached by adding to the evening. */
  predicate IsMidnight(t: Time)
  {
    t.hour == 0 || t.hour == 24
  }

  /** `Display`: the hour in decimal; only hours of one day can be shown. */
  function Display(t: Time): (r: string)
    requires t.hour < 24
    ensures 1 <= |r| <= 2
    ensures forall k :: 0 <= k < |r| ==> '0' <= r[k] <= '9'
    ensures |r| == 2 ==> r[0] != '0'
  {
    if t.hour < 10 then [Digit(t.hour)] else [Digit(t.hour / 10), Digit(t.hour % 10)]
  }

  function Digit(d: nat): (c: char)
    requires d < 10
    ensures '0' <= c <= '9'
  {
    ('0' as int + d) as char
  }

  /** Reading a decimal string back, to say what `Display` shows. */
  function ParseDecimal(s: string): int
    requires forall k :: 0 <= k < |s| ==> '0' <= s[k] <= '9'
  {
    if s == [] then 0 else ParseDecimal(s[..|s| - 1]) * 10 + (s[|s| - 1] as int - '0' as int)
  }

  /** `Display` shows exactly the hour. */
  lemma DisplayRoundTrip(t: Time)
    requires t.hour < 24
    ensures ParseDecimal(Display(t)) == t.hour
  {
    var r := Display(t);
    if t.hour < 10 {
      assert r[..0] == [];
    } else {
      assert r[..1] == [Digit(t.hour / 10)];
      assert ParseDecimal(r[..1]) == t.hour / 10 by {
        assert r[..1][..0] == [];
      }
    }
  }

  /** The only midnight that can be shown is hour 0. */
  lemma DisplayedMidnight(t: Time)
    requires t.hour < 24 && IsMidnight(t)
    ensures Display(t) == "0"
  {
  }

  /**
   * `Time + Duration`: a negative duration is subtracted as a `u8`, a
   * non-negative one added. The `u8` arithmetic panics on underflow and
   * overflow, and negating -128 overflows `i8`.
   */
  function Add(t: Time, d: Duration): (r: Time)
    requires d.hours < 0 ==> d.hours != -128 && t.hour >= -d.hours
    requires d.hours >= 0 ==> t.hour + d.hours < U8_LIMIT
    ensures r.hour == t.hour + d.hours
  {
    if d.hours < 0 then Time(t.hour - (-d.hours)) else Time(t.hour + d.hours)
  }

  /** `Time - Duration`: adding the negated duration. */
  function Sub(t: Time, d: Duration): (r: Time)
    requires d.hours != -128
    requires d.hours > 0 ==> t.hour >= d.hours
    requires d.hours <= 0 ==> t.hour - d.hours < U8_LIMIT
    ensures r.hour == t.hour - d.hours
  {
    Add(t, Duration(-d.hours))
  }

  /** Subtracting a duration undoes adding it. */
  lemma SubUndoesAdd(t: Time, d: Duration)
    requires d.hours != -128
    requires d.hours < 0 ==> t.hour >= -d.hours
    requires d.hours >= 0 ==> t.hour + d.hours < U8_LIMIT
    ensures Sub(Add(t, d), d) == t
  {
  }

  /** `Time::try_from(u64)`: fails outside `u8`. */
  function TimeFromU64(value: u64): (r: Option<Time>)
    ensures r.Some? <==> value < U8_LIMIT
    ensures r.Some? ==> r.value.hour == value
  {
    if value < U8_LIMIT then Some(Time(value)) else None
  }

  /** `u64::try_from(Time)`: always succeeds. */
  function TimeToU64(t: Time): (r: u64)
    ensures r == t.hour
  {
    t.hour
  }

  lemma TimeU64RoundTrip(t: Time, value: u64)
    ensures TimeFromU64(TimeToU64(t)) == Some(t)
    ensures TimeFromU64(value).Some? ==> TimeToU64(TimeFromU64(value).value) == value
  {
  }

  /** `Duration::try_from(u64)`: fails outside `i8`. */
  function DurationFromU64(value: u64): (r: Option<Duration>)
    ensures r.Some? <==> value < 0x80
    ensures r.Some? ==> r.value.hours == value
  {
    if value < 0x80 then Some(Duration(value)) else None
  }

  /** `u64::try_from(Duration)`: fails for negative durations. */
  function DurationToU64(d: Duration): (r: Option<u64>)
    ensures r.Some? <==> d.hours >= 0
    ensures r.Some? ==> r.value == d.hours
  {
    if d.hours >= 0 then Some(d.hours) else None
  }

  lemma DurationU64RoundTrip(d: Duration, value: u64)
    ensures d.hours >= 0 ==> DurationToU64(d).Some? && DurationFromU64(DurationToU64(d).value) == Some(d)
    ensures DurationFromU64(value).Some? ==> DurationToU64(DurationFromU64(value).value) == Some(value)
  {
  }

  datatype Exam = Exam(subject: Subject, from: Time, to: Time, location: Location)

  /** A day and its exam slots, one per subject in subject order. */
  datatype Day = Day(index: nat, exams: seq<Option<Exam>>)

  predicate WellFormedDay(day: Day)
  {
    |day.exams| == NUM_SUBJECTS
  }

  /** `Day::exam`: the slot of the subject. */
  function ExamOf(day: Day, s: Subject): Option<Exam>
    requires WellFormedDay(day)
  {
    day.exams[SubjectIndex(s)]
  }

  /** `Day::add_exam`: the exam goes into its subject's slot. */
  function AddExam(day: Day, exam: Exam): (r: Day)
    requires WellFormedDay(day)
    ensures WellFormedDay(r) && r.index == day.index
  {
    day.(exams := day.exams[SubjectIndex(exam.subject) := Some(exam)])
  }

  /** `exam` reads back what `add_exam` stored, and the other slots stay. */
  lemma ExamOfAddExam(day: Day, exam: Exam, s: Subject)
    requires WellFormedDay(day)
    ensures ExamOf(AddExam(day, exam), exam.subject) == Some(exam)
    ensures s != exam.subject ==> ExamOf(AddExam(day, exam), s) == ExamOf(day, s)
  {
    if s != exam.subject {
      SubjectIndexRoundTrip(s);
      SubjectIndexRoundTrip(exam.subject);
    }
  }

  datatype Timetable = Timetable(days: seq<Day>)

  /** An exam as the timetable sets it: within the workday, of an allowed length, at an allowed place. */
  predicate ExamFits(e: Exam, s: Subject)
  {
    var info := Info(s);
    e.subject == s &&
    WORKDAY_BEGINS.hour <= e.from.hour && e.to.hour <= WORKDAY_ENDS.hour &&
    info.examMinDuration <= e.to.hour - e.from.hour <= info.examMaxDuration &&
    e.location in info.examPlaces
  }

  /** Which of `days` hold an exam in slot `slot`. */
  function Slots(days: seq<Day>, slot: nat): (r: seq<bool>)
    requires forall d :: 0 <= d < |days| ==> WellFormedDay(days[d])
    requires slot < NUM_SUBJECTS
    ensures |r| == |days|
    ensures forall d :: 0 <= d < |days| ==> WellFormedDay(days[d]) && r[d] == days[d].exams[slot].Some?
  {
    seq(|days|, d requires 0 <= d < |days| && WellFormedDay(days[d]) => days[d].exams[slot].Some?)
  }

  function CountTrue(flags: seq<bool>): (n: nat)
    ensures n <= |flags|
  {
    if flags == [] then 0 else (if flags[0] then 1 else 0) + CountTrue(flags[1..])
  }

  lemma {:induction false} CountTrueSet(flags: seq<bool>, d: nat)
    requires d < |flags| && !flags[d]
    ensures CountTrue(flags[d := true]) == CountTrue(flags) + 1
  {
    if d > 0 {
      CountTrueSet(flags[1..], d - 1);
      assert flags[d := true][1..] == flags[1..][d - 1 := true];
    }
  }

  lemma {:induction false} CountTrueNone(n: nat)
    ensures CountTrue(seq(n, _ => false)) == 0
  {
    if n > 0 {
      CountTrueNone(n - 1);
      assert seq(n, _ => false)[1..] == seq(n - 1, _ => false);
    }
  }

  /** What a generated timetable promises. */
  predicate WellFormedTimetable(t: Timetable)
  {
    |t.days| == NUM_DAYS &&
    (forall d :: 0 <= d < NUM_DAYS ==> WellFormedDay(t.days[d]) && t.days[d].index == d) &&
    (forall d, j :: 0 <= d < NUM_DAYS && 0 <= j < NUM_SUBJECTS && t.days[d].exams[j].Some? ==>
       ExamFits(t.days[d].exams[j].value, SubjectAt(j))) &&
    (forall j :: 0 <= j < NUM_SUBJECTS ==>
       CountTrue(Slots(t.days, j)) == Info(SubjectAt(j)).examDays)
  }

  /**
   * The retry loop: draws days until one not yet used turns up, and marks
   * it used.
   */
  method PickDay(tape: Tape, used: array<bool>) returns (day: Option<nat>)
    requires used.Length == NUM_DAYS
    modifies tape`position, used
    ensures day.Some? ==> day.value < NUM_DAYS && !old(used[day.value]) && used[..] == old(used[..])[day.value := true]
    ensures day.None? ==> used[..] == old(used[..])
    ensures tape.position >= old(tape.position)
  {
    while true
      invariant tape.position >= old(tape.position)
      invariant used[..] == old(used[..])
      decreases |tape.values| - tape.position
    {
      var drawn := tape.InRange(0, NUM_DAYS - 1);
      if drawn.None? {
        return None;
      }
      var d := drawn.value;
      if !used[d] {
        used[d] := true;
        return Some(d);
      }
    }
  }

  /** Every day well formed and indexed by its position. */
  predicate DaysIndexed(days: seq<Day>)
  {
    |days| == NUM_DAYS && forall d :: 0 <= d < NUM_DAYS ==> WellFormedDay(days[d]) && days[d].index == d
  }

  predicate ExamsFit(days: seq<Day>)
    requires DaysIndexed(days)
  {
    forall d, j :: 0 <= d < NUM_DAYS && 0 <= j < NUM_SUBJECTS && days[d].exams[j].Some? ==>
      ExamFits(days[d].exams[j].value, SubjectAt(j))
  }

  /**
   * One exam of `subject`: a start between the beginning of the workday
   * and the latest start that still ends by its end, a duration in the
   * subject's range, and one of its places.
   */
  method DrawExam(subject: Subject, tape: Tape) returns (r: Option<Exam>)
    modifies tape`position
    ensures r.Some? ==> ExamFits(r.value, subject)
  {
    var info := Info(subject);
    TableWellFormed(subject);
    var examEndsMax := Sub(WORKDAY_ENDS, Duration(info.examMaxDuration));
    var start := tape.InRange(WORKDAY_BEGINS.hour, examEndsMax.hour);
    if start.None? {
      return None;
    }
    var duration := tape.InRange(info.examMinDuration, info.examMaxDuration);
    if duration.None? {
      return None;
    }
    var place := tape.InRange(0, |info.examPlaces| - 1);
    if place.None? {
      return None;
    }
    var from := Time(start.value);
    return Some(Exam(subject, from, Add(from, Duration(duration.value)), info.examPlaces[place.value]));
  }

  /**
   * Putting a fitting exam on one day keeps the days well formed, fills that
   * day's slot of the exam's subject and leaves every other slot as it was.
   */
  lemma AddExamToDays(days: seq<Day>, day: nat, exam: Exam)
    requires DaysIndexed(days) && ExamsFit(days) && day < NUM_DAYS
    requires ExamFits(exam, exam.subject)
    ensures var after := days[day := AddExam(days[day], exam)];
      DaysIndexed(after) && ExamsFit(after) &&
      Slots(after, SubjectIndex(exam.subject)) == Slots(days, SubjectIndex(exam.subject))[day := true] &&
      forall j :: 0 <= j < NUM_SUBJECTS && j != SubjectIndex(exam.subject) ==> Slots(after, j) == Slots(days, j)
  {
    var after := days[day := AddExam(days[day], exam)];
    SubjectIndexRoundTrip(exam.subject);
    assert ExamsFit(after) by {
      forall d, j | 0 <= d < NUM_DAYS && 0 <= j < NUM_SUBJECTS && after[d].exams[j].Some?
        ensures ExamFits(after[d].exams[j].value, SubjectAt(j))
      {
        if d == day && j == SubjectIndex(exam.subject) {
          assert after[d].exams[j].value == exam;
        } else {
          assert after[d].exams[j] == days[d].exams[j];
        }
      }
    }
  }

  /** One subject's exams: `exam_days` distinct days, each with a fitting exam. */
  method ScheduleSubject(days: array<Day>, slot: nat, tape: Tape) returns (ok: bool)
    requires slot < NUM_SUBJECTS
    requires DaysIndexed(days[..]) && ExamsFit(days[..])
    requires forall d :: 0 <= d < NUM_DAYS ==> days[d].exams[slot].None?
    modifies days, tape`position
    ensures DaysIndexed(days[..]) && ExamsFit(days[..])
    ensures forall j :: 0 <= j < NUM_SUBJECTS && j != slot ==> Slots(days[..], j) == old(Slots(days[..], j))
    ensures ok ==> CountTrue(Slots(days[..], slot)) == Info(SubjectAt(slot)).examDays
  {
    var subject := SubjectAt(slot);
    var info := Info(subject);
    TableWellFormed(subject);
    var used := new bool[NUM_DAYS](_ => false);
    assert used[..] == seq(NUM_DAYS, _ => false);
    CountTrueNone(NUM_DAYS);
    var k := 0;
    while k < info.examDays
      invariant 0 <= k <= info.examDays
      invariant DaysIndexed(days[..]) && ExamsFit(days[..])
      invariant Slots(days[..], slot) == used[..]
      invariant CountTrue(used[..]) == k
      invariant forall j :: 0 <= j < NUM_SUBJECTS && j != slot ==> Slots(days[..], j) == old(Slots(days[..], j))
    {
      var before := used[..];
      var picked := PickDay(tape, used);
      if picked.None? {
        return false;
      }
      var day := picked.value;
      CountTrueSet(before, day);
      var drawn := DrawExam(subject, tape);
      if drawn.None? {
        return false;
      }
      var exam := drawn.value;
      AddExamToDays(days[..], day, exam);
      days[day] := AddExam(days[day], exam);
      k := k + 1;
    }
    return true;
  }

  /**
   * `Timetable::random`: six days indexed 0 to 5, then each subject in
   * turn scheduled on its number of distinct days.
   */
  method RandomTimetable(tape: Tape) returns (r: Option<Timetable>)
    modifies tape`position
    ensures r.Some? ==> WellFormedTimetable(r.value)
  {
    var days := new Day[NUM_DAYS](_ => Day(0, seq(NUM_SUBJECTS, _ => None)));
    for i := 0 to NUM_DAYS
      invariant forall d :: 0 <= d < NUM_DAYS ==> days[d].exams == seq(NUM_SUBJECTS, _ => None)
      invariant forall d :: 0 <= d < i ==> days[d].index == d
    {
      days[i] := days[i].(index := i);
    }
    for slot := 0 to NUM_SUBJECTS
      invariant DaysIndexed(days[..]) && ExamsFit(days[..])
      invariant forall j, d :: slot <= j < NUM_SUBJECTS && 0 <= d < NUM_DAYS ==> days[d].exams[j].None?
      invariant forall j :: 0 <= j < slot ==> CountTrue(Slots(days[..], j)) == Info(SubjectAt(j)).examDays
    {
      ghost var before := days[..];
      var ok := ScheduleSubject(days, slot, tape);
      if !ok {
        return None;
      }
      forall j, d | slot < j < NUM_SUBJECTS && 0 <= d < NUM_DAYS
        ensures days[d].exams[j].None?
      {
        assert Slots(days[..], j)[d] == Slots(before, j)[d];
      }
    }
    r := Some(Timetable(days[..]));
  }
}
