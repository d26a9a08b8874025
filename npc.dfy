/**
 * `logic/npc/mod.rs`: the twelve classmates, where each of them is, and
 * the exam-attendance loop of their daily update.
 */
module Npcs {
  import opened Ints
  import opened Wrappers
  import opened Subjects
  import opened Tapes

  datatype Classmate =
    | Kolya | Pasha | Diamond | RAI | Misha | Serj | Sasha | NiL
    | Kuzmenko | DJuG | Andrew | Grisha

  const NUM_CLASSMATES: nat := 12

  /** The discriminant, which is also `u16::from`. */
  function ClassmateIndex(c: Classmate): (i: nat)
    ensures i < NUM_CLASSMATES
  {
    match c
    case Kolya => 0 case Pasha => 1 case Diamond => 2 case RAI => 3
    case Misha => 4 case Serj => 5 case Sasha => 6 case NiL => 7
    case Kuzmenko => 8 case DJuG => 9 case Andrew => 10 case Grisha => 11
  }

  /** The classmate with a given discriminant. */
  function ClassmateAt(i: nat): (c: Classmate)
    requires i < NUM_CLASSMATES
    ensures ClassmateIndex(c) == i
  {
    [Kolya, Pasha, Diamond, RAI, Misha, Serj, Sasha, NiL, Kuzmenko, DJuG, Andrew, Grisha][i]
  }

  /** The discriminant determines the classmate. */
  lemma ClassmateIndexRoundTrip(c: Classmate)
    ensures ClassmateAt(ClassmateIndex(c)) == c
  {
  }

  /** `health_penalty`: meeting RAI or NiL costs 8 health; nobody else costs any. */
  function HealthPenalty(c: Classmate): (r: int)
    ensures r == if c == RAI || c == NiL then 8 else 0
  {
    match c
    case RAI | NiL => 8
    case _ => 0
  }

  /** `annoyance`: how likely the classmate is to bother the player at an exam. */
  function Annoyance(c: Classmate): (r: i16)
    ensures r == (if c == RAI then 4 else if c == Misha then 2 else if c == NiL then 6 else 0)
  {
    match c
    case RAI => 4
    case Misha => 2
    case NiL => 6
    case _ => 0
  }

  datatype ClassmateLocation = Nowhere | Exam(subject: Subject) | At(location: Location)

  /**
   * `is_at_exam` on a location: at that subject's exam, or in the
   * computer class, where the computer science exam is held.
   */
  predicate LocationIsAtExam(location: ClassmateLocation, subject: Subject)
  {
    match location
    case Exam(s) => s == subject
    case At(l) => l == ComputerClass && subject == ComputerScience
    case Nowhere => false
  }

  class ClassmateInfo {
    const classmate: Classmate
    var currentLocation: ClassmateLocation

    constructor (classmate: Classmate)
      ensures this.classmate == classmate && currentLocation == Nowhere
    {
      this.classmate := classmate;
      currentLocation := Nowhere;
    }

    /** `is_at_exam`. */
    predicate IsAtExam(subject: Subject)
      reads this
    {
      LocationIsAtExam(currentLocation, subject)
    }
  }

  /** The three ways to be at an exam, and nothing else. */
  lemma IsAtExamCases(location: ClassmateLocation, subject: Subject)
    ensures location.Exam? ==> (LocationIsAtExam(location, subject) <==> location.subject == subject)
    ensures location == At(ComputerClass) ==> (LocationIsAtExam(location, subject) <==> subject == ComputerScience)
    ensures location.Nowhere? || (location.At? && location.location != ComputerClass) ==> !LocationIsAtExam(location, subject)
  {
  }

  /** How many of `ss` have an exam here today, that is, how many draws a pass over them takes. */
  function ExamCount(examHere: Subject -> bool, ss: seq<Subject>): (n: nat)
    ensures n <= |ss|
    ensures n == 0 <==> forall k :: 0 <= k < |ss| ==> !examHere(ss[k])
  {
    if ss == [] then 0
    else ExamCount(examHere, ss[..|ss| - 1]) + (if examHere(ss[|ss| - 1]) then 1 else 0)
  }

  /** A pass over a prefix takes no more draws than the pass over the whole. */
  lemma {:induction false} ExamCountPrefix(examHere: Subject -> bool, ss: seq<Subject>, k: nat)
    requires k <= |ss|
    ensures ExamCount(examHere, ss[..k]) <= ExamCount(examHere, ss)
    decreases |ss| - k
  {
    if k < |ss| {
      assert ss[..k + 1][..k] == ss[..k];
      ExamCountPrefix(examHere, ss, k + 1);
    } else {
      assert ss[..k] == ss;
    }
  }

  /** What one inner pass leaves: both flags and the classmate's location. */
  datatype Pass = Pass(atLeastOneExamIsToday: bool, isPresentAtSomeExam: bool, location: ClassmateLocation)

  /**
   * The inner pass over `ss` as a value: the `i`-th subject with an exam
   * here uses `draws[i]`, and a draw whose remainder by 10 is above 5 sends
   * the classmate there, a later such subject overriding an earlier one.
   */
  ghost function InnerPass(examHere: Subject -> bool, ss: seq<Subject>, draws: seq<nat>, start: ClassmateLocation): Pass
    requires ExamCount(examHere, ss) <= |draws|
  {
    if ss == [] then Pass(false, false, start)
    else
      var before := InnerPass(examHere, ss[..|ss| - 1], draws, start);
      var s := ss[|ss| - 1];
      if !examHere(s) then before
      else if draws[ExamCount(examHere, ss[..|ss| - 1])] % 10 > 5 then Pass(true, true, Exam(s))
      else Pass(true, before.isPresentAtSomeExam, before.location)
  }

  /** Subject `k` has an exam here and its draw sends the classmate to it. */
  ghost predicate Sends(examHere: Subject -> bool, ss: seq<Subject>, draws: seq<nat>, k: nat)
    requires k < |ss|
  {
    && examHere(ss[k])
    && ExamCount(examHere, ss[..k]) < |draws|
    && draws[ExamCount(examHere, ss[..k])] % 10 > 5
  }

  /** Whether subject `k` sends the classmate does not depend on the subjects after it. */
  lemma SendsPrefix(examHere: Subject -> bool, ss: seq<Subject>, draws: seq<nat>, n: nat, k: nat)
    requires k < n <= |ss|
    ensures Sends(examHere, ss[..n], draws, k) == Sends(examHere, ss, draws, k)
  {
    assert ss[..n][..k] == ss[..k];
  }

  /** The first flag of a pass says that some subject has an exam here today. */
  lemma {:induction false} InnerPassAtLeastOne(examHere: Subject -> bool, ss: seq<Subject>, draws: seq<nat>, start: ClassmateLocation)
    requires ExamCount(examHere, ss) <= |draws|
    ensures InnerPass(examHere, ss, draws, start).atLeastOneExamIsToday <==> exists k :: 0 <= k < |ss| && examHere(ss[k])
  {
    if ss != [] {
      var n := |ss| - 1;
      ExamCountPrefix(examHere, ss, n);
      InnerPassAtLeastOne(examHere, ss[..n], draws, start);
      assert forall k :: 0 <= k < n ==> ss[..n][k] == ss[k];
    }
  }

  /**
   * The classmate is sent exactly when some subject's draw sends it, and
   * otherwise stays where it was.
   */
  lemma {:induction false} InnerPassPresent(examHere: Subject -> bool, ss: seq<Subject>, draws: seq<nat>, start: ClassmateLocation)
    requires ExamCount(examHere, ss) <= |draws|
    ensures InnerPass(examHere, ss, draws, start).isPresentAtSomeExam <==> exists k :: 0 <= k < |ss| && Sends(examHere, ss, draws, k)
    ensures !InnerPass(examHere, ss, draws, start).isPresentAtSomeExam ==> InnerPass(examHere, ss, draws, start).location == start
  {
    if ss != [] {
      var n := |ss| - 1;
      ExamCountPrefix(examHere, ss, n);
      InnerPassPresent(examHere, ss[..n], draws, start);
      forall k | 0 <= k < n
        ensures Sends(examHere, ss[..n], draws, k) == Sends(examHere, ss, draws, k)
      {
        SendsPrefix(examHere, ss, draws, n, k);
      }
      var p := InnerPass(examHere, ss, draws, start);
      var q := InnerPass(examHere, ss[..n], draws, start);
      if Sends(examHere, ss, draws, n) {
        assert p.isPresentAtSomeExam;
      } else {
        assert p.isPresentAtSomeExam == q.isPresentAtSomeExam && p.location == q.location;
      }
    }
  }

  /** Subject `k` sends the classmate and no later subject does. */
  ghost predicate LastSender(examHere: Subject -> bool, ss: seq<Subject>, draws: seq<nat>, k: nat)
    requires k < |ss|
  {
    Sends(examHere, ss, draws, k) && forall j :: k < j < |ss| ==> !Sends(examHere, ss, draws, j)
  }

  /** A classmate who was sent ends up at the last subject whose draw sent it. */
  lemma {:induction false} InnerPassLast(examHere: Subject -> bool, ss: seq<Subject>, draws: seq<nat>, start: ClassmateLocation)
    requires ExamCount(examHere, ss) <= |draws|
    requires InnerPass(examHere, ss, draws, start).isPresentAtSomeExam
    ensures exists k :: 0 <= k < |ss| && LastSender(examHere, ss, draws, k) && InnerPass(examHere, ss, draws, start).location == Exam(ss[k])
  {
    var n := |ss| - 1;
    var init := ss[..n];
    ExamCountPrefix(examHere, ss, n);
    if Sends(examHere, ss, draws, n) {
      assert LastSender(examHere, ss, draws, n);
    } else {
      InnerPassLast(examHere, init, draws, start);
      var k :| 0 <= k < n && LastSender(examHere, init, draws, k) && InnerPass(examHere, init, draws, start).location == Exam(init[k]);
      SendsPrefix(examHere, ss, draws, n, k);
      forall j | k < j < n
        ensures !Sends(examHere, ss, draws, j)
      {
        SendsPrefix(examHere, ss, draws, n, j);
      }
      assert init[k] == ss[k] && LastSender(examHere, ss, draws, k);
    }
  }

  /**
   * `maybe_on_exam_inner`: for each subject in turn whose exam is held
   * here today, a draw of `random(10)` above 5 sends the classmate to it.
   * `examHere` stands for `is_exam_here_on_day` at the player's location
   * and day. Returns whether some exam is held here today, whether the
   * classmate went to one, and whether the tape lasted; when it did, the
   * result is `InnerPass` over the draws from the tape's old position on.
   */
  method MaybeOnExamInner(info: ClassmateInfo, examHere: Subject -> bool, subjects: seq<Subject>, tape: Tape)
    returns (atLeastOneExamIsToday: bool, isPresentAtSomeExam: bool, ok: bool)
    modifies info, tape`position
    ensures old(tape.position) <= |tape.values| ==>
      (ok <==> old(tape.position) + ExamCount(examHere, subjects) <= |tape.values|)
    ensures ok && old(tape.position) <= |tape.values| ==>
      && tape.position == old(tape.position) + ExamCount(examHere, subjects)
      && Pass(atLeastOneExamIsToday, isPresentAtSomeExam, info.currentLocation) ==
         InnerPass(examHere, subjects, tape.values[old(tape.position)..], old(info.currentLocation))
    ensures ok && old(tape.position) <= |tape.values| ==>
      (isPresentAtSomeExam <==> exists k :: 0 <= k < |subjects| && Sends(examHere, subjects, tape.values[old(tape.position)..], k))
    ensures ok && old(tape.position) <= |tape.values| && isPresentAtSomeExam ==>
      exists k :: 0 <= k < |subjects| && LastSender(examHere, subjects, tape.values[old(tape.position)..], k) &&
        info.currentLocation == Exam(subjects[k])
    ensures ok ==> (atLeastOneExamIsToday <==> exists k :: 0 <= k < |subjects| && examHere(subjects[k]))
    ensures ok && atLeastOneExamIsToday ==> tape.position > old(tape.position)
    ensures tape.position >= old(tape.position)
    ensures old(tape.position) <= |tape.values| ==> tape.position <= |tape.values|
    ensures isPresentAtSomeExam ==>
      (info.currentLocation.Exam? && info.currentLocation.subject in subjects && examHere(info.currentLocation.subject))
    ensures !isPresentAtSomeExam ==> info.currentLocation == old(info.currentLocation)
  {
    ghost var start, from := info.currentLocation, tape.position;
    atLeastOneExamIsToday, isPresentAtSomeExam := false, false;
    for k := 0 to |subjects|
      invariant tape.position == from + ExamCount(examHere, subjects[..k])
      invariant from <= |tape.values| ==> tape.position <= |tape.values|
      invariant from <= |tape.values| ==>
        Pass(atLeastOneExamIsToday, isPresentAtSomeExam, info.currentLocation) ==
        InnerPass(examHere, subjects[..k], tape.values[from..], start)
      invariant atLeastOneExamIsToday <==> exists m :: 0 <= m < k && examHere(subjects[m])
      invariant isPresentAtSomeExam ==>
        (info.currentLocation.Exam? && info.currentLocation.subject in subjects && examHere(info.currentLocation.subject))
      invariant !isPresentAtSomeExam ==> info.currentLocation == start
    {
      assert subjects[..k + 1][..k] == subjects[..k];
      if examHere(subjects[k]) {
        atLeastOneExamIsToday := true;
        var draw := tape.Below(10);
        if draw.None? {
          ExamCountPrefix(examHere, subjects, k + 1);
          return atLeastOneExamIsToday, isPresentAtSomeExam, false;
        }
        if draw.value > 5 {
          isPresentAtSomeExam := true;
          info.currentLocation := Exam(subjects[k]);
        }
      }
    }
    assert subjects[..|subjects|] == subjects;
    ok := true;
    if from <= |tape.values| {
      InnerPassPresent(examHere, subjects, tape.values[from..], start);
      if isPresentAtSomeExam {
        InnerPassLast(examHere, subjects, tape.values[from..], start);
      }
    }
  }

  /**
   * `maybe_on_exam`: repeats the inner pass until the classmate is at an
   * exam or no exam is held here today.
   */
  method MaybeOnExam(info: ClassmateInfo, examHere: Subject -> bool, subjects: seq<Subject>, tape: Tape)
    returns (ok: bool)
    requires tape.position <= |tape.values|
    modifies info, tape`position
    ensures ok ==>
      (info.currentLocation.Exam? && info.currentLocation.subject in subjects && examHere(info.currentLocation.subject)) ||
      (forall k :: 0 <= k < |subjects| ==> !examHere(subjects[k]))
  {
    while true
      invariant tape.position <= |tape.values|
      decreases |tape.values| - tape.position
    {
      var atLeastOne, present, lasted := MaybeOnExamInner(info, examHere, subjects, tape);
      if !lasted {
        return false;
      }
      if present || !atLeastOne {
        return true;
      }
    }
  }

  /** `Classmates`: one entry per classmate, at the classmate's discriminant. */
  class Classmates {
    const entries: seq<ClassmateInfo>

    predicate Valid()
    {
      |entries| == NUM_CLASSMATES &&
      forall i :: 0 <= i < NUM_CLASSMATES ==> entries[i].classmate == ClassmateAt(i)
    }

    /** `Classmates::new`: classmate `i` at index `i`, nobody anywhere. */
    constructor ()
      ensures Valid()
      ensures forall i :: 0 <= i < NUM_CLASSMATES ==> entries[i].currentLocation == Nowhere && fresh(entries[i])
    {
      var built: seq<ClassmateInfo> := [];
      for i := 0 to NUM_CLASSMATES
        invariant |built| == i
        invariant forall k :: 0 <= k < i ==> built[k].classmate == ClassmateAt(k)
        invariant forall k :: 0 <= k < i ==> built[k].currentLocation == Nowhere && fresh(built[k])
      {
        var info := new ClassmateInfo(ClassmateAt(i));
        built := built + [info];
      }
      entries := built;
    }

    /** `Index<Classmate>`: the entry at the discriminant, which is that classmate's. */
    function Get(c: Classmate): (r: ClassmateInfo)
      requires Valid()
      ensures r.classmate == c
    {
      entries[ClassmateIndex(c)]
    }

    /** `filter_by_location`: the entries at `location`, in classmate order. */
    function FilterByLocation(location: Location): (r: seq<ClassmateInfo>)
      requires Valid()
      reads entries
      ensures forall k :: 0 <= k < |r| ==> r[k] in entries && r[k].currentLocation == At(location)
      ensures forall i :: 0 <= i < NUM_CLASSMATES && entries[i].currentLocation == At(location) ==> entries[i] in r
      ensures (forall i :: 0 <= i < NUM_CLASSMATES ==> entries[i].currentLocation == Nowhere) ==> r == []
      ensures forall k, m :: 0 <= k < m < |r| ==> ClassmateIndex(r[k].classmate) < ClassmateIndex(r[m].classmate)
    {
      var flags := seq(NUM_CLASSMATES, i requires 0 <= i < NUM_CLASSMATES reads entries => entries[i].currentLocation == At(location));
      Pick(flags)
    }

    /** `filter_by_exam`: the entries at the exam in `subject`, in classmate order. */
    function FilterByExam(subject: Subject): (r: seq<ClassmateInfo>)
      requires Valid()
      reads entries
      ensures forall k :: 0 <= k < |r| ==> r[k] in entries && r[k].IsAtExam(subject)
      ensures forall i :: 0 <= i < NUM_CLASSMATES && entries[i].IsAtExam(subject) ==> entries[i] in r
      ensures (forall i :: 0 <= i < NUM_CLASSMATES ==> entries[i].currentLocation == Nowhere) ==> r == []
      ensures forall k, m :: 0 <= k < m < |r| ==> ClassmateIndex(r[k].classmate) < ClassmateIndex(r[m].classmate)
    {
      var flags := seq(NUM_CLASSMATES, i requires 0 <= i < NUM_CLASSMATES reads entries => entries[i].IsAtExam(subject));
      Pick(flags)
    }

    /** The entries whose flag is set, in order. */
    function Pick(flags: seq<bool>): (r: seq<ClassmateInfo>)
      requires Valid() && |flags| == NUM_CLASSMATES
      ensures forall k :: 0 <= k < |r| ==> r[k] in entries && flags[ClassmateIndex(r[k].classmate)]
      ensures forall i :: 0 <= i < NUM_CLASSMATES && flags[i] ==> entries[i] in r
      ensures forall k, m :: 0 <= k < m < |r| ==> ClassmateIndex(r[k].classmate) < ClassmateIndex(r[m].classmate)
      ensures (forall i :: 0 <= i < NUM_CLASSMATES ==> !flags[i]) ==> r == []
    {
      var indices := SetIndices(flags, 0);
      var r := seq(|indices|, k requires 0 <= k < |indices| => entries[indices[k]]);
      assert forall k :: 0 <= k < |r| ==> r[k] == entries[indices[k]] && ClassmateIndex(r[k].classmate) == indices[k];
      assert forall i :: 0 <= i < NUM_CLASSMATES && flags[i] ==> entries[i] in r by {
        forall i | 0 <= i < NUM_CLASSMATES && flags[i]
          ensures entries[i] in r
        {
          var k :| 0 <= k < |indices| && indices[k] == i;
          assert r[k] == entries[i];
        }
      }
      r
    }
  }

  /** The positions from `from` on whose flag is set, in increasing order. */
  function SetIndices(flags: seq<bool>, from: nat): (r: seq<nat>)
    requires from <= |flags|
    ensures forall k :: 0 <= k < |r| ==> from <= r[k] < |flags| && flags[r[k]]
    ensures forall i :: from <= i < |flags| && flags[i] ==> i in r
    ensures forall k, m :: 0 <= k < m < |r| ==> r[k] < r[m]
    ensures (forall i :: from <= i < |flags| ==> !flags[i]) ==> r == []
    decreases |flags| - from
  {
    if from == |flags| then []
    else
      var rest := SetIndices(flags, from + 1);
      if flags[from] then
        var r := [from] + rest;
        assert forall k :: 0 < k < |r| ==> r[k] == rest[k - 1];
        r
      else rest
  }

  /** A fresh set of classmates is nowhere, so both filters come back empty. */
  method NewClassmatesAreNowhere(location: Location, subject: Subject) returns (atLocation: nat, atExam: nat)
    ensures atLocation == 0 && atExam == 0
  {
    var classmates := new Classmates();
    atLocation := |classmates.FilterByLocation(location)|;
    atExam := |classmates.FilterByExam(subject)|;
  }
}
