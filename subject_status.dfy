/**
 * `SubjectStatus` (`logic/subject_status.rs`): the player's progress in one
 * subject, packed into a 16-bit field. The layout, from the least
 * significant bit: the subject (3 bits), problems done (7 bits), the index
 * of the day the exam was passed (3 bits, 7 meaning "not passed"), whether
 * the player has the lecture notes (1 bit), and 2 bits of padding. The bit
 * fields are written here with division and remainder by powers of two.
 */
module SubjectStatuses {
  import opened Wrappers
  import opened Ints
  import opened Subjects

  /** `(1 << PASSED_EXAM_DAY_INDEX_BITS) - 1`: the three-bit field's "not passed" value. */
  const NOT_PASSED: nat := 7

  /** The decoded fields. */
  datatype Fields = Fields(
    subject: Subject,
    problemsDone: nat,
    passedExamDayIndex: Option<nat>,
    hasLectureNotes: bool)

  predicate FieldsFit(f: Fields)
  {
    f.problemsDone < 128 && (f.passedExamDayIndex.Some? ==> f.passedExamDayIndex.value < NOT_PASSED)
  }

  /** `passed_exam_day_index_from_bits`: 7 is "not passed", anything else a day index. */
  function DayIndexFromBits(b: nat): (r: Option<nat>)
    requires b < 8
    ensures r.None? <==> b == NOT_PASSED
    ensures r.Some? ==> r.value == b < NOT_PASSED
  {
    if b == NOT_PASSED then None else Some(b)
  }

  /** `passed_exam_day_index_to_bits`. */
  function DayIndexToBits(index: Option<nat>): nat
  {
    match index
    case Some(i) => i
    case None => NOT_PASSED
  }

  /** The sentinel and the day indices are exactly the three-bit values, each exactly once. */
  lemma DayIndexBitsRoundTrip(b: nat, index: Option<nat>)
    requires b < 8
    ensures DayIndexToBits(DayIndexFromBits(b)) == b
    ensures index.Some? && index.value < NOT_PASSED ==> DayIndexFromBits(DayIndexToBits(index)) == index
    ensures index.None? ==> DayIndexFromBits(DayIndexToBits(index)) == None
  {
  }

  /** The packed form of a set of fields; the padding is zero. */
  function Pack(f: Fields): u16
    requires FieldsFit(f)
  {
    SubjectIndex(f.subject) + 8 * f.problemsDone + 1024 * DayIndexToBits(f.passedExamDayIndex)
      + 8192 * (if f.hasLectureNotes then 1 else 0)
  }

  /** Bits that decode: a subject code below 6 and zero padding. */
  predicate WellFormedBits(bits: u16)
  {
    bits % 8 < NUM_SUBJECTS && bits < 0x4000
  }

  function Unpack(bits: u16): Fields
    requires WellFormedBits(bits)
  {
    Fields(SubjectAt(bits % 8), (bits / 8) % 128, DayIndexFromBits((bits / 1024) % 8), (bits / 8192) % 2 == 1)
  }

  /** Packing then unpacking gives back every field. */
  lemma UnpackPack(f: Fields)
    requires FieldsFit(f)
    ensures WellFormedBits(Pack(f)) && Unpack(Pack(f)) == f
  {
    var s, p, d, n := SubjectIndex(f.subject), f.problemsDone, DayIndexToBits(f.passedExamDayIndex),
      if f.hasLectureNotes then 1 else 0;
    var bits := Pack(f);
    assert bits == s + 8 * (p + 128 * (d + 8 * n));
    assert bits % 8 == s;
    assert bits / 8 == p + 128 * (d + 8 * n);
    assert (bits / 8) % 128 == p;
    assert bits / 1024 == d + 8 * n;
    assert (bits / 1024) % 8 == d;
    assert bits / 8192 == n;
    SubjectIndexRoundTrip(f.subject);
  }

  /** Unpacking then packing gives back the bits. */
  lemma PackUnpack(bits: u16)
    requires WellFormedBits(bits)
    ensures FieldsFit(Unpack(bits)) && Pack(Unpack(bits)) == bits
  {
    var f := Unpack(bits);
    assert bits == bits % 8 + 8 * ((bits / 8) % 128) + 1024 * ((bits / 1024) % 8) + 8192 * ((bits / 8192) % 2);
  }

  class SubjectStatus {
    var knowledge: i16
    var bits: u16

    predicate Valid()
      reads this
    {
      WellFormedBits(bits)
    }

    function Status(): Fields
      requires Valid()
      reads this
    {
      Unpack(bits)
    }

    /** `SubjectStatus::new`: nothing solved, not passed, no notes. */
    constructor (subject: Subject, knowledge: i16)
      ensures Valid() && Status() == Fields(subject, 0, None, false) && this.knowledge == knowledge
    {
      this.knowledge := knowledge;
      bits := Pack(Fields(subject, 0, None, false));
      new;
      UnpackPack(Fields(subject, 0, None, false));
    }

    /** `problems_remaining`: the required count minus those done, saturating at zero. */
    function ProblemsRemaining(): (r: u8)
      requires Valid()
      reads this
      ensures r + Status().problemsDone >= RequiredProblems(Status().subject)
      ensures r > 0 ==> r + Status().problemsDone == RequiredProblems(Status().subject)
    {
      var required, done := RequiredProblems(Status().subject), Status().problemsDone;
      if required >= done then required - done else 0
    }

    function SolvedAllProblems(): (r: bool)
      requires Valid()
      reads this
      ensures r <==> Status().problemsDone >= RequiredProblems(Status().subject)
    {
      Status().problemsDone >= RequiredProblems(Status().subject)
    }

    /** Nothing remains exactly when all problems are solved. */
    lemma RemainingIffSolved()
      requires Valid()
      ensures ProblemsRemaining() == 0 <==> SolvedAllProblems()
    {
    }

    function Passed(): (r: bool)
      requires Valid()
      reads this
      ensures r <==> Status().passedExamDayIndex.Some?
    {
      DayIndexFromBits((bits / 1024) % 8).Some?
    }

    /**
     * `more_problems_solved`: adds to the count of problems done and leaves
     * every other field alone. The sum must fit the seven-bit field.
     */
    method MoreProblemsSolved(more: u8)
      requires Valid() && Status().problemsDone + more < 128
      modifies this`bits
      ensures Valid()
      ensures Status() == old(Status()).(problemsDone := old(Status()).problemsDone + more)
    {
      var f := Status();
      PackUnpack(bits);
      var updated := f.(problemsDone := f.problemsDone + more);
      UnpackPack(updated);
      bits := Pack(updated);
    }

    /** `set_passed_exam_day_index`: the index must be below 7 and the exam not passed yet. */
    method SetPassedExamDayIndex(dayIndex: u8)
      requires Valid() && dayIndex < NOT_PASSED && !Passed()
      modifies this`bits
      ensures Valid() && Passed()
      ensures Status() == old(Status()).(passedExamDayIndex := Some(dayIndex))
    {
      var f := Status();
      PackUnpack(bits);
      var updated := f.(passedExamDayIndex := Some(dayIndex));
      UnpackPack(updated);
      bits := Pack(updated);
    }

    /** `set_has_lecture_notes`: panics when the notes are already there. */
    method SetHasLectureNotes()
      requires Valid() && !Status().hasLectureNotes
      modifies this`bits
      ensures Valid()
      ensures Status() == old(Status()).(hasLectureNotes := true)
    {
      var f := Status();
      PackUnpack(bits);
      var updated := f.(hasLectureNotes := true);
      UnpackPack(updated);
      bits := Pack(updated);
    }
  }

  /** `test_debug`: the fields after three problems, a pass on day 3 and the notes. */
  method TestDebug() returns (status: SubjectStatus)
    ensures status.Valid() && status.knowledge == 13
    ensures status.Status() == Fields(Calculus, 3, Some(3), true)
  {
    status := new SubjectStatus(Calculus, 13);
    status.MoreProblemsSolved(3);
    status.SetPassedExamDayIndex(3);
    status.SetHasLectureNotes();
  }
}
