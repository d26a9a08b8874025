/**
 * The game's places and subjects, and the per-subject table `SUBJECTS`
 * (`logic/subjects.rs`, with `Location` from `logic/mod.rs`).
 */
module Subjects {
  import opened Ints
  import opened Assessments
  import opened Characteristics

  datatype Location = PUNK | PDMI | ComputerClass | Dorm | Mausoleum

  /** The explicit discriminants, 1 to 5. */
  function LocationCode(l: Location): int
  {
    match l
    case PUNK => 1
    case PDMI => 2
    case ComputerClass => 3
    case Dorm => 4
    case Mausoleum => 5
  }

  datatype Subject =
    | AlgebraAndNumberTheory
    | Calculus
    | GeometryAndTopology
    | ComputerScience
    | English
    | PhysicalEducation

  const NUM_SUBJECTS: nat := 6

  /** `subject as usize`: the position of the subject in `SUBJECTS`. */
  function SubjectIndex(s: Subject): (i: nat)
    ensures i < NUM_SUBJECTS
  {
    match s
    case AlgebraAndNumberTheory => 0
    case Calculus => 1
    case GeometryAndTopology => 2
    case ComputerScience => 3
    case English => 4
    case PhysicalEducation => 5
  }

  function SubjectAt(i: nat): (s: Subject)
    requires i < NUM_SUBJECTS
    ensures SubjectIndex(s) == i
  {
    [AlgebraAndNumberTheory, Calculus, GeometryAndTopology, ComputerScience, English, PhysicalEducation][i]
  }

  /** Distinct subjects have distinct positions. */
  lemma SubjectIndexRoundTrip(s: Subject)
    ensures SubjectAt(SubjectIndex(s)) == s
  {
  }

  datatype SubjectInfo = SubjectInfo(
    requiredProblems: u8,
    examDays: u16,
    examMinDuration: i8,
    examMaxDuration: i8,
    examPlaces: seq<Location>,
    member0xFA: i16,
    member0xFC: i16,
    member0x100: i16,
    /** Which knowledge level earns which mark from this subject's teacher. */
    assessmentBounds: seq<(int, KnowledgeAssessment)>)

  /** `SUBJECTS[subject].1`. */
  function Info(s: Subject): SubjectInfo
  {
    match s
    case AlgebraAndNumberTheory =>
      SubjectInfo(12, 4, 2, 4, [PUNK, PUNK, PDMI], 10, 17, 3,
        [(11, KnowledgeAssessment.Bad), (21, Satisfactory), (51, KnowledgeAssessment.Good)])
    case Calculus =>
      SubjectInfo(10, 4, 2, 3, [PUNK, PUNK, PUNK], 8, 14, 2,
        [(9, KnowledgeAssessment.Bad), (19, Satisfactory), (41, KnowledgeAssessment.Good)])
    case GeometryAndTopology =>
      SubjectInfo(3, 2, 1, 3, [PUNK, PDMI, PDMI], 4, 8, 3,
        [(6, KnowledgeAssessment.Bad), (11, Satisfactory), (31, KnowledgeAssessment.Good)])
    case ComputerScience =>
      SubjectInfo(2, 2, 1, 2, [ComputerClass, ComputerClass, ComputerClass], 5, 6, 3,
        [(10, KnowledgeAssessment.Bad), (16, Satisfactory), (31, KnowledgeAssessment.Good)])
    case English =>
      SubjectInfo(3, 2, 2, 2, [PUNK, PUNK, PUNK], 7, 10, 1,
        [(5, KnowledgeAssessment.Bad), (9, Satisfactory), (16, KnowledgeAssessment.Good)])
    case PhysicalEducation =>
      SubjectInfo(1, 2, 1, 1, [PUNK, PUNK, PUNK], 7, 20, 1,
        [(5, KnowledgeAssessment.Bad), (9, Satisfactory), (16, KnowledgeAssessment.Good)])
  }

  /** `Subject::required_problems`. */
  function RequiredProblems(s: Subject): u8
  {
    Info(s).requiredProblems
  }

  /**
   * The shape every row of the table has: three exam places, at most six
   * exam days, a duration range within the nine-hour workday, and three
   * strictly rising bounds for Bad, Satisfactory and Good.
   */
  predicate WellFormedInfo(info: SubjectInfo)
  {
    |info.examPlaces| == 3 &&
    1 <= info.examDays <= 6 &&
    1 <= info.examMinDuration <= info.examMaxDuration <= 9 &&
    |info.assessmentBounds| == 3 &&
    info.assessmentBounds[0].1 == KnowledgeAssessment.Bad &&
    info.assessmentBounds[1].1 == Satisfactory &&
    info.assessmentBounds[2].1 == KnowledgeAssessment.Good &&
    info.assessmentBounds[0].0 < info.assessmentBounds[1].0 < info.assessmentBounds[2].0
  }

  lemma TableWellFormed(s: Subject)
    ensures WellFormedInfo(Info(s))
  {
  }

  /**
   * `KnowledgeAssessment::relative`: the subject's own three bounds, with
   * `Excellent` above the last. A relative mark is never `VeryGood`.
   */
  function RelativeKnowledge(knowledge: i16, s: Subject): (r: KnowledgeAssessment)
    ensures var b := Info(s).assessmentBounds;
      (knowledge < b[0].0 <==> r == KnowledgeAssessment.Bad) &&
      (b[0].0 <= knowledge < b[1].0 <==> r == Satisfactory) &&
      (b[1].0 <= knowledge < b[2].0 <==> r == KnowledgeAssessment.Good) &&
      (b[2].0 <= knowledge <==> r == Excellent)
    ensures r != VeryGood
  {
    var b := Info(s).assessmentBounds;
    TableWellFormed(s);
    if knowledge < b[0].0 then
      assert FirstAbove(b, knowledge, 0);
      Assess(b, knowledge, Excellent)
    else if knowledge < b[1].0 then
      assert FirstAbove(b, knowledge, 1);
      Assess(b, knowledge, Excellent)
    else if knowledge < b[2].0 then
      assert FirstAbove(b, knowledge, 2);
      Assess(b, knowledge, Excellent)
    else
      assert NoneAbove(b, knowledge);
      Assess(b, knowledge, Excellent)
  }
}
