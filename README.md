# mmheroes: compositor, input replay and core helpers

This project is a Dafny model of the deterministic core of *mmheroes*, a
text-mode student-life game. It has a Rust game core and an iOS front end.
The model covers:

- **The iOS compositor (`GameRunner`).** It keeps a 24 x 80 screen as per-row
  lists of text fragments. `writeString` splits text at newlines and appends
  one fragment per non-empty piece, at the current column and write priority.
  `flush` sorts each row by `(startColumn, priority)` and paints the fragments
  onto a blank canvas, so a later write wins where writes overlap.
  `continueGame` guards input with a waiting/ignoring flag. It then drains the
  game's request stream in order, suspending at every `sleep`.
- **The newline splitter** `String.lines` that `writeString` depends on.
- **Input recording and replay.**
  - The run-length input recorder: a run of `n > 1` equal keys is written as
    `n` followed by the key's symbol. Its parser `parse_all` reports
    `UnexpectedEOF`, `ParseInt` and `UnknownCharacter` errors, and stops when
    the consumer refuses a key.
  - The two replay renderers (Swift and Rust). They hand out the recorded keys
    through `getch` and fail every call once the recording is used up.
  - The Swift `TryRenderer`: primary first, fallback on error.
- **The Rust `Renderer`.** It tracks the cursor through `write_str` with
  wrapping at the terminal width, and emits one request per call.
  `continue_game`'s dialog step and `Color::try_from` are modelled with it.
- **Value types and helpers of the Rust core:**
  - the bounded vector `TinyVec` and the 16-bit `BitSet`
  - the scale lookup `assess` and the assessments built on it
  - the `SubjectStatus` bit field
  - `Time`/`Duration` arithmetic and the timetable generator
  - the splitmix64 `Rng`
  - classmate queries and the `maybe_on_exam` loop
  - the high-score byte layout
  - TERKOM's hiccup and income

Code that mutates state is modelled as classes and methods with loop
invariants, proved against specification functions. Pure code is modelled as
functions and lemmas.

Inputs the programs receive from code that is not modelled become parameters:
- the game core's answer to an input (`continues`, the produced requests, the
  available actions, the next screen's waiting state)
- the cp866 name codec (`encodeName`/`decodeName`)
- `is_exam_here_on_day` (`examHere`)
- the random draws, through `Tapes.Tape`

Fixed-width integers appear as subset types of `int` (`u8`, `i16`, `u64`, ...).
Wrap-around and truncating division are written out where the source relies
on them. `Rng::next` is modelled with the wrapping arithmetic of a release
build; in a debug build its additions and multiplications would overflow and
panic. Elsewhere, where the Rust code would panic (an assertion, an overflow
in a debug build, an index out of range), the model has a `requires`. Swift
traps are treated the same way: `String.index(_:offsetBy:)` past the end of a
line (`GameRunner.swift`, lines 131-133) becomes `Compositor.AllFitIn` and
`Compositor.AllFit`, and the `lines[currentLine]` subscript (line 164)
becomes `Compositor.Writable`.

## Model

| member | source | states |
|---|---|---|
| Assessments.Assess | mmheroes-core-rs/src/util/mod.rs:13-22 | the result is the label of the first pair whose bound is strictly greater than the value, or the default when there is none |
| Assessments.AssessEmpty | mmheroes-core-rs/src/util/mod.rs:18-21 | an empty scale always gives the default |
| Assessments.AssessMonotone | mmheroes-core-rs/src/util/mod.rs:13-22 | on a scale with ascending bounds and ascending labels (default the highest), a larger value never gets a lower label |
| Assessments.AssessRankAtLeast | mmheroes-core-rs/src/util/mod.rs:13-22 | if every label and the default rank at least `floor`, so does the result |
| Characteristics.FromHealthLevel | mmheroes-core-rs/src/logic/characteristics.rs:137-149 | level below 1 gives exactly `LivingDead`; 41 and above gives exactly `Great`; otherwise the rank is `(level - 1) / 8 + 1` |
| Characteristics.HealthScaleRead | mmheroes-core-rs/src/logic/characteristics.rs:139-148 | `assess` over the health scale yields the three cases above |
| Characteristics.FromBrainLevel | mmheroes-core-rs/src/logic/characteristics.rs:248-263 | under the source's assertion (level at most 100) the result is never `ContactTheDeveloper` and its rank is the level plus one, clamped to 0..7 |
| Characteristics.BrainScaleRead | mmheroes-core-rs/src/logic/characteristics.rs:250-261 | level 101 and above gives `ContactTheDeveloper`, which is what the assertion rejects |
| Characteristics.AbsoluteKnowledge | mmheroes-core-rs/src/logic/characteristics.rs:266-270 | each mark holds exactly on its band: below 6, 6..13, 13..21, 21..31, 31 and above |
| Characteristics.FromStaminaLevel | mmheroes-core-rs/src/logic/characteristics.rs:309-321 | the rank is the level plus one, clamped to 0..7 |
| Characteristics.StaminaMonotone | mmheroes-core-rs/src/logic/characteristics.rs:309-321 | more stamina never gives a worse assessment |
| Characteristics.FromCharismaLevel | mmheroes-core-rs/src/logic/characteristics.rs:349-360 | the rank is the level clamped to 0..6 |
| Characteristics.CharismaMonotone | mmheroes-core-rs/src/logic/characteristics.rs:349-360 | more charisma never gives a worse assessment |
| Characteristics.Add | mmheroes-core-rs/src/logic/characteristics.rs:9-21 | adding an `i16` to `Money` adds exactly, when the sum fits in 16 bits |
| Characteristics.Sub | mmheroes-core-rs/src/logic/characteristics.rs:35-59 | subtracting an `i16` subtracts exactly, when the difference fits |
| Characteristics.AddSub | mmheroes-core-rs/src/logic/characteristics.rs:9-59 | subtracting what was added gives back the original amount |
| Characteristics.DivAssign | mmheroes-core-rs/src/logic/characteristics.rs:61-65 | division truncates toward zero, as Rust's `/=` on `i16` does; the two panicking cases are excluded |
| Characteristics.TruncDivRoundsTowardZero | mmheroes-core-rs/src/logic/characteristics.rs:61-65 | -7 / 2 is -3 in the source and -4 in Dafny's Euclidean division, so the model's division is not Dafny's |
| Characteristics.MoneyFromU64 | mmheroes-core-rs/src/logic/characteristics.rs:79-85 | conversion from `u64` succeeds exactly below 0x8000 and keeps the value |
| Characteristics.MoneyToU64 | mmheroes-core-rs/src/logic/characteristics.rs:87-93 | conversion to `u64` succeeds exactly for non-negative amounts and keeps the value |
| Characteristics.MoneyU64RoundTrip | mmheroes-core-rs/src/logic/characteristics.rs:79-93 | the two conversions undo each other wherever they succeed |
| Subjects.SubjectIndexRoundTrip | mmheroes-core-rs/src/logic/subjects.rs:163-169 | indexing the subject table by a subject's position returns that subject |
| Subjects.TableWellFormed | mmheroes-core-rs/src/logic/subjects.rs:42-156 | every subject has three exam places, one to six exam days, a duration range within the nine-hour working day, and strictly rising bounds for Bad, Satisfactory and Good |
| Subjects.RelativeKnowledge | mmheroes-core-rs/src/logic/characteristics.rs:272-278 | `assess` over a subject's three bounds gives Bad, Satisfactory, Good or Excellent exactly on the four bands, and never VeryGood |
| SubjectStatuses.DayIndexFromBits | mmheroes-core-rs/src/logic/subject_status.rs:29-35 | the 3-bit field means "not passed" exactly when it holds 7, and otherwise gives the day index |
| SubjectStatuses.DayIndexBitsRoundTrip | mmheroes-core-rs/src/logic/subject_status.rs:29-43 | the day-index decoding and encoding undo each other |
| SubjectStatuses.UnpackPack | mmheroes-core-rs/src/logic/subject_status.rs:5-26 | packing the fields into 16 bits (3 subject, 7 problems, 3 day index, 1 notes, 2 padding) and unpacking gives them back |
| SubjectStatuses.PackUnpack | mmheroes-core-rs/src/logic/subject_status.rs:5-26 | every well-formed 16-bit word is the packing of its fields |
| SubjectStatuses.SubjectStatus.constructor | mmheroes-core-rs/src/logic/subject_status.rs:55-60 | a new status has the subject and knowledge given, no problems done, not passed and no notes |
| SubjectStatuses.SubjectStatus.ProblemsRemaining | mmheroes-core-rs/src/logic/subject_status.rs:74-78 | saturating subtraction: the remaining count plus the done count covers the requirement, and matches it exactly while anything remains |
| SubjectStatuses.SubjectStatus.SolvedAllProblems | mmheroes-core-rs/src/logic/subject_status.rs:80-82 | true exactly when the done count reaches the requirement |
| SubjectStatuses.SubjectStatus.RemainingIffSolved | mmheroes-core-rs/src/logic/subject_status.rs:74-82 | nothing remains exactly when all problems are solved |
| SubjectStatuses.SubjectStatus.Passed | mmheroes-core-rs/src/logic/subject_status.rs:93-95 | true exactly when a pass day is recorded |
| SubjectStatuses.SubjectStatus.MoreProblemsSolved | mmheroes-core-rs/src/logic/subject_status.rs:84-87 | adds to the problem count and changes no other field |
| SubjectStatuses.SubjectStatus.SetPassedExamDayIndex | mmheroes-core-rs/src/logic/subject_status.rs:101-108 | under both assertions, records the day and changes no other field |
| SubjectStatuses.SubjectStatus.SetHasLectureNotes | mmheroes-core-rs/src/logic/subject_status.rs:114-117 | under the assertion, sets the notes flag and changes no other field |
| SubjectStatuses.TestDebug | mmheroes-core-rs/src/logic/subject_status.rs:136-148 | the test's steps give Calculus, knowledge 13, three problems, passed on day 3, with notes |
| BitSets.EmptyHasNothing | mmheroes-core-rs/src/util/bitset.rs:14-21 | the default, all-zero set contains no element |
| BitSets.HasAddBit | mmheroes-core-rs/src/util/bitset.rs:28-38 | after adding `i`, `j` is contained exactly when it was before or `j == i` |
| BitSets.AddBitIdempotent | mmheroes-core-rs/src/util/bitset.rs:34-38 | adding an element twice is adding it once |
| BitSets.CountOnesAddBit | mmheroes-core-rs/src/util/bitset.rs:34-42 | adding raises the count by one exactly when the element was absent |
| BitSets.AddAll | mmheroes-core-rs/src/util/bitset.rs:48-54 | adding a sequence of elements yields exactly the old members plus those elements |
| BitSets.CountOnesAddAll | mmheroes-core-rs/src/util/bitset.rs:40-54 | the count grows by the number of distinct new elements |
| BitSets.BitSet.constructor | mmheroes-core-rs/src/util/bitset.rs:8-21 | a new set is empty |
| BitSets.BitSet.Contains | mmheroes-core-rs/src/util/bitset.rs:28-32 | reports whether the element's bit is set |
| BitSets.BitSet.Add | mmheroes-core-rs/src/util/bitset.rs:34-38 | sets exactly the element's bit, with membership and count as above; elements are below 16 |
| BitSets.BitSet.Count | mmheroes-core-rs/src/util/bitset.rs:40-42 | the number of set bits, at most 16 |
| BitSets.FromIter | mmheroes-core-rs/src/util/bitset.rs:45-55 | the new set's members are exactly the sequence's elements, and its count is the number of distinct elements |
| BitSets.SixteenAliasesZero | mmheroes-core-rs/src/util/bitset.rs:28-38 | with the guard as written, element 16 passes; with release-build shift masking, adding 16 sets bit 0 and contains(0) becomes true |
| TinyVecs.TinyVec.constructor | mmheroes-core-rs/src/util/tiny_vec.rs:23-28 | a new vector is empty with the given capacity |
| TinyVecs.TinyVec.Len | mmheroes-core-rs/src/util/tiny_vec.rs:17-19 | the number of elements |
| TinyVecs.TinyVec.Push | mmheroes-core-rs/src/util/tiny_vec.rs:30-34 | below capacity, appends the value and keeps the rest |
| TinyVecs.TinyVec.Clear | mmheroes-core-rs/src/util/tiny_vec.rs:36-41 | leaves the vector empty |
| TinyVecs.TinyVec.Get | mmheroes-core-rs/src/util/tiny_vec.rs:44-68 | indexing within the length returns that element of the contents |
| TinyVecs.TinyVec.ExtendFromSlice | mmheroes-core-rs/src/util/tiny_vec.rs:82-86 | appends the whole slice in order, when it fits |
| TinyVecs.TinyVec.Clone | mmheroes-core-rs/src/util/tiny_vec.rs:89-97 | a fresh vector with the same capacity and the same contents |
| TinyVecs.FromArray | mmheroes-core-rs/src/util/tiny_vec.rs:70-79 | a vector holding exactly the array's elements |
| TinyVecs.FillToCapacity | mmheroes-core-rs/src/util/tiny_vec.rs:177-184 | pushing 1..16 into a capacity-16 vector fills it with exactly those values |
| Timetables.Display | mmheroes-core-rs/src/logic/timetable.rs:24-29 | an hour below 24 prints as one or two decimal digits with no leading zero |
| Timetables.DisplayRoundTrip | mmheroes-core-rs/src/logic/timetable.rs:24-29 | the printed digits read back as the hour |
| Timetables.DisplayedMidnight | mmheroes-core-rs/src/logic/timetable.rs:19-29 | the only printable midnight (hour 0) prints as "0" |
| Timetables.Add | mmheroes-core-rs/src/logic/timetable.rs:35-45 | adding a duration moves the hour by exactly that many hours, in both signs, within `u8` |
| Timetables.Sub | mmheroes-core-rs/src/logic/timetable.rs:53-59 | subtracting a duration moves the hour back by it; the negation of -128 is excluded |
| Timetables.SubUndoesAdd | mmheroes-core-rs/src/logic/timetable.rs:35-59 | `(t + d) - d == t` |
| Timetables.TimeU64RoundTrip | mmheroes-core-rs/src/logic/timetable.rs:61-75 | `Time` to `u64` and back is the identity; from `u64` it succeeds exactly below 256 |
| Timetables.DurationU64RoundTrip | mmheroes-core-rs/src/logic/timetable.rs:77-91 | `Duration` to `u64` succeeds exactly for non-negative hours, and the conversions undo each other |
| Timetables.AddExam | mmheroes-core-rs/src/logic/timetable.rs:130-132 | adding an exam keeps a day well formed and keeps its index |
| Timetables.ExamOfAddExam | mmheroes-core-rs/src/logic/timetable.rs:126-132 | after adding, the day's exam for that subject is the new one and the other subjects' exams are unchanged |
| Timetables.CountTrueSet | mmheroes-core-rs/src/logic/timetable.rs:156-163 | marking an unused day used raises the used count by one |
| Timetables.PickDay | mmheroes-core-rs/src/logic/timetable.rs:158-164 | the loop returns a previously unused day and marks exactly that day used |
| Timetables.DrawExam | mmheroes-core-rs/src/logic/timetable.rs:166-179 | a drawn exam starts no earlier than 9, has a duration in the subject's range, ends by 18 and is held at one of the subject's places |
| Timetables.ScheduleSubject | mmheroes-core-rs/src/logic/timetable.rs:155-180 | a subject's exams go on exactly `exam_days` distinct days; other subjects' slots are untouched and every exam fits |
| Timetables.RandomTimetable | mmheroes-core-rs/src/logic/timetable.rs:145-183 | the six days are indexed 0..5, every subject has exams on exactly its number of days, and every exam fits the working day |
| Random.WrappingAdd | mmheroes-core-rs/src/random.rs:12 | `u64` addition wraps around at 2^64 |
| Random.Outputs | mmheroes-core-rs/src/random.rs:10-17 | the i-th of k outputs is the output function applied to the state after i + 1 steps |
| Random.StateAfterClosedForm | mmheroes-core-rs/src/random.rs:6-12 | after k steps the state is `seed + k * 0x9e3779b97f4a7c15` modulo 2^64 |
| Random.DrawsSplit | mmheroes-core-rs/src/random.rs:10-17 | drawing a + b values is drawing a values and then b from the state reached |
| Random.Rng.constructor | mmheroes-core-rs/src/random.rs:6-8 | the state is the seed |
| Random.Rng.Next | mmheroes-core-rs/src/random.rs:10-17 | the state advances by the golden gamma with wrap-around, and the result is the splitmix64 mix of the new state |
| Random.DrawMany | mmheroes-core-rs/src/random.rs:10-17 | `count` successive calls return the reference draw sequence and leave the state after `count` steps |
| Npcs.ClassmateIndexRoundTrip | mmheroes-core-rs/src/logic/npc/mod.rs:18-37 | the `u16` code of a classmate picks that classmate out of the table |
| Npcs.HealthPenalty | mmheroes-core-rs/src/logic/npc/mod.rs:40-46 | 8 for RAI and NiL, 0 for everyone else |
| Npcs.Annoyance | mmheroes-core-rs/src/logic/npc/mod.rs:49-57 | RAI 4, Misha 2, NiL 6, 0 for everyone else |
| Npcs.IsAtExamCases | mmheroes-core-rs/src/logic/npc/mod.rs:203-214 | at an exam: exactly that subject; in the computer class: exactly computer science; elsewhere or nowhere: never |
| Npcs.ExamCount | mmheroes-core-rs/src/logic/npc/mod.rs:225-228 | the number of draws a pass takes is zero exactly when no listed subject has an exam here today |
| Npcs.ExamCountPrefix | mmheroes-core-rs/src/logic/npc/mod.rs:225-228 | a pass over the first subjects takes no more draws than the pass over all of them |
| Npcs.SendsPrefix | mmheroes-core-rs/src/logic/npc/mod.rs:225-233 | whether a subject's draw sends the classmate does not depend on the subjects after it |
| Npcs.InnerPassAtLeastOne | mmheroes-core-rs/src/logic/npc/mod.rs:222-235 | the first flag of a pass is set exactly when some listed subject has an exam here today |
| Npcs.InnerPassPresent | mmheroes-core-rs/src/logic/npc/mod.rs:222-235 | the classmate is sent exactly when some exam-here subject's draw of `random(10)` is above 5, and otherwise stays where it was |
| Npcs.InnerPassLast | mmheroes-core-rs/src/logic/npc/mod.rs:225-233 | a classmate who was sent is at the exam of the last subject whose draw was above 5 (no `break`: later subjects override earlier ones) |
| Npcs.MaybeOnExamInner | mmheroes-core-rs/src/logic/npc/mod.rs:217-236 | the pass takes one draw per exam-here subject and fails exactly when the tape has fewer; when it lasts, both flags and the new location are `InnerPass` of those draws: the first flag says some subject has an exam here, the classmate is sent exactly when some such draw is above 5, to the last such subject, and otherwise stays put |
| Npcs.MaybeOnExam | mmheroes-core-rs/src/logic/npc/mod.rs:238-258 | the loop ends with the classmate at an exam held here, or with no exam held here |
| Npcs.Classmates.constructor | mmheroes-core-rs/src/logic/npc/mod.rs:264-315 | twelve fresh entries in enumeration order, all `Nowhere` |
| Npcs.Classmates.Get | mmheroes-core-rs/src/logic/npc/mod.rs:335-341 | indexing by a classmate gives that classmate's entry |
| Npcs.Classmates.FilterByLocation | mmheroes-core-rs/src/logic/npc/mod.rs:317-324 | exactly the entries at that location, in table order |
| Npcs.Classmates.FilterByExam | mmheroes-core-rs/src/logic/npc/mod.rs:326-332 | exactly the entries at that subject's exam, in table order |
| Npcs.NewClassmatesAreNowhere | mmheroes-core-rs/src/logic/npc/mod.rs:264-332 | on a fresh table both filters are empty |
| HighScores.DefaultHighScores | mmheroes-core-rs/src/ui/high_scores.rs:28-36 | five defaults, from 400 down to 20, strictly decreasing |
| HighScores.I16LeRoundTrip | mmheroes-core-rs/src/ui/high_scores.rs:50-54 | `from_le_bytes(to_le_bytes(x)) == x` |
| HighScores.LeI16RoundTrip | mmheroes-core-rs/src/ui/high_scores.rs:50-54 | `to_le_bytes(from_le_bytes(b)) == b` |
| HighScores.EncodeRecord | mmheroes-core-rs/src/ui/high_scores.rs:65-72 | a record is 35 bytes: the length, the name padded to 32 bytes, the score in little-endian |
| HighScores.EncodeAll | mmheroes-core-rs/src/ui/high_scores.rs:61-75 | the buffer is 35 bytes per score |
| HighScores.Decoded | mmheroes-core-rs/src/ui/high_scores.rs:38-59 | decoding succeeds exactly when the buffer holds at least 175 bytes, and then gives five scores |
| HighScores.DecodeEncodeRecord | mmheroes-core-rs/src/ui/high_scores.rs:46-72 | decoding an encoded record gives the decoded name bytes and the same score |
| HighScores.DecodeEncode | mmheroes-core-rs/src/ui/high_scores.rs:38-75 | decode after encode succeeds, gives every score back, and gives the names back when the name codec round-trips |
| HighScores.Encode | mmheroes-core-rs/src/ui/high_scores.rs:61-75 | the loop fills a fresh 175-byte array with exactly the reference encoding |
| HighScores.WriteRecord | mmheroes-core-rs/src/ui/high_scores.rs:65-72 | one loop step writes one record at its offset and leaves every other byte alone |
| HighScores.Decode | mmheroes-core-rs/src/ui/high_scores.rs:38-59 | the slice-advancing loop computes exactly the reference decoding, including the short-buffer failure |
| Terkom.FirstAbove | mmheroes-core-rs/src/logic/scene_router/terkom.rs:118-121 | `position` finds the first threshold above the hour, or reports that none is |
| Terkom.Hiccup | mmheroes-core-rs/src/logic/scene_router/terkom.rs:117-122 | the hiccup is always in 1..=5 |
| Terkom.HiccupByHour | mmheroes-core-rs/src/logic/scene_router/terkom.rs:117-122 | 5 before 10, 4 before 14, 3 before 16, 2 before 18, 1 from then on |
| Terkom.HiccupNeverIncreases | mmheroes-core-rs/src/logic/scene_router/terkom.rs:115-122 | a later hour never gives a larger hiccup |
| Terkom.EarnedMoney | mmheroes-core-rs/src/logic/scene_router/terkom.rs:105-113 | the income is at least 1 and the loop leaves it at most 4 |
| UiTypes.ColorFromCode | mmheroes-core-rs/src/ui/mod.rs:59-84 | succeeds exactly for codes 0..15 other than 2, and the colour's code is the input |
| UiTypes.ColorCodeRoundTrip | mmheroes-core-rs/src/ui/mod.rs:39-84 | every colour converts back from its own code |
| UiTypes.DefaultColor | mmheroes-core-rs/src/ui/mod.rs:86-90 | the default colour is White (code 7) |
| GameUi.ChoiceUp | mmheroes-core-rs/src/ui/mod.rs:153-155 | `(n + c - 1) % n` stays below n and, for a valid choice, moves up one with wrap from the top to the bottom |
| GameUi.ChoiceDown | mmheroes-core-rs/src/ui/mod.rs:168-170 | `(n + c + 1) % n` stays below n and moves down one with wrap from the bottom to the top |
| GameUi.ChoiceUpDown | mmheroes-core-rs/src/ui/mod.rs:153-181 | up then down, and down then up, return to the same choice |
| GameUi.DownPressesWalk | mmheroes-core-rs/src/ui/mod.rs:168-181 | k down presses from c move to c + k while no wrap happens |
| GameUi.FullRound | mmheroes-core-rs/src/ui/mod.rs:168-181 | n down presses return to where they started |
| GameUi.GameUI.constructor | mmheroes-core-rs/src/ui/mod.rs:130-134 | a new UI has no waiting state |
| GameUi.GameUI.ContinueGame | mmheroes-core-rs/src/ui/mod.rs:137-339 | in a dialog, Up/Down move the choice and return true without acting, Other changes nothing, Enter performs the chosen action; "press any key" performs the any-key action; after an action the terminal screen clears the waiting state and returns false, otherwise the next waiting state is stored and true returned |
| StringLines.SplitLines | mmheroes-ios/mmheroes-ios/StringExtensions.swift:5-24 | at least one segment, always |
| StringLines.Lines | mmheroes-ios/mmheroes-ios/StringExtensions.swift:5-24 | the scanning loop computes exactly the reference splitting |
| StringLines.JoinSplitLines | mmheroes-ios/mmheroes-ios/StringExtensions.swift:5-24 | joining the segments, with a newline after each flagged one, gives back the string |
| StringLines.SplitLinesWellFormed | mmheroes-ios/mmheroes-ios/StringExtensions.swift:10-22 | no segment contains a newline, every segment but the last is flagged, and the last is not |
| StringLines.SplitLinesCount | mmheroes-ios/mmheroes-ios/StringExtensions.swift:10-22 | there is one segment more than there are newlines |
| StringLines.SplitLinesSingleEmpty | mmheroes-ios/mmheroes-ios/StringExtensions.swift:11-13 | the only string that splits into a single empty segment is the empty string |
| StringLines.SplitLinesJoin | mmheroes-ios/mmheroes-ios/StringExtensions.swift:5-24 | splitting a join of well-formed segments gives them back, so the splitter is a bijection onto well-formed segment lists |
| Compositor.InitialValid | mmheroes-ios/mmheroes-ios/GameRunner.swift:18-28 | a fresh screen (24 empty rows, cursor and priority 0) meets the screen invariant |
| Compositor.Clear | mmheroes-ios/mmheroes-ios/GameRunner.swift:104-111 | every row empty, cursor at (0, 0), priority 0, colours kept; the invariant is preserved |
| Compositor.CanWriteClosedForm | mmheroes-ios/mmheroes-ios/GameRunner.swift:151-170 | the segments can be written exactly when every non-empty one lands on an existing row |
| Compositor.WriteSegmentsClosedForm | mmheroes-ios/mmheroes-ios/GameRunner.swift:152-170 | writing the segments advances the line by one per newline, puts the column after the last piece, and appends each non-empty piece to its row as one fragment at the current priority |
| Compositor.Write | mmheroes-ios/mmheroes-ios/GameRunner.swift:151-172 | priority rises by exactly one, however many pieces; the cursor ends after the last piece; each row gains exactly the fragments that landed on it; nothing else changes |
| Compositor.WritePreservesValid | mmheroes-ios/mmheroes-ios/GameRunner.swift:151-172 | writing keeps every fragment's priority below the counter and unique in its row |
| Compositor.MoveTo | mmheroes-ios/mmheroes-ios/GameRunner.swift:174-177 | only the cursor changes |
| Compositor.Recolor | mmheroes-ios/mmheroes-ios/GameRunner.swift:179-182 | only the current colours change |
| Compositor.SortSorted | mmheroes-ios/mmheroes-ios/GameRunner.swift:121-126 | the sort orders a row by `(startColumn, priority)` |
| Compositor.SortMultiset | mmheroes-ios/mmheroes-ios/GameRunner.swift:121-126 | the sort is a permutation of the row |
| Compositor.SortByKeyIsTheSort | mmheroes-ios/mmheroes-ios/GameRunner.swift:121-126 | with unique priorities, any sorted permutation is this one, so an unstable sort gives the same order |
| Compositor.Paint | mmheroes-ios/mmheroes-ios/GameRunner.swift:128-135 | painting replaces exactly the fragment's columns with its glyphs |
| Compositor.RenderRow | mmheroes-ios/mmheroes-ios/GameRunner.swift:114-136 | a rendered row is 80 cells |
| Compositor.RenderRowCell | mmheroes-ios/mmheroes-ios/GameRunner.swift:121-136 | a cell no fragment covers is blank; a covered cell shows the covering fragment with the greatest `(startColumn, priority)`, so at equal start the later write wins |
| Compositor.Render | mmheroes-ios/mmheroes-ios/GameRunner.swift:113-148 | a frame of 24 rows of 80 cells whose caret is the cursor, drawn white |
| Compositor.SortLines | mmheroes-ios/mmheroes-ios/GameRunner.swift:120-126 | every row becomes sorted and stays a permutation of itself; nothing else changes |
| Compositor.FlushTwice | mmheroes-ios/mmheroes-ios/GameRunner.swift:113-148 | sorting is idempotent, a flush renders the same frame as the unsorted screen, and so two flushes in a row draw the same frame with the caret at the cursor |
| Session.ExecPreservesValid | mmheroes-ios/mmheroes-ios/GameRunner.swift:80-95 | carrying out one request keeps the screen invariant |
| Session.ApplyAllPreservesValid | mmheroes-ios/mmheroes-ios/GameRunner.swift:79-99 | so does carrying out a whole stream |
| Session.DrainStopsAtFirstSleep | mmheroes-ios/mmheroes-ios/GameRunner.swift:79-99 | the drain suspends exactly when the stream holds a sleep, at the first one, leaving what follows it |
| Session.DrainThenResume | mmheroes-ios/mmheroes-ios/GameRunner.swift:79-99 | suspending at a sleep and resuming later gives the same screen and the same frames, in order, as running the stream at once |
| Session.GameRunner.constructor | mmheroes-ios/mmheroes-ios/GameRunner.swift:18-53 | a fresh runner: the initial screen, waiting for input, nothing drawn |
| Session.GameRunner.ContinueGame | mmheroes-ios/mmheroes-ios/GameRunner.swift:63-102 | while ignoring: `unexpectedInput` and no change; a finished game: `gameEnded`, input stays ignored; otherwise it drains the requests, and returns `expectingMoreInput` with input waiting again once they are all done, or stays ignoring with the rest pending at a sleep |
| Session.GameRunner.Resume | mmheroes-ios/mmheroes-ios/GameRunner.swift:92-98 | the continuation after a sleep drains the pending requests the same way |
| Session.GameRunner.Go | mmheroes-ios/mmheroes-ios/GameRunner.swift:79-99 | the loop's screen and frames are the reference drain's |
| Session.GameRunner.Perform | mmheroes-ios/mmheroes-ios/GameRunner.swift:81-91 | one request changes the screen and the drawn frames as the reference step says |
| Session.GameRunner.ClearScreen | mmheroes-ios/mmheroes-ios/GameRunner.swift:104-111 | the loop over rows computes `Clear` |
| Session.GameRunner.WriteString | mmheroes-ios/mmheroes-ios/GameRunner.swift:151-172 | the loop over pieces computes `Write` |
| Session.GameRunner.WriteSegment | mmheroes-ios/mmheroes-ios/GameRunner.swift:153-169 | one piece: a fragment if it is not empty, then a line feed if it is flagged |
| Session.GameRunner.MoveCursor | mmheroes-ios/mmheroes-ios/GameRunner.swift:174-177 | computes `MoveTo` |
| Session.GameRunner.SetColor | mmheroes-ios/mmheroes-ios/GameRunner.swift:179-182 | computes `Recolor` |
| Session.GameRunner.PaintRow | mmheroes-ios/mmheroes-ios/GameRunner.swift:128-136 | painting a row's fragments in order onto a blank row |
| Session.GameRunner.Flush | mmheroes-ios/mmheroes-ios/GameRunner.swift:113-149 | sorts every row in place and hands the view exactly the rendered frame |
| Recording.Demangle | mmheroes-core-rs/src/ui/recording.rs:76-88 | a symbol decodes exactly to the key that is written as it |
| Recording.DecimalRoundTrip | mmheroes-core-rs/src/ui/recording.rs:39-43 | a written count reads back as the same number |
| Recording.InputRecorder.constructor | mmheroes-core-rs/src/ui/recording.rs:10-15 | a new recorder has nothing recorded and nothing pending |
| Recording.InputRecorder.RecordInput | mmheroes-core-rs/src/ui/recording.rs:17-28 | the same key extends the pending run without writing; a different key flushes the old run and starts a new one of length 1 |
| Recording.InputRecorder.Flush | mmheroes-core-rs/src/ui/recording.rs:30-47 | writes the pending run (count only above 1) and clears it; the whole output then parses back to every key recorded, in order |
| Recording.InputRecorder.RecordedParses | mmheroes-core-rs/src/ui/recording.rs:17-47 | with no pending run, what was written parses back to the recorded keys |
| Recording.ExtendRun | mmheroes-core-rs/src/ui/recording.rs:18-22 | lengthening the last run records one more of its key |
| Recording.StartRun | mmheroes-core-rs/src/ui/recording.rs:24-26 | a new run of one records that key |
| Recording.ParseRun | mmheroes-core-rs/src/ui/recording.rs:30-47 | one written run parses back to its keys, and parsing continues after it |
| Recording.ParseEncodeRuns | mmheroes-core-rs/src/ui/recording.rs:30-140 | parse after encode delivers exactly the recorded keys with no error |
| Recording.ParseAll | mmheroes-core-rs/src/ui/recording.rs:90-140 | the character loop delivers exactly what the reference reading does, with the same error and index |
| Recording.DeliverRepeated | mmheroes-core-rs/src/ui/recording.rs:124-128 | the inner loop hands the key over n times, stopping at the first refusal |
| Recording.DeliverAll | mmheroes-core-rs/src/ui/recording.rs:124-128 | with a consumer that accepts everything, n copies of the key arrive |
| Recording.TrailingDigitsExample | mmheroes-core-rs/src/ui/recording.rs:232-252 | a log ending in digits delivers the keys before them, then fails with `UnexpectedEOF` |
| Recording.UnknownCharacterExample | mmheroes-core-rs/src/ui/recording.rs:254-271 | an unknown character fails with its index, after the keys before it |
| RendererCalls.ReplayStep | mmheroes-core-rs/src/ui/renderer/recorded_input.rs:27-79 | with keys left, `getch` takes the next one and every other call succeeds and consumes nothing; with none left, every call fails |
| RendererCalls.ReplayInOrder | mmheroes-core-rs/src/ui/renderer/recorded_input.rs:68-75 | a run of calls hands out the recorded keys in order, as many as there were `getch` calls or keys, and leaves the rest |
| RendererCalls.ReplayExhausted | mmheroes-core-rs/src/ui/renderer/recorded_input.rs:27-35 | on an empty recording every call fails |
| RecordedInput.RecordedInputRenderer.constructor | mmheroes-core-rs/src/ui/renderer/recorded_input.rs:18-24 | the renderer holds the whole input, its first element taken ahead |
| RecordedInput.RecordedInputRenderer.ClearScreen | mmheroes-core-rs/src/ui/renderer/recorded_input.rs:40-42 | fails with `ExpectedMoreInput` exactly when the input is used up |
| RecordedInput.RecordedInputRenderer.Flush | mmheroes-core-rs/src/ui/renderer/recorded_input.rs:44-46 | as above |
| RecordedInput.RecordedInputRenderer.WriteStr | mmheroes-core-rs/src/ui/renderer/recorded_input.rs:48-50 | as above |
| RecordedInput.RecordedInputRenderer.MoveCursorTo | mmheroes-core-rs/src/ui/renderer/recorded_input.rs:52-54 | as above |
| RecordedInput.RecordedInputRenderer.GetCursorPosition | mmheroes-core-rs/src/ui/renderer/recorded_input.rs:56-58 | as above, and (0, 0) otherwise |
| RecordedInput.RecordedInputRenderer.SetColor | mmheroes-core-rs/src/ui/renderer/recorded_input.rs:60-66 | as above |
| RecordedInput.RecordedInputRenderer.SleepMs | mmheroes-core-rs/src/ui/renderer/recorded_input.rs:77-79 | as above |
| RecordedInput.RecordedInputRenderer.Getch | mmheroes-core-rs/src/ui/renderer/recorded_input.rs:68-75 | returns the next recorded key and advances, or fails with `ExpectedMoreInput` with nothing left |
| RecordedInput.CallAll | mmheroes-core-rs/src/ui/renderer/recorded_input.rs:88-133 | the non-`getch` calls all succeed while input remains and all fail once it is gone |
| RecordedInput.TestGetch | mmheroes-core-rs/src/ui/renderer/recorded_input.rs:88-115 | the seven recorded keys come back in order, with every other call succeeding, and afterwards every call fails |
| RecordedInput.TestEmptyInput | mmheroes-core-rs/src/ui/renderer/recorded_input.rs:117-133 | on empty input every call fails with `ExpectedMoreInput` |
| IosReplay.RecordedInputRenderer.constructor | mmheroes-ios/mmheroes-ios/Renderers/RecordedInputRenderer.swift:15-18 | the renderer holds the whole input, its first element taken ahead |
| IosReplay.RecordedInputRenderer.IteratorNext | mmheroes-ios/mmheroes-ios/Renderers/RecordedInputRenderer.swift:16-17 | the iterator yields its elements in order, then nil |
| IosReplay.RecordedInputRenderer.ClearScreen | mmheroes-ios/mmheroes-ios/Renderers/RecordedInputRenderer.swift:24-26 | throws `noMoreInput` exactly when `finished` |
| IosReplay.RecordedInputRenderer.Flush | mmheroes-ios/mmheroes-ios/Renderers/RecordedInputRenderer.swift:28-30 | as above |
| IosReplay.RecordedInputRenderer.WriteString | mmheroes-ios/mmheroes-ios/Renderers/RecordedInputRenderer.swift:32-34 | as above |
| IosReplay.RecordedInputRenderer.MoveCursor | mmheroes-ios/mmheroes-ios/Renderers/RecordedInputRenderer.swift:36-38 | as above |
| IosReplay.RecordedInputRenderer.GetCursorPosition | mmheroes-ios/mmheroes-ios/Renderers/RecordedInputRenderer.swift:40-43 | as above, and (0, 0) otherwise |
| IosReplay.RecordedInputRenderer.SetColor | mmheroes-ios/mmheroes-ios/Renderers/RecordedInputRenderer.swift:45-47 | as above |
| IosReplay.RecordedInputRenderer.Getch | mmheroes-ios/mmheroes-ios/Renderers/RecordedInputRenderer.swift:49-56 | returns the next recorded key and advances, or throws `noMoreInput` when none is left |
| IosReplay.RecordedInputRenderer.Sleep | mmheroes-ios/mmheroes-ios/Renderers/RecordedInputRenderer.swift:58-60 | as for the other non-`getch` calls |
| TryRendering.TryCall | mmheroes-ios/mmheroes-ios/Renderers/TryRenderer.swift:16-81 | a call the primary answers never reaches the fallback; when the primary throws, the fallback's answer, error included, is the result |
| TryRendering.ExhaustedReplayDefersToFallback | mmheroes-ios/mmheroes-ios/Renderers/TryRenderer.swift:16-81 | over a used-up replay, the composition behaves exactly as the fallback alone |
| TryRendering.LiveReplayServesAll | mmheroes-ios/mmheroes-ios/Renderers/TryRenderer.swift:16-81 | while the replay has more keys than `getch` calls, every call is served by the replay and the fallback is never touched |
| CursorRenderer.AdvanceAppend | mmheroes-core-rs/src/ui/renderer.rs:62-81 | tracking the cursor through `a + b` is tracking it through `a`, then `b` |
| CursorRenderer.AdvanceBounds | mmheroes-core-rs/src/ui/renderer.rs:62-81 | the line rises at least once per newline and the column stays within the terminal width |
| CursorRenderer.AdvanceWithinLine | mmheroes-core-rs/src/ui/renderer.rs:62-81 | text with no newline that fits the line moves the column by its length |
| CursorRenderer.AdvanceEndsWithNewline | mmheroes-core-rs/src/ui/renderer.rs:62-81 | after a trailing newline the column is 0 |
| CursorRenderer.Renderer.constructor | mmheroes-core-rs/src/ui/renderer.rs:37-44 | a new renderer is at (0, 0) with nothing sent and no waiting state |
| CursorRenderer.Renderer.ClearScreen | mmheroes-core-rs/src/ui/renderer.rs:50-55 | resets the cursor and sends `ClearScreen` |
| CursorRenderer.Renderer.Flush | mmheroes-core-rs/src/ui/renderer.rs:57-60 | sends `Flush` |
| CursorRenderer.Renderer.WriteStr | mmheroes-core-rs/src/ui/renderer.rs:62-81 | the character loop moves the cursor as the reference tracking does; a non-empty string is sent as one request and an empty one as none |
| CursorRenderer.Renderer.MoveCursorTo | mmheroes-core-rs/src/ui/renderer.rs:83-88 | moves the cursor and sends the request |
| CursorRenderer.Renderer.GetCursorPosition | mmheroes-core-rs/src/ui/renderer.rs:90-92 | the tracked position |
| CursorRenderer.Renderer.SetColor | mmheroes-core-rs/src/ui/renderer.rs:94-100 | sends the request and keeps the cursor |
| CursorRenderer.Renderer.SleepMs | mmheroes-core-rs/src/ui/renderer.rs:102-105 | sends the request and keeps the cursor |
| CursorRenderer.MoveThenAsk | mmheroes-core-rs/src/ui/renderer.rs:83-92 | asking right after a move returns the position moved to |
| CursorRenderer.TestWriteCursor | mmheroes-core-rs/src/ui/renderer.rs:147-152 | the test's single formatted write, `"Hello, world!\n{} {}"` with 123 and `"string"`, that is the text `"Hello, world!\n123 string"`, leaves the cursor at line 1, column 10 (the proof splits the text into pieces) |
| CursorRenderer.TestWrite | mmheroes-core-rs/src/ui/renderer.rs:147-152 | the test's write sends one request and leaves the cursor at (1, 10) |
| Tapes.Tape.InRange | mmheroes-core-rs/src/logic/timetable.rs:168-172 | a draw in `lo..=hi` consumes one value, or fails when the tape is used up |
| Tapes.Tape.Below | mmheroes-core-rs/src/logic/scene_router/terkom.rs:106-107 | a draw in `0..n`, the next tape value modulo `n`, consumes one value, or fails when the tape is used up |

## Left out

- Threads and dispatch queues: `worker.async`, and the asynchronous `completion` callback of `continueGame`. The status is returned instead. `sleep` is a suspension point: `Go` returns and `Resume` carries on; the delay itself is not modelled.
- Fonts, `NSAttributedString` attributes, `UIColor` values and the view callback `requestDrawingRenderedContent`. A frame is a grid of cells that carry a character and two colours, and the callback is the `drawn` log.
- `ClassmateInfo::update`: the helpers it calls (`is_between_9_and_19`, `is_exam_here_on_day`) are not part of this model.
- `interact_with_classmate` and the rest of the game rules: async scene logic outside the core.
- The cp866 codec (`string_from_cp866`, `string_to_cp866_lossy`) and `TinyString`. Names are passed through the parameter functions `encodeName`/`decodeName`.
- The `Rng` range helpers `random`, `random_number_in_range` and `random_element` are not part of this model. `Tapes.Tape` stands in for them. A draw reduces the next tape value into the range, and `random(n)` with `n <= 0` is taken to give 0. A run that reaches the end of the tape reports failure. The source has no such failure.
- `display_dialog`, `perform_action`, the screens and `available_actions`: they are inputs of `GameUI.ContinueGame` (the actions, the any-key action, whether the next screen is terminal, and its waiting state).
- Byte and grapheme offsets in `parse_all` are modelled as character indices.
- `TERMINAL_WIDTH` is not part of this model; it is taken as 80, the iOS column count.
- `usize` is taken as 64 bits for run counts.
- Debug-build panics become preconditions: `u8` overflow of the cursor line in `write_str`, `u8` overflow in the dialog choice sums, the `TinyVec` capacity, and the assertions of `SubjectStatus`.
- Drop of `TinyVec` elements, and its `Debug`, `PartialEq` and `Ord` implementations: they have no state to track.
- `SubjectStatus`'s `Debug` output is not modelled as text; `TestDebug` checks the field values the test prints.
- `passed_exam_day` and the `Timetable`/`Day` accessors are plain field reads.
- Timetables.RandomTimetable: states the timetable's constraints, not which timetable a given seed produces.
- Timetables.DrawExam: states that the exam fits its subject, not which draw produced which value.
- Terkom.EarnedMoney: states the bounds 1..=4, not the distribution of the income.
- Recording.InputRecorder.RecordInput: the output sink is taken as infallible. In the source, a sink whose `write_str` fails (the iOS callback returning false) makes `record_input` return the error from `flush()?` without starting the new run.
- Recording.InputRecorder.Flush: the output sink is taken as infallible. In the source, `flush` clears `last_input` before writing, so a failing write loses the pending run and returns `Err`; the model does not capture that lost run or the error.
- Npcs.MaybeOnExam: its termination rests on the tape being finite; in the source, it rests on the generator eventually drawing above 5.

## Findings

| source | as written | input that shows it | evidently intended | confidence | as-written member | corrected member |
|---|---|---|---|---|---|---|
| mmheroes-core-rs/src/util/bitset.rs:28-38 | `contains` and `add` guard with `i as u32 <= u16::BITS`, which admits 16 | element 16: `1u16 << 16` panics in a debug build; in a release build the shift amount is masked to 0, so adding 16 sets bit 0 | the guard `i < 16`, which admits only the 16 representable elements | not executed | BitSets.SixteenAliasesZero | BitSets.BitSet.Add |
