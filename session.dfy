/**
 * `GameRunner` of the iOS shell: the compositor object and the session guard
 * that feeds it. The game core is not part of this model: the answer it gives to
 * an input (whether the game goes on, and the requests it produced) is passed
 * in, and the view that draws frames is the `drawn` list.
 */
module Session {
  import opened Wrappers
  import opened UiTypes
  import opened StringLines
  import opened Compositor

  datatype InputState = WaitingForInput | IgnoringInput

  /** What `continueGame` reports to its completion handler. */
  datatype GameStatus = UnexpectedInput | ExpectingMoreInput | GameEnded

  // ------------------------------------------------ requests, as values

  /** A request can be carried out without a trap. */
  predicate CanExec(sc: Screen, r: Request)
  {
    match r
    case WriteStr(s) => Writable(sc, s)
    case Flush => AllFit(sc)
    case _ => true
  }

  /** One request: the new screen and the frames it draws (only `Flush` draws one). */
  function Exec(sc: Screen, r: Request): (Screen, seq<Frame>)
    requires CanExec(sc, r)
  {
    match r
    case ClearScreen => (Clear(sc), [])
    case Flush => (SortLines(sc), [Render(sc)])
    case WriteStr(s) => (Write(sc, s), [])
    case MoveCursor(line, column) => (MoveTo(sc, line, column), [])
    case SetColor(fg, bg) => (Recolor(sc, fg, bg), [])
    case Sleep(_) => (sc, [])
  }

  lemma ExecPreservesValid(sc: Screen, r: Request)
    requires ScreenValid(sc) && CanExec(sc, r)
    ensures ScreenValid(Exec(sc, r).0)
  {
    match r
    case Flush => SortLinesPreservesValid(sc);
    case WriteStr(s) => WritePreservesValid(sc, s);
    case _ =>
  }

  /** Every request of the stream can be carried out, each on the screen the previous ones left. */
  predicate CanRun(sc: Screen, reqs: seq<Request>)
    decreases |reqs|
  {
    reqs == [] || (CanExec(sc, reqs[0]) && CanRun(Exec(sc, reqs[0]).0, reqs[1..]))
  }

  /** Reference outcome: every request in order, `sleep` doing nothing. */
  function ApplyAll(sc: Screen, reqs: seq<Request>): (Screen, seq<Frame>)
    requires CanRun(sc, reqs)
    decreases |reqs|
  {
    if reqs == [] then (sc, [])
    else
      var (sc1, fr) := Exec(sc, reqs[0]);
      var (sc2, rest) := ApplyAll(sc1, reqs[1..]);
      (sc2, fr + rest)
  }

  datatype DrainResult = DrainResult(screen: Screen, frames: seq<Frame>, rest: Option<seq<Request>>)

  predicate NoSleep(reqs: seq<Request>)
  {
    forall i :: 0 <= i < |reqs| ==> !reqs[i].Sleep?
  }

  /**
   * The `go` loop: carry out requests in order until the stream ends
   * (`rest == None`) or a `sleep` is met, which leaves the requests after it
   * for the continuation that runs once the sleep is over.
   */
  function Drain(sc: Screen, reqs: seq<Request>): DrainResult
    requires CanRun(sc, reqs)
    decreases |reqs|
  {
    if reqs == [] then DrainResult(sc, [], None)
    else if reqs[0].Sleep? then DrainResult(sc, [], Some(reqs[1..]))
    else
      var (sc1, fr) := Exec(sc, reqs[0]);
      Prefixed(fr, Drain(sc1, reqs[1..]))
  }

  /** The drain stops exactly at the first `sleep`, and keeps what follows it. */
  lemma {:induction false} DrainStopsAtFirstSleep(sc: Screen, reqs: seq<Request>)
    requires CanRun(sc, reqs)
    ensures Drain(sc, reqs).rest.None? <==> NoSleep(reqs)
    ensures Drain(sc, reqs).rest.Some? ==>
      exists i :: 0 <= i < |reqs| && reqs[i].Sleep? && NoSleep(reqs[..i])
                  && Drain(sc, reqs).rest.value == reqs[i + 1..]
    decreases |reqs|
  {
    if reqs == [] {
    } else if reqs[0].Sleep? {
      assert NoSleep(reqs[..0]);
    } else {
      var sc1 := Exec(sc, reqs[0]).0;
      DrainStopsAtFirstSleep(sc1, reqs[1..]);
      var d := Drain(sc1, reqs[1..]);
      assert NoSleep(reqs) <==> NoSleep(reqs[1..]) by {
        forall i | 1 <= i < |reqs| ensures reqs[i] == reqs[1..][i - 1] { }
      }
      if d.rest.Some? {
        var i :| 0 <= i < |reqs| - 1 && reqs[1..][i].Sleep? && NoSleep(reqs[1..][..i])
          && d.rest.value == reqs[1..][i + 1..];
        assert reqs[..i + 1] == [reqs[0]] + reqs[1..][..i];
        assert reqs[i + 2..] == reqs[1..][i + 1..];
        assert reqs[i + 1].Sleep?;
      }
    }
  }

  /**
   * Suspending at a `sleep` and carrying on afterwards gives what running the
   * whole stream at once gives: the same screen and the same frames in the
   * same order.
   */
  lemma {:induction false} DrainThenResume(sc: Screen, reqs: seq<Request>)
    requires CanRun(sc, reqs)
    ensures var d := Drain(sc, reqs);
      && (d.rest.None? ==> ApplyAll(sc, reqs) == (d.screen, d.frames))
      && (d.rest.Some? ==>
            && CanRun(d.screen, d.rest.value)
            && ApplyAll(sc, reqs) == (ApplyAll(d.screen, d.rest.value).0,
                                      d.frames + ApplyAll(d.screen, d.rest.value).1))
    decreases |reqs|
  {
    if reqs != [] && !reqs[0].Sleep? {
      var (sc1, fr) := Exec(sc, reqs[0]);
      DrainThenResume(sc1, reqs[1..]);
      var d := Drain(sc1, reqs[1..]);
      if d.rest.Some? {
        var (s2, f2) := ApplyAll(d.screen, d.rest.value);
        assert fr + (d.frames + f2) == (fr + d.frames) + f2;
      }
    }
  }

  lemma {:induction false} ApplyAllPreservesValid(sc: Screen, reqs: seq<Request>)
    requires ScreenValid(sc) && CanRun(sc, reqs)
    ensures ScreenValid(ApplyAll(sc, reqs).0)
    decreases |reqs|
  {
    if reqs != [] {
      ExecPreservesValid(sc, reqs[0]);
      ApplyAllPreservesValid(Exec(sc, reqs[0]).0, reqs[1..]);
    }
  }

  function Prefixed(fr: seq<Frame>, d: DrainResult): DrainResult
  {
    d.(frames := fr + d.frames)
  }

  lemma FramesAssoc(a: seq<Frame>, b: seq<Frame>, c: seq<Frame>)
    ensures (a + b) + c == a + (b + c)
  {
  }

  lemma PrefixedTwice(emitted: seq<Frame>, fr: seq<Frame>, d: DrainResult)
    ensures Prefixed(emitted, Prefixed(fr, d)) == Prefixed(emitted + fr, d)
  {
    assert emitted + (fr + d.frames) == (emitted + fr) + d.frames;
  }

  lemma DrainStep(sc: Screen, reqs: seq<Request>)
    requires CanRun(sc, reqs) && reqs != []
    ensures CanExec(sc, reqs[0]) && CanRun(Exec(sc, reqs[0]).0, reqs[1..])
    ensures reqs[0].Sleep? ==> Drain(sc, reqs) == DrainResult(sc, [], Some(reqs[1..]))
    ensures !reqs[0].Sleep? ==>
      Drain(sc, reqs) == Prefixed(Exec(sc, reqs[0]).1, Drain(Exec(sc, reqs[0]).0, reqs[1..]))
  {
  }

  lemma WriteStep(sc: Screen, segs: seq<Segment>)
    requires CanWrite(sc, segs) && segs != []
    ensures segs[0].text != "" ==> 0 <= sc.line < |sc.lines|
    ensures CanWrite(Step(sc, segs[0]), segs[1..])
    ensures WriteSegments(sc, segs) == WriteSegments(Step(sc, segs[0]), segs[1..])
  {
  }

  // ------------------------------------------------------ the runner object

  class GameRunner {
    var lines: seq<seq<Fragment>>
    var currentLine: int
    var currentColumn: int
    /** Strings written later get a greater priority. */
    var currentPriority: int
    var foregroundColor: Color
    var backgroundColor: Color
    var inputState: InputState
    /** The requests still to be carried out once a sleep is over. */
    var requests: seq<Request>
    /** A `go` continuation is waiting for a sleep to end. */
    var resumeScheduled: bool
    /** Every frame handed to the view, oldest first. */
    var drawn: seq<Frame>

    function State(): Screen
      reads this
    {
      Screen(lines, currentLine, currentColumn, currentPriority, foregroundColor, backgroundColor)
    }

    predicate Valid()
      reads this
    {
      && ScreenValid(State())
      && (resumeScheduled ==> inputState == IgnoringInput && CanRun(State(), requests))
      && (!resumeScheduled ==> requests == [])
    }

    constructor ()
      ensures Valid()
      ensures State() == Initial()
      ensures inputState == WaitingForInput && !resumeScheduled && drawn == []
    {
      lines := EmptyLines(NumberOfLines);
      currentLine := 0;
      currentColumn := 0;
      currentPriority := 0;
      foregroundColor := White;
      backgroundColor := Black;
      inputState := WaitingForInput;
      requests := [];
      resumeScheduled := false;
      drawn := [];
    }

    /**
     * The session guard. Input that arrives while a previous one is still
     * being drawn is refused and changes nothing; otherwise input is ignored
     * until the requests the game produced for it have all been carried out.
     * `continues` and `produced` are the game core's answer to the input.
     */
    method ContinueGame(continues: bool, produced: seq<Request>) returns (status: Option<GameStatus>)
      requires Valid()
      requires inputState == WaitingForInput && continues ==> CanRun(State(), produced)
      modifies this
      ensures Valid()
      ensures old(inputState) == IgnoringInput ==>
        && status == Some(UnexpectedInput)
        && State() == old(State()) && drawn == old(drawn)
        && inputState == IgnoringInput && requests == old(requests)
        && resumeScheduled == old(resumeScheduled)
      ensures old(inputState) == WaitingForInput && !continues ==>
        && status == Some(GameEnded)
        && State() == old(State()) && drawn == old(drawn)
        && inputState == IgnoringInput && !resumeScheduled
      ensures old(inputState) == WaitingForInput && continues ==>
        var d := Drain(old(State()), produced);
        && State() == d.screen && drawn == old(drawn) + d.frames
        && (d.rest.None? ==> status == Some(ExpectingMoreInput) && inputState == WaitingForInput)
        && (d.rest.Some? ==> status == None && inputState == IgnoringInput
                             && resumeScheduled && requests == d.rest.value)
    {
      if inputState != WaitingForInput {
        return Some(UnexpectedInput);
      }
      inputState := IgnoringInput;
      if !continues {
        return Some(GameEnded);
      }
      requests := produced;
      status := Go();
    }

    /** The continuation a `sleep` scheduled: carry on draining where it stopped. */
    method Resume() returns (status: Option<GameStatus>)
      requires Valid() && resumeScheduled
      modifies this
      ensures Valid()
      ensures var d := Drain(old(State()), old(requests));
        && State() == d.screen && drawn == old(drawn) + d.frames
        && (d.rest.None? ==> status == Some(ExpectingMoreInput) && inputState == WaitingForInput)
        && (d.rest.Some? ==> status == None && inputState == IgnoringInput
                             && resumeScheduled && requests == d.rest.value)
    {
      resumeScheduled := false;
      status := Go();
    }

    /** `go`: the `while let` loop over the requests. */
    method Go() returns (status: Option<GameStatus>)
      requires ScreenValid(State()) && CanRun(State(), requests)
      requires inputState == IgnoringInput && !resumeScheduled
      modifies this
      ensures Valid()
      ensures var d := Drain(old(State()), old(requests));
        && State() == d.screen && drawn == old(drawn) + d.frames
        && (d.rest.None? ==> status == Some(ExpectingMoreInput) && inputState == WaitingForInput)
        && (d.rest.Some? ==> status == None && inputState == IgnoringInput
                             && resumeScheduled && requests == d.rest.value)
    {
      ghost var goal := Drain(State(), requests);
      ghost var emitted: seq<Frame> := [];
      assert emitted + goal.frames == goal.frames;
      while requests != []
        invariant ScreenValid(State()) && CanRun(State(), requests)
        invariant inputState == IgnoringInput && !resumeScheduled
        invariant drawn == old(drawn) + emitted
        invariant goal == Prefixed(emitted, Drain(State(), requests))
        decreases |requests|
      {
        var request := requests[0];
        ghost var before := State();
        DrainStep(before, requests);
        requests := requests[1..];
        if request.Sleep? {
          assert emitted + [] == emitted;
          resumeScheduled := true;
          return None;
        }
        ghost var frames := Exec(before, request).1;
        ghost var drawnBefore := drawn;
        Perform(request);
        assert drawn == drawnBefore + frames;
        PrefixedTwice(emitted, frames, Drain(State(), requests));
        FramesAssoc(old(drawn), emitted, frames);
        emitted := emitted + frames;
      }
      assert goal == DrainResult(State(), emitted, None);
      inputState := WaitingForInput;
      return Some(ExpectingMoreInput);
    }

    /** One pass of the `switch` in `go`, for every request but `sleep`. */
    method Perform(request: Request)
      requires !request.Sleep?
      requires ScreenValid(State()) && CanExec(State(), request)
      modifies this`lines, this`currentLine, this`currentColumn, this`currentPriority
      modifies this`foregroundColor, this`backgroundColor, this`drawn
      ensures ScreenValid(State())
      ensures State() == Exec(old(State()), request).0
      ensures drawn == old(drawn) + Exec(old(State()), request).1
    {
      match request {
        case ClearScreen =>
          ClearScreen();
        case Flush =>
          Flush();
        case WriteStr(s) =>
          WriteString(s);
        case MoveCursor(line, column) =>
          MoveCursor(line, column);
        case SetColor(fg, bg) =>
          SetColor(fg, bg);
      }
    }

    /** `clearScreen`: empties the rows one by one, then resets cursor and counter. */
    method ClearScreen()
      requires ScreenValid(State())
      modifies this`lines, this`currentLine, this`currentColumn, this`currentPriority
      ensures ScreenValid(State())
      ensures State() == Clear(old(State()))
    {
      var i := 0;
      while i < |lines|
        invariant 0 <= i <= |lines| == |old(lines)|
        invariant forall k :: 0 <= k < i ==> lines[k] == []
      {
        lines := lines[i := []];
        i := i + 1;
      }
      currentLine := 0;
      currentColumn := 0;
      currentPriority := 0;
      assert lines == EmptyLines(|old(lines)|);
    }

    /** `writeString`: one fragment per non-empty segment, then the counter goes up by one. */
    method WriteString(s: string)
      requires ScreenValid(State()) && Writable(State(), s)
      modifies this`lines, this`currentLine, this`currentColumn, this`currentPriority
      ensures ScreenValid(State())
      ensures State() == Write(old(State()), s)
    {
      ghost var start := State();
      var segments := Lines(s);
      SplitLinesWellFormed(s);
      CanWriteClosedForm(start, segments);
      var k := 0;
      while k < |segments|
        invariant 0 <= k <= |segments|
        invariant currentPriority == start.priority
        invariant CanWrite(State(), segments[k..])
        invariant WriteSegments(State(), segments[k..]) == WriteSegments(start, segments)
      {
        assert segments[k..][1..] == segments[k + 1..];
        WriteStep(State(), segments[k..]);
        WriteSegment(segments[k]);
        k := k + 1;
      }
      assert segments[k..] == [];
      currentPriority := currentPriority + 1;
      WritePreservesValid(start, s);
    }

    /** The body of the `writeString` loop: one segment, placed at the cursor. */
    method WriteSegment(segment: Segment)
      requires segment.text != "" ==> 0 <= currentLine < |lines|
      modifies this`lines, this`currentLine, this`currentColumn
      ensures State() == Step(old(State()), segment)
    {
      if segment.text != "" {
        var fragment := Fragment(currentColumn, currentPriority, segment.text,
                                 foregroundColor, backgroundColor);
        currentColumn := currentColumn + |segment.text|;
        lines := lines[currentLine := lines[currentLine] + [fragment]];
      }
      if segment.endsWithNewline {
        currentLine := currentLine + 1;
        currentColumn := 0;
      }
    }

    /** `moveCursor(toLine:column:)`: the fragments are untouched. */
    method MoveCursor(line: int, column: int)
      modifies this`currentLine, this`currentColumn
      ensures State() == MoveTo(old(State()), line, column)
    {
      currentLine := line;
      currentColumn := column;
    }

    /** `setColor(foreground:background:)`: only later writes are affected. */
    method SetColor(foreground: Color, background: Color)
      modifies this`foregroundColor, this`backgroundColor
      ensures State() == Recolor(old(State()), foreground, background)
    {
      foregroundColor := foreground;
      backgroundColor := background;
    }

    /** `flush`: sorts each row in place, paints it on blanks and hands the frame to the view. */
    /** The inner loop of `flush`: each fragment of a sorted row replaces the cells it covers. */
    method PaintRow(fragments: seq<Fragment>) returns (row: seq<Cell>)
      requires AllFitIn(fragments)
      ensures row == PaintAll(BlankRow(), fragments)
    {
      row := BlankRow();
      var j := 0;
      while j < |fragments|
        invariant 0 <= j <= |fragments|
        invariant row == PaintAll(BlankRow(), fragments[..j])
      {
        assert fragments[..j + 1][..j] == fragments[..j];
        assert fragments[j] in fragments;
        row := Paint(row, fragments[j]);
        j := j + 1;
      }
      assert fragments[..j] == fragments;
    }

    method Flush()
      requires ScreenValid(State()) && AllFit(State())
      modifies this`lines, this`drawn
      ensures ScreenValid(State())
      ensures State() == SortLines(old(State()))
      ensures drawn == old(drawn) + [Render(old(State()))]
    {
      var resultLines: seq<seq<Cell>> := seq(NumberOfLines, _ => BlankRow());
      var i := 0;
      while i < |lines|
        invariant 0 <= i <= |lines| == |old(lines)| == |resultLines|
        invariant drawn == old(drawn)
        invariant forall k :: 0 <= k < i ==> lines[k] == SortByKey(old(lines)[k])
        invariant forall k :: i <= k < |lines| ==> lines[k] == old(lines)[k]
        invariant forall k :: 0 <= k < i ==> resultLines[k] == RenderRow(old(lines)[k])
      {
        SortMembers(lines[i]);
        lines := lines[i := SortByKey(lines[i])];
        var row := PaintRow(lines[i]);
        resultLines := resultLines[i := row];
        i := i + 1;
      }
      assert resultLines == Render(old(State())).rows;
      assert Render(old(State())) == Frame(resultLines, Caret(currentLine, currentColumn, White));
      drawn := drawn + [Frame(resultLines, Caret(currentLine, currentColumn, White))];
      SortLinesPreservesValid(old(State()));
    }
  }
}
