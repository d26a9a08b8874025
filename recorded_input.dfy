/**
 * `RecordedInputRenderer` of the Rust core (`ui/renderer/recorded_input.rs`):
 * replays a recorded list of inputs to `getch`, does nothing else, and fails
 * every call with `ExpectedMoreInput` once the inputs are used up. The
 * iterator it is built from is a finite list here.
 */
module RecordedInput {
  import opened Wrappers
  import opened UiTypes
  import opened RendererCalls

  datatype RecordedInputRendererError = ExpectedMoreInput

  /** `error_if_finished!`: `Ok(Default::default())` while input remains. */
  function Unit(r: Result<(), RecordedInputRendererError>): Result<Reply, RecordedInputRendererError>
  {
    if r.Ok? then Ok(Done) else Err(r.error)
  }

  class RecordedInputRenderer {
    /** The iterator: the inputs after `next`. */
    var rest: seq<Input>
    /** The input the next `getch` returns, already pulled from the iterator. */
    var next: Option<Input>

    predicate Valid()
      reads this
    {
      next.None? ==> rest == []
    }

    /** The inputs still to be replayed. */
    function Remaining(): seq<Input>
      reads this
    {
      if next.Some? then [next.value] + rest else []
    }

    /** `RecordedInputRenderer::new`: pulls the first input at once. */
    constructor (input: seq<Input>)
      ensures Valid() && Remaining() == input
    {
      if input == [] {
        rest := [];
        next := None;
      } else {
        rest := input[1..];
        next := Some(input[0]);
      }
    }

    method ClearScreen() returns (r: Result<(), RecordedInputRendererError>)
      requires Valid()
      ensures r.Err? <==> next.None?
      ensures Unit(r) == ReplayStep(Remaining(), Call.ClearScreen, ExpectedMoreInput).result
    {
      if next.None? { return Err(ExpectedMoreInput); }
      return Ok(());
    }

    method Flush() returns (r: Result<(), RecordedInputRendererError>)
      requires Valid()
      ensures r.Err? <==> next.None?
      ensures Unit(r) == ReplayStep(Remaining(), Call.Flush, ExpectedMoreInput).result
    {
      if next.None? { return Err(ExpectedMoreInput); }
      return Ok(());
    }

    method WriteStr(s: string) returns (r: Result<(), RecordedInputRendererError>)
      requires Valid()
      ensures r.Err? <==> next.None?
      ensures Unit(r) == ReplayStep(Remaining(), Call.WriteString(s), ExpectedMoreInput).result
    {
      if next.None? { return Err(ExpectedMoreInput); }
      return Ok(());
    }

    method MoveCursorTo(line: int, column: int) returns (r: Result<(), RecordedInputRendererError>)
      requires Valid()
      ensures r.Err? <==> next.None?
      ensures Unit(r) == ReplayStep(Remaining(), Call.MoveCursor(line, column), ExpectedMoreInput).result
    {
      if next.None? { return Err(ExpectedMoreInput); }
      return Ok(());
    }

    /** The default position, (0, 0), while input remains. */
    method GetCursorPosition() returns (r: Result<(int, int), RecordedInputRendererError>)
      requires Valid()
      ensures r.Err? <==> next.None?
      ensures r.Ok? ==> r.value == (0, 0)
      ensures r.Ok? ==> ReplayStep(Remaining(), Call.GetCursorPosition, ExpectedMoreInput).result == Ok(Position(0, 0))
    {
      if next.None? { return Err(ExpectedMoreInput); }
      return Ok((0, 0));
    }

    method SetColor(foreground: Color, background: Color) returns (r: Result<(), RecordedInputRendererError>)
      requires Valid()
      ensures r.Err? <==> next.None?
      ensures Unit(r) == ReplayStep(Remaining(), Call.SetColor(foreground, background), ExpectedMoreInput).result
    {
      if next.None? { return Err(ExpectedMoreInput); }
      return Ok(());
    }

    method SleepMs(ms: Milliseconds) returns (r: Result<(), RecordedInputRendererError>)
      requires Valid()
      ensures r.Err? <==> next.None?
      ensures Unit(r) == ReplayStep(Remaining(), Call.Sleep(ms), ExpectedMoreInput).result
    {
      if next.None? { return Err(ExpectedMoreInput); }
      return Ok(());
    }

    /** The next recorded input, pulling the one after it from the iterator. */
    method Getch() returns (r: Result<Input, RecordedInputRendererError>)
      requires Valid()
      modifies this
      ensures Valid()
      ensures old(Remaining()) == [] ==> r == Err(ExpectedMoreInput) && Remaining() == []
      ensures old(Remaining()) != [] ==> r == Ok(old(Remaining())[0]) && Remaining() == old(Remaining())[1..]
      ensures var a := ReplayStep(old(Remaining()), Call.Getch, ExpectedMoreInput);
        Remaining() == a.state && a.result == (if r.Ok? then Ok(Key(r.value)) else Err(r.error))
    {
      if next.Some? {
        var input := next.value;
        if rest == [] {
          next := None;
        } else {
          next := Some(rest[0]);
          rest := rest[1..];
        }
        return Ok(input);
      }
      return Err(ExpectedMoreInput);
    }
  }

  /** Every renderer method once, in the order the module's tests call them. */
  method CallAll(renderer: RecordedInputRenderer) returns (results: seq<bool>, key: Result<Input, RecordedInputRendererError>)
    requires renderer.Valid()
    modifies renderer
    ensures renderer.Valid()
    ensures old(renderer.Remaining()) != [] ==>
      results == [true, true, true, true, true, true, true] && key == Ok(old(renderer.Remaining())[0]) &&
      renderer.Remaining() == old(renderer.Remaining())[1..]
    ensures old(renderer.Remaining()) == [] ==>
      results == [false, false, false, false, false, false, false] && key == Err(ExpectedMoreInput) &&
      renderer.Remaining() == []
  {
    var c := renderer.ClearScreen();
    var f := renderer.Flush();
    var w := renderer.WriteStr("hello");
    var m := renderer.MoveCursorTo(1, 2);
    var p := renderer.GetCursorPosition();
    var s := renderer.SetColor(WhiteBright, Red);
    var z := renderer.SleepMs(0);
    results := [c.Ok?, f.Ok?, w.Ok?, m.Ok?, p.Ok? && p.value == (0, 0), s.Ok?, z.Ok?];
    key := renderer.Getch();
  }

  /**
   * `test_getch`: with seven recorded inputs, seven rounds of every method
   * succeed and hand the inputs out in order; then every method fails.
   */
  method TestGetch() returns (keys: seq<Input>, after: seq<bool>)
    ensures keys == [KeyDown, Enter, KeyUp, Other, Enter, KeyUp, KeyDown]
    ensures after == [false, false, false, false, false, false, false]
  {
    var input := [KeyDown, Enter, KeyUp, Other, Enter, KeyUp, KeyDown];
    var renderer := new RecordedInputRenderer(input);
    keys := [];
    var i := 0;
    while i < |input|
      invariant 0 <= i <= |input|
      invariant renderer.Valid() && renderer.Remaining() == input[i..]
      invariant keys == input[..i]
    {
      var results, key := CallAll(renderer);
      assert results == [true, true, true, true, true, true, true];
      keys := keys + [key.value];
      assert input[..i + 1] == input[..i] + [input[i]];
      i := i + 1;
    }
    var key;
    after, key := CallAll(renderer);
    assert key == Err(ExpectedMoreInput);
  }

  /** `test_empty_input`: with nothing recorded every method fails at once. */
  method TestEmptyInput() returns (results: seq<bool>, key: Result<Input, RecordedInputRendererError>)
    ensures results == [false, false, false, false, false, false, false]
    ensures key == Err(ExpectedMoreInput)
  {
    var renderer := new RecordedInputRenderer([]);
    results, key := CallAll(renderer);
  }
}
