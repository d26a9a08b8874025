/**
 * `RecordedInputRenderer` of the iOS shell: it replays a recorded list of
 * keys to `getch` and does nothing else. The Swift `Sequence` it is made from
 * is a finite list here.
 */
module IosReplay {
  import opened Wrappers
  import opened UiTypes
  import opened RendererCalls

  datatype ReplayError = NoMoreInput

  function AsReply(r: Result<(), ReplayError>): Result<Reply, ReplayError>
  {
    if r.Ok? then Ok(Done) else Err(r.error)
  }

  class RecordedInputRenderer {
    /** What the iterator has still to yield after `next`. */
    var pending: seq<Input>
    /** The key the next `getch` returns, already taken from the iterator. */
    var next: Option<Input>

    predicate Valid()
      reads this
    {
      next.None? ==> pending == []
    }

    /** The keys still to be replayed. */
    function Remaining(): seq<Input>
      reads this
    {
      if next.Some? then [next.value] + pending else []
    }

    predicate Finished()
      reads this
    {
      next == None
    }

    constructor (input: seq<Input>)
      ensures Valid() && Remaining() == input
    {
      pending := input;
      next := None;
      new;
      next := IteratorNext();
    }

    /** `iterator.next()`. */
    method IteratorNext() returns (element: Option<Input>)
      modifies this`pending
      ensures old(pending) == [] ==> element == None && pending == []
      ensures old(pending) != [] ==> element == Some(old(pending)[0]) && pending == old(pending)[1..]
    {
      if pending == [] {
        return None;
      }
      element := Some(pending[0]);
      pending := pending[1..];
    }

    method ClearScreen() returns (r: Result<(), ReplayError>)
      requires Valid()
      ensures (r.Err? <==> Finished()) && AsReply(r) == ReplayStep(Remaining(), Call.ClearScreen, NoMoreInput).result
    {
      if Finished() { return Err(NoMoreInput); }
      return Ok(());
    }

    method Flush() returns (r: Result<(), ReplayError>)
      requires Valid()
      ensures (r.Err? <==> Finished()) && AsReply(r) == ReplayStep(Remaining(), Call.Flush, NoMoreInput).result
    {
      if Finished() { return Err(NoMoreInput); }
      return Ok(());
    }

    method WriteString(s: string) returns (r: Result<(), ReplayError>)
      requires Valid()
      ensures (r.Err? <==> Finished()) && AsReply(r) == ReplayStep(Remaining(), Call.WriteString(s), NoMoreInput).result
    {
      if Finished() { return Err(NoMoreInput); }
      return Ok(());
    }

    method MoveCursor(line: int, column: int) returns (r: Result<(), ReplayError>)
      requires Valid()
      ensures (r.Err? <==> Finished())
      ensures AsReply(r) == ReplayStep(Remaining(), Call.MoveCursor(line, column), NoMoreInput).result
    {
      if Finished() { return Err(NoMoreInput); }
      return Ok(());
    }

    /** The replay renderer keeps no cursor: it always reports (0, 0). */
    method GetCursorPosition() returns (r: Result<(int, int), ReplayError>)
      requires Valid()
      ensures r.Err? <==> Finished()
      ensures r.Ok? ==> r.value == (0, 0)
      ensures r.Ok? ==> ReplayStep(Remaining(), Call.GetCursorPosition, NoMoreInput).result == Ok(Position(0, 0))
    {
      if Finished() { return Err(NoMoreInput); }
      return Ok((0, 0));
    }

    method SetColor(foreground: Color, background: Color) returns (r: Result<(), ReplayError>)
      requires Valid()
      ensures (r.Err? <==> Finished())
      ensures AsReply(r) == ReplayStep(Remaining(), Call.SetColor(foreground, background), NoMoreInput).result
    {
      if Finished() { return Err(NoMoreInput); }
      return Ok(());
    }

    /** `getch`: the next recorded key, or `noMoreInput` once they are used up. */
    method Getch() returns (r: Result<Input, ReplayError>)
      requires Valid()
      modifies this
      ensures Valid()
      ensures old(Remaining()) == [] ==> r == Err(NoMoreInput) && Remaining() == []
      ensures old(Remaining()) != [] ==> r == Ok(old(Remaining())[0]) && Remaining() == old(Remaining())[1..]
      ensures var a := ReplayStep(old(Remaining()), Call.Getch, NoMoreInput);
        Remaining() == a.state && a.result == (if r.Ok? then Ok(Key(r.value)) else Err(r.error))
    {
      if next.Some? {
        var input := next.value;
        next := IteratorNext();
        return Ok(input);
      }
      return Err(NoMoreInput);
    }

    method Sleep(ms: int) returns (r: Result<(), ReplayError>)
      requires Valid()
      ensures (r.Err? <==> Finished()) && AsReply(r) == ReplayStep(Remaining(), Call.Sleep(ms), NoMoreInput).result
    {
      if Finished() { return Err(NoMoreInput); }
      return Ok(());
    }
  }
}
