/**
 * The Rust core's `Renderer` (`ui/renderer.rs`): it keeps track of where the
 * cursor is and turns every drawing operation into one request for the
 * platform shell. The request consumer is modelled as the list of requests
 * it has received.
 */
module CursorRenderer {
  import opened Wrappers
  import opened Ints
  import opened UiTypes

  /** The width at which `write_str` wraps to the next line. */
  const TERMINAL_WIDTH: int := 80

  /**
   * Where the cursor ends after writing `s` from (`line`, `column`), on
   * unbounded integers: a newline goes to column 0 of the next line; any
   * other character first wraps when the column has reached the width, then
   * moves one column right.
   */
  function Advance(line: int, column: int, s: string): (int, int)
    decreases |s|
  {
    if s == [] then (line, column)
    else if s[0] == '\n' then Advance(line + 1, 0, s[1..])
    else if column >= TERMINAL_WIDTH then Advance(line + 1, 1, s[1..])
    else Advance(line, column + 1, s[1..])
  }

  function Newlines(s: string): nat
  {
    if s == [] then 0 else (if s[0] == '\n' then 1 else 0) + Newlines(s[1..])
  }

  /** Writing a concatenation is writing its parts one after the other. */
  lemma {:induction false} AdvanceAppend(line: int, column: int, a: string, b: string)
    ensures Advance(line, column, a + b) == Advance(Advance(line, column, a).0, Advance(line, column, a).1, b)
    decreases |a|
  {
    if a == [] {
      assert a + b == b;
    } else {
      assert (a + b)[0] == a[0];
      assert (a + b)[1..] == a[1..] + b;
      if a[0] == '\n' {
        AdvanceAppend(line + 1, 0, a[1..], b);
      } else if column >= TERMINAL_WIDTH {
        AdvanceAppend(line + 1, 1, a[1..], b);
      } else {
        AdvanceAppend(line, column + 1, a[1..], b);
      }
    }
  }

  /**
   * The line grows by at least one per newline, never goes back, and the
   * column never passes the width once it is within it.
   */
  lemma {:induction false} AdvanceBounds(line: int, column: int, s: string)
    ensures Advance(line, column, s).0 >= line + Newlines(s)
    ensures 0 <= column <= TERMINAL_WIDTH ==> 0 <= Advance(line, column, s).1 <= TERMINAL_WIDTH
    ensures 0 <= column && s != [] ==> 0 <= Advance(line, column, s).1 <= TERMINAL_WIDTH
    decreases |s|
  {
    if s != [] {
      if s[0] == '\n' {
        AdvanceBounds(line + 1, 0, s[1..]);
      } else if column >= TERMINAL_WIDTH {
        AdvanceBounds(line + 1, 1, s[1..]);
      } else {
        AdvanceBounds(line, column + 1, s[1..]);
      }
    }
  }

  /** Text without newlines that fits on the line moves the cursor right by its length. */
  lemma {:induction false} AdvanceWithinLine(line: int, column: int, s: string)
    requires Newlines(s) == 0 && column + |s| <= TERMINAL_WIDTH
    ensures Advance(line, column, s) == (line, column + |s|)
    decreases |s|
  {
    if s != [] {
      assert s[0] != '\n';
      AdvanceWithinLine(line, column + 1, s[1..]);
    }
  }

  /** A string that ends in a newline leaves the cursor at column 0. */
  lemma AdvanceEndsWithNewline(line: int, column: int, s: string)
    requires s != [] && s[|s| - 1] == '\n'
    ensures Advance(line, column, s).1 == 0
  {
    var init := s[..|s| - 1];
    assert s == init + "\n";
    AdvanceAppend(line, column, init, "\n");
  }

  class Renderer {
    /** What the request consumer has received, oldest first. */
    var requests: seq<Request>
    var line: u8
    var column: u8
    var waitingState: Option<WaitingState>

    /** `Renderer::new`: the cursor at the origin, nothing sent, not waiting. */
    constructor ()
      ensures requests == [] && line == 0 && column == 0 && waitingState == None
    {
      requests := [];
      line := 0;
      column := 0;
      waitingState := None;
    }

    method ClearScreen()
      modifies this`line, this`column, this`requests
      ensures line == 0 && column == 0
      ensures requests == old(requests) + [Request.ClearScreen]
    {
      column := 0;
      line := 0;
      requests := requests + [Request.ClearScreen];
    }

    method Flush()
      modifies this`requests
      ensures requests == old(requests) + [Request.Flush]
    {
      requests := requests + [Request.Flush];
    }

    /**
     * `write_str`: moves the cursor as `Advance` says and sends the whole
     * string as one request; the empty string sends nothing. A line past 255
     * would overflow the `u8` and panic, so the caller must not ask for one.
     */
    method WriteStr(s: string)
      requires Advance(line, column, s).0 < U8_LIMIT
      modifies this`line, this`column, this`requests
      ensures (line, column) == Advance(old(line), old(column), s)
      ensures s == [] ==> requests == old(requests)
      ensures s != [] ==> requests == old(requests) + [Request.WriteStr(s)]
    {
      if s == [] {
        return;
      }
      ghost var final := Advance(line, column, s);
      var i := 0;
      while i < |s|
        invariant 0 <= i <= |s|
        invariant Advance(line, column, s[i..]) == final && final.0 < U8_LIMIT
        invariant requests == old(requests)
      {
        assert s[i..][1..] == s[i + 1..];
        if s[i] == '\n' {
          AdvanceBounds(line + 1, 0, s[i + 1..]);
          column := 0;
          line := line + 1;
        } else {
          if column >= TERMINAL_WIDTH {
            AdvanceBounds(line + 1, 1, s[i + 1..]);
            column := 0;
            line := line + 1;
          }
          column := column + 1;
        }
        i := i + 1;
      }
      requests := requests + [Request.WriteStr(s)];
    }

    method MoveCursorTo(toLine: u8, toColumn: u8)
      modifies this`line, this`column, this`requests
      ensures line == toLine && column == toColumn
      ensures requests == old(requests) + [Request.MoveCursor(toLine, toColumn)]
    {
      line := toLine;
      column := toColumn;
      requests := requests + [Request.MoveCursor(toLine, toColumn)];
    }

    method GetCursorPosition() returns (position: (u8, u8))
      ensures position == (line, column)
    {
      return (line, column);
    }

    method SetColor(foreground: Color, background: Color)
      modifies this`requests
      ensures requests == old(requests) + [Request.SetColor(foreground, background)]
    {
      requests := requests + [Request.SetColor(foreground, background)];
    }

    method SleepMs(ms: Milliseconds)
      modifies this`requests
      ensures requests == old(requests) + [Request.Sleep(ms)]
    {
      requests := requests + [Request.Sleep(ms)];
    }
  }

  /** Moving the cursor and then asking for it gives back exactly that position. */
  method MoveThenAsk(r: Renderer, line: u8, column: u8) returns (position: (u8, u8))
    modifies r`line, r`column, r`requests
    ensures position == (line, column)
    ensures r.requests == old(r.requests) + [Request.MoveCursor(line, column)]
  {
    r.MoveCursorTo(line, column);
    position := r.GetCursorPosition();
  }

  /** The cursor arithmetic of `test_write`, piece by piece. */
  lemma TestWriteCursor(a: string, b: string, c: string, d: string, e: string)
    requires a == "Hello" && b == ", wor" && c == "ld!\n" && d == "123 s" && e == "tring"
    ensures Advance(0, 0, a + b + c + d + e) == (1, 10)
  {
    assert Advance(0, 0, "Hello") == (0, 5);
    assert Advance(0, 5, ", wor") == (0, 10);
    assert Advance(0, 10, "ld!\n") == (1, 0);
    assert Advance(1, 0, "123 s") == (1, 5);
    assert Advance(1, 5, "tring") == (1, 10);
    AdvanceAppend(0, 0, a, b);
    AdvanceAppend(0, 0, a + b, c);
    AdvanceAppend(0, 0, a + b + c, d);
    AdvanceAppend(0, 0, a + b + c + d, e);
  }

  /**
   * `test_write`: formatted text reaches the consumer as one string, and the
   * cursor ends on the second line after the ten characters that follow the newline.
   */
  method TestWrite() returns (sent: seq<Request>, position: (u8, u8))
    ensures sent == [WriteStr("Hello, world!\n123 string")]
    ensures position == (1, 10)
  {
    var r := new Renderer();
    var text := "Hello" + ", wor" + "ld!\n" + "123 s" + "tring";
    TestWriteCursor("Hello", ", wor", "ld!\n", "123 s", "tring");
    assert text == "Hello, world!\n123 string";
    r.WriteStr(text);
    sent := r.requests;
    position := r.GetCursorPosition();
  }
}
