/**
 * The run-length input log of the Rust core: `InputRecorder` writes one
 * symbol per key, prefixed by a decimal count when the key repeats, and
 * `InputRecordingParser::parse_all` reads such a log back.
 * Characters stand for Rust `char`s; a grapheme index is a `char` index.
 */
module Recording {
  import opened Wrappers
  import opened Ints
  import opened UiTypes

  const UpArrow: char := '\U{2191}'
  const DownArrow: char := '\U{2193}'
  const ReturnSymbol: char := '\U{23CE}'

  /** The symbol a key is logged as. */
  function Mangle(input: Input): char
  {
    match input
    case KeyUp => UpArrow
    case KeyDown => DownArrow
    case Enter => ReturnSymbol
    case Other => '.'
  }

  /** `demangle_input`, without the error payload. */
  function Demangle(c: char): (r: Option<Input>)
    ensures r.Some? ==> Mangle(r.value) == c
    ensures forall input :: Mangle(input) == c ==> r == Some(input)
  {
    if c == UpArrow then Some(KeyUp)
    else if c == DownArrow then Some(KeyDown)
    else if c == ReturnSymbol then Some(Enter)
    else if c == '.' then Some(Other)
    else None
  }

  predicate IsDigit(c: char) { '0' <= c <= '9' }

  function DigitChar(d: nat): (c: char)
    requires d < 10
    ensures IsDigit(c)
  {
    ['0', '1', '2', '3', '4', '5', '6', '7', '8', '9'][d]
  }

  function DigitValue(c: char): nat
    requires IsDigit(c)
  {
    (c as int - '0' as int) as nat
  }

  /** A count as `{}` formats it. */
  function DecimalString(n: nat): (s: string)
    ensures |s| >= 1 && forall k :: 0 <= k < |s| ==> IsDigit(s[k])
  {
    if n < 10 then [DigitChar(n)] else DecimalString(n / 10) + [DigitChar(n % 10)]
  }

  predicate AllDigits(s: string) { forall k :: 0 <= k < |s| ==> IsDigit(s[k]) }

  /** The value `str::parse::<usize>` reads from a string of digits, before the overflow check. */
  function DecimalValue(s: string): nat
    requires AllDigits(s)
  {
    if s == [] then 0 else DecimalValue(s[..|s| - 1]) * 10 + DigitValue(s[|s| - 1])
  }

  lemma {:induction false} DecimalRoundTrip(n: nat)
    ensures DecimalValue(DecimalString(n)) == n
  {
    if n >= 10 {
      DecimalRoundTrip(n / 10);
      var s := DecimalString(n);
      assert s[..|s| - 1] == DecimalString(n / 10);
      assert DigitValue(DigitChar(n % 10)) == n % 10;
    } else {
      assert DigitValue(DigitChar(n)) == n;
    }
  }

  /** A key and how many times in a row it was pressed. */
  datatype Run = Run(input: Input, count: nat)

  /** What `flush` writes for a pending run. */
  function EncodeRun(r: Run): string
  {
    if r.count == 1 then [Mangle(r.input)] else DecimalString(r.count) + [Mangle(r.input)]
  }

  function EncodeRuns(runs: seq<Run>): string
  {
    if runs == [] then "" else EncodeRun(runs[0]) + EncodeRuns(runs[1..])
  }

  function Repeat(input: Input, n: nat): (r: seq<Input>)
    ensures |r| == n && forall k :: 0 <= k < n ==> r[k] == input
  {
    if n == 0 then [] else [input] + Repeat(input, n - 1)
  }

  /** The inputs a list of runs stands for. */
  function Expand(runs: seq<Run>): seq<Input>
  {
    if runs == [] then [] else Repeat(runs[0].input, runs[0].count) + Expand(runs[1..])
  }

  /** Counts the recorder can produce: at least one, and no more than a `usize` holds. */
  predicate RecordableRuns(runs: seq<Run>)
  {
    forall k :: 0 <= k < |runs| ==> 1 <= runs[k].count <= USIZE_MAX
  }

  lemma {:induction false} ExpandAppend(a: seq<Run>, b: seq<Run>)
    ensures Expand(a + b) == Expand(a) + Expand(b)
  {
    if a != [] {
      assert (a + b)[0] == a[0] && (a + b)[1..] == a[1..] + b;
      ExpandAppend(a[1..], b);
    } else {
      assert a + b == b;
    }
  }

  lemma {:induction false} EncodeRunsAppend(a: seq<Run>, b: seq<Run>)
    ensures EncodeRuns(a + b) == EncodeRuns(a) + EncodeRuns(b)
  {
    if a != [] {
      assert (a + b)[0] == a[0] && (a + b)[1..] == a[1..] + b;
      EncodeRunsAppend(a[1..], b);
    } else {
      assert a + b == b;
    }
  }

  // ----------------------------------------------------------------- recorder

  class InputRecorder {
    /** The `Write` sink, taken as infallible: a failing write is not modelled. */
    var output: string
    var lastInput: Option<Run>
    /** What the sink held when the recorder was made. */
    ghost var initial: string
    /** The runs written so far. */
    ghost var flushed: seq<Run>

    ghost function Pending(): seq<Run>
      reads this
    {
      if lastInput.Some? then [lastInput.value] else []
    }

    /** Every input handed to `RecordInput`, in order. */
    ghost function Recorded(): seq<Input>
      reads this
    {
      Expand(flushed + Pending())
    }

    /** What the recorder has written to the sink. */
    ghost function Written(): string
      reads this
      requires |initial| <= |output|
    {
      output[|initial|..]
    }

    ghost predicate Valid()
      reads this
    {
      && output == initial + EncodeRuns(flushed)
      && RecordableRuns(flushed + Pending())
    }

    constructor (output: string)
      ensures Valid() && this.output == output && lastInput == None && Recorded() == []
    {
      this.output := output;
      lastInput := None;
      initial := output;
      flushed := [];
    }

    /** `record_input`: a repeat of the pending key only counts it; another key flushes first. */
    method RecordInput(input: Input)
      requires Valid()
      requires lastInput.Some? && lastInput.value.input == input ==> lastInput.value.count < USIZE_MAX
      modifies this
      ensures Valid() && initial == old(initial)
      ensures Recorded() == old(Recorded()) + [input]
      ensures old(lastInput).Some? && old(lastInput).value.input == input ==>
        lastInput == Some(Run(input, old(lastInput).value.count + 1)) && output == old(output)
      ensures !(old(lastInput).Some? && old(lastInput).value.input == input) ==>
        && lastInput == Some(Run(input, 1))
        && output == old(output) + (if old(lastInput).Some? then EncodeRun(old(lastInput).value) else "")
    {
      if lastInput.Some? {
        var last := lastInput.value;
        if input == last.input {
          lastInput := Some(Run(input, last.count + 1));
          ExtendRun(flushed, last);
          return;
        }
        Flush();
      }
      assert lastInput == None && flushed + Pending() == flushed;
      StartRun(flushed, input);
      lastInput := Some(Run(input, 1));
      assert flushed + Pending() == flushed + [Run(input, 1)];
    }

    /** `flush`: writes the pending run, its count first unless it is 1, and forgets it. */
    method Flush()
      requires Valid()
      modifies this
      ensures Valid() && initial == old(initial)
      ensures lastInput == None && Recorded() == old(Recorded())
      ensures output == old(output) + (if old(lastInput).Some? then EncodeRun(old(lastInput).value) else "")
      ensures Parse(Written(), 0, AcceptAll(), []) == Outcome(Recorded(), Ok(()))
    {
      if lastInput.Some? {
        var last := lastInput.value;
        ghost var before := flushed;
        lastInput := None;
        var mangled := Mangle(last.input);
        var text := if last.count == 1 then [mangled] else DecimalString(last.count) + [mangled];
        assert text == EncodeRun(last);
        FlushStep(initial, output, before, last);
        output := output + text;
        flushed := flushed + [last];
        assert Pending() == [];
        assert flushed + Pending() == before + [last];
      }
      RecordedParses();
    }

    /** With nothing pending, the sink holds exactly what was recorded. */
    lemma RecordedParses()
      requires Valid() && lastInput == None
      ensures Parse(Written(), 0, AcceptAll(), []) == Outcome(Recorded(), Ok(()))
    {
      assert flushed + Pending() == flushed;
      assert Written() == EncodeRuns(flushed);
      ParseEncodeRuns(flushed, 0, []);
    }
  }

  /** Writing the pending run extends the text of the flushed runs by that run. */
  lemma FlushStep(initial: string, output: string, flushed: seq<Run>, last: Run)
    requires output == initial + EncodeRuns(flushed)
    ensures output + EncodeRun(last) == initial + EncodeRuns(flushed + [last])
  {
    EncodeRunsAppend(flushed, [last]);
    EncodeOneRun(last);
    SeqAssoc(initial, EncodeRuns(flushed), EncodeRun(last));
  }

  lemma EncodeOneRun(r: Run)
    ensures EncodeRuns([r]) == EncodeRun(r)
  {
    assert [r][1..] == [];
  }

  lemma SeqAssoc(a: string, b: string, c: string)
    ensures (a + b) + c == a + (b + c)
  {
  }

  /** One more press of the pending key adds one input to what the runs stand for. */
  lemma ExtendRun(flushed: seq<Run>, last: Run)
    requires RecordableRuns(flushed + [last]) && last.count < USIZE_MAX
    ensures RecordableRuns(flushed + [Run(last.input, last.count + 1)])
    ensures Expand(flushed + [Run(last.input, last.count + 1)]) == Expand(flushed + [last]) + [last.input]
  {
    var next := Run(last.input, last.count + 1);
    assert forall k :: 0 <= k < |flushed| ==> (flushed + [next])[k] == (flushed + [last])[k];
    ExpandAppend(flushed, [next]);
    ExpandAppend(flushed, [last]);
    assert Repeat(last.input, last.count + 1) == Repeat(last.input, last.count) + [last.input];
    assert Expand([next]) == Repeat(last.input, last.count + 1) + [];
    assert Expand([last]) == Repeat(last.input, last.count) + [];
  }

  lemma StartRun(flushed: seq<Run>, input: Input)
    requires RecordableRuns(flushed)
    ensures RecordableRuns(flushed + [Run(input, 1)])
    ensures Expand(flushed + [Run(input, 1)]) == Expand(flushed) + [input]
  {
    ExpandAppend(flushed, [Run(input, 1)]);
    assert Expand([Run(input, 1)]) == [input];
  }

  // ------------------------------------------------------------------- parser

  datatype ParseError =
    | ParseInt(grapheme: nat)
    | UnknownCharacter(grapheme: nat)
    | UnexpectedEOF
    | Interrupted

  /** The inputs handed to the callback (the refused one included) and the result. */
  datatype Outcome = Outcome(delivered: seq<Input>, result: Result<(), ParseError>)

  /**
   * The `into` callback: whether to go on after being handed `input`, given the
   * inputs it was handed before.
   */
  type Accept = (seq<Input>, Input) -> bool

  function AcceptAll(): Accept { (_, _) => true }

  /** Number of leading digits. */
  function DigitRun(s: string): (n: nat)
    ensures n <= |s| && AllDigits(s[..n]) && (n < |s| ==> !IsDigit(s[n]))
  {
    if s == [] || !IsDigit(s[0]) then 0
    else
      var n := 1 + DigitRun(s[1..]);
      assert forall k :: 1 <= k < n ==> s[..n][k] == s[1..][..n - 1][k - 1];
      n
  }

  /** The inner `for` loop: hand `input` over `n` times, stopping at the first refusal. */
  function Deliver(accept: Accept, delivered: seq<Input>, input: Input, n: nat): (Outcome)
    decreases n
  {
    if n == 0 then Outcome(delivered, Ok(()))
    else if !accept(delivered, input) then Outcome(delivered + [input], Err(Interrupted))
    else Deliver(accept, delivered + [input], input, n - 1)
  }

  /**
   * Reference reading of a log `s` whose first character has grapheme index
   * `offset`: a symbol alone is one key; digits then a symbol repeat it.
   */
  function Parse(s: string, offset: nat, accept: Accept, delivered: seq<Input>): Outcome
    decreases |s|
  {
    if s == [] then Outcome(delivered, Ok(()))
    else if IsDigit(s[0]) then
      var j := DigitRun(s);
      if j == |s| then Outcome(delivered, Err(UnexpectedEOF))
      else if DecimalValue(s[..j]) > USIZE_MAX then Outcome(delivered, Err(ParseInt(offset + j)))
      else match Demangle(s[j])
        case None => Outcome(delivered, Err(UnknownCharacter(offset + j)))
        case Some(input) =>
          var d := Deliver(accept, delivered, input, DecimalValue(s[..j]));
          if d.result.Err? then d
          else Parse(s[j + 1..], offset + j + 1, accept, d.delivered)
    else match Demangle(s[0])
      case None => Outcome(delivered, Err(UnknownCharacter(offset)))
      case Some(input) =>
        if !accept(delivered, input) then Outcome(delivered + [input], Err(Interrupted))
        else Parse(s[1..], offset + 1, accept, delivered + [input])
  }

  lemma {:induction false} DeliverAll(delivered: seq<Input>, input: Input, n: nat)
    ensures Deliver(AcceptAll(), delivered, input, n) == Outcome(delivered + Repeat(input, n), Ok(()))
    decreases n
  {
    if n > 0 {
      DeliverAll(delivered + [input], input, n - 1);
      assert delivered + [input] + Repeat(input, n - 1) == delivered + Repeat(input, n);
    }
  }

  lemma DigitRunOfCount(n: nat, c: char, rest: string)
    requires !IsDigit(c)
    ensures DigitRun(DecimalString(n) + [c] + rest) == |DecimalString(n)|
  {
    var t := DecimalString(n) + [c] + rest;
    var k := |DecimalString(n)|;
    assert t[k] == c;
    assert forall m :: 0 <= m < k ==> t[m] == DecimalString(n)[m];
  }

  /** What one run's text contributes when the log is read back. */
  lemma ParseRun(r: Run, rest: string, offset: nat, delivered: seq<Input>)
    requires 1 <= r.count <= USIZE_MAX
    ensures Parse(EncodeRun(r) + rest, offset, AcceptAll(), delivered)
         == Parse(rest, offset + |EncodeRun(r)|, AcceptAll(), delivered + Repeat(r.input, r.count))
  {
    var sym := Mangle(r.input);
    assert Demangle(sym) == Some(r.input);
    assert !IsDigit(sym);
    if r.count == 1 {
      var s := [sym] + rest;
      assert s[1..] == rest;
      assert Repeat(r.input, 1) == [r.input];
    } else {
      var ds := DecimalString(r.count);
      var s := ds + [sym] + rest;
      DigitRunOfCount(r.count, sym, rest);
      assert s[..|ds|] == ds;
      assert s[|ds|] == sym;
      assert s[|ds| + 1..] == rest;
      DecimalRoundTrip(r.count);
      DeliverAll(delivered, r.input, r.count);
      assert EncodeRun(r) + rest == s;
    }
  }

  /** Reading back what the recorder wrote gives every recorded key, in order. */
  lemma {:induction false} ParseEncodeRuns(runs: seq<Run>, offset: nat, delivered: seq<Input>)
    requires RecordableRuns(runs)
    ensures Parse(EncodeRuns(runs), offset, AcceptAll(), delivered) == Outcome(delivered + Expand(runs), Ok(()))
  {
    if runs != [] {
      var r, tail := runs[0], runs[1..];
      var next := delivered + Repeat(r.input, r.count);
      assert EncodeRuns(runs) == EncodeRun(r) + EncodeRuns(tail);
      assert Expand(runs) == Repeat(r.input, r.count) + Expand(tail);
      ParseRun(r, EncodeRuns(tail), offset, delivered);
      RecordableTail(runs);
      ParseEncodeRuns(tail, offset + |EncodeRun(r)|, next);
      assert next + Expand(tail) == delivered + Expand(runs);
    }
  }

  lemma RecordableTail(runs: seq<Run>)
    requires runs != [] && RecordableRuns(runs)
    ensures 1 <= runs[0].count <= USIZE_MAX && RecordableRuns(runs[1..])
  {
    forall k | 0 <= k < |runs| - 1 ensures runs[1..][k] == runs[k + 1] { }
  }

  /**
   * `parse_all`: one pass over the characters, remembering where a pending
   * number started; each key goes to `accept` as soon as it is known.
   */
  method ParseAll(s: string, accept: Accept) returns (delivered: seq<Input>, result: Result<(), ParseError>)
    ensures Outcome(delivered, result) == Parse(s, 0, accept, [])
  {
    var numberStart: Option<nat> := None;
    delivered := [];
    var grapheme := 0;
    ghost var goal := Parse(s, 0, accept, []);
    assert s[0..] == s;
    while grapheme < |s|
      invariant 0 <= grapheme <= |s|
      invariant numberStart.None? ==> Parse(s[grapheme..], grapheme, accept, delivered) == goal
      invariant numberStart.Some? ==>
        && numberStart.value < grapheme
        && AllDigits(s[numberStart.value..grapheme])
        && Parse(s[numberStart.value..], numberStart.value, accept, delivered) == goal
    {
      var c := s[grapheme];
      if numberStart.None? {
        if IsDigit(c) {
          numberStart := Some(grapheme);
          assert s[grapheme..grapheme + 1] == [c];
        } else {
          var input := Demangle(c);
          ParseSymbol(s, grapheme, accept, delivered);
          if input.None? {
            return delivered, Err(UnknownCharacter(grapheme));
          }
          if !accept(delivered, input.value) {
            return delivered + [input.value], Err(Interrupted);
          }
          delivered := delivered + [input.value];
        }
      } else if !IsDigit(c) {
        var start := numberStart.value;
        ParseNumber(s, start, grapheme, accept, delivered);
        var parsedNumber := DecimalValue(s[start..grapheme]);
        if parsedNumber > USIZE_MAX {
          return delivered, Err(ParseInt(grapheme));
        }
        numberStart := None;
        var input := Demangle(c);
        if input.None? {
          return delivered, Err(UnknownCharacter(grapheme));
        }
        var interrupted;
        delivered, interrupted := DeliverRepeated(accept, delivered, input.value, parsedNumber);
        if interrupted {
          return delivered, Err(Interrupted);
        }
      } else {
        assert s[numberStart.value..grapheme + 1] == s[numberStart.value..grapheme] + [c];
      }
      grapheme := grapheme + 1;
    }
    if numberStart.Some? {
      NumberRunsOut(s, numberStart.value);
      return delivered, Err(UnexpectedEOF);
    }
    return delivered, Ok(());
  }

  /** The inner loop of `parse_all`: hands `input` over `n` times unless refused. */
  method DeliverRepeated(accept: Accept, delivered: seq<Input>, input: Input, n: nat)
    returns (after: seq<Input>, interrupted: bool)
    ensures Deliver(accept, delivered, input, n) == Outcome(after, if interrupted then Err(Interrupted) else Ok(()))
  {
    after := delivered;
    var k := 0;
    while k < n
      invariant 0 <= k <= n
      invariant Deliver(accept, after, input, n - k) == Deliver(accept, delivered, input, n)
    {
      if !accept(after, input) {
        return after + [input], true;
      }
      after := after + [input];
      k := k + 1;
    }
    return after, false;
  }

  /** `Parse` at a symbol that does not continue a number. */
  lemma ParseSymbol(s: string, g: nat, accept: Accept, delivered: seq<Input>)
    requires g < |s| && !IsDigit(s[g])
    ensures Parse(s[g..], g, accept, delivered) ==
      match Demangle(s[g])
        case None => Outcome(delivered, Err(UnknownCharacter(g)))
        case Some(input) =>
          if !accept(delivered, input) then Outcome(delivered + [input], Err(Interrupted))
          else Parse(s[g + 1..], g + 1, accept, delivered + [input])
  {
    assert s[g..][0] == s[g] && s[g..][1..] == s[g + 1..];
  }

  /** `Parse` at a number from `start` that the symbol at `i` ends. */
  lemma ParseNumber(s: string, start: nat, i: nat, accept: Accept, delivered: seq<Input>)
    requires start < i < |s| && AllDigits(s[start..i]) && !IsDigit(s[i])
    ensures Parse(s[start..], start, accept, delivered) ==
      if DecimalValue(s[start..i]) > USIZE_MAX then Outcome(delivered, Err(ParseInt(i)))
      else match Demangle(s[i])
        case None => Outcome(delivered, Err(UnknownCharacter(i)))
        case Some(input) =>
          var d := Deliver(accept, delivered, input, DecimalValue(s[start..i]));
          if d.result.Err? then d else Parse(s[i + 1..], i + 1, accept, d.delivered)
  {
    NumberEnds(s, start, i);
  }

  /** A digit run from `start` that the character at `i` ends. */
  lemma NumberEnds(s: string, start: nat, i: nat)
    requires start < i < |s| && AllDigits(s[start..i]) && !IsDigit(s[i])
    ensures DigitRun(s[start..]) == i - start
    ensures s[start..][..i - start] == s[start..i]
    ensures s[start..][i - start] == s[i]
    ensures s[start..][i - start + 1..] == s[i + 1..]
  {
    var t := s[start..];
    assert forall m :: 0 <= m < i - start ==> t[m] == s[start..i][m];
  }

  /** A digit run that reaches the end of the log. */
  lemma NumberRunsOut(s: string, start: nat)
    requires start < |s| && AllDigits(s[start..|s|])
    ensures DigitRun(s[start..]) == |s| - start
  {
    assert s[start..] == s[start..|s|];
  }

  /** With every key accepted, a lone symbol delivers its key. */
  lemma SymbolStep(s: string, offset: nat, delivered: seq<Input>)
    requires s != [] && !IsDigit(s[0]) && Demangle(s[0]).Some?
    ensures Parse(s, offset, AcceptAll(), delivered) == Parse(s[1..], offset + 1, AcceptAll(), delivered + [Demangle(s[0]).value])
  {
  }

  /** With every key accepted, a count of `j` digits then a symbol delivers the key that many times. */
  lemma CountStep(s: string, offset: nat, delivered: seq<Input>, j: nat)
    requires j < |s| && DigitRun(s) == j && IsDigit(s[0])
    requires DecimalValue(s[..j]) <= USIZE_MAX && Demangle(s[j]).Some?
    ensures Parse(s, offset, AcceptAll(), delivered)
         == Parse(s[j + 1..], offset + j + 1, AcceptAll(), delivered + Repeat(Demangle(s[j]).value, DecimalValue(s[..j])))
  {
    DeliverAll(delivered, Demangle(s[j]).value, DecimalValue(s[..j]));
  }

  /** A log that ends inside a number: the keys before it arrive, then `UnexpectedEOF`. */
  lemma TrailingDigitsExample()
    ensures Parse([DownArrow, DownArrow, '2', ReturnSymbol, '1', '3'], 0, AcceptAll(), [])
         == Outcome([KeyDown, KeyDown, Enter, Enter], Err(UnexpectedEOF))
  {
    var s := [DownArrow, DownArrow, '2', ReturnSymbol, '1', '3'];
    var t := ['2', ReturnSymbol, '1', '3'];
    var u := ['1', '3'];
    assert Demangle(DownArrow) == Some(KeyDown) && Demangle(ReturnSymbol) == Some(Enter);
    SymbolStep(s, 0, []);
    assert [] + [KeyDown] == [KeyDown];
    assert s[1..][0] == DownArrow && s[1..][1..] == t;
    SymbolStep(s[1..], 1, [KeyDown]);
    assert [KeyDown] + [KeyDown] == [KeyDown, KeyDown];
    assert Parse(s, 0, AcceptAll(), []) == Parse(t, 2, AcceptAll(), [KeyDown, KeyDown]);
    assert DigitRun(t) == 1 by { assert DigitRun(t[1..]) == 0; }
    assert t[..1] == ['2'] && DecimalValue(['2']) == 2;
    CountStep(t, 2, [KeyDown, KeyDown], 1);
    assert t[2..] == u;
    assert [KeyDown, KeyDown] + Repeat(Enter, 2) == [KeyDown, KeyDown, Enter, Enter];
    assert Parse(s, 0, AcceptAll(), []) == Parse(u, 4, AcceptAll(), [KeyDown, KeyDown, Enter, Enter]);
    assert DigitRun(u) == 2 by {
      assert u[1..] == ['3'];
      assert DigitRun(['3'][1..]) == 0;
    }
  }

  /** An unknown character fails with its index, after the keys before it. */
  lemma UnknownCharacterExample()
    ensures Parse([DownArrow, '2', ReturnSymbol, '3', '!', ReturnSymbol], 0, AcceptAll(), [])
         == Outcome([KeyDown, Enter, Enter], Err(UnknownCharacter(4)))
  {
    var s := [DownArrow, '2', ReturnSymbol, '3', '!', ReturnSymbol];
    var t := ['2', ReturnSymbol, '3', '!', ReturnSymbol];
    var u := ['3', '!', ReturnSymbol];
    assert Demangle(DownArrow) == Some(KeyDown) && Demangle(ReturnSymbol) == Some(Enter);
    SymbolStep(s, 0, []);
    assert s[1..] == t;
    assert DigitRun(t) == 1 by { assert DigitRun(t[1..]) == 0; }
    assert t[..1] == ['2'] && DecimalValue(['2']) == 2;
    CountStep(t, 1, [KeyDown], 1);
    assert t[2..] == u;
    assert [KeyDown] + Repeat(Enter, 2) == [KeyDown, Enter, Enter];
    assert DigitRun(u) == 1 by { assert DigitRun(u[1..]) == 0; }
    assert u[..1] == ['3'] && DecimalValue(['3']) == 3;
    assert Demangle('!') == None;
  }
}
