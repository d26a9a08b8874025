/**
 * The `String.lines` splitter of the iOS shell: it cuts a string at every
 * newline and remembers, for each piece, whether a newline ended it.
 * A `char` here stands for one Swift `Character`.
 */
module StringLines {

  /** One piece of the string and whether a newline followed it. */
  datatype Segment = Segment(text: string, endsWithNewline: bool)

  /** Reference definition: the segments of `s`, one character at a time. */
  function SplitLines(s: string): (r: seq<Segment>)
    ensures |r| >= 1
    decreases |s|
  {
    if |s| == 0 then [Segment("", false)]
    else
      var rest := SplitLines(s[1..]);
      if s[0] == '\n' then [Segment("", true)] + rest
      else [Segment([s[0]] + rest[0].text, rest[0].endsWithNewline)] + rest[1..]
  }

  /** Glues the segments back together, writing "\n" after each flagged one. */
  function Join(segments: seq<Segment>): string
  {
    if segments == [] then ""
    else
      segments[0].text + (if segments[0].endsWithNewline then "\n" else "")
      + Join(segments[1..])
  }

  function NewlineCount(s: string): nat
  {
    if s == [] then 0 else (if s[0] == '\n' then 1 else 0) + NewlineCount(s[1..])
  }

  /** The shape every result of the splitter has. */
  predicate WellFormed(segments: seq<Segment>)
  {
    && |segments| >= 1
    && (forall k :: 0 <= k < |segments| - 1 ==> segments[k].endsWithNewline)
    && !segments[|segments| - 1].endsWithNewline
    && (forall k :: 0 <= k < |segments| ==> '\n' !in segments[k].text)
  }

  /** Puts `p` in front of the first segment. */
  function Prepend(p: string, segments: seq<Segment>): seq<Segment>
    requires |segments| >= 1
  {
    [Segment(p + segments[0].text, segments[0].endsWithNewline)] + segments[1..]
  }

  /** The loop of `String.lines`: scans with `i`, cutting at each newline. */
  method Lines(s: string) returns (result: seq<Segment>)
    ensures result == SplitLines(s)
  {
    result := [];
    var substringStart := 0;
    var i := substringStart;
    PrependEmpty(SplitLines(s));
    while true
      invariant 0 <= substringStart <= i <= |s|
      invariant result + Prepend(s[substringStart..i], SplitLines(s[i..])) == SplitLines(s)
      decreases |s| - i
    {
      if i == |s| {
        assert s[i..] == "" && s[substringStart..i] + "" == s[substringStart..i];
        result := result + [Segment(s[substringStart..i], false)];
        break;
      }
      if s[i] == '\n' {
        StepNewline(s, substringStart, i);
        result := result + [Segment(s[substringStart..i], true)];
        substringStart := i + 1;
        i := substringStart;
        continue;
      }
      StepOther(s, substringStart, i);
      i := i + 1;
    }
  }

  lemma StepNewline(s: string, start: nat, i: nat)
    requires start <= i < |s| && s[i] == '\n'
    ensures Prepend(s[start..i], SplitLines(s[i..]))
         == [Segment(s[start..i], true)] + Prepend(s[i + 1..i + 1], SplitLines(s[i + 1..]))
  {
    assert s[i..][0] == '\n' && s[i..][1..] == s[i + 1..];
    var rest := SplitLines(s[i + 1..]);
    assert SplitLines(s[i..]) == [Segment("", true)] + rest;
    assert s[start..i] + "" == s[start..i];
    assert s[i + 1..i + 1] == "";
    PrependEmpty(rest);
  }

  lemma PrependEmpty(segments: seq<Segment>)
    requires |segments| >= 1
    ensures Prepend("", segments) == segments
  {
    assert "" + segments[0].text == segments[0].text;
    assert [segments[0]] + segments[1..] == segments;
  }

  lemma StepOther(s: string, start: nat, i: nat)
    requires start <= i < |s| && s[i] != '\n'
    ensures Prepend(s[start..i], SplitLines(s[i..])) == Prepend(s[start..i + 1], SplitLines(s[i + 1..]))
  {
    assert s[i..][1..] == s[i + 1..];
    var rest := SplitLines(s[i + 1..]);
    assert s[start..i] + ([s[i]] + rest[0].text) == s[start..i + 1] + rest[0].text;
  }

  /** Joining the segments gives back the string. */
  lemma {:induction false} JoinSplitLines(s: string)
    ensures Join(SplitLines(s)) == s
    decreases |s|
  {
    if |s| > 0 {
      JoinSplitLines(s[1..]);
      var rest := SplitLines(s[1..]);
      if s[0] == '\n' {
        assert Join([Segment("", true)] + rest) == "\n" + Join(rest);
      } else {
        assert ([Segment([s[0]] + rest[0].text, rest[0].endsWithNewline)] + rest[1..])[1..] == rest[1..];
        assert Join(rest) == rest[0].text + (if rest[0].endsWithNewline then "\n" else "") + Join(rest[1..]);
      }
      assert s == [s[0]] + s[1..];
    }
  }

  /** Every result is well formed: only the last segment lacks a newline, no text holds one. */
  lemma {:induction false} SplitLinesWellFormed(s: string)
    ensures WellFormed(SplitLines(s))
    decreases |s|
  {
    if |s| > 0 {
      SplitLinesWellFormed(s[1..]);
      var rest := SplitLines(s[1..]);
      var r := SplitLines(s);
      if s[0] != '\n' {
        assert r[0].text == [s[0]] + rest[0].text;
        forall k | 1 <= k < |r| ensures r[k] == rest[k] { }
      } else {
        forall k | 1 <= k < |r| ensures r[k] == rest[k - 1] { }
      }
    }
  }

  /** There is one segment more than there are newlines. */
  lemma {:induction false} SplitLinesCount(s: string)
    ensures |SplitLines(s)| == NewlineCount(s) + 1
    decreases |s|
  {
    if |s| > 0 {
      SplitLinesCount(s[1..]);
    }
  }

  /** A single empty unflagged segment comes from the empty string and from nothing else. */
  lemma SplitLinesSingleEmpty(s: string)
    ensures SplitLines(s) == [Segment("", false)] <==> s == ""
  {
    JoinSplitLines(s);
    assert Join([Segment("", false)]) == "";
  }

  /** The converse of JoinSplitLines: a well-formed list is what its join splits into. */
  lemma {:induction false} SplitLinesJoin(segments: seq<Segment>)
    requires WellFormed(segments)
    ensures SplitLines(Join(segments)) == segments
    decreases |segments|
  {
    var first := segments[0];
    if |segments| == 1 {
      assert Join(segments) == first.text + Join([]);
      assert Join(segments) == first.text + "";
      SplitLinesText(first.text, "");
      assert first.text + "" == first.text;
      assert Prepend(first.text, SplitLines("")) == [Segment(first.text, false)];
    } else {
      var tail := segments[1..];
      assert WellFormed(tail);
      SplitLinesJoin(tail);
      assert Join(segments) == first.text + ("\n" + Join(tail));
      SplitLinesText(first.text, "\n" + Join(tail));
      assert ("\n" + Join(tail))[0] == '\n' && ("\n" + Join(tail))[1..] == Join(tail);
      assert SplitLines("\n" + Join(tail)) == [Segment("", true)] + tail;
      assert first.text + "" == first.text;
      assert [first] + tail == segments;
    }
  }

  /** Text without a newline merges into the first segment of whatever follows. */
  lemma {:induction false} SplitLinesText(p: string, q: string)
    requires '\n' !in p
    ensures SplitLines(p + q) == Prepend(p, SplitLines(q))
    decreases |p|
  {
    if |p| == 0 {
      assert p + q == q;
      assert p == "";
      PrependEmpty(SplitLines(q));
    } else {
      assert (p + q)[1..] == p[1..] + q;
      assert p[0] in p;
      SplitLinesText(p[1..], q);
      assert [p[0]] + (p[1..] + SplitLines(q)[0].text) == p + SplitLines(q)[0].text;
    }
  }
}
