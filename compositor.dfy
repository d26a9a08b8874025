/**
 * The value-level model of the iOS terminal compositor: a 24x80 screen kept
 * as per-row lists of text fragments, and the requests that change it.
 * The class `Session.GameRunner` performs these steps in place; the functions
 * here say what each of its methods computes.
 */
module Compositor {
  import opened Wrappers
  import opened UiTypes
  import opened StringLines

  const NumberOfLines: nat := 24
  const NumberOfColumns: nat := 80

  /** A run of text written at one place by one `writeString` call. */
  datatype Fragment = Fragment(startColumn: int, priority: int, text: string,
                               foreground: Color, background: Color)

  function EndColumn(f: Fragment): int { f.startColumn + |f.text| }

  /** The compositor's state: fragments per row, cursor, write counter and current colours. */
  datatype Screen = Screen(lines: seq<seq<Fragment>>, line: int, column: int, priority: int,
                           foreground: Color, background: Color)

  /** One character cell of a rendered frame; `Blank` is an unpainted space. */
  datatype Cell = Blank | Glyph(ch: char, foreground: Color, background: Color)

  /** Where the caret is drawn; the compositor always draws it white. */
  datatype Caret = Caret(line: int, column: int, color: Color)

  /** A rendered screen: 24 rows of 80 cells, joined by newlines on the device. */
  datatype Frame = Frame(rows: seq<seq<Cell>>, caret: Caret)

  function EmptyLines(n: nat): (r: seq<seq<Fragment>>)
    ensures |r| == n && forall i :: 0 <= i < n ==> r[i] == []
  {
    seq(n, _ => [])
  }

  /** The state of a freshly created runner. */
  function Initial(): Screen
  {
    Screen(EmptyLines(NumberOfLines), 0, 0, 0, White, Black)
  }

  // ---------------------------------------------------------------- invariant

  predicate PrioritiesBelow(row: seq<Fragment>, bound: int)
  {
    forall f :: f in row ==> 0 <= f.priority < bound
  }

  /** Two fragments of a row with the same priority are the same fragment. */
  predicate UniquePriorities(row: seq<Fragment>)
  {
    forall f, g :: f in row && g in row && f.priority == g.priority ==> f == g
  }

  /** What every reachable screen satisfies. */
  predicate ScreenValid(sc: Screen)
  {
    && |sc.lines| == NumberOfLines
    && 0 <= sc.priority
    && (forall i :: 0 <= i < |sc.lines| ==> PrioritiesBelow(sc.lines[i], sc.priority))
    && (forall i :: 0 <= i < |sc.lines| ==> UniquePriorities(sc.lines[i]))
  }

  lemma InitialValid()
    ensures ScreenValid(Initial())
  {
  }

  // ------------------------------------------------------------ clearScreen

  /** `clearScreen`: every row loses its fragments; cursor and counter go back to 0. */
  function Clear(sc: Screen): (r: Screen)
    ensures ScreenValid(sc) ==> ScreenValid(r)
    ensures |r.lines| == |sc.lines| && forall i :: 0 <= i < |r.lines| ==> r.lines[i] == []
    ensures r.line == 0 && r.column == 0 && r.priority == 0
    ensures r.foreground == sc.foreground && r.background == sc.background
  {
    sc.(lines := EmptyLines(|sc.lines|), line := 0, column := 0, priority := 0)
  }

  // ------------------------------------------------------------ writeString

  /** The fragment a non-empty segment becomes at the cursor. */
  function FragmentAt(sc: Screen, text: string): Fragment
  {
    Fragment(sc.column, sc.priority, text, sc.foreground, sc.background)
  }

  /** One pass of the `writeString` loop: place the segment, then follow its newline. */
  function Step(sc: Screen, seg: Segment): Screen
    requires seg.text != "" ==> 0 <= sc.line < |sc.lines|
  {
    var placed :=
      if seg.text == "" then sc
      else sc.(lines := sc.lines[sc.line := sc.lines[sc.line] + [FragmentAt(sc, seg.text)]],
               column := sc.column + |seg.text|);
    if seg.endsWithNewline then placed.(line := placed.line + 1, column := 0) else placed
  }

  /** Every non-empty segment reaches an existing row (Swift traps on `lines[currentLine]` otherwise). */
  predicate CanWrite(sc: Screen, segs: seq<Segment>)
    decreases |segs|
  {
    segs == [] ||
    ((segs[0].text != "" ==> 0 <= sc.line < |sc.lines|) && CanWrite(Step(sc, segs[0]), segs[1..]))
  }

  function WriteSegments(sc: Screen, segs: seq<Segment>): Screen
    requires CanWrite(sc, segs)
    decreases |segs|
  {
    if segs == [] then sc else WriteSegments(Step(sc, segs[0]), segs[1..])
  }

  /** Segment k of a write lands on row `line + k`; this says each non-empty one has a row. */
  predicate Writable(sc: Screen, s: string)
  {
    var segs := SplitLines(s);
    forall k :: 0 <= k < |segs| && segs[k].text != "" ==> 0 <= sc.line + k < |sc.lines|
  }

  /** The fragment, if any, that a write of `segs` adds to row `l`. */
  function Added(sc: Screen, segs: seq<Segment>, l: int): seq<Fragment>
  {
    var k := l - sc.line;
    if 0 <= k < |segs| && segs[k].text != ""
    then [Fragment(if k == 0 then sc.column else 0, sc.priority, segs[k].text,
                   sc.foreground, sc.background)]
    else []
  }

  /** Where the cursor ends: after the last segment, which starts at column 0 unless it is the first. */
  function LastColumn(sc: Screen, segs: seq<Segment>): int
    requires |segs| >= 1
  {
    (if |segs| == 1 then sc.column else 0) + |segs[|segs| - 1].text|
  }

  lemma {:induction false} CanWriteClosedForm(sc: Screen, segs: seq<Segment>)
    requires WellFormed(segs)
    ensures CanWrite(sc, segs) <==>
      forall k :: 0 <= k < |segs| && segs[k].text != "" ==> 0 <= sc.line + k < |sc.lines|
    decreases |segs|
  {
    if |segs| > 1 && (segs[0].text != "" ==> 0 <= sc.line < |sc.lines|) {
      var sc1 := Step(sc, segs[0]);
      var tail := segs[1..];
      assert WellFormed(tail);
      CanWriteClosedForm(sc1, tail);
      assert sc1.line == sc.line + 1 && |sc1.lines| == |sc.lines|;
      forall k | 1 <= k < |segs| ensures segs[k] == tail[k - 1] { }
    } else if |segs| == 1 {
      assert segs[1..] == [];
    }
  }

  lemma {:induction false} WriteSegmentsClosedForm(sc: Screen, segs: seq<Segment>)
    requires WellFormed(segs) && CanWrite(sc, segs)
    ensures var r := WriteSegments(sc, segs);
      && r.line == sc.line + |segs| - 1
      && r.column == LastColumn(sc, segs)
      && r.priority == sc.priority
      && r.foreground == sc.foreground && r.background == sc.background
      && |r.lines| == |sc.lines|
      && forall l :: 0 <= l < |sc.lines| ==> r.lines[l] == sc.lines[l] + Added(sc, segs, l)
    decreases |segs|
  {
    var sc1 := Step(sc, segs[0]);
    var tail := segs[1..];
    if |segs| == 1 {
      assert tail == [];
      assert WriteSegments(sc, segs) == WriteSegments(sc1, tail) == sc1;
      forall l | 0 <= l < |sc.lines| ensures sc1.lines[l] == sc.lines[l] + Added(sc, segs, l) {
        if l != sc.line {
          assert sc1.lines[l] + [] == sc1.lines[l];
        }
      }
    } else {
      assert WellFormed(tail);
      WriteSegmentsClosedForm(sc1, tail);
      var r := WriteSegments(sc1, tail);
      assert segs[0].endsWithNewline;
      assert sc1.line == sc.line + 1 && sc1.column == 0 && |sc1.lines| == |sc.lines|;
      forall l | 0 <= l < |sc.lines| ensures r.lines[l] == sc.lines[l] + Added(sc, segs, l) {
        var k := l - sc.line;
        if k == 0 {
          assert Added(sc1, tail, l) == [];
        } else {
          assert sc1.lines[l] == sc.lines[l];
          if 0 < k < |segs| { assert tail[k - 1] == segs[k]; }
        }
      }
      assert segs[|segs| - 1] == tail[|tail| - 1];
    }
  }

  /** `writeString`: split at newlines, place each non-empty segment, then bump the counter. */
  function Write(sc: Screen, s: string): (r: Screen)
    requires Writable(sc, s)
    ensures r.priority == sc.priority + 1
    ensures r.line == sc.line + NewlineCount(s)
    ensures r.column == LastColumn(sc, SplitLines(s))
    ensures r.foreground == sc.foreground && r.background == sc.background
    ensures |r.lines| == |sc.lines|
    ensures forall l :: 0 <= l < |sc.lines| ==> r.lines[l] == sc.lines[l] + Added(sc, SplitLines(s), l)
  {
    var segs := SplitLines(s);
    SplitLinesWellFormed(s);
    SplitLinesCount(s);
    CanWriteClosedForm(sc, segs);
    WriteSegmentsClosedForm(sc, segs);
    var w := WriteSegments(sc, segs);
    w.(priority := w.priority + 1)
  }

  /** A write keeps the screen valid: one new fragment per row at most, with a fresh priority. */
  lemma WritePreservesValid(sc: Screen, s: string)
    requires ScreenValid(sc) && Writable(sc, s)
    ensures ScreenValid(Write(sc, s))
  {
    var r := Write(sc, s);
    forall l | 0 <= l < |r.lines|
      ensures PrioritiesBelow(r.lines[l], r.priority) && UniquePriorities(r.lines[l])
    {
      assert r.lines[l] == sc.lines[l] + Added(sc, SplitLines(s), l);
      assert PrioritiesBelow(sc.lines[l], sc.priority);
    }
  }

  // ------------------------------------------------------- cursor and colour

  /** `moveCursor(toLine:column:)`. */
  function MoveTo(sc: Screen, line: int, column: int): (r: Screen)
    ensures r.line == line && r.column == column
    ensures r.lines == sc.lines && r.priority == sc.priority
    ensures r.foreground == sc.foreground && r.background == sc.background
  {
    sc.(line := line, column := column)
  }

  /** `setColor(foreground:background:)`. */
  function Recolor(sc: Screen, foreground: Color, background: Color): (r: Screen)
    ensures r.foreground == foreground && r.background == background
    ensures r.lines == sc.lines && r.line == sc.line && r.column == sc.column
    ensures r.priority == sc.priority
  {
    sc.(foreground := foreground, background := background)
  }

  // ---------------------------------------------------------------- sorting

  /** The comparator `flush` sorts with: by start column, then by priority. */
  predicate KeyLess(f: Fragment, g: Fragment)
  {
    f.startColumn < g.startColumn || (f.startColumn == g.startColumn && f.priority < g.priority)
  }

  predicate Sorted(fs: seq<Fragment>)
  {
    forall i, j :: 0 <= i < j < |fs| ==> !KeyLess(fs[j], fs[i])
  }

  function Insert(f: Fragment, fs: seq<Fragment>): seq<Fragment>
  {
    if fs == [] then [f]
    else if KeyLess(fs[0], f) then [fs[0]] + Insert(f, fs[1..])
    else [f] + fs
  }

  /** The order `flush` puts a row in (an insertion sort by `KeyLess`). */
  function SortByKey(fs: seq<Fragment>): seq<Fragment>
  {
    if fs == [] then [] else Insert(fs[0], SortByKey(fs[1..]))
  }

  lemma {:induction false} InsertMultiset(f: Fragment, fs: seq<Fragment>)
    ensures multiset(Insert(f, fs)) == multiset(fs) + multiset{f}
  {
    if fs != [] && KeyLess(fs[0], f) {
      InsertMultiset(f, fs[1..]);
      assert fs == [fs[0]] + fs[1..];
    }
  }

  /** Sorting only reorders a row. */
  lemma {:induction false} SortMultiset(fs: seq<Fragment>)
    ensures multiset(SortByKey(fs)) == multiset(fs)
  {
    if fs != [] {
      SortMultiset(fs[1..]);
      InsertMultiset(fs[0], SortByKey(fs[1..]));
      assert fs == [fs[0]] + fs[1..];
    }
  }

  lemma SortMembers(fs: seq<Fragment>)
    ensures forall f :: f in SortByKey(fs) <==> f in fs
  {
    SortMultiset(fs);
    forall f ensures f in SortByKey(fs) <==> f in fs {
      assert f in SortByKey(fs) <==> f in multiset(SortByKey(fs));
      assert f in fs <==> f in multiset(fs);
    }
  }

  lemma {:induction false} InsertSorted(f: Fragment, fs: seq<Fragment>)
    requires Sorted(fs)
    ensures Sorted(Insert(f, fs))
  {
    if fs != [] && KeyLess(fs[0], f) {
      var tail := fs[1..];
      assert Sorted(tail);
      InsertSorted(f, tail);
      InsertMultiset(f, tail);
      var r := Insert(f, fs);
      forall j | 1 <= j < |r| ensures !KeyLess(r[j], fs[0]) {
        assert r[j] in multiset(Insert(f, tail));
        if r[j] != f {
          assert r[j] in multiset(tail);
          var m :| 0 <= m < |tail| && tail[m] == r[j];
          assert fs[m + 1] == r[j];
        }
      }
    }
  }

  /** The sorted row satisfies the comparator everywhere. */
  lemma {:induction false} SortSorted(fs: seq<Fragment>)
    ensures Sorted(SortByKey(fs))
  {
    if fs != [] {
      SortSorted(fs[1..]);
      InsertSorted(fs[0], SortByKey(fs[1..]));
    }
  }

  /** Sorting a sorted row changes nothing. */
  lemma {:induction false} SortOfSorted(fs: seq<Fragment>)
    requires Sorted(fs)
    ensures SortByKey(fs) == fs
  {
    if fs != [] {
      assert Sorted(fs[1..]);
      SortOfSorted(fs[1..]);
      if |fs| > 1 {
        assert !KeyLess(fs[1], fs[0]);
        assert fs[1..] == [fs[1]] + fs[2..];
      }
      assert [fs[0]] + fs[1..] == fs;
    }
  }

  /**
   * With distinct priorities there is only one sorted order, so any sort
   * algorithm (Swift's `sort` promises no stability) gives `SortByKey`'s result.
   */
  lemma {:induction false} SortedUnique(a: seq<Fragment>, b: seq<Fragment>)
    requires Sorted(a) && Sorted(b) && multiset(a) == multiset(b) && UniquePriorities(a)
    ensures a == b
    decreases |a|
  {
    assert |a| == |multiset(a)| == |multiset(b)| == |b|;
    if |a| > 0 {
      SortedHeads(a, b);
      MultisetTail(a, b);
      assert Sorted(a[1..]) && Sorted(b[1..]);
      assert UniquePriorities(a[1..]) by {
        forall f | f in a[1..] ensures f in a { }
      }
      SortedUnique(a[1..], b[1..]);
      assert a == [a[0]] + a[1..] && b == [b[0]] + b[1..];
    }
  }

  lemma SortedHeads(a: seq<Fragment>, b: seq<Fragment>)
    requires Sorted(a) && Sorted(b) && multiset(a) == multiset(b) && UniquePriorities(a)
    requires |a| > 0 && |b| > 0
    ensures a[0] == b[0]
  {
    assert b[0] in multiset(a);
    var i :| 0 <= i < |a| && a[i] == b[0];
    assert a[0] in multiset(b);
    var j :| 0 <= j < |b| && b[j] == a[0];
    assert !KeyLess(b[0], a[0]) && !KeyLess(a[0], b[0]);
  }

  lemma MultisetTail(a: seq<Fragment>, b: seq<Fragment>)
    requires multiset(a) == multiset(b) && |a| > 0 && |b| > 0 && a[0] == b[0]
    ensures multiset(a[1..]) == multiset(b[1..])
  {
    assert a == [a[0]] + a[1..] && b == [b[0]] + b[1..];
    assert multiset(a) == multiset{a[0]} + multiset(a[1..]);
    assert multiset(b) == multiset{b[0]} + multiset(b[1..]);
    forall x ensures multiset(a[1..])[x] == multiset(b[1..])[x] {
      assert multiset(a)[x] == multiset{a[0]}[x] + multiset(a[1..])[x];
      assert multiset(b)[x] == multiset{b[0]}[x] + multiset(b[1..])[x];
    }
  }

  /** Any sorted rearrangement of a row with distinct priorities is the one `SortByKey` gives. */
  lemma SortByKeyIsTheSort(row: seq<Fragment>, sorted: seq<Fragment>)
    requires UniquePriorities(row)
    requires multiset(sorted) == multiset(row) && Sorted(sorted)
    ensures sorted == SortByKey(row)
  {
    SortMultiset(row);
    SortSorted(row);
    SortMembers(row);
    SortedUnique(SortByKey(row), sorted);
  }

  // --------------------------------------------------------------- painting

  predicate Fits(f: Fragment)
  {
    0 <= f.startColumn && EndColumn(f) <= NumberOfColumns
  }

  predicate AllFitIn(row: seq<Fragment>)
  {
    forall f :: f in row ==> Fits(f)
  }

  /** Every fragment is inside the 80 columns (`String.index(_:offsetBy:)` traps otherwise). */
  predicate AllFit(sc: Screen)
  {
    forall i :: 0 <= i < |sc.lines| ==> AllFitIn(sc.lines[i])
  }

  predicate Covers(f: Fragment, c: int)
  {
    f.startColumn <= c < EndColumn(f)
  }

  function GlyphAt(f: Fragment, c: int): Cell
    requires Covers(f, c)
  {
    Glyph(f.text[c - f.startColumn], f.foreground, f.background)
  }

  function BlankRow(): (r: seq<Cell>)
    ensures |r| == NumberOfColumns && forall c :: 0 <= c < |r| ==> r[c] == Blank
  {
    seq(NumberOfColumns, _ => Blank)
  }

  /** `replaceCharacters(in:with:)`: the fragment's text overwrites the cells it covers. */
  function Paint(row: seq<Cell>, f: Fragment): (r: seq<Cell>)
    requires |row| == NumberOfColumns && Fits(f)
    ensures |r| == |row|
    ensures forall c :: 0 <= c < |r| ==> r[c] == if Covers(f, c) then GlyphAt(f, c) else row[c]
  {
    row[..f.startColumn]
    + seq(|f.text|, k requires 0 <= k < |f.text| => Glyph(f.text[k], f.foreground, f.background))
    + row[EndColumn(f)..]
  }

  /** Paints the fragments one after another, in sequence order. */
  function PaintAll(row: seq<Cell>, fs: seq<Fragment>): (r: seq<Cell>)
    requires |row| == NumberOfColumns && AllFitIn(fs)
    ensures |r| == |row|
    decreases |fs|
  {
    if fs == [] then row
    else
      var init := fs[..|fs| - 1];
      assert forall f :: f in init ==> f in fs;
      Paint(PaintAll(row, init), fs[|fs| - 1])
  }

  /** The index of the last fragment covering column `c`, if any. */
  function LastCover(fs: seq<Fragment>, c: int): (r: Option<nat>)
    ensures r.Some? ==> r.value < |fs| && Covers(fs[r.value], c)
    ensures r.Some? ==> forall j :: r.value < j < |fs| ==> !Covers(fs[j], c)
    ensures r.None? ==> forall j :: 0 <= j < |fs| ==> !Covers(fs[j], c)
    decreases |fs|
  {
    if fs == [] then None
    else if Covers(fs[|fs| - 1], c) then Some(|fs| - 1)
    else LastCover(fs[..|fs| - 1], c)
  }

  /** A painted cell shows the last fragment over it, or the canvas if none covers it. */
  lemma {:induction false} PaintAllAt(row: seq<Cell>, fs: seq<Fragment>, c: int)
    requires |row| == NumberOfColumns && AllFitIn(fs) && 0 <= c < NumberOfColumns
    ensures PaintAll(row, fs)[c] ==
      match LastCover(fs, c)
      case None => row[c]
      case Some(k) => GlyphAt(fs[k], c)
    decreases |fs|
  {
    if fs != [] {
      var init := fs[..|fs| - 1];
      assert forall f :: f in init ==> f in fs;
      PaintAllAt(row, init, c);
    }
  }

  /** One row of the frame: the row's fragments, sorted, painted onto blanks. */
  function RenderRow(row: seq<Fragment>): (r: seq<Cell>)
    requires AllFitIn(row)
    ensures |r| == NumberOfColumns
  {
    SortMembers(row);
    PaintAll(BlankRow(), SortByKey(row))
  }

  /** What `flush` hands to the view: every row rendered, and a white caret at the cursor. */
  function Render(sc: Screen): (r: Frame)
    requires AllFit(sc)
    ensures |r.rows| == |sc.lines|
    ensures forall i :: 0 <= i < |r.rows| ==> |r.rows[i]| == NumberOfColumns
    ensures r.caret == Caret(sc.line, sc.column, White)
  {
    Frame(seq(|sc.lines|, i requires 0 <= i < |sc.lines| => RenderRow(sc.lines[i])),
          Caret(sc.line, sc.column, White))
  }

  /** A fragment that covers `c` and outranks, by `(startColumn, priority)`, every other one that does. */
  predicate IsWinner(row: seq<Fragment>, f: Fragment, c: int)
  {
    f in row && Covers(f, c) && forall g :: g in row && Covers(g, c) && g != f ==> KeyLess(g, f)
  }

  /**
   * The overlap rule of `flush`: a cell no fragment covers stays blank, and
   * otherwise it shows the covering fragment with the greatest start column,
   * and among those the latest written.
   */
  lemma RenderRowCell(row: seq<Fragment>, c: int)
    requires AllFitIn(row) && UniquePriorities(row) && 0 <= c < NumberOfColumns
    ensures (forall f :: f in row ==> !Covers(f, c)) ==> RenderRow(row)[c] == Blank
    ensures (exists f :: f in row && Covers(f, c)) ==> exists f :: IsWinner(row, f, c)
    ensures forall f :: IsWinner(row, f, c) ==> RenderRow(row)[c] == GlyphAt(f, c)
  {
    var sorted := SortByKey(row);
    SortMembers(row);
    SortSorted(row);
    PaintAllAt(BlankRow(), sorted, c);
    match LastCover(sorted, c)
    case None =>
      forall f | f in row ensures !Covers(f, c) {
        assert f in sorted;
      }
    case Some(k) =>
      var w := sorted[k];
      assert w in row;
      forall g | g in row && Covers(g, c) && g != w ensures KeyLess(g, w) {
        assert g in sorted;
        var j :| 0 <= j < |sorted| && sorted[j] == g;
        assert j < k;
        assert !KeyLess(w, g);
      }
      assert IsWinner(row, w, c);
      forall f | IsWinner(row, f, c) ensures f == w {
        assert f != w ==> KeyLess(f, w);
        assert f != w ==> KeyLess(w, f);
      }
  }

  /** `flush` leaves every row sorted by the comparator. */
  function SortLines(sc: Screen): (r: Screen)
    ensures |r.lines| == |sc.lines|
    ensures r.line == sc.line && r.column == sc.column && r.priority == sc.priority
    ensures r.foreground == sc.foreground && r.background == sc.background
    ensures forall i :: 0 <= i < |r.lines| ==> Sorted(r.lines[i])
    ensures forall i :: 0 <= i < |r.lines| ==> multiset(r.lines[i]) == multiset(sc.lines[i])
  {
    forall i | 0 <= i < |sc.lines| ensures Sorted(SortByKey(sc.lines[i]))
      && multiset(SortByKey(sc.lines[i])) == multiset(sc.lines[i]) {
      SortSorted(sc.lines[i]);
      SortMultiset(sc.lines[i]);
    }
    sc.(lines := seq(|sc.lines|, i requires 0 <= i < |sc.lines| => SortByKey(sc.lines[i])))
  }

  lemma SortLinesPreservesValid(sc: Screen)
    requires ScreenValid(sc)
    ensures ScreenValid(SortLines(sc))
    ensures AllFit(sc) ==> AllFit(SortLines(sc))
  {
    var r := SortLines(sc);
    forall i, f | 0 <= i < |r.lines| ensures f in r.lines[i] <==> f in sc.lines[i] {
      assert f in r.lines[i] <==> f in multiset(r.lines[i]);
      assert f in sc.lines[i] <==> f in multiset(sc.lines[i]);
    }
  }

  /**
   * A second `flush` with no write in between sorts nothing and draws the same
   * frame; the caret is the cursor both times.
   */
  lemma FlushTwice(sc: Screen)
    requires AllFit(sc) && ScreenValid(sc)
    ensures SortLines(SortLines(sc)) == SortLines(sc)
    ensures AllFit(SortLines(sc))
    ensures Render(SortLines(sc)) == Render(sc)
    ensures Render(sc).caret == Caret(sc.line, sc.column, White)
  {
    var s1 := SortLines(sc);
    SortLinesPreservesValid(sc);
    forall i | 0 <= i < |s1.lines| ensures SortByKey(s1.lines[i]) == s1.lines[i] {
      SortOfSorted(s1.lines[i]);
    }
    assert SortLines(s1).lines == s1.lines;
    forall i | 0 <= i < |sc.lines| ensures RenderRow(s1.lines[i]) == RenderRow(sc.lines[i]) {
      SortOfSorted(s1.lines[i]);
    }
  }
}
