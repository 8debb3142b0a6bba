/**
 * The multiplexing-table reader of `examples/test.py` (`process_multiplexing_table`): the
 * 4.5 pt spans of a page are merged left to right into cells, the cells are grouped into rows by
 * their vertical centres, and every row after the first is split around the cell that sits in
 * the pin-name column.
 *
 * The loops work on `Line` objects as the script does; what they compute is stated over the
 * spans: a cell is the index of the span that opened it and the indices linked into it.
 */
module Multiplexing {
  import opened Wrappers
  import opened Numbers
  import opened Geometry
  import opened PyText
  import opened Clustering
  import opened PdfPage
  import opened Merging

  /** `filter_lines(size=4.5)`, in tenths of a point. */
  const TableFontSize := 45
  /** `enlarge(10)`: both boxes grow by this before the overlap test. */
  const MergeMargin := 10
  /** Spans whose x centres differ by less than this share a cell. */
  const CentreTolerance := 10
  /** `Page.to_scaled(126)` and `Page.to_scaled(4.5)`: the pin-name column and its half-width. */
  const PinColumn := 1260
  const PinTolerance := 45

  /** The separator the cell text puts between a span and its siblings. */
  const CellSeparator := " // "

  // ---------------------------------------------------------------------------------------------
  // Merging spans into cells

  /** The spans at some indices, in order. */
  function SpansAt(spans: seq<Span>, idx: seq<nat>): (r: seq<Span>)
    requires forall k :: 0 <= k < |idx| ==> idx[k] < |spans|
    ensures |r| == |idx|
  {
    seq(|idx|, k requires 0 <= k < |idx| => spans[idx[k]])
  }

  /** `siblings_bbox` of a cell's first span: its bbox grown by every member's. */
  function CellHull(spans: seq<Span>, c: Cell): Box
    requires CellIn(c, |spans|)
  {
    Hull(spans[c.head].bbox, Boxes(SpansAt(spans, c.members)))
  }

  /**
   * The two merge tests against the current cell: its enlarged hull overlaps the span's
   * enlarged bbox, or else the plain x centres are less than 10 apart.
   */
  predicate Joins(spans: seq<Span>, c: Cell, j: nat)
    requires CellIn(c, |spans|) && j < |spans|
  {
    || CellHull(spans, c).Enlarge(MergeMargin).Intersects(spans[j].bbox.Enlarge(MergeMargin))
    || Abs(spans[j].CenterX() - spans[c.head].CenterX()) < CentreTolerance
  }

  /** The merge test of the script as the fold's join test: both indices in range, and `Joins`. */
  function JoinTest(spans: seq<Span>): (Cell, nat) -> bool {
    (c: Cell, j: nat) => CellIn(c, |spans|) && j < |spans| && Joins(spans, c, j)
  }

  /** The cells the merge makes of the first `n` spans. */
  function CellsOf(spans: seq<Span>, n: nat): (cells: seq<Cell>)
    requires n <= |spans|
    ensures AllIn(cells, |spans|)
  {
    var cells := Merged(n, JoinTest(spans));
    assert forall i :: 0 <= i < |cells| ==> CellIn(cells[i], |spans|);
    cells
  }

  // ---------------------------------------------------------------------------------------------
  // What the later loops read of a cell

  /** What the rows and the classification read of a cell: text, x centre, inclusive y centre, size. */
  datatype View = View(text: string, cx: int, cy: int, size: int)

  function SpanText(x: Span): string { x.text }

  function ViewText(v: View): string { v.text }

  /** The texts of a run of spans or cells, in order. */
  function Texts<T>(xs: seq<T>, text: T -> string): (r: seq<string>)
    ensures |r| == |xs|
    ensures forall i :: 0 <= i < |xs| ==> r[i] == text(xs[i])
  {
    seq(|xs|, i requires 0 <= i < |xs| => text(xs[i]))
  }

  /** `line.text`, then `' // '` and the siblings' texts joined with `' // '` when there are any. */
  function TextWith(own: string, siblings: seq<Span>): string {
    if siblings != [] then own + CellSeparator + Join(CellSeparator, Texts(siblings, SpanText)) else own
  }

  /** The cell text is all its spans' texts joined with `' // '`. */
  lemma CellTextJoined(own: string, siblings: seq<Span>)
    ensures TextWith(own, siblings) == Join(CellSeparator, [own] + Texts(siblings, SpanText))
  {
    var parts := [own] + Texts(siblings, SpanText);
    assert parts[0] == own;
    assert parts[1..] == Texts(siblings, SpanText);
  }

  /** The view of a cell of the model. */
  function CellView(spans: seq<Span>, c: Cell): View
    requires CellIn(c, |spans|)
  {
    var head := spans[c.head];
    View(TextWith(head.text, SpansAt(spans, c.members)), head.CenterX(),
         if c.members != [] then CellHull(spans, c).CenterY() else head.CenterY(), head.size)
  }

  function CellViews(spans: seq<Span>, cells: seq<Cell>): (r: seq<View>)
    requires forall i :: 0 <= i < |cells| ==> CellIn(cells[i], |spans|)
    ensures |r| == |cells| && forall i :: 0 <= i < |cells| ==> r[i] == CellView(spans, cells[i])
  {
    seq(|cells|, i requires 0 <= i < |cells| && CellIn(cells[i], |spans|) => CellView(spans, cells[i]))
  }

  /** The view of a `Line` object: its text with the siblings', `center_x`, `center_y_inclusive`, `size`. */
  function ViewOf(line: Line): View
    reads line
  {
    View(TextWith(line.span.text, SpansOf(line.siblings)), line.span.CenterX(), line.CenterYInclusive(), line.span.size)
  }

  function Views(lines: seq<Line>): (r: seq<View>)
    reads lines
    ensures |r| == |lines|
  {
    if lines == [] then [] else Views(lines[..|lines| - 1]) + [ViewOf(lines[|lines| - 1])]
  }

  /** The views of some lines are their views one by one. */
  lemma {:induction false} ViewsAt(lines: seq<Line>, i: nat)
    requires i < |lines|
    ensures Views(lines)[i] == ViewOf(lines[i])
  {
    var n := |lines| - 1;
    if i < n {
      ViewsAt(lines[..n], i);
    }
  }

  /** The `Line` object `line` is the cell `c` of the model: same first span, same sibling spans. */
  predicate Holds(line: Line, spans: seq<Span>, c: Cell)
    reads line
  {
    CellIn(c, |spans|) && line.span == spans[c.head] && SpansOf(line.siblings) == SpansAt(spans, c.members)
  }

  /** An object that holds a cell has the cell's view. */
  lemma HoldsView(line: Line, spans: seq<Span>, c: Cell)
    requires Holds(line, spans, c)
    ensures ViewOf(line) == CellView(spans, c)
  {
  }

  /**
   * The merge loop: `previous_line` is the last cell; a span is linked into it when the
   * enlarged boxes overlap or else the x centres are close, and opens a new cell otherwise.
   * Every cell is its own `Line` object.
   */
  method MergeCells(spans: seq<Span>) returns (cells: seq<Line>)
    ensures |cells| == |CellsOf(spans, |spans|)|
    ensures forall k :: 0 <= k < |cells| ==> Holds(cells[k], spans, CellsOf(spans, |spans|)[k])
    ensures forall a, b :: 0 <= a < b < |cells| ==> cells[a] != cells[b]
  {
    cells := [];
    var previous: Line? := null;
    for i := 0 to |spans|
      invariant |cells| == |CellsOf(spans, i)|
      invariant forall k :: 0 <= k < |cells| ==> Holds(cells[k], spans, CellsOf(spans, i)[k])
      invariant forall a, b :: 0 <= a < b < |cells| ==> cells[a] != cells[b]
      invariant previous == if cells == [] then null else cells[|cells| - 1]
      invariant previous != null ==> fresh(previous)
    {
      cells, previous := Feed(cells, previous, spans, i);
    }
  }

  /** One pass of the merge loop: the span becomes a `Line` that opens a cell or is linked into the last. */
  method Feed(cells: seq<Line>, previous: Line?, spans: seq<Span>, i: nat) returns (cells': seq<Line>, previous': Line)
    requires i < |spans|
    requires |cells| == |CellsOf(spans, i)|
    requires forall k :: 0 <= k < |cells| ==> Holds(cells[k], spans, CellsOf(spans, i)[k])
    requires forall k :: 0 <= k < |cells| - 1 ==> cells[k] != cells[|cells| - 1]
    requires previous == if cells == [] then null else cells[|cells| - 1]
    modifies previous
    ensures |cells'| == |CellsOf(spans, i + 1)|
    ensures forall k :: 0 <= k < |cells'| ==> Holds(cells'[k], spans, CellsOf(spans, i + 1)[k])
    ensures forall k :: 0 <= k < |cells'| - 1 ==> cells'[k] != cells'[|cells'| - 1]
    ensures previous' == cells'[|cells'| - 1]
    ensures cells' == cells || (cells' == cells + [previous'] && fresh(previous'))
  {
    var line := new Line(spans[i]);
    if previous == null {
      cells' := Open(cells, line, spans, i);
    } else {
      cells' := Place(cells, previous, line, spans, i);
    }
    previous' := cells'[|cells'| - 1];
  }

  /** The two merge tests against `previous_line`, then `link` or `new_lines.append`. */
  method Place(cells: seq<Line>, previous: Line, line: Line, ghost spans: seq<Span>, ghost i: nat)
    returns (cells': seq<Line>)
    requires i < |spans| && line.span == spans[i] && line.siblings == []
    requires |cells| == |CellsOf(spans, i)| && cells != [] && previous == cells[|cells| - 1]
    requires forall k :: 0 <= k < |cells| ==> Holds(cells[k], spans, CellsOf(spans, i)[k])
    requires forall k :: 0 <= k < |cells| - 1 ==> cells[k] != previous
    modifies previous
    ensures cells' == cells || cells' == cells + [line]
    ensures |cells'| == |CellsOf(spans, i + 1)|
    ensures forall k :: 0 <= k < |cells'| ==> Holds(cells'[k], spans, CellsOf(spans, i + 1)[k])
  {
    var bbox := previous.SiblingsBbox();
    ghost var m := CellsOf(spans, i);
    assert bbox == CellHull(spans, m[|m| - 1]);
    if bbox.Enlarge(MergeMargin).Intersects(line.span.bbox.Enlarge(MergeMargin)) {
      Absorb(cells, previous, line, spans, i);
      cells' := cells;
    } else if Abs(line.span.CenterX() - previous.span.CenterX()) < CentreTolerance {
      Absorb(cells, previous, line, spans, i);
      cells' := cells;
    } else {
      cells' := Open(cells, line, spans, i);
    }
  }

  /** The fold opens a cell for span `i` when there is none or it fails both tests. */
  lemma CellsOpen(spans: seq<Span>, i: nat)
    requires i < |spans|
    requires var m := CellsOf(spans, i); m == [] || !Joins(spans, m[|m| - 1], i)
    ensures CellsOf(spans, i + 1) == CellsOf(spans, i) + [Cell(i, [])]
  {
  }

  /** The fold links span `i` into the last cell when it passes a test. */
  lemma CellsJoin(spans: seq<Span>, i: nat)
    requires i < |spans|
    requires var m := CellsOf(spans, i); m != [] && Joins(spans, m[|m| - 1], i)
    ensures var m, last := CellsOf(spans, i), CellsOf(spans, i)[|CellsOf(spans, i)| - 1];
      CellsOf(spans, i + 1) == m[..|m| - 1] + [last.(members := last.members + [i])]
  {
  }

  /** `new_lines.append(line)`: the new object holds the new cell. */
  method Open(cells: seq<Line>, line: Line, ghost spans: seq<Span>, ghost i: nat) returns (cells': seq<Line>)
    requires i < |spans| && line.span == spans[i] && line.siblings == []
    requires |cells| == |CellsOf(spans, i)|
    requires forall k :: 0 <= k < |cells| ==> Holds(cells[k], spans, CellsOf(spans, i)[k])
    requires var m := CellsOf(spans, i); m == [] || !Joins(spans, m[|m| - 1], i)
    ensures cells' == cells + [line]
    ensures |cells'| == |CellsOf(spans, i + 1)|
    ensures forall k :: 0 <= k < |cells'| ==> Holds(cells'[k], spans, CellsOf(spans, i + 1)[k])
  {
    CellsOpen(spans, i);
    cells' := cells + [line];
    assert SpansOf(line.siblings) == SpansAt(spans, []);
    forall k | 0 <= k < |cells'|
      ensures Holds(cells'[k], spans, CellsOf(spans, i + 1)[k])
    {
      if k < |cells| {
        assert cells'[k] == cells[k] && CellsOf(spans, i + 1)[k] == CellsOf(spans, i)[k];
      }
    }
  }

  /** `previous_line.link(line)` where the span joins the last cell. */
  method Absorb(cells: seq<Line>, previous: Line, line: Line, ghost spans: seq<Span>, ghost i: nat)
    requires i < |spans| && line.span == spans[i]
    requires |cells| == |CellsOf(spans, i)| && cells != [] && previous == cells[|cells| - 1]
    requires forall k :: 0 <= k < |cells| ==> Holds(cells[k], spans, CellsOf(spans, i)[k])
    requires forall k :: 0 <= k < |cells| - 1 ==> cells[k] != previous
    requires Joins(spans, CellsOf(spans, i)[|cells| - 1], i)
    modifies previous
    ensures |cells| == |CellsOf(spans, i + 1)|
    ensures forall k :: 0 <= k < |cells| ==> Holds(cells[k], spans, CellsOf(spans, i + 1)[k])
  {
    ghost var m := CellsOf(spans, i);
    ghost var last := m[|m| - 1];
    ghost var m' := CellsOf(spans, i + 1);
    CellsJoin(spans, i);
    previous.Link(line);
    assert SpansOf(previous.siblings) == SpansOf(old(previous.siblings)) + [spans[i]];
    assert SpansAt(spans, last.members + [i]) == SpansAt(spans, last.members) + [spans[i]];
    forall k | 0 <= k < |cells| - 1
      ensures Holds(cells[k], spans, m'[k])
    {
      assert cells[k] != previous;
      assert m'[k] == m[k];
    }
  }

  // ---------------------------------------------------------------------------------------------
  // Rows

  /** Cell `i` opens a row: it is the first, or its `center_y_inclusive` is at least the previous size away. */
  function Starts(vs: seq<View>): (s: seq<bool>)
    ensures |s| == |vs|
  {
    seq(|vs|, i requires 0 <= i < |vs| => i == 0 || !Close(vs[i], vs[i - 1]))
  }

  /** A cell is in the row of the cell before when their inclusive y centres are less than the earlier one's size apart. */
  predicate Close(v: View, previous: View) {
    Abs(v.cy - previous.cy) < previous.size
  }

  /** The first cell opens a row; a later one does exactly when it is a previous size away or more. */
  lemma StartsAt(vs: seq<View>, i: nat)
    requires i < |vs|
    ensures Starts(vs)[i] <==> i == 0 || Abs(vs[i].cy - vs[i - 1].cy) >= vs[i - 1].size
  {
  }

  /** A whole prefix is the sequence itself. */
  lemma WholePrefix<T>(a: seq<T>)
    ensures a[..|a|] == a
  {
  }

  /** The rows loop: each item opens a row where `starts` says so, else joins the last row. */
  function Rows<T>(items: seq<T>, starts: seq<bool>): (rows: seq<seq<T>>)
    requires |starts| == |items|
    ensures items != [] ==> rows != []
    ensures forall r :: 0 <= r < |rows| ==> rows[r] != []
  {
    if items == [] then []
    else
      var rows := Rows(items[..|items| - 1], starts[..|items| - 1]);
      if rows == [] || starts[|items| - 1] then rows + [[items[|items| - 1]]]
      else rows[..|rows| - 1] + [rows[|rows| - 1] + [items[|items| - 1]]]
  }

  function Flatten<T>(rows: seq<seq<T>>): seq<T> {
    if rows == [] then [] else Flatten(rows[..|rows| - 1]) + rows[|rows| - 1]
  }

  /** `false` `n` times. */
  function Falses(n: nat): (r: seq<bool>)
    ensures |r| == n && forall i :: 0 <= i < n ==> !r[i]
  {
    seq(n, i => false)
  }

  /** Where the rows begin: `true` at each row's first item, `false` at the others. */
  function Marks<T>(rows: seq<seq<T>>): seq<bool> {
    if rows == [] then [] else Marks(rows[..|rows| - 1]) + RowMarks(rows[|rows| - 1])
  }

  function RowMarks<T>(row: seq<T>): seq<bool> {
    if row == [] then [] else [true] + Falses(|row| - 1)
  }

  /**
   * Row assembly cuts the items into rows (non-empty, as `Rows` ensures) whose concatenation is
   * the items, a row beginning exactly at the first item and at every later item `starts` marks.
   */
  lemma {:induction false} RowsShape<T>(items: seq<T>, starts: seq<bool>)
    requires |starts| == |items|
    ensures var rows := Rows(items, starts);
      && Flatten(rows) == items
      && Marks(rows) == (if items == [] then [] else [true] + starts[1..])
  {
    RowsFlatten(items, starts);
    RowsMarks(items, starts);
  }

  lemma {:induction false} RowsFlatten<T>(items: seq<T>, starts: seq<bool>)
    requires |starts| == |items|
    ensures Flatten(Rows(items, starts)) == items
  {
    if items != [] {
      var n := |items| - 1;
      var init, s := items[..n], starts[..n];
      RowsFlatten(init, s);
      var rows := Rows(init, s);
      var x := items[n];
      assert init + [x] == items;
      if rows == [] || starts[n] {
        ShapeOpen(rows, x);
      } else {
        ShapeExtend(rows, x);
      }
    }
  }

  lemma {:induction false} RowsMarks<T>(items: seq<T>, starts: seq<bool>)
    requires |starts| == |items|
    ensures Marks(Rows(items, starts)) == (if items == [] then [] else [true] + starts[1..])
  {
    if items != [] {
      var n := |items| - 1;
      var init, s := items[..n], starts[..n];
      RowsMarks(init, s);
      var rows := Rows(init, s);
      var x := items[n];
      if rows == [] {
        ShapeOpen(rows, x);
      } else {
        TailSnoc(starts, n);
        if starts[n] {
          assert Rows(items, starts) == rows + [[x]];
          ShapeOpen(rows, x);
        } else {
          assert Rows(items, starts) == rows[..|rows| - 1] + [rows[|rows| - 1] + [x]];
          ShapeExtend(rows, x);
        }
      }
    }
  }

  lemma TailSnoc(starts: seq<bool>, n: nat)
    requires 0 < n && n + 1 == |starts|
    ensures [true] + starts[..n][1..] + [starts[n]] == [true] + starts[1..]
  {
    assert starts[..n][1..] + [starts[n]] == starts[1..];
  }

  /** A new one-item row adds the item and a row start. */
  lemma ShapeOpen<T>(rows: seq<seq<T>>, x: T)
    ensures Flatten(rows + [[x]]) == Flatten(rows) + [x]
    ensures Marks(rows + [[x]]) == Marks(rows) + [true]
  {
    assert (rows + [[x]])[..|rows|] == rows;
    assert Falses(0) == [];
  }

  /** An item appended to the last row adds the item and no row start. */
  lemma ShapeExtend<T>(rows: seq<seq<T>>, x: T)
    requires rows != [] && rows[|rows| - 1] != []
    ensures var r := rows[..|rows| - 1] + [rows[|rows| - 1] + [x]];
      Flatten(r) == Flatten(rows) + [x] && Marks(r) == Marks(rows) + [false]
  {
    var init, last := rows[..|rows| - 1], rows[|rows| - 1];
    var r := init + [last + [x]];
    assert r[..|init|] == init;
    assert Flatten(r) == Flatten(init) + (last + [x]);
    assert Falses(|last + [x]| - 1) == Falses(|last| - 1) + [false];
    assert RowMarks(last + [x]) == RowMarks(last) + [false];
  }

  /** The views of every row. */
  function ViewRows(rows: seq<seq<Line>>): (r: seq<seq<View>>)
    reads set k, j | 0 <= k < |rows| && 0 <= j < |rows[k]| :: rows[k][j]
    ensures |r| == |rows| && forall k :: 0 <= k < |rows| ==> r[k] == Views(rows[k])
  {
    if rows == [] then [] else ViewRows(rows[..|rows| - 1]) + [Views(rows[|rows| - 1])]
  }

  /** The rows loop over the cells: `rows[-1].append(line)` or `rows.append([line])`. */
  method AssembleRows(cells: seq<Line>) returns (rows: seq<seq<Line>>)
    ensures rows == Rows(cells, Starts(Views(cells)))
  {
    rows := [];
    var previous: Line? := null;
    for i := 0 to |cells|
      invariant rows == Rows(cells[..i], Starts(Views(cells))[..i])
      invariant previous == if i == 0 then null else cells[i - 1]
    {
      var line := cells[i];
      if previous != null && Near(line, previous) {
        JoinStep(cells, i);
        rows := rows[..|rows| - 1] + [rows[|rows| - 1] + [line]];
      } else {
        OpenStep(cells, i);
        rows := rows + [[line]];
      }
      previous := line;
    }
    WholePrefix(cells);
    WholePrefix(Starts(Views(cells)));
  }

  /** `abs(line.center_y_inclusive - previous_line.center_y_inclusive) < previous_line.size`. */
  predicate Near(line: Line, previous: Line)
    reads line, previous
  {
    Close(ViewOf(line), ViewOf(previous))
  }

  /** A cell close enough to the previous one joins the previous cell's row. */
  lemma JoinStep(cells: seq<Line>, i: nat)
    requires 0 < i < |cells|
    requires Near(cells[i], cells[i - 1])
    ensures var s := Starts(Views(cells));
      var rows := Rows(cells[..i], s[..i]);
      rows != [] && Rows(cells[..i + 1], s[..i + 1]) == rows[..|rows| - 1] + [rows[|rows| - 1] + [cells[i]]]
  {
    NearNoStart(cells, i);
    RowsJoin(cells, Starts(Views(cells)), i);
  }

  lemma NearNoStart(cells: seq<Line>, i: nat)
    requires 0 < i < |cells|
    requires Near(cells[i], cells[i - 1])
    ensures !Starts(Views(cells))[i]
  {
    ViewsAt(cells, i);
    ViewsAt(cells, i - 1);
    StartsAt(Views(cells), i);
  }

  /** The first cell, and a cell far enough from the previous one, opens a row. */
  lemma OpenStep(cells: seq<Line>, i: nat)
    requires i < |cells|
    requires i > 0 ==> !Near(cells[i], cells[i - 1])
    ensures var s := Starts(Views(cells));
      Rows(cells[..i + 1], s[..i + 1]) == Rows(cells[..i], s[..i]) + [[cells[i]]]
  {
    StartsAt(Views(cells), i);
    if i > 0 {
      ViewsAt(cells, i);
      ViewsAt(cells, i - 1);
    }
    RowsOpen(cells, Starts(Views(cells)), i);
  }

  /** Reading the views row by row gives the rows of the views. */
  lemma {:induction false} RowsViews(cells: seq<Line>, starts: seq<bool>)
    requires |starts| == |cells|
    ensures ViewRows(Rows(cells, starts)) == Rows(Views(cells), starts)
  {
    if cells != [] {
      var n := |cells| - 1;
      RowsViews(cells[..n], starts[..n]);
      var rows := Rows(cells[..n], starts[..n]);
      assert Views(cells[..n]) == Views(cells)[..n];
      WholePrefix(cells);
      WholePrefix(starts);
      if rows == [] || starts[n] {
        RowsOpen(cells, starts, n);
        RowsOpen(Views(cells), starts, n);
        ViewRowsOpen(rows, cells[n]);
      } else {
        RowsJoin(cells, starts, n);
        RowsJoin(Views(cells), starts, n);
        ViewRowsExtend(rows, cells[n]);
      }
    }
  }

  /** An item that opens a row adds a one-item row. */
  lemma RowsOpen<T>(items: seq<T>, starts: seq<bool>, i: nat)
    requires |starts| == |items| && i < |items|
    requires starts[i] || i == 0
    ensures Rows(items[..i + 1], starts[..i + 1]) == Rows(items[..i], starts[..i]) + [[items[i]]]
  {
    assert items[..i + 1][..i] == items[..i] && starts[..i + 1][..i] == starts[..i];
  }

  /** An item that does not open a row is appended to the last row. */
  lemma RowsJoin<T>(items: seq<T>, starts: seq<bool>, i: nat)
    requires |starts| == |items| && 0 < i < |items|
    requires !starts[i]
    ensures var rows := Rows(items[..i], starts[..i]);
      rows != [] && Rows(items[..i + 1], starts[..i + 1]) == rows[..|rows| - 1] + [rows[|rows| - 1] + [items[i]]]
  {
    assert items[..i + 1][..i] == items[..i] && starts[..i + 1][..i] == starts[..i];
  }

  lemma ViewRowsOpen(rows: seq<seq<Line>>, line: Line)
    ensures ViewRows(rows + [[line]]) == ViewRows(rows) + [[ViewOf(line)]]
  {
    assert (rows + [[line]])[..|rows|] == rows;
    assert Views([line]) == [ViewOf(line)];
  }

  lemma ViewRowsExtend(rows: seq<seq<Line>>, line: Line)
    requires rows != []
    ensures var init, last := rows[..|rows| - 1], rows[|rows| - 1];
      ViewRows(init + [last + [line]]) == ViewRows(init) + [Views(last) + [ViewOf(line)]]
  {
    var init, last := rows[..|rows| - 1], rows[|rows| - 1];
    assert (init + [last + [line]])[..|init|] == init;
    assert (last + [line])[..|last|] == last;
  }

  // ---------------------------------------------------------------------------------------------
  // Classification

  /** What one row prints: the pin numbers, the pin name (if a cell sits in its column) and the I/Os. */
  datatype Classification = Classification(pinNumbers: seq<string>, pinName: Option<string>, ios: seq<string>)

  /** `abs(line.center_x - Page.to_scaled(126)) < Page.to_scaled(4.5)`. */
  predicate InPinColumn(v: View) {
    Abs(v.cx - PinColumn) < PinTolerance
  }

  /** The first cell in the pin-name column, or the row length when there is none. */
  function FirstPin(vs: seq<View>): (p: nat)
    ensures p <= |vs|
    ensures p < |vs| ==> InPinColumn(vs[p])
    ensures forall k :: 0 <= k < p ==> !InPinColumn(vs[k])
  {
    if vs == [] then 0
    else if InPinColumn(vs[0]) then 0
    else
      var p := FirstPin(vs[1..]);
      assert forall k :: 1 <= k < 1 + p ==> vs[k] == vs[1..][k - 1];
      1 + p
  }

  /** The split of one row around its first cell in the pin-name column. */
  function Classify(vs: seq<View>): Classification {
    var p, texts := FirstPin(vs), Texts(vs, ViewText);
    if p < |vs| then Classification(texts[..p], Some(texts[p]), texts[p + 1..])
    else Classification(texts, None, [])
  }

  /**
   * Every cell text lands in exactly one place, in order: the pin numbers, then the pin name,
   * then the I/Os. The name is missing exactly when no cell is in the column, and it is the
   * first cell that is.
   */
  lemma ClassifyPartition(vs: seq<View>)
    ensures var c := Classify(vs);
      && c.pinNumbers + (if c.pinName.Some? then [c.pinName.value] else []) + c.ios == Texts(vs, ViewText)
      && (c.pinName.None? <==> forall k :: 0 <= k < |vs| ==> !InPinColumn(vs[k]))
      && (c.pinName.Some? ==> InPinColumn(vs[|c.pinNumbers|]))
      && (forall k :: 0 <= k < |c.pinNumbers| ==> !InPinColumn(vs[k]))
  {
    var p, texts := FirstPin(vs), Texts(vs, ViewText);
    if p < |vs| {
      assert texts[..p] + [texts[p]] + texts[p + 1..] == texts;
    } else {
      assert texts + [] == texts;
    }
  }

  /** The first pin-column cell is `p` when `p` is in the column (or the end) and nothing before it is. */
  lemma FirstPinIs(vs: seq<View>, p: nat)
    requires p <= |vs| && (p < |vs| ==> InPinColumn(vs[p]))
    requires forall k :: 0 <= k < p ==> !InPinColumn(vs[k])
    ensures FirstPin(vs) == p
  {
  }

  /** One more cell: it is the first in the pin-name column when none before it was and it is. */
  lemma FirstPinSnoc(vs: seq<View>, i: nat)
    requires i < |vs|
    ensures var p := FirstPin(vs[..i]);
      FirstPin(vs[..i + 1]) == if p < i then p else if InPinColumn(vs[i]) then i else i + 1
  {
    var p := FirstPin(vs[..i]);
    var w := vs[..i + 1];
    assert forall k :: 0 <= k < i ==> w[k] == vs[..i][k];
    FirstPinIs(w, if p < i then p else if InPinColumn(vs[i]) then i else i + 1);
  }

  /** The classification of one more cell: a name if none was found and the cell is in the column, else a number or an I/O. */
  lemma ClassifySnoc(vs: seq<View>, i: nat)
    requires i < |vs|
    ensures var c := Classify(vs[..i]);
      Classify(vs[..i + 1])
        == if c.pinName.None? && InPinColumn(vs[i]) then c.(pinName := Some(vs[i].text))
           else if c.pinName.None? then c.(pinNumbers := c.pinNumbers + [vs[i].text])
           else c.(ios := c.ios + [vs[i].text])
  {
    FirstPinSnoc(vs, i);
    var p := FirstPin(vs[..i]);
    var t, t' := Texts(vs[..i], ViewText), Texts(vs[..i + 1], ViewText);
    assert t' == t + [vs[i].text];
    if p < i {
      assert t'[..p] == t[..p] && t'[p] == t[p];
      assert t'[p + 1..] == t[p + 1..] + [vs[i].text];
    } else {
      assert t[..p] == t;
      assert t'[..i] == t;
    }
  }

  /** `ClassifySnoc` on the row's objects: the text and the x centre the loop reads. */
  lemma RowStep(row: seq<Line>, i: nat)
    requires i < |row|
    ensures var c, line := Classify(Views(row)[..i]), row[i];
      var text := TextWith(line.span.text, SpansOf(line.siblings));
      Classify(Views(row)[..i + 1])
        == if c.pinName.None? && Abs(line.span.CenterX() - PinColumn) < PinTolerance then c.(pinName := Some(text))
           else if c.pinName.None? then c.(pinNumbers := c.pinNumbers + [text])
           else c.(ios := c.ios + [text])
  {
    ClassifySnoc(Views(row), i);
    ViewsAt(row, i);
  }

  /** The classification loop: before the first pin-column cell, that cell, after it. */
  method ClassifyRow(row: seq<Line>) returns (c: Classification)
    ensures c == Classify(Views(row))
  {
    var pinNumbers: seq<string> := [];
    var pinName: Option<string> := None;
    var ios: seq<string> := [];
    var pin := false;
    for i := 0 to |row|
      invariant Classification(pinNumbers, pinName, ios) == Classify(Views(row)[..i])
      invariant pin == pinName.Some?
    {
      pinNumbers, pinName, ios, pin := Visit(row, i, pinNumbers, pinName, ios, pin);
    }
    WholePrefix(Views(row));
    return Classification(pinNumbers, pinName, ios);
  }

  /** One cell of the row: the pin name when none was found and it sits in the column, else a number or an I/O. */
  method Visit(row: seq<Line>, i: nat, pinNumbers: seq<string>, pinName: Option<string>, ios: seq<string>, pin: bool)
    returns (pinNumbers': seq<string>, pinName': Option<string>, ios': seq<string>, pin': bool)
    requires i < |row|
    requires Classification(pinNumbers, pinName, ios) == Classify(Views(row)[..i])
    requires pin == pinName.Some?
    ensures Classification(pinNumbers', pinName', ios') == Classify(Views(row)[..i + 1])
    ensures pin' == pinName'.Some?
  {
    var line := row[i];
    var text := TextWith(line.span.text, SpansOf(line.siblings));
    RowStep(row, i);
    pinNumbers', pinName', ios', pin' := pinNumbers, pinName, ios, pin;
    if !pin && Abs(line.span.CenterX() - PinColumn) < PinTolerance {
      pinName' := Some(text);
      pin' := true;
    } else if !pin {
      pinNumbers' := pinNumbers + [text];
    } else {
      ios' := ios + [text];
    }
  }

  // ---------------------------------------------------------------------------------------------
  // The whole table

  /** Every row after the first, classified. */
  function ClassifyAll(rows: seq<seq<View>>): (r: seq<Classification>)
    ensures |r| == |rows| && forall i :: 0 <= i < |rows| ==> r[i] == Classify(rows[i])
  {
    seq(|rows|, i requires 0 <= i < |rows| => Classify(rows[i]))
  }

  /** What the script prints for the table spans (the ones of size 4.5), row by row after the header. */
  function Table(spans: seq<Span>): seq<Classification> {
    var vs := CellViews(spans, CellsOf(spans, |spans|));
    var rows := Rows(vs, Starts(vs));
    ClassifyAll(if rows == [] then [] else rows[1..])
  }

  function MultiplexingTable(blocks: seq<RawBlock>): Result<seq<Classification>> {
    var g := PageLines(blocks);
    if g.error.Some? then Failure(g.error.value)
    else Success(Table(Select(g.items, SizeIs(TableFontSize))))
  }

  /** The cells the merge loop returns have the views of the model's cells. */
  lemma MergedViews(cells: seq<Line>, spans: seq<Span>)
    requires |cells| == |CellsOf(spans, |spans|)|
    requires forall k :: 0 <= k < |cells| ==> Holds(cells[k], spans, CellsOf(spans, |spans|)[k])
    ensures Views(cells) == CellViews(spans, CellsOf(spans, |spans|))
  {
    forall k | 0 <= k < |cells|
      ensures Views(cells)[k] == CellViews(spans, CellsOf(spans, |spans|))[k]
    {
      ViewsAt(cells, k);
      HoldsView(cells[k], spans, CellsOf(spans, |spans|)[k]);
    }
  }

  /** The rows a table's cells make, after the first, classified: what `Table` computes. */
  lemma {:induction false} TableOf(spans: seq<Span>, cells: seq<Line>, rows: seq<seq<Line>>)
    requires |cells| == |CellsOf(spans, |spans|)|
    requires forall k :: 0 <= k < |cells| ==> Holds(cells[k], spans, CellsOf(spans, |spans|)[k])
    requires rows == Rows(cells, Starts(Views(cells)))
    ensures Table(spans) == ClassifyAll(ViewRows(if rows == [] then [] else rows[1..]))
  {
    MergedViews(cells, spans);
    RowsViews(cells, Starts(Views(cells)));
    if rows != [] {
      ViewRowsTail(rows);
    }
  }

  lemma ViewRowsTail(rows: seq<seq<Line>>)
    requires rows != []
    ensures ViewRows(rows[1..]) == ViewRows(rows)[1..]
  {
  }

  /** The printing loop: every row, classified in turn. */
  method ClassifyRows(rows: seq<seq<Line>>) returns (table: seq<Classification>)
    ensures table == ClassifyAll(ViewRows(rows))
  {
    ghost var views := ViewRows(rows);
    table := [];
    for i := 0 to |rows|
      invariant table == ClassifyAll(views[..i])
    {
      var c := ClassifyRow(rows[i]);
      ClassifyAllSnoc(views, i);
      table := table + [c];
    }
    WholePrefix(views);
  }

  lemma ClassifyAllSnoc(views: seq<seq<View>>, i: nat)
    requires i < |views|
    ensures ClassifyAll(views[..i + 1]) == ClassifyAll(views[..i]) + [Classify(views[i])]
  {
  }

  /**
   * `process_multiplexing_table`: merge the 4.5 pt spans into cells, group the cells into rows,
   * classify every row but the first. The result stands for what is printed; an exception of
   * the span stream ends the call before anything is.
   */
  method ProcessMultiplexingTable(blocks: seq<RawBlock>) returns (r: Result<seq<Classification>>)
    ensures r == MultiplexingTable(blocks)
  {
    var spans, error := FilterLines(blocks, Some(TableFontSize));
    if error.Some? {
      return Failure(error.value);
    }
    var table := Tabulate(spans);
    return Success(table);
  }

  /** The body of `process_multiplexing_table` after the spans are read: cells, rows, classification. */
  method Tabulate(spans: seq<Span>) returns (table: seq<Classification>)
    ensures table == Table(spans)
  {
    var cells := MergeCells(spans);
    var rows := AssembleRows(cells);
    table := ClassifyRows(if rows == [] then [] else rows[1..]);
    TableOf(spans, cells, rows);
  }
}
