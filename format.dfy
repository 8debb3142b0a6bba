/**
 * The text reformatters of `dev/format.py`: `format_list`, which turns a bulleted list copied
 * out of a datasheet (one `•` or `–` marker per line, then the item) into dash items, and
 * `table_formater`, which reads a table copied column by column (a blank line, a heading, then
 * one line per cell) and writes it out cell group by cell group.
 *
 * What the functions print is returned: the text `format_list` prints, and the lines
 * `table_formater` prints together with the exception that ends it, if any.
 */
module Format {
  import opened Wrappers
  import opened PyText

  /** The bullet of a first-level item, U+2022. */
  const Bullet: char := '\U{2022}'

  /** The en dash of a second-level item, U+2013. */
  const Dash: char := '\U{2013}'

  // ---------------------------------------------------------------------------------------------
  // format_list

  /** Every line stripped, as the loop strips it before looking at it. */
  function Stripped(lines: seq<string>): (r: seq<string>)
    ensures |r| == |lines|
    ensures forall i :: 0 <= i < |lines| ==> r[i] == Strip(lines[i])
  {
    seq(|lines|, i requires 0 <= i < |lines| => Strip(lines[i]))
  }

  /** What a stripped line adds to `output`: a marker opens an item on a new line, other text is glued on. */
  function ListPiece(s: string, sep: string): string {
    if s == [Bullet] then sep + " - "
    else if s == [Dash] then sep + "  - "
    else s
  }

  /** The text of the stripped lines, every line's piece in order. */
  function ListText(stripped: seq<string>, sep: string): string
    decreases |stripped|
  {
    if stripped == [] then ""
    else ListText(stripped[..|stripped| - 1], sep) + ListPiece(stripped[|stripped| - 1], sep)
  }

  /** `format_list`, with `os.linesep` given as `sep`: the text it prints. */
  method FormatList(text: string, sep: string) returns (output: string)
    ensures output == ListText(Stripped(SplitLines(text)), sep)
  {
    var lines := SplitLines(text);
    ghost var stripped := Stripped(lines);
    output := "";
    for i := 0 to |lines|
      invariant output == ListText(stripped[..i], sep)
    {
      ListTextSnoc(stripped, i, sep);
      var line := Strip(lines[i]);
      if line == [Bullet] {
        output := output + (sep + " - ");
      } else if line == [Dash] {
        output := output + (sep + "  - ");
      } else {
        output := output + line;
      }
    }
    assert stripped[..|lines|] == stripped;
  }

  /** One more line: its piece is appended. */
  lemma ListTextSnoc(stripped: seq<string>, i: nat, sep: string)
    requires i < |stripped|
    ensures ListText(stripped[..i + 1], sep) == ListText(stripped[..i], sep) + ListPiece(stripped[i], sep)
  {
    assert stripped[..i + 1][..i] == stripped[..i];
  }

  /** The lines are handled in order, each on its own: the text of two runs of lines is the two texts. */
  lemma {:induction false} ListTextAppend(a: seq<string>, b: seq<string>, sep: string)
    ensures ListText(a + b, sep) == ListText(a, sep) + ListText(b, sep)
    decreases |b|
  {
    if b != [] {
      var c := a + b;
      var init := b[..|b| - 1];
      var last := ListPiece(b[|b| - 1], sep);
      calc {
        ListText(c, sep);
      == { assert c[..|c| - 1] == a + init && c[|c| - 1] == b[|b| - 1]; }
        ListText(a + init, sep) + last;
      == { ListTextAppend(a, init, sep); }
        ListText(a, sep) + ListText(init, sep) + last;
      ==
        ListText(a, sep) + (ListText(init, sep) + last);
      }
    } else {
      assert a + b == a;
    }
  }

  lemma StrippedAppend(a: seq<string>, b: seq<string>)
    ensures Stripped(a + b) == Stripped(a) + Stripped(b)
  {
  }

  /** An empty stripped line adds nothing. */
  lemma EmptyPieceVanishes(p: seq<string>, q: seq<string>, sep: string)
    ensures ListText(p + [[]] + q, sep) == ListText(p + q, sep)
  {
    var blank: seq<string> := [[]];
    BlankText(sep);
    ListTextAppend(p + blank, q, sep);
    ListTextAppend(p, blank, sep);
    ListTextAppend(p, q, sep);
    assert ListText(p, sep) + ListText(blank, sep) == ListText(p, sep);
  }

  lemma BlankText(sep: string)
    ensures ListText([[]], sep) == ""
  {
    var blank: seq<string> := [[]];
    assert blank[..0] == [];
  }

  /** A blank line adds nothing, wherever it stands. */
  lemma BlankLineVanishes(a: seq<string>, line: string, b: seq<string>, sep: string)
    requires IsBlank(line)
    ensures ListText(Stripped(a + [line] + b), sep) == ListText(Stripped(a + b), sep)
  {
    StrippedAppend(a + [line], b);
    StrippedAppend(a, [line]);
    StrippedAppend(a, b);
    assert Stripped([line]) == [[]];
    EmptyPieceVanishes(Stripped(a), Stripped(b), sep);
  }

  /** Two items, each after its marker, stripped. */
  lemma ItemsText(item: string, sub: string, sep: string)
    requires item != [Bullet] && item != [Dash] && sub != [Bullet] && sub != [Dash]
    ensures ListText([[Bullet], item, [Dash], sub], sep) == (sep + " - ") + item + (sep + "  - ") + sub
  {
    var s := [[Bullet], item, [Dash], sub];
    calc {
      ListText(s, sep);
    == { ListTextSnoc(s, 3, sep); assert s[..4] == s; }
      ListText(s[..3], sep) + sub;
    == { ListTextSnoc(s, 2, sep); }
      ListText(s[..2], sep) + (sep + "  - ") + sub;
    == { ListTextSnoc(s, 1, sep); }
      ListText(s[..1], sep) + item + (sep + "  - ") + sub;
    == { ListTextSnoc(s, 0, sep); assert s[..0] == []; }
      (sep + " - ") + item + (sep + "  - ") + sub;
    }
  }

  /**
   * A marker line starts a new output line: a bullet item and a dash item, each marker then its
   * text, come out as `sep + " - " + item` and `sep + "  - " + item`, the item stripped.
   */
  lemma MarkedItems(bullet: string, item: string, dash: string, sub: string, sep: string)
    requires Strip(bullet) == [Bullet] && Strip(dash) == [Dash]
    requires Strip(item) != [Bullet] && Strip(item) != [Dash]
    requires Strip(sub) != [Bullet] && Strip(sub) != [Dash]
    ensures ListText(Stripped([bullet, item, dash, sub]), sep)
         == (sep + " - ") + Strip(item) + (sep + "  - ") + Strip(sub)
  {
    assert Stripped([bullet, item, dash, sub]) == [[Bullet], Strip(item), [Dash], Strip(sub)];
    ItemsText(Strip(item), Strip(sub), sep);
  }

  // ---------------------------------------------------------------------------------------------
  // table_formater: reading the table

  /** `table_keys` and `table`: the headings in order (repeats included) and each heading's cells. */
  datatype Table = Table(keys: seq<string>, columns: map<string, seq<string>>)

  /** The loop's variables: `new_row` and `key` (`None` while unbound), `table_keys` and `table`. */
  datatype Scan = Scan(newRow: Option<bool>, key: Option<string>, table: Table)

  const Start: Scan := Scan(None, None, Table([], map[]))

  /** The key a heading line gives: `line.strip().lower()`. */
  function KeyOf(line: string): string {
    Lower(Strip(line))
  }

  /** One turn of the loop. */
  function Step(s: Scan, line: string): Result<Scan> {
    if IsBlank(line) then Success(s.(newRow := Some(true)))
    else if s.newRow.None? then Failure(UnboundLocal("new_row"))
    else if s.newRow.value then
      var k := KeyOf(line);
      Success(Scan(Some(false), Some(k), Table(s.table.keys + [k], s.table.columns[k := []])))
    else if s.key.None? then Failure(UnboundLocal("key"))
    else if s.key.value !in s.table.columns then Failure(KeyError)
    else
      var k := s.key.value;
      Success(s.(table := s.table.(columns := s.table.columns[k := s.table.columns[k] + [line]])))
  }

  /** The loop run over `lines` from `r`, stopping at the first exception. */
  function Run(r: Result<Scan>, lines: seq<string>): Result<Scan>
    decreases |lines|
  {
    if lines == [] then r
    else
      match Run(r, lines[..|lines| - 1])
      case Failure(e) => Failure(e)
      case Success(s) => Step(s, lines[|lines| - 1])
  }

  /** Running over two runs of lines is running over the first, then on from there over the second. */
  lemma {:induction false} RunAppend(r: Result<Scan>, a: seq<string>, b: seq<string>)
    ensures Run(r, a + b) == Run(Run(r, a), b)
    decreases |b|
  {
    if b == [] {
      assert a + b == a;
    } else {
      var c := a + b;
      assert c[..|c| - 1] == a + b[..|b| - 1];
      RunAppend(r, a, b[..|b| - 1]);
    }
  }

  /** An exception ends the loop: nothing after it changes the outcome. */
  lemma {:induction false} RunFailed(e: Error, lines: seq<string>)
    ensures Run(Failure(e), lines) == Failure(e)
    decreases |lines|
  {
    if lines != [] {
      RunFailed(e, lines[..|lines| - 1]);
    }
  }

  /** The loop ends with the exception of the first line that raises one. */
  lemma FailureStops(lines: seq<string>, i: nat, e: Error)
    requires i < |lines| && Scanned(lines[..i + 1]) == Failure(e)
    ensures Scanned(lines) == Failure(e)
  {
    assert lines == lines[..i + 1] + lines[i + 1..];
    RunAppend(Success(Start), lines[..i + 1], lines[i + 1..]);
    RunFailed(e, lines[i + 1..]);
  }

  /** The loop over the lines of the text, from unbound `new_row` and `key`. */
  function Scanned(lines: seq<string>): Result<Scan> {
    Run(Success(Start), lines)
  }

  /** The reading loop of `table_formater`, over the text's lines. */
  method ReadTable(lines: seq<string>) returns (r: Result<Table>)
    ensures r.Success? <==> Scanned(lines).Success?
    ensures r.Success? ==> r.value == Scanned(lines).value.table
    ensures r.Failure? ==> r.error == Scanned(lines).error
  {
    var newRow: Option<bool> := None;
    var key: Option<string> := None;
    var keys: seq<string> := [];
    var table: map<string, seq<string>> := map[];
    for i := 0 to |lines|
      invariant Scanned(lines[..i]) == Success(Scan(newRow, key, Table(keys, table)))
    {
      assert lines[..i + 1][..i] == lines[..i];
      var line := lines[i];
      if Strip(line) == [] {
        newRow := Some(true);
      } else if newRow.None? {
        FailureStops(lines, i, UnboundLocal("new_row"));
        return Failure(UnboundLocal("new_row"));
      } else if newRow.value {
        var k := Lower(Strip(line));
        keys := keys + [k];
        table := table[k := []];
        key := Some(k);
        newRow := Some(false);
      } else {
        if key.None? {
          FailureStops(lines, i, UnboundLocal("key"));
          return Failure(UnboundLocal("key"));
        }
        if key.value !in table {
          FailureStops(lines, i, KeyError);
          return Failure(KeyError);
        }
        table := table[key.value := table[key.value] + [line]];
      }
    }
    assert lines[..|lines|] == lines;
    return Success(Table(keys, table));
  }

  /** The headings: every non-blank line right after a blank one, as `KeyOf` turns it into a key. */
  function Headings(lines: seq<string>): seq<string>
    decreases |lines|
  {
    if |lines| < 2 then []
    else
      var n := |lines|;
      Headings(lines[..n - 1]) + (if !IsBlank(lines[n - 1]) && IsBlank(lines[n - 2]) then [KeyOf(lines[n - 1])] else [])
  }

  /** What the loop keeps true once it has read a blank first line and more. */
  ghost predicate Read(lines: seq<string>, s: Scan)
    requires lines != []
  {
    && s.newRow == Some(IsBlank(lines[|lines| - 1]))
    && s.table.keys == Headings(lines)
    && (forall k :: k in s.table.columns <==> k in s.table.keys)
    && (s.newRow == Some(false) ==> s.key.Some? && s.key.value in s.table.columns)
  }

  /**
   * `new_row` is read before it is assigned exactly when the first line is not blank; otherwise
   * the loop runs through, the keys are the headings, each with its list of cells.
   */
  lemma ScanOutcome(lines: seq<string>)
    ensures Scanned(lines).Failure? <==> lines != [] && !IsBlank(lines[0])
    ensures Scanned(lines).Failure? ==> Scanned(lines).error == UnboundLocal("new_row")
    ensures lines != [] && Scanned(lines).Success? ==> Read(lines, Scanned(lines).value)
  {
    if lines != [] {
      if IsBlank(lines[0]) {
        ScanRead(lines);
      } else {
        RunOne(lines[..1]);
        FailureStops(lines, 0, UnboundLocal("new_row"));
      }
    }
  }

  lemma RunOne(lines: seq<string>)
    requires |lines| == 1
    ensures Scanned(lines) == Step(Start, lines[0])
  {
    assert lines[..0] == [];
    assert Run(Success(Start), lines[..0]) == Success(Start);
  }

  lemma {:induction false} ScanRead(lines: seq<string>)
    requires lines != [] && IsBlank(lines[0])
    ensures Scanned(lines).Success? && Read(lines, Scanned(lines).value)
    decreases |lines|
  {
    var n := |lines|;
    if n == 1 {
      RunOne(lines);
    } else {
      var init := lines[..n - 1];
      assert init[0] == lines[0];
      ScanRead(init);
      var s := Scanned(init).value;
      assert Scanned(lines) == Step(s, lines[n - 1]);
      StepRead(lines, s);
    }
  }

  /** One more line keeps `Read`: a heading after a blank line opens its key, a cell joins the open key. */
  lemma StepRead(lines: seq<string>, s: Scan)
    requires |lines| >= 2 && Read(lines[..|lines| - 1], s)
    ensures Step(s, lines[|lines| - 1]).Success? && Read(lines, Step(s, lines[|lines| - 1]).value)
  {
    var n := |lines|;
    assert lines[..n - 1][n - 2] == lines[n - 2];
  }

  /** A table as it is typed in: a blank line, a heading, then one line per cell. */
  datatype Block = Block(heading: string, cells: seq<string>)

  /** A heading and cells that are not blank, as the layout needs them. */
  predicate Proper(b: Block) {
    !IsBlank(b.heading) && forall i :: 0 <= i < |b.cells| ==> !IsBlank(b.cells[i])
  }

  function BlockLines(b: Block): seq<string> {
    [""] + [b.heading] + b.cells
  }

  /** The lines of the blocks, one after the other. */
  function Render(blocks: seq<Block>): seq<string>
    decreases |blocks|
  {
    if blocks == [] then [] else Render(blocks[..|blocks| - 1]) + BlockLines(blocks[|blocks| - 1])
  }

  /** The table the blocks mean: every heading's key listed, each key with the cells of its last block. */
  function BlocksTable(blocks: seq<Block>): Table
    decreases |blocks|
  {
    if blocks == [] then Table([], map[])
    else
      var t := BlocksTable(blocks[..|blocks| - 1]);
      var b := blocks[|blocks| - 1];
      Table(t.keys + [KeyOf(b.heading)], t.columns[KeyOf(b.heading) := b.cells])
  }

  /** The loop over one more line: the line's step, unless the loop has already ended. */
  lemma RunLast(r: Result<Scan>, init: seq<string>, line: string)
    ensures Run(r, init + [line]) == if Run(r, init).Failure? then Run(r, init) else Step(Run(r, init).value, line)
  {
    assert (init + [line])[..|init|] == init;
  }

  /** The cells under a heading are appended to its key's list, unstripped. */
  lemma {:induction false} RunCells(k: string, t: Table, cells: seq<string>)
    requires k in t.columns && forall i :: 0 <= i < |cells| ==> !IsBlank(cells[i])
    ensures Run(Success(Scan(Some(false), Some(k), t)), cells)
         == Success(Scan(Some(false), Some(k), Table(t.keys, t.columns[k := t.columns[k] + cells])))
    decreases |cells|
  {
    if cells == [] {
      assert t.columns[k] + cells == t.columns[k];
      assert t.columns[k := t.columns[k] + cells] == t.columns;
    } else {
      var init := cells[..|cells| - 1];
      var last := cells[|cells| - 1];
      RunCells(k, t, init);
      assert init + [last] == cells;
      RunLast(Success(Scan(Some(false), Some(k), t)), init, last);
      assert !IsBlank(last);
      var m := Scan(Some(false), Some(k), Table(t.keys, t.columns[k := t.columns[k] + init]));
      assert t.columns[k] + init + [last] == t.columns[k] + cells;
      assert m.table.columns[k] + [last] == t.columns[k] + cells;
      assert m.table.columns[k := m.table.columns[k] + [last]] == t.columns[k := t.columns[k] + cells];
      assert Step(m, last) == Success(Scan(Some(false), Some(k), Table(t.keys, t.columns[k := t.columns[k] + cells])));
    }
  }

  /** A blank line, then a heading: the heading's key is listed once more, with an empty list. */
  lemma RunHead(s: Scan, heading: string)
    requires !IsBlank(heading)
    ensures Run(Success(s), [""] + [heading])
         == Success(Scan(Some(false), Some(KeyOf(heading)),
                         Table(s.table.keys + [KeyOf(heading)], s.table.columns[KeyOf(heading) := []])))
  {
    RunLast(Success(s), [], "");
    assert IsBlank("") && [] + [""] == [""];
    assert Run(Success(s), [""]) == Success(s.(newRow := Some(true)));
    RunLast(Success(s), [""], heading);
  }

  /** A block read from any state: its key is listed once more and holds just the block's cells. */
  lemma RunBlock(s: Scan, b: Block)
    requires Proper(b)
    ensures Run(Success(s), BlockLines(b))
         == Success(Scan(Some(false), Some(KeyOf(b.heading)),
                         Table(s.table.keys + [KeyOf(b.heading)], s.table.columns[KeyOf(b.heading) := b.cells])))
  {
    var k := KeyOf(b.heading);
    var t := Table(s.table.keys + [k], s.table.columns[k := []]);
    RunAppend(Success(s), [""] + [b.heading], b.cells);
    RunHead(s, b.heading);
    RunCells(k, t, b.cells);
    assert t.columns[k] + b.cells == b.cells;
    assert t.columns[k := b.cells] == s.table.columns[k := b.cells];
  }

  /** Reading the typed-in blocks gives back the table they mean. */
  lemma {:induction false} ReadRendered(blocks: seq<Block>)
    requires forall i :: 0 <= i < |blocks| ==> Proper(blocks[i])
    ensures Scanned(Render(blocks)).Success?
    ensures Scanned(Render(blocks)).value.table == BlocksTable(blocks)
    decreases |blocks|
  {
    if blocks != [] {
      var init := blocks[..|blocks| - 1];
      ReadRendered(init);
      RunAppend(Success(Start), Render(init), BlockLines(blocks[|blocks| - 1]));
      RunBlock(Scanned(Render(init)).value, blocks[|blocks| - 1]);
    }
  }

  /** A heading typed twice: its key is listed twice and keeps only the second block's cells. */
  lemma RepeatedHeading(first: Block, second: Block)
    requires Proper(first) && Proper(second) && KeyOf(first.heading) == KeyOf(second.heading)
    ensures Scanned(Render([first, second])).Success?
    ensures var k := KeyOf(first.heading);
      Scanned(Render([first, second])).value.table == Table([k, k], map[k := second.cells])
  {
    ProperPair(first, second);
    ReadRendered([first, second]);
    SameKeyTable(first, second, KeyOf(first.heading));
  }

  lemma ProperPair(first: Block, second: Block)
    requires Proper(first) && Proper(second)
    ensures forall i :: 0 <= i < |[first, second]| ==> Proper([first, second][i])
  {
  }

  /** Two blocks under one key: the key twice, holding the second block's cells. */
  lemma SameKeyTable(first: Block, second: Block, k: string)
    requires k == KeyOf(first.heading) && k == KeyOf(second.heading)
    ensures BlocksTable([first, second]) == Table([k, k], map[k := second.cells])
  {
    assert [first, second][..1] == [first];
    OneBlock(first, k);
    assert map[k := first.cells][k := second.cells] == map[k := second.cells];
  }

  lemma OneBlock(b: Block, k: string)
    requires k == KeyOf(b.heading)
    ensures BlocksTable([b]) == Table([k], map[k := b.cells])
  {
    assert [b][..0] == [];
  }

  // ---------------------------------------------------------------------------------------------
  // table_formater: writing the table

  /** The lines printed, and the exception that stopped the printing, if any. */
  datatype Printed = Printed(lines: seq<string>, error: Option<Error>)

  /** `p`'s printing, then `q`'s unless `p` ended with an exception. */
  function Then(p: Printed, q: Printed): Printed {
    if p.error.Some? then p else Printed(p.lines + q.lines, q.error)
  }

  /** The header of a cell group: the first key's cell, its spaces turned into `" | "`. */
  function Header(cell: string): string {
    "  " + ReplaceChar(cell, ' ', " | ") + ":"
  }

  /** The line of a key's cell in a group. */
  function Entry(key: string, value: string): string {
    "    " + key + " : " + value
  }

  /** `table[key][i]`, printed: KeyError for a key without a list, IndexError for a short list. */
  function Cell(t: Table, key: string, i: nat): Printed {
    if key !in t.columns then Printed([], Some(KeyError))
    else if i < |t.columns[key]| then Printed([Entry(key, t.columns[key][i])], None)
    else Printed([], Some(IndexError))
  }

  /** The cells of group `i` for the keys `table_keys[1:m]`. */
  function Cells(t: Table, i: nat, m: nat): Printed
    requires 1 <= m <= |t.keys|
    decreases m
  {
    if m == 1 then Printed([], None) else Then(Cells(t, i, m - 1), Cell(t, t.keys[m - 1], i))
  }

  /** The first key's list (`table[group_key]`). */
  ghost predicate HasGroup(t: Table) {
    t.keys != [] && t.keys[0] in t.columns
  }

  function GroupCells(t: Table): seq<string>
    requires HasGroup(t)
  {
    t.columns[t.keys[0]]
  }

  /** Group `i`: its header, then a line per other key. */
  function Group(t: Table, i: nat): Printed
    requires HasGroup(t) && i < |GroupCells(t)|
  {
    Then(Printed([Header(GroupCells(t)[i])], None), Cells(t, i, |t.keys|))
  }

  /** `'...:'`, then the first `n` groups. */
  function Groups(t: Table, n: nat): Printed
    requires HasGroup(t) && n <= |GroupCells(t)|
  {
    if n == 0 then Printed(["...:"], None) else Then(Groups(t, n - 1), Group(t, n - 1))
  }

  /** The printing of `table_formater` after the table is read. */
  function Layout(t: Table): Printed {
    if t.keys == [] then Printed([], Some(IndexError))
    else if t.keys[0] !in t.columns then Printed([], Some(KeyError))
    else Groups(t, |GroupCells(t)|)
  }

  /** The writing loops of `table_formater`. */
  method WriteTable(t: Table) returns (p: Printed)
    ensures p == Layout(t)
  {
    if |t.keys| == 0 {
      return Printed([], Some(IndexError));
    }
    var groupKey := t.keys[0];
    if groupKey !in t.columns {
      return Printed([], Some(KeyError));
    }
    var numberOfColumns := |t.columns[groupKey]|;
    var lines := ["...:"];
    for i := 0 to numberOfColumns
      invariant Groups(t, i) == Printed(lines, None)
    {
      var value := ReplaceChar(t.columns[groupKey][i], ' ', " | ");
      lines := lines + ["  " + value + ":"];
      for m := 1 to |t.keys|
        invariant Then(Groups(t, i), Then(Printed([Header(GroupCells(t)[i])], None), Cells(t, i, m))) == Printed(lines, None)
      {
        var key := t.keys[m];
        if key !in t.columns {
          GroupsStop(t, i, m, numberOfColumns);
          return Printed(lines, Some(KeyError));
        }
        if i >= |t.columns[key]| {
          GroupsStop(t, i, m, numberOfColumns);
          return Printed(lines, Some(IndexError));
        }
        lines := lines + ["    " + key + " : " + t.columns[key][i]];
      }
    }
    return Printed(lines, None);
  }

  /** Once a cell raises, the rest of the group is not printed. */
  lemma {:induction false} CellsStop(t: Table, i: nat, m: nat, m': nat)
    requires 1 <= m <= m' <= |t.keys| && Cells(t, i, m).error.Some?
    ensures Cells(t, i, m') == Cells(t, i, m)
    decreases m'
  {
    if m' > m {
      CellsStop(t, i, m, m' - 1);
    }
  }

  /** Once a group raises, the later groups are not printed. */
  lemma {:induction false} GroupsStopAt(t: Table, j: nat, n: nat)
    requires HasGroup(t) && j <= n <= |GroupCells(t)| && Groups(t, j).error.Some?
    ensures Groups(t, n) == Groups(t, j)
    decreases n
  {
    if n > j {
      GroupsStopAt(t, j, n - 1);
    }
  }

  /** The cell of key `m` in group `i` raises: what is printed so far is all that is printed. */
  lemma GroupsStop(t: Table, i: nat, m: nat, n: nat)
    requires HasGroup(t) && i < n == |GroupCells(t)| && 1 <= m < |t.keys|
    requires Cell(t, t.keys[m], i).error.Some?
    requires Then(Groups(t, i), Then(Printed([Header(GroupCells(t)[i])], None), Cells(t, i, m))).error.None?
    ensures Groups(t, n)
         == Printed(Then(Groups(t, i), Then(Printed([Header(GroupCells(t)[i])], None), Cells(t, i, m))).lines,
                    Cell(t, t.keys[m], i).error)
  {
    var c := Cells(t, i, m);
    assert Cells(t, i, m + 1) == Printed(c.lines + [], Cell(t, t.keys[m], i).error);
    assert c.lines + [] == c.lines;
    CellsStop(t, i, m + 1, |t.keys|);
    GroupsStopAt(t, i + 1, n);
  }

  /** Keys 1 to `m - 1` all have a list with a cell at `i`. */
  ghost predicate CellsFit(t: Table, i: nat, m: nat)
    requires m <= |t.keys|
  {
    forall c :: 1 <= c < m ==> t.keys[c] in t.columns && i < |t.columns[t.keys[c]]|
  }

  /** The entry lines of group `i` for keys 1 to `m - 1`. */
  ghost function CellLines(t: Table, i: nat, m: nat): seq<string>
    requires 1 <= m <= |t.keys| && CellsFit(t, i, m)
  {
    seq(m - 1, c requires 0 <= c < m - 1 => Entry(t.keys[c + 1], t.columns[t.keys[c + 1]][i]))
  }

  /** Every key after the first has at least as many cells as the first (or the first has none). */
  ghost predicate Fits(t: Table) {
    && HasGroup(t)
    && (|GroupCells(t)| == 0
        || forall c :: 1 <= c < |t.keys| ==> t.keys[c] in t.columns && |GroupCells(t)| <= |t.columns[t.keys[c]]|)
  }

  /** Group `i` written out: the header, then `'    {key} : {value}'` for every other key. */
  ghost function GroupRows(t: Table, i: nat): seq<string>
    requires HasGroup(t) && i < |GroupCells(t)| && CellsFit(t, i, |t.keys|)
  {
    [Header(GroupCells(t)[i])] + CellLines(t, i, |t.keys|)
  }

  /** Groups 0 to `n - 1` written out, one after the other. */
  ghost function AllRows(t: Table, n: nat): seq<string>
    requires HasGroup(t) && n <= |GroupCells(t)| && forall i :: 0 <= i < n ==> CellsFit(t, i, |t.keys|)
  {
    if n == 0 then [] else AllRows(t, n - 1) + GroupRows(t, n - 1)
  }

  /** The whole printing of a table that fits: `'...:'`, then every group in order. */
  ghost function Rows(t: Table): seq<string>
    requires Fits(t)
  {
    ["...:"] + AllRows(t, |GroupCells(t)|)
  }

  /** The cells of a group are printed until the first key without a cell at `i`. */
  lemma {:induction false} CellsSpec(t: Table, i: nat, m: nat)
    requires 1 <= m <= |t.keys|
    ensures Cells(t, i, m).error.None? <==> CellsFit(t, i, m)
    ensures CellsFit(t, i, m) ==> Cells(t, i, m).lines == CellLines(t, i, m)
    ensures (forall c :: 1 <= c < m ==> t.keys[c] in t.columns) && Cells(t, i, m).error.Some?
        ==> Cells(t, i, m).error == Some(IndexError)
    decreases m
  {
    if m > 1 {
      CellsSpec(t, i, m - 1);
      if CellsFit(t, i, m) {
        assert CellsFit(t, i, m - 1);
        assert CellLines(t, i, m) == CellLines(t, i, m - 1) + [Entry(t.keys[m - 1], t.columns[t.keys[m - 1]][i])];
      }
    }
  }

  /** The first `n` groups print without an exception exactly when every other key has `n` cells. */
  lemma {:induction false} GroupsFit(t: Table, n: nat)
    requires HasGroup(t) && n <= |GroupCells(t)|
    ensures Groups(t, n).error.None?
        <==> n == 0 || forall c :: 1 <= c < |t.keys| ==> t.keys[c] in t.columns && n <= |t.columns[t.keys[c]]|
    ensures (forall c :: 1 <= c < |t.keys| ==> t.keys[c] in t.columns) && Groups(t, n).error.Some?
        ==> Groups(t, n).error == Some(IndexError)
    decreases n
  {
    if n > 0 {
      GroupsFit(t, n - 1);
      CellsSpec(t, n - 1, |t.keys|);
    }
  }

  /** The first `n` groups, when they print without an exception, print their rows. */
  lemma {:induction false} GroupsLines(t: Table, n: nat)
    requires HasGroup(t) && n <= |GroupCells(t)| && Groups(t, n).error.None?
    ensures forall i :: 0 <= i < n ==> CellsFit(t, i, |t.keys|)
    ensures Groups(t, n).lines == ["...:"] + AllRows(t, n)
    decreases n
  {
    if n > 0 {
      GroupsLines(t, n - 1);
      CellsSpec(t, n - 1, |t.keys|);
      assert Group(t, n - 1).lines == GroupRows(t, n - 1);
    }
  }

  /**
   * The printing of `table_formater`: without an exception exactly when the table fits, and then
   * `'...:'` and the groups; IndexError for an empty key list or a short list.
   */
  lemma LayoutSpec(t: Table)
    ensures Layout(t).error.None? <==> Fits(t)
    ensures Fits(t) ==> Layout(t).lines == Rows(t)
    ensures t.keys == [] ==> Layout(t) == Printed([], Some(IndexError))
    ensures (forall c :: 0 <= c < |t.keys| ==> t.keys[c] in t.columns) && Layout(t).error.Some?
        ==> Layout(t).error == Some(IndexError)
  {
    if HasGroup(t) {
      GroupsFit(t, |GroupCells(t)|);
      if Fits(t) {
        GroupsLines(t, |GroupCells(t)|);
      }
    }
  }

  // ---------------------------------------------------------------------------------------------
  // table_formater

  /** What `table_formater` prints after its two debugging prints, and how it ends. */
  function Formatted(text: string): Printed {
    match Scanned(SplitLines(text))
    case Failure(e) => Printed([], Some(e))
    case Success(s) => Layout(s.table)
  }

  /** `table_formater`: the table read line by line, then written out group by group. */
  method TableFormater(text: string) returns (p: Printed)
    ensures p == Formatted(text)
  {
    var lines := SplitLines(text);
    var r := ReadTable(lines);
    if r.Failure? {
      return Printed([], Some(r.error));
    }
    p := WriteTable(r.value);
  }

  /**
   * A text whose first line is not blank ends in the unbound `new_row` before anything is
   * printed; any other text prints its groups in full exactly when its table fits, and ends in
   * IndexError otherwise.
   */
  lemma FormattedOutcome(text: string)
    ensures var lines := SplitLines(text);
      lines != [] && !IsBlank(lines[0]) ==> Formatted(text) == Printed([], Some(UnboundLocal("new_row")))
    ensures var lines := SplitLines(text);
      lines == [] || IsBlank(lines[0]) ==>
        && Scanned(lines).Success?
        && (Formatted(text).error.None? <==> Fits(Scanned(lines).value.table))
        && (Formatted(text).error.None? ==> Formatted(text).lines == Rows(Scanned(lines).value.table))
        && (Formatted(text).error.Some? ==> Formatted(text).error == Some(IndexError))
  {
    var lines := SplitLines(text);
    ScanOutcome(lines);
    if lines == [] || IsBlank(lines[0]) {
      var t := Scanned(lines).value.table;
      LayoutSpec(t);
    }
  }
}
