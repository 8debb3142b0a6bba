/**
 * A PDF page as its text spans (`DatasheetExtractor/backend/pdf/page.py`, with the older copies
 * in `DatasheetExtractor/page.py` and `DatasheetExtractor/__init__.py`): the span stream built
 * from PyMuPDF's page dictionary, its size filter, the axis bucketing `sort_xy`, and the `Line`
 * class that collects sibling spans.
 *
 * Coordinates and sizes are already scaled to integers (tenths of a point): the float scaling
 * is not part of this model.
 */
module PdfPage {
  import opened Wrappers
  import opened Numbers
  import opened Geometry
  import opened Clustering

  datatype Direction = Horizontal | Vertical

  /** Where a span came from: block, line and span index (the `b/l/s` location string). */
  datatype Location = Location(block: nat, line: nat, span: nat)

  /** The immutable attributes of one yielded `Line`: origin, bbox, direction, size and text. */
  datatype Span = Span(x: int, y: int, bbox: Box, direction: Direction, size: int, text: string, location: Location) {

    function CenterX(): int {
      bbox.CenterX()
    }

    function CenterY(): int {
      bbox.CenterY()
    }
  }

  /** One span of PyMuPDF's `get_text('dict')` output: origin, bbox `(x0, y0, x1, y1)`, size, text. */
  datatype RawSpan = RawSpan(origin: (int, int), bbox: (int, int, int, int), size: int, text: string)

  /** A text line of the page dictionary: its writing direction and its spans. */
  datatype RawLine = RawLine(dir: (real, real), spans: seq<RawSpan>)

  /** A block; `None` stands for a block without a `'lines'` entry (an image block). */
  datatype RawBlock = RawBlock(lines: Option<seq<RawLine>>)

  function MakeSpan(raw: RawSpan, direction: Direction, loc: Location): Span {
    Span(raw.origin.0, raw.origin.1, FromCorners(raw.bbox.0, raw.bbox.1, raw.bbox.2, raw.bbox.3),
         direction, raw.size, raw.text, loc)
  }

  /** The `match line['dir']`: the two axis directions set it, any other keeps the previous one. */
  function LineDirection(dir: (real, real), previous: Option<Direction>): (d: Option<Direction>)
    ensures dir == (1.0, 0.0) ==> d == Some(Horizontal)
    ensures dir == (0.0, -1.0) ==> d == Some(Vertical)
    ensures !KnownDir(dir) ==> d == previous
  {
    if dir == (1.0, 0.0) then Some(Horizontal)
    else if dir == (0.0, -1.0) then Some(Vertical)
    else previous
  }

  predicate KnownDir(dir: (real, real)) {
    dir == (1.0, 0.0) || dir == (0.0, -1.0)
  }

  /**
   * The state of the `lines` generator: what it has yielded, its `direction` local (unbound
   * until a known `dir` is seen) and the exception it stopped with, if any.
   */
  datatype Gen = Gen(items: seq<Span>, direction: Option<Direction>, error: Option<Error>)

  function SpanStep(g: Gen, raw: RawSpan, loc: Location): Gen {
    if g.error.Some? then g
    else if g.direction.None? then g.(error := Some(UnboundLocal("direction")))
    else g.(items := g.items + [MakeSpan(raw, g.direction.value, loc)])
  }

  function SpansFold(g: Gen, b: nat, l: nat, spans: seq<RawSpan>, s: nat): Gen
    decreases |spans| - s
  {
    if s >= |spans| then g
    else SpansFold(SpanStep(g, spans[s], Location(b, l, s)), b, l, spans, s + 1)
  }

  function LineStep(g: Gen, b: nat, l: nat, line: RawLine): Gen {
    if g.error.Some? then g
    else SpansFold(g.(direction := LineDirection(line.dir, g.direction)), b, l, line.spans, 0)
  }

  function LinesFold(g: Gen, b: nat, lines: seq<RawLine>, l: nat): Gen
    decreases |lines| - l
  {
    if l >= |lines| then g
    else LinesFold(LineStep(g, b, l, lines[l]), b, lines, l + 1)
  }

  function BlockStep(g: Gen, b: nat, block: RawBlock): Gen {
    match block.lines
    case None => g
    case Some(lines) => LinesFold(g, b, lines, 0)
  }

  function BlocksFold(g: Gen, blocks: seq<RawBlock>, b: nat): Gen
    decreases |blocks| - b
  {
    if b >= |blocks| then g
    else BlocksFold(BlockStep(g, b, blocks[b]), blocks, b + 1)
  }

  /** Everything `lines` yields, run to exhaustion or to its exception. */
  function PageLines(blocks: seq<RawBlock>): Gen {
    BlocksFold(Gen([], None, None), blocks, 0)
  }

  lemma {:induction false} SpansFoldFailed(g: Gen, b: nat, l: nat, spans: seq<RawSpan>, s: nat)
    requires g.error.Some?
    ensures SpansFold(g, b, l, spans, s) == g
    decreases |spans| - s
  {
    if s < |spans| {
      SpansFoldFailed(g, b, l, spans, s + 1);
    }
  }

  lemma {:induction false} LinesFoldFailed(g: Gen, b: nat, lines: seq<RawLine>, l: nat)
    requires g.error.Some?
    ensures LinesFold(g, b, lines, l) == g
    decreases |lines| - l
  {
    if l < |lines| {
      LinesFoldFailed(g, b, lines, l + 1);
    }
  }

  lemma {:induction false} BlocksFoldFailed(g: Gen, blocks: seq<RawBlock>, b: nat)
    requires g.error.Some?
    ensures BlocksFold(g, blocks, b) == g
    decreases |blocks| - b
  {
    if b < |blocks| {
      if blocks[b].lines.Some? {
        LinesFoldFailed(g, b, blocks[b].lines.value, 0);
      }
      BlocksFoldFailed(g, blocks, b + 1);
    }
  }

  /**
   * The `lines` generator: block by block, line by line, span by span. It stops with an
   * `UnboundLocalError` on a span read while `direction` is still unbound.
   */
  method Lines(blocks: seq<RawBlock>) returns (items: seq<Span>, error: Option<Error>)
    ensures items == PageLines(blocks).items && error == PageLines(blocks).error
  {
    ghost var target := PageLines(blocks);
    items := [];
    error := None;
    var direction: Option<Direction> := None;
    for b := 0 to |blocks|
      invariant BlocksFold(Gen(items, direction, None), blocks, b) == target
    {
      if blocks[b].lines.Some? {
        var lines := blocks[b].lines.value;
        for l := 0 to |lines|
          invariant BlocksFold(LinesFold(Gen(items, direction, None), b, lines, l), blocks, b + 1) == target
        {
          var line := lines[l];
          if line.dir == (1.0, 0.0) {
            direction := Some(Horizontal);
          } else if line.dir == (0.0, -1.0) {
            direction := Some(Vertical);
          }
          for s := 0 to |line.spans|
            invariant BlocksFold(LinesFold(SpansFold(Gen(items, direction, None), b, l, line.spans, s),
                                           b, lines, l + 1), blocks, b + 1) == target
          {
            if direction.None? {
              error := Some(UnboundLocal("direction"));
              var failed := Gen(items, direction, error);
              SpansFoldFailed(failed, b, l, line.spans, s + 1);
              LinesFoldFailed(failed, b, lines, l + 1);
              BlocksFoldFailed(failed, blocks, b + 1);
              return;
            }
            items := items + [MakeSpan(line.spans[s], direction.value, Location(b, l, s))];
          }
        }
      }
    }
  }

  /** The raw span a location points at, if there is one. */
  predicate Locates(blocks: seq<RawBlock>, loc: Location) {
    && loc.block < |blocks|
    && blocks[loc.block].lines.Some?
    && loc.line < |blocks[loc.block].lines.value|
    && loc.span < |blocks[loc.block].lines.value[loc.line].spans|
  }

  /** `sp` was built from the raw span its location names. */
  predicate BuiltFrom(blocks: seq<RawBlock>, sp: Span) {
    && Locates(blocks, sp.location)
    && sp == MakeSpan(blocks[sp.location.block].lines.value[sp.location.line].spans[sp.location.span],
                      sp.direction, sp.location)
  }

  /** Page order: by block, then line, then span. */
  predicate Before(a: Location, b: Location) {
    || a.block < b.block
    || (a.block == b.block && a.line < b.line)
    || (a.block == b.block && a.line == b.line && a.span < b.span)
  }

  /** Every yielded span comes from the page, and they come in strictly increasing page order. */
  predicate Faithful(blocks: seq<RawBlock>, items: seq<Span>) {
    && (forall i :: 0 <= i < |items| ==> BuiltFrom(blocks, items[i]))
    && (forall i, j :: 0 <= i < j < |items| ==> Before(items[i].location, items[j].location))
  }

  /** All yielded locations lie before `loc`. */
  predicate AllBefore(items: seq<Span>, loc: Location) {
    forall i :: 0 <= i < |items| ==> Before(items[i].location, loc)
  }

  lemma {:induction false} SpansFoldFaithful(blocks: seq<RawBlock>, g: Gen, b: nat, l: nat, s: nat)
    requires Locates(blocks, Location(b, l, 0))
    requires Faithful(blocks, g.items) && AllBefore(g.items, Location(b, l, s))
    ensures var spans := blocks[b].lines.value[l].spans;
      var r := SpansFold(g, b, l, spans, s);
      Faithful(blocks, r.items) && AllBefore(r.items, Location(b, l + 1, 0))
    decreases |blocks[b].lines.value[l].spans| - s
  {
    var spans := blocks[b].lines.value[l].spans;
    if s < |spans| {
      var g' := SpanStep(g, spans[s], Location(b, l, s));
      assert Faithful(blocks, g'.items) && AllBefore(g'.items, Location(b, l, s + 1));
      SpansFoldFaithful(blocks, g', b, l, s + 1);
    }
  }

  lemma {:induction false} LinesFoldFaithful(blocks: seq<RawBlock>, g: Gen, b: nat, l: nat)
    requires b < |blocks| && blocks[b].lines.Some?
    requires Faithful(blocks, g.items) && AllBefore(g.items, Location(b, l, 0))
    ensures var r := LinesFold(g, b, blocks[b].lines.value, l);
      Faithful(blocks, r.items) && AllBefore(r.items, Location(b + 1, 0, 0))
    decreases |blocks[b].lines.value| - l
  {
    var lines := blocks[b].lines.value;
    if l < |lines| {
      var g' := LineStep(g, b, l, lines[l]);
      if g.error.None? {
        var h := g.(direction := LineDirection(lines[l].dir, g.direction));
        if lines[l].spans == [] {
          assert g' == h;
        } else {
          SpansFoldFaithful(blocks, h, b, l, 0);
        }
      }
      LinesFoldFaithful(blocks, g', b, l + 1);
    }
  }

  lemma {:induction false} BlocksFoldFaithful(blocks: seq<RawBlock>, g: Gen, b: nat)
    requires Faithful(blocks, g.items) && AllBefore(g.items, Location(b, 0, 0))
    ensures Faithful(blocks, BlocksFold(g, blocks, b).items)
    decreases |blocks| - b
  {
    if b < |blocks| {
      var g' := BlockStep(g, b, blocks[b]);
      if blocks[b].lines.Some? {
        LinesFoldFaithful(blocks, g, b, 0);
      }
      BlocksFoldFaithful(blocks, g', b + 1);
    }
  }

  /**
   * Every span `lines` yields is built from the raw span at its location, and the spans come
   * block by block, line by line, span by span.
   */
  lemma PageLinesFaithful(blocks: seq<RawBlock>)
    ensures Faithful(blocks, PageLines(blocks).items)
  {
    BlocksFoldFaithful(blocks, Gen([], None, None), 0);
  }

  /** The one exception `lines` can stop with is the unbound `direction`. */
  lemma PageLinesError(blocks: seq<RawBlock>)
    ensures PageLines(blocks).error.Some? ==> PageLines(blocks).error == Some(UnboundLocal("direction"))
  {
    BlocksFoldError(Gen([], None, None), blocks, 0);
  }

  predicate DirectionError(g: Gen) {
    g.error.Some? ==> g.error == Some(UnboundLocal("direction"))
  }

  lemma {:induction false} SpansFoldError(g: Gen, b: nat, l: nat, spans: seq<RawSpan>, s: nat)
    requires DirectionError(g)
    ensures DirectionError(SpansFold(g, b, l, spans, s))
    decreases |spans| - s
  {
    if s < |spans| {
      SpansFoldError(SpanStep(g, spans[s], Location(b, l, s)), b, l, spans, s + 1);
    }
  }

  lemma {:induction false} LinesFoldError(g: Gen, b: nat, lines: seq<RawLine>, l: nat)
    requires DirectionError(g)
    ensures DirectionError(LinesFold(g, b, lines, l))
    decreases |lines| - l
  {
    if l < |lines| {
      if g.error.None? {
        SpansFoldError(g.(direction := LineDirection(lines[l].dir, g.direction)), b, l, lines[l].spans, 0);
      }
      LinesFoldError(LineStep(g, b, l, lines[l]), b, lines, l + 1);
    }
  }

  lemma {:induction false} BlocksFoldError(g: Gen, blocks: seq<RawBlock>, b: nat)
    requires DirectionError(g)
    ensures DirectionError(BlocksFold(g, blocks, b))
    decreases |blocks| - b
  {
    if b < |blocks| {
      if blocks[b].lines.Some? {
        LinesFoldError(g, b, blocks[b].lines.value, 0);
      }
      BlocksFoldError(BlockStep(g, b, blocks[b]), blocks, b + 1);
    }
  }

  /** The direction a known `dir` names. */
  function DirOf(dir: (real, real)): Direction
    requires KnownDir(dir)
  {
    if dir == (1.0, 0.0) then Horizontal else Vertical
  }

  /** Every line of the page states one of the two axis directions. */
  predicate AllKnown(blocks: seq<RawBlock>) {
    forall b, l :: 0 <= b < |blocks| && blocks[b].lines.Some? && 0 <= l < |blocks[b].lines.value| ==>
      KnownDir(blocks[b].lines.value[l].dir)
  }

  /** The spans of one line, each tagged with `direction`. */
  function LineSpans(b: nat, l: nat, spans: seq<RawSpan>, s: nat, direction: Direction): seq<Span>
    decreases |spans| - s
  {
    if s >= |spans| then [] else [MakeSpan(spans[s], direction, Location(b, l, s))] + LineSpans(b, l, spans, s + 1, direction)
  }

  function BlockSpans(b: nat, lines: seq<RawLine>, l: nat): seq<Span>
    requires forall i :: 0 <= i < |lines| ==> KnownDir(lines[i].dir)
    decreases |lines| - l
  {
    if l >= |lines| then [] else LineSpans(b, l, lines[l].spans, 0, DirOf(lines[l].dir)) + BlockSpans(b, lines, l + 1)
  }

  /** Every span of the page, each tagged with its own line's direction: the flattening `lines` makes. */
  function PageSpans(blocks: seq<RawBlock>, b: nat): seq<Span>
    requires AllKnown(blocks)
    decreases |blocks| - b
  {
    if b >= |blocks| then [] else BlockPart(blocks, b) + PageSpans(blocks, b + 1)
  }

  function BlockPart(blocks: seq<RawBlock>, b: nat): seq<Span>
    requires AllKnown(blocks) && b < |blocks|
  {
    match blocks[b].lines
    case None => []
    case Some(lines) => BlockSpans(b, lines, 0)
  }

  lemma {:induction false} SpansFoldKnown(g: Gen, b: nat, l: nat, spans: seq<RawSpan>, s: nat, d: Direction)
    requires g.error.None? && g.direction == Some(d)
    ensures SpansFold(g, b, l, spans, s) == g.(items := g.items + LineSpans(b, l, spans, s, d))
    decreases |spans| - s
  {
    if s < |spans| {
      var g' := SpanStep(g, spans[s], Location(b, l, s));
      SpansFoldKnown(g', b, l, spans, s + 1, d);
    } else {
      assert g.items + [] == g.items;
    }
  }

  /** A line with a known `dir` sets `direction` and yields all its spans. */
  lemma LineStepKnown(g: Gen, b: nat, l: nat, line: RawLine)
    requires g.error.None? && KnownDir(line.dir)
    ensures LineStep(g, b, l, line)
         == g.(direction := Some(DirOf(line.dir)), items := g.items + LineSpans(b, l, line.spans, 0, DirOf(line.dir)))
  {
    var d := DirOf(line.dir);
    SpansFoldKnown(g.(direction := Some(d)), b, l, line.spans, 0, d);
  }

  lemma {:induction false} LinesFoldKnown(g: Gen, b: nat, lines: seq<RawLine>, l: nat)
    requires g.error.None?
    requires forall i :: 0 <= i < |lines| ==> KnownDir(lines[i].dir)
    ensures LinesFold(g, b, lines, l).error.None?
    ensures LinesFold(g, b, lines, l).items == g.items + BlockSpans(b, lines, l)
    decreases |lines| - l
  {
    if l < |lines| {
      var ls := LineSpans(b, l, lines[l].spans, 0, DirOf(lines[l].dir));
      LineStepKnown(g, b, l, lines[l]);
      var g' := LineStep(g, b, l, lines[l]);
      LinesFoldKnown(g', b, lines, l + 1);
      assert g.items + ls + BlockSpans(b, lines, l + 1) == g.items + (ls + BlockSpans(b, lines, l + 1));
    } else {
      assert g.items + [] == g.items;
    }
  }

  lemma BlockStepKnown(g: Gen, blocks: seq<RawBlock>, b: nat)
    requires g.error.None? && AllKnown(blocks) && b < |blocks|
    ensures BlockStep(g, b, blocks[b]).error.None?
    ensures BlockStep(g, b, blocks[b]).items == g.items + BlockPart(blocks, b)
  {
    if blocks[b].lines.Some? {
      LinesFoldKnown(g, b, blocks[b].lines.value, 0);
    } else {
      assert g.items + [] == g.items;
    }
  }

  lemma {:induction false} BlocksFoldKnown(g: Gen, blocks: seq<RawBlock>, b: nat)
    requires g.error.None? && AllKnown(blocks)
    ensures BlocksFold(g, blocks, b).error.None?
    ensures BlocksFold(g, blocks, b).items == g.items + PageSpans(blocks, b)
    decreases |blocks| - b
  {
    if b < |blocks| {
      var g' := BlockStep(g, b, blocks[b]);
      BlockStepKnown(g, blocks, b);
      BlocksFoldKnown(g', blocks, b + 1);
      assert g.items + BlockPart(blocks, b) + PageSpans(blocks, b + 1)
          == g.items + (BlockPart(blocks, b) + PageSpans(blocks, b + 1));
    } else {
      assert g.items + [] == g.items;
    }
  }

  /**
   * When every line names one of the two axis directions, `lines` never fails and yields every
   * span of the page, each tagged with its own line's direction.
   */
  lemma PageLinesKnown(blocks: seq<RawBlock>)
    requires AllKnown(blocks)
    ensures PageLines(blocks).error.None?
    ensures PageLines(blocks).items == PageSpans(blocks, 0)
  {
    BlocksFoldKnown(Gen([], None, None), blocks, 0);
  }

  /**
   * For example, a rotated line right after a horizontal one yields a horizontal span: a line
   * with another `dir` keeps the direction of the line before it.
   */
  lemma DirectionCarriedOver(first: RawSpan, second: RawSpan, dir: (real, real))
    requires !KnownDir(dir)
    ensures var page := [RawBlock(Some([RawLine((1.0, 0.0), [first]), RawLine(dir, [second])]))];
      PageLines(page) == Gen([MakeSpan(first, Horizontal, Location(0, 0, 0)),
                              MakeSpan(second, Horizontal, Location(0, 1, 0))], Some(Horizontal), None)
  {
    var lines := [RawLine((1.0, 0.0), [first]), RawLine(dir, [second])];
    var g0 := Gen([], Some(Horizontal), None);
    var g1 := Gen([MakeSpan(first, Horizontal, Location(0, 0, 0))], Some(Horizontal), None);
    var g2 := Gen(g1.items + [MakeSpan(second, Horizontal, Location(0, 1, 0))], Some(Horizontal), None);
    assert SpansFold(g0, 0, 0, [first], 0) == g1;
    assert LineStep(Gen([], None, None), 0, 0, lines[0]) == g1;
    assert SpansFold(g1, 0, 1, [second], 0) == g2;
    assert LineStep(g1, 0, 1, lines[1]) == g2;
    assert LinesFold(g2, 0, lines, 2) == g2;
    assert LinesFold(g1, 0, lines, 1) == g2;
    assert LinesFold(Gen([], None, None), 0, lines, 0) == g2;
    var page := [RawBlock(Some(lines))];
    assert BlocksFold(g2, page, 1) == g2;
  }

  /** A span on a first line with another `dir` finds `direction` unbound: nothing is yielded. */
  lemma UnboundFirstDirection(span: RawSpan, rest: seq<RawSpan>, dir: (real, real), more: seq<RawLine>, blocks: seq<RawBlock>)
    requires !KnownDir(dir)
    ensures var page := [RawBlock(Some([RawLine(dir, [span] + rest)] + more))] + blocks;
      PageLines(page) == Gen([], None, Some(UnboundLocal("direction")))
  {
    var page := [RawBlock(Some([RawLine(dir, [span] + rest)] + more))] + blocks;
    var lines := [RawLine(dir, [span] + rest)] + more;
    var failed := Gen([], None, Some(UnboundLocal("direction")));
    SpansFoldFailed(failed, 0, 0, [span] + rest, 1);
    LinesFoldFailed(failed, 0, lines, 1);
    BlocksFoldFailed(failed, page, 1);
  }

  /** The test `filter_lines` applies to every span. */
  function SizeIs(size: int): Span -> bool {
    (sp: Span) => sp.size == size
  }

  /**
   * `filter_lines(size)`: the spans of the given (scaled) size, in page order. A missing size
   * fails with `TypeError` before any span is read: it is scaled before the `is not None` test.
   */
  method FilterLines(blocks: seq<RawBlock>, size: Option<int>) returns (items: seq<Span>, error: Option<Error>)
    ensures size.None? ==> items == [] && error == Some(TypeError)
    ensures size.Some? ==> items == Select(PageLines(blocks).items, SizeIs(size.value))
    ensures size.Some? ==> error == PageLines(blocks).error
  {
    if size.None? {
      return [], Some(TypeError);
    }
    var all;
    all, error := Lines(blocks);
    items := FilterSize(all, size.value);
  }

  /** The `if line.size == size` test of the `filter_lines` loop. */
  method FilterSize(all: seq<Span>, size: int) returns (items: seq<Span>)
    ensures items == Select(all, SizeIs(size))
  {
    ghost var keep := SizeIs(size);
    items := [];
    for i := 0 to |all|
      invariant items == Select(all[..i], keep)
    {
      SelectSnoc(all, i, keep);
      assert keep(all[i]) == (all[i].size == size);
      if all[i].size == size {
        items := items + [all[i]];
      }
    }
    assert all[..|all|] == all;
  }

  /** The `ensure_direction` test: `'y'` keeps horizontal spans, `'x'` vertical ones. */
  predicate Kept(sp: Span, axe: string, ensureDirection: bool) {
    !ensureDirection || ((axe == "y" ==> sp.direction == Horizontal) && (axe == "x" ==> sp.direction == Vertical))
  }

  function KeepDirection(axe: string, ensureDirection: bool): Span -> bool {
    (sp: Span) => Kept(sp, axe, ensureDirection)
  }

  /** The grouping coordinate: the centre on the axis if `use_center1`, else the origin. */
  function GroupCoord(sp: Span, axe: string, useCenter1: bool): int {
    if useCenter1 then (if axe == "y" then sp.CenterY() else sp.CenterX())
    else (if axe == "y" then sp.y else sp.x)
  }

  /** `int(x / round_scale)`: the grouping coordinate divided and truncated toward zero. */
  function BucketKey(axe: string, useCenter1: bool, roundScale: Divisor): Span -> int {
    (sp: Span) => TruncDiv(GroupCoord(sp, axe, useCenter1), roundScale)
  }

  /** The sort key on the other axis: the centre if `use_center2`, else the origin. */
  function SortKey(axe: string, useCenter2: bool): Span -> int {
    (sp: Span) => if useCenter2 then (if axe == "y" then sp.CenterX() else sp.CenterY())
                     else (if axe == "y" then sp.x else sp.y)
  }

  /** What `sort_xy` returns, or the exception it passes on from `lines`. */
  function SortXySpec(blocks: seq<RawBlock>, axe: string, useCenter1: bool, useCenter2: bool,
                      ensureDirection: bool, roundScale: Divisor): Result<AxeMap<Span>>
  {
    var g := PageLines(blocks);
    if g.error.Some? then Failure(g.error.value)
    else Success(Clustered(Select(g.items, KeepDirection(axe, ensureDirection)),
                           BucketKey(axe, useCenter1, roundScale), SortKey(axe, useCenter2)))
  }

  /** `sort_xy`: filter on direction, bucket on the truncated coordinate, sort every bucket. */
  method SortXy(blocks: seq<RawBlock>, axe: string, useCenter1: bool, useCenter2: bool,
                ensureDirection: bool, roundScale: Divisor) returns (r: Result<AxeMap<Span>>)
    ensures r == SortXySpec(blocks, axe, useCenter1, useCenter2, ensureDirection, roundScale)
  {
    var all, error := Lines(blocks);
    if error.Some? {
      return Failure(error.value);
    }
    var kept := FilterDirection(all, axe, ensureDirection);
    var m := Cluster(kept, BucketKey(axe, useCenter1, roundScale), SortKey(axe, useCenter2));
    return Success(m);
  }

  /** The `continue`s of the `sort_xy` loop: the spans the direction test lets through. */
  method FilterDirection(all: seq<Span>, axe: string, ensureDirection: bool) returns (kept: seq<Span>)
    ensures kept == Select(all, KeepDirection(axe, ensureDirection))
  {
    ghost var keep := KeepDirection(axe, ensureDirection);
    kept := [];
    for i := 0 to |all|
      invariant kept == Select(all[..i], keep)
    {
      SelectSnoc(all, i, keep);
      assert keep(all[i]) == Kept(all[i], axe, ensureDirection);
      if ensureDirection {
        if axe == "y" && all[i].direction != Horizontal {
          continue;
        }
        if axe == "x" && all[i].direction != Vertical {
          continue;
        }
      }
      kept := kept + [all[i]];
    }
    assert all[..|all|] == all;
  }

  /**
   * The direction filter: with `ensure_direction`, axis `'y'` keeps exactly the horizontal spans
   * and axis `'x'` exactly the vertical ones; otherwise (or for any other axis) every span stays.
   */
  lemma DirectionFilter(items: seq<Span>, axe: string, ensureDirection: bool)
    ensures var kept := Select(items, KeepDirection(axe, ensureDirection));
      && (ensureDirection && axe == "y" ==>
            (forall i :: 0 <= i < |kept| ==> kept[i] in items && kept[i].direction == Horizontal)
            && (forall i :: 0 <= i < |items| && items[i].direction == Horizontal ==> items[i] in kept))
      && (ensureDirection && axe == "x" ==>
            (forall i :: 0 <= i < |kept| ==> kept[i] in items && kept[i].direction == Vertical)
            && (forall i :: 0 <= i < |items| && items[i].direction == Vertical ==> items[i] in kept))
      && (!ensureDirection || (axe != "x" && axe != "y") ==> kept == items)
  {
    if !ensureDirection || (axe != "x" && axe != "y") {
      SelectAll(items, KeepDirection(axe, ensureDirection));
    }
  }

  /**
   * `sort_xy` partitions the kept spans: each bucket holds (a reordering of) exactly the kept
   * spans whose truncated coordinate is its key, sorted stably on the other axis, buckets in
   * first-seen key order, and every kept span is in exactly one bucket.
   */
  lemma SortXyBuckets(blocks: seq<RawBlock>, axe: string, useCenter1: bool, useCenter2: bool,
                      ensureDirection: bool, roundScale: Divisor, m: AxeMap<Span>)
    requires SortXySpec(blocks, axe, useCenter1, useCenter2, ensureDirection, roundScale) == Success(m)
    ensures var kept := Select(PageLines(blocks).items, KeepDirection(axe, ensureDirection));
      var key := BucketKey(axe, useCenter1, roundScale);
      && m.keys == FirstSeenKeys(kept, key)
      && (forall k :: k in m.buckets <==> k in m.keys)
      && (forall k :: k in m.buckets ==>
            SortedStable(m.buckets[k], Group(kept, key, k), SortKey(axe, useCenter2))
            && multiset(m.buckets[k]) == multiset(Group(kept, key, k)))
      && multiset(Concat(m.keys, m.buckets)) == multiset(kept)
  {
    var kept := Select(PageLines(blocks).items, KeepDirection(axe, ensureDirection));
    var key, order := BucketKey(axe, useCenter1, roundScale), SortKey(axe, useCenter2);
    ClusteredPartition(kept, key, order, m);
  }

  /** The spans of some lines, in order. */
  function SpansOf(lines: seq<Line>): (r: seq<Span>)
    ensures |r| == |lines|
  {
    seq(|lines|, i requires 0 <= i < |lines| => lines[i].span)
  }

  /** The bboxes of some spans, in order. */
  function Boxes(spans: seq<Span>): (r: seq<Box>)
    ensures |r| == |spans|
  {
    seq(|spans|, i requires 0 <= i < |spans| => spans[i].bbox)
  }

  /** The hull of `own` and every box of `boxes`, folded left as `bbox |= sibling.bbox` does. */
  function Hull(own: Box, boxes: seq<Box>): Box {
    if boxes == [] then own else Hull(own, boxes[..|boxes| - 1]).Union(boxes[|boxes| - 1])
  }

  /** The hull holds `own` and every box of `boxes`. */
  lemma {:induction false} HullIncludes(own: Box, boxes: seq<Box>)
    ensures Hull(own, boxes).Includes(own)
    ensures forall i :: 0 <= i < |boxes| ==> Hull(own, boxes).Includes(boxes[i])
  {
    if boxes != [] {
      var init := boxes[..|boxes| - 1];
      HullIncludes(own, init);
      assert forall i :: 0 <= i < |init| ==> init[i] == boxes[i];
    }
  }

  /** The hull is the smallest box holding `own` and every box of `boxes`. */
  lemma {:induction false} HullLeast(own: Box, boxes: seq<Box>, c: Box)
    requires c.Includes(own)
    requires forall i :: 0 <= i < |boxes| ==> c.Includes(boxes[i])
    ensures c.Includes(Hull(own, boxes))
  {
    if boxes != [] {
      var init := boxes[..|boxes| - 1];
      assert forall i :: 0 <= i < |init| ==> init[i] == boxes[i];
      HullLeast(own, init, c);
    }
  }

  /**
   * A yielded `Line`: its span never changes; `siblings` collects the spans merged into it.
   * The same class is in all three copies.
   */
  class Line {
    const span: Span
    var siblings: seq<Line>

    constructor (span: Span)
      ensures this.span == span && siblings == []
    {
      this.span := span;
      siblings := [];
    }

    /** `link`: the line goes at the end of `siblings`; nothing else changes. */
    method Link(line: Line)
      modifies this
      ensures siblings == old(siblings) + [line]
    {
      siblings := siblings + [line];
    }

    /** `siblings_bbox`: a clone of the own bbox, grown by every sibling's bbox in turn. */
    method SiblingsBbox() returns (bbox: Box)
      ensures bbox == Hull(span.bbox, Boxes(SpansOf(siblings)))
      ensures bbox.Includes(span.bbox)
    {
      ghost var boxes := Boxes(SpansOf(siblings));
      bbox := span.bbox;
      for i := 0 to |siblings|
        invariant bbox == Hull(span.bbox, boxes[..i])
      {
        assert boxes[..i + 1][..i] == boxes[..i];
        bbox := bbox.Union(siblings[i].span.bbox);
      }
      assert boxes[..|siblings|] == boxes;
      HullIncludes(span.bbox, boxes);
    }

    /** `center_x_inclusive`: as written, the y centre when there are no siblings. */
    function CenterXInclusive(): int
      reads this
    {
      if siblings != [] then Hull(span.bbox, Boxes(SpansOf(siblings))).CenterX() else span.CenterY()
    }

    /** `center_y_inclusive`. */
    function CenterYInclusive(): int
      reads this
    {
      if siblings != [] then Hull(span.bbox, Boxes(SpansOf(siblings))).CenterY() else span.CenterY()
    }
  }

  /**
   * The inclusive centres: without siblings both are the span's own y centre (for the x one, a
   * slip of the source); with siblings they are the centres of the hull, which contains them
   * when the own bbox is well formed.
   */
  lemma InclusiveCentres(line: Line)
    ensures line.siblings == [] ==> line.CenterXInclusive() == line.span.CenterY() == line.CenterYInclusive()
    ensures line.siblings != [] ==>
      var h := Hull(line.span.bbox, Boxes(SpansOf(line.siblings)));
      line.CenterXInclusive() == h.CenterX() && line.CenterYInclusive() == h.CenterY()
      && (line.span.bbox.Valid() ==> h.x.Contains(line.CenterXInclusive()) && h.y.Contains(line.CenterYInclusive()))
  {
    HullIncludes(line.span.bbox, Boxes(SpansOf(line.siblings)));
  }
}
