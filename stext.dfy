/**
 * The pinout decoder of `dev/parse-stext.py`, once the structured-text XML has been read: the
 * lines of a page bucketed on their exact y, each bucket sorted by x, and every four-line
 * bucket decoded into two pins. Unlike the backend's decoder there is neither rounding of the
 * y coordinate nor the check that exactly two texts of a bucket are ints.
 *
 * What the script prints is returned instead: the pin listing as text, and for the quad
 * variant the rows in ascending y and the buckets whose size matches the pin count.
 */
module Stext {
  import opened Wrappers
  import opened Clustering
  import Pinout

  /** A line as `extract_page_lines` reads it: its bbox corner scaled by ten, and its text. */
  datatype StextLine = StextLine(x: int, y: int, t: string)

  function LineX(l: StextLine): int {
    l.x
  }

  function LineY(l: StextLine): int {
    l.y
  }

  function LineText(l: StextLine): string {
    l.t
  }

  /** `ys`: the lines bucketed on their exact y, every bucket sorted by x. */
  function Ys(lines: seq<StextLine>): AxeMap<StextLine> {
    Clustered(lines, LineY, LineX)
  }

  /** The pin dict of the page: every four-line bucket decoded, whatever its texts parse as. */
  function PinsOf(lines: seq<StextLine>): Pinout.Pins {
    ClusteredIsClustering(lines, LineY, LineX);
    KeysInBuckets(Ys(lines));
    BucketPins(Ys(lines))
  }

  /** The `pins` loop over a dict of lists: every four-line bucket decoded, in key order. */
  function BucketPins(ys: AxeMap<StextLine>): Pinout.Pins
    requires forall i :: 0 <= i < |ys.keys| ==> ys.keys[i] in ys.buckets
  {
    Pinout.DecodePins(Pinout.BucketParts(ys.keys, ys.buckets, LineText), false)
  }

  /**
   * The bucketing: one bucket per distinct y in first-seen order, holding exactly the lines of
   * that y (in page order among equal x), sorted by x.
   */
  lemma YsBuckets(lines: seq<StextLine>)
    ensures IsClustering(Ys(lines), lines, LineY, LineX)
    ensures forall k :: k in Ys(lines).buckets ==>
      multiset(Ys(lines).buckets[k]) == multiset(Group(lines, LineY, k))
    ensures forall k, i :: k in Ys(lines).buckets && 0 <= i < |Ys(lines).buckets[k]| ==>
      Ys(lines).buckets[k][i].y == k
  {
    var ys := Ys(lines);
    ClusteredIsClustering(lines, LineY, LineX);
    forall k | k in ys.buckets
      ensures multiset(ys.buckets[k]) == multiset(Group(lines, LineY, k))
      ensures forall i :: 0 <= i < |ys.buckets[k]| ==> ys.buckets[k][i].y == k
    {
      var g := Group(lines, LineY, k);
      StableReorderPermutes(ys.buckets[k], g, LineX);
      forall i | 0 <= i < |ys.buckets[k]|
        ensures ys.buckets[k][i].y == k
      {
        assert ys.buckets[k][i] in multiset(g);
        var j :| 0 <= j < |g| && g[j] == ys.buckets[k][i];
      }
    }
  }

  /** The bucketing and decoding of `extract_pinout`: the dict of lists, then the `pins` loop. */
  method DecodePage(lines: seq<StextLine>) returns (pins: Pinout.Pins)
    ensures pins == PinsOf(lines)
  {
    var ys := Cluster(lines, LineY, LineX);
    pins := Pinout.DecodeBuckets(ys.keys, ys.buckets, LineText, false);
  }

  /**
   * `extract_pinout`: the listing printed, one `' {key}: {value}'` line per pin in ascending
   * key order; names of both kinds (text and int) make `sorted` raise TypeError.
   */
  method ExtractPinout(lines: seq<StextLine>) returns (r: Result<string>)
    ensures r == Listing(PinsOf(lines))
  {
    var pins := DecodePage(lines);
    r := Pinout.FormatPinout(pins, "\n");
  }

  /** A line printed by `print(y, len(_), _)`. */
  datatype Row = Row(y: int, count: nat, bucket: seq<StextLine>)

  /** What `extract_pinout_quad` prints: the rows by y, the buckets of a side's size, the listing. */
  datatype QuadReport = QuadReport(rows: seq<Row>, matching: seq<seq<StextLine>>, pinout: Result<string>)

  /** `len(y) == number_of_pins/4`: a bucket holds a quarter of the pins. */
  function FitsSide(numberOfPins: int): seq<StextLine> -> bool {
    b => 4 * |b| == numberOfPins
  }

  /** The buckets in the dict's key order (`ys.values()`). */
  function Buckets(m: AxeMap<StextLine>): (r: seq<seq<StextLine>>)
    requires forall i :: 0 <= i < |m.keys| ==> m.keys[i] in m.buckets
    ensures |r| == |m.keys|
    ensures forall i :: 0 <= i < |r| ==> r[i] == m.buckets[m.keys[i]]
  {
    seq(|m.keys|, i requires 0 <= i < |m.keys| => m.buckets[m.keys[i]])
  }

  function Id(k: int): int {
    k
  }

  /** The y of every row. */
  function RowYs(rows: seq<Row>): (r: seq<int>)
    ensures |r| == |rows| && forall i :: 0 <= i < |rows| ==> r[i] == rows[i].y
  {
    seq(|rows|, i requires 0 <= i < |rows| => rows[i].y)
  }

  /** `rows` lists every bucket of `ys` once, with its y and its length, in ascending y. */
  ghost predicate RowsByY(rows: seq<Row>, ys: AxeMap<StextLine>) {
    && (forall i, j :: 0 <= i < j < |rows| ==> rows[i].y <= rows[j].y)
    && multiset(RowYs(rows)) == multiset(ys.keys)
    && (forall i :: 0 <= i < |rows| ==>
          rows[i].y in ys.buckets && rows[i].bucket == ys.buckets[rows[i].y] && rows[i].count == |rows[i].bucket|)
  }

  /** The listing `format_pinout` would give, printed line by line. */
  ghost function Listing(pins: Pinout.Pins): Result<string> {
    if Pinout.Comparable(pins.Keys) then Success(Pinout.PinoutText(Pinout.SortedKeys(pins.Keys), pins, "\n"))
    else Failure(TypeError)
  }

  /**
   * `extract_pinout_quad`: the rows in ascending y, each with its bucket; then, in the dict's
   * key order, the buckets of a quarter of `numberOfPins` lines; then the pin listing, decoded
   * as `extract_pinout` decodes it.
   */
  method ExtractPinoutQuad(lines: seq<StextLine>, numberOfPins: int) returns (report: QuadReport)
    ensures RowsByY(report.rows, Ys(lines))
    ensures report.matching == Select(Buckets(Ys(lines)), FitsSide(numberOfPins))
    ensures report.pinout == Listing(PinsOf(lines))
  {
    var ys := Cluster(lines, LineY, LineX);
    var rows := SortedRows(ys);
    var pins := Pinout.DecodeBuckets(ys.keys, ys.buckets, LineText, false);
    var matching := MatchingBuckets(ys, numberOfPins);
    var pinout := Pinout.FormatPinout(pins, "\n");
    report := QuadReport(rows, matching, pinout);
  }

  /** `for y in sorted(ys): print(y, len(ys[y]), ys[y])`. */
  method SortedRows(ys: AxeMap<StextLine>) returns (rows: seq<Row>)
    requires forall k :: k in ys.buckets <==> k in ys.keys
    ensures RowsByY(rows, ys)
  {
    var sorted := StableSort(ys.keys, Id);
    StableReorderPermutes(sorted, ys.keys, Id);
    rows := RowsOf(ys, sorted);
    RowsSorted(rows, sorted, ys);
  }

  /** The loop body of `SortedRows`: one row per key of `sorted`, in that order. */
  method RowsOf(ys: AxeMap<StextLine>, sorted: seq<int>) returns (rows: seq<Row>)
    requires forall k :: k in ys.buckets <==> k in ys.keys
    requires multiset(sorted) == multiset(ys.keys)
    ensures RowYs(rows) == sorted
    ensures forall j :: 0 <= j < |rows| ==>
      rows[j].y in ys.buckets && rows[j].bucket == ys.buckets[rows[j].y] && rows[j].count == |rows[j].bucket|
  {
    rows := [];
    for i := 0 to |sorted|
      invariant RowYs(rows) == sorted[..i]
      invariant forall j :: 0 <= j < i ==>
        rows[j].y in ys.buckets && rows[j].bucket == ys.buckets[rows[j].y] && rows[j].count == |rows[j].bucket|
    {
      var y := sorted[i];
      assert y in multiset(ys.keys);
      var bucket := ys.buckets[y];
      rows := rows + [Row(y, |bucket|, bucket)];
    }
    assert sorted[..|sorted|] == sorted;
  }

  lemma RowsSorted(rows: seq<Row>, sorted: seq<int>, ys: AxeMap<StextLine>)
    requires RowYs(rows) == sorted && SortedBy(sorted, Id) && multiset(sorted) == multiset(ys.keys)
    requires forall j :: 0 <= j < |rows| ==>
      rows[j].y in ys.buckets && rows[j].bucket == ys.buckets[rows[j].y] && rows[j].count == |rows[j].bucket|
    ensures RowsByY(rows, ys)
  {
    forall i, j | 0 <= i < j < |rows|
      ensures rows[i].y <= rows[j].y
    {
      assert Id(sorted[i]) <= Id(sorted[j]);
    }
  }

  /** `for y in ys.values(): if len(y) == number_of_pins/4: print(y)`. */
  method MatchingBuckets(ys: AxeMap<StextLine>, numberOfPins: int) returns (matching: seq<seq<StextLine>>)
    requires forall i :: 0 <= i < |ys.keys| ==> ys.keys[i] in ys.buckets
    ensures matching == Select(Buckets(ys), FitsSide(numberOfPins))
  {
    ghost var all := Buckets(ys);
    matching := [];
    for i := 0 to |ys.keys|
      invariant matching == Select(all[..i], FitsSide(numberOfPins))
    {
      SelectSnoc(all, i, FitsSide(numberOfPins));
      var y := ys.buckets[ys.keys[i]];
      if 4 * |y| == numberOfPins {
        matching := matching + [y];
      }
    }
    assert all[..|ys.keys|] == all;
  }

  /**
   * No guard: the names of the page are exactly the second and third texts of its four-line
   * buckets, whatever those texts (and the other two) parse as.
   */
  lemma PinNames(lines: seq<StextLine>, name: Pinout.Part)
    ensures name in PinsOf(lines) <==>
      exists k :: k in Ys(lines).buckets && FourLineName(Ys(lines).buckets[k], name)
  {
    ClusteredIsClustering(lines, LineY, LineX);
    KeysInBuckets(Ys(lines));
    BucketNames(Ys(lines), name);
  }

  lemma KeysInBuckets(ys: AxeMap<StextLine>)
    requires forall k :: k in ys.buckets <==> k in ys.keys
    ensures forall i :: 0 <= i < |ys.keys| ==> ys.keys[i] in ys.buckets
  {
    forall i | 0 <= i < |ys.keys|
      ensures ys.keys[i] in ys.buckets
    {
      var k := ys.keys[i];
      assert k in ys.keys;
      assert k in ys.buckets;
    }
  }

  /** The names decoded from a dict of lists are the names of its four-line buckets. */
  lemma BucketNames(ys: AxeMap<StextLine>, name: Pinout.Part)
    requires forall k :: k in ys.buckets <==> k in ys.keys
    requires forall i :: 0 <= i < |ys.keys| ==> ys.keys[i] in ys.buckets
    ensures name in BucketPins(ys) <==> exists k :: k in ys.buckets && FourLineName(ys.buckets[k], name)
  {
    var parts := Pinout.BucketParts(ys.keys, ys.buckets, LineText);
    Pinout.DecodedKeys(parts, false, name);
    if name in BucketPins(ys) {
      var i :| 0 <= i < |parts| && Pinout.Names(parts[i], false, name);
      assert FourLineName(ys.buckets[ys.keys[i]], name);
    }
    if exists k :: k in ys.buckets && FourLineName(ys.buckets[k], name) {
      var k :| k in ys.buckets && FourLineName(ys.buckets[k], name);
      var i :| 0 <= i < |ys.keys| && ys.keys[i] == k;
      assert Pinout.Names(parts[i], false, name);
    }
  }

  /** `name` is what `int()` leaves of the second or third text of a four-line bucket. */
  predicate FourLineName(bucket: seq<StextLine>, name: Pinout.Part) {
    |bucket| == 4 && (name == Pinout.ToPart(bucket[1].t) || name == Pinout.ToPart(bucket[2].t))
  }
}
