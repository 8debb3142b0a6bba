/**
 * The older page module `DatasheetExtractor/page.py`. Its span stream, its size filter, its
 * `Line` and its `format_pinout` are the backend's (`PdfPage`, `Pinout`). Its `_sort_xy` differs:
 * the `setdefault` that creates a bucket is commented out, so appending to `axe_map[x]` meets
 * a missing key on the first span that survives the direction filter. Its pinout decoders,
 * built on `_sort_xy`, can then only succeed on a page with no such span.
 */
module LegacyPage {
  import opened Wrappers
  import opened Numbers
  import opened Clustering
  import PdfPage
  import Pinout

  type Span = PdfPage.Span
  type RawBlock = PdfPage.RawBlock

  /** The spans the stream yields before it ends that pass the direction test. */
  function Survivors(blocks: seq<RawBlock>, axe: string, ensureDirection: bool): seq<Span> {
    Select(PdfPage.PageLines(blocks).items, PdfPage.KeepDirection(axe, ensureDirection))
  }

  /**
   * What `_sort_xy` returns: a `KeyError` at the first surviving span; else the exception that
   * ended the stream; else the empty dict.
   */
  function SortXySpec(blocks: seq<RawBlock>, axe: string, ensureDirection: bool): Result<AxeMap<Span>> {
    if Survivors(blocks, axe, ensureDirection) != [] then Failure(KeyError)
    else if PdfPage.PageLines(blocks).error.Some? then Failure(PdfPage.PageLines(blocks).error.value)
    else Success(AxeMap([], map[]))
  }

  /**
   * `_sort_xy` as written: the direction test, the key, then `axe_map[x].append(line)` on a
   * dict nothing has filled.
   */
  method SortXy(blocks: seq<RawBlock>, axe: string, useCenter1: bool, useCenter2: bool,
                ensureDirection: bool, roundScale: Divisor) returns (r: Result<AxeMap<Span>>)
    ensures r == SortXySpec(blocks, axe, ensureDirection)
  {
    var all, error := PdfPage.Lines(blocks);
    ghost var keep := PdfPage.KeepDirection(axe, ensureDirection);
    for i := 0 to |all|
      invariant Select(all[..i], keep) == []
    {
      SelectSnoc(all, i, keep);
      if ensureDirection {
        if axe == "y" && all[i].direction != PdfPage.Horizontal {
          continue;
        }
        if axe == "x" && all[i].direction != PdfPage.Vertical {
          continue;
        }
      }
      var x := TruncDiv(PdfPage.GroupCoord(all[i], axe, useCenter1), roundScale);
      // `axe_map[x]`: no bucket was ever created
      SurvivorFound(all, i, keep);
      return Failure(KeyError);
    }
    assert all[..|all|] == all;
    if error.Some? {
      return Failure(error.value);
    }
    return Success(AxeMap([], map[]));
  }

  /** A span that passes the test, after none did, makes the selection non-empty. */
  lemma SurvivorFound(all: seq<Span>, i: nat, keep: Span -> bool)
    requires i < |all| && keep(all[i])
    ensures Select(all, keep) != []
  {
    assert all[i] in Select(all, keep);
  }

  /**
   * Against the backend's `sort_xy`: where the older copy succeeds, both return the empty dict;
   * where it fails on a key over a stream that ends normally, the backend fills a bucket.
   */
  lemma SortXyAgainstBackend(blocks: seq<RawBlock>, axe: string, useCenter1: bool, useCenter2: bool,
                             ensureDirection: bool, roundScale: Divisor)
    ensures var legacy := SortXySpec(blocks, axe, ensureDirection);
      var backend := PdfPage.SortXySpec(blocks, axe, useCenter1, useCenter2, ensureDirection, roundScale);
      && (legacy.Success? ==> backend == legacy)
      && (legacy == Failure(KeyError) && PdfPage.PageLines(blocks).error.None? ==>
            backend.Success? && backend.value.keys != [] && backend.value.buckets != map[])
  {
    var kept := Survivors(blocks, axe, ensureDirection);
    var key := PdfPage.BucketKey(axe, useCenter1, roundScale);
    var order := PdfPage.SortKey(axe, useCenter2);
    var c := Clustered(kept, key, order);
    if kept == [] {
      assert c.keys == [];
      assert c.buckets == map[];
    } else {
      assert key(kept[0]) in c.keys;
      assert key(kept[0]) in c.buckets;
    }
  }

  /** `extract_pinout` of the older copy: the same decode over `_sort_xy`'s buckets. */
  function ExtractPinoutSpec(blocks: seq<RawBlock>, axe: string): Result<Pinout.Pins> {
    var m :- SortXySpec(blocks, axe, true);
    Success(Pinout.DecodePins(Pinout.BucketParts(m.keys, m.buckets, Pinout.SpanText), true))
  }

  method ExtractPinout(blocks: seq<RawBlock>, axe: string) returns (r: Result<Pinout.Pins>)
    ensures r == ExtractPinoutSpec(blocks, axe)
  {
    var ys := SortXy(blocks, axe, false, false, true, 10);
    if ys.Failure? {
      return Failure(ys.error);
    }
    var pins := Pinout.DecodeBuckets(ys.value.keys, ys.value.buckets, Pinout.SpanText, true);
    return Success(pins);
  }

  /**
   * The older `extract_pinout` succeeds exactly when no span of the page passes the direction
   * filter and the stream ends normally, and then finds no pin.
   */
  lemma ExtractPinoutEmpty(blocks: seq<RawBlock>, axe: string)
    ensures var r := ExtractPinoutSpec(blocks, axe);
      && (r.Success? <==> Survivors(blocks, axe, true) == [] && PdfPage.PageLines(blocks).error.None?)
      && (r.Success? ==> r.value == map[])
      && (Survivors(blocks, axe, true) != [] ==> r == Failure(KeyError))
  {
  }

  function ExtractPinoutQuadSpec(blocks: seq<RawBlock>): Result<Pinout.Pins> {
    var h :- ExtractPinoutSpec(blocks, "y");
    var v :- ExtractPinoutSpec(blocks, "x");
    Pinout.CheckedUnion(h, v)
  }

  /** `extract_pinout_quad` of the older copy: both passes, the size check, the merge. */
  method ExtractPinoutQuad(blocks: seq<RawBlock>) returns (r: Result<Pinout.Pins>)
    ensures r == ExtractPinoutQuadSpec(blocks)
  {
    var h :- ExtractPinout(blocks, "y");
    var v :- ExtractPinout(blocks, "x");
    if |v| > 0 && |h| != |v| {
      return Failure(PinCountMismatch);
    }
    return Success(h + v);
  }

  /**
   * The older `extract_pinout_quad` succeeds exactly on a page whose stream ends normally and
   * has neither a horizontal nor a vertical span, and then returns the empty dict.
   */
  lemma ExtractPinoutQuadEmpty(blocks: seq<RawBlock>)
    ensures var r := ExtractPinoutQuadSpec(blocks);
      && (r.Success? <==> Survivors(blocks, "y", true) == [] && Survivors(blocks, "x", true) == []
                          && PdfPage.PageLines(blocks).error.None?)
      && (r.Success? ==> r.value == map[])
  {
    ExtractPinoutEmpty(blocks, "y");
    ExtractPinoutEmpty(blocks, "x");
  }
}
