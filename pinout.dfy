/**
 * The quad-package pinout decoder (`DatasheetExtractor/backend/extractor/pinout.py`, with its
 * older copies in `DatasheetExtractor/page.py`, `DatasheetExtractor/__init__.py` and
 * `dev/parse-stext.py`).
 *
 * A row (or column) of a quad package's pinout drawing reads `pin_l, name_l, name_r, pin_r`:
 * a bucket of four spans in which exactly two texts are pin numbers. Each such bucket maps the
 * two names to the two numbers.
 */
module Pinout {
  import opened Wrappers
  import opened PyText
  import opened Clustering
  import opened PdfPage

  /** A dict key or value once `int()` has replaced the texts that parse. */
  datatype Part = Num(n: int) | Text(s: string)

  /** `parts[i] = int(value)`, keeping the text when `int()` raises ValueError. */
  function ToPart(text: string): Part {
    match ParseInt(text)
    case Some(n) => Num(n)
    case None => Text(text)
  }

  /** `int_count`: how many parts are ints. */
  function NumCount(parts: seq<Part>): (n: nat)
    ensures n <= |parts|
  {
    if parts == [] then 0
    else NumCount(parts[..|parts| - 1]) + (if parts[|parts| - 1].Num? then 1 else 0)
  }

  type Pins = map<Part, Part>

  /**
   * A bucket is decoded when it holds four parts and, where the copy has the guard, exactly two
   * of them are ints (`dev/parse-stext.py` decodes every four-part bucket).
   */
  predicate Decodes(parts: seq<Part>, guarded: bool) {
    |parts| == 4 && (!guarded || NumCount(parts) == 2)
  }

  function DecodesWith(guarded: bool): seq<Part> -> bool {
    parts => Decodes(parts, guarded)
  }

  /** One bucket: `pins[l] = pin_l` then `pins[r] = pin_r`, where the bucket reads `pin_l, l, r, pin_r`. */
  function AddBucket(pins: Pins, parts: seq<Part>, guarded: bool): Pins {
    if Decodes(parts, guarded) then pins[parts[1] := parts[0]][parts[2] := parts[3]] else pins
  }

  /** The pin dict built from the buckets' parts, buckets visited in order. */
  function DecodePins(buckets: seq<seq<Part>>, guarded: bool): Pins {
    if buckets == [] then map[]
    else AddBucket(DecodePins(buckets[..|buckets| - 1], guarded), buckets[|buckets| - 1], guarded)
  }

  /** `int()` tried on every text of a bucket, keeping the texts that do not parse. */
  function Parts<T>(bucket: seq<T>, text: T -> string): (r: seq<Part>)
    ensures |r| == |bucket|
    ensures forall k :: 0 <= k < |bucket| ==> r[k] == ToPart(text(bucket[k]))
  {
    seq(|bucket|, k requires 0 <= k < |bucket| => ToPart(text(bucket[k])))
  }

  lemma DecodePinsSnoc(buckets: seq<seq<Part>>, last: seq<Part>, guarded: bool)
    ensures DecodePins(buckets + [last], guarded) == AddBucket(DecodePins(buckets, guarded), last, guarded)
  {
    assert (buckets + [last])[..|buckets|] == buckets;
  }

  /** Every bucket's parts, in the dict's key order. */
  function BucketParts<T>(keys: seq<int>, buckets: map<int, seq<T>>, text: T -> string): (r: seq<seq<Part>>)
    requires forall i :: 0 <= i < |keys| ==> keys[i] in buckets
    ensures |r| == |keys|
    ensures forall i :: 0 <= i < |keys| ==> r[i] == Parts(buckets[keys[i]], text)
  {
    if keys == [] then []
    else BucketParts(keys[..|keys| - 1], buckets, text) + [Parts(buckets[keys[|keys| - 1]], text)]
  }

  function SpanText(sp: Span): string {
    sp.text
  }

  /** `extract_pinout(axe)`: `sort_xy(axe, ensure_direction=True, round_scale=10)`, then the decode. */
  function ExtractPinoutSpec(blocks: seq<RawBlock>, axe: string): Result<Pins> {
    var m :- SortXySpec(blocks, axe, false, false, true, 10);
    Success(DecodePins(BucketParts(m.keys, m.buckets, SpanText), true))
  }

  /** `extract_pinout`: `sort_xy`, then the decode loop over its buckets. */
  method ExtractPinout(blocks: seq<RawBlock>, axe: string) returns (r: Result<Pins>)
    ensures r == ExtractPinoutSpec(blocks, axe)
  {
    var ys := SortXy(blocks, axe, false, false, true, 10);
    if ys.Failure? {
      return Failure(ys.error);
    }
    var pins := DecodeBuckets(ys.value.keys, ys.value.buckets, SpanText, true);
    return Success(pins);
  }

  lemma DecodePinsPrefix(buckets: seq<seq<Part>>, j: nat, guarded: bool)
    requires j < |buckets|
    ensures DecodePins(buckets[..j + 1], guarded) == AddBucket(DecodePins(buckets[..j], guarded), buckets[j], guarded)
  {
    assert buckets[..j + 1][..j] == buckets[..j];
  }

  /**
   * The decode loop of `extract_pinout`: buckets visited in the dict's key order (`guarded`:
   * the copy checks that exactly two parts are ints).
   */
  method DecodeBuckets<T>(keys: seq<int>, buckets: map<int, seq<T>>, text: T -> string, guarded: bool)
    returns (pins: Pins)
    requires forall i :: 0 <= i < |keys| ==> keys[i] in buckets
    ensures pins == DecodePins(BucketParts(keys, buckets, text), guarded)
  {
    ghost var all := BucketParts(keys, buckets, text);
    pins := map[];
    for j := 0 to |keys|
      invariant pins == DecodePins(all[..j], guarded)
    {
      DecodePinsPrefix(all, j, guarded);
      pins := DecodeBucket(pins, buckets[keys[j]], text, guarded);
    }
    assert all[..|keys|] == all;
  }

  /** One turn of the decode loop: a four-line bucket (with exactly two ints, if guarded) adds its two pins. */
  method DecodeBucket<T>(pins: Pins, y: seq<T>, text: T -> string, guarded: bool) returns (r: Pins)
    ensures r == AddBucket(pins, Parts(y, text), guarded)
  {
    r := pins;
    if |y| == 4 {
      var parts, intCount := IntParts(y, text);
      if !guarded || intCount == 2 {
        r := r[parts[1] := parts[0]];
        r := r[parts[2] := parts[3]];
      }
    }
  }

  /** `parts = [_.text for _ in y]`, then `int()` tried on every part, counting the successes. */
  method IntParts<T>(y: seq<T>, text: T -> string) returns (parts: seq<Part>, intCount: nat)
    ensures parts == Parts(y, text)
    ensures intCount == NumCount(parts)
  {
    ghost var target := Parts(y, text);
    parts := seq(|y|, k requires 0 <= k < |y| => Text(text(y[k])));
    intCount := 0;
    for i := 0 to |y|
      invariant |parts| == |y|
      invariant parts[..i] == target[..i]
      invariant intCount == NumCount(parts[..i])
    {
      var p := ToPart(text(y[i]));
      assert p == target[i];
      PartsStep(parts, target, i);
      parts := parts[i := p];
      if p.Num? {
        intCount := intCount + 1;
      }
    }
    assert parts == parts[..|y|];
  }

  /** Replacing the next part by its parsed value extends the parsed prefix by one. */
  lemma PartsStep(before: seq<Part>, target: seq<Part>, i: nat)
    requires i < |before| == |target| && before[..i] == target[..i]
    ensures before[i := target[i]][..i + 1] == target[..i + 1]
    ensures NumCount(target[..i + 1]) == NumCount(target[..i]) + (if target[i].Num? then 1 else 0)
  {
    assert target[..i + 1][..i] == target[..i];
  }

  /** Buckets that do not decode (the wrong size, or the wrong number of ints) never matter. */
  lemma {:induction false} OnlyDecodedBucketsCount(buckets: seq<seq<Part>>, guarded: bool)
    ensures DecodePins(buckets, guarded) == DecodePins(Select(buckets, DecodesWith(guarded)), guarded)
  {
    if buckets != [] {
      var n, keep := |buckets| - 1, DecodesWith(guarded);
      OnlyDecodedBucketsCount(buckets[..n], guarded);
      SelectSnoc(buckets, n, keep);
      assert buckets[..n + 1] == buckets;
      assert keep(buckets[n]) == Decodes(buckets[n], guarded);
      var s := Select(buckets[..n], keep);
      if Decodes(buckets[n], guarded) {
        DecodePinsSnoc(s, buckets[n], guarded);
      } else {
        assert s + [] == s;
      }
    }
  }

  /** The names a decoded bucket defines: its second and third parts. */
  predicate Names(parts: seq<Part>, guarded: bool, name: Part) {
    Decodes(parts, guarded) && (name == parts[1] || name == parts[2])
  }

  /** The pin dict holds exactly the names of the decoded buckets. */
  lemma {:induction false} DecodedKeys(buckets: seq<seq<Part>>, guarded: bool, name: Part)
    ensures name in DecodePins(buckets, guarded) <==> exists i :: 0 <= i < |buckets| && Names(buckets[i], guarded, name)
  {
    if buckets != [] {
      var init := buckets[..|buckets| - 1];
      DecodedKeys(init, guarded, name);
      if exists i :: 0 <= i < |init| && Names(init[i], guarded, name) {
        var i :| 0 <= i < |init| && Names(init[i], guarded, name);
        assert Names(buckets[i], guarded, name);
      }
      if exists i :: 0 <= i < |buckets| && Names(buckets[i], guarded, name) {
        var i :| 0 <= i < |buckets| && Names(buckets[i], guarded, name);
        if i < |init| {
          assert Names(init[i], guarded, name);
        }
      }
    }
  }

  /**
   * A later bucket overwrites an earlier entry: a name maps to what the last decoded bucket
   * naming it says (its fourth part when it is named twice there).
   */
  lemma {:induction false} LastBucketWins(buckets: seq<seq<Part>>, guarded: bool, j: nat, name: Part)
    requires j < |buckets| && Names(buckets[j], guarded, name)
    requires forall i :: j < i < |buckets| ==> !Names(buckets[i], guarded, name)
    ensures name in DecodePins(buckets, guarded)
    ensures DecodePins(buckets, guarded)[name] == if name == buckets[j][2] then buckets[j][3] else buckets[j][0]
  {
    var init := buckets[..|buckets| - 1];
    if j < |buckets| - 1 {
      LastBucketWins(init, guarded, j, name);
      assert !Names(buckets[|buckets| - 1], guarded, name);
    }
  }

  /** A one-digit text parses to its digit. */
  lemma DigitPart(d: nat)
    requires d < 10
    ensures ToPart([DigitChar(d)]) == Num(d)
  {
    ParseDecimal(d);
  }

  /** A name that starts and ends with a capital letter is not a number. */
  lemma NamePart(name: string)
    requires |name| > 0 && 'A' <= name[0] <= 'Z' && 'A' <= name[|name| - 1] <= 'Z'
    ensures ToPart(name) == Text(name)
  {
    LetterNotInt(name);
  }

  lemma ExampleParts()
    ensures ToPart("1") == Num(1) && ToPart("2") == Num(2) && ToPart("3") == Num(3) && ToPart("4") == Num(4)
    ensures ToPart("VDD") == Text("VDD") && ToPart("GND") == Text("GND")
  {
    DigitPart(1);
    DigitPart(2);
    DigitPart(3);
    DigitPart(4);
    NamePart("VDD");
    NamePart("GND");
  }

  /** The row `1 VDD GND 2` (parsed as ExampleParts shows) maps VDD to 1 and GND to 2. */
  lemma ExampleRow()
    ensures AddBucket(map[], [Num(1), Text("VDD"), Text("GND"), Num(2)], true)
         == map[Text("VDD") := Num(1), Text("GND") := Num(2)]
  {
    var p := [Num(1), Text("VDD"), Text("GND"), Num(2)];
    assert p[..3] == p[..4][..3] && p[..2] == p[..3][..2] && p[..1] == p[..2][..1];
    assert NumCount(p[..1][..0]) == 0;
    assert p[..4] == p;
    assert NumCount(p[..1]) == 1 && NumCount(p[..2]) == 1 && NumCount(p[..3]) == 1;
    assert NumCount(p) == 2;
  }

  /** Without the guard a row of four numbers is decoded too; with it, it is skipped. */
  lemma GuardMatters()
    ensures AddBucket(map[], [Num(1), Num(2), Num(3), Num(4)], true) == map[]
    ensures AddBucket(map[], [Num(1), Num(2), Num(3), Num(4)], false)
         == map[Num(2) := Num(1), Num(3) := Num(4)]
  {
    var p := [Num(1), Num(2), Num(3), Num(4)];
    assert p[..3] == p[..4][..3] && p[..2] == p[..3][..2] && p[..1] == p[..2][..1];
    assert NumCount(p[..1][..0]) == 0;
    assert p[..4] == p;
    assert NumCount(p[..1]) == 1 && NumCount(p[..2]) == 2 && NumCount(p[..3]) == 3;
    assert NumCount(p) == 4;
  }

  /**
   * `extract_pinout_quad`'s check and merge: it raises when the vertical dict is non-empty and
   * differs in size from the horizontal one; otherwise `h_pins.update(v_pins)`.
   */
  function CheckedUnion(h: Pins, v: Pins): (r: Result<Pins>)
    ensures r.Failure? <==> |v| > 0 && |h| != |v|
    ensures r.Failure? ==> r.error == PinCountMismatch
    ensures r.Success? ==> r.value.Keys == h.Keys + v.Keys
    ensures r.Success? ==> forall k :: k in r.value ==> r.value[k] == (if k in v then v[k] else h[k])
  {
    if |v| > 0 && |h| != |v| then Failure(PinCountMismatch) else Success(h + v)
  }

  function ExtractPinoutQuadSpec(blocks: seq<RawBlock>): Result<Pins> {
    var h :- ExtractPinoutSpec(blocks, "y");
    var v :- ExtractPinoutSpec(blocks, "x");
    CheckedUnion(h, v)
  }

  /** `extract_pinout_quad`: the horizontal pass, the vertical pass, then the checked merge. */
  method ExtractPinoutQuad(blocks: seq<RawBlock>) returns (r: Result<Pins>)
    ensures r == ExtractPinoutQuadSpec(blocks)
  {
    var h :- ExtractPinout(blocks, "y");
    var v :- ExtractPinout(blocks, "x");
    if |v| > 0 && |h| != |v| {
      return Failure(PinCountMismatch);
    }
    return Success(h + v);
  }

  /** `str(part)`. */
  function Render(p: Part): string {
    match p
    case Num(n) => Decimal(n)
    case Text(s) => s
  }

  /** Python's `<` where it is defined: ints by value, strings by code points; never across kinds. */
  predicate PartLess(a: Part, b: Part) {
    match (a, b)
    case (Num(x), Num(y)) => x < y
    case (Text(x), Text(y)) => StrLess(x, y)
    case _ => false
  }

  /** `sorted()` of these keys compares them without a TypeError: they are all ints or all strings. */
  predicate Comparable(keys: set<Part>) {
    (forall k :: k in keys ==> k.Num?) || (forall k :: k in keys ==> k.Text?)
  }

  lemma PartLessIrreflexive(a: Part)
    ensures !PartLess(a, a)
  {
    if a.Text? {
      StrLessIrreflexive(a.s);
    }
  }

  lemma PartLessTransitive(a: Part, b: Part, c: Part)
    requires PartLess(a, b) && PartLess(b, c)
    ensures PartLess(a, c)
  {
    if a.Text? {
      StrLessTransitive(a.s, b.s, c.s);
    }
  }

  lemma PartLessTotal(a: Part, b: Part)
    requires a != b && a.Num? == b.Num?
    ensures PartLess(a, b) || PartLess(b, a)
  {
    if a.Text? {
      StrLessTotal(a.s, b.s);
    }
  }

  predicate IsMin(m: Part, s: set<Part>) {
    m in s && forall x :: x in s && x != m ==> PartLess(m, x)
  }

  lemma {:induction false} MinExists(s: set<Part>)
    requires s != {} && Comparable(s)
    ensures exists m :: IsMin(m, s)
    decreases |s|
  {
    var x :| x in s;
    if s - {x} == {} {
      assert s == {x};
      assert IsMin(x, s);
    } else {
      MinExists(s - {x});
      var m :| IsMin(m, s - {x});
      if PartLess(m, x) {
        assert IsMin(m, s);
      } else {
        PartLessTotal(m, x);
        forall y | y in s && y != x
          ensures PartLess(x, y)
        {
          if y != m {
            PartLessTransitive(x, m, y);
          }
        }
        assert IsMin(x, s);
      }
    }
  }

  lemma MinUnique(m: Part, m': Part, s: set<Part>)
    requires IsMin(m, s) && IsMin(m', s)
    ensures m == m'
  {
    if m != m' {
      PartLessTransitive(m, m', m);
      PartLessIrreflexive(m);
    }
  }

  predicate StrictlySorted(keys: seq<Part>) {
    forall i, j :: 0 <= i < j < |keys| ==> PartLess(keys[i], keys[j])
  }

  /** `sorted(keys)` for keys Python can compare: the smallest key, then the rest sorted. */
  ghost function SortedKeys(s: set<Part>): (r: seq<Part>)
    requires Comparable(s)
    ensures forall i :: 0 <= i < |r| ==> r[i] in s
    decreases |s|
  {
    if s == {} then []
    else
      MinExists(s);
      var m :| IsMin(m, s);
      assert |s - {m}| == |s| - 1;
      var rest := SortedKeys(s - {m});
      assert forall i :: 0 < i < |rest| + 1 ==> ([m] + rest)[i] == rest[i - 1];
      [m] + rest
  }

  /** `sorted(keys)` lists every key once, in strictly ascending order. */
  lemma {:induction false} SortedKeysSorted(s: set<Part>)
    requires Comparable(s)
    ensures var r := SortedKeys(s); StrictlySorted(r) && |r| == |s| && forall x :: x in r <==> x in s
    decreases |s|
  {
    if s != {} {
      MinExists(s);
      var m :| IsMin(m, s);
      SortedKeysUnfold(s, m);
      var rest := SortedKeys(s - {m});
      SortedKeysSorted(s - {m});
      SortedCons(m, rest, s);
    }
  }

  /** The smallest key in front of the others, sorted, is sorted. */
  lemma SortedCons(m: Part, rest: seq<Part>, s: set<Part>)
    requires IsMin(m, s) && StrictlySorted(rest)
    requires forall x :: x in rest <==> x in s - {m}
    ensures StrictlySorted([m] + rest)
    ensures forall x :: x in [m] + rest <==> x in s
  {
    var r := [m] + rest;
    forall i, j | 0 <= i < j < |r|
      ensures PartLess(r[i], r[j])
    {
      if i == 0 {
        assert r[j] == rest[j - 1] && r[j] in s - {m};
      } else {
        assert r[i] == rest[i - 1] && r[j] == rest[j - 1];
      }
    }
  }

  /** The smallest key comes first. */
  lemma SortedKeysUnfold(s: set<Part>, m: Part)
    requires Comparable(s) && IsMin(m, s)
    ensures SortedKeys(s) == [m] + SortedKeys(s - {m})
  {
    MinExists(s);
    var m' :| IsMin(m', s) && SortedKeys(s) == [m'] + SortedKeys(s - {m'});
    MinUnique(m, m', s);
  }

  /** Any strictly ascending listing of the keys is `sorted(keys)`: the order is fully determined. */
  lemma {:induction false} SortedKeysUnique(r: seq<Part>, s: set<Part>)
    requires Comparable(s) && StrictlySorted(r)
    requires forall x :: x in r <==> x in s
    ensures r == SortedKeys(s)
    decreases |r|
  {
    if r == [] {
      assert s == {};
    } else {
      forall x | x in s && x != r[0]
        ensures PartLess(r[0], x)
      {
        var j :| 0 <= j < |r| && r[j] == x;
      }
      assert IsMin(r[0], s);
      SortedKeysUnfold(s, r[0]);
      forall x
        ensures x in r[1..] <==> x in s - {r[0]}
      {
        if x in r[1..] {
          var j :| 1 <= j < |r| && r[j] == x;
          PartLessIrreflexive(x);
        }
        if x in s - {r[0]} {
          assert x in r;
        }
      }
      SortedKeysUnique(r[1..], s - {r[0]});
    }
  }

  /** `f' {key}: {pins[key]}' + linesep`. */
  function PinoutLine(key: Part, value: Part, sep: string): string {
    " " + Render(key) + ": " + Render(value) + sep
  }

  /** The text accumulated over `keys`. */
  function PinoutText(keys: seq<Part>, pins: Pins, sep: string): string
    requires forall i :: 0 <= i < |keys| ==> keys[i] in pins
  {
    if keys == [] then ""
    else PinoutText(keys[..|keys| - 1], pins, sep) + PinoutLine(keys[|keys| - 1], pins[keys[|keys| - 1]], sep)
  }

  /**
   * `format_pinout(pins)`: one line per key in ascending key order. Keys of both kinds make
   * `sorted()` raise TypeError.
   */
  method FormatPinout(pins: Pins, sep: string) returns (r: Result<string>)
    ensures !Comparable(pins.Keys) ==> r == Failure(TypeError)
    ensures Comparable(pins.Keys) ==> r == Success(PinoutText(SortedKeys(pins.Keys), pins, sep))
  {
    if !Comparable(pins.Keys) {
      return Failure(TypeError);
    }
    var keys := Sorted(pins.Keys);
    var text := "";
    for i := 0 to |keys|
      invariant text == PinoutText(keys[..i], pins, sep)
    {
      assert keys[..i + 1][..i] == keys[..i];
      text := text + PinoutLine(keys[i], pins[keys[i]], sep);
    }
    assert keys[..|keys|] == keys;
    return Success(text);
  }

  /** `sorted(keys)`, by repeatedly taking the smallest remaining key. */
  method Sorted(s: set<Part>) returns (keys: seq<Part>)
    requires Comparable(s)
    ensures keys == SortedKeys(s)
  {
    keys := [];
    var remaining := s;
    while remaining != {}
      invariant remaining <= s
      invariant keys + SortedKeys(remaining) == SortedKeys(s)
      decreases remaining
    {
      MinExists(remaining);
      var m :| IsMin(m, remaining);
      SortedKeysUnfold(remaining, m);
      ghost var rest := SortedKeys(remaining - {m});
      assert keys + [m] + rest == keys + ([m] + rest);
      keys := keys + [m];
      remaining := remaining - {m};
    }
  }

  /** VDD to 1 and GND to 2 print as `' GND: 2\n VDD: 1\n'`. */
  lemma ExamplePinoutText()
    ensures var pins := map[Text("VDD") := Num(1), Text("GND") := Num(2)];
      Comparable(pins.Keys) && PinoutText(SortedKeys(pins.Keys), pins, "\n") == " GND: 2\n VDD: 1\n"
  {
    var pins := map[Text("VDD") := Num(1), Text("GND") := Num(2)];
    var r := [Text("GND"), Text("VDD")];
    assert pins.Keys == {Text("GND"), Text("VDD")};
    ExampleSortedKeys();
    assert SortedKeys(pins.Keys) == r;
    assert Decimal(1) == "1" && Decimal(2) == "2";
    assert r[..1] == [Text("GND")] && r[..1][..0] == [];
    assert PinoutText(r[..1], pins, "\n") == " GND: 2\n";
    assert PinoutText(r, pins, "\n") == " GND: 2\n" + " VDD: 1\n";
  }

  /** `sorted({'VDD', 'GND'})` is `['GND', 'VDD']`. */
  lemma ExampleSortedKeys()
    ensures Comparable({Text("GND"), Text("VDD")})
    ensures SortedKeys({Text("GND"), Text("VDD")}) == [Text("GND"), Text("VDD")]
  {
    assert StrLess("GND", "VDD");
    SortedKeysUnique([Text("GND"), Text("VDD")], {Text("GND"), Text("VDD")});
  }
}
