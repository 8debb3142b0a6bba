# DatasheetExtractor text-geometry core, in Dafny

This project models the core of DatasheetExtractor, a tool that reads electronic-component
datasheets (PDF) and recovers tables and pinouts from the positions of their text spans.

- **Page** (`page.dfy`, `geometry.dfy`, `numbers.dfy`, `clustering.dfy`). A page is the stream
  of its text spans, flattened block by block, line by line and span by span from PyMuPDF's page
  dictionary. The same module covers the size filter and `sort_xy`. `sort_xy` filters spans on
  their direction, buckets them on a coordinate divided and truncated toward zero, and sorts
  every bucket stably on the other axis. The `Line` class collects merged sibling spans and
  computes their hull and the "inclusive" centres.
- **Pinout** (`pinout.dfy`, `pytext.dfy`). Four-span buckets are decoded into a pin dict
  (`pin_l, l, r, pin_r`), with the exactly-two-integers guard. The horizontal and vertical
  passes go through a checked merge, and `format_pinout` prints the pins in ascending key order.
- **Multiplexing table** (`merging.dfy`, `multiplexing.dfy`). The example script
  `process_multiplexing_table` has three stages:
  - a left-to-right fold that links spans into cells;
  - row assembly on the inclusive y centre;
  - the split of every row around the pin-name column.
- **Older copies** (`legacy_page.dfy`, `legacy_init.dfy`, `stext.dfy`):
  - `DatasheetExtractor/page.py`, whose `_sort_xy` lacks the `setdefault`;
  - `DatasheetExtractor/__init__.py`, whose `format_pinout` has neither `self` nor
    `@staticmethod`, and whose `DatasheetExtractor` class caches its path;
  - the pinout part of `dev/parse-stext.py`, which has no rounding and no integer guard.
- **LRU cache** (`lru_cache.dfy`). This is `LruCache` and `CacheElement`: the recency list is
  a sequence of element objects, youngest first. The model covers the dict, the running size,
  the reference counters and the `recycle` walk from the oldest element.
- **Documents** (`documents.dfy`):
  - the cache file name derived from a URL path, cached on first access;
  - the PDF file-header check (`%PDF-`, section 7.5.2 of ISO 32000-1);
  - the local/remote choice on the URL scheme;
  - the page-number bound of `_load_page`;
  - `iter_until`.
- **Text reformatters** (`format.dfy`): `table_formater` and `format_list` of `dev/format.py`.

Python exceptions are `Failure` values of `Wrappers.Result`, or `Option<Error>` next to what was
produced before the exception. What the scripts print is returned as a value.

Bucket keys are `int(x / round_scale)`, truncated toward zero, not floored, and the buckets come
in first-seen order (a dict's insertion order), not in key order.

## Model

| member | source | states |
|---|---|---|
| Numbers.TruncDiv | DatasheetExtractor/backend/pdf/page.py:290 | `int(x / d)`: the remainder is smaller than the divisor and has the dividend's sign, and the quotient is no larger than `x / d` in magnitude (truncation toward zero, not floor) |
| Geometry.Interval.Union | DatasheetExtractor/backend/pdf/page.py:103 | the union of two intervals holds both, and is held by every interval that holds both (the hull) |
| Geometry.Interval.Intersects | examples/test.py:80 | two valid closed intervals intersect exactly when they share a point |
| Geometry.Interval.Enlarge | examples/test.py:80 | the enlarged interval holds exactly the points within `margin` of the original, so it holds the original for a non-negative margin |
| Geometry.Interval.Center | DatasheetExtractor/backend/pdf/page.py:71-73 | the centre lies in a valid interval and is the midpoint truncated toward zero |
| Geometry.Box.Union | DatasheetExtractor/backend/pdf/page.py:103 | `bbox \|= other`: the smallest box holding both |
| Geometry.Box.Intersects | examples/test.py:80 | two valid boxes intersect exactly when they share a point |
| Geometry.Box.Enlarge | examples/test.py:80 | both axes are enlarged by the margin, and the result holds the box |
| Geometry.Box.CenterX | DatasheetExtractor/backend/pdf/page.py:75-77 | `center_x` lies within the x extent |
| Geometry.Box.CenterY | DatasheetExtractor/backend/pdf/page.py:79-81 | `center_y` lies within the y extent |
| PdfPage.Lines | DatasheetExtractor/backend/pdf/page.py:239-258 | the generator loop yields exactly what the fold `PageLines` describes: the spans, and the exception it stops with |
| PdfPage.PageLinesFaithful | DatasheetExtractor/backend/pdf/page.py:244-258 | every yielded span is built from the raw span at its location (its bbox corners `(x0, y0, x1, y1)` become the intervals `[x0, x1]` and `[y0, y1]`), and the spans come in strictly increasing block/line/span order |
| PdfPage.PageLinesError | DatasheetExtractor/backend/pdf/page.py:247-251 | the only exception the stream can stop with is the unbound `direction` |
| PdfPage.PageLinesKnown | DatasheetExtractor/backend/pdf/page.py:244-258 | on a page where every line states one of the two axis directions, the stream does not fail, yields every span of the blocks with lines, and tags each span with its own line's direction |
| PdfPage.DirectionCarriedOver | DatasheetExtractor/backend/pdf/page.py:247-251 | for example, a line with another `dir` right after a horizontal line yields a horizontal span, because it reuses the previous line's direction |
| PdfPage.UnboundFirstDirection | DatasheetExtractor/backend/pdf/page.py:247-252 | a first line with another `dir` makes the stream fail on its first span, with nothing yielded |
| PdfPage.FilterLines | DatasheetExtractor/backend/pdf/page.py:262-266 | `filter_lines`: no size fails with TypeError; otherwise the result is exactly the spans of that size, in page order, plus the stream's own exception |
| PdfPage.FilterSize | DatasheetExtractor/backend/pdf/page.py:264-266 | the loop keeps exactly the spans of the given size, in order |
| PdfPage.FilterDirection | DatasheetExtractor/backend/pdf/page.py:280-285 | the `continue`s keep exactly the spans the direction test accepts, in order |
| PdfPage.DirectionFilter | DatasheetExtractor/backend/pdf/page.py:281-285 | with `ensure_direction`, axis `'y'` keeps exactly the horizontal spans and axis `'x'` exactly the vertical ones; otherwise every span is kept |
| PdfPage.SortXy | DatasheetExtractor/backend/pdf/page.py:270-301 | `sort_xy` returns the clustering of the kept spans on the truncated key, sorted on the other axis, or the stream's exception |
| PdfPage.SortXyBuckets | DatasheetExtractor/backend/pdf/page.py:286-301 | the buckets come in first-seen key order; each is a stably sorted reordering of exactly the kept spans with its key, and every kept span is in exactly one bucket |
| PdfPage.HullIncludes | DatasheetExtractor/backend/pdf/page.py:99-104 | the siblings' hull holds the own bbox and every sibling bbox |
| PdfPage.HullLeast | DatasheetExtractor/backend/pdf/page.py:99-104 | any box holding the own bbox and the siblings' bboxes holds the hull |
| PdfPage.Line.constructor | DatasheetExtractor/backend/pdf/page.py:58-67 | a new line holds its span and no siblings |
| PdfPage.Line.Link | DatasheetExtractor/backend/pdf/page.py:133-134 | the linked line is appended at the end of `siblings`, and nothing else changes |
| PdfPage.Line.SiblingsBbox | DatasheetExtractor/backend/pdf/page.py:99-104 | the loop computes the hull of the own bbox and the siblings' bboxes on a clone; the line is unchanged |
| PdfPage.InclusiveCentres | DatasheetExtractor/backend/pdf/page.py:106-118 | without siblings, both inclusive centres are the own y centre (for x as written); with siblings, they are the hull's centres |
| Clustering.Select | DatasheetExtractor/backend/pdf/page.py:262-266 | a filter keeps only items that pass and every item that passes |
| Clustering.SelectAppend | DatasheetExtractor/backend/pdf/page.py:264-266 | filtering preserves input order: it distributes over concatenation |
| Clustering.FirstSeenKeys | DatasheetExtractor/backend/pdf/page.py:291 | the dict's keys are distinct and include every item's key |
| Clustering.FirstSeenKeysOccur | DatasheetExtractor/backend/pdf/page.py:291 | every key is the key of some item |
| Clustering.GroupBy | DatasheetExtractor/backend/pdf/page.py:279-292 | the `setdefault`/`append` loop builds exactly the first-seen keys, with each key's items in input order |
| Clustering.StableSort | DatasheetExtractor/backend/pdf/page.py:294-300 | `list.sort(key=...)` yields a sorted, stable reordering, equal to the reference `SortOn` |
| Clustering.StableSortUnique | DatasheetExtractor/backend/pdf/page.py:300 | two sorted, stable reorderings of the same list are equal, so a stable sort has only one possible result |
| Clustering.StableReorderPermutes | DatasheetExtractor/backend/pdf/page.py:300 | a stable reordering is a permutation |
| Clustering.SortOnSortedStable | DatasheetExtractor/backend/pdf/page.py:300 | the reference insertion sort is sorted and stable |
| Clustering.SortOnUnique | DatasheetExtractor/backend/pdf/page.py:300 | whatever is sorted and a stable reordering of `s` equals `SortOn(s)` |
| Clustering.SortBuckets | DatasheetExtractor/backend/pdf/page.py:294-300 | the second loop sorts every bucket and keeps the key set |
| Clustering.Cluster | DatasheetExtractor/backend/pdf/page.py:279-301 | bucketing, then sorting in place, yields `Clustered` |
| Clustering.ClusteredIsClustering | DatasheetExtractor/backend/pdf/page.py:279-301 | `Clustered` has the first-seen keys, and each of its buckets is its group sorted stably |
| Clustering.ClusteringUnique | DatasheetExtractor/backend/pdf/page.py:279-301 | every clustering of the items is `Clustered` |
| Clustering.GroupsPartition | DatasheetExtractor/backend/pdf/page.py:291-292 | across all buckets, every item occurs exactly as often as in the input |
| Clustering.ClusteredPartition | DatasheetExtractor/backend/pdf/page.py:279-301 | the clustering spelled out: first-seen keys, each bucket a stably sorted permutation of its group, and the buckets together a permutation of the items |
| Pinout.NumCount | DatasheetExtractor/backend/extractor/pinout.py:57-61 | `int_count` counts at most the number of parts |
| Pinout.IntParts | DatasheetExtractor/backend/extractor/pinout.py:56-63 | the replacement loop turns every text into `int()` of it, or keeps the text when `int()` fails (the parts `Parts`), and counts the ints among them |
| Pinout.DecodeBucket | DatasheetExtractor/backend/extractor/pinout.py:55-67 | one loop turn adds the bucket's two pins when it decodes, and otherwise leaves the dict unchanged |
| Pinout.DecodeBuckets | DatasheetExtractor/backend/extractor/pinout.py:53-68 | the decode loop visits the buckets in dict order and builds `DecodePins` |
| Pinout.ExtractPinout | DatasheetExtractor/backend/extractor/pinout.py:49-68 | `extract_pinout` is `sort_xy(axe, ensure_direction=True, round_scale=10)` followed by the decode |
| Pinout.OnlyDecodedBucketsCount | DatasheetExtractor/backend/extractor/pinout.py:55-64 | buckets of the wrong size, or with a number of ints other than two, never affect the dict |
| Pinout.DecodedKeys | DatasheetExtractor/backend/extractor/pinout.py:64-67 | a name is in the dict exactly when it is the second or third part of a decoded bucket |
| Pinout.LastBucketWins | DatasheetExtractor/backend/extractor/pinout.py:66-67 | a later bucket overwrites earlier entries, so a name maps to what the last decoded bucket naming it says |
| Pinout.ExampleRow | DatasheetExtractor/backend/extractor/pinout.py:65-67 | the row `1 VDD GND 2` maps VDD to 1 and GND to 2 |
| Pinout.GuardMatters | DatasheetExtractor/backend/extractor/pinout.py:64 | a row of four numbers is skipped with the guard and decoded without it |
| Pinout.CheckedUnion | DatasheetExtractor/backend/extractor/pinout.py:75-78 | it raises exactly when the vertical dict is non-empty and differs in size; otherwise the keys are the union, and vertical values win |
| Pinout.ExtractPinoutQuad | DatasheetExtractor/backend/extractor/pinout.py:72-78 | the horizontal pass, then the vertical pass, then the checked merge |
| Pinout.SortedKeysSorted | DatasheetExtractor/backend/extractor/pinout.py:85 | `sorted(keys)` lists every key once, in strictly ascending order |
| Pinout.SortedKeysUnique | DatasheetExtractor/backend/extractor/pinout.py:85 | any strictly ascending listing of the keys equals `sorted(keys)` |
| Pinout.Sorted | DatasheetExtractor/backend/extractor/pinout.py:85 | the selection loop yields `sorted(keys)` |
| Pinout.FormatPinout | DatasheetExtractor/backend/extractor/pinout.py:82-87 | one `' {key}: {value}'` line plus separator per key, in ascending order; keys of both kinds raise TypeError |
| Pinout.ExamplePinoutText | DatasheetExtractor/backend/extractor/pinout.py:82-87 | VDD→1, GND→2 print as `' GND: 2\n VDD: 1\n'` |
| Pinout.PartLessTotal | DatasheetExtractor/backend/extractor/pinout.py:85 | Python's `<` is a total order on same-kind keys |
| PyText.Strip | dev/format.py:36 | `strip()` is the text with its leading and trailing whitespace cut off: a contiguous piece of it, with only whitespace before and after; it is empty exactly for a blank text, and otherwise neither starts nor ends with whitespace |
| PyText.StripTwice | dev/format.py:36 | stripping a stripped text changes nothing |
| PyText.ParseDecimal | DatasheetExtractor/backend/extractor/pinout.py:60 | `int(str(n)) == n` |
| PyText.LetterNotInt | DatasheetExtractor/backend/extractor/pinout.py:60-63 | a text starting with an ASCII letter, capital or small, raises ValueError in `int()` |
| PyText.SplitTerminated | dev/format.py:35 | `splitlines()` of lines, each followed by a newline, gives the lines back |
| PyText.SplitFirst | dev/format.py:35 | a line without a boundary, followed by `"\n"`, splits off first |
| PyText.Lower | dev/format.py:13 | `lower()` maps ASCII capitals to small letters and leaves other characters alone |
| PyText.ReplaceChar | dev/format.py:26 | one character becomes the replacement when it is the pattern and stays otherwise; after `replace(c, by)` with `c` not in `by`, no `c` remains; a text without `c` is unchanged |
| PyText.ReplaceCharAppend | dev/format.py:26 | replacing in a concatenation replaces in each part, so every `c` is replaced in place and every other character kept, in order |
| PyText.ReplaceSpaces | dev/format.py:26 | the cell `"a b"` is written `"a \| b"` |
| Merging.MergedPartition | examples/test.py:72-101 | read cell by cell, first span then its members, the cells hold every span exactly once, in arrival order |
| Merging.MergedJoins | examples/test.py:76-101 | every member passed the test against its cell as it stood then, and every cell's first span was refused by the cell before |
| Multiplexing.MergeCells | examples/test.py:72-101 | the merge loop returns distinct `Line` objects, each holding its model cell's first span and siblings |
| Multiplexing.CellsOpen | examples/test.py:76-101 | a span that fails both tests, or comes first, opens a new cell |
| Multiplexing.CellsJoin | examples/test.py:80-94 | a span that passes the overlap test, or else the x-centre test, is linked into the last cell |
| Multiplexing.CellTextJoined | examples/test.py:128-131 | the cell text is its own text and its siblings' texts joined with `' // '` |
| Multiplexing.StartsAt | examples/test.py:106 | a cell opens a row exactly when it is first or its inclusive y centre is at least the previous cell's size away |
| Multiplexing.RowsShape | examples/test.py:103-110 | the rows are non-empty, their concatenation is the cells, and a row begins exactly where `starts` says |
| Multiplexing.RowsFlatten | examples/test.py:103-110 | concatenating the rows gives back the cells |
| Multiplexing.AssembleRows | examples/test.py:103-110 | the rows loop builds `Rows(cells, Starts(...))` |
| Multiplexing.FirstPin | examples/test.py:132 | the first cell in the pin-name column, with no earlier cell in it |
| Multiplexing.ClassifyPartition | examples/test.py:122-139 | every cell text lands once, in order: pin numbers, then the name, then the I/Os; there is no name exactly when no cell is in the column |
| Multiplexing.ClassifyRow | examples/test.py:123-139 | the classification loop computes `Classify` of the row |
| Multiplexing.ClassifyRows | examples/test.py:122-139 | every row is classified in turn |
| Multiplexing.Tabulate | examples/test.py:72-139 | merge, rows, and the classification of every row after the first give `Table(spans)` |
| Multiplexing.ProcessMultiplexingTable | examples/test.py:69-139 | the table of the 4.5 pt spans, or the stream's exception |
| LegacyPage.SortXy | DatasheetExtractor/page.py:208-232 | `_sort_xy` as written: a KeyError at the first surviving span, else the stream's exception, else the empty dict |
| LegacyPage.SortXyAgainstBackend | DatasheetExtractor/page.py:208-232 | where the older copy succeeds, the backend's `sort_xy` returns the same empty dict; where it fails on a key and the stream ends normally, the backend succeeds with a non-empty dict |
| LegacyPage.ExtractPinout | DatasheetExtractor/page.py:236-255 | the same decode over `_sort_xy`'s result |
| LegacyPage.ExtractPinoutEmpty | DatasheetExtractor/page.py:236-255 | the older `extract_pinout` succeeds exactly when no span passes the direction filter and the stream ends normally, and then returns the empty dict |
| LegacyPage.ExtractPinoutQuad | DatasheetExtractor/page.py:259-265 | both passes, the size check, the merge |
| LegacyPage.ExtractPinoutQuadEmpty | DatasheetExtractor/page.py:259-265 | the older `extract_pinout_quad` succeeds exactly on a page without horizontal or vertical spans, and then returns the empty dict |
| LegacyInit.FormatPinout | DatasheetExtractor/__init__.py:273-277 | called on an instance, it raises TypeError; called on the class, it formats as the backend does |
| LegacyInit.DatasheetExtractor.constructor | DatasheetExtractor/__init__.py:287-291 | the URL and cache path are stored, and `_path` is unset |
| LegacyInit.DatasheetExtractor.Path | DatasheetExtractor/__init__.py:301-311 | the first read derives and stores the cache path (or raises); later reads return the stored path |
| Stext.YsBuckets | dev/parse-stext.py:39-45 | one bucket per distinct exact y, in first-seen order; each holds exactly that y's lines, sorted stably by x |
| Stext.DecodePage | dev/parse-stext.py:39-59 | the dict loops and the unguarded decode build `PinsOf(lines)` |
| Stext.PinNames | dev/parse-stext.py:48-59 | a name is in the dict exactly when it is the second or third text of a four-line bucket, whatever the texts parse as |
| Stext.BucketNames | dev/parse-stext.py:49-59 | the same, for any dict of lists whose key list and buckets agree |
| Stext.ExtractPinout | dev/parse-stext.py:36-62 | the printed listing is `format_pinout` of the decoded dict, with `"\n"` as separator |
| Stext.SortedRows | dev/parse-stext.py:79-81 | the rows list every bucket once, with its y and its length, in ascending y |
| Stext.MatchingBuckets | dev/parse-stext.py:97-99 | the buckets whose size is a quarter of the pin count, in dict order |
| Stext.ExtractPinoutQuad | dev/parse-stext.py:66-103 | the rows by y, the matching buckets, and the listing |
| Lru.CacheElement.constructor | DatasheetExtractor/common/LruCache.py:74-87 | the element holds the object, its key and size, and counter 1 if acquired, else 0 |
| Lru.CacheElement.Acquire | DatasheetExtractor/common/LruCache.py:97-100 | the counter goes up by one, and the stored object is returned |
| Lru.CacheElement.Release | DatasheetExtractor/common/LruCache.py:104-106 | the counter goes down by one, with no lower bound |
| Lru.WithoutPresent | DatasheetExtractor/common/LruCache.py:194-207 | unlinking a listed element keeps the others once each, removes one element, and takes its size off the total |
| Lru.MoveToFront | DatasheetExtractor/common/LruCache.py:247-259 | moving an element to the youngest place keeps the same elements, once each, with the same total size |
| Lru.RecycleOutcome | DatasheetExtractor/common/LruCache.py:211-222 | `recycle` evicts only unreferenced elements and takes off exactly their sizes; afterwards the size is within the budget, or every element left is referenced |
| Lru.FailAtSpec | DatasheetExtractor/common/LruCache.py:215-219 | the walk fails at the oldest planned element whose key is absent from the dict or shared with an older planned element, and fails at all exactly when there is such an element |
| Lru.EvictedKeysMembers | DatasheetExtractor/common/LruCache.py:217-218 | the keys `recycle` deletes are exactly the keys of the planned elements |
| Lru.UnderBudgetNever | DatasheetExtractor/common/LruCache.py:216 | within the budget, nothing is evicted |
| Lru.MoveKeepsStep | DatasheetExtractor/common/LruCache.py:247-259 | the move to the front keeps the list and the dict in step |
| Lru.AddKeepsStep | DatasheetExtractor/common/LruCache.py:228-233 | `add` keeps the cache in step exactly when the key was fresh |
| Lru.EvictKeepsStep | DatasheetExtractor/common/LruCache.py:218-220 | in a cache in step, an evicted key is always in the dict, and the cache stays in step |
| Lru.LruCache.constructor | DatasheetExtractor/common/LruCache.py:126-131 | an empty cache with the given budget and size 0 |
| Lru.LruCache.SetConstraint | DatasheetExtractor/common/LruCache.py:140-142 | only the budget changes |
| Lru.LruCache.Len | DatasheetExtractor/common/LruCache.py:146-148 | `len` is the number of dict entries |
| Lru.LruCache.Size | DatasheetExtractor/common/LruCache.py:152-154 | the running size |
| Lru.LruCache.Elements | DatasheetExtractor/common/LruCache.py:158-163 | iteration lists the elements from youngest to oldest |
| Lru.LruCache.Reset | DatasheetExtractor/common/LruCache.py:167-176 | the dict and the list are emptied and the size is kept, so the cache is in step only when the size was 0 |
| Lru.LruCache.PushElement | DatasheetExtractor/common/LruCache.py:180-190 | the element becomes the youngest |
| Lru.LruCache.UnlinkElement | DatasheetExtractor/common/LruCache.py:194-207 | the element leaves the list, and the others keep their order |
| Lru.LruCache.Add | DatasheetExtractor/common/LruCache.py:228-233 | a new youngest element, counter 1 if acquired, entered under its key, with its size added; the cache stays in step only for a fresh key |
| Lru.LruCache.Remove | DatasheetExtractor/common/LruCache.py:237-243 | a present key fails on the missing attribute `size_in_cache` before any change; an absent key changes nothing |
| Lru.LruCache.Acquire | DatasheetExtractor/common/LruCache.py:247-259 | a present element moves to the youngest place (the others keep their order), gains a reference and returns its object; an absent key returns `None` and changes nothing |
| Lru.LruCache.Recycle | DatasheetExtractor/common/LruCache.py:211-224 | the walk carries out `Plan`: without an error exactly the planned elements are unlinked, their keys deleted and their sizes taken off; KeyError happens exactly when `FailAt` finds a planned element whose key is gone, and then that element is unlinked and every older planned one is evicted in full; a cache in step never meets a KeyError and stays in step |
| Lru.LruCache.Evict | DatasheetExtractor/common/LruCache.py:217-220 | unlink, `del` of the key (KeyError when the dict no longer holds it), size taken off |
| Lru.LruCache.Release | DatasheetExtractor/common/LruCache.py:263-267 | a present element loses a reference; an absent key changes nothing |
| Documents.RFind | DatasheetExtractor/document.py:73 | `rfind` returns the last index of the character, or -1 when the character is absent |
| Documents.FileName | DatasheetExtractor/document.py:73-77 | a URL path with no `'/'`, or ending in `'/'`, raises on the unbound `filename`; otherwise the result is the non-empty text after the last `'/'` |
| Documents.FileNameOfJoin | DatasheetExtractor/document.py:73-75 | the file name of `prefix/name` is `name` |
| Documents.CachedPath | DatasheetExtractor/document.py:72-78 | the cache path is the cache directory joined with the file name (`joinpath` of `'.'` adds nothing), and exists exactly when the file name does |
| Documents.Document.constructor | DatasheetExtractor/document.py:55-65 | `url` is the given URL, and `_path` is unset |
| Documents.Document.Path | DatasheetExtractor/document.py:69-79 | the first read derives and stores the path (or raises); later reads return the stored path |
| Documents.PathTwice | DatasheetExtractor/document.py:69-79 | after a successful first read, the second read returns the same path and changes nothing |
| Documents.CheckMagicNumber | DatasheetExtractor/backend/pdf/document.py:56-61 | true exactly when the first five bytes are `%PDF-`; a byte above 127 among them raises a decode error |
| Documents.MagicPrefix | DatasheetExtractor/backend/pdf/document.py:56-61 | data starting with the header passes, whatever follows |
| Documents.PdfDocument.constructor | DatasheetExtractor/backend/pdf/document.py:65-79 | the attributes `__init__` sets before it downloads or opens: `_doc` is `None` (not opened); a URL with a scheme is kept with no path yet; anything else is a local path with no URL |
| Documents.PdfDocument.Open | DatasheetExtractor/backend/pdf/document.py:65-115 | `__init__` as written: a local path is kept as given and opened by `_load`; a remote document raises on a bad download status, otherwise its cache path is derived and stored during construction (or construction raises on the unbound `filename`), and it is left unopened, as `__init__` never calls `_load` for it |
| Documents.PdfDocument.Load | DatasheetExtractor/backend/pdf/document.py:119-123 | `_load`: an opened document, or one whose path is known, is opened with nothing else changed; otherwise the cache path is derived and stored first, and the unbound `filename` leaves the document unopened |
| Documents.PdfDocument.Path | DatasheetExtractor/backend/pdf/document.py:93-103 | a local path is returned as given; otherwise the cache path is derived once and stored |
| Documents.PdfDocument.LoadPage | DatasheetExtractor/backend/pdf/document.py:150-160 | `len(self)` on a document not opened raises AttributeError on `page_count`; on an opened one a page number below the page count passes the bound check and any other raises ValueError |
| Documents.PdfDocument.IterUntil | DatasheetExtractor/backend/pdf/document.py:192-196 | the pages yielded are 0, 1, … in order, up to `last_page` (all pages for `None`) or until the `_load_page` bound check raises: on an opened document ValueError once `last_page` reaches the page count; on one not opened AttributeError before the first page (at once for `None`, nothing for a negative `last_page`) |
| Documents.IterUntilAll | DatasheetExtractor/backend/pdf/document.py:192-196 | `iter_until(None)` on an opened document yields every page once, in order, without an exception; on one not opened it raises AttributeError before yielding anything |
| Documents.RemoteNeedsLoad | DatasheetExtractor/backend/pdf/document.py:73-80 | a downloaded document's first page raises AttributeError until `_load()` is called, after which it passes the bound check |
| Format.FormatList | dev/format.py:32-45 | the loop builds `ListText` of the lines, each stripped before it is looked at |
| Format.ListTextAppend | dev/format.py:35-44 | lines are handled in order, each on its own: the text of two runs is the concatenation of their texts |
| Format.BlankLineVanishes | dev/format.py:43-44 | a blank line adds nothing, wherever it stands |
| Format.MarkedItems | dev/format.py:37-44 | a bullet and then a dash each start a new output line, `sep + " - "` and `sep + "  - "`, and each is followed by its stripped item |
| Format.ReadTable | dev/format.py:7-18 | the reading loop gives the table of `Scanned`, or its exception |
| Format.RunAppend | dev/format.py:9-18 | the loop over two runs of lines is the loop over the first, continued over the second |
| Format.FailureStops | dev/format.py:9-18 | the loop ends with the exception of the first line that raises |
| Format.ScanOutcome | dev/format.py:9-18 | `new_row` is read before it is assigned exactly when the first line is not blank; otherwise the keys are the headings and each has its list |
| Format.ReadRendered | dev/format.py:9-18 | reading typed-in blocks (blank line, heading, cells) gives back the table they stand for |
| Format.RepeatedHeading | dev/format.py:13-15 | a repeated heading is listed twice and keeps only the second block's cells |
| Format.WriteTable | dev/format.py:22-30 | the writing loops print `Layout(t)` |
| Format.GroupsStop | dev/format.py:25-30 | once a cell raises, nothing more is printed |
| Format.GroupsFit | dev/format.py:25-30 | the first `n` groups print without an exception exactly when every other key has at least `n` cells; the only exception is then IndexError |
| Format.LayoutSpec | dev/format.py:22-30 | no exception exactly when the table fits, and then `'...:'` followed by the groups; IndexError for an empty key list or a short list |
| Format.TableFormater | dev/format.py:5-30 | reading, then writing, gives `Formatted(text)` |
| Format.FormattedOutcome | dev/format.py:5-30 | a non-blank first line fails on `new_row` before anything is printed; otherwise the groups print in full exactly when the table fits, and the only exception is IndexError |

## Left out

- Floating point: PyMuPDF's float coordinates, `to_scaled`/`from_scaled`, and `int(x * UNIT_SCALE)` are not modelled. The model starts from integers already scaled by ten.
- The sizes `4.5` and `126` of the multiplexing script are taken as the scaled integers 45 and 1260.
- `IntervalInt2D` is not part of this model's sources. It is modelled as closed integer intervals:
  - union is the hull;
  - intersection is inclusive overlap;
  - enlarge moves both bounds by the margin;
  - the centre is the midpoint truncated toward zero.
- PDF I/O is not modelled: fitz/mupdf page access, the page dictionary's origin, pixmaps, `requests` downloads and the file they write (`PdfDocument.Open` takes the HTTP status as the parameter `statusOk`), `fitz.open`, metadata, and the lxml reading of `extract_page_lines` in `dev/parse-stext.py`. The page dictionary and the structured-text lines are parameters.
- `urlparse` is foreign: the URL path component and the scheme are given as parameters.
- `Path.joinpath` is modelled for a file name without `'/'`.
- `PdfDocument._page`, `__getitem__` and `__iter__` caching are not modelled. They test an int for membership in a list of pages and assign into an empty list, and `_load_page` calls `PdfPage` with one argument too many. `LoadPage` models only the `len(self)` read and the bound check, and `IterUntil` looks its pages up through it, so neither raises that TypeError.
- Negative page numbers are not modelled: Python would index from the end there.
- `print` calls are not modelled. Results stand for the printed text:
  - the `print(table_keys)` and `print(table)` debugging lines of `table_formater` are omitted;
  - `format_list` returns the text, not the text followed by print's newline;
  - the `repr` of the rows and buckets in `parse-stext.py` is returned as data.
- `os.linesep` is the parameter `sep`.
- `Stext.FitsSide`: `len(y) == number_of_pins/4` compares with a float, and it is modelled as `4 * len(y) == number_of_pins`, which is equivalent.
- `PyText.Lower`: only ASCII letters are mapped. Python's full Unicode case mapping is not modelled.
- `PyText.ParseInt`: surrounding whitespace, an optional sign and ASCII digits are modelled. Python's underscores and non-ASCII digits are not.
- `Numbers.TruncDiv`: `round_scale` is non-zero by its type. The ZeroDivisionError of `int(x / 0)` is not modelled.
- LRU links: the `_younger`/`_older` links are modelled as one sequence, youngest first. An unlinked element keeps its own links in the source, so the walk of `recycle` goes on from it; the model walks a snapshot of the list, which visits the same elements.
- `CacheElement.detach` (deleting the object reference), `__del__`, logging, and the `rint`-based `__str__` percentages of `LruCache` are not modelled.
- The Qt frontend, the thread pool, Tabula, the image cache wrapper, image processing, configuration, logging and the C sources of mupdf-cffi are outside the core and not modelled.
