/**
 * The documents (`DatasheetExtractor/document.py`, `DatasheetExtractor/backend/pdf/document.py`):
 * the cache file name a URL gives, its lazy caching in `_path`, the PDF header test, the page
 * bound of `_load_page` and the page range of `iter_until`.
 *
 * `urlparse` is not part of this model: a document is built with the URL's scheme and path
 * component as `urlparse` would split them. PyMuPDF and the network are not either: the page
 * count and the first bytes of the file are given.
 */
module Documents {
  import opened Wrappers

  /** A `pathlib.Path`, as its parts: `Path('.')` has none. */
  datatype Path = Path(parts: seq<string>)

  /** `path.joinpath(name)` for a name without `'/'`: `'.'` adds nothing, anything else is one more part. */
  function JoinPath(p: Path, name: string): (r: Path)
    requires '/' !in name
    ensures name == "." ==> r == p
    ensures name != "." ==> r.parts == p.parts + [name]
  {
    if name == "." then p else Path(p.parts + [name])
  }

  /** `s.rfind(c)`: the index of the last `c`, or -1. */
  function RFind(s: string, c: char): (i: int)
    ensures -1 <= i < |s|
    ensures i == -1 <==> c !in s
    ensures i >= 0 ==> s[i] == c && forall j :: i < j < |s| ==> s[j] != c
  {
    if s == [] then -1
    else if s[|s| - 1] == c then |s| - 1
    else
      assert s == s[..|s| - 1] + [s[|s| - 1]];
      RFind(s[..|s| - 1], c)
  }

  /**
   * The file name of a URL path: what follows its last `'/'`. A path with no `'/'`, or ending
   * in one, raises while formatting the message, on the never-assigned `filename`.
   */
  function FileName(urlPath: string): (r: Result<string>)
    ensures r.Failure? <==> '/' !in urlPath || urlPath[|urlPath| - 1] == '/'
    ensures r.Failure? ==> r.error == UnboundLocal("filename")
    ensures r.Success? ==> r.value != [] && '/' !in r.value
    ensures r.Success? ==> exists i :: 0 <= i < |urlPath| && urlPath[i] == '/' && r.value == urlPath[i + 1..]
  {
    var index := RFind(urlPath, '/');
    if index != -1 && index != |urlPath| - 1 then Success(urlPath[index + 1..])
    else Failure(UnboundLocal("filename"))
  }

  /** A name after a last `'/'` is the file name found: `FileName` undoes the join. */
  lemma FileNameOfJoin(prefix: string, name: string)
    requires name != [] && '/' !in name
    ensures FileName(prefix + "/" + name) == Success(name)
  {
    var s := prefix + "/" + name;
    assert s[|prefix|] == '/';
    assert s[|prefix| + 1..] == name;
    assert forall j :: |prefix| < j < |s| ==> s[j] == name[j - |prefix| - 1];
  }

  /** Where the file of a URL goes: `cache_path` joined with the URL's file name. */
  function CachedPath(cachePath: Path, urlPath: string): (r: Result<Path>)
    ensures r.Success? <==> FileName(urlPath).Success?
    ensures r.Failure? ==> r.error == FileName(urlPath).error
    ensures r.Success? ==> var name := FileName(urlPath).value;
      r.value.parts == cachePath.parts + (if name == "." then [] else [name])
  {
    var name :- FileName(urlPath);
    Success(JoinPath(cachePath, name))
  }

  /** `Document` of `DatasheetExtractor/document.py`: the URL and its lazily derived cache path. */
  class Document {
    /** `str(url)` as given. */
    const url: string
    /** The URL's path component, as `urlparse` splits it. */
    const urlPath: string
    const cachePath: Path
    /** `_path`: `None` until `path` is first read. */
    var path: Option<Path>

    constructor (url: string, urlPath: string, cachePath: Path)
      ensures this.url == url && this.urlPath == urlPath && this.cachePath == cachePath
      ensures path == None
    {
      this.url := url;
      this.urlPath := urlPath;
      this.cachePath := cachePath;
      path := None;
    }

    /** The `path` property: derived and stored on first access, then read back. */
    method Path() returns (r: Result<Path>)
      modifies this
      ensures old(path).Some? ==> r == Success(old(path).value) && path == old(path)
      ensures old(path).None? ==> r == CachedPath(cachePath, urlPath)
      ensures old(path).None? ==> path == if r.Success? then Some(r.value) else None
    {
      if path.None? {
        var index := RFind(urlPath, '/');
        if index != -1 && index != |urlPath| - 1 {
          var filename := urlPath[index + 1..];
          path := Some(JoinPath(cachePath, filename));
        } else {
          return Failure(UnboundLocal("filename"));
        }
      }
      return Success(path.value);
    }
  }

  /** Reading `path` twice: the second read returns what the first stored and changes nothing. */
  method PathTwice(d: Document) returns (first: Result<Path>, second: Result<Path>)
    modifies d
    ensures first == (if old(d.path).Some? then Success(old(d.path).value) else CachedPath(d.cachePath, d.urlPath))
    ensures first.Success? ==> second == first && d.path == Some(first.value)
  {
    first := d.Path();
    second := d.Path();
  }

  type byte = b: int | 0 <= b < 256

  /** `b'%PDF-'`: the header every PDF file starts with (ISO 32000-1, section 7.5.2, File Header). */
  const Magic: seq<byte> := [0x25, 0x50, 0x44, 0x46, 0x2D]

  /**
   * `check_magic_number` on the bytes read from the file: its first five bytes, decoded as
   * ASCII, compared with `'%PDF-'`. A byte above 127 among them fails the decode.
   */
  function CheckMagicNumber(data: seq<byte>): (r: Result<bool>)
    ensures r.Failure? <==> exists i :: 0 <= i < 5 && i < |data| && data[i] >= 128
    ensures r.Failure? ==> r.error == UnicodeDecodeError
    ensures r == Success(true) <==> |data| >= 5 && data[..5] == Magic
  {
    var head := if |data| < 5 then data else data[..5];
    if exists i :: 0 <= i < |head| && head[i] >= 128 then Failure(UnicodeDecodeError)
    else Success(head == Magic)
  }

  /** A file whose bytes start with the header passes, whatever follows. */
  lemma MagicPrefix(rest: seq<byte>)
    ensures CheckMagicNumber(Magic + rest) == Success(true)
  {
    assert (Magic + rest)[..5] == Magic;
  }

  /** Where a `PdfDocument`'s file is: a local path as given, or the cache file of its URL. */
  datatype Location = Given(text: string) | Cached(path: Path)

  /** `PdfDocument` of `DatasheetExtractor/backend/pdf/document.py`. */
  class PdfDocument {
    const cachePath: Path
    /** `_url`: kept only for a URL with a scheme. */
    const url: Option<string>
    /** The path component of the URL, as `urlparse` splits it. */
    const urlPath: string
    /** `_path`: the given local path, or `None` until the cache path is derived. */
    var path: Option<Location>
    /** `_doc is not None`: the document has been opened by `_load`. */
    var loaded: bool
    /** `page_count` of the document once it is opened. */
    const pageCount: nat

    /**
     * The attributes `__init__` sets before it downloads or opens: nothing is opened yet, a URL
     * with a scheme is remote (kept, no path yet), anything else is a local path. `Open` is the
     * whole `__init__`.
     */
    constructor (url: string, scheme: string, urlPath: string, cachePath: Path, pageCount: nat)
      ensures scheme != "" ==> this.url == Some(url) && path == None
      ensures scheme == "" ==> this.url == None && path == Some(Given(url))
      ensures this.urlPath == urlPath && this.cachePath == cachePath && this.pageCount == pageCount
      ensures !loaded
    {
      this.cachePath := cachePath;
      this.urlPath := urlPath;
      this.pageCount := pageCount;
      loaded := false;
      if scheme != "" {
        this.url := Some(url);
        path := None;
      } else {
        this.url := None;
        path := Some(Given(url));
      }
    }

    /** The `path` property: a local path as given; else the cache path, derived once. */
    method Path() returns (r: Result<Location>)
      modifies this
      ensures old(path).Some? ==> r == Success(old(path).value) && path == old(path)
      ensures old(path).None? ==> match CachedPath(cachePath, urlPath)
        case Success(p) => r == Success(Cached(p)) && path == Some(Cached(p))
        case Failure(e) => r == Failure(e) && path == None
      ensures loaded == old(loaded)
    {
      if path.None? {
        var index := RFind(urlPath, '/');
        if index != -1 && index != |urlPath| - 1 {
          var filename := urlPath[index + 1..];
          path := Some(Cached(JoinPath(cachePath, filename)));
        } else {
          return Failure(UnboundLocal("filename"));
        }
      }
      return Success(path.value);
    }

    /**
     * `_load`: opens the document at `self.path` unless it is open already, so a remote
     * document's cache path is derived first (or the unbound `filename` raised, opening nothing).
     */
    method Load() returns (error: Option<Error>)
      modifies this
      ensures old(loaded) || old(path).Some? ==> error.None? && loaded && path == old(path)
      ensures !old(loaded) && old(path).None? ==> match CachedPath(cachePath, urlPath)
        case Success(p) => error.None? && loaded && path == Some(Cached(p))
        case Failure(e) => error == Some(e) && !loaded && path == None
    {
      if !loaded {
        var p := Path();
        if p.Failure? {
          return Some(p.error);
        }
        loaded := true;
      }
      return None;
    }

    /**
     * `__init__` in full. A remote document is downloaded at once: `_download` raises on a bad
     * status (`statusOk` stands for the HTTP answer), and otherwise writes the file to
     * `self.path`, which derives and stores the cache path or raises on the unbound `filename`;
     * it is not opened, so `_doc` stays `None`. A local document is opened by `_load` at its
     * given path. The HTTP request, the file write and PyMuPDF are not part of this model.
     */
    static method Open(url: string, scheme: string, urlPath: string, cachePath: Path, pageCount: nat,
                       statusOk: bool)
      returns (r: Result<PdfDocument>)
      ensures scheme == "" ==> r.Success? && r.value.url == None && r.value.path == Some(Given(url))
                               && r.value.loaded
      ensures scheme != "" && !statusOk ==> r == Failure(DownloadFailed)
      ensures scheme != "" && statusOk ==> match CachedPath(cachePath, urlPath)
        case Success(p) => r.Success? && r.value.url == Some(url) && r.value.path == Some(Cached(p))
                           && !r.value.loaded
        case Failure(e) => r == Failure(e)
      ensures r.Success? ==> fresh(r.value)
      ensures r.Success? ==>
        r.value.urlPath == urlPath && r.value.cachePath == cachePath && r.value.pageCount == pageCount
    {
      var d := new PdfDocument(url, scheme, urlPath, cachePath, pageCount);
      if scheme != "" {
        if !statusOk {
          return Failure(DownloadFailed);
        }
        var p := d.Path();
        if p.Failure? {
          return Failure(p.error);
        }
      } else {
        var e := d.Load();
      }
      return Success(d);
    }

    /**
     * `_load_page`: `len(self)` reads `page_count` of `_doc`, which raises `AttributeError` while
     * the document is not opened; then a page number below the page count is looked up, any other
     * raises `ValueError`.
     */
    method LoadPage(pageNumber: int) returns (r: Result<int>)
      ensures r.Success? <==> loaded && pageNumber < pageCount
      ensures r.Success? ==> r.value == pageNumber
      ensures !loaded ==> r == Failure(AttributeError("page_count"))
      ensures loaded && pageNumber >= pageCount ==> r == Failure(ValueError)
    {
      if !loaded {
        return Failure(AttributeError("page_count"));
      }
      if pageNumber < pageCount {
        return Success(pageNumber);
      } else {
        return Failure(ValueError);
      }
    }

    /**
     * `iter_until(last_page)`: the pages yielded, `0 .. last_page` (all pages for `None`), until a
     * `_page` lookup raises; `len(self)` for `None` raises at once on a document not opened.
     */
    method IterUntil(lastPage: Option<int>) returns (visited: seq<int>, error: Option<Error>)
      ensures forall i :: 0 <= i < |visited| ==> visited[i] == i
      ensures !loaded ==> visited == [] && (error.None? <==> lastPage.Some? && lastPage.value < 0)
      ensures !loaded && error.Some? ==> error.value == AttributeError("page_count")
      ensures loaded ==> var last := if lastPage.None? then pageCount - 1 else lastPage.value;
        && |visited| == (if last < 0 then 0 else if last < pageCount then last + 1 else pageCount)
        && (error.Some? <==> last >= pageCount)
        && (error.Some? ==> error.value == ValueError)
    {
      if lastPage.None? && !loaded {
        return [], Some(AttributeError("page_count"));
      }
      var last := if lastPage.None? then pageCount - 1 else lastPage.value;
      visited := [];
      var i := 0;
      while i < last + 1
        invariant 0 <= i && (i <= last + 1 || i == 0)
        invariant loaded ==> i <= pageCount
        invariant !loaded ==> i == 0
        invariant |visited| == i
        invariant forall k :: 0 <= k < i ==> visited[k] == k
      {
        var page := LoadPage(i);
        if page.Failure? {
          return visited, Some(page.error);
        }
        visited := visited + [page.value];
        i := i + 1;
      }
      return visited, None;
    }
  }

  /**
   * `iter_until(None)` on an opened document yields every page once, in order, without an
   * exception; on one not opened it raises `AttributeError` before yielding anything.
   */
  method IterUntilAll(d: PdfDocument) returns (visited: seq<int>, error: Option<Error>)
    ensures d.loaded ==> error.None? && |visited| == d.pageCount
    ensures d.loaded ==> forall i :: 0 <= i < |visited| ==> visited[i] == i && i < d.pageCount
    ensures !d.loaded ==> visited == [] && error == Some(AttributeError("page_count"))
  {
    visited, error := d.IterUntil(None);
  }

  /**
   * A downloaded document is not opened by `__init__`: its first page raises `AttributeError`
   * until `_load()` is called, and then it is looked up.
   */
  method RemoteNeedsLoad(cachePath: Path) returns (before: Result<int>, after: Result<int>)
    ensures before == Failure(AttributeError("page_count"))
    ensures after == Success(0)
  {
    assert "/a/b.pdf"[0] == '/' && FileName("/a/b.pdf").Success?;
    var r := PdfDocument.Open("https://host/a/b.pdf", "https", "/a/b.pdf", cachePath, 3, true);
    var d := r.value;
    before := d.LoadPage(0);
    var e := d.Load();
    after := d.LoadPage(0);
  }
}
