/**
 * The package module `DatasheetExtractor/__init__.py`, an older copy of the page and document
 * code. Its `Line`, span stream, `_sort_xy` and pinout decoders are the backend's (`PdfPage`,
 * `Pinout`); what differs is `format_pinout`, declared with neither `self` nor
 * `@staticmethod`, and the `DatasheetExtractor` class with its cached path.
 */
module LegacyInit {
  import opened Wrappers
  import Documents
  import Pinout

  /** How `format_pinout` is reached: through a `Page` object, or through the class. */
  datatype Call = OnInstance | OnClass

  /**
   * `format_pinout(pins)`: through an object, the object fills `pins` and the dict is one
   * argument too many (TypeError); through the class it formats as the backend's does.
   */
  method FormatPinout(call: Call, pins: Pinout.Pins, sep: string) returns (r: Result<string>)
    ensures call == OnInstance ==> r == Failure(TypeError)
    ensures call == OnClass && !Pinout.Comparable(pins.Keys) ==> r == Failure(TypeError)
    ensures call == OnClass && Pinout.Comparable(pins.Keys) ==>
      r == Success(Pinout.PinoutText(Pinout.SortedKeys(pins.Keys), pins, sep))
  {
    if call == OnInstance {
      return Failure(TypeError);
    }
    r := Pinout.FormatPinout(pins, sep);
  }

  /** `DatasheetExtractor`: the URL and its lazily derived cache path. */
  class DatasheetExtractor {
    /** `str(url)` as given. */
    const url: string
    /** The URL's path component, as `urlparse` splits it. */
    const urlPath: string
    const cachePath: Documents.Path
    /** `_path`: `None` until `path` is first read. */
    var path: Option<Documents.Path>

    constructor (url: string, urlPath: string, cachePath: Documents.Path)
      ensures this.url == url && this.urlPath == urlPath && this.cachePath == cachePath
      ensures path == None
    {
      this.url := url;
      this.urlPath := urlPath;
      this.cachePath := cachePath;
      path := None;
    }

    /** The `path` property: derived and stored on first access, then read back. */
    method Path() returns (r: Result<Documents.Path>)
      modifies this
      ensures old(path).Some? ==> r == Success(old(path).value) && path == old(path)
      ensures old(path).None? ==> r == Documents.CachedPath(cachePath, urlPath)
      ensures old(path).None? ==> path == if r.Success? then Some(r.value) else None
    {
      if path.None? {
        var index := Documents.RFind(urlPath, '/');
        if index != -1 && index != |urlPath| - 1 {
          var filename := urlPath[index + 1..];
          path := Some(Documents.JoinPath(cachePath, filename));
        } else {
          return Failure(UnboundLocal("filename"));
        }
      }
      return Success(path.value);
    }
  }
}
