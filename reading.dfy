/**
 * `BasicValidate.Read` and `validateBasedOnURL`: where the input comes
 * from. An empty input URL means standard input; a URL too short to hold a
 * scheme and a path is refused; otherwise the URL is parsed and routed on
 * its scheme ("file", "http" or "https") and on the type of its path (JSONL,
 * tested first, or gzipped JSONL), which the file-type override can impose.
 *
 * `url.Parse` is a parameter (a `Parser`), and so is the opening of a
 * stream (an `Opener`): whether a file exists, a pipe is attached, an HTTP
 * request succeeds or a gzip header is valid lies outside the model.
 */
module Reading {
  import opened GoStrings
  import opened Lines

  /** The exported fields of `BasicValidate` that decide where the input comes from. */
  datatype Config = Config(inputFileType: string, inputUrl: string)

  /** What `url.Parse` gives: an error, or the scheme and the path of the URL. */
  datatype ParsedUrl = ParseError | Parsed(scheme: string, path: string)

  type Parser = string -> ParsedUrl

  /** Where the input is read from, or why nothing is read. */
  datatype Route =
    | Stdin                          // no URL: standard input, when it is a pipe
    | TooShort                       // a URL of one to four bytes
    | Unparsable                     // `url.Parse` failed
    | JsonlFile(path: string)        // a local JSONL file
    | GzFile(path: string)           // a local gzipped JSONL file
    | JsonlResource(url: string)     // a JSONL resource fetched over HTTP(S)
    | GzResource(url: string)        // a gzipped JSONL resource fetched over HTTP(S)
    | UnknownFileType                // a file URL of no known type
    | UnknownResourceType            // an HTTP(S) URL of no known type
    | UnsupportedScheme(scheme: string)
  {
    /** The routes on which a stream is opened and validated. */
    predicate Reads() {
      Stdin? || JsonlFile? || GzFile? || JsonlResource? || GzResource?
    }
  }

  /** The path names a JSONL input, or the file-type override says so. */
  predicate WantsJsonl(path: string, inputFileType: string) {
    HasSuffix(path, "jsonl") || ToUpper(inputFileType) == "JSONL"
  }

  /** The path names a gzipped input, or the file-type override says so. */
  predicate WantsGz(path: string, inputFileType: string) {
    HasSuffix(path, "gz") || ToUpper(inputFileType) == "GZ"
  }

  /** The choice among the type-specific readers, JSONL tested first. */
  function ByType(path: string, inputFileType: string, jsonl: Route, gz: Route, unknown: Route): Route {
    if WantsJsonl(path, inputFileType) then jsonl
    else if WantsGz(path, inputFileType) then gz
    else unknown
  }

  /**
   * The route `validateBasedOnURL` takes: parse the URL and route on its
   * scheme and on the type of its path. A file is opened by its parsed path,
   * a resource by the whole URL.
   */
  function RouteByUrl(cfg: Config, parse: Parser): Route {
    match parse(cfg.inputUrl)
    case ParseError => Unparsable
    case Parsed(scheme, path) =>
      if scheme == "file" then
        ByType(path, cfg.inputFileType, JsonlFile(path), GzFile(path), UnknownFileType)
      else if scheme == "http" || scheme == "https" then
        ByType(path, cfg.inputFileType, JsonlResource(cfg.inputUrl), GzResource(cfg.inputUrl), UnknownResourceType)
      else
        UnsupportedScheme(scheme)
  }

  /**
   * The route `Read` takes: no URL means standard input, a URL shorter than
   * the five bytes of "s://p" is refused before it is parsed, and any other
   * is routed by `validateBasedOnURL`.
   */
  function Resolve(cfg: Config, parse: Parser): (r: Route)
    ensures r == Stdin <==> cfg.inputUrl == []
    ensures r == TooShort <==> 0 < ByteLen(cfg.inputUrl) < 5
    ensures ByteLen(cfg.inputUrl) >= 5 ==> r == RouteByUrl(cfg, parse)
  {
    var inputUrlLen := ByteLen(cfg.inputUrl);
    if inputUrlLen == 0 then Stdin
    else if inputUrlLen < 5 then TooShort
    else RouteByUrl(cfg, parse)
  }

  /** The outcome of trying to open the input of a route: its lines, or a failure. */
  datatype Stream = CannotOpen | Opened(lines: seq<string>)

  type Opener = Route -> Stream

  /** `Read` returns true exactly when its route reads a stream and the stream could be opened. */
  predicate ReadSucceeds(cfg: Config, parse: Parser, open: Opener) {
    var route := Resolve(cfg, parse);
    route.Reads() && open(route).Opened?
  }

  // --------------------------------------------------------------------------
  // The readers
  // --------------------------------------------------------------------------

  /**
   * `ReadStdin`, `ReadJSONLFile`, `ReadGZIPFile`, `ReadJSONLResource` and
   * `ReadGZIPResource`: open the stream of `route`; when it opens, validate
   * its lines and return true, otherwise return false having validated
   * nothing.
   */
  method ReadStream(route: Route, open: Opener, check: Checker) returns (ok: bool, log: seq<Message>)
    ensures ok == open(route).Opened?
    ensures ok ==> log == ValidationLog(open(route).lines, check)
    ensures !ok ==> log == []
  {
    var stream := open(route);
    match stream
    case CannotOpen =>
      ok, log := false, [];
    case Opened(lines) =>
      log := ValidateLines(lines, check);
      ok := true;
  }

  /**
   * `validateBasedOnURL`: the reader of the route of the URL, or false when
   * the URL does not parse, its scheme is not supported or its type is not
   * known.
   */
  method ValidateBasedOnUrl(cfg: Config, parse: Parser, open: Opener, check: Checker) returns (ok: bool, log: seq<Message>)
    ensures var route := RouteByUrl(cfg, parse);
      && ok == (route.Reads() && open(route).Opened?)
      && (ok ==> log == ValidationLog(open(route).lines, check))
      && (!ok ==> log == [])
  {
    var parsedUrl := parse(cfg.inputUrl);
    match parsedUrl
    case ParseError =>
      ok, log := false, [];
    case Parsed(scheme, path) =>
      if scheme == "file" {
        if WantsJsonl(path, cfg.inputFileType) {
          ok, log := ReadStream(JsonlFile(path), open, check);
        } else if WantsGz(path, cfg.inputFileType) {
          ok, log := ReadStream(GzFile(path), open, check);
        } else {
          ok, log := false, [];
        }
      } else if scheme == "http" || scheme == "https" {
        if WantsJsonl(path, cfg.inputFileType) {
          ok, log := ReadStream(JsonlResource(cfg.inputUrl), open, check);
        } else if WantsGz(path, cfg.inputFileType) {
          ok, log := ReadStream(GzResource(cfg.inputUrl), open, check);
        } else {
          ok, log := false, [];
        }
      } else {
        ok, log := false, [];
      }
  }

  /**
   * `BasicValidate.Read`: choose the route, open its stream and validate its
   * lines. The result is true when a stream was opened, whatever the
   * checker said of its lines; nothing is validated otherwise.
   */
  method Read(cfg: Config, parse: Parser, open: Opener, check: Checker) returns (ok: bool, log: seq<Message>)
    ensures ok == ReadSucceeds(cfg, parse, open)
    ensures ok ==> log == ValidationLog(open(Resolve(cfg, parse)).lines, check)
    ensures !ok ==> log == []
  {
    var inputUrlLen := ByteLen(cfg.inputUrl);
    if inputUrlLen == 0 {
      ok, log := ReadStream(Stdin, open, check);
    } else if inputUrlLen < 5 {
      ok, log := false, [];
    } else {
      ok, log := ValidateBasedOnUrl(cfg, parse, open, check);
    }
  }

  // --------------------------------------------------------------------------
  // Properties of the routing
  // --------------------------------------------------------------------------

  /** With no URL, reading succeeds exactly when a piped standard input can be read. */
  lemma EmptyUrlReadsStdin(cfg: Config, parse: Parser, open: Opener)
    requires cfg.inputUrl == []
    ensures ReadSucceeds(cfg, parse, open) <==> open(Stdin).Opened?
  {
  }

  /** A URL of one to four bytes fails whatever the parser and the streams would do. */
  lemma ShortUrlFails(cfg: Config, parse: Parser, open: Opener)
    requires 0 < ByteLen(cfg.inputUrl) < 5
    ensures Resolve(cfg, parse) == TooShort && !ReadSucceeds(cfg, parse, open)
  {
  }

  /** The URL "BAD" is refused as too short. */
  lemma BadUrlFails(inputFileType: string, parse: Parser, open: Opener)
    ensures Resolve(Config(inputFileType, "BAD"), parse) == TooShort
    ensures !ReadSucceeds(Config(inputFileType, "BAD"), parse, open)
  {
    var url := "BAD";
    assert forall i :: 0 <= i < |url| ==> (url[i] as int) < 0x80;
  }

  /** A URL of five bytes or more that does not parse fails. */
  lemma UnparsableFails(cfg: Config, parse: Parser, open: Opener)
    requires ByteLen(cfg.inputUrl) >= 5 && parse(cfg.inputUrl).ParseError?
    ensures Resolve(cfg, parse) == Unparsable && !ReadSucceeds(cfg, parse, open)
  {
  }

  /**
   * A URL whose scheme is neither "file", "http" nor "https" fails; "BAD,Really bad",
   * which parses with an empty scheme, is one.
   */
  lemma UnsupportedSchemeFails(cfg: Config, parse: Parser, open: Opener)
    requires ByteLen(cfg.inputUrl) >= 5 && parse(cfg.inputUrl).Parsed?
    requires parse(cfg.inputUrl).scheme !in {"file", "http", "https"}
    ensures Resolve(cfg, parse) == UnsupportedScheme(parse(cfg.inputUrl).scheme)
    ensures !ReadSucceeds(cfg, parse, open)
  {
  }

  /**
   * A "file" URL reads the JSONL file at its parsed path when the JSONL test
   * passes, and only then tries the gzip file at that path; in both cases
   * the result is whether the file could be opened.
   */
  lemma FileUrl(cfg: Config, parse: Parser, open: Opener)
    requires ByteLen(cfg.inputUrl) >= 5 && parse(cfg.inputUrl).Parsed? && parse(cfg.inputUrl).scheme == "file"
    ensures var path, ft := parse(cfg.inputUrl).path, cfg.inputFileType;
      && (WantsJsonl(path, ft) ==> Resolve(cfg, parse) == JsonlFile(path))
      && (!WantsJsonl(path, ft) && WantsGz(path, ft) ==> Resolve(cfg, parse) == GzFile(path))
      && (!WantsJsonl(path, ft) && !WantsGz(path, ft) ==> Resolve(cfg, parse) == UnknownFileType)
      && (ReadSucceeds(cfg, parse, open) <==>
            (WantsJsonl(path, ft) && open(JsonlFile(path)).Opened?) ||
            (!WantsJsonl(path, ft) && WantsGz(path, ft) && open(GzFile(path)).Opened?))
  {
  }

  /** An "http" or "https" URL is routed like a file URL, but the resource is fetched by the whole URL. */
  lemma ResourceUrl(cfg: Config, parse: Parser, open: Opener)
    requires ByteLen(cfg.inputUrl) >= 5 && parse(cfg.inputUrl).Parsed?
    requires parse(cfg.inputUrl).scheme == "http" || parse(cfg.inputUrl).scheme == "https"
    ensures var path, ft, url := parse(cfg.inputUrl).path, cfg.inputFileType, cfg.inputUrl;
      && (WantsJsonl(path, ft) ==> Resolve(cfg, parse) == JsonlResource(url))
      && (!WantsJsonl(path, ft) && WantsGz(path, ft) ==> Resolve(cfg, parse) == GzResource(url))
      && (!WantsJsonl(path, ft) && !WantsGz(path, ft) ==> Resolve(cfg, parse) == UnknownResourceType)
      && (ReadSucceeds(cfg, parse, open) <==>
            (WantsJsonl(path, ft) && open(JsonlResource(url)).Opened?) ||
            (!WantsJsonl(path, ft) && WantsGz(path, ft) && open(GzResource(url)).Opened?))
  {
  }

  /**
   * The JSONL test: the path ends in "jsonl", or the file-type override is
   * "jsonl" in any mix of cases (where 'ſ', U+017F, also stands for 's').
   */
  lemma JsonlOverride(path: string, inputFileType: string)
    ensures WantsJsonl(path, inputFileType) <==>
      HasSuffix(path, "jsonl") ||
      (|inputFileType| == 5 && forall i :: 0 <= i < 5 ==> UpperIs(inputFileType[i], "JSONL"[i]))
  {
    ToUpperEqualsWord(inputFileType, "JSONL");
  }

  /**
   * The gzip test: the path ends in "gz", or the file-type override is "gz"
   * in any mix of cases.
   */
  lemma GzOverride(path: string, inputFileType: string)
    ensures WantsGz(path, inputFileType) <==>
      HasSuffix(path, "gz") ||
      (|inputFileType| == 2 && forall i :: 0 <= i < 2 ==> UpperIs(inputFileType[i], "GZ"[i]))
  {
    ToUpperEqualsWord(inputFileType, "GZ");
  }

  /** A ".txt" file without a file-type override is of no known type, and reading it fails. */
  lemma TextFileNeedsOverride(cfg: Config, parse: Parser, open: Opener)
    requires ByteLen(cfg.inputUrl) >= 5 && parse(cfg.inputUrl).Parsed? && parse(cfg.inputUrl).scheme == "file"
    requires HasSuffix(parse(cfg.inputUrl).path, ".txt") && cfg.inputFileType == ""
    ensures Resolve(cfg, parse) == UnknownFileType && !ReadSucceeds(cfg, parse, open)
  {
    var path := parse(cfg.inputUrl).path;
    SuffixesClash(path, ".txt", "jsonl");
    SuffixesClash(path, ".txt", "gz");
    assert ToUpper("") == "";
    FileUrl(cfg, parse, open);
  }

  /**
   * A ".txt" file with the file-type override "JSONL" is read as a JSONL
   * file, and reading succeeds exactly when the file opens.
   */
  lemma TextFileWithOverride(cfg: Config, parse: Parser, open: Opener)
    requires ByteLen(cfg.inputUrl) >= 5 && parse(cfg.inputUrl).Parsed? && parse(cfg.inputUrl).scheme == "file"
    requires HasSuffix(parse(cfg.inputUrl).path, ".txt") && cfg.inputFileType == "JSONL"
    ensures Resolve(cfg, parse) == JsonlFile(parse(cfg.inputUrl).path)
    ensures ReadSucceeds(cfg, parse, open) <==> open(JsonlFile(parse(cfg.inputUrl).path)).Opened?
  {
    JsonlOverride(parse(cfg.inputUrl).path, cfg.inputFileType);
    assert forall i :: 0 <= i < 5 ==> UpperIs(cfg.inputFileType[i], "JSONL"[i]);
  }

  /** A ".jsonl.gz" file without an override is read as gzip: the JSONL test fails on it. */
  lemma GzFileByName(cfg: Config, parse: Parser, open: Opener)
    requires ByteLen(cfg.inputUrl) >= 5 && parse(cfg.inputUrl).Parsed? && parse(cfg.inputUrl).scheme == "file"
    requires HasSuffix(parse(cfg.inputUrl).path, ".jsonl.gz") && cfg.inputFileType == ""
    ensures Resolve(cfg, parse) == GzFile(parse(cfg.inputUrl).path)
  {
    var path := parse(cfg.inputUrl).path;
    SuffixesClash(path, ".jsonl.gz", "jsonl");
    SuffixOfSuffix(path, ".jsonl.gz", "gz");
    assert ToUpper("") == "";
    FileUrl(cfg, parse, open);
  }
}
