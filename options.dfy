/**
 * The configuration of a Render: its header constants, the Options record,
 * the defaults prepareOptions fills in and the per-call HTMLOptions.
 */
module RenderOptions {

  const ContentBinary: string := "application/octet-stream"
  const ContentHTML: string := "text/html"
  const ContentJSON: string := "application/json"
  const ContentJSONP: string := "application/javascript"
  const ContentLength: string := "Content-Length"
  const ContentText: string := "text/plain"
  const ContentType: string := "Content-Type"
  const ContentXHTML: string := "application/xhtml+xml"
  const ContentXML: string := "text/xml"
  const DefaultCharset: string := "UTF-8"
  const DefaultDirectory: string := "templates"
  const DefaultExtensions: seq<string> := [".tmpl"]

  /** The left and right action delimiters handed to the template parser. */
  datatype Delims = Delims(left: string, right: string)

  /**
   * Options. Of the Asset and AssetNames callbacks only whether each is set
   * is kept here; what they answer is asked again at every compilation, so
   * it is an argument of the compilation instead. A helper bundle (a
   * template.FuncMap) is given by its function names.
   */
  datatype Options = Options(
    directory: string,
    hasAsset: bool,
    hasAssetNames: bool,
    layout: string,
    extensions: seq<string>,
    funcs: seq<set<string>>,
    delims: Delims,
    charset: string,
    indentJSON: bool,
    indentXML: bool,
    prefixJSON: string,
    prefixXML: string,
    htmlContentType: string,
    isDevelopment: bool,
    unEscapeHTML: bool,
    streamingJSON: bool)

  /** The zero Options{} that New uses when it is given none. */
  const ZeroOptions: Options :=
    Options("", false, false, "", [], [], Delims("", ""), "", false, false, "", "", "", false, false, false)

  /** HTMLOptions: the per-call layout override. */
  datatype HTMLOptions = HTMLOptions(layout: string)

  /** New's variadic argument: the first Options given, else the zero Options. */
  function FirstOptions(options: seq<Options>): (o: Options)
    ensures |options| > 0 ==> o == options[0]
    ensures |options| == 0 ==> o == ZeroOptions
  {
    if |options| == 0 then ZeroOptions else options[0]
  }

  /** The four settings prepareOptions fills in are all set. */
  predicate IsPrepared(o: Options)
  {
    o.charset != [] && o.directory != [] && o.extensions != [] && o.htmlContentType != []
  }

  /** a and b agree on every setting except the four that prepareOptions fills in. */
  predicate SameOtherSettings(a: Options, b: Options)
  {
    && a.hasAsset == b.hasAsset && a.hasAssetNames == b.hasAssetNames && a.layout == b.layout
    && a.funcs == b.funcs && a.delims == b.delims && a.indentJSON == b.indentJSON
    && a.indentXML == b.indentXML && a.prefixJSON == b.prefixJSON && a.prefixXML == b.prefixXML
    && a.isDevelopment == b.isDevelopment && a.unEscapeHTML == b.unEscapeHTML
    && a.streamingJSON == b.streamingJSON
  }

  /** s itself when it is set, else the default d. */
  function OrDefault<T>(s: seq<T>, d: seq<T>): (r: seq<T>)
    ensures s != [] ==> r == s
    ensures s == [] ==> r == d
  {
    if s == [] then d else s
  }

  /**
   * The options after prepareOptions: every empty one of charset, directory,
   * extensions and HTML content type takes its default, a set one is kept,
   * and no other setting changes.
   */
  function Prepared(o: Options): (r: Options)
    ensures IsPrepared(r)
    ensures o.charset != [] ==> r.charset == o.charset
    ensures o.charset == [] ==> r.charset == DefaultCharset
    ensures o.directory != [] ==> r.directory == o.directory
    ensures o.directory == [] ==> r.directory == DefaultDirectory
    ensures o.extensions != [] ==> r.extensions == o.extensions
    ensures o.extensions == [] ==> r.extensions == DefaultExtensions
    ensures o.htmlContentType != [] ==> r.htmlContentType == o.htmlContentType
    ensures o.htmlContentType == [] ==> r.htmlContentType == ContentHTML
    ensures SameOtherSettings(r, o)
  {
    o.(charset := OrDefault(o.charset, DefaultCharset),
       directory := OrDefault(o.directory, DefaultDirectory),
       extensions := OrDefault(o.extensions, DefaultExtensions),
       htmlContentType := OrDefault(o.htmlContentType, ContentHTML))
  }

  /** Prepared options are exactly those that preparing leaves alone. */
  lemma PreparedFixpoint(o: Options)
    ensures Prepared(o) == o <==> IsPrepared(o)
  {
  }

  /** Preparing twice is preparing once. */
  lemma PreparedIdempotent(o: Options)
    ensures Prepared(Prepared(o)) == Prepared(o)
  {
    PreparedFixpoint(Prepared(o));
  }

  /** The "; charset=" parameter appended to every content type but Data's. */
  function CharsetSuffix(charset: string): string
  {
    "; charset=" + charset
  }

  /**
   * prepareHTMLOptions: an explicit per-call HTMLOptions wins, even one with
   * an empty layout; otherwise the configured layout is used.
   */
  function PrepareHTMLOptions(htmlOpt: seq<HTMLOptions>, layout: string): (o: HTMLOptions)
    ensures |htmlOpt| > 0 ==> o == htmlOpt[0]
    ensures |htmlOpt| == 0 ==> o.layout == layout
  {
    if |htmlOpt| > 0 then htmlOpt[0] else HTMLOptions(layout)
  }
}
