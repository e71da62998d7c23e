/**
 * What the façade hands to an engine (Head and the per-format settings),
 * what an engine reports back, what ends up written, and how a content type
 * built from a media type and a charset reads back (the charset parameter of
 * section 3.1.1.1 of RFC 7231).
 */
module Engines {
  import opened Wrappers
  import opened Paths
  import opened RenderOptions

  /** The Content-Type header value and the status code an engine writes first. */
  datatype Head = Head(contentType: string, status: int)

  /** The six engines with the settings the façade passes them; encoding itself belongs to the engines. */
  datatype Engine =
    | DataEngine(head: Head)
    | HTMLEngine(head: Head, name: string)
    | JSONEngine(head: Head, indent: bool, prefix: string, unEscapeHTML: bool, streamingJSON: bool)
    | JSONPEngine(head: Head, indent: bool, callback: string)
    | TextEngine(head: Head)
    | XMLEngine(head: Head, indent: bool, prefix: string)

  /**
   * What Engine.Render reports: the body it wrote after its head, an error
   * it returned before writing anything, or an error it returned after
   * writing its head and the start of a body (an encoder that streams to the
   * response and fails midway).
   */
  datatype Outcome =
    | Rendered(body: string)
    | Errored(message: string)
    | ErroredAfterWrite(written: string, message: string)

  /**
   * What the client receives from a façade call: a head and a body; the
   * reply of http.Error on an untouched response, which is its code and its
   * message followed by a newline; or nothing, because the request goroutine
   * panicked or ran out of stack.
   */
  datatype Reply = Wrote(head: Head, body: string) | HttpError(message: string, code: int) | Aborted(reason: string)

  const StatusInternalServerError: int := 500

  /** The media type of a Content-Type value: everything before its first ';'. */
  function MediaType(ct: string): (m: string)
    ensures ';' !in m && |m| <= |ct| && ct[..|m|] == m
    ensures ';' !in ct ==> m == ct
    ensures ';' in ct ==> |m| < |ct| && ct[|m|] == ';'
  {
    if ';' in ct then ct[..Index(ct, ';')] else ct
  }

  /** The charset parameter of a Content-Type value written as render.go writes it, if any. */
  function CharsetParam(ct: string): Option<string>
  {
    if ';' !in ct then None
    else
      var rest := ct[Index(ct, ';')..];
      if HasPrefix(rest, "; charset=") then Some(rest[|"; charset="|..]) else None
  }

  /** A media type followed by the charset suffix reads back as that media type and that charset. */
  lemma ContentTypeRoundTrip(mime: string, charset: string)
    requires ';' !in mime
    ensures MediaType(mime + CharsetSuffix(charset)) == mime
    ensures CharsetParam(mime + CharsetSuffix(charset)) == Some(charset)
  {
    var ct := mime + CharsetSuffix(charset);
    assert ct[|mime|] == ';' && ct[..|mime|] == mime;
    assert Index(ct, ';') == |mime|;
    assert ct[|mime|..] == CharsetSuffix(charset);
  }

  /** A bare media type has no charset parameter. */
  lemma BareContentType(mime: string)
    requires ';' !in mime
    ensures MediaType(mime) == mime && CharsetParam(mime) == None
  {
  }

  /**
   * Data's content type carries no charset; JSON's, JSONP's, Text's and
   * XML's carry their media type and the configured charset.
   */
  lemma FormatContentTypes(charset: string)
    ensures MediaType(ContentBinary) == ContentBinary && CharsetParam(ContentBinary) == None
    ensures MediaType(ContentJSON + CharsetSuffix(charset)) == ContentJSON
    ensures CharsetParam(ContentJSON + CharsetSuffix(charset)) == Some(charset)
    ensures MediaType(ContentJSONP + CharsetSuffix(charset)) == ContentJSONP
    ensures CharsetParam(ContentJSONP + CharsetSuffix(charset)) == Some(charset)
    ensures MediaType(ContentText + CharsetSuffix(charset)) == ContentText
    ensures CharsetParam(ContentText + CharsetSuffix(charset)) == Some(charset)
    ensures MediaType(ContentXML + CharsetSuffix(charset)) == ContentXML
    ensures CharsetParam(ContentXML + CharsetSuffix(charset)) == Some(charset)
  {
    NoSemicolon(ContentBinary);
    BareContentType(ContentBinary);
    NoSemicolon(ContentJSON);
    ContentTypeRoundTrip(ContentJSON, charset);
    NoSemicolon(ContentJSONP);
    ContentTypeRoundTrip(ContentJSONP, charset);
    NoSemicolon(ContentText);
    ContentTypeRoundTrip(ContentText, charset);
    NoSemicolon(ContentXML);
    ContentTypeRoundTrip(ContentXML, charset);
  }

  /** A string none of whose positions holds ';' does not contain ';' (the step the media-type constants need). */
  lemma NoSemicolon(mime: string)
    requires forall i :: 0 <= i < |mime| ==> mime[i] != ';'
    ensures ';' !in mime
  {
  }
}
