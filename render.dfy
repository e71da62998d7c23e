/**
 * The Render façade: its prepared options, its compiled template set, the
 * shared yield/current binding, and the six entry points that build an
 * engine's head and turn an engine error into a 500.
 */
module Render {
  import opened Wrappers
  import opened Paths
  import opened RenderOptions
  import opened Templates
  import opened Execution
  import opened Engines

  /** Why an HTML call ends without a response when development mode recompiles a template that fails. */
  const CompileFailure: string := "template compilation failed"

  /** Why an HTML call ends without a response when yield re-enters without end. */
  const StackFailure: string := "goroutine stack exceeds limit"

  /**
   * The HTML engine's reply: the template executed into a buffer, then the
   * buffer written after the head, or the façade's 500 with the execution
   * error's message.
   */
  function RenderHTML(e: Engine, tmpls: map<string, Template>, target: YieldTarget, binding: Binding): (reply: Reply)
    requires e.HTMLEngine?
    ensures reply.Wrote? ==> reply.head == e.head
    ensures var r := Execute(tmpls, target, e.name, binding, YieldDepthLimit);
            && (r.Output? ==> reply == Wrote(e.head, r.text))
            && (r.Failed? ==> reply == HttpError(Message(r.error), StatusInternalServerError))
            && (r.StackExhausted? ==> reply == Aborted(StackFailure))
    ensures e.name !in tmpls ==> reply == HttpError(Message(Undefined(e.name)), StatusInternalServerError)
  {
    match Execute(tmpls, target, e.name, binding, YieldDepthLimit)
    case Output(s) => Render.Render(e, Rendered(s))
    case Failed(err) => Render.Render(e, Errored(Message(err)))
    case StackExhausted => Aborted(StackFailure)
  }

  /**
   * The loop over the configured extensions: compare each in order and stop
   * at the first that equals ext.
   */
  method MatchExtension(ext: string, exts: seq<string>) returns (found: bool)
    ensures found <==> ext in exts
  {
    found := false;
    var k := 0;
    while k < |exts|
      invariant 0 <= k <= |exts|
      invariant forall j :: 0 <= j < k ==> exts[j] != ext
    {
      if ext == exts[k] {
        found := true;
        break;
      }
      k := k + 1;
    }
  }

  class Render {
    var opt: Options
    var compiledCharset: string
    /** The compiled template set, by name. */
    var templates: map<string, Template>
    /** What the set's yield and current helpers are bound to. */
    var yieldTarget: YieldTarget
    /** html/template's parser. */
    const parse: Parser

    /** After prepareOptions: the defaults are filled in and the charset suffix matches the charset. */
    ghost predicate Valid()
      reads this
    {
      IsPrepared(opt) && compiledCharset == CharsetSuffix(opt.charset)
    }

    /** Render{opt: o}, before its options are prepared and its templates compiled. */
    constructor (o: Options, parse: Parser)
      ensures opt == o && this.parse == parse
      ensures compiledCharset == [] && templates == map[] && yieldTarget == None
    {
      opt := o;
      this.parse := parse;
      compiledCharset := [];
      templates := map[];
      yieldTarget := None;
    }

    /** prepareOptions: fill in the defaults and build the charset suffix. */
    method PrepareOptions()
      modifies this`opt, this`compiledCharset
      ensures Valid()
      ensures opt == Prepared(old(opt))
    {
      var charset := opt.charset;
      if charset == [] {
        charset := DefaultCharset;
      }
      compiledCharset := CharsetSuffix(charset);
      var directory := opt.directory;
      if directory == [] {
        directory := DefaultDirectory;
      }
      var extensions := opt.extensions;
      if extensions == [] {
        extensions := DefaultExtensions;
      }
      var htmlContentType := opt.htmlContentType;
      if htmlContentType == [] {
        htmlContentType := ContentHTML;
      }
      opt := opt.(charset := charset, directory := directory, extensions := extensions,
                  htmlContentType := htmlContentType);
    }

    /** compileTemplates: the directory walk unless both asset callbacks are set; false when it panics. */
    method CompileTemplates(f: Files) returns (ok: bool)
      requires Valid()
      modifies this`templates, this`yieldTarget
      ensures templates == Compile(f, opt, parse).templates
      ensures ok <==> Compile(f, opt, parse).failure.None?
      ensures yieldTarget == None
    {
      if !opt.hasAsset || !opt.hasAssetNames {
        ok := CompileTemplatesFromDir(f.walk);
        return;
      }
      ok := CompileTemplatesFromAsset(f.assetNames, f.asset);
    }

    /**
     * compileTemplatesFromDir: a fresh set, then the walk callback for every
     * entry in walk order; a read or parse failure panics.
     */
    method CompileTemplatesFromDir(fs: seq<WalkEntry>) returns (ok: bool)
      modifies this`templates, this`yieldTarget
      ensures templates == CompileDir(fs, opt, parse).templates
      ensures ok <==> CompileDir(fs, opt, parse).failure.None?
      ensures yieldTarget == None
    {
      templates := map[];
      yieldTarget := None;
      var exts := opt.extensions;
      var env := EnvOf(opt);
      ghost var target := CompileDir(fs, opt, parse);
      var i := 0;
      while i < |fs|
        invariant 0 <= i <= |fs|
        invariant CompileFrom(templates, DirLoads(fs[i..], exts), env, parse) == target
        invariant yieldTarget == None
      {
        ghost var before := templates;
        ok := WalkEntryFunc(fs[i], exts, env);
        DirLoopStep(before, templates, fs, exts, i, env, parse, ok);
        if !ok {
          return;
        }
        i := i + 1;
      }
      assert fs[i..] == [];
      ok := true;
    }

    /**
     * The walk callback for one entry: a directory is skipped; otherwise the
     * extension is matched against the configured ones in order, and at the
     * first equal one the file is read and parsed under its name.
     */
    method WalkEntryFunc(e: WalkEntry, exts: seq<string>, env: ParseEnv) returns (ok: bool)
      modifies this`templates
      ensures !DirCandidate(e, exts) ==> ok && templates == old(templates)
      ensures DirCandidate(e, exts) ==> (ok <==> !Fails(DirLoad(e), env, parse))
      ensures !ok ==> templates == old(templates)
      ensures DirCandidate(e, exts) && ok ==>
                templates == Associate(old(templates), TreesOf(DirLoad(e), env, parse))
    {
      ok := true;
      if e.isDir {
        return;
      }
      var rel := e.rel;
      var ext := DirExt(rel);
      var found := MatchExtension(ext, exts);
      if !found {
        return;
      }
      if e.contents.None? {
        ok := false;
        return;
      }
      var name := TemplateName(rel, ext);
      var t := parse(env, e.contents.value);
      if t.None? || Clashes(name, t.value) {
        ok := false;
        return;
      }
      templates := Associate(templates, Trees(name, t.value));
    }

    /**
     * compileTemplatesFromAsset: a fresh set, then every name AssetNames
     * lists now, in order; a name filepath.Rel fails on, or a load or parse
     * failure, panics.
     */
    method CompileTemplatesFromAsset(names: seq<string>, asset: map<string, string>) returns (ok: bool)
      requires Valid()
      modifies this`templates, this`yieldTarget
      ensures templates == CompileAsset(Files([], names, asset), opt, parse).templates
      ensures ok <==> CompileAsset(Files([], names, asset), opt, parse).failure.None?
      ensures yieldTarget == None
    {
      templates := map[];
      yieldTarget := None;
      var dir := opt.directory;
      var exts := opt.extensions;
      var env := EnvOf(opt);
      ghost var target := CompileAsset(Files([], names, asset), opt, parse);
      var i := 0;
      while i < |names|
        invariant 0 <= i <= |names|
        invariant CompileFrom(templates, AssetLoads(names[i..], dir, exts, asset), env, parse) == target
        invariant yieldTarget == None
      {
        AssetStep(templates, names, dir, exts, asset, i, env, parse);
        ok := CompileAssetName(names[i], dir, exts, asset, env);
        if !ok {
          assert target == Compilation(templates, Some(names[i]));
          return;
        }
        i := i + 1;
      }
      assert names[i..] == [];
      ok := true;
    }

    /**
     * One listed asset name: skipped unless it starts with the directory;
     * a panic when filepath.Rel fails on it; otherwise its extension (from
     * the first dot) is matched against the configured ones in order, and
     * at the first equal one the asset is loaded and parsed under its name.
     */
    method CompileAssetName(path: string, dir: string, exts: seq<string>, asset: map<string, string>, env: ParseEnv)
      returns (ok: bool)
      requires dir != []
      modifies this`templates
      ensures !AssetCandidate(path, dir, exts) ==> ok && templates == old(templates)
      ensures AssetCandidate(path, dir, exts) ==> (ok <==> !Fails(AssetLoad(path, dir, asset), env, parse))
      ensures !ok ==> templates == old(templates)
      ensures AssetCandidate(path, dir, exts) && ok ==>
                templates == Associate(old(templates), TreesOf(AssetLoad(path, dir, asset), env, parse))
    {
      ok := true;
      if !HasPrefix(path, dir) {
        return;
      }
      var r := Rel(dir, path);
      if r.None? {
        ok := false;
        return;
      }
      var rel := r.value;
      var ext := AssetExt(rel);
      var found := MatchExtension(ext, exts);
      if !found {
        return;
      }
      if path !in asset {
        ok := false;
        return;
      }
      var name := TemplateName(rel, ext);
      var t := parse(env, asset[path]);
      if t.None? || Clashes(name, t.value) {
        ok := false;
        return;
      }
      templates := Associate(templates, Trees(name, t.value));
    }

    /** addYield: bind yield to executing name with binding, and current to name. */
    method AddYield(name: string, binding: Binding)
      modifies this`yieldTarget
      ensures yieldTarget == Some((name, binding))
    {
      yieldTarget := Some((name, binding));
    }

    /**
     * Render: what the engine wrote stays; when it returns an error,
     * http.Error follows with that error's message and status 500. Once the
     * engine has written its head, the status and header http.Error sets are
     * ignored and only its message reaches the body.
     */
    static function Render(e: Engine, outcome: Outcome): (reply: Reply)
      ensures reply.HttpError? <==> outcome.Errored?
      ensures outcome.Errored? ==> reply.message == outcome.message && reply.code == StatusInternalServerError
      ensures outcome.Rendered? ==> reply == Wrote(e.head, outcome.body)
      ensures outcome.ErroredAfterWrite? ==>
                reply.Wrote? && reply.head == e.head && HasPrefix(reply.body, outcome.written)
                && reply.body[|outcome.written|..] == outcome.message + "\n"
    {
      match outcome
      case Rendered(body) => Wrote(e.head, body)
      case Errored(m) => HttpError(m, StatusInternalServerError)
      case ErroredAfterWrite(written, m) => Wrote(e.head, written + m + "\n")
    }

    /** Data: raw bytes as application/octet-stream, without a charset. */
    method Data(status: int, run: Engine -> Outcome) returns (reply: Reply)
      requires Valid()
      ensures var e := DataEngine(Head(ContentBinary, status)); reply == Render(e, run(e))
    {
      var head := Head(ContentBinary, status);
      var d := DataEngine(head);
      reply := Render(d, run(d));
    }

    /**
     * HTML: recompile first in development mode, from what the file system
     * and the asset callbacks answer now (f); with a layout (the per-call
     * one if given, else the configured one) bind yield to the requested
     * template and execute the layout instead.
     */
    method HTML(f: Files, status: int, name: string, binding: Binding, htmlOpt: seq<HTMLOptions>)
      returns (reply: Reply)
      requires Valid()
      modifies this`templates, this`yieldTarget
      ensures Valid()
      ensures opt.isDevelopment ==> templates == Compile(f, opt, parse).templates
      ensures !opt.isDevelopment ==> templates == old(templates)
      ensures opt.isDevelopment && Compile(f, opt, parse).failure.Some? ==>
                yieldTarget == None && reply == Aborted(CompileFailure)
      ensures !(opt.isDevelopment && Compile(f, opt, parse).failure.Some?) ==>
                var layout := PrepareHTMLOptions(htmlOpt, opt.layout).layout;
                && yieldTarget == (if layout != [] then Some((name, binding))
                                   else if opt.isDevelopment then None else old(yieldTarget))
                && reply == RenderHTML(HTMLEngine(Head(opt.htmlContentType + compiledCharset, status),
                                                  if layout != [] then layout else name),
                                       templates, yieldTarget, binding)
    {
      if opt.isDevelopment {
        var ok := CompileTemplates(f);
        if !ok {
          reply := Aborted(CompileFailure);
          return;
        }
      }
      var o := PrepareHTMLOptions(htmlOpt, opt.layout);
      var executed := name;
      if |o.layout| > 0 {
        AddYield(name, binding);
        executed := o.layout;
      }
      var head := Head(opt.htmlContentType + compiledCharset, status);
      var h := HTMLEngine(head, executed);
      reply := RenderHTML(h, templates, yieldTarget, binding);
    }

    /** JSON: application/json with the charset, and the JSON settings passed through. */
    method JSON(status: int, run: Engine -> Outcome) returns (reply: Reply)
      requires Valid()
      ensures var e := JSONEngine(Head(ContentJSON + compiledCharset, status), opt.indentJSON, opt.prefixJSON,
                                  opt.unEscapeHTML, opt.streamingJSON);
              reply == Render(e, run(e))
    {
      var head := Head(ContentJSON + compiledCharset, status);
      var j := JSONEngine(head, opt.indentJSON, opt.prefixJSON, opt.unEscapeHTML, opt.streamingJSON);
      reply := Render(j, run(j));
    }

    /** JSONP: application/javascript with the charset, JSON indentation, and the callback as given. */
    method JSONP(status: int, callback: string, run: Engine -> Outcome) returns (reply: Reply)
      requires Valid()
      ensures var e := JSONPEngine(Head(ContentJSONP + compiledCharset, status), opt.indentJSON, callback);
              reply == Render(e, run(e))
    {
      var head := Head(ContentJSONP + compiledCharset, status);
      var j := JSONPEngine(head, opt.indentJSON, callback);
      reply := Render(j, run(j));
    }

    /** Text: text/plain with the charset. */
    method Text(status: int, run: Engine -> Outcome) returns (reply: Reply)
      requires Valid()
      ensures var e := TextEngine(Head(ContentText + compiledCharset, status)); reply == Render(e, run(e))
    {
      var head := Head(ContentText + compiledCharset, status);
      var t := TextEngine(head);
      reply := Render(t, run(t));
    }

    /** XML: text/xml with the charset, and the XML settings passed through. */
    method XML(status: int, run: Engine -> Outcome) returns (reply: Reply)
      requires Valid()
      ensures var e := XMLEngine(Head(ContentXML + compiledCharset, status), opt.indentXML, opt.prefixXML);
              reply == Render(e, run(e))
    {
      var head := Head(ContentXML + compiledCharset, status);
      var x := XMLEngine(head, opt.indentXML, opt.prefixXML);
      reply := Render(x, run(x));
    }
  }

  /**
   * New: the first options given (or the zero options), prepared, then
   * compiled from what the file system and the asset callbacks answer (f);
   * None when compilation panics.
   */
  method New(options: seq<Options>, f: Files, parse: Parser) returns (r: Option<Render>)
    ensures var o := Prepared(FirstOptions(options));
            r.Some? <==> Compile(f, o, parse).failure.None?
    ensures r.Some? ==> fresh(r.value) && r.value.Valid() && r.value.parse == parse
    ensures r.Some? ==> var o := Prepared(FirstOptions(options));
                        r.value.opt == o && r.value.templates == Compile(f, o, parse).templates
                        && r.value.yieldTarget == None
  {
    var o := FirstOptions(options);
    var rr := new Render(o, parse);
    rr.PrepareOptions();
    var ok := rr.CompileTemplates(f);
    if ok {
      r := Some(rr);
    } else {
      r := None;
    }
  }
}
