/**
 * Template discovery and compilation (compileTemplatesFromDir and
 * compileTemplatesFromAsset), stated as values: which source entries become
 * templates, under which names, and when compilation fails.
 */
module Templates {
  import opened Wrappers
  import opened Paths
  import opened RenderOptions

  /** The value a template is executed with (Go's interface{}). */
  type Binding

  /**
   * A parsed template, reduced to what this model needs: literal text, the
   * two built-in helpers yield and current, and every other action, whose
   * meaning belongs to html/template and is given as a function of the
   * binding.
   */
  datatype Piece =
    | Text(text: string)
    | Yield
    | Current
    | Action(run: Binding -> Result<string, string>)

  type Template = seq<Piece>

  /** What the parser sees besides the source: the delimiters and the defined function names. */
  datatype ParseEnv = ParseEnv(delims: Delims, funcs: set<string>)

  /**
   * What html/template's parser makes of one source: its own body, and the
   * templates its {{define}} and {{block}} actions define, by name.
   */
  datatype Parse = Parse(body: Template, defined: map<string, Template>)

  /**
   * html/template parsing: the parse, or None when the source does not parse
   * (a syntax error, an undefined function, or two non-empty {{define}}s of
   * one name in the same source). The parser is not told the name the
   * source is parsed under, so a clash between the body and a define of
   * that name is judged by Clashes.
   */
  type Parser = (ParseEnv, string) -> Option<Parse>

  /** The characters unicode.IsSpace accepts, which bytes.TrimSpace removes. */
  const Space: set<char> := {
    ' ', '\t', '\n', '\U{B}', '\U{C}', '\r', '\U{85}', '\U{A0}', '\U{1680}',
    '\U{2000}', '\U{2001}', '\U{2002}', '\U{2003}', '\U{2004}', '\U{2005}', '\U{2006}',
    '\U{2007}', '\U{2008}', '\U{2009}', '\U{200A}', '\U{2028}', '\U{2029}', '\U{202F}',
    '\U{205F}', '\U{3000}'}

  /** parse.IsEmptyTree: the template holds nothing but blank text. */
  predicate IsEmptyTree(t: Template)
  {
    forall i :: 0 <= i < |t| ==> t[i].Text? && forall c :: c in t[i].text ==> c in Space
  }

  /**
   * A source parsed under name that gives name a non-empty definition as
   * well as a non-empty body: parse.(*Tree).add reports a multiple
   * definition, so the parse fails.
   */
  predicate Clashes(name: string, p: Parse)
  {
    name in p.defined && !IsEmptyTree(p.defined[name]) && !IsEmptyTree(p.body)
  }

  /**
   * The templates one source parsed under name adds: everything it defines,
   * and its own body under name unless the source itself gives name a
   * non-empty definition (the body is then empty, or the parse failed).
   */
  function Trees(name: string, p: Parse): (trees: map<string, Template>)
    ensures trees.Keys == p.defined.Keys + {name}
    ensures forall n :: n in p.defined && n != name ==> trees[n] == p.defined[n]
    ensures name in p.defined && !IsEmptyTree(p.defined[name]) ==> trees[name] == p.defined[name]
    ensures name !in p.defined || IsEmptyTree(p.defined[name]) ==> trees[name] == p.body
  {
    if name in p.defined && !IsEmptyTree(p.defined[name]) then p.defined else p.defined[name := p.body]
  }

  /**
   * Adding the templates of one source to the set, as text/template's
   * associate does from Go 1.6 on: a new name is added, a non-empty
   * definition replaces the one already there, and an empty one never
   * replaces an existing template.
   */
  function Associate(tmpls: map<string, Template>, trees: map<string, Template>): (r: map<string, Template>)
    ensures r.Keys == tmpls.Keys + trees.Keys
    ensures forall n :: n in trees && (n !in tmpls || !IsEmptyTree(trees[n])) ==> r[n] == trees[n]
    ensures forall n :: n in tmpls && (n !in trees || IsEmptyTree(trees[n])) ==> r[n] == tmpls[n]
  {
    map n | n in tmpls.Keys + trees.Keys ::
      if n in trees && (n !in tmpls || !IsEmptyTree(trees[n])) then trees[n] else tmpls[n]
  }

  /** The names of the helperFuncs defaults, applied to every template after the configured bundles. */
  const HelperNames: set<string> := {"yield", "current"}

  /** The functions in scope when a template is parsed: every configured bundle and the two helpers. */
  function FuncNames(funcs: seq<set<string>>): (names: set<string>)
    ensures HelperNames <= names
    ensures forall k :: 0 <= k < |funcs| ==> funcs[k] <= names
    ensures forall n :: n in names <==> n in HelperNames || exists k :: 0 <= k < |funcs| && n in funcs[k]
  {
    if funcs == [] then HelperNames else funcs[0] + FuncNames(funcs[1..])
  }

  function EnvOf(o: Options): ParseEnv
  {
    ParseEnv(o.delims, FuncNames(o.funcs))
  }

  /**
   * One result of filepath.Walk below the template directory: its path
   * relative to the directory, whether it is a directory (an entry Walk
   * reports without file information is skipped by the same test), and its
   * contents, None when ioutil.ReadFile fails.
   */
  datatype WalkEntry = WalkEntry(rel: string, isDir: bool, contents: Option<string>)

  /** A source that compilation will parse: its template name, where it came from, and its contents. */
  datatype Load = Load(name: string, origin: string, contents: Option<string>)

  /**
   * What the file system and the asset callbacks answer during one
   * compilation: the entries filepath.Walk visits with what
   * ioutil.ReadFile returns for each, the list AssetNames returns, and the
   * contents Asset returns for each name it can load (a name outside the
   * map is an error).
   */
  datatype Files = Files(walk: seq<WalkEntry>, assetNames: seq<string>, asset: map<string, string>)

  /** The compiled set, and the origin of the source whose loading or parsing failed, if any. */
  datatype Compilation = Compilation(templates: map<string, Template>, failure: Option<string>)

  /** The template name of a relative path whose extension ext was matched. */
  function TemplateName(rel: string, ext: string): (name: string)
    requires |ext| <= |rel| && rel[|rel| - |ext|..] == ext
    ensures PathSeparator == '/' ==> name + ext == rel
  {
    assert rel == rel[..|rel| - |ext|] + rel[|rel| - |ext|..];
    ToSlash(rel[..|rel| - |ext|])
  }

  // ---------------------------------------------------------------- sources

  /**
   * The sources a sequence of items gives, in order: every candidate item
   * gives one, the others none. Both routes loop this way.
   */
  function Sources<T>(xs: seq<T>, candidate: T -> bool, load: T -> Load): seq<Load>
  {
    if xs == [] then []
    else (if candidate(xs[0]) then [load(xs[0])] else []) + Sources(xs[1..], candidate, load)
  }

  /** The sources from position i on: those of item i, then those of the rest. */
  lemma SourcesAt<T>(xs: seq<T>, candidate: T -> bool, load: T -> Load, i: nat)
    requires i < |xs|
    ensures Sources(xs[i..], candidate, load) ==
            (if candidate(xs[i]) then [load(xs[i])] else []) + Sources(xs[i + 1..], candidate, load)
  {
    assert xs[i..][0] == xs[i] && xs[i..][1..] == xs[i + 1..];
  }

  /** Every candidate item gives its source. */
  lemma {:induction false} SourcesComplete<T>(xs: seq<T>, candidate: T -> bool, load: T -> Load, x: T)
    requires x in xs && candidate(x)
    ensures load(x) in Sources(xs, candidate, load)
  {
    if x != xs[0] {
      assert xs == [xs[0]] + xs[1..];
      SourcesComplete(xs[1..], candidate, load, x);
    }
  }

  /** Every source comes from a candidate item. */
  lemma {:induction false} SourcesSound<T>(xs: seq<T>, candidate: T -> bool, load: T -> Load, l: Load)
    requires l in Sources(xs, candidate, load)
    ensures exists x :: x in xs && candidate(x) && load(x) == l
  {
    if !(candidate(xs[0]) && load(xs[0]) == l) {
      SourcesSound(xs[1..], candidate, load, l);
      var x :| x in xs[1..] && candidate(x) && load(x) == l;
      assert xs == [xs[0]] + xs[1..];
      assert x in xs;
    }
  }

  // ---------------------------------------------------------------- directory walk

  /** The extension the directory walk reads off a relative path. */
  function DirExt(rel: string): (ext: string)
    ensures |ext| <= |rel| && rel[|rel| - |ext|..] == ext
  {
    if Index(rel, '.') != -1 then Ext(rel) else ""
  }

  /** The walk's extension is filepath.Ext's: the guard on a dot anywhere in the path changes nothing. */
  lemma DirExtIsExt(rel: string)
    ensures DirExt(rel) == Ext(rel)
  {
    if Index(rel, '.') == -1 {
      ExtEmpty(rel);
    }
  }

  /** A walk entry becomes a template when it is not a directory and its extension is configured. */
  predicate DirCandidate(e: WalkEntry, exts: seq<string>)
  {
    !e.isDir && DirExt(e.rel) in exts
  }

  function DirLoad(e: WalkEntry): Load
  {
    Load(TemplateName(e.rel, DirExt(e.rel)), e.rel, e.contents)
  }

  /** The sources the directory walk parses, in walk order. */
  function DirLoads(es: seq<WalkEntry>, exts: seq<string>): seq<Load>
  {
    Sources(es, e => DirCandidate(e, exts), DirLoad)
  }

  /** The walk parses a source for each candidate entry and for nothing else. */
  lemma DirLoadsExactly(es: seq<WalkEntry>, exts: seq<string>, l: Load)
    ensures l in DirLoads(es, exts) <==> exists e :: e in es && DirCandidate(e, exts) && DirLoad(e) == l
  {
    if l in DirLoads(es, exts) {
      SourcesSound(es, e => DirCandidate(e, exts), DirLoad, l);
    } else {
      forall e | e in es && DirCandidate(e, exts)
        ensures DirLoad(e) != l
      {
        SourcesComplete(es, e => DirCandidate(e, exts), DirLoad, e);
      }
    }
  }

  // ---------------------------------------------------------------- asset provider

  /** The extension the asset loader reads off a relative path: a dot and everything after the first dot. */
  function AssetExt(rel: string): (ext: string)
    ensures |ext| <= |rel| && rel[|rel| - |ext|..] == ext
    ensures '.' !in rel ==> ext == ""
  {
    if Index(rel, '.') != -1 then
      JoinAfterFirst(rel, '.');
      "." + Join(Split(rel, '.')[1..], '.')
    else ""
  }

  /** The asset loader's extension is the suffix from the first dot (the walk's is from the last). */
  lemma AssetExtFromFirstDot(rel: string)
    requires '.' in rel
    ensures AssetExt(rel) == rel[Index(rel, '.')..]
  {
    JoinAfterFirst(rel, '.');
  }

  /** When the first dot is the only one and no separator follows it, the two loaders agree. */
  lemma ExtensionsAgree(rel: string)
    requires '.' in rel
    requires '.' !in rel[Index(rel, '.') + 1..] && PathSeparator !in rel[Index(rel, '.')..]
    ensures AssetExt(rel) == DirExt(rel)
  {
    AssetExtFromFirstDot(rel);
    ExtFromOnlyDot(rel, Index(rel, '.'));
  }

  /** Otherwise they disagree: a second dot, or a dot in a directory name, makes the asset extension longer. */
  lemma ExtensionsDisagree(rel: string)
    requires '.' in rel
    requires '.' in rel[Index(rel, '.') + 1..] || PathSeparator in rel[Index(rel, '.')..]
    ensures AssetExt(rel) != DirExt(rel)
  {
    var i := Index(rel, '.');
    AssetExtFromFirstDot(rel);
    DirExtIsExt(rel);
    var e := Ext(rel);
    if e != [] {
      ExtOneDot(rel);
      ExtInFinalElement(rel);
      assert rel[i..][1..] == rel[i + 1..];
      if '.' in rel[i + 1..] {
        assert '.' !in e[1..];
      } else {
        assert PathSeparator !in e;
      }
    }
  }

  /** To the walk, "a.b.tmpl" has extension ".tmpl" and is picked up by it. */
  lemma DoubleDotWalk()
    ensures DirExt("a.b.tmpl") == ".tmpl"
    ensures DirCandidate(WalkEntry("a.b.tmpl", false, None), [".tmpl"])
  {
    var rel := "a.b.tmpl";
    assert rel[3..] == ".tmpl" && rel[4..] == "tmpl";
    ExtFromOnlyDot(rel, 3);
  }

  /** A walk entry's template name is its relative path without the extension. */
  lemma DirLoadName(e: WalkEntry)
    ensures DirLoad(e).name == e.rel[..|e.rel| - |DirExt(e.rel)|]
  {
  }

  /** ... and becomes the template "a.b". */
  lemma DoubleDotWalkName()
    ensures DirLoad(WalkEntry("a.b.tmpl", false, None)).name == "a.b"
  {
    var e := WalkEntry("a.b.tmpl", false, None);
    DoubleDotWalk();
    DirLoadName(e);
    assert e.rel[..3] == "a.b";
  }

  /**
   * An asset name the loop does not skip: it starts with the directory, and
   * either filepath.Rel fails on it (a panic) or its extension is configured.
   */
  predicate AssetCandidate(path: string, dir: string, exts: seq<string>)
    requires dir != []
  {
    HasPrefix(path, dir) && (Rel(dir, path).None? || AssetExt(Rel(dir, path).value) in exts)
  }

  /**
   * The source of an asset name under the directory. A name that
   * filepath.Rel fails on has no contents, so that compiling it fails; a
   * name outside the directory is never a candidate and gets the same empty
   * source so that the function is total.
   */
  function AssetLoad(path: string, dir: string, asset: map<string, string>): Load
    requires dir != []
  {
    if !HasPrefix(path, dir) then Load(path, path, None)
    else
      match Rel(dir, path)
      case None => Load(path, path, None)
      case Some(rel) =>
        var ext := AssetExt(rel);
        Load(TemplateName(rel, ext), path, if path in asset then Some(asset[path]) else None)
  }

  /** The sources the asset loader parses, in the order AssetNames lists them. */
  function AssetLoads(names: seq<string>, dir: string, exts: seq<string>, asset: map<string, string>): seq<Load>
    requires dir != []
  {
    Sources(names, p => AssetCandidate(p, dir, exts), p => AssetLoad(p, dir, asset))
  }

  /** To the asset loader, "a.b.tmpl" has extension ".b.tmpl" ... */
  lemma DoubleDotAssetExt()
    ensures AssetExt("a.b.tmpl") == ".b.tmpl"
  {
    var rel := "a.b.tmpl";
    assert rel[0] == 'a' && rel[1..][0] == '.';
    assert Index(rel, '.') == 1;
    assert rel[1..] == ".b.tmpl";
    AssetExtFromFirstDot(rel);
  }

  /** ... so the extension ".tmpl" does not pick up "a.b.tmpl" in the directory, as "templates/a.b.tmpl". */
  lemma DoubleDotAsset(dir: string)
    requires dir != [] && dir != "." && dir[|dir| - 1] != PathSeparator
    ensures !AssetCandidate(dir + "/a.b.tmpl", dir, [".tmpl"])
  {
    var path, rel := dir + "/a.b.tmpl", "a.b.tmpl";
    assert path[..|dir|] == dir;
    assert DirPrefix(dir) == dir + "/";
    assert path[..|dir| + 1] == dir + "/";
    assert path[|dir| + 1..] == rel;
    assert Rel(dir, path) == Some(rel);
    DoubleDotAssetExt();
    assert |".b.tmpl"| != |".tmpl"|;
  }

  /**
   * The directory filter compares characters, not path elements: a name such
   * as "templatesX/a.tmpl" passes it, its relative path climbs out with
   * "../", its extension is that whole relative path, and were it configured
   * the template would be named "".
   */
  lemma ClimbingAssetName(dir: string, path: string)
    requires dir != [] && HasPrefix(path, dir) && path != dir && !HasPrefix(path, DirPrefix(dir))
    requires FinalElement(dir) != ".."
    ensures Rel(dir, path).Some? && AssetExt(Rel(dir, path).value) == Rel(dir, path).value
    ensures AssetCandidate(path, dir, [Rel(dir, path).value]) && AssetLoad(path, dir, map[]).name == ""
  {
    var rel := Rel(dir, path).value;
    assert rel[0] == '.';
    assert Index(rel, '.') == 0;
    AssetExtFromFirstDot(rel);
  }

  /**
   * Below the root directory a name's relative path is the name without its
   * leading separator: a configured extension picks it up, and the template
   * is named by the rest of the path.
   */
  lemma RootDirectoryAsset(path: string)
    requires |path| > 1 && path[0] == PathSeparator
    ensures Rel("/", path) == Some(path[1..])
    ensures AssetCandidate(path, "/", [AssetExt(path[1..])])
    ensures AssetLoad(path, "/", map[]).name + AssetExt(path[1..]) == path[1..]
  {
    assert path[..1] == "/";
    assert DirPrefix("/") == "/";
  }

  /**
   * Beside a directory whose final element is "..", a name that only shares
   * its characters (such as "..x/a.tmpl" beside "..") is not skipped:
   * filepath.Rel fails on it and compilation panics, whatever the
   * extensions.
   */
  lemma BesideParentPanics(dir: string, path: string, exts: seq<string>, asset: map<string, string>,
                           env: ParseEnv, parse: Parser)
    requires dir != [] && FinalElement(dir) == ".."
    requires HasPrefix(path, dir) && path != dir && !HasPrefix(path, DirPrefix(dir))
    ensures AssetCandidate(path, dir, exts)
    ensures Fails(AssetLoad(path, dir, asset), env, parse)
  {
  }

  /** The asset loader parses a source for each candidate name and for nothing else. */
  lemma AssetLoadsExactly(names: seq<string>, dir: string, exts: seq<string>, asset: map<string, string>, l: Load)
    requires dir != []
    ensures l in AssetLoads(names, dir, exts, asset) <==>
              exists p :: p in names && AssetCandidate(p, dir, exts) && AssetLoad(p, dir, asset) == l
  {
    var candidate := p => AssetCandidate(p, dir, exts);
    var load := p => AssetLoad(p, dir, asset);
    if l in AssetLoads(names, dir, exts, asset) {
      SourcesSound(names, candidate, load, l);
    } else {
      forall p | p in names && AssetCandidate(p, dir, exts)
        ensures AssetLoad(p, dir, asset) != l
      {
        SourcesComplete(names, candidate, load, p);
      }
    }
  }

  // ---------------------------------------------------------------- compilation

  /**
   * A source that cannot be read (or whose asset name filepath.Rel fails
   * on), does not parse, or defines its own name twice; each of these
   * panics.
   */
  predicate Fails(l: Load, env: ParseEnv, parse: Parser)
  {
    l.contents.None? || parse(env, l.contents.value).None? || Clashes(l.name, parse(env, l.contents.value).value)
  }

  /** The templates a source that does not fail adds, under its name and those it defines. */
  function TreesOf(l: Load, env: ParseEnv, parse: Parser): map<string, Template>
    requires !Fails(l, env, parse)
  {
    Trees(l.name, parse(env, l.contents.value).value)
  }

  /**
   * Parsing the sources in order into the set acc: each one adds its
   * templates as Associate does, and the first source that fails stops
   * compilation with what was parsed so far.
   */
  function CompileFrom(acc: map<string, Template>, loads: seq<Load>, env: ParseEnv, parse: Parser): Compilation
    decreases |loads|
  {
    if loads == [] then Compilation(acc, None)
    else if Fails(loads[0], env, parse) then Compilation(acc, Some(loads[0].origin))
    else CompileFrom(Associate(acc, TreesOf(loads[0], env, parse)), loads[1..], env, parse)
  }

  /** One step of compilation: the first source fails and stops it, or is added and the rest follow. */
  lemma CompileFromCons(acc: map<string, Template>, l: Load, rest: seq<Load>, env: ParseEnv, parse: Parser)
    ensures CompileFrom(acc, [l] + rest, env, parse) ==
            if Fails(l, env, parse) then Compilation(acc, Some(l.origin))
            else CompileFrom(Associate(acc, TreesOf(l, env, parse)), rest, env, parse)
  {
    assert ([l] + rest)[0] == l && ([l] + rest)[1..] == rest;
  }

  /** Compiling the sources from item i on: item i is skipped, stops compilation, or is added. */
  lemma SourcesStep<T>(acc: map<string, Template>, xs: seq<T>, candidate: T -> bool, load: T -> Load, i: nat,
                       env: ParseEnv, parse: Parser)
    requires i < |xs|
    ensures !candidate(xs[i]) ==>
              CompileFrom(acc, Sources(xs[i..], candidate, load), env, parse) ==
              CompileFrom(acc, Sources(xs[i + 1..], candidate, load), env, parse)
    ensures candidate(xs[i]) && Fails(load(xs[i]), env, parse) ==>
              CompileFrom(acc, Sources(xs[i..], candidate, load), env, parse) ==
              Compilation(acc, Some(load(xs[i]).origin))
    ensures candidate(xs[i]) && !Fails(load(xs[i]), env, parse) ==>
              CompileFrom(acc, Sources(xs[i..], candidate, load), env, parse) ==
              CompileFrom(Associate(acc, TreesOf(load(xs[i]), env, parse)),
                          Sources(xs[i + 1..], candidate, load), env, parse)
  {
    SourcesAt(xs, candidate, load, i);
    var rest := Sources(xs[i + 1..], candidate, load);
    CompileFromCons(acc, load(xs[i]), rest, env, parse);
    assert [] + rest == rest;
  }

  /** Compiling the walk from entry i on: entry i is skipped, stops compilation, or is added. */
  lemma DirStep(acc: map<string, Template>, es: seq<WalkEntry>, exts: seq<string>, i: nat,
                env: ParseEnv, parse: Parser)
    requires i < |es|
    ensures !DirCandidate(es[i], exts) ==>
              CompileFrom(acc, DirLoads(es[i..], exts), env, parse) ==
              CompileFrom(acc, DirLoads(es[i + 1..], exts), env, parse)
    ensures DirCandidate(es[i], exts) && Fails(DirLoad(es[i]), env, parse) ==>
              CompileFrom(acc, DirLoads(es[i..], exts), env, parse) == Compilation(acc, Some(es[i].rel))
    ensures DirCandidate(es[i], exts) && !Fails(DirLoad(es[i]), env, parse) ==>
              CompileFrom(acc, DirLoads(es[i..], exts), env, parse) ==
              CompileFrom(Associate(acc, TreesOf(DirLoad(es[i]), env, parse)),
                          DirLoads(es[i + 1..], exts), env, parse)
  {
    SourcesStep(acc, es, e => DirCandidate(e, exts), DirLoad, i, env, parse);
  }

  /**
   * The walk loop's step: when the callback for entry i leaves the set as
   * WalkEntryFunc promises, compiling from entry i on from the old set is
   * compiling from entry i + 1 on from the new one, or stops at entry i.
   */
  lemma DirLoopStep(acc: map<string, Template>, acc': map<string, Template>, es: seq<WalkEntry>,
                    exts: seq<string>, i: nat, env: ParseEnv, parse: Parser, ok: bool)
    requires i < |es|
    requires !DirCandidate(es[i], exts) ==> ok && acc' == acc
    requires DirCandidate(es[i], exts) ==> (ok <==> !Fails(DirLoad(es[i]), env, parse))
    requires DirCandidate(es[i], exts) && ok ==> acc' == Associate(acc, TreesOf(DirLoad(es[i]), env, parse))
    ensures ok ==> CompileFrom(acc, DirLoads(es[i..], exts), env, parse) ==
                   CompileFrom(acc', DirLoads(es[i + 1..], exts), env, parse)
    ensures !ok ==> CompileFrom(acc, DirLoads(es[i..], exts), env, parse) == Compilation(acc, Some(es[i].rel))
  {
    DirStep(acc, es, exts, i, env, parse);
  }

  /** The origin and contents of an asset name's source. */
  lemma AssetLoadFields(path: string, dir: string, asset: map<string, string>)
    requires dir != []
    ensures AssetLoad(path, dir, asset).origin == path
    ensures AssetLoad(path, dir, asset).contents ==
              if HasPrefix(path, dir) && Rel(dir, path).Some? && path in asset then Some(asset[path]) else None
  {
  }

  /** Compiling the listed assets from name i on: name i is skipped, stops compilation, or is added. */
  lemma AssetStep(acc: map<string, Template>, names: seq<string>, dir: string, exts: seq<string>,
                  asset: map<string, string>, i: nat, env: ParseEnv, parse: Parser)
    requires dir != [] && i < |names|
    ensures !AssetCandidate(names[i], dir, exts) ==>
              CompileFrom(acc, AssetLoads(names[i..], dir, exts, asset), env, parse) ==
              CompileFrom(acc, AssetLoads(names[i + 1..], dir, exts, asset), env, parse)
    ensures AssetCandidate(names[i], dir, exts) && Fails(AssetLoad(names[i], dir, asset), env, parse) ==>
              CompileFrom(acc, AssetLoads(names[i..], dir, exts, asset), env, parse) ==
              Compilation(acc, Some(names[i]))
    ensures AssetCandidate(names[i], dir, exts) && !Fails(AssetLoad(names[i], dir, asset), env, parse) ==>
              CompileFrom(acc, AssetLoads(names[i..], dir, exts, asset), env, parse) ==
              CompileFrom(Associate(acc, TreesOf(AssetLoad(names[i], dir, asset), env, parse)),
                          AssetLoads(names[i + 1..], dir, exts, asset), env, parse)
  {
    SourcesStep(acc, names, p => AssetCandidate(p, dir, exts), p => AssetLoad(p, dir, asset), i, env, parse);
    AssetLoadFields(names[i], dir, asset);
  }

  /** The names of the templates a run of sources adds, when none of them fails. */
  function DefinedNames(loads: seq<Load>, env: ParseEnv, parse: Parser): set<string>
  {
    set l, n | l in loads && !Fails(l, env, parse) && n in TreesOf(l, env, parse) :: n
  }

  /** The names a source that does not fail, followed by others, defines: its own, then theirs. */
  lemma DefinedNamesCons(l: Load, rest: seq<Load>, env: ParseEnv, parse: Parser)
    requires !Fails(l, env, parse)
    ensures DefinedNames([l] + rest, env, parse) == TreesOf(l, env, parse).Keys + DefinedNames(rest, env, parse)
  {
    var loads := [l] + rest;
    forall n | n in DefinedNames(loads, env, parse)
      ensures n in TreesOf(l, env, parse).Keys + DefinedNames(rest, env, parse)
    {
      var l', n' :| l' in loads && !Fails(l', env, parse) && n' in TreesOf(l', env, parse) && n' == n;
      if l' != l {
        assert l' in rest;
      }
    }
    forall n | n in TreesOf(l, env, parse).Keys + DefinedNames(rest, env, parse)
      ensures n in DefinedNames(loads, env, parse)
    {
      if n !in TreesOf(l, env, parse) {
        var l', n' :| l' in rest && !Fails(l', env, parse) && n' in TreesOf(l', env, parse) && n' == n;
        assert l' in loads;
      }
    }
  }

  /**
   * When compilation succeeds, the set holds exactly the names it started
   * with and the names the sources define, their own names included.
   */
  lemma {:induction false} CompiledNames(acc: map<string, Template>, loads: seq<Load>, env: ParseEnv, parse: Parser)
    requires CompileFrom(acc, loads, env, parse).failure.None?
    ensures CompileFrom(acc, loads, env, parse).templates.Keys == acc.Keys + DefinedNames(loads, env, parse)
    decreases |loads|
  {
    if loads != [] {
      var l := loads[0];
      CompiledNames(Associate(acc, TreesOf(l, env, parse)), loads[1..], env, parse);
      assert loads == [l] + loads[1..];
      DefinedNamesCons(l, loads[1..], env, parse);
    }
  }

  /** When compilation succeeds, every source's own name is in the set. */
  lemma CompiledOwnNames(acc: map<string, Template>, loads: seq<Load>, env: ParseEnv, parse: Parser, l: Load)
    requires CompileFrom(acc, loads, env, parse).failure.None? && l in loads
    ensures l.name in CompileFrom(acc, loads, env, parse).templates
  {
    CompileFailsIff(acc, loads, env, parse);
    CompiledNames(acc, loads, env, parse);
    assert l.name in TreesOf(l, env, parse);
  }

  /** Each compiled template is one the set started with, or one a source defines under that name. */
  lemma {:induction false} CompiledValues(acc: map<string, Template>, loads: seq<Load>, env: ParseEnv,
                                          parse: Parser, name: string)
    requires name in CompileFrom(acc, loads, env, parse).templates
    ensures var t := CompileFrom(acc, loads, env, parse).templates[name];
            (name in acc && t == acc[name]) ||
            (exists l :: l in loads && !Fails(l, env, parse) && name in TreesOf(l, env, parse)
                         && TreesOf(l, env, parse)[name] == t)
    decreases |loads|
  {
    if loads != [] && !Fails(loads[0], env, parse) {
      var l := loads[0];
      var acc' := Associate(acc, TreesOf(l, env, parse));
      CompiledValues(acc', loads[1..], env, parse, name);
      assert loads == [l] + loads[1..];
    }
  }

  /** Compilation fails exactly when one of the sources cannot be read or does not parse. */
  lemma {:induction false} CompileFailsIff(acc: map<string, Template>, loads: seq<Load>, env: ParseEnv, parse: Parser)
    ensures CompileFrom(acc, loads, env, parse).failure.Some? <==> exists l :: l in loads && Fails(l, env, parse)
    decreases |loads|
  {
    if loads != [] {
      assert loads == [loads[0]] + loads[1..];
      if !Fails(loads[0], env, parse) {
        CompileFailsIff(Associate(acc, TreesOf(loads[0], env, parse)), loads[1..], env, parse);
      }
    }
  }

  /** compileTemplatesFromDir: the sources of the walk, parsed into a fresh set. */
  function CompileDir(es: seq<WalkEntry>, o: Options, parse: Parser): Compilation
  {
    CompileFrom(map[], DirLoads(es, o.extensions), EnvOf(o), parse)
  }

  /** compileTemplatesFromAsset: the sources the asset callbacks name now, parsed into a fresh set. */
  function CompileAsset(f: Files, o: Options, parse: Parser): Compilation
    requires o.directory != []
  {
    CompileFrom(map[], AssetLoads(f.assetNames, o.directory, o.extensions, f.asset), EnvOf(o), parse)
  }

  /**
   * A walk that compiles holds a template of a name exactly when some entry
   * that is not a directory, and whose extension is configured, has that
   * name or defines it; every such entry's own name is there.
   */
  lemma DirTemplateNames(es: seq<WalkEntry>, o: Options, parse: Parser, name: string)
    requires CompileDir(es, o, parse).failure.None?
    ensures name in CompileDir(es, o, parse).templates <==>
              exists e :: e in es && !e.isDir && DirExt(e.rel) in o.extensions
                          && !Fails(DirLoad(e), EnvOf(o), parse) && name in TreesOf(DirLoad(e), EnvOf(o), parse)
    ensures forall e :: e in es && !e.isDir && DirExt(e.rel) in o.extensions ==>
              DirLoad(e).name in CompileDir(es, o, parse).templates
  {
    var env := EnvOf(o);
    var loads := DirLoads(es, o.extensions);
    CompiledNames(map[], loads, env, parse);
    if name in CompileDir(es, o, parse).templates {
      var l, n :| l in loads && !Fails(l, env, parse) && n in TreesOf(l, env, parse) && n == name;
      DirLoadsExactly(es, o.extensions, l);
    } else {
      forall e | e in es && DirCandidate(e, o.extensions) && !Fails(DirLoad(e), env, parse)
        ensures name !in TreesOf(DirLoad(e), env, parse)
      {
        DirLoadsExactly(es, o.extensions, DirLoad(e));
      }
    }
    forall e | e in es && DirCandidate(e, o.extensions)
      ensures DirLoad(e).name in CompileDir(es, o, parse).templates
    {
      DirLoadsExactly(es, o.extensions, DirLoad(e));
      CompiledOwnNames(map[], loads, env, parse, DirLoad(e));
    }
  }

  /**
   * An asset compilation that succeeds holds a template of a name exactly
   * when some listed name under the directory, whose extension is
   * configured, gives that name or defines it; every such name's own
   * template name is there.
   */
  lemma AssetTemplateNames(f: Files, o: Options, parse: Parser, name: string)
    requires o.directory != [] && CompileAsset(f, o, parse).failure.None?
    ensures name in CompileAsset(f, o, parse).templates <==>
              exists p :: p in f.assetNames && AssetCandidate(p, o.directory, o.extensions)
                          && !Fails(AssetLoad(p, o.directory, f.asset), EnvOf(o), parse)
                          && name in TreesOf(AssetLoad(p, o.directory, f.asset), EnvOf(o), parse)
    ensures forall p :: p in f.assetNames && AssetCandidate(p, o.directory, o.extensions) ==>
              AssetLoad(p, o.directory, f.asset).name in CompileAsset(f, o, parse).templates
  {
    var env := EnvOf(o);
    var loads := AssetLoads(f.assetNames, o.directory, o.extensions, f.asset);
    CompiledNames(map[], loads, env, parse);
    if name in CompileAsset(f, o, parse).templates {
      var l, n :| l in loads && !Fails(l, env, parse) && n in TreesOf(l, env, parse) && n == name;
      AssetLoadsExactly(f.assetNames, o.directory, o.extensions, f.asset, l);
    } else {
      forall p | p in f.assetNames && AssetCandidate(p, o.directory, o.extensions)
                 && !Fails(AssetLoad(p, o.directory, f.asset), env, parse)
        ensures name !in TreesOf(AssetLoad(p, o.directory, f.asset), env, parse)
      {
        AssetLoadsExactly(f.assetNames, o.directory, o.extensions, f.asset, AssetLoad(p, o.directory, f.asset));
      }
    }
    forall p | p in f.assetNames && AssetCandidate(p, o.directory, o.extensions)
      ensures AssetLoad(p, o.directory, f.asset).name in CompileAsset(f, o, parse).templates
    {
      AssetLoadsExactly(f.assetNames, o.directory, o.extensions, f.asset, AssetLoad(p, o.directory, f.asset));
      CompiledOwnNames(map[], loads, env, parse, AssetLoad(p, o.directory, f.asset));
    }
  }

  /** compileTemplates: the walk unless both asset callbacks are set. */
  function Compile(f: Files, o: Options, parse: Parser): Compilation
    requires o.directory != []
  {
    if !o.hasAsset || !o.hasAssetNames then CompileDir(f.walk, o, parse) else CompileAsset(f, o, parse)
  }
}
