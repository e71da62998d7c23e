# unrolled/render façade, modelled in Dafny

This project models the façade of the `render` package vendored at
`Godeps/_workspace/src/github.com/unrolled/render/render.go`. The façade
renders HTTP responses in six formats. It fills in defaults for its options
and compiles a set of HTML templates from a directory walk or from an asset
provider. It lets a layout template render the requested page through the
`yield` and `current` helpers. It builds each format's header, and it turns
an engine error into a 500.

Modules, one file each:

- `Wrappers` (`wrappers.dfy`): `Option` and `Result`.
- `Paths` (`paths.dfy`): the string and path functions the compiler uses.
  These are `strings.Index`, `strings.HasPrefix`, `strings.Split` and
  `strings.Join`, plus `filepath.Ext`, `filepath.Rel` and
  `filepath.ToSlash` for the separator `/`. `filepath.Rel` may fail.
- `RenderOptions` (`options.dfy`): `Options` and `HTMLOptions`, the
  constants, and what `prepareOptions` and `prepareHTMLOptions` compute.
- `Templates` (`templates.dfy`): template discovery and compilation as
  values. It states which walk entries or asset names become templates,
  under which names, and when compilation panics.
- `Execution` (`execute.dfy`): running a compiled template. The `yield` and
  `current` helpers behave as bound: the `helperFuncs` defaults, or what
  `addYield` bound.
- `Engines` (`engines.dfy`): `Head`, the settings the façade hands to each
  engine, what an engine reports, and what a call writes. It also shows how
  a content type with the `"; charset="` suffix reads back as a media type
  and a charset parameter (section 3.1.1.1 of RFC 7231).
- `Render` (`render.dfy`): the class `Render`. Its fields are the prepared
  options, the compiled charset suffix, the template set and the
  `yield`/`current` binding. Its methods are `prepareOptions`, the three
  compile routines, `addYield`, `Render` and the six entry points, plus `New`.

The imperative parts keep the source's form. `PrepareOptions` fills the
defaults one by one. The compile methods loop over the entries or asset
names and add to the `templates` field in place. Each one is proved equal
to a specification function (`Templates.CompileDir`, `Templates.CompileAsset`)
that folds the same sources into a map. The lemmas about that fold state
which names end up in the set, what each one holds, and when compilation
fails.

A template is a sequence of pieces: text, `yield`, `current`, or any other
action, given as a function of the binding. `html/template`'s parser is a
parameter that may fail. It gives a source's own body and the templates its
`{{define}}` and `{{block}}` actions define. Each parse adds all of them to
the set by `text/template`'s rules. A failure, like an unreadable file or a
name `filepath.Rel` rejects, stops compilation where the source panics.

What the file system and the asset callbacks answer is a `Files` value.
`New` and every development-mode `HTML` call take the answers of that
moment, because `compileTemplates` asks for them again each time.

`addYield` (render.go:255-267) rebinds `yield` and `current` on the shared
template set, and only `compileTemplates` restores the `helperFuncs`
defaults. Outside development mode, an `HTML` call without a layout
therefore still sees the binding of the last call that had one
(`Render.Render.HTML` leaves `yieldTarget` unchanged in that case).

## Model

| member | source | states |
|---|---|---|
| RenderOptions.FirstOptions | Godeps/_workspace/src/github.com/unrolled/render/render.go:108-113 | New uses the first Options given, or the zero Options when none is given |
| RenderOptions.Prepared | Godeps/_workspace/src/github.com/unrolled/render/render.go:130-146 | an empty charset, directory, extension list or HTML content type becomes "UTF-8", "templates", [".tmpl"] or "text/html"; a set one is kept; no other option changes; the result is prepared |
| RenderOptions.PreparedFixpoint | Godeps/_workspace/src/github.com/unrolled/render/render.go:130-146 | preparing leaves options unchanged exactly when all four are already set |
| RenderOptions.PreparedIdempotent | Godeps/_workspace/src/github.com/unrolled/render/render.go:137-145 | running prepareOptions twice gives the same options as running it once |
| RenderOptions.PrepareHTMLOptions | Godeps/_workspace/src/github.com/unrolled/render/render.go:269-277 | an explicit per-call HTMLOptions wins, even with an empty layout; otherwise the configured layout is used |
| Render.Render.constructor | Godeps/_workspace/src/github.com/unrolled/render/render.go:115-117 | a Render holds the given options and nothing compiled yet |
| Render.Render.PrepareOptions | Godeps/_workspace/src/github.com/unrolled/render/render.go:130-146 | the new options are Prepared(old options), and compiledCharset is "; charset=" followed by the final charset |
| Render.New | Godeps/_workspace/src/github.com/unrolled/render/render.go:107-128 | New returns a Render with the prepared first options and the set compiled from the answers given at that time, with the helpers at their defaults; it returns nothing exactly when compilation panics |
| Render.Render.CompileTemplates | Godeps/_workspace/src/github.com/unrolled/render/render.go:148-154 | the directory walk is used unless both Asset and AssetNames are set; the set is what that route compiles from the given answers, and the helpers are back at their defaults |
| Render.Render.CompileTemplatesFromDir | Godeps/_workspace/src/github.com/unrolled/render/render.go:156-204 | the loop over walk entries leaves the set equal to CompileDir; it fails exactly when CompileDir records a failure |
| Render.Render.WalkEntryFunc | Godeps/_workspace/src/github.com/unrolled/render/render.go:162-203 | a directory or an entry whose extension is not configured changes nothing; otherwise the step fails exactly when the file cannot be read or parsed, leaving the set unchanged, or adds the parse's templates under its name and the names it defines |
| Templates.DirLoopStep | Godeps/_workspace/src/github.com/unrolled/render/render.go:162-203 | a walk callback that leaves the set as WalkEntryFunc promises advances compilation by one entry, or stops it at that entry |
| Render.MatchExtension | Godeps/_workspace/src/github.com/unrolled/render/render.go:182-201 | the loop over the configured extensions finds a match exactly when the extension is in the list |
| Render.Render.CompileTemplatesFromAsset | Godeps/_workspace/src/github.com/unrolled/render/render.go:206-248 | the loop over the names AssetNames lists now leaves the set equal to CompileAsset; it fails exactly when CompileAsset records a failure |
| Render.Render.CompileAssetName | Godeps/_workspace/src/github.com/unrolled/render/render.go:211-247 | a name outside the directory or with an unconfigured extension changes nothing; a name filepath.Rel rejects, an asset that cannot be loaded or a source that does not parse fails and leaves the set unchanged; otherwise the parse's templates are added |
| Render.Render.AddYield | Godeps/_workspace/src/github.com/unrolled/render/render.go:255-267 | yield and current are bound to the requested name and binding |
| Render.Render.Render | Godeps/_workspace/src/github.com/unrolled/render/render.go:280-285 | an engine error returned before anything was written becomes an http.Error with that message and status 500, and only such an error does; an error after the engine wrote keeps its head and appends the message and a newline to what it wrote; otherwise the engine's head and body are written |
| Render.RenderHTML | Godeps/_workspace/src/github.com/unrolled/render/render.go:321-327 | the HTML engine writes its head and the executed template's output; an execution error becomes a 500 with its message, an undefined name the "is undefined" one; a yield that re-enters without end aborts the call |
| Render.Render.Data | Godeps/_workspace/src/github.com/unrolled/render/render.go:288-299 | the reply is Render applied to a Data engine whose head is application/octet-stream, without a charset, and the given status |
| Render.Render.HTML | Godeps/_workspace/src/github.com/unrolled/render/render.go:302-328 | development mode recompiles first from the answers at call time and a failed compilation aborts the call; with a non-empty layout the yield binding is the requested page and the layout is executed; without one the binding is left as it was; the head is the HTML content type plus the charset suffix with the given status |
| Render.Render.JSON | Godeps/_workspace/src/github.com/unrolled/render/render.go:331-346 | the reply is Render applied to a JSON engine with application/json plus the charset suffix, the given status, and the JSON indent, prefix, unescape and streaming options |
| Render.Render.JSONP | Godeps/_workspace/src/github.com/unrolled/render/render.go:349-362 | the reply is Render applied to a JSONP engine with application/javascript plus the charset suffix, the given status, the JSON indent option and the callback |
| Render.Render.Text | Godeps/_workspace/src/github.com/unrolled/render/render.go:365-376 | the reply is Render applied to a Text engine with text/plain plus the charset suffix and the given status |
| Render.Render.XML | Godeps/_workspace/src/github.com/unrolled/render/render.go:379-392 | the reply is Render applied to an XML engine with text/xml plus the charset suffix, the given status, and the XML indent and prefix options |
| Engines.MediaType | Godeps/_workspace/src/github.com/unrolled/render/render.go:317 | the media type is the part of a content type before its first ';', and the ';' follows it when there is one |
| Engines.ContentTypeRoundTrip | Godeps/_workspace/src/github.com/unrolled/render/render.go:135 | a media type followed by "; charset=" and a charset reads back as that media type and that charset |
| Engines.BareContentType | Godeps/_workspace/src/github.com/unrolled/render/render.go:290 | a media type with no suffix has no charset parameter |
| Engines.FormatContentTypes | Godeps/_workspace/src/github.com/unrolled/render/render.go:288-392 | Data's content type has no charset; JSON's, JSONP's, Text's and XML's read back as their fixed media type and the configured charset |
| Paths.Index | Godeps/_workspace/src/github.com/unrolled/render/render.go:178 | strings.Index gives -1 exactly when the character is absent, and otherwise its first position |
| Paths.HasPrefixIff | Godeps/_workspace/src/github.com/unrolled/render/render.go:212 | strings.HasPrefix holds exactly when the name is the prefix followed by something |
| Paths.Ext | Godeps/_workspace/src/github.com/unrolled/render/render.go:179 | filepath.Ext is a suffix of the path |
| Paths.ExtInFinalElement | Godeps/_workspace/src/github.com/unrolled/render/render.go:179 | filepath.Ext lies within the final path element and holds no separator |
| Paths.ExtEmpty | Godeps/_workspace/src/github.com/unrolled/render/render.go:179 | filepath.Ext is empty exactly when the final path element has no dot |
| Paths.ExtOneDot | Godeps/_workspace/src/github.com/unrolled/render/render.go:179 | a non-empty filepath.Ext starts with a dot and holds no other, so it starts at the final element's last dot |
| Paths.ExtFromOnlyDot | Godeps/_workspace/src/github.com/unrolled/render/render.go:179 | a dot with no dot and no separator after it starts the extension |
| Paths.Split | Godeps/_workspace/src/github.com/unrolled/render/render.go:223 | strings.Split gives at least one piece |
| Paths.SplitPieces | Godeps/_workspace/src/github.com/unrolled/render/render.go:223 | no piece strings.Split gives holds the separator |
| Paths.JoinEnds | Godeps/_workspace/src/github.com/unrolled/render/render.go:223 | strings.Join of no pieces is ""; otherwise the first piece starts the result and the last ends it |
| Paths.JoinSplit | Godeps/_workspace/src/github.com/unrolled/render/render.go:223 | joining what strings.Split gives, with the same separator, restores the string |
| Paths.JoinAfterFirst | Godeps/_workspace/src/github.com/unrolled/render/render.go:223 | "." joined with the split parts after the first is the suffix from the first dot |
| Paths.Rel | Godeps/_workspace/src/github.com/unrolled/render/render.go:216-219 | the relative path is "." for the directory itself and what follows the directory and a separator below it ("" below ".", the leading "/" below the root); a name that only shares the directory's characters climbs out with "../", or fails when the final element is ".." |
| Paths.RelBelowRoot | Godeps/_workspace/src/github.com/unrolled/render/render.go:216 | below the root "/", the relative path of "/x/a.tmpl" is "x/a.tmpl" |
| Paths.RelBelowDot | Godeps/_workspace/src/github.com/unrolled/render/render.go:216 | below ".", the relative path of ".a.tmpl" is ".a.tmpl" |
| Paths.RelBelowTrailingSeparator | Godeps/_workspace/src/github.com/unrolled/render/render.go:216 | below a directory given with a trailing separator, the relative path is what follows it |
| Paths.ToSlash | Godeps/_workspace/src/github.com/unrolled/render/render.go:190 | ToSlash replaces separators by '/' and leaves every other character; with separator '/' it is the identity |
| Templates.FuncNames | Godeps/_workspace/src/github.com/unrolled/render/render.go:193-198 | a template is parsed with exactly the names of the configured function bundles and the yield and current helpers in scope |
| Templates.Trees | Godeps/_workspace/src/github.com/unrolled/render/render.go:190-198 | a parse adds the templates the source defines and its body under its own name; a non-empty definition of that name in the source is kept instead of the body |
| Templates.Associate | Godeps/_workspace/src/github.com/unrolled/render/render.go:190-198 | adding a parse to the set keeps every name; a new name or a non-empty definition takes its place, an empty one never replaces an existing template |
| Templates.TemplateName | Godeps/_workspace/src/github.com/unrolled/render/render.go:189-190 | the template name followed by the matched extension is the relative path |
| Templates.DirExt | Godeps/_workspace/src/github.com/unrolled/render/render.go:177-180 | the walk's extension is a suffix of the relative path |
| Templates.DirExtIsExt | Godeps/_workspace/src/github.com/unrolled/render/render.go:177-180 | the guard on a dot anywhere in the path does not change filepath.Ext's answer |
| Templates.DirLoadsExactly | Godeps/_workspace/src/github.com/unrolled/render/render.go:168-201 | the walk parses a source exactly for each entry that is not a directory and whose extension is configured |
| Templates.SourcesComplete | Godeps/_workspace/src/github.com/unrolled/render/render.go:182-201 | every candidate item gives its source to compilation |
| Templates.SourcesSound | Godeps/_workspace/src/github.com/unrolled/render/render.go:182-201 | every source compiled comes from a candidate item |
| Templates.DirStep | Godeps/_workspace/src/github.com/unrolled/render/render.go:162-203 | compiling from walk entry i on skips it, stops at it, or adds it and continues |
| Templates.DirTemplateNames | Godeps/_workspace/src/github.com/unrolled/render/render.go:156-204 | after a walk that compiles, a name is in the set exactly when a non-directory entry with a configured extension has that name or defines it, and every such entry's own name is there |
| Templates.AssetExt | Godeps/_workspace/src/github.com/unrolled/render/render.go:221-224 | the asset extension is a suffix of the relative path, and "" when the path has no dot |
| Templates.AssetExtFromFirstDot | Godeps/_workspace/src/github.com/unrolled/render/render.go:221-224 | the asset extension is the suffix that starts at the first dot |
| Templates.ExtensionsAgree | Godeps/_workspace/src/github.com/unrolled/render/render.go:221-224 | with a single dot and no separator after it, the asset route and the walk read the same extension |
| Templates.ExtensionsDisagree | Godeps/_workspace/src/github.com/unrolled/render/render.go:221-224 | with a second dot, or a separator after the first dot, the two routes read different extensions |
| Templates.DoubleDotWalk | Godeps/_workspace/src/github.com/unrolled/render/render.go:177-180 | to the walk, "a.b.tmpl" has extension ".tmpl" and is picked up by ".tmpl" |
| Templates.DoubleDotWalkName | Godeps/_workspace/src/github.com/unrolled/render/render.go:189-190 | the walk names "a.b.tmpl" "a.b" |
| Templates.DoubleDotAssetExt | Godeps/_workspace/src/github.com/unrolled/render/render.go:221-224 | to the asset route, "a.b.tmpl" has extension ".b.tmpl" |
| Templates.DoubleDotAsset | Godeps/_workspace/src/github.com/unrolled/render/render.go:211-227 | so the extension ".tmpl" does not pick up "a.b.tmpl" in any directory such as "templates" |
| Templates.ClimbingAssetName | Godeps/_workspace/src/github.com/unrolled/render/render.go:212-224 | a name that merely starts with the directory's characters passes the filter; its relative path is its whole extension and its template name is empty |
| Templates.RootDirectoryAsset | Godeps/_workspace/src/github.com/unrolled/render/render.go:212-235 | below the root "/", a name's relative path drops the leading separator, a configured extension picks it up, and the template is named by the rest of the path |
| Templates.BesideParentPanics | Godeps/_workspace/src/github.com/unrolled/render/render.go:212-219 | beside a directory whose final element is "..", a name that only shares its characters is not skipped, and filepath.Rel's error makes compilation panic |
| Templates.AssetLoadsExactly | Godeps/_workspace/src/github.com/unrolled/render/render.go:211-247 | the asset route parses a source exactly for each name under the directory whose extension is configured |
| Templates.AssetStep | Godeps/_workspace/src/github.com/unrolled/render/render.go:211-247 | compiling from asset name i on skips it, stops at it, or adds it and continues |
| Templates.AssetTemplateNames | Godeps/_workspace/src/github.com/unrolled/render/render.go:206-248 | after an asset compilation that succeeds, a name is in the set exactly when a listed name under the directory with a configured extension gives it or defines it, and every such name's template is there |
| Templates.CompiledNames | Godeps/_workspace/src/github.com/unrolled/render/render.go:182-201 | a compilation that succeeds holds exactly the names it started with and those its sources are parsed under or define |
| Templates.CompiledOwnNames | Godeps/_workspace/src/github.com/unrolled/render/render.go:189-198 | when compilation succeeds, every source's own name is in the set |
| Templates.CompiledValues | Godeps/_workspace/src/github.com/unrolled/render/render.go:190-198 | each compiled template is one the set started with or one a source gives that name |
| Templates.CompileFailsIff | Godeps/_workspace/src/github.com/unrolled/render/render.go:184-198 | compilation panics exactly when one of its sources cannot be read, is named by a path filepath.Rel rejects, does not parse, or gives its own name both a non-empty body and a non-empty definition |
| Execution.Execute | Godeps/_workspace/src/github.com/unrolled/render/render.go:250-253 | executing a name missing from the set fails with the "is undefined" error |
| Execution.ExecPiece | Godeps/_workspace/src/github.com/unrolled/render/render.go:38-264 | the helperFuncs defaults (lines 38-45): yield fails with "yield called with no layout defined" and current gives ""; the addYield closures (lines 257-264): current gives the bound name, yield gives the bound template's output, wraps its failure as an error calling yield, and passes stack exhaustion on; text gives itself |
| Execution.DefaultHelpers | Godeps/_workspace/src/github.com/unrolled/render/render.go:38-45 | with no layout bound, yield fails with "yield called with no layout defined" and current gives "" |
| Execution.BoundCurrent | Godeps/_workspace/src/github.com/unrolled/render/render.go:262-264 | once bound, current gives the requested name |
| Execution.YieldInsertsContent | Godeps/_workspace/src/github.com/unrolled/render/render.go:257-261 | once bound, a layout renders as if each yield were the output of the requested template with its binding |
| Execution.ExecConcat | Godeps/_workspace/src/github.com/unrolled/render/render.go:250-253 | executing two pieces of a template one after the other gives the first failure, or their outputs joined |
| Execution.ExecText | Godeps/_workspace/src/github.com/unrolled/render/render.go:250-253 | a template of one text piece renders as that text |
| Execution.LayoutAroundPage | Godeps/_workspace/src/github.com/unrolled/render/render.go:310-314 | a layout of text around a yield renders the page's output between that text |
| Execution.SelfYieldNeverEnds | Godeps/_workspace/src/github.com/unrolled/render/render.go:257-260 | a requested template that starts with yield re-enters yield without end |

## Left out

- `bufPool` and `NewBufferPool` are not part of this model. They are defined outside `render.go` and affect only allocation.
- Engine encoding is an opaque `run: Engine -> Outcome` parameter. `Engine.Render` and the JSON, JSONP, XML, text and binary encoders are defined outside `render.go`. The model keeps only the settings the façade passes to them, and whether an error came before or after the engine wrote.
- `http.ResponseWriter` is reduced to the reply written: head and body, or the message and code of `http.Error`.
- `filepath.Walk`, `ioutil.ReadFile` and the `Asset`/`AssetNames` callbacks are given values (`Files`): walk entries with their path relative to the directory, a list of names and a map from name to contents. A missing key stands for a callback error. `filepath.Rel` on a walk path below the directory cannot fail, so the walk route takes the relative path as given.
- `html/template` parsing is a given `Parser` function that may fail. Delimiters and function names are passed to it but not interpreted.
- Templates.Associate: follows `text/template` from Go 1.6 on. Before Go 1.6, redefining a name already in the set was a parse error, so `template.Must` panicked. That older rule is not modelled.
- Templates.CompileFailsIff: under the rule before Go 1.6, a source that redefines a name already in the set would also fail. The model states the Go 1.6 rule only.
- Template execution covers text, `yield`, `current` and opaque actions. Escaping, pipelines and nested template calls belong to `html/template` and are left out.
- Execution.Execute: error messages leave out the line and column that `html/template` adds.
- Execution.Execute: the root template that `template.New(dir)` creates has no body and is not in the model's set. Executing the directory's name, for example as a layout, gives the "is undefined" error here. `html/template` reports an incomplete or empty template instead, unless a source defines that name.
- Execution.SelfYieldNeverEnds: Go ends the process when the goroutine stack overflows. The model bounds yield's re-entry depth by `YieldDepthLimit` and reports `StackExhausted`, which `HTML` turns into an aborted reply.
- Render.Render.HTML: a panic during development-mode recompilation is an aborted reply. The partly built set stays in place, and nothing models what happens to the goroutine.
- Paths.Rel: `filepath.Clean` is left out. The directory and the name are taken clean, except that the directory may end with a separator. So `Rel(".", "./a.tmpl")` gives "./a.tmpl", where Go gives "a.tmpl".
- Paths.ToSlash: the separator is '/' as on Unix. The general definition is kept, but no Windows behaviour is proved.
- Template contents are strings, not byte slices. `string(buf)` is the identity here.
- Concurrency is left out. Requests are modelled one at a time, so the race on the shared `yield`/`current` binding and on development-mode recompilation is not captured.
