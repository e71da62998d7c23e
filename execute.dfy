/**
 * Executing a template of the compiled set (Render.execute and the HTML
 * engine's ExecuteTemplate), with the yield and current helpers as they are
 * bound at the time: the helperFuncs defaults, or what addYield bound.
 */
module Execution {
  import opened Wrappers
  import opened Templates

  /** What addYield bound yield and current to: the requested template and its binding; None for the defaults. */
  type YieldTarget = Option<(string, Binding)>

  /** The error the default yield returns. */
  const NoLayoutMessage: string := "yield called with no layout defined"

  /**
   * How deep yield may re-enter before the model stops. A template reached
   * through yield that calls yield again re-enters forever, which in Go ends
   * the process when the goroutine stack is exhausted.
   */
  const YieldDepthLimit: nat := 10000

  datatype ExecError =
    | Undefined(name: string)
    | CallFailed(template: string, fn: string, cause: string)
    | ActionFailed(template: string, cause: string)

  /** The text of an execution error, as err.Error() gives it (without html/template's line and column). */
  function Message(e: ExecError): string
  {
    match e
    case Undefined(n) => "html/template: \"" + n + "\" is undefined"
    case CallFailed(t, f, c) => "template: " + t + ": executing \"" + t + "\" at <" + f + ">: error calling " + f + ": " + c
    case ActionFailed(t, c) => "template: " + t + ": " + c
  }

  datatype ExecResult = Output(text: string) | Failed(error: ExecError) | StackExhausted

  /** Running two parts one after the other: the first failure wins, otherwise the outputs are joined. */
  function Then(first: ExecResult, second: ExecResult): ExecResult
  {
    match first
    case Output(a) => (match second case Output(b) => Output(a + b) case _ => second)
    case _ => first
  }

  /** ExecuteTemplate(name, binding) on the set, with the helpers bound to target. */
  function Execute(tmpls: map<string, Template>, target: YieldTarget, name: string, binding: Binding, fuel: nat): (r: ExecResult)
    ensures name !in tmpls ==> r == Failed(Undefined(name))
    decreases fuel, 1, 0
  {
    if name !in tmpls then Failed(Undefined(name))
    else ExecPieces(tmpls, target, name, tmpls[name], binding, fuel)
  }

  function ExecPieces(tmpls: map<string, Template>, target: YieldTarget, tname: string, ps: Template,
                      binding: Binding, fuel: nat): ExecResult
    decreases fuel, 0, |ps|
  {
    if ps == [] then Output("")
    else Then(ExecPiece(tmpls, target, tname, ps[0], binding, fuel, |ps|),
              ExecPieces(tmpls, target, tname, ps[1..], binding, fuel))
  }

  /**
   * One piece. The default yield fails with NoLayoutMessage and the default
   * current gives ""; once bound, yield executes the bound template with its
   * binding (its output is inserted as trusted markup) and current gives the
   * bound name. A failing helper or action stops execution.
   */
  function ExecPiece(tmpls: map<string, Template>, target: YieldTarget, tname: string, p: Piece,
                     binding: Binding, fuel: nat, ghost rank: nat): (r: ExecResult)
    requires rank > 0
    ensures p.Text? ==> r == Output(p.text)
    ensures p.Yield? && target.None? ==> r == Failed(CallFailed(tname, "yield", NoLayoutMessage))
    ensures p.Current? && target.None? ==> r == Output("")
    ensures p.Current? && target.Some? ==> r == Output(target.value.0)
    ensures p.Yield? && target.Some? && fuel == 0 ==> r == StackExhausted
    ensures p.Yield? && target.Some? && fuel > 0 ==>
              var e := Execute(tmpls, target, target.value.0, target.value.1, fuel - 1);
              && (e.Output? ==> r == e)
              && (e.Failed? ==> r == Failed(CallFailed(tname, "yield", Message(e.error))))
              && (e.StackExhausted? ==> r == StackExhausted)
    decreases fuel, 0, rank - 1
  {
    match p
    case Text(t) => Output(t)
    case Current => Output(if target.None? then "" else target.value.0)
    case Yield =>
      if target.None? then Failed(CallFailed(tname, "yield", NoLayoutMessage))
      else if fuel == 0 then StackExhausted
      else
        (match Execute(tmpls, target, target.value.0, target.value.1, fuel - 1)
         case Output(s) => Output(s)
         case Failed(e) => Failed(CallFailed(tname, "yield", Message(e)))
         case StackExhausted => StackExhausted)
    case Action(run) =>
      match run(binding)
      case Success(s) => Output(s)
      case Failure(m) => Failed(ActionFailed(tname, m))
  }

  /** Executing a concatenation is executing its parts one after the other. */
  lemma {:induction false} ExecConcat(tmpls: map<string, Template>, target: YieldTarget, tname: string,
                                      p: Template, q: Template, binding: Binding, fuel: nat)
    ensures ExecPieces(tmpls, target, tname, p + q, binding, fuel) ==
            Then(ExecPieces(tmpls, target, tname, p, binding, fuel), ExecPieces(tmpls, target, tname, q, binding, fuel))
    decreases |p|
  {
    if p == [] {
      assert p + q == q;
      match ExecPieces(tmpls, target, tname, q, binding, fuel)
      case Output(b) => assert "" + b == b;
      case _ =>
    } else {
      assert (p + q)[0] == p[0] && (p + q)[1..] == p[1..] + q;
      ExecConcat(tmpls, target, tname, p[1..], q, binding, fuel);
      var a := ExecPiece(tmpls, target, tname, p[0], binding, fuel, |p|);
      assert a == ExecPiece(tmpls, target, tname, p[0], binding, fuel, |p + q|);
      var b := ExecPieces(tmpls, target, tname, p[1..], binding, fuel);
      var c := ExecPieces(tmpls, target, tname, q, binding, fuel);
      if a.Output? && b.Output? && c.Output? {
        assert a.text + (b.text + c.text) == (a.text + b.text) + c.text;
      }
    }
  }

  /** The template with every yield replaced by the text out. */
  function Fill(t: Template, out: string): (r: Template)
    ensures |r| == |t|
    ensures forall i :: 0 <= i < |t| ==> r[i] == (if t[i].Yield? then Text(out) else t[i])
  {
    if t == [] then [] else [if t[0].Yield? then Text(out) else t[0]] + Fill(t[1..], out)
  }

  /**
   * With yield bound to a template whose execution gives out, a layout
   * renders as if each of its yields were the text out.
   */
  lemma {:induction false} YieldInsertsContent(tmpls: map<string, Template>, name: string, b: Binding,
                                               tname: string, layout: Template, lb: Binding, fuel: nat, out: string)
    requires Execute(tmpls, Some((name, b)), name, b, fuel) == Output(out)
    ensures ExecPieces(tmpls, Some((name, b)), tname, layout, lb, fuel + 1) ==
            ExecPieces(tmpls, Some((name, b)), tname, Fill(layout, out), lb, fuel + 1)
    decreases |layout|
  {
    if layout != [] {
      var f := Fill(layout, out);
      assert f[1..] == Fill(layout[1..], out);
      YieldInsertsContent(tmpls, name, b, tname, layout[1..], lb, fuel, out);
    }
  }

  /** Without a layout, yield fails with NoLayoutMessage and current gives "". */
  lemma DefaultHelpers(tmpls: map<string, Template>, tname: string, binding: Binding, fuel: nat)
    ensures ExecPieces(tmpls, None, tname, [Yield], binding, fuel) == Failed(CallFailed(tname, "yield", NoLayoutMessage))
    ensures ExecPieces(tmpls, None, tname, [Current], binding, fuel) == Output("")
  {
  }

  /** Bound by a layout, current gives the requested name. */
  lemma BoundCurrent(tmpls: map<string, Template>, tname: string, name: string, b: Binding, binding: Binding, fuel: nat)
    ensures ExecPieces(tmpls, Some((name, b)), tname, [Current], binding, fuel) == Output(name)
  {
  }

  /**
   * A requested template that itself starts with yield re-enters yield
   * without end: every depth bound is exhausted.
   */
  lemma {:induction false} SelfYieldNeverEnds(tmpls: map<string, Template>, name: string, b: Binding, fuel: nat)
    requires name in tmpls && |tmpls[name]| > 0 && tmpls[name][0] == Yield
    ensures Execute(tmpls, Some((name, b)), name, b, fuel) == StackExhausted
  {
    var t := tmpls[name];
    if fuel > 0 {
      SelfYieldNeverEnds(tmpls, name, b, fuel - 1);
    }
    assert ExecPiece(tmpls, Some((name, b)), name, t[0], b, fuel, |t|) == StackExhausted;
  }

  /** A template of one text piece renders as that text. */
  lemma ExecText(tmpls: map<string, Template>, target: YieldTarget, tname: string, text: string,
                 binding: Binding, fuel: nat)
    ensures ExecPieces(tmpls, target, tname, [Text(text)], binding, fuel) == Output(text)
  {
    assert [Text(text)][1..] == [];
    assert text + "" == text;
  }

  /**
   * A layout of text around a yield, with the page bound to it, renders as
   * the layout's text with the page's output in the yield's place.
   */
  lemma LayoutAroundPage(tmpls: map<string, Template>, page: string, b: Binding, before: string, after: string, out: string)
    requires page in tmpls && tmpls[page] == [Text(out)]
    ensures ExecPieces(tmpls, Some((page, b)), "layout", [Text(before), Yield, Text(after)], b, YieldDepthLimit) ==
            Output(before + out + after)
  {
    var target := Some((page, b));
    var layout := [Text(before), Yield, Text(after)];
    var fuel := YieldDepthLimit - 1;
    ExecText(tmpls, target, page, out, b, fuel);
    YieldInsertsContent(tmpls, page, b, "layout", layout, b, fuel, out);
    var f := Fill(layout, out);
    assert f == [Text(before)] + ([Text(out)] + [Text(after)]);
    ExecConcat(tmpls, target, "layout", [Text(before)], [Text(out)] + [Text(after)], b, fuel + 1);
    ExecConcat(tmpls, target, "layout", [Text(out)], [Text(after)], b, fuel + 1);
    ExecText(tmpls, target, "layout", before, b, fuel + 1);
    ExecText(tmpls, target, "layout", out, b, fuel + 1);
    ExecText(tmpls, target, "layout", after, b, fuel + 1);
    assert before + (out + after) == before + out + after;
  }
}
