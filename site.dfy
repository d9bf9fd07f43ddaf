/**
 * The site aggregate and its layout-chain rendering: a template is rendered
 * with the site's base context plus its own metadata as `page`; then, while
 * the last rendered template names a parent `layout`, that layout is rendered
 * with `content` bound to the previous output and `layout` to its metadata,
 * all in one shared context.  The Liquid renderer is an opaque, fallible
 * function given as a parameter.
 */
module Sites {
  import opened Text
  import opened Wrappers
  import opened Templates

  /** A value bound in a rendering context. */
  datatype Binding =
    | Config(settings: map<string, string>)
    | Posts(templates: seq<Template>)
    | Tags(index: map<string, Template>)
    | Meta(fields: Metadata)
    | Content(text: string)

  type Context = map<string, Binding>

  /** Template.Render: the rendered text, or the renderer's error. */
  type Renderer = (Template, Context) -> Result<string, string>

  datatype Site = Site(
    config: map<string, string>,
    layouts: map<string, Template>,
    posts: seq<Template>,
    pages: seq<Template>,
    tags: map<string, Template>)

  datatype RenderError =
    | RenderFailed(cause: string)
    | LayoutNotFound(name: string)
    | LayoutNotAString      // a `layout` value that is not a string: the type assertion panics

  /**
   * The text of each error. The text for LayoutNotAString only stands for
   * the type assertion's panic, whose runtime message names the value's type.
   */
  function RenderMessage(e: RenderError): string {
    match e
    case RenderFailed(cause) => cause
    case LayoutNotFound(name) => "layout '" + name + "' not found"
    case LayoutNotAString => "layout is not a string"
  }

  /** A missing layout is reported by name; a renderer error is passed on as it is. */
  lemma LayoutNotFoundNamesLayout(name: string, cause: string)
    ensures Contains(RenderMessage(LayoutNotFound(name)), name)
    ensures RenderMessage(RenderFailed(cause)) == cause
  {
    var m := RenderMessage(LayoutNotFound(name));
    assert m[8..8 + |name|] == name;
    assert OccursAt(m, name, 8);
  }

  /** The context every top-level render starts from. */
  function BaseContext(site: Site): (ctx: Context)
    ensures ctx.Keys == {"config", "posts", "tags"}
  {
    map["config" := Config(site.config), "posts" := Posts(site.posts), "tags" := Tags(site.tags)]
  }

  /** The context the template itself is rendered with. */
  function PageContext(site: Site, t: Template): Context {
    BaseContext(site)["page" := Meta(t.metadata)]
  }

  /** The parent layout a template names; an absent key reads as nil. */
  function Parent(meta: Metadata): Value {
    if "layout" in meta then meta["layout"] else Null
  }

  // ---------------------------------------------------------------------------
  // The layout chain
  // ---------------------------------------------------------------------------

  /** Why following the parents stops. */
  datatype ChainEnd =
    | NoParent
    | MissingLayout(name: string)
    | BadLayoutName

  /** The layouts rendered one after another, and why the chain stops. */
  datatype LayoutChain = LayoutChain(templates: seq<Template>, end: ChainEnd)

  /**
   * The chain of layouts followed from `layout`, if it stops within `fuel`
   * layouts; None when the fuel runs out first.
   */
  function FollowChain(layouts: map<string, Template>, layout: Value, fuel: nat): Option<LayoutChain>
    decreases fuel
  {
    match layout
    case Null => Some(LayoutChain([], NoParent))
    case Str(name) =>
      if name !in layouts then Some(LayoutChain([], MissingLayout(name)))
      else if fuel == 0 then None
      else (
        match FollowChain(layouts, Parent(layouts[name].metadata), fuel - 1)
        case None => None
        case Some(c) => Some(LayoutChain([layouts[name]] + c.templates, c.end)))
    case _ => Some(LayoutChain([], BadLayoutName))
  }

  /** The chain from `layout` is finite: following parents eventually stops. */
  ghost predicate ChainEnds(layouts: map<string, Template>, layout: Value) {
    exists fuel: nat :: FollowChain(layouts, layout, fuel).Some?
  }

  /** Any fuel that suffices gives the same chain. */
  lemma {:induction false} ChainFuel(layouts: map<string, Template>, layout: Value, f1: nat, f2: nat)
    requires FollowChain(layouts, layout, f1).Some? && FollowChain(layouts, layout, f2).Some?
    ensures FollowChain(layouts, layout, f1) == FollowChain(layouts, layout, f2)
    decreases f1
  {
    if layout.Str? && layout.s in layouts {
      ChainFuel(layouts, Parent(layouts[layout.s].metadata), f1 - 1, f2 - 1);
    }
  }

  /** The chain from `layout`, when it is finite. */
  ghost function ChainOf(layouts: map<string, Template>, layout: Value): LayoutChain
    requires ChainEnds(layouts, layout)
  {
    var fuel: nat :| FollowChain(layouts, layout, fuel).Some?;
    FollowChain(layouts, layout, fuel).value
  }

  lemma ChainOfIs(layouts: map<string, Template>, layout: Value, fuel: nat)
    requires FollowChain(layouts, layout, fuel).Some?
    ensures ChainEnds(layouts, layout)
    ensures ChainOf(layouts, layout) == FollowChain(layouts, layout, fuel).value
  {
    var f: nat :| FollowChain(layouts, layout, f).Some? && ChainOf(layouts, layout) == FollowChain(layouts, layout, f).value;
    ChainFuel(layouts, layout, f, fuel);
  }

  /** Every layout in `names` exists and names another layout in `names` as its parent. */
  ghost predicate Closed(layouts: map<string, Template>, names: set<string>) {
    forall n :: n in names ==> n in layouts && ParentIn(layouts[n], names)
  }

  predicate ParentIn(layout: Template, names: set<string>) {
    var p := Parent(layout.metadata);
    p.Str? && p.s in names
  }

  /** Whatever the fuel, a chain that enters a cycle of layouts never stops. */
  lemma {:induction false} CycleExhaustsFuel(layouts: map<string, Template>, names: set<string>, start: string, fuel: nat)
    requires start in names && Closed(layouts, names)
    ensures FollowChain(layouts, Str(start), fuel).None?
    decreases fuel
  {
    assert start in layouts && ParentIn(layouts[start], names);
    if fuel > 0 {
      CycleExhaustsFuel(layouts, names, Parent(layouts[start].metadata).s, fuel - 1);
    }
  }

  /** A cyclic chain (A names B, ..., which names A) has no end: rendering it would not terminate. */
  lemma CycleNeverEnds(layouts: map<string, Template>, names: set<string>, start: string)
    requires start in names && Closed(layouts, names)
    ensures !ChainEnds(layouts, Str(start))
  {
    forall fuel: nat
      ensures FollowChain(layouts, Str(start), fuel).None?
    {
      CycleExhaustsFuel(layouts, names, start, fuel);
    }
  }

  // ---------------------------------------------------------------------------
  // Rendering along the chain
  // ---------------------------------------------------------------------------

  /** One invocation of the renderer. */
  datatype Call = Call(template: Template, context: Context)

  /** The outcome of a render and the renderer invocations it made, in order. */
  datatype Run = Run(result: Result<string, RenderError>, calls: seq<Call>)

  function Prepend(calls: seq<Call>, run: Run): Run {
    Run(run.result, calls + run.calls)
  }

  /** Moving one recorded call from the run to the calls already made. */
  lemma PrependStep(calls: seq<Call>, c: Call, run: Run)
    ensures Prepend(calls, Run(run.result, [c] + run.calls)) == Prepend(calls + [c], run)
  {
    Regroup(calls, [c], run.calls);
  }

  /** The outcome once no layout is left to render. */
  function Finish(end: ChainEnd, content: string): Result<string, RenderError> {
    match end
    case NoParent => Success(content)
    case MissingLayout(name) => Failure(LayoutNotFound(name))
    case BadLayoutName => Failure(LayoutNotAString)
  }

  /** Renders each layout of the chain around the previous output, stopping at the first error. */
  function ApplyLayouts(render: Renderer, ctx: Context, content: string, chain: seq<Template>, end: ChainEnd): Run
    decreases |chain|
  {
    if chain == [] then Run(Finish(end, content), [])
    else
      var lctx := ctx["layout" := Meta(chain[0].metadata)]["content" := Content(content)];
      var out := render(chain[0], lctx);
      var rest :=
        if out.Failure? then Run(Failure(RenderFailed(out.error)), [])
        else ApplyLayouts(render, lctx, out.value, chain[1..], end);
      Run(rest.result, [Call(chain[0], lctx)] + rest.calls)
  }

  /** The template rendered first, then its layout chain. */
  ghost function Rendering(site: Site, t: Template, render: Renderer): Run
    requires ChainEnds(site.layouts, Parent(t.metadata))
  {
    var ctx := PageContext(site, t);
    var out := render(t, ctx);
    var rest :=
      if out.Failure? then Run(Failure(RenderFailed(out.error)), [])
      else
        var c := ChainOf(site.layouts, Parent(t.metadata));
        ApplyLayouts(render, ctx, out.value, c.templates, c.end);
    Run(rest.result, [Call(t, ctx)] + rest.calls)
  }

  /** A known layout continues the chain with its own parent's chain. */
  lemma FollowStep(layouts: map<string, Template>, name: string, fuel: nat)
    requires name in layouts && FollowChain(layouts, Str(name), fuel).Some?
    ensures var c := FollowChain(layouts, Str(name), fuel).value;
      && fuel > 0 && c.templates != [] && c.templates[0] == layouts[name]
      && FollowChain(layouts, Parent(layouts[name].metadata), fuel - 1) == Some(LayoutChain(c.templates[1..], c.end))
  {
    var c := FollowChain(layouts, Str(name), fuel).value;
    var rest := FollowChain(layouts, Parent(layouts[name].metadata), fuel - 1).value;
    assert c.templates == [layouts[name]] + rest.templates;
    assert c.templates[1..] == rest.templates;
  }

  /** Once the loop reaches a value that names no layout, the chain is exhausted and the outcome is how it ended. */
  lemma StopAt(layouts: map<string, Template>, layout: Value, fuel: nat, rest: seq<Template>, end: ChainEnd,
               render: Renderer, ctx: Context, content: string, calls: seq<Call>)
    requires FollowChain(layouts, layout, fuel) == Some(LayoutChain(rest, end))
    requires !(layout.Str? && layout.s in layouts)
    ensures Prepend(calls, ApplyLayouts(render, ctx, content, rest, end)) == Run(Finish(end, content), calls)
    ensures layout == Null ==> Finish(end, content) == Success(content)
    ensures layout.Str? ==> Finish(end, content) == Failure(LayoutNotFound(layout.s))
    ensures layout != Null && !layout.Str? ==> Finish(end, content) == Failure(LayoutNotAString)
  {
    assert rest == [];
    assert calls + [] == calls;
  }

  /** One turn of the layout loop: render the next layout, then continue with the rest of the chain. */
  lemma ApplyStep(render: Renderer, ctx: Context, content: string, chain: seq<Template>, end: ChainEnd,
                  calls: seq<Call>)
    requires chain != []
    ensures var lctx := ctx["layout" := Meta(chain[0].metadata)]["content" := Content(content)];
      var out := render(chain[0], lctx);
      Prepend(calls, ApplyLayouts(render, ctx, content, chain, end))
        == if out.Failure? then Run(Failure(RenderFailed(out.error)), calls + [Call(chain[0], lctx)])
           else Prepend(calls + [Call(chain[0], lctx)], ApplyLayouts(render, lctx, out.value, chain[1..], end))
  {
    var lctx := ctx["layout" := Meta(chain[0].metadata)]["content" := Content(content)];
    var out := render(chain[0], lctx);
    var tail :=
      if out.Failure? then Run(Failure(RenderFailed(out.error)), [])
      else ApplyLayouts(render, lctx, out.value, chain[1..], end);
    PrependStep(calls, Call(chain[0], lctx), tail);
  }

  /** One turn of the layout loop: the next layout is rendered, then the rest of its chain. */
  lemma Turn(layouts: map<string, Template>, name: string, fuel: nat, rest: seq<Template>, end: ChainEnd,
             render: Renderer, ctx: Context, content: string, calls: seq<Call>,
             lctx: Context, out: Result<string, string>)
    requires name in layouts
    requires FollowChain(layouts, Str(name), fuel) == Some(LayoutChain(rest, end))
    requires lctx == ctx["layout" := Meta(layouts[name].metadata)]["content" := Content(content)]
    requires out == render(layouts[name], lctx)
    ensures fuel > 0 && rest != [] && rest[0] == layouts[name]
    ensures FollowChain(layouts, Parent(layouts[name].metadata), fuel - 1) == Some(LayoutChain(rest[1..], end))
    ensures out.Failure? ==>
      (Prepend(calls, ApplyLayouts(render, ctx, content, rest, end))
       == Run(Failure(RenderFailed(out.error)), calls + [Call(layouts[name], lctx)]))
    ensures out.Success? ==>
      (Prepend(calls, ApplyLayouts(render, ctx, content, rest, end))
       == Prepend(calls + [Call(layouts[name], lctx)], ApplyLayouts(render, lctx, out.value, rest[1..], end)))
  {
    FollowStep(layouts, name, fuel);
    ApplyStep(render, ctx, content, rest, end, calls);
  }

  /**
   * Site.render: renders the template with the base context plus `page`,
   * then its layout chain.  The loop has no cycle detection, so it is only
   * called on a template whose layout chain ends; `calls` records the
   * renderer invocations.
   */
  method Render(site: Site, t: Template, render: Renderer) returns (r: Result<string, RenderError>, ghost calls: seq<Call>)
    requires ChainEnds(site.layouts, Parent(t.metadata))
    ensures r == Rendering(site, t, render).result
    ensures calls == Rendering(site, t, render).calls
  {
    var ctx := BaseContext(site);
    ctx := ctx["page" := Meta(t.metadata)];
    var out := render(t, ctx);
    if out.Failure? {
      return Failure(RenderFailed(out.error)), [Call(t, ctx)];
    }
    ghost var fuel: nat :| FollowChain(site.layouts, Parent(t.metadata), fuel).Some?;
    ChainOfIs(site.layouts, Parent(t.metadata), fuel);
    ghost var c := FollowChain(site.layouts, Parent(t.metadata), fuel).value;
    ghost var layoutCalls: seq<Call>;
    r, layoutCalls := RenderLayouts(site.layouts, Parent(t.metadata), fuel, c.templates, c.end, render, ctx, out.value);
    calls := [Call(t, ctx)] + layoutCalls;
  }

  /**
   * The loop of Site.render over the parent layouts: each layout is rendered
   * with its metadata as `layout` and the previous output as `content`,
   * until a template has no `layout` or a render fails.
   */
  method RenderLayouts(layouts: map<string, Template>, start: Value, ghost startFuel: nat, ghost chain: seq<Template>,
                       ghost end: ChainEnd, render: Renderer, startCtx: Context, startContent: string)
    returns (r: Result<string, RenderError>, ghost calls: seq<Call>)
    requires FollowChain(layouts, start, startFuel) == Some(LayoutChain(chain, end))
    ensures r == ApplyLayouts(render, startCtx, startContent, chain, end).result
    ensures calls == ApplyLayouts(render, startCtx, startContent, chain, end).calls
  {
    ghost var whole := ApplyLayouts(render, startCtx, startContent, chain, end);
    var ctx, content, layout := startCtx, startContent, start;
    ghost var fuel, rest := startFuel, chain;
    calls := [];
    assert [] + whole.calls == whole.calls;
    var failed := false;
    var cause := "";
    while layout != Null && !failed
      invariant FollowChain(layouts, layout, fuel) == Some(LayoutChain(rest, end))
      invariant !failed ==> whole == Prepend(calls, ApplyLayouts(render, ctx, content, rest, end))
      invariant failed ==> whole == Run(Failure(RenderFailed(cause)), calls)
      decreases fuel
    {
      if !layout.Str? {
        StopAt(layouts, layout, fuel, rest, end, render, ctx, content, calls);
        return Failure(LayoutNotAString), calls;
      }
      var name := layout.s;
      if name !in layouts {
        StopAt(layouts, layout, fuel, rest, end, render, ctx, content, calls);
        return Failure(LayoutNotFound(name)), calls;
      }
      var layoutTempl := layouts[name];
      var lctx := ctx["layout" := Meta(layoutTempl.metadata)]["content" := Content(content)];
      var o := render(layoutTempl, lctx);
      Turn(layouts, name, fuel, rest, end, render, ctx, content, calls, lctx, o);
      ctx := lctx;
      calls := calls + [Call(layoutTempl, lctx)];
      match o {
        case Failure(e) =>
          failed, cause := true, e;
          content := "";
        case Success(v) =>
          content := v;
      }
      layout := Parent(layoutTempl.metadata);
      fuel, rest := fuel - 1, rest[1..];
    }
    if failed {
      r := Failure(RenderFailed(cause));
    } else {
      StopAt(layouts, layout, fuel, rest, end, render, ctx, content, calls);
      r := Success(content);
    }
  }

  // ---------------------------------------------------------------------------
  // What a render does
  // ---------------------------------------------------------------------------

  /** What the renderer returns for one recorded call. */
  function Output(render: Renderer, c: Call): Result<string, string> {
    render(c.template, c.context)
  }

  /** `c` renders layout `l` with `layout` bound to its metadata. */
  predicate RendersLayout(c: Call, l: Template) {
    c.template == l && "layout" in c.context && c.context["layout"] == Meta(l.metadata)
  }

  /** `c` keeps every binding of `ctx` other than `layout` and `content`, and adds those two. */
  predicate KeepsBindings(ctx: Context, c: Call) {
    && c.context.Keys == ctx.Keys + {"layout", "content"}
    && forall key :: key in ctx && key != "layout" && key != "content" ==> c.context[key] == ctx[key]
  }

  /** `next` is rendered with `content` bound to the successful output of `prev`. */
  predicate Wraps(render: Renderer, prev: Call, next: Call) {
    && Output(render, prev).Success?
    && "content" in next.context
    && next.context["content"] == Content(Output(render, prev).value)
  }

  /** The calls after the first are the calls of the rest of the chain. */
  lemma LayoutCallsTail(render: Renderer, ctx: Context, content: string, chain: seq<Template>, end: ChainEnd)
    requires chain != []
    ensures var lctx := ctx["layout" := Meta(chain[0].metadata)]["content" := Content(content)];
      var run := ApplyLayouts(render, ctx, content, chain, end);
      var out := render(chain[0], lctx);
      && run.calls[0] == Call(chain[0], lctx)
      && (out.Failure? ==> run == Run(Failure(RenderFailed(out.error)), [run.calls[0]]))
      && (out.Success? ==> run == Prepend([run.calls[0]], ApplyLayouts(render, lctx, out.value, chain[1..], end)))
  {
  }

  /** Layout calls render the chain in order, each with `layout` bound to its metadata and the other bindings kept. */
  lemma {:induction false} LayoutCallsShape(render: Renderer, ctx: Context, content: string, chain: seq<Template>, end: ChainEnd)
    ensures var run := ApplyLayouts(render, ctx, content, chain, end);
      && |run.calls| <= |chain|
      && (forall i :: 0 <= i < |run.calls| ==> RendersLayout(run.calls[i], chain[i]) && KeepsBindings(ctx, run.calls[i]))
    decreases |chain|
  {
    if chain != [] {
      var run := ApplyLayouts(render, ctx, content, chain, end);
      var lctx := ctx["layout" := Meta(chain[0].metadata)]["content" := Content(content)];
      var out := render(chain[0], lctx);
      LayoutCallsTail(render, ctx, content, chain, end);
      assert RendersLayout(run.calls[0], chain[0]) && KeepsBindings(ctx, run.calls[0]);
      if out.Success? {
        var rest := ApplyLayouts(render, lctx, out.value, chain[1..], end);
        LayoutCallsShape(render, lctx, out.value, chain[1..], end);
        forall i | 0 < i < |run.calls|
          ensures RendersLayout(run.calls[i], chain[i]) && KeepsBindings(ctx, run.calls[i])
        {
          assert run.calls[i] == rest.calls[i - 1];
          assert KeepsBindings(lctx, rest.calls[i - 1]);
        }
      }
    }
  }

  /** Each layout is rendered with `content` bound to the output of the render before it. */
  lemma {:induction false} LayoutCallsContent(render: Renderer, ctx: Context, content: string, chain: seq<Template>, end: ChainEnd)
    ensures var run := ApplyLayouts(render, ctx, content, chain, end);
      && (|run.calls| > 0 ==> "content" in run.calls[0].context && run.calls[0].context["content"] == Content(content))
      && (forall i :: 0 <= i < |run.calls| - 1 ==> Wraps(render, run.calls[i], run.calls[i + 1]))
    decreases |chain|
  {
    if chain != [] {
      var run := ApplyLayouts(render, ctx, content, chain, end);
      var lctx := ctx["layout" := Meta(chain[0].metadata)]["content" := Content(content)];
      var out := render(chain[0], lctx);
      LayoutCallsTail(render, ctx, content, chain, end);
      if out.Success? {
        var rest := ApplyLayouts(render, lctx, out.value, chain[1..], end);
        LayoutCallsContent(render, lctx, out.value, chain[1..], end);
        forall i | 0 <= i < |run.calls| - 1
          ensures Wraps(render, run.calls[i], run.calls[i + 1])
        {
          assert run.calls[i + 1] == rest.calls[i];
          if i > 0 {
            assert run.calls[i] == rest.calls[i - 1];
          }
        }
      }
    }
  }

  /** A failing layout render is the last call and its error is the result. */
  lemma {:induction false} LayoutCallsStop(render: Renderer, ctx: Context, content: string, chain: seq<Template>, end: ChainEnd)
    ensures var run := ApplyLayouts(render, ctx, content, chain, end);
      forall i :: 0 <= i < |run.calls| && Output(render, run.calls[i]).Failure? ==>
        i == |run.calls| - 1 && run.result == Failure(RenderFailed(Output(render, run.calls[i]).error))
    decreases |chain|
  {
    if chain != [] {
      var run := ApplyLayouts(render, ctx, content, chain, end);
      var lctx := ctx["layout" := Meta(chain[0].metadata)]["content" := Content(content)];
      var out := render(chain[0], lctx);
      LayoutCallsTail(render, ctx, content, chain, end);
      if out.Success? {
        var rest := ApplyLayouts(render, lctx, out.value, chain[1..], end);
        LayoutCallsStop(render, lctx, out.value, chain[1..], end);
        forall i | 0 < i < |run.calls| && Output(render, run.calls[i]).Failure?
          ensures i == |run.calls| - 1 && run.result == Failure(RenderFailed(Output(render, run.calls[i]).error))
        {
          assert run.calls[i] == rest.calls[i - 1];
        }
      }
    }
  }

  /** Every recorded call's render succeeded. */
  predicate AllSucceed(render: Renderer, calls: seq<Call>) {
    forall i :: 0 <= i < |calls| ==> Output(render, calls[i]).Success?
  }

  /** One layout of the chain, unfolded: its call, then either its failure or the rest of the chain. */
  lemma ApplyCons(render: Renderer, ctx: Context, content: string, chain: seq<Template>, end: ChainEnd,
                  lctx: Context, out: Result<string, string>)
    requires chain != []
    requires lctx == ctx["layout" := Meta(chain[0].metadata)]["content" := Content(content)]
    requires out == render(chain[0], lctx)
    ensures out.Failure? ==>
      ApplyLayouts(render, ctx, content, chain, end) == Run(Failure(RenderFailed(out.error)), [Call(chain[0], lctx)])
    ensures out.Success? ==>
      ApplyLayouts(render, ctx, content, chain, end)
        == Prepend([Call(chain[0], lctx)], ApplyLayouts(render, lctx, out.value, chain[1..], end))
  {
  }

  /** The inductive step of LayoutCallsComplete, stated over the runs alone. */
  lemma CompleteStep(render: Renderer, n: nat, first: Call, value: string, end: ChainEnd, run: Run, rest: Run)
    requires Output(render, first) == Success(value)
    requires run == Prepend([first], rest)
    requires AllSucceed(render, rest.calls) ==>
      && |rest.calls| == n
      && rest.result == Finish(end, if n == 0 then value else Output(render, rest.calls[n - 1]).value)
    ensures AllSucceed(render, run.calls) ==>
      && |run.calls| == n + 1
      && run.result == Finish(end, Output(render, run.calls[n]).value)
  {
    if AllSucceed(render, run.calls) {
      assert forall i :: 0 <= i < |rest.calls| ==> rest.calls[i] == run.calls[i + 1];
      assert AllSucceed(render, rest.calls);
      if n == 0 {
        assert run.calls[0] == first;
      } else {
        assert rest.calls[n - 1] == run.calls[n];
      }
    }
  }

  /** When every layout render succeeds the whole chain is rendered and the end of the chain decides the result. */
  lemma {:induction false} LayoutCallsComplete(render: Renderer, ctx: Context, content: string, chain: seq<Template>, end: ChainEnd)
    ensures var run := ApplyLayouts(render, ctx, content, chain, end);
      AllSucceed(render, run.calls) ==>
        && |run.calls| == |chain|
        && run.result == Finish(end, if chain == [] then content else Output(render, run.calls[|chain| - 1]).value)
    decreases |chain|
  {
    if chain != [] {
      var run := ApplyLayouts(render, ctx, content, chain, end);
      var lctx := ctx["layout" := Meta(chain[0].metadata)]["content" := Content(content)];
      var out := render(chain[0], lctx);
      ApplyCons(render, ctx, content, chain, end, lctx, out);
      if out.Success? {
        var rest := ApplyLayouts(render, lctx, out.value, chain[1..], end);
        LayoutCallsComplete(render, lctx, out.value, chain[1..], end);
        CompleteStep(render, |chain| - 1, Call(chain[0], lctx), out.value, end, run, rest);
      } else {
        assert Output(render, run.calls[0]).Failure?;
      }
    }
  }

  /** The calls of a render: the page call, then the layout calls. */
  lemma RenderingCalls(site: Site, t: Template, render: Renderer)
    requires ChainEnds(site.layouts, Parent(t.metadata))
    ensures var run := Rendering(site, t, render);
      var out := render(t, PageContext(site, t));
      var c := ChainOf(site.layouts, Parent(t.metadata));
      && run.calls[0] == Call(t, PageContext(site, t))
      && (out.Failure? ==> run == Run(Failure(RenderFailed(out.error)), [run.calls[0]]))
      && (out.Success? ==> run == Prepend([run.calls[0]], ApplyLayouts(render, PageContext(site, t), out.value, c.templates, c.end)))
  {
  }

  /** The template is rendered first, with the base context and its own metadata as `page`. */
  lemma PageRenderedFirst(site: Site, t: Template, render: Renderer)
    requires ChainEnds(site.layouts, Parent(t.metadata))
    ensures var run := Rendering(site, t, render);
      && |run.calls| >= 1
      && run.calls[0].template == t
      && run.calls[0].context.Keys == {"config", "posts", "tags", "page"}
      && run.calls[0].context["page"] == Meta(t.metadata)
  {
    RenderingCalls(site, t, render);
  }

  /** Every render, the page's and each layout's, sees the site's config, posts and tags and the page metadata. */
  lemma EveryRenderSeesPage(site: Site, t: Template, render: Renderer)
    requires ChainEnds(site.layouts, Parent(t.metadata))
    ensures var run := Rendering(site, t, render);
      forall i :: 0 <= i < |run.calls| ==>
        && {"config", "posts", "tags", "page"} <= run.calls[i].context.Keys
        && run.calls[i].context["config"] == Config(site.config)
        && run.calls[i].context["posts"] == Posts(site.posts)
        && run.calls[i].context["tags"] == Tags(site.tags)
        && run.calls[i].context["page"] == Meta(t.metadata)
  {
    RenderingCalls(site, t, render);
    var out := render(t, PageContext(site, t));
    if out.Success? {
      var c := ChainOf(site.layouts, Parent(t.metadata));
      LayoutCallsShape(render, PageContext(site, t), out.value, c.templates, c.end);
    }
  }

  /**
   * Call i (for i > 0) renders the i-th layout of the chain, with `layout`
   * bound to its metadata and `content` to the successful output of call i - 1.
   */
  lemma LayoutsWrapPrevious(site: Site, t: Template, render: Renderer)
    requires ChainEnds(site.layouts, Parent(t.metadata))
    ensures var run := Rendering(site, t, render);
      var chain := ChainOf(site.layouts, Parent(t.metadata)).templates;
      && |run.calls| <= |chain| + 1
      && forall i :: 0 <= i < |run.calls| - 1 ==>
        RendersLayout(run.calls[i + 1], chain[i]) && Wraps(render, run.calls[i], run.calls[i + 1])
  {
    var run := Rendering(site, t, render);
    RenderingCalls(site, t, render);
    var out := render(t, PageContext(site, t));
    if out.Success? {
      var c := ChainOf(site.layouts, Parent(t.metadata));
      var rest := ApplyLayouts(render, PageContext(site, t), out.value, c.templates, c.end);
      LayoutCallsShape(render, PageContext(site, t), out.value, c.templates, c.end);
      LayoutCallsContent(render, PageContext(site, t), out.value, c.templates, c.end);
      forall i | 0 <= i < |run.calls| - 1
        ensures RendersLayout(run.calls[i + 1], c.templates[i]) && Wraps(render, run.calls[i], run.calls[i + 1])
      {
        assert run.calls[i + 1] == rest.calls[i];
        if i > 0 {
          assert run.calls[i] == rest.calls[i - 1];
        }
      }
    }
  }

  /** The first render error ends the render and is its result. */
  lemma FirstErrorStops(site: Site, t: Template, render: Renderer)
    requires ChainEnds(site.layouts, Parent(t.metadata))
    ensures var run := Rendering(site, t, render);
      forall i :: 0 <= i < |run.calls| && Output(render, run.calls[i]).Failure? ==>
        i == |run.calls| - 1 && run.result == Failure(RenderFailed(Output(render, run.calls[i]).error))
  {
    RenderingCalls(site, t, render);
    var out := render(t, PageContext(site, t));
    if out.Success? {
      var c := ChainOf(site.layouts, Parent(t.metadata));
      LayoutCallsStop(render, PageContext(site, t), out.value, c.templates, c.end);
    }
  }

  /**
   * When no render fails, the template and each of its N layouts are rendered
   * exactly once (N + 1 calls), and the result is the last output, unless the
   * chain ends at a missing layout or a non-string layout name.
   */
  lemma AllRendersSucceed(site: Site, t: Template, render: Renderer)
    requires ChainEnds(site.layouts, Parent(t.metadata))
    ensures var run := Rendering(site, t, render);
      var c := ChainOf(site.layouts, Parent(t.metadata));
      AllSucceed(render, run.calls) ==>
        && |run.calls| == |c.templates| + 1
        && run.result == Finish(c.end, Output(render, run.calls[|run.calls| - 1]).value)
  {
    var run := Rendering(site, t, render);
    RenderingCalls(site, t, render);
    var out := render(t, PageContext(site, t));
    if out.Success? {
      var c := ChainOf(site.layouts, Parent(t.metadata));
      var rest := ApplyLayouts(render, PageContext(site, t), out.value, c.templates, c.end);
      LayoutCallsComplete(render, PageContext(site, t), out.value, c.templates, c.end);
      CompleteStep(render, |c.templates|, run.calls[0], out.value, c.end, run, rest);
    } else {
      assert Output(render, run.calls[0]).Failure?;
    }
  }

  /** A template without a layout is rendered once, and that render is the result. */
  lemma NoLayoutSingleRender(site: Site, t: Template, render: Renderer)
    requires Parent(t.metadata) == Null
    ensures ChainEnds(site.layouts, Parent(t.metadata))
    ensures var run := Rendering(site, t, render);
      var out := render(t, PageContext(site, t));
      && |run.calls| == 1
      && run.result == (if out.Success? then Success(out.value) else Failure(RenderFailed(out.error)))
  {
    ChainOfIs(site.layouts, Null, 0);
  }

  /** A layout name with no layout behind it fails the render with "layout '<name>' not found". */
  lemma MissingLayoutFails(site: Site, t: Template, render: Renderer, name: string)
    requires Parent(t.metadata) == Str(name) && name !in site.layouts
    ensures ChainEnds(site.layouts, Parent(t.metadata))
    ensures var run := Rendering(site, t, render);
      var out := render(t, PageContext(site, t));
      && |run.calls| == 1
      && run.result == (if out.Success? then Failure(LayoutNotFound(name)) else Failure(RenderFailed(out.error)))
  {
    ChainOfIs(site.layouts, Str(name), 0);
  }

  // ---------------------------------------------------------------------------
  // The source-path index
  // ---------------------------------------------------------------------------

  /** The source paths of the site's posts and pages. */
  function SourcePaths(templates: seq<Template>): set<string> {
    set t | t in templates :: t.srcPath
  }

  /**
   * Site.templateIndex: every post and page, keyed by its source path; when
   * two templates share a path, the later one in posts-then-pages wins.
   * (Which template the stored pointer reaches when the loop variable's
   * address is taken depends on the Go version; the model stores the
   * template of the current iteration.)
   */
  method TemplateIndex(site: Site) returns (index: map<string, Template>)
    ensures index.Keys == SourcePaths(site.posts + site.pages)
    ensures forall p :: p in index ==> index[p] in site.posts + site.pages && index[p].srcPath == p
    ensures var all := site.posts + site.pages;
      forall i :: 0 <= i < |all| && LastWithPath(all, i, |all|) ==>
        all[i].srcPath in index && index[all[i].srcPath] == all[i]
  {
    var all := site.posts + site.pages;
    index := map[];
    var i := 0;
    while i < |all|
      invariant 0 <= i <= |all|
      invariant index.Keys == SourcePaths(all[..i])
      invariant forall p :: p in index ==> index[p] in all && index[p].srcPath == p
      invariant LastWins(all, i, index)
    {
      assert all[..i + 1] == all[..i] + [all[i]];
      LastWinsStep(all, i, index);
      index := index[all[i].srcPath := all[i]];
      i := i + 1;
    }
    assert all[..i] == all;
  }

  /** No template after position i and before position n has the same source path. */
  predicate LastWithPath(templates: seq<Template>, i: nat, n: nat)
    requires i < n <= |templates|
  {
    forall j :: i < j < n ==> templates[j].srcPath != templates[i].srcPath
  }

  /** Among the first n templates, each last occurrence of a path is the one indexed. */
  predicate LastWins(templates: seq<Template>, n: nat, index: map<string, Template>)
    requires n <= |templates|
  {
    forall k :: 0 <= k < n && LastWithPath(templates, k, n) ==>
      templates[k].srcPath in index && index[templates[k].srcPath] == templates[k]
  }

  lemma LastWinsStep(templates: seq<Template>, n: nat, index: map<string, Template>)
    requires n < |templates| && LastWins(templates, n, index)
    ensures LastWins(templates, n + 1, index[templates[n].srcPath := templates[n]])
  {
    var next := index[templates[n].srcPath := templates[n]];
    forall k | 0 <= k < n + 1 && LastWithPath(templates, k, n + 1)
      ensures templates[k].srcPath in next && next[templates[k].srcPath] == templates[k]
    {
      if k < n {
        assert templates[n].srcPath != templates[k].srcPath;
        assert LastWithPath(templates, k, n);
      }
    }
  }
}
