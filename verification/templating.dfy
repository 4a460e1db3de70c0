/** Two-phase templating of task parameters and properties: a traversal that
    renders every string leaf of a nested value (`map_nested` with a leaf
    visitor), and the layered scope the renderer sees. The renderer itself is
    a parameter: it may fail, as Jinja's strict-undefined mode does. */
module Templating {
  import opened Values

  datatype Rendered<+T> = Rendered(value: T) | RenderError(message: string)

  /** The variables visible to the renderer (the Jinja environment's globals). */
  type Scope = map<string, Value>

  type Renderer = (string, Scope) -> Rendered<string>

  /** The leaf visitor that renders a string in a fixed scope. */
  function RenderIn(render: Renderer, scope: Scope): string -> Rendered<string>
  {
    s => render(s, scope)
  }

  // ---------------------------------------------------------------------
  // The traversal. Mapping values and list elements are visited left to
  // right; the first failing leaf aborts the whole traversal.

  function MapNested(v: Value, f: string -> Rendered<string>): Rendered<Value>
    decreases v
  {
    match v
    case Str(s) =>
      (match f(s)
       case Rendered(t) => Rendered(Str(t))
       case RenderError(m) => RenderError(m))
    case List(xs) =>
      (match MapItems(xs, f)
       case Rendered(ys) => Rendered(List(ys))
       case RenderError(m) => RenderError(m))
    case Dict(es) =>
      (match MapEntries(es, f)
       case Rendered(ds) => Rendered(Dict(ds))
       case RenderError(m) => RenderError(m))
    case _ => Rendered(v)
  }

  function MapItems(xs: seq<Value>, f: string -> Rendered<string>): Rendered<seq<Value>>
    decreases xs
  {
    if |xs| == 0 then Rendered([])
    else
      match MapNested(xs[0], f)
      case RenderError(m) => RenderError(m)
      case Rendered(y) =>
        (match MapItems(xs[1..], f)
         case RenderError(m) => RenderError(m)
         case Rendered(ys) => Rendered([y] + ys))
  }

  /** Keys are never rendered; only the values are visited. */
  function MapEntries(es: seq<Entry>, f: string -> Rendered<string>): Rendered<seq<Entry>>
    decreases es
  {
    if |es| == 0 then Rendered([])
    else
      match MapNested(es[0].val, f)
      case RenderError(m) => RenderError(m)
      case Rendered(y) =>
        (match MapEntries(es[1..], f)
         case RenderError(m) => RenderError(m)
         case Rendered(ds) => Rendered([Entry(es[0].key, y)] + ds))
  }

  // ---------------------------------------------------------------------
  // The reference meaning of the traversal, leaf by leaf.

  /** Every string leaf of `v` renders without error. */
  predicate LeavesRender(v: Value, f: string -> Rendered<string>)
    decreases v
  {
    match v
    case Str(s) => f(s).Rendered?
    case List(xs) => forall i :: 0 <= i < |xs| ==> LeavesRender(xs[i], f)
    case Dict(es) => forall i :: 0 <= i < |es| ==> LeavesRender(es[i].val, f)
    case _ => true
  }

  /** `r` is `v` with every string leaf replaced by its rendering, every other
      leaf, every key and the shape left as they are. */
  predicate RendersTo(v: Value, r: Value, f: string -> Rendered<string>)
    decreases v
  {
    match v
    case Str(s) => f(s).Rendered? && r == Str(f(s).value)
    case List(xs) =>
      && r.List?
      && |r.items| == |xs|
      && forall i :: 0 <= i < |xs| ==> RendersTo(xs[i], r.items[i], f)
    case Dict(es) =>
      && r.Dict?
      && |r.entries| == |es|
      && forall i :: 0 <= i < |es| ==>
           r.entries[i].key == es[i].key && RendersTo(es[i].val, r.entries[i].val, f)
    case _ => r == v
  }

  /** Rendering a mapping keeps its keys, in order. */
  lemma RenderedKeys(es: seq<Entry>, rs: seq<Entry>, f: string -> Rendered<string>)
    requires RendersTo(Dict(es), Dict(rs), f)
    ensures Keys(rs) == Keys(es)
  {
    assert |Keys(rs)| == |Keys(es)|;
    forall i | 0 <= i < |es|
      ensures Keys(rs)[i] == Keys(es)[i]
    {
      assert rs[i].key == es[i].key;
    }
  }

  /** Every string leaf of `v` is left as it is by `f` (it holds no template). */
  predicate FixesLeaves(v: Value, f: string -> Rendered<string>)
    decreases v
  {
    match v
    case Str(s) => f(s) == Rendered(s)
    case List(xs) => forall i :: 0 <= i < |xs| ==> FixesLeaves(xs[i], f)
    case Dict(es) => forall i :: 0 <= i < |es| ==> FixesLeaves(es[i].val, f)
    case _ => true
  }

  /** The traversal succeeds exactly when every string leaf renders, and then
      yields the leaf-by-leaf rendering. */
  lemma {:induction false} MapNestedMeaning(v: Value, f: string -> Rendered<string>)
    ensures MapNested(v, f).Rendered? <==> LeavesRender(v, f)
    ensures MapNested(v, f).Rendered? ==> RendersTo(v, MapNested(v, f).value, f)
    decreases v, 1
  {
    match v
    case List(xs) => MapItemsMeaning(v, xs, f);
    case Dict(es) => MapEntriesMeaning(v, es, f);
    case _ =>
  }

  lemma {:induction false} MapItemsMeaning(v: Value, xs: seq<Value>, f: string -> Rendered<string>)
    requires forall i :: 0 <= i < |xs| ==> xs[i] < v
    ensures MapItems(xs, f).Rendered? <==> forall i :: 0 <= i < |xs| ==> LeavesRender(xs[i], f)
    ensures MapItems(xs, f).Rendered? ==>
      |MapItems(xs, f).value| == |xs| &&
      forall i :: 0 <= i < |xs| ==> RendersTo(xs[i], MapItems(xs, f).value[i], f)
    decreases v, 0, |xs|
  {
    if |xs| > 0 {
      MapNestedMeaning(xs[0], f);
      MapItemsMeaning(v, xs[1..], f);
      if MapItems(xs, f).Rendered? {
        var ys := MapItems(xs, f).value;
        forall i | 0 <= i < |xs|
          ensures RendersTo(xs[i], ys[i], f)
        {
          if i > 0 { assert xs[i] == xs[1..][i - 1]; }
        }
      }
      if forall i :: 0 <= i < |xs| ==> LeavesRender(xs[i], f) {
        assert LeavesRender(xs[0], f);
        assert forall i :: 0 <= i < |xs[1..]| ==> LeavesRender(xs[1..][i], f) by {
          forall i | 0 <= i < |xs[1..]| ensures LeavesRender(xs[1..][i], f) {
            assert xs[1..][i] == xs[i + 1];
          }
        }
      }
    }
  }

  lemma {:induction false} MapEntriesMeaning(v: Value, es: seq<Entry>, f: string -> Rendered<string>)
    requires forall i :: 0 <= i < |es| ==> es[i].val < v
    ensures MapEntries(es, f).Rendered? <==> forall i :: 0 <= i < |es| ==> LeavesRender(es[i].val, f)
    ensures MapEntries(es, f).Rendered? ==>
      |MapEntries(es, f).value| == |es| &&
      forall i :: 0 <= i < |es| ==>
        MapEntries(es, f).value[i].key == es[i].key &&
        RendersTo(es[i].val, MapEntries(es, f).value[i].val, f)
    decreases v, 0, |es|
  {
    if |es| > 0 {
      MapNestedMeaning(es[0].val, f);
      MapEntriesMeaning(v, es[1..], f);
      if MapEntries(es, f).Rendered? {
        var ds := MapEntries(es, f).value;
        forall i | 0 <= i < |es|
          ensures ds[i].key == es[i].key && RendersTo(es[i].val, ds[i].val, f)
        {
          if i > 0 { assert es[i] == es[1..][i - 1]; }
        }
      }
      if forall i :: 0 <= i < |es| ==> LeavesRender(es[i].val, f) {
        assert LeavesRender(es[0].val, f);
        assert forall i :: 0 <= i < |es[1..]| ==> LeavesRender(es[1..][i].val, f) by {
          forall i | 0 <= i < |es[1..]| ensures LeavesRender(es[1..][i].val, f) {
            assert es[1..][i] == es[i + 1];
          }
        }
      }
    }
  }

  /** The leaf-by-leaf rendering of a value is unique. */
  lemma {:induction false} RendersToUnique(v: Value, r1: Value, r2: Value, f: string -> Rendered<string>)
    requires RendersTo(v, r1, f) && RendersTo(v, r2, f)
    ensures r1 == r2
    decreases v
  {
    match v
    case List(xs) =>
      forall i | 0 <= i < |xs| ensures r1.items[i] == r2.items[i] {
        RendersToUnique(xs[i], r1.items[i], r2.items[i], f);
      }
      assert r1.items == r2.items;
    case Dict(es) =>
      forall i | 0 <= i < |es| ensures r1.entries[i] == r2.entries[i] {
        RendersToUnique(es[i].val, r1.entries[i].val, r2.entries[i].val, f);
      }
      assert r1.entries == r2.entries;
    case _ =>
  }

  /** A leaf-by-leaf rendering exists only when every leaf renders. */
  lemma {:induction false} RendersToLeavesRender(v: Value, r: Value, f: string -> Rendered<string>)
    requires RendersTo(v, r, f)
    ensures LeavesRender(v, f)
    decreases v
  {
    match v
    case List(xs) =>
      forall i | 0 <= i < |xs| ensures LeavesRender(xs[i], f) {
        RendersToLeavesRender(xs[i], r.items[i], f);
      }
    case Dict(es) =>
      forall i | 0 <= i < |es| ensures LeavesRender(es[i].val, f) {
        RendersToLeavesRender(es[i].val, r.entries[i].val, f);
      }
    case _ =>
  }

  /** The traversal yields `r` exactly when `r` is the leaf-by-leaf rendering of `v`. */
  lemma MapNestedIff(v: Value, r: Value, f: string -> Rendered<string>)
    ensures MapNested(v, f) == Rendered(r) <==> RendersTo(v, r, f)
  {
    MapNestedMeaning(v, f);
    if RendersTo(v, r, f) {
      RendersToLeavesRender(v, r, f);
      RendersToUnique(v, r, MapNested(v, f).value, f);
    }
  }

  /** A tree with no template in it renders to itself. */
  lemma {:induction false} FixedLeavesRenderToSelf(v: Value, f: string -> Rendered<string>)
    requires FixesLeaves(v, f)
    ensures RendersTo(v, v, f)
    decreases v
  {
    match v
    case List(xs) =>
      forall i | 0 <= i < |xs| ensures RendersTo(xs[i], xs[i], f) {
        FixedLeavesRenderToSelf(xs[i], f);
      }
    case Dict(es) =>
      forall i | 0 <= i < |es| ensures RendersTo(es[i].val, es[i].val, f) {
        FixedLeavesRenderToSelf(es[i].val, f);
      }
    case _ =>
  }

  /** Templating is the identity on trees that hold no template expression. */
  lemma MapNestedIdempotent(v: Value, f: string -> Rendered<string>)
    requires FixesLeaves(v, f)
    ensures MapNested(v, f) == Rendered(v)
  {
    FixedLeavesRenderToSelf(v, f);
    MapNestedIff(v, v, f);
  }

  /** `map_nested` on a dict is the entry traversal. */
  lemma MapNestedDict(es: seq<Entry>, f: string -> Rendered<string>)
    ensures MapEntries(es, f).Rendered? <==> MapNested(Dict(es), f).Rendered?
    ensures MapEntries(es, f).Rendered? ==> MapNested(Dict(es), f) == Rendered(Dict(MapEntries(es, f).value))
  {
  }

  /** A mapping's entries that render do so to exactly one rendering. */
  lemma RenderedEntriesUnique(es: seq<Entry>, rs: seq<Entry>, f: string -> Rendered<string>)
    requires MapEntries(es, f) == Rendered(rs)
    ensures RendersTo(Dict(es), Dict(rs), f)
    ensures forall other :: RendersTo(Dict(es), Dict(other), f) ==> other == rs
  {
    MapNestedDict(es, f);
    MapNestedMeaning(Dict(es), f);
    forall other | RendersTo(Dict(es), Dict(other), f)
      ensures other == rs
    {
      RendersToUnique(Dict(es), Dict(other), Dict(rs), f);
    }
  }

  // ---------------------------------------------------------------------
  // Scopes.

  /** The run variables: `full_load`, and the reporting window already
      formatted as `%Y-%m-%d`. */
  datatype RunArguments = RunArguments(fullLoad: bool, startDt: string, endDt: string)

  function EnvArguments(run: RunArguments): Scope
  {
    map["full_load" := Bool(run.fullLoad), "start_dt" := Str(run.startDt), "end_dt" := Str(run.endDt)]
  }

  /** The scope task parameters are rendered in: `task`, then the run
      variables, then the project parameters, each layer shadowing the ones
      before it. */
  function ParameterScope(identity: Value, run: RunArguments, project: Params): (sc: Scope)
    ensures forall k :: k in sc <==> k == "task" || k in EnvArguments(run) || k in project
    ensures forall k :: k in project ==> sc[k] == project[k]
    ensures forall k :: k in EnvArguments(run) && k !in project ==> sc[k] == EnvArguments(run)[k]
    ensures "task" !in project ==> sc["task"] == identity
  {
    map["task" := identity] + EnvArguments(run) + project
  }

  /** The scope task properties are rendered in: the parameter scope with the
      resolved task parameters on top. */
  function PropertyScope(parameterScope: Scope, taskParameters: seq<Entry>): (sc: Scope)
    ensures forall k :: k in sc <==> k in parameterScope || k in Keys(taskParameters)
    ensures forall k :: k in Keys(taskParameters) ==> sc[k] == Get(taskParameters, k).value
    ensures forall k :: k in parameterScope && k !in Keys(taskParameters) ==> sc[k] == parameterScope[k]
  {
    parameterScope + ToMap(taskParameters)
  }
}
