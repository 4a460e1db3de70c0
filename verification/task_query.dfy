/** Task-query resolution (`get_query`): the `include` and `exclude`
    selector lists of a run become an ordered list of operations, one per
    task and block, each asking for the task and optionally its upstream or
    downstream closure. */
module TaskQuery {
  import opened Seqs

  /** One task of the catalog, as the resolver sees it: its name, its dag
      and its tags. The catalog is a list in definition order. */
  datatype CatalogTask = CatalogTask(name: string, dag: string, tags: seq<string>)

  /** The base of a selector: a task name, `tag:<name>` or `dag:<name>`. */
  datatype Base = Name(name: string) | Tag(tag: string) | Group(dag: string)

  /** A parsed selector: `[+]base[+]`. */
  datatype Selector = Selector(upstream: bool, base: Base, downstream: bool)

  /** One task named by a selector, with the closures it asks for. */
  datatype Mention = Mention(task: string, upstream: bool, downstream: bool)

  datatype OpKind = Include | Exclude

  /** `{"operation": ..., "task": ..., "upstream": ..., "downstream": ...}`. */
  datatype Operation = Operation(kind: OpKind, task: string, upstream: bool, downstream: bool)

  datatype QueryResult = Query(ops: seq<Operation>) | QueryError(token: string)

  /** Whether `s` starts with `prefix`. */
  predicate StartsWith(s: string, prefix: string)
  {
    |prefix| <= |s| && s[..|prefix|] == prefix
  }

  /** The base selector a token names once its `+` marks are removed. */
  function ParseBase(s: string): (b: Base)
    ensures StartsWith(s, "tag:") ==> b == Tag(s[4..])
    ensures !StartsWith(s, "tag:") && StartsWith(s, "dag:") ==> b == Group(s[4..])
    ensures !StartsWith(s, "tag:") && !StartsWith(s, "dag:") ==> b == Name(s)
  {
    if StartsWith(s, "tag:") then Tag(s[4..])
    else if StartsWith(s, "dag:") then Group(s[4..])
    else Name(s)
  }

  /** Reads `[+]base[+]`: a leading `+` asks for the upstream closure, a
      trailing one for the downstream closure. */
  function Parse(token: string): (sel: Selector)
    ensures sel.upstream <==> |token| > 0 && token[0] == '+'
    ensures var rest := if sel.upstream then token[1..] else token;
      && (sel.downstream <==> |rest| > 0 && rest[|rest| - 1] == '+')
      && sel.base == ParseBase(if sel.downstream then rest[..|rest| - 1] else rest)
  {
    var up := |token| > 0 && token[0] == '+';
    var rest := if up then token[1..] else token;
    var down := |rest| > 0 && rest[|rest| - 1] == '+';
    Selector(up, ParseBase(if down then rest[..|rest| - 1] else rest), down)
  }

  /** The text of a base selector. */
  function ShowBase(b: Base): string
  {
    match b
    case Name(n) => n
    case Tag(g) => "tag:" + g
    case Group(d) => "dag:" + d
  }

  /** Writes a selector as a token, `[+]base[+]`. */
  function Show(sel: Selector): string
  {
    (if sel.upstream then "+" else "") + ShowBase(sel.base) + (if sel.downstream then "+" else "")
  }

  lemma ShowParseBase(s: string)
    ensures ShowBase(ParseBase(s)) == s
  {
    if StartsWith(s, "tag:") || StartsWith(s, "dag:") {
      assert s == s[..4] + s[4..];
    }
  }

  /** Reading a token loses nothing: every token is the text of the
      selector it reads as. */
  lemma ShowParse(token: string)
    ensures Show(Parse(token)) == token
  {
    var sel := Parse(token);
    var rest := if sel.upstream then token[1..] else token;
    var mid := if sel.downstream then rest[..|rest| - 1] else rest;
    ShowParseBase(mid);
    PlusMarks(token, sel.upstream, rest, sel.downstream, mid);
  }

  /** Putting back the `+` marks a token was stripped of. */
  lemma PlusMarks(token: string, up: bool, rest: string, down: bool, mid: string)
    requires up ==> |token| > 0 && token[0] == '+' && rest == token[1..]
    requires !up ==> rest == token
    requires down ==> |rest| > 0 && rest[|rest| - 1] == '+' && mid == rest[..|rest| - 1]
    requires !down ==> mid == rest
    ensures (if up then "+" else "") + mid + (if down then "+" else "") == token
  {
    if down {
      assert rest == mid + "+";
    }
    if up {
      assert token == "+" + rest;
    }
  }

  /** A selector its own text reads back as: the base text is not empty,
      has no `+` at either end, and a task name does not begin like a tag
      or dag selector. */
  predicate Readable(sel: Selector)
  {
    var s := ShowBase(sel.base);
    && |s| > 0 && s[0] != '+' && s[|s| - 1] != '+'
    && (sel.base.Name? ==> !StartsWith(s, "tag:") && !StartsWith(s, "dag:"))
  }

  lemma ParseShowBase(b: Base)
    requires b.Name? ==> !StartsWith(b.name, "tag:") && !StartsWith(b.name, "dag:")
    ensures ParseBase(ShowBase(b)) == b
  {
    match b
    case Name(n) =>
    case Tag(g) =>
      assert ShowBase(b)[..4] == "tag:" && ShowBase(b)[4..] == g;
    case Group(d) =>
      assert ShowBase(b)[..4] == "dag:" && ShowBase(b)[4..] == d;
  }

  /** Reading the text of a base with an optional trailing `+`. */
  lemma ParseRest(s: string, down: bool)
    requires |s| > 0 && s[|s| - 1] != '+'
    ensures var rest := s + (if down then "+" else "");
      && (|rest| > 0 && rest[|rest| - 1] == '+' <==> down)
      && (if down then rest[..|rest| - 1] else rest) == s
  {
    var rest := s + (if down then "+" else "");
    if down {
      assert rest[|rest| - 1] == '+' && rest[..|rest| - 1] == s;
    } else {
      assert rest == s;
    }
  }

  /** A readable selector reads back from its text. */
  lemma ParseShow(sel: Selector)
    requires Readable(sel)
    ensures Parse(Show(sel)) == sel
  {
    var s := ShowBase(sel.base);
    var rest := s + (if sel.downstream then "+" else "");
    var token := Show(sel);
    var up := |token| > 0 && token[0] == '+';
    assert up == sel.upstream && (if up then token[1..] else token) == rest by {
      if sel.upstream {
        assert token == "+" + rest;
      } else {
        assert token == rest && rest[0] == s[0];
      }
    }
    ParseRest(s, sel.downstream);
    ParseShowBase(sel.base);
  }

  /** Whether a catalog task is named by a base selector. */
  predicate Matches(t: CatalogTask, b: Base)
  {
    match b
    case Name(n) => t.name == n
    case Tag(g) => g in t.tags
    case Group(d) => t.dag == d
  }

  /** The names of the catalog tasks a base selector names, in catalog order. */
  function Matching(catalog: seq<CatalogTask>, b: Base): (names: seq<string>)
    ensures |names| <= |catalog|
    ensures forall n :: n in names <==> exists i :: 0 <= i < |catalog| && catalog[i].name == n && Matches(catalog[i], b)
  {
    if |catalog| == 0 then []
    else
      var init := Matching(catalog[..|catalog| - 1], b);
      var last := catalog[|catalog| - 1];
      assert forall i :: 0 <= i < |catalog| - 1 ==> catalog[..|catalog| - 1][i] == catalog[i];
      if Matches(last, b) then init + [last.name] else init
  }

  /** The names of the catalog, in order. */
  function Names(catalog: seq<CatalogTask>): (ns: seq<string>)
    ensures |ns| == |catalog| && forall i :: 0 <= i < |catalog| ==> ns[i] == catalog[i].name
  {
    if |catalog| == 0 then [] else Names(catalog[..|catalog| - 1]) + [catalog[|catalog| - 1].name]
  }

  /** The catalog lists every task once. */
  predicate WellFormedCatalog(catalog: seq<CatalogTask>)
  {
    Distinct(Names(catalog))
  }

  /** One mention per matched task, each with the selector's own flags. */
  function MentionsOf(names: seq<string>, sel: Selector): (ms: seq<Mention>)
    ensures |ms| == |names|
    ensures forall i :: 0 <= i < |names| ==> ms[i] == Mention(names[i], sel.upstream, sel.downstream)
  {
    if |names| == 0 then []
    else MentionsOf(names[..|names| - 1], sel) + [Mention(names[|names| - 1], sel.upstream, sel.downstream)]
  }

  /** A token's mentions, or the token itself when it names nothing. */
  function Expand(catalog: seq<CatalogTask>, token: string): (r: Result)
    ensures r.Failed? <==> forall i :: 0 <= i < |catalog| ==> !Matches(catalog[i], Parse(token).base)
    ensures r.Failed? ==> r.token == token
    ensures r.Expanded? ==> r.mentions == MentionsOf(Matching(catalog, Parse(token).base), Parse(token))
  {
    var sel := Parse(token);
    var names := Matching(catalog, sel.base);
    if |names| == 0 then
      assert forall i :: 0 <= i < |catalog| ==> !Matches(catalog[i], sel.base) by {
        forall i | 0 <= i < |catalog|
          ensures !Matches(catalog[i], sel.base)
        {
          assert catalog[i].name !in names;
        }
      }
      Failed(token)
    else
      assert names[0] in names;
      Expanded(MentionsOf(names, sel))
  }

  datatype Result = Expanded(mentions: seq<Mention>) | Failed(token: string)

  /** All the mentions of a block of tokens, in order; the first token that
      names nothing aborts the block. */
  function ExpandAll(catalog: seq<CatalogTask>, tokens: seq<string>): (r: Result)
    ensures r.Failed? <==> exists i :: 0 <= i < |tokens| && Expand(catalog, tokens[i]).Failed?
    ensures r.Failed? ==> r.token in tokens && Expand(catalog, r.token).Failed?
  {
    if |tokens| == 0 then Expanded([])
    else
      var init := tokens[..|tokens| - 1];
      var last := tokens[|tokens| - 1];
      assert forall i :: 0 <= i < |init| ==> tokens[i] == init[i];
      match ExpandAll(catalog, init)
      case Failed(t) => Failed(t)
      case Expanded(ms) =>
        match Expand(catalog, last)
        case Failed(t) => Failed(t)
        case Expanded(more) => Expanded(ms + more)
  }

  /** The tasks of a list of mentions, in order. */
  function Tasks(ms: seq<Mention>): (ts: seq<string>)
    ensures |ts| == |ms| && forall i :: 0 <= i < |ms| ==> ts[i] == ms[i].task
  {
    if |ms| == 0 then [] else Tasks(ms[..|ms| - 1]) + [ms[|ms| - 1].task]
  }

  /** The position of task `t` in a merged list. */
  function IndexOf(ts: seq<string>, t: string): (i: nat)
    requires t in ts
    ensures i < |ts| && ts[i] == t && t !in ts[..i]
  {
    if ts[0] == t then 0
    else
      var j := IndexOf(ts[1..], t);
      assert ts[1..][..j] == ts[1..j + 1];
      j + 1
  }

  /** Adds one mention to a merged list: a task already listed keeps its
      place and gains the new flags; a new task goes at the end. */
  function Add(r: seq<Mention>, m: Mention): seq<Mention>
  {
    var ts := Tasks(r);
    if m.task in ts then
      var i := IndexOf(ts, m.task);
      r[i := Mention(m.task, r[i].upstream || m.upstream, r[i].downstream || m.downstream)]
    else r + [m]
  }

  /** Merges the mentions of one block, one entry per task. */
  function Merge(ms: seq<Mention>): seq<Mention>
  {
    if |ms| == 0 then [] else Add(Merge(ms[..|ms| - 1]), ms[|ms| - 1])
  }

  /** `ms` mentions `t`. */
  predicate Mentioned(ms: seq<Mention>, t: string)
  {
    t in Tasks(ms)
  }

  /** Some mention of `t` in `ms` asks for its upstream closure. */
  predicate MentionedUp(ms: seq<Mention>, t: string)
  {
    Mention(t, true, false) in ms || Mention(t, true, true) in ms
  }

  /** Some mention of `t` in `ms` asks for its downstream closure. */
  predicate MentionedDown(ms: seq<Mention>, t: string)
  {
    Mention(t, false, true) in ms || Mention(t, true, true) in ms
  }

  /** What merging a block promises: each mentioned task exactly once,
      asking for a closure iff some mention of it asks for it. */
  ghost predicate MergedFrom(r: seq<Mention>, ms: seq<Mention>)
  {
    && Distinct(Tasks(r))
    && (forall t :: t in Tasks(r) <==> Mentioned(ms, t))
    && (forall k :: 0 <= k < |r| ==> (r[k].upstream <==> MentionedUp(ms, r[k].task)))
    && (forall k :: 0 <= k < |r| ==> (r[k].downstream <==> MentionedDown(ms, r[k].task)))
  }

  /** The first occurrence of each element, in order: the independent
      description of where merging puts each task. */
  function FirstOccurrences(ts: seq<string>): (r: seq<string>)
    ensures forall x :: x in r <==> x in ts
  {
    if |ts| == 0 then []
    else
      var init := FirstOccurrences(ts[..|ts| - 1]);
      var last := ts[|ts| - 1];
      assert ts == ts[..|ts| - 1] + [last];
      if last in ts[..|ts| - 1] then init else init + [last]
  }

  lemma {:induction false} FirstOccurrencesDistinct(ts: seq<string>)
    ensures Distinct(FirstOccurrences(ts))
    decreases |ts|
  {
    if |ts| > 0 {
      FirstOccurrencesDistinct(ts[..|ts| - 1]);
    }
  }

  lemma TasksSnoc(ms: seq<Mention>, m: Mention)
    ensures Tasks(ms + [m]) == Tasks(ms) + [m.task]
  {
    assert (ms + [m])[..|ms|] == ms;
  }

  /** Adding a mention changes the task list only by appending a new task. */
  lemma TasksOfAdd(r: seq<Mention>, m: Mention)
    ensures Tasks(Add(r, m)) == if m.task in Tasks(r) then Tasks(r) else Tasks(r) + [m.task]
  {
    if m.task !in Tasks(r) {
      TasksSnoc(r, m);
    }
  }

  /** The merged block lists each task at its first mention. */
  lemma {:induction false} MergeOrder(ms: seq<Mention>)
    ensures Tasks(Merge(ms)) == FirstOccurrences(Tasks(ms))
    decreases |ms|
  {
    if |ms| > 0 {
      var init := ms[..|ms| - 1];
      var m := ms[|ms| - 1];
      assert ms == init + [m];
      MergeOrder(init);
      MergeOrderStep(init, m);
    }
  }

  /** One mention more keeps the merged tasks at their first mentions. */
  lemma MergeOrderStep(init: seq<Mention>, m: Mention)
    requires Tasks(Merge(init)) == FirstOccurrences(Tasks(init))
    ensures Tasks(Merge(init + [m])) == FirstOccurrences(Tasks(init + [m]))
  {
    var before := Merge(init);
    var ti := Tasks(init);
    assert (init + [m])[..|init|] == init;
    assert Merge(init + [m]) == Add(before, m);
    TasksOfAdd(before, m);
    TasksSnoc(init, m);
    FirstOccurrencesSnoc(ti, m.task);
    assert m.task in Tasks(before) <==> m.task in ti;
  }

  lemma FirstOccurrencesSnoc(ts: seq<string>, x: string)
    ensures FirstOccurrences(ts + [x]) ==
      if x in ts then FirstOccurrences(ts) else FirstOccurrences(ts) + [x]
  {
    assert (ts + [x])[..|ts|] == ts;
  }

  /** A mention of a new task, or one with the same task, changes the
      flags each task has been asked for only for that task. */
  lemma MentionedSnoc(ms: seq<Mention>, m: Mention, t: string)
    ensures MentionedUp(ms + [m], t) <==> MentionedUp(ms, t) || (m.task == t && m.upstream)
    ensures MentionedDown(ms + [m], t) <==> MentionedDown(ms, t) || (m.task == t && m.downstream)
  {
  }

  /** Adding a mention of a task already merged keeps the block merged. */
  lemma AddExistingKeepsMerged(r: seq<Mention>, ms: seq<Mention>, m: Mention)
    requires MergedFrom(r, ms) && m.task in Tasks(r)
    ensures MergedFrom(Add(r, m), ms + [m])
  {
    var r' := Add(r, m);
    var i := IndexOf(Tasks(r), m.task);
    TasksOfAdd(r, m);
    TasksSnoc(ms, m);
    assert Tasks(r') == Tasks(r);
    forall k | 0 <= k < |r'|
      ensures r'[k].upstream <==> MentionedUp(ms + [m], r'[k].task)
      ensures r'[k].downstream <==> MentionedDown(ms + [m], r'[k].task)
    {
      MentionedSnoc(ms, m, r'[k].task);
      if k != i {
        assert Tasks(r)[k] == r[k].task && Tasks(r)[i] == m.task;
      }
    }
  }

  /** Adding a mention of a new task keeps the block merged. */
  lemma AddNewKeepsMerged(r: seq<Mention>, ms: seq<Mention>, m: Mention)
    requires MergedFrom(r, ms) && m.task !in Tasks(r)
    ensures MergedFrom(Add(r, m), ms + [m])
  {
    var r' := Add(r, m);
    TasksOfAdd(r, m);
    TasksSnoc(ms, m);
    assert r' == r + [m];
    assert Distinct(Tasks(r')) by {
      DistinctSnoc(Tasks(r), m.task);
    }
    assert forall t :: t in Tasks(r') <==> Mentioned(ms + [m], t);
    forall k | 0 <= k < |r'|
      ensures r'[k].upstream <==> MentionedUp(ms + [m], r'[k].task)
      ensures r'[k].downstream <==> MentionedDown(ms + [m], r'[k].task)
    {
      MentionedSnoc(ms, m, r'[k].task);
      if k < |r| {
        assert Tasks(r)[k] == r[k].task;
      } else {
        assert !MentionedUp(ms, m.task) && !MentionedDown(ms, m.task);
      }
    }
  }

  /** Merging a block: every mentioned task once, asking for a closure iff
      one of its mentions does (its place is `MergeOrder`). */
  lemma {:induction false} MergeSpec(ms: seq<Mention>)
    ensures MergedFrom(Merge(ms), ms)
    decreases |ms|
  {
    if |ms| > 0 {
      var init := ms[..|ms| - 1];
      var m := ms[|ms| - 1];
      assert ms == init + [m];
      assert Merge(ms) == Add(Merge(init), m);
      MergeSpec(init);
      if m.task in Tasks(Merge(init)) {
        AddExistingKeepsMerged(Merge(init), init, m);
      } else {
        AddNewKeepsMerged(Merge(init), init, m);
      }
    }
  }

  /** The operations of one block. */
  function Operations(kind: OpKind, ms: seq<Mention>): (ops: seq<Operation>)
    ensures |ops| == |ms|
    ensures forall k :: 0 <= k < |ms| ==> ops[k] == Operation(kind, ms[k].task, ms[k].upstream, ms[k].downstream)
  {
    if |ms| == 0 then []
    else
      var m := ms[|ms| - 1];
      Operations(kind, ms[..|ms| - 1]) + [Operation(kind, m.task, m.upstream, m.downstream)]
  }

  /** `get_query(tasks, include, exclude)`: the include block, merged, then
      the exclude block, merged; a token that names nothing is an error and
      no operation is returned. */
  function GetQuery(catalog: seq<CatalogTask>, includes: seq<string>, excludes: seq<string>): (r: QueryResult)
    ensures r.QueryError? <==>
      exists t :: (t in includes || t in excludes) && Expand(catalog, t).Failed?
    ensures r.QueryError? ==>
      && Expand(catalog, r.token).Failed?
      && (if exists t :: t in includes && Expand(catalog, t).Failed? then r.token in includes else r.token in excludes)
    ensures r.Query? ==>
      && ExpandAll(catalog, includes).Expanded? && ExpandAll(catalog, excludes).Expanded?
      && r.ops == Operations(Include, Merge(ExpandAll(catalog, includes).mentions))
                  + Operations(Exclude, Merge(ExpandAll(catalog, excludes).mentions))
  {
    match ExpandAll(catalog, includes)
    case Failed(t) => QueryError(t)
    case Expanded(inc) =>
      match ExpandAll(catalog, excludes)
      case Failed(t) => QueryError(t)
      case Expanded(exc) => Query(Operations(Include, Merge(inc)) + Operations(Exclude, Merge(exc)))
  }

  /** One merged block's operations, described without `Merge`: the
      mentioned tasks at their first mention, each with the flags some
      mention asks for. */
  ghost predicate BlockOf(ops: seq<Operation>, kind: OpKind, ms: seq<Mention>)
  {
    var ts := FirstOccurrences(Tasks(ms));
    && |ops| == |ts|
    && forall k :: 0 <= k < |ts| ==>
         && ops[k].kind == kind && ops[k].task == ts[k]
         && (ops[k].upstream <==> MentionedUp(ms, ts[k]))
         && (ops[k].downstream <==> MentionedDown(ms, ts[k]))
  }

  lemma MergedBlock(kind: OpKind, ms: seq<Mention>)
    ensures BlockOf(Operations(kind, Merge(ms)), kind, ms)
  {
    MergeSpec(ms);
    MergeOrder(ms);
    var r := Merge(ms);
    forall k | 0 <= k < |r|
      ensures Tasks(r)[k] == r[k].task
    {
    }
  }

  /** The shape of a resolved query: the include operations, then the
      exclude operations; in each block every mentioned task once, at its
      first mention, asking for a closure iff one of its mentions does. An
      exclude may name a task the include block also names. */
  lemma QueryBlocks(catalog: seq<CatalogTask>, includes: seq<string>, excludes: seq<string>)
    requires GetQuery(catalog, includes, excludes).Query?
    ensures var ops := GetQuery(catalog, includes, excludes).ops;
      var n := |FirstOccurrences(Tasks(ExpandAll(catalog, includes).mentions))|;
      && n <= |ops|
      && BlockOf(ops[..n], Include, ExpandAll(catalog, includes).mentions)
      && BlockOf(ops[n..], Exclude, ExpandAll(catalog, excludes).mentions)
  {
    var inc := ExpandAll(catalog, includes).mentions;
    var exc := ExpandAll(catalog, excludes).mentions;
    var a := Operations(Include, Merge(inc));
    var b := Operations(Exclude, Merge(exc));
    MergedBlock(Include, inc);
    MergedBlock(Exclude, exc);
    assert (a + b)[..|a|] == a && (a + b)[|a|..] == b;
  }

  /** Merging changes nothing when no task is mentioned twice. */
  lemma {:induction false} MergeDistinct(ms: seq<Mention>)
    requires Distinct(Tasks(ms))
    ensures Merge(ms) == ms
    decreases |ms|
  {
    if |ms| > 0 {
      var init := ms[..|ms| - 1];
      var m := ms[|ms| - 1];
      assert ms == init + [m];
      TasksSnoc(init, m);
      assert Tasks(ms)[..|init|] == Tasks(init);
      MergeDistinct(init);
      DistinctNotInPrefix(Tasks(ms), |init|);
    }
  }

  lemma MentionsOfTasks(names: seq<string>, sel: Selector)
    ensures Tasks(MentionsOf(names, sel)) == names
  {
  }

  lemma MatchingPrefix(catalog: seq<CatalogTask>, b: Base, k: nat)
    requires k < |catalog|
    ensures Matching(catalog[..k + 1], b) ==
      Matching(catalog[..k], b) + (if Matches(catalog[k], b) then [catalog[k].name] else [])
  {
    assert catalog[..k + 1][..k] == catalog[..k];
  }

  /** A selector names the tasks it matches in catalog order: its names are
      the catalog's names with the unmatched ones deleted. */
  lemma {:induction false} MatchingInCatalogOrder(catalog: seq<CatalogTask>, b: Base)
    ensures IsSubsequence(Matching(catalog, b), Names(catalog))
    ensures forall n :: n in Matching(catalog, b) <==>
      exists i :: 0 <= i < |catalog| && catalog[i].name == n && Matches(catalog[i], b)
    decreases |catalog|
  {
    if |catalog| > 0 {
      var init := catalog[..|catalog| - 1];
      var last := catalog[|catalog| - 1];
      var names := Matching(init, b);
      MatchingInCatalogOrder(init, b);
      assert Names(catalog) == Names(init) + [last.name];
      if Matches(last, b) {
        assert (names + [last.name])[..|names|] == names;
      } else {
        SubsequenceSnoc(names, Names(init), last.name);
      }
    }
  }

  /** On a catalog listing each task once, a selector names each task at
      most once. */
  lemma {:induction false} MatchingDistinct(catalog: seq<CatalogTask>, b: Base)
    requires WellFormedCatalog(catalog)
    ensures Distinct(Matching(catalog, b))
    decreases |catalog|
  {
    if |catalog| > 0 {
      var init := catalog[..|catalog| - 1];
      var last := catalog[|catalog| - 1];
      assert Names(catalog)[..|init|] == Names(init);
      MatchingDistinct(init, b);
      DistinctNotInPrefix(Names(catalog), |init|);
      forall i | 0 <= i < |init|
        ensures init[i].name != last.name
      {
        assert Names(init)[i] == init[i].name;
      }
      assert last.name !in Matching(init, b);
      DistinctSnoc(Matching(init, b), last.name);
    }
  }

  /** On a catalog listing each task once, a task name names just that task. */
  lemma {:induction false} MatchingName(catalog: seq<CatalogTask>, name: string)
    requires WellFormedCatalog(catalog)
    ensures Matching(catalog, Name(name)) == if name in Names(catalog) then [name] else []
    decreases |catalog|
  {
    if |catalog| > 0 {
      var init := catalog[..|catalog| - 1];
      var last := catalog[|catalog| - 1];
      assert Names(catalog) == Names(init) + [last.name];
      assert Names(catalog)[..|init|] == Names(init);
      MatchingName(init, name);
      DistinctNotInPrefix(Names(catalog), |init|);
    }
  }

  /** A lone selector that names something gives one include operation per
      named task, in catalog order, each with the selector's own flags. */
  lemma SingleSelector(catalog: seq<CatalogTask>, token: string)
    requires WellFormedCatalog(catalog) && Expand(catalog, token).Expanded?
    ensures GetQuery(catalog, [token], []) ==
      Query(Operations(Include, MentionsOf(Matching(catalog, Parse(token).base), Parse(token))))
    ensures IsSubsequence(Matching(catalog, Parse(token).base), Names(catalog))
  {
    MatchingInCatalogOrder(catalog, Parse(token).base);
    SingleSelectorOperations(catalog, token);
  }

  lemma SingleSelectorOperations(catalog: seq<CatalogTask>, token: string)
    requires WellFormedCatalog(catalog) && Expand(catalog, token).Expanded?
    ensures GetQuery(catalog, [token], []) ==
      Query(Operations(Include, MentionsOf(Matching(catalog, Parse(token).base), Parse(token))))
  {
    var sel := Parse(token);
    var names := Matching(catalog, sel.base);
    var ms := MentionsOf(names, sel);
    var empty: seq<Mention> := [];
    assert ExpandAll(catalog, [token]) == Expanded(ms) by {
      assert [] + [token] == [token] && [] + ms == ms;
      assert Expand(catalog, token) == Expanded(ms);
      ExpandAllSnoc(catalog, [], token, [], ms);
    }
    assert Merge(ms) == ms by {
      MatchingDistinct(catalog, sel.base);
      MentionsOfTasks(names, sel);
      MergeDistinct(ms);
    }
    assert Operations(Include, ms) + Operations(Exclude, Merge(empty)) == Operations(Include, ms) by {
      assert Merge(empty) == [] && Operations(Exclude, []) == [];
    }
    GetQueryOf(catalog, [token], [], ms, empty);
  }

  /** A name that is a task of the catalog, with no `+` marks, gives exactly
      one include operation without closures. */
  lemma LiteralName(catalog: seq<CatalogTask>, name: string)
    requires WellFormedCatalog(catalog) && name in Names(catalog)
    requires Parse(name) == Selector(false, Name(name), false)
    ensures GetQuery(catalog, [name], []) == Query([Operation(Include, name, false, false)])
  {
    MatchingName(catalog, name);
    assert name in Matching(catalog, Name(name));
    SingleSelector(catalog, name);
    var ms := MentionsOf([name], Parse(name));
    assert ms == [Mention(name, false, false)];
    assert Operations(Include, ms) == [Operation(Include, name, false, false)];
  }

  // ---------------------------------------------------------------------
  // The seven-task catalog of the resolver's tests.

  function TestCatalog(): seq<CatalogTask>
  {
    [ CatalogTask("task1", "dag1", []),
      CatalogTask("task2", "dag1", ["tag1"]),
      CatalogTask("task3", "dag2", ["tag1"]),
      CatalogTask("task4", "dag2", []),
      CatalogTask("task5", "dag3", ["tag1", "tag2"]),
      CatalogTask("task6", "dag3", []),
      CatalogTask("task7", "dag3", []) ]
  }

  lemma MergePrefix(ms: seq<Mention>, k: nat)
    requires k < |ms|
    ensures Merge(ms[..k + 1]) == Add(Merge(ms[..k]), ms[k])
  {
    assert ms[..k + 1][..k] == ms[..k];
  }

  lemma TestCatalogTag1()
    ensures Matching(TestCatalog(), Tag("tag1")) == ["task2", "task3", "task5"]
  {
    var c := TestCatalog();
    assert c[..0] == [] && c[..7] == c;
    MatchingPrefix(c, Tag("tag1"), 0);
    MatchingPrefix(c, Tag("tag1"), 1);
    MatchingPrefix(c, Tag("tag1"), 2);
    MatchingPrefix(c, Tag("tag1"), 3);
    MatchingPrefix(c, Tag("tag1"), 4);
    MatchingPrefix(c, Tag("tag1"), 5);
    MatchingPrefix(c, Tag("tag1"), 6);
  }

  lemma TestCatalogDag3()
    ensures Matching(TestCatalog(), Group("dag3")) == ["task5", "task6", "task7"]
  {
    var c := TestCatalog();
    assert c[..0] == [] && c[..7] == c;
    MatchingPrefix(c, Group("dag3"), 0);
    MatchingPrefix(c, Group("dag3"), 1);
    MatchingPrefix(c, Group("dag3"), 2);
    MatchingPrefix(c, Group("dag3"), 3);
    MatchingPrefix(c, Group("dag3"), 4);
    MatchingPrefix(c, Group("dag3"), 5);
    MatchingPrefix(c, Group("dag3"), 6);
  }

  lemma ExpandAllPrefix(catalog: seq<CatalogTask>, tokens: seq<string>, k: nat)
    requires k < |tokens|
    ensures ExpandAll(catalog, tokens[..k + 1]) ==
      match ExpandAll(catalog, tokens[..k])
      case Failed(t) => Failed(t)
      case Expanded(ms) =>
        match Expand(catalog, tokens[k])
        case Failed(t) => Failed(t)
        case Expanded(more) => Expanded(ms + more)
  {
    assert tokens[..k + 1][..k] == tokens[..k];
  }

  lemma TestCatalogNames()
    ensures Names(TestCatalog()) == ["task1", "task2", "task3", "task4", "task5", "task6", "task7"]
    ensures WellFormedCatalog(TestCatalog())
  {
  }

  /** How each token of the mixed query expands against the test catalog. */
  lemma TestExpansionTask1()
    ensures Expand(TestCatalog(), "task1") == Expanded([Mention("task1", false, false)])
  {
    assert Parse("task1") == Selector(false, Name("task1"), false) by {
      assert "task1"[..4] == "task";
    }
    TestCatalogNames();
    MatchingName(TestCatalog(), "task1");
    assert MentionsOf(["task1"], Parse("task1")) == [Mention("task1", false, false)];
  }

  lemma TestExpansionTask2Down()
    ensures Expand(TestCatalog(), "task2+") == Expanded([Mention("task2", false, true)])
  {
    assert Parse("task2+") == Selector(false, Name("task2"), true) by {
      assert "task2+"[..5] == "task2" && "task2"[..4] == "task";
    }
    TestCatalogNames();
    MatchingName(TestCatalog(), "task2");
    assert MentionsOf(["task2"], Parse("task2+")) == [Mention("task2", false, true)];
  }

  lemma TestExpansionTask2Up()
    ensures Expand(TestCatalog(), "+task2") == Expanded([Mention("task2", true, false)])
  {
    assert Parse("+task2") == Selector(true, Name("task2"), false) by {
      assert "+task2"[1..] == "task2" && "task2"[..4] == "task";
    }
    TestCatalogNames();
    MatchingName(TestCatalog(), "task2");
    assert MentionsOf(["task2"], Parse("+task2")) == [Mention("task2", true, false)];
  }

  lemma TestExpansionTask3Up()
    ensures Expand(TestCatalog(), "+task3") == Expanded([Mention("task3", true, false)])
  {
    assert Parse("+task3") == Selector(true, Name("task3"), false) by {
      assert "+task3"[1..] == "task3" && "task3"[..4] == "task";
    }
    TestCatalogNames();
    MatchingName(TestCatalog(), "task3");
    assert MentionsOf(["task3"], Parse("+task3")) == [Mention("task3", true, false)];
  }

  lemma TestExpansionTag1()
    ensures Expand(TestCatalog(), "tag:tag1") ==
      Expanded([Mention("task2", false, false), Mention("task3", false, false), Mention("task5", false, false)])
  {
    assert Parse("tag:tag1") == Selector(false, Tag("tag1"), false) by {
      assert "tag:tag1"[..4] == "tag:" && "tag:tag1"[4..] == "tag1";
    }
    TestCatalogTag1();
    assert MentionsOf(["task2", "task3", "task5"], Parse("tag:tag1")) ==
      [Mention("task2", false, false), Mention("task3", false, false), Mention("task5", false, false)];
  }

  lemma TestExpansionDag3()
    ensures Expand(TestCatalog(), "dag:dag3") ==
      Expanded([Mention("task5", false, false), Mention("task6", false, false), Mention("task7", false, false)])
  {
    assert Parse("dag:dag3") == Selector(false, Group("dag3"), false) by {
      assert "dag:dag3"[..4] == "dag:" && "dag:dag3"[..4] != "tag:" && "dag:dag3"[4..] == "dag3";
    }
    TestCatalogDag3();
    assert MentionsOf(["task5", "task6", "task7"], Parse("dag:dag3")) ==
      [Mention("task5", false, false), Mention("task6", false, false), Mention("task7", false, false)];
  }

  lemma ExpandAllSnoc(catalog: seq<CatalogTask>, tokens: seq<string>, token: string,
                      ms: seq<Mention>, more: seq<Mention>)
    requires ExpandAll(catalog, tokens) == Expanded(ms)
    requires Expand(catalog, token) == Expanded(more)
    ensures ExpandAll(catalog, tokens + [token]) == Expanded(ms + more)
  {
    assert (tokens + [token])[..|tokens|] == tokens;
  }

  lemma ExpandAllPair(catalog: seq<CatalogTask>, t1: string, t2: string, m1: seq<Mention>, m2: seq<Mention>)
    requires Expand(catalog, t1) == Expanded(m1) && Expand(catalog, t2) == Expanded(m2)
    ensures ExpandAll(catalog, [t1, t2]) == Expanded(m1 + m2)
  {
    ExpandAllSnoc(catalog, [], t1, [], m1);
    assert [] + [t1] == [t1] && [] + m1 == m1;
    ExpandAllSnoc(catalog, [t1], t2, m1, m2);
    assert [t1] + [t2] == [t1, t2];
  }

  lemma ExpandAllFour(catalog: seq<CatalogTask>, t1: string, t2: string, t3: string, t4: string,
                      m1: seq<Mention>, m2: seq<Mention>, m3: seq<Mention>, m4: seq<Mention>)
    requires Expand(catalog, t1) == Expanded(m1) && Expand(catalog, t2) == Expanded(m2)
    requires Expand(catalog, t3) == Expanded(m3) && Expand(catalog, t4) == Expanded(m4)
    ensures ExpandAll(catalog, [t1, t2, t3, t4]) == Expanded(m1 + m2 + m3 + m4)
  {
    ExpandAllPair(catalog, t1, t2, m1, m2);
    ExpandAllSnoc(catalog, [t1, t2], t3, m1 + m2, m3);
    assert [t1, t2] + [t3] == [t1, t2, t3];
    ExpandAllSnoc(catalog, [t1, t2, t3], t4, m1 + m2 + m3, m4);
    assert [t1, t2, t3] + [t4] == [t1, t2, t3, t4];
  }

  lemma IncludeMentions03()
    ensures ExpandAll(TestCatalog(), ["task1", "task2+", "tag:tag1", "+task2"]) ==
      Expanded([ Mention("task1", false, false), Mention("task2", false, true),
                 Mention("task2", false, false), Mention("task3", false, false),
                 Mention("task5", false, false), Mention("task2", true, false) ])
  {
    var m1, m2 := [Mention("task1", false, false)], [Mention("task2", false, true)];
    var m3 := [Mention("task2", false, false), Mention("task3", false, false), Mention("task5", false, false)];
    var m4 := [Mention("task2", true, false)];
    assert m1 + m2 + m3 + m4 == [ Mention("task1", false, false), Mention("task2", false, true),
                 Mention("task2", false, false), Mention("task3", false, false),
                 Mention("task5", false, false), Mention("task2", true, false) ];
    TestExpansionTask1();
    TestExpansionTask2Down();
    TestExpansionTag1();
    TestExpansionTask2Up();
    ExpandAllFour(TestCatalog(), "task1", "task2+", "tag:tag1", "+task2",
      [Mention("task1", false, false)], [Mention("task2", false, true)],
      [Mention("task2", false, false), Mention("task3", false, false), Mention("task5", false, false)],
      [Mention("task2", true, false)]);
  }

  lemma ExcludeMentions03()
    ensures ExpandAll(TestCatalog(), ["dag:dag3", "+task3"]) ==
      Expanded([ Mention("task5", false, false), Mention("task6", false, false),
                 Mention("task7", false, false), Mention("task3", true, false) ])
  {
    var m1 := [Mention("task5", false, false), Mention("task6", false, false), Mention("task7", false, false)];
    var m2 := [Mention("task3", true, false)];
    assert m1 + m2 == [ Mention("task5", false, false), Mention("task6", false, false),
                        Mention("task7", false, false), Mention("task3", true, false) ];
    TestExpansionDag3();
    TestExpansionTask3Up();
    ExpandAllPair(TestCatalog(), "dag:dag3", "+task3",
      [Mention("task5", false, false), Mention("task6", false, false), Mention("task7", false, false)],
      [Mention("task3", true, false)]);
  }

  lemma MergeSnoc(ms: seq<Mention>, m: Mention)
    ensures Merge(ms + [m]) == Add(Merge(ms), m)
  {
    assert (ms + [m])[..|ms|] == ms;
  }

  /** `Add` on a task not yet mentioned appends the mention. */
  lemma AddNew(r: seq<Mention>, m: Mention)
    requires forall k :: 0 <= k < |r| ==> r[k].task != m.task
    ensures Add(r, m) == r + [m]
  {
  }

  /** `Add` on a task first mentioned at position `i` widens that mention. */
  lemma AddExisting(r: seq<Mention>, m: Mention, i: nat)
    requires i < |r| && r[i].task == m.task
    requires forall k :: 0 <= k < i ==> r[k].task != m.task
    ensures Add(r, m) == r[i := Mention(m.task, r[i].upstream || m.upstream, r[i].downstream || m.downstream)]
  {
  }

  /** A query whose two token lists expand is the merged include block
      followed by the merged exclude block. */
  lemma GetQueryOf(catalog: seq<CatalogTask>, includes: seq<string>, excludes: seq<string>,
                   inc: seq<Mention>, exc: seq<Mention>)
    requires ExpandAll(catalog, includes) == Expanded(inc)
    requires ExpandAll(catalog, excludes) == Expanded(exc)
    ensures GetQuery(catalog, includes, excludes) ==
      Query(Operations(Include, Merge(inc)) + Operations(Exclude, Merge(exc)))
  {
  }

  lemma MergeStepNew(ms: seq<Mention>, m: Mention, r: seq<Mention>)
    requires Merge(ms) == r
    requires forall k :: 0 <= k < |r| ==> r[k].task != m.task
    ensures Merge(ms + [m]) == r + [m]
  {
    MergeSnoc(ms, m);
    AddNew(r, m);
  }

  lemma MergeStepExisting(ms: seq<Mention>, m: Mention, r: seq<Mention>, i: nat)
    requires Merge(ms) == r
    requires i < |r| && r[i].task == m.task
    requires forall k :: 0 <= k < i ==> r[k].task != m.task
    ensures Merge(ms + [m]) == r[i := Mention(m.task, r[i].upstream || m.upstream, r[i].downstream || m.downstream)]
  {
    MergeSnoc(ms, m);
    AddExisting(r, m, i);
  }

  /** The merge of the first four include mentions of the mixed query. */
  lemma IncludeMergedHead(t1: string, t2: string, t3: string)
    requires t1 != t2 && t1 != t3 && t2 != t3
    ensures Merge([ Mention(t1, false, false), Mention(t2, false, true), Mention(t2, false, false),
                    Mention(t3, false, false) ]) ==
      [ Mention(t1, false, false), Mention(t2, false, true), Mention(t3, false, false) ]
  {
    var a, b, c := Mention(t1, false, false), Mention(t2, false, true), Mention(t2, false, false);
    var d := Mention(t3, false, false);
    assert Merge([]) == [];
    MergeStepNew([], a, []);
    assert [] + [a] == [a];
    MergeStepNew([a], b, [a]);
    assert [a] + [b] == [a, b];
    MergeStepExisting([a, b], c, [a, b], 1);
    assert [a, b] + [c] == [a, b, c] && [a, b][1 := b] == [a, b];
    MergeStepNew([a, b, c], d, [a, b]);
    assert [a, b, c] + [d] == [a, b, c, d];
  }

  /** The merge of the mixed query's include mentions, for any four
      distinct task names: the two mentions of `t2` become one asking for
      both closures, at the place of its first mention. */
  lemma IncludeMergedShape(t1: string, t2: string, t3: string, t5: string)
    requires t1 != t2 && t1 != t3 && t1 != t5 && t2 != t3 && t2 != t5 && t3 != t5
    ensures Merge([ Mention(t1, false, false), Mention(t2, false, true), Mention(t2, false, false),
                    Mention(t3, false, false), Mention(t5, false, false), Mention(t2, true, false) ]) ==
      [ Mention(t1, false, false), Mention(t2, true, true), Mention(t3, false, false), Mention(t5, false, false) ]
  {
    var a, b, c := Mention(t1, false, false), Mention(t2, false, true), Mention(t2, false, false);
    var d, e, f := Mention(t3, false, false), Mention(t5, false, false), Mention(t2, true, false);
    IncludeMergedHead(t1, t2, t3);
    MergeStepNew([a, b, c, d], e, [a, b, d]);
    assert [a, b, c, d] + [e] == [a, b, c, d, e] && [a, b, d] + [e] == [a, b, d, e];
    MergeStepExisting([a, b, c, d, e], f, [a, b, d, e], 1);
    assert [a, b, c, d, e] + [f] == [a, b, c, d, e, f];
  }

  /** Four mentions of distinct tasks merge to themselves. */
  lemma DistinctMergedShape(a: Mention, b: Mention, c: Mention, d: Mention)
    requires a.task != b.task && a.task != c.task && a.task != d.task
    requires b.task != c.task && b.task != d.task && c.task != d.task
    ensures Merge([a, b, c, d]) == [a, b, c, d]
  {
    assert Merge([]) == [];
    MergeStepNew([], a, []);
    assert [] + [a] == [a];
    MergeStepNew([a], b, [a]);
    assert [a] + [b] == [a, b];
    MergeStepNew([a, b], c, [a, b]);
    assert [a, b] + [c] == [a, b, c];
    MergeStepNew([a, b, c], d, [a, b, c]);
    assert [a, b, c] + [d] == [a, b, c, d];
  }

  lemma IncludeOperationsShape(t1: string, t2: string, t3: string, t5: string)
    requires t1 != t2 && t1 != t3 && t1 != t5 && t2 != t3 && t2 != t5 && t3 != t5
    ensures Operations(Include, Merge([ Mention(t1, false, false), Mention(t2, false, true), Mention(t2, false, false),
                                        Mention(t3, false, false), Mention(t5, false, false), Mention(t2, true, false) ])) ==
      [ Operation(Include, t1, false, false), Operation(Include, t2, true, true),
        Operation(Include, t3, false, false), Operation(Include, t5, false, false) ]
  {
    IncludeMergedShape(t1, t2, t3, t5);
    OperationsOfFour(Include, Mention(t1, false, false), Mention(t2, true, true), Mention(t3, false, false), Mention(t5, false, false));
  }

  lemma ExcludeOperationsShape(t5: string, t6: string, t7: string, t3: string)
    requires t5 != t6 && t5 != t7 && t5 != t3 && t6 != t7 && t6 != t3 && t7 != t3
    ensures Operations(Exclude, Merge([ Mention(t5, false, false), Mention(t6, false, false), Mention(t7, false, false),
                                        Mention(t3, true, false) ])) ==
      [ Operation(Exclude, t5, false, false), Operation(Exclude, t6, false, false),
        Operation(Exclude, t7, false, false), Operation(Exclude, t3, true, false) ]
  {
    DistinctMergedShape(Mention(t5, false, false), Mention(t6, false, false), Mention(t7, false, false), Mention(t3, true, false));
    OperationsOfFour(Exclude, Mention(t5, false, false), Mention(t6, false, false), Mention(t7, false, false), Mention(t3, true, false));
  }

  /** The operations of the mixed query, for any catalog where its tokens
      expand as they do against the test catalog. */
  lemma MixedQueryShape(catalog: seq<CatalogTask>, includes: seq<string>, excludes: seq<string>,
                        t1: string, t2: string, t3: string, t5: string, t6: string, t7: string)
    requires t1 != t2 && t1 != t3 && t1 != t5 && t2 != t3 && t2 != t5 && t3 != t5
    requires t5 != t6 && t5 != t7 && t5 != t3 && t6 != t7 && t6 != t3 && t7 != t3
    requires ExpandAll(catalog, includes) ==
      Expanded([ Mention(t1, false, false), Mention(t2, false, true), Mention(t2, false, false),
                 Mention(t3, false, false), Mention(t5, false, false), Mention(t2, true, false) ])
    requires ExpandAll(catalog, excludes) ==
      Expanded([ Mention(t5, false, false), Mention(t6, false, false), Mention(t7, false, false),
                 Mention(t3, true, false) ])
    ensures GetQuery(catalog, includes, excludes) ==
      Query([ Operation(Include, t1, false, false), Operation(Include, t2, true, true),
              Operation(Include, t3, false, false), Operation(Include, t5, false, false),
              Operation(Exclude, t5, false, false), Operation(Exclude, t6, false, false),
              Operation(Exclude, t7, false, false), Operation(Exclude, t3, true, false) ])
  {
    assert [ Operation(Include, t1, false, false), Operation(Include, t2, true, true),
             Operation(Include, t3, false, false), Operation(Include, t5, false, false) ] +
           [ Operation(Exclude, t5, false, false), Operation(Exclude, t6, false, false),
             Operation(Exclude, t7, false, false), Operation(Exclude, t3, true, false) ] ==
           [ Operation(Include, t1, false, false), Operation(Include, t2, true, true),
             Operation(Include, t3, false, false), Operation(Include, t5, false, false),
             Operation(Exclude, t5, false, false), Operation(Exclude, t6, false, false),
             Operation(Exclude, t7, false, false), Operation(Exclude, t3, true, false) ];
    IncludeOperationsShape(t1, t2, t3, t5);
    ExcludeOperationsShape(t5, t6, t7, t3);
    GetQueryOf(catalog, includes, excludes,
      [ Mention(t1, false, false), Mention(t2, false, true), Mention(t2, false, false),
        Mention(t3, false, false), Mention(t5, false, false), Mention(t2, true, false) ],
      [ Mention(t5, false, false), Mention(t6, false, false), Mention(t7, false, false), Mention(t3, true, false) ]);
  }

  lemma OperationsOfFour(kind: OpKind, a: Mention, b: Mention, c: Mention, d: Mention)
    ensures Operations(kind, [a, b, c, d]) ==
      [ Operation(kind, a.task, a.upstream, a.downstream), Operation(kind, b.task, b.upstream, b.downstream),
        Operation(kind, c.task, c.upstream, c.downstream), Operation(kind, d.task, d.upstream, d.downstream) ]
  {
  }

  /** The mixed query of the test suite: includes and excludes by name,
      tag, dag and closure marks, with repeated mentions of `task2` merged
      into one include that asks for both closures. */
  lemma FullQuery03()
    ensures GetQuery(TestCatalog(), ["task1", "task2+", "tag:tag1", "+task2"], ["dag:dag3", "+task3"]) ==
      Query([ Operation(Include, "task1", false, false), Operation(Include, "task2", true, true),
              Operation(Include, "task3", false, false), Operation(Include, "task5", false, false),
              Operation(Exclude, "task5", false, false), Operation(Exclude, "task6", false, false),
              Operation(Exclude, "task7", false, false), Operation(Exclude, "task3", true, false) ])
  {
    IncludeMentions03();
    ExcludeMentions03();
    MixedQueryShape(TestCatalog(), ["task1", "task2+", "tag:tag1", "+task2"], ["dag:dag3", "+task3"],
      "task1", "task2", "task3", "task5", "task6", "task7");
  }

  /** A token that names no task of the catalog makes the query fail with
      that token. */
  lemma UnmatchedTokenRejected(catalog: seq<CatalogTask>, token: string)
    requires forall i :: 0 <= i < |catalog| ==> !Matches(catalog[i], Parse(token).base)
    ensures GetQuery(catalog, [token], []) == QueryError(token)
  {
    assert Expand(catalog, token).Failed?;
    assert [token][..0] == [];
  }

  lemma UndefinedTask()
    ensures GetQuery(TestCatalog(), ["task_undefined"], []) == QueryError("task_undefined")
  {
    assert Parse("task_undefined").base == Name("task_undefined") by {
      assert "task_undefined"[..4] == "task";
    }
    UnmatchedTokenRejected(TestCatalog(), "task_undefined");
  }

  /** `+_task_undefined` asks for the upstream closure of the name `_task_undefined`. */
  lemma ParseUndefinedUpstream()
    ensures Parse("+_task_undefined") == Selector(true, Name("_task_undefined"), false)
  {
    assert "+_task_undefined"[0] == '+' && "+_task_undefined"[1..] == "_task_undefined";
    assert "_task_undefined"[14] == 'd' && "_task_undefined"[..4] == "_tas";
  }

  lemma UndefinedUpstreamTask()
    ensures GetQuery(TestCatalog(), ["+_task_undefined"], []) == QueryError("+_task_undefined")
  {
    ParseUndefinedUpstream();
    UnmatchedTokenRejected(TestCatalog(), "+_task_undefined");
  }

  lemma UndefinedTag()
    ensures GetQuery(TestCatalog(), ["tag:tag_undefined"], []) == QueryError("tag:tag_undefined")
  {
    assert Parse("tag:tag_undefined").base == Tag("tag_undefined") by {
      assert "tag:tag_undefined"[..4] == "tag:" && "tag:tag_undefined"[4..] == "tag_undefined";
    }
    UnmatchedTokenRejected(TestCatalog(), "tag:tag_undefined");
  }

  lemma UndefinedDag()
    ensures GetQuery(TestCatalog(), ["dag:dag_undefined"], []) == QueryError("dag:dag_undefined")
  {
    assert Parse("dag:dag_undefined").base == Group("dag_undefined") by {
      assert "dag:dag_undefined"[..4] == "dag:" && "dag:dag_undefined"[4..] == "dag_undefined";
    }
    UnmatchedTokenRejected(TestCatalog(), "dag:dag_undefined");
  }
}
