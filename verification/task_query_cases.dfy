/** The single-block and two-block queries of the resolver's test suite,
    against the seven-task catalog. */
module TaskQueryCases {
  import opened Seqs
  import opened TaskQuery

  /** A query of one expanding token is that token's mentions, as include
      operations. */
  lemma OneToken(catalog: seq<CatalogTask>, token: string, ms: seq<Mention>)
    requires WellFormedCatalog(catalog) && Expand(catalog, token) == Expanded(ms)
    ensures GetQuery(catalog, [token], []) == Query(Operations(Include, ms))
  {
    SingleSelector(catalog, token);
  }

  /** An expanding token on a catalog listing each task once mentions each
      task once, so its block merges to itself. */
  lemma ExpansionMergesToItself(catalog: seq<CatalogTask>, token: string, ms: seq<Mention>)
    requires WellFormedCatalog(catalog) && Expand(catalog, token) == Expanded(ms)
    ensures Merge(ms) == ms
  {
    var names := Matching(catalog, Parse(token).base);
    assert ms == MentionsOf(names, Parse(token));
    MatchingDistinct(catalog, Parse(token).base);
    MentionsOfTasks(names, Parse(token));
    MergeDistinct(ms);
  }

  /** A block of one token expands as that token does. */
  lemma OneTokenBlock(catalog: seq<CatalogTask>, token: string, ms: seq<Mention>)
    requires Expand(catalog, token) == Expanded(ms)
    ensures ExpandAll(catalog, [token]) == Expanded(ms)
  {
    assert [] + [token] == [token] && [] + ms == ms;
    ExpandAllSnoc(catalog, [], token, [], ms);
  }

  /** A query of one include token and one exclude token, both expanding:
      the include mentions, then the exclude mentions. */
  lemma TwoTokens(catalog: seq<CatalogTask>, inc: string, exc: string, ms1: seq<Mention>, ms2: seq<Mention>)
    requires WellFormedCatalog(catalog)
    requires Expand(catalog, inc) == Expanded(ms1) && Expand(catalog, exc) == Expanded(ms2)
    ensures GetQuery(catalog, [inc], [exc]) == Query(Operations(Include, ms1) + Operations(Exclude, ms2))
  {
    ExpansionMergesToItself(catalog, inc, ms1);
    ExpansionMergesToItself(catalog, exc, ms2);
    OneTokenBlock(catalog, inc, ms1);
    OneTokenBlock(catalog, exc, ms2);
    GetQueryOf(catalog, [inc], [exc], ms1, ms2);
  }

  lemma TestCatalogDag1()
    ensures Matching(TestCatalog(), Group("dag1")) == ["task1", "task2"]
  {
    var c := TestCatalog();
    assert c[..0] == [] && c[..7] == c;
    MatchingPrefix(c, Group("dag1"), 0);
    MatchingPrefix(c, Group("dag1"), 1);
    MatchingPrefix(c, Group("dag1"), 2);
    MatchingPrefix(c, Group("dag1"), 3);
    MatchingPrefix(c, Group("dag1"), 4);
    MatchingPrefix(c, Group("dag1"), 5);
    MatchingPrefix(c, Group("dag1"), 6);
  }

  lemma TestCatalogDag2()
    ensures Matching(TestCatalog(), Group("dag2")) == ["task3", "task4"]
  {
    var c := TestCatalog();
    assert c[..0] == [] && c[..7] == c;
    MatchingPrefix(c, Group("dag2"), 0);
    MatchingPrefix(c, Group("dag2"), 1);
    MatchingPrefix(c, Group("dag2"), 2);
    MatchingPrefix(c, Group("dag2"), 3);
    MatchingPrefix(c, Group("dag2"), 4);
    MatchingPrefix(c, Group("dag2"), 5);
    MatchingPrefix(c, Group("dag2"), 6);
  }

  /** `test_simple01`: a bare task name. */
  lemma Simple01()
    ensures GetQuery(TestCatalog(), ["task1"], []) == Query([Operation(Include, "task1", false, false)])
  {
    TestExpansionTask1();
    TestCatalogNames();
    OneToken(TestCatalog(), "task1", [Mention("task1", false, false)]);
  }

  /** `test_simple03`: a trailing `+` asks for the downstream closure only. */
  lemma Simple03()
    ensures GetQuery(TestCatalog(), ["task2+"], []) == Query([Operation(Include, "task2", false, true)])
  {
    TestExpansionTask2Down();
    TestCatalogNames();
    OneToken(TestCatalog(), "task2+", [Mention("task2", false, true)]);
  }

  lemma TestExpansionTask4Both()
    ensures Expand(TestCatalog(), "+task4+") == Expanded([Mention("task4", true, true)])
  {
    assert Parse("+task4+") == Selector(true, Name("task4"), true) by {
      assert "+task4+"[1..] == "task4+" && "task4+"[..5] == "task4" && "task4"[..4] == "task";
    }
    TestCatalogNames();
    MatchingName(TestCatalog(), "task4");
    assert MentionsOf(["task4"], Parse("+task4+")) == [Mention("task4", true, true)];
  }

  /** `test_simple04`: marks on both sides ask for both closures. */
  lemma Simple04()
    ensures GetQuery(TestCatalog(), ["+task4+"], []) == Query([Operation(Include, "task4", true, true)])
  {
    TestExpansionTask4Both();
    TestCatalogNames();
    OneToken(TestCatalog(), "+task4+", [Mention("task4", true, true)]);
  }

  lemma TestExpansionDag1()
    ensures Expand(TestCatalog(), "dag:dag1") ==
      Expanded([Mention("task1", false, false), Mention("task2", false, false)])
  {
    assert Parse("dag:dag1") == Selector(false, Group("dag1"), false) by {
      assert "dag:dag1"[..4] == "dag:" && "dag:dag1"[..4] != "tag:" && "dag:dag1"[4..] == "dag1";
    }
    TestCatalogDag1();
    assert MentionsOf(["task1", "task2"], Parse("dag:dag1")) ==
      [Mention("task1", false, false), Mention("task2", false, false)];
  }

  /** `test_dag01`: a dag selector names its tasks in catalog order. */
  lemma Dag01()
    ensures GetQuery(TestCatalog(), ["dag:dag1"], []) ==
      Query([Operation(Include, "task1", false, false), Operation(Include, "task2", false, false)])
  {
    var ms := [Mention("task1", false, false), Mention("task2", false, false)];
    assert Operations(Include, ms) == [Operation(Include, "task1", false, false), Operation(Include, "task2", false, false)];
    TestExpansionDag1();
    TestCatalogNames();
    OneToken(TestCatalog(), "dag:dag1", ms);
  }

  /** `test_tag01`: a tag selector names its tasks in catalog order. */
  lemma Tag01()
    ensures GetQuery(TestCatalog(), ["tag:tag1"], []) ==
      Query([ Operation(Include, "task2", false, false), Operation(Include, "task3", false, false),
              Operation(Include, "task5", false, false) ])
  {
    TestCatalogNames();
    TestExpansionTag1();
    OneToken(TestCatalog(), "tag:tag1",
      [Mention("task2", false, false), Mention("task3", false, false), Mention("task5", false, false)]);
  }

  lemma TestExpansionDag2()
    ensures Expand(TestCatalog(), "dag:dag2") ==
      Expanded([Mention("task3", false, false), Mention("task4", false, false)])
  {
    assert Parse("dag:dag2") == Selector(false, Group("dag2"), false) by {
      assert "dag:dag2"[..4] == "dag:" && "dag:dag2"[..4] != "tag:" && "dag:dag2"[4..] == "dag2";
    }
    TestCatalogDag2();
    assert MentionsOf(["task3", "task4"], Parse("dag:dag2")) ==
      [Mention("task3", false, false), Mention("task4", false, false)];
  }

  /** `test_full_query02`: the exclude block may name a task the include
      block names; both operations are kept. */
  lemma FullQuery02()
    ensures GetQuery(TestCatalog(), ["tag:tag1"], ["dag:dag2"]) ==
      Query([ Operation(Include, "task2", false, false), Operation(Include, "task3", false, false),
              Operation(Include, "task5", false, false),
              Operation(Exclude, "task3", false, false), Operation(Exclude, "task4", false, false) ])
  {
    var ms1 := [Mention("task2", false, false), Mention("task3", false, false), Mention("task5", false, false)];
    var ms2 := [Mention("task3", false, false), Mention("task4", false, false)];
    assert Operations(Include, ms1) + Operations(Exclude, ms2) ==
      [ Operation(Include, "task2", false, false), Operation(Include, "task3", false, false),
        Operation(Include, "task5", false, false),
        Operation(Exclude, "task3", false, false), Operation(Exclude, "task4", false, false) ];
    TestCatalogNames();
    TestExpansionDag2();
    TestExpansionTag1();
    TwoTokens(TestCatalog(), "tag:tag1", "dag:dag2", ms1, ms2);
  }
}
