/**
 The part of the database the command sees, as an immutable value: the ids of
 the plugins still present, the Module plugins (each the root of a plugin tree)
 and the categories (each holding plugin ids in its placeholder).
 */
module Database {

  type PluginId = nat
  type CategoryId = nat

  /** A Module plugin row: its own id, its display name and the ids of its plugin
      tree as the tree query returns them. */
  datatype ModulePlugin = ModulePlugin(id: PluginId, name: string, tree: set<PluginId>)

  datatype Category = Category(id: CategoryId, name: string, plugins: set<PluginId>)

  /** `live` holds every plugin id still stored; `modules` is the Module plugin
      table in query order. */
  datatype Store = Store(live: set<PluginId>, modules: seq<ModulePlugin>, categories: seq<Category>)

  /** What deleting the Module plugin removes: the root and its whole tree. */
  function Span(m: ModulePlugin): (r: set<PluginId>)
    ensures m.id in r && m.tree <= r
  {
    {m.id} + m.tree
  }

  /** The tree query with the root excluded, read against the plugins now stored. */
  function Descendants(live: set<PluginId>, m: ModulePlugin): set<PluginId>
  {
    (m.tree * live) - {m.id}
  }

  function ChildCount(live: set<PluginId>, m: ModulePlugin): nat
  {
    |Descendants(live, m)|
  }

  /** The summed child counts of `ms`, each measured against `live`. */
  function ChildTotal(live: set<PluginId>, ms: seq<ModulePlugin>): nat
  {
    if ms == [] then 0 else ChildCount(live, ms[0]) + ChildTotal(live, ms[1..])
  }

  /** The children counted row by row as the rows are deleted in order: each
      row is counted against the plugins the earlier deletions left. */
  function Recounts(live: set<PluginId>, ms: seq<ModulePlugin>): nat
  {
    if ms == [] then 0 else ChildCount(live, ms[0]) + Recounts(live - Span(ms[0]), ms[1..])
  }

  /** Everything the deletion of all of `ms` removes. */
  function AllSpans(ms: seq<ModulePlugin>): set<PluginId>
  {
    if ms == [] then {} else Span(ms[0]) + AllSpans(ms[1..])
  }

  /** The Module plugin table once the rows with ids in `gone` are deleted. */
  function WithoutSpan(ms: seq<ModulePlugin>, gone: set<PluginId>): (r: seq<ModulePlugin>)
    ensures forall m :: m in r <==> m in ms && m.id !in gone
  {
    if ms == [] then []
    else if ms[0].id in gone then WithoutSpan(ms[1..], gone)
    else [ms[0]] + WithoutSpan(ms[1..], gone)
  }

  /** Deleting a Module plugin: the cascade removes its root and tree. */
  function DeleteModule(s: Store, m: ModulePlugin): (r: Store)
    ensures r.live == s.live - Span(m)
    ensures m !in r.modules
    ensures forall mm :: mm in r.modules <==> mm in s.modules && mm.id !in Span(m)
    ensures r.categories == s.categories
  {
    Store(s.live - Span(m), WithoutSpan(s.modules, Span(m)), s.categories)
  }

  /** What the category's plugin query still finds. */
  function RemainingPlugins(live: set<PluginId>, c: Category): set<PluginId>
  {
    c.plugins * live
  }

  predicate IsEmpty(live: set<PluginId>, c: Category)
  {
    |RemainingPlugins(live, c)| == 0
  }

  /** The categories found empty, in query order. */
  function EmptyOnes(cs: seq<Category>, live: set<PluginId>): (r: seq<Category>)
    ensures forall c :: c in r <==> c in cs && IsEmpty(live, c)
  {
    if cs == [] then []
    else if IsEmpty(live, cs[0]) then [cs[0]] + EmptyOnes(cs[1..], live)
    else EmptyOnes(cs[1..], live)
  }

  /** The categories that still hold plugins, in query order. */
  function NonEmptyOnes(cs: seq<Category>, live: set<PluginId>): (r: seq<Category>)
    ensures forall c :: c in r <==> c in cs && !IsEmpty(live, c)
    ensures |r| + |EmptyOnes(cs, live)| == |cs|
  {
    if cs == [] then []
    else if IsEmpty(live, cs[0]) then NonEmptyOnes(cs[1..], live)
    else [cs[0]] + NonEmptyOnes(cs[1..], live)
  }

  function Ids(cs: seq<Category>): set<CategoryId>
  {
    set c | c in cs :: c.id
  }

  /** The category table once the rows with ids in `gone` are deleted. */
  function WithoutIds(cs: seq<Category>, gone: set<CategoryId>): (r: seq<Category>)
    ensures forall c :: c in r <==> c in cs && c.id !in gone
  {
    if cs == [] then []
    else if cs[0].id in gone then WithoutIds(cs[1..], gone)
    else [cs[0]] + WithoutIds(cs[1..], gone)
  }

  function DeleteCategory(s: Store, c: Category): (r: Store)
    ensures r.live == s.live && r.modules == s.modules
    ensures c !in r.categories
    ensures forall cc :: cc in r.categories <==> cc in s.categories && cc.id != c.id
  {
    s.(categories := WithoutIds(s.categories, {c.id}))
  }

  /** No plugin belongs to two Module plugin trees. */
  predicate DisjointTrees(ms: seq<ModulePlugin>)
  {
    forall i, j :: 0 <= i < j < |ms| ==> Span(ms[i]) !! Span(ms[j])
  }

  /** Every Module plugin row is itself a stored plugin. */
  predicate RootsLive(live: set<PluginId>, ms: seq<ModulePlugin>)
  {
    forall i :: 0 <= i < |ms| ==> ms[i].id in live
  }

  predicate DistinctIds(cs: seq<Category>)
  {
    forall i, j :: 0 <= i < j < |cs| ==> cs[i].id != cs[j].id
  }

  /** The shape of a database the command is run against. */
  predicate Valid(s: Store)
  {
    DisjointTrees(s.modules) && RootsLive(s.live, s.modules) && DistinctIds(s.categories)
  }

  /** Deleting the first Module plugin of a table of disjoint trees removes that
      row and no other. */
  lemma {:induction false} DeleteFirstModuleLeavesRest(ms: seq<ModulePlugin>)
    requires |ms| > 0 && DisjointTrees(ms)
    ensures WithoutSpan(ms, Span(ms[0])) == ms[1..]
  {
    forall i | 0 <= i < |ms[1..]|
      ensures ms[1..][i].id !in Span(ms[0])
    {
      assert Span(ms[0]) !! Span(ms[i + 1]);
    }
    WithoutSpanOfOutsiders(ms[1..], Span(ms[0]));
  }

  lemma {:induction false} WithoutSpanOfOutsiders(ms: seq<ModulePlugin>, gone: set<PluginId>)
    requires forall i :: 0 <= i < |ms| ==> ms[i].id !in gone
    ensures WithoutSpan(ms, gone) == ms
  {
    if ms != [] {
      WithoutSpanOfOutsiders(ms[1..], gone);
    }
  }

  /** Removing plugins outside every tree of `ms` changes none of their child counts. */
  lemma {:induction false} ChildTotalIgnoresOtherTrees(live: set<PluginId>, gone: set<PluginId>, ms: seq<ModulePlugin>)
    requires forall i :: 0 <= i < |ms| ==> Span(ms[i]) !! gone
    ensures forall i :: 0 <= i < |ms| ==> ChildCount(live - gone, ms[i]) == ChildCount(live, ms[i])
    ensures ChildTotal(live - gone, ms) == ChildTotal(live, ms)
  {
    if ms != [] {
      assert Span(ms[0]) !! gone;
      assert Descendants(live - gone, ms[0]) == Descendants(live, ms[0]);
      ChildTotalIgnoresOtherTrees(live, gone, ms[1..]);
      assert forall i :: 1 <= i < |ms| ==> ms[i] == ms[1..][i - 1];
    }
  }

  /** With disjoint trees whose roots are stored, the module count plus the summed
      child counts is exactly the number of stored plugins the trees cover. */
  lemma {:induction false} PluginTotalCountsCoveredPlugins(live: set<PluginId>, ms: seq<ModulePlugin>)
    requires DisjointTrees(ms) && RootsLive(live, ms)
    ensures |ms| + ChildTotal(live, ms) == |live * AllSpans(ms)|
  {
    if ms != [] {
      var m := ms[0];
      PluginTotalCountsCoveredPlugins(live, ms[1..]);
      FirstSpanApart(ms);
      CoveredOfDisjointUnion(live, Span(m), AllSpans(ms[1..]));
      CoveredOfOneTree(live, m);
    }
  }

  lemma FirstSpanApart(ms: seq<ModulePlugin>)
    requires |ms| > 0 && DisjointTrees(ms)
    ensures Span(ms[0]) !! AllSpans(ms[1..])
  {
    forall i | 0 <= i < |ms[1..]|
      ensures Span(ms[1..][i]) !! Span(ms[0])
    {
      assert Span(ms[0]) !! Span(ms[i + 1]);
    }
    AllSpansApart(ms[1..], Span(ms[0]));
  }

  lemma {:induction false} AllSpansApart(ms: seq<ModulePlugin>, x: set<PluginId>)
    requires forall i :: 0 <= i < |ms| ==> Span(ms[i]) !! x
    ensures AllSpans(ms) !! x
  {
    if ms != [] {
      assert Span(ms[0]) !! x;
      AllSpansApart(ms[1..], x);
    }
  }

  lemma CoveredOfDisjointUnion(live: set<PluginId>, a: set<PluginId>, b: set<PluginId>)
    requires a !! b
    ensures |live * (a + b)| == |live * a| + |live * b|
  {
    assert live * (a + b) == (live * a) + (live * b);
    assert (live * a) !! (live * b);
  }

  lemma CoveredOfOneTree(live: set<PluginId>, m: ModulePlugin)
    requires m.id in live
    ensures |live * Span(m)| == 1 + ChildCount(live, m)
  {
    assert live * Span(m) == {m.id} + Descendants(live, m);
  }

  /** Deleting the rows in `a` and then those in `b` is deleting `a + b`. */
  lemma {:induction false} WithoutSpanTwice(ms: seq<ModulePlugin>, a: set<PluginId>, b: set<PluginId>)
    ensures WithoutSpan(WithoutSpan(ms, a), b) == WithoutSpan(ms, a + b)
  {
    if ms != [] {
      WithoutSpanTwice(ms[1..], a, b);
    }
  }

  /** Every root is among the plugins its own table's deletion removes. */
  lemma {:induction false} RootsCovered(ms: seq<ModulePlugin>)
    ensures forall i :: 0 <= i < |ms| ==> ms[i].id in AllSpans(ms)
  {
    if ms != [] {
      RootsCovered(ms[1..]);
      assert forall i :: 1 <= i < |ms| ==> ms[i] == ms[1..][i - 1];
    }
  }

  lemma {:induction false} WithoutSpanOfInsiders(ms: seq<ModulePlugin>, gone: set<PluginId>)
    requires forall i :: 0 <= i < |ms| ==> ms[i].id in gone
    ensures WithoutSpan(ms, gone) == []
  {
    if ms != [] {
      assert ms[0].id in gone;
      WithoutSpanOfInsiders(ms[1..], gone);
    }
  }

  lemma {:induction false} WithoutNoIds(cs: seq<Category>)
    ensures WithoutIds(cs, {}) == cs
  {
    if cs != [] {
      WithoutNoIds(cs[1..]);
    }
  }

  /** Deleting the rows with ids in `a` and then those in `b` is deleting `a + b`. */
  lemma {:induction false} WithoutIdsTwice(cs: seq<Category>, a: set<CategoryId>, b: set<CategoryId>)
    ensures WithoutIds(WithoutIds(cs, a), b) == WithoutIds(cs, a + b)
  {
    if cs != [] {
      WithoutIdsTwice(cs[1..], a, b);
    }
  }

  /** Deleting, by id, the categories found empty leaves exactly those that still
      hold plugins, in their original order. */
  lemma {:induction false} DeletingEmptyOnesLeavesNonEmptyOnes(cs: seq<Category>, live: set<PluginId>)
    requires DistinctIds(cs)
    ensures WithoutIds(cs, Ids(EmptyOnes(cs, live))) == NonEmptyOnes(cs, live)
  {
    if cs != [] {
      var c, rest := cs[0], cs[1..];
      assert cs == [c] + rest;
      assert DistinctIds(rest);
      DeletingEmptyOnesLeavesNonEmptyOnes(rest, live);
      assert c.id !in Ids(rest);
      assert Ids(EmptyOnes(rest, live)) <= Ids(rest);
      if IsEmpty(live, c) {
        assert Ids(EmptyOnes(cs, live)) == {c.id} + Ids(EmptyOnes(rest, live));
        WithoutIdsOfAbsent(rest, Ids(EmptyOnes(rest, live)), c.id);
      }
    }
  }

  lemma {:induction false} WithoutIdsOfAbsent(cs: seq<Category>, gone: set<CategoryId>, id: CategoryId)
    requires id !in Ids(cs)
    ensures WithoutIds(cs, {id} + gone) == WithoutIds(cs, gone)
  {
    if cs != [] {
      assert Ids(cs[1..]) <= Ids(cs);
      WithoutIdsOfAbsent(cs[1..], gone, id);
    }
  }
}
