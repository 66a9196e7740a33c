/**
 The deletion transaction: every fetched Module plugin is deleted in turn (the
 cascade takes its tree), then, when asked, every category left empty. A store
 write may raise; the caller then discards the partial store.
 */
module Deletion {
  import opened Database
  import opened Messages

  /** The verbosity levels the command accepts. */
  type Verbosity = v: int | 0 <= v <= 2

  /** The `deleted_counts` dictionary. */
  datatype Counts = Counts(modules: nat, children: nat, categories: nat)

  /** Where the database raises, if anywhere. */
  datatype Fault =
    | NoFault
      /** A query before the transaction starts raises with `cause`. */
    | QueryFault(cause: string)
      /** Write number `at` of the transaction (module deletions first, then
          category deletions, counted from zero) raises with `cause`; a
          transaction with fewer writes never reaches it. */
    | WriteFault(at: nat, cause: string)
  {
    predicate FailsAt(step: nat)
    {
      WriteFault? && at == step
    }
  }

  /** The transaction's result before the commit or rollback: the store it has
      reached and what it wrote to the console. */
  datatype Run =
    | Done(store: Store, counts: Counts, log: seq<Msg>)
    | Failed(cause: string, log: seq<Msg>)

  function WithLog(pre: seq<Msg>, r: Run): (r': Run)
    ensures r'.Done? == r.Done? && r'.log == pre + r.log
    ensures r.Done? ==> r'.store == r.store && r'.counts == r.counts
    ensures r.Failed? ==> r'.cause == r.cause
  {
    match r
    case Done(store, counts, log) => Done(store, counts, pre + log)
    case Failed(cause, log) => Failed(cause, pre + log)
  }

  /** The module loop: each row's children are counted just before the row is
      deleted, then both counters advance. */
  function DeleteModules(s: Store, ms: seq<ModulePlugin>, acc: Counts, step: nat, verbosity: Verbosity, fault: Fault): (r: Run)
    ensures r.Failed? <==> fault.WriteFault? && step <= fault.at < step + |ms|
    ensures r.Failed? ==> r.cause == fault.cause
    ensures r.Done? ==> r.store.live == s.live - AllSpans(ms) && r.store.categories == s.categories
    ensures r.Done? ==> r.store.modules == WithoutSpan(s.modules, AllSpans(ms))
    ensures r.Done? ==> r.counts.modules == acc.modules + |ms| && r.counts.categories == acc.categories
    ensures r.Done? ==> r.counts.children == acc.children + Recounts(s.live, ms)
    ensures verbosity < 2 ==> r.log == []
    decreases |ms|
  {
    if ms == [] then
      WithoutSpanOfOutsiders(s.modules, {});
      Done(s, acc, [])
    else
      var m := ms[0];
      var children := ChildCount(s.live, m);
      var line := if verbosity >= 2 then [DeletingModule(m.name, children)] else [];
      if fault.FailsAt(step) then
        Failed(fault.cause, line)
      else
        var acc' := acc.(modules := acc.modules + 1, children := acc.children + children);
        WithoutSpanTwice(s.modules, Span(m), AllSpans(ms[1..]));
        WithLog(line, DeleteModules(DeleteModule(s, m), ms[1..], acc', step + 1, verbosity, fault))
  }

  /** The category loop over the categories already judged empty. */
  function DeleteCategories(s: Store, cs: seq<Category>, acc: Counts, step: nat, verbosity: Verbosity, fault: Fault): (r: Run)
    ensures r.Failed? <==> fault.WriteFault? && step <= fault.at < step + |cs|
    ensures r.Failed? ==> r.cause == fault.cause
    ensures r.Done? ==> r.store.live == s.live && r.store.modules == s.modules
    ensures r.Done? ==> r.store.categories == WithoutIds(s.categories, Ids(cs))
    ensures r.Done? ==> r.counts == acc.(categories := acc.categories + |cs|)
    ensures verbosity < 2 ==> r.log == []
    decreases |cs|
  {
    if cs == [] then
      assert Ids(cs) == {};
      WithoutNoIds(s.categories);
      Done(s, acc, [])
    else
      var c := cs[0];
      var line := if verbosity >= 2 then [DeletingCategory(c.name)] else [];
      if fault.FailsAt(step) then
        Failed(fault.cause, line)
      else
        assert cs == [c] + cs[1..];
        assert Ids(cs) == {c.id} + Ids(cs[1..]);
        WithoutIdsTwice(s.categories, {c.id}, Ids(cs[1..]));
        WithLog(line, DeleteCategories(DeleteCategory(s, c), cs[1..], acc.(categories := acc.categories + 1), step + 1, verbosity, fault))
  }

  /** The stored plugins once every fetched Module plugin and its tree are gone. */
  function LiveAfter(s: Store): set<PluginId>
  {
    s.live - AllSpans(s.modules)
  }

  /** The categories the transaction deletes: with --remove-categories, those
      whose plugin query finds nothing once all module deletions are done. */
  function Doomed(s: Store, removeCategories: bool): seq<Category>
  {
    if removeCategories then EmptyOnes(s.categories, LiveAfter(s)) else []
  }

  /** How many store writes a complete transaction performs. */
  function WriteCount(s: Store, removeCategories: bool): nat
  {
    |s.modules| + |Doomed(s, removeCategories)|
  }

  /** `_delete_plugins` over the fetched Module plugin table of `s`. The empty
      categories are all chosen before the first category is deleted. */
  function DeletePlugins(s: Store, removeCategories: bool, verbosity: Verbosity, fault: Fault): (r: Run)
    ensures r.Failed? <==> fault.WriteFault? && fault.at < WriteCount(s, removeCategories)
    ensures r.Failed? ==> r.cause == fault.cause
    ensures r.Done? ==> r.store.live == LiveAfter(s) && r.store.modules == []
    ensures r.Done? ==> r.store.categories == WithoutIds(s.categories, Ids(Doomed(s, removeCategories)))
    ensures r.Done? ==> r.counts.modules == |s.modules| && r.counts.categories == |Doomed(s, removeCategories)|
    ensures r.Done? ==> r.counts.children == Recounts(s.live, s.modules)
    ensures verbosity < 2 ==> r.log == []
  {
    RootsCovered(s.modules);
    WithoutSpanOfInsiders(s.modules, AllSpans(s.modules));
    var afterModules := DeleteModules(s, s.modules, Counts(0, 0, 0), 0, verbosity, fault);
    if afterModules.Failed? || !removeCategories then
      assert Ids([]) == {};
      WithoutNoIds(s.categories);
      afterModules
    else
      var t := afterModules.store;
      var empty := EmptyOnes(t.categories, t.live);
      WithLog(afterModules.log, DeleteCategories(t, empty, afterModules.counts, |s.modules|, verbosity, fault))
  }

  /** Over disjoint trees, the children counted one row at a time, each just
      before its deletion, add up to the summary's count taken before any
      deletion. */
  lemma {:induction false} DeletedChildrenMatchSummary(live: set<PluginId>, ms: seq<ModulePlugin>)
    requires DisjointTrees(ms)
    ensures Recounts(live, ms) == ChildTotal(live, ms)
  {
    if ms != [] {
      var m := ms[0];
      assert DisjointTrees(ms[1..]);
      DeletedChildrenMatchSummary(live - Span(m), ms[1..]);
      forall i | 0 <= i < |ms[1..]|
        ensures Span(ms[1..][i]) !! Span(m)
      {
        assert Span(ms[0]) !! Span(ms[i + 1]);
      }
      ChildTotalIgnoresOtherTrees(live, Span(m), ms[1..]);
    }
  }

  /** A transaction that completes on a well-formed store reports the
      summary's child count and deletes exactly the categories left empty. */
  lemma DeletePluginsOnValidStore(s: Store, removeCategories: bool, verbosity: Verbosity, fault: Fault)
    requires Valid(s)
    ensures var r := DeletePlugins(s, removeCategories, verbosity, fault);
      r.Done? ==>
        && r.counts.children == ChildTotal(s.live, s.modules)
        && r.store.categories == (if removeCategories then NonEmptyOnes(s.categories, LiveAfter(s)) else s.categories)
  {
    DeletedChildrenMatchSummary(s.live, s.modules);
    DeletingEmptyOnesLeavesNonEmptyOnes(s.categories, LiveAfter(s));
    WithoutNoIds(s.categories);
    assert Ids([]) == {};
  }
}
