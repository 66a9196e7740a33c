/**
 The `remove_modules` management command: count, report, ask, then delete in one
 transaction that is rolled back on any failure.
 */
module Command {
  import opened Wrappers
  import opened Database
  import opened Messages
  import opened Confirmation
  import opened Deletion

  /** The parsed command-line flags. */
  datatype Options = Options(dryRun: bool, removeCategories: bool, force: bool, verbosity: Verbosity)

  /** How the command ends: `Error` is a `CommandError` with its message. */
  datatype Outcome = Ok | Cancelled | NoModules | Error(message: string)

  /** The store after the command, how it ended, the counters of a committed
      deletion, and the console lines (the prompt included) in order. */
  datatype Report = Report(store: Store, outcome: Outcome, deleted: Option<Counts>, output: seq<Msg>)

  const UnexpectedError: string := "Unexpected error: "
  const DeletionError: string := "Error during deletion: "

  function When(b: bool, m: Msg): seq<Msg>
  {
    if b then [m] else []
  }

  function BreakdownLines(live: set<PluginId>, ms: seq<ModulePlugin>): seq<Msg>
  {
    if ms == [] then []
    else [BreakdownLine(ms[0].name, ms[0].id, ChildCount(live, ms[0]))] + BreakdownLines(live, ms[1..])
  }

  /** The per-module lines printed at verbosity 2 before any deletion. */
  function Breakdown(live: set<PluginId>, ms: seq<ModulePlugin>, verbosity: Verbosity): seq<Msg>
  {
    if verbosity >= 2 then [BreakdownHeader] + BreakdownLines(live, ms) else []
  }

  /** The up-front summary; its category count is every category, not only the
      empty ones. */
  function Summary(opts: Options, s: Store): seq<Msg>
  {
    When(opts.verbosity >= 1, FoundModules(|s.modules|, ChildTotal(s.live, s.modules)))
    + When(opts.verbosity >= 1 && opts.removeCategories, FoundCategories(|s.categories|))
  }

  function Prompt(opts: Options, s: Store): Msg
  {
    var children := ChildTotal(s.live, s.modules);
    ConfirmPrompt(|s.modules| + children, |s.modules|, children,
                  if opts.removeCategories then Some(|s.categories|) else None)
  }

  /** The command run once against `s`, with `response` the line typed at the
      prompt (read only when the prompt is shown) and `fault` the database
      failure, if any. */
  function Handle(opts: Options, s: Store, response: string, fault: Fault): (r: Report)
    ensures opts.dryRun ==> r.store == s
    ensures r.store != s ==> !opts.dryRun && (opts.force || Confirms(response))
    ensures !r.outcome.Ok? ==> r.store == s && r.deleted == None
    ensures r.deleted.Some? ==> r.outcome == Ok && !opts.dryRun
  {
    if fault.QueryFault? then
      Report(s, Error(UnexpectedError + fault.cause), None, [])
    else if |s.modules| == 0 then
      Report(s, NoModules, None, When(opts.verbosity >= 1, NoModulesFound))
    else
      var rest := AfterSummary(opts, s, response, fault);
      rest.(output := Summary(opts, s) + rest.output)
  }

  /** Everything after the summary: the dry-run stop, the confirmation, the
      breakdown and the transaction. */
  function AfterSummary(opts: Options, s: Store, response: string, fault: Fault): Report
  {
    var breakdown := Breakdown(s.live, s.modules, opts.verbosity);
    if opts.dryRun then
      Report(s, Ok, None,
             When(opts.verbosity >= 1, DryRunMode) + breakdown + When(opts.verbosity >= 1, DryRunCompleted))
    else
      var asked := if opts.force then [] else [Prompt(opts, s)];
      if !opts.force && !Confirms(response) then
        Report(s, Cancelled, None, asked + When(opts.verbosity >= 1, OperationCancelled))
      else
        match DeletePlugins(s, opts.removeCategories, opts.verbosity, fault)
        case Failed(cause, log) =>
          Report(s, Error(UnexpectedError + DeletionError + cause), None, asked + breakdown + log)
        case Done(after, counts, log) =>
          Report(after, Ok, Some(counts),
                 asked + breakdown + log
                 + When(opts.verbosity >= 1, DeletedPlugins(counts.modules, counts.children))
                 + When(opts.verbosity >= 1 && opts.removeCategories && counts.categories > 0,
                        DeletedCategories(counts.categories)))
  }

  /** The transaction is entered: the queries succeeded, there is something to
      delete, this is not a dry run, and the run is forced or confirmed. */
  predicate Proceeds(opts: Options, s: Store, response: string, fault: Fault)
  {
    !fault.QueryFault? && |s.modules| > 0 && !opts.dryRun && (opts.force || Confirms(response))
  }

  /** The fault, if any, is one the transaction never reaches. */
  predicate Spares(fault: Fault, s: Store, removeCategories: bool)
  {
    !(fault.WriteFault? && fault.at < WriteCount(s, removeCategories))
  }

  /** The guards in order: a failing query, then no Module plugins, then dry run,
      then the confirmation; past them the outcome is decided by the fault alone. */
  lemma GuardsInOrder(opts: Options, s: Store, response: string, fault: Fault)
    ensures var r := Handle(opts, s, response, fault);
      fault.QueryFault? ==> r.outcome == Error(UnexpectedError + fault.cause) && r.output == []
    ensures var r := Handle(opts, s, response, fault);
      !fault.QueryFault? && |s.modules| == 0 ==> r.outcome == NoModules
    ensures var r := Handle(opts, s, response, fault);
      !fault.QueryFault? && |s.modules| > 0 && opts.dryRun ==> r.outcome == Ok
    ensures var r := Handle(opts, s, response, fault);
      (!fault.QueryFault? && |s.modules| > 0 && !opts.dryRun && !opts.force && !Confirms(response))
        ==> r.outcome == Cancelled
    ensures var r := Handle(opts, s, response, fault);
      Proceeds(opts, s, response, fault) ==>
        (r.outcome == Ok <==> Spares(fault, s, opts.removeCategories))
        && (r.outcome.Error? <==> !Spares(fault, s, opts.removeCategories))
  {
  }

  /** With no Module plugins the command only warns (at verbosity 1 or more),
      whatever the other flags, and the store is untouched. */
  lemma NoModulesTouchesNothing(opts: Options, s: Store, response: string, fault: Fault)
    requires !fault.QueryFault? && |s.modules| == 0
    ensures var r := Handle(opts, s, response, fault);
      && r.store == s
      && r.outcome == NoModules
      && r.deleted == None
      && r.output == (if opts.verbosity >= 1 then [NoModulesFound] else [])
  {
  }

  /** With --remove-categories at verbosity 1 or more, the summary announces
      every category as one that will be removed, before anything is known
      about which ones end up empty. */
  lemma SummaryCountsEveryCategory(opts: Options, s: Store, response: string, fault: Fault)
    requires !fault.QueryFault? && |s.modules| > 0
    requires opts.removeCategories && opts.verbosity >= 1
    ensures var r := Handle(opts, s, response, fault);
      r.output[0] == FoundModules(|s.modules|, ChildTotal(s.live, s.modules))
      && r.output[1] == FoundCategories(|s.categories|)
  {
  }

  /** A dry run never changes the store and never asks for confirmation, even
      without --force; with --force it still deletes nothing. */
  lemma DryRunTouchesNothing(opts: Options, s: Store, response: string, fault: Fault)
    requires opts.dryRun
    ensures var r := Handle(opts, s, response, fault);
      r.store == s && r.deleted == None && !r.outcome.Cancelled?
    ensures var r := Handle(opts, s, response, fault);
      forall i :: 0 <= i < |r.output| ==> !r.output[i].ConfirmPrompt?
    ensures var r := Handle(opts, s, response, fault);
      !fault.QueryFault? && |s.modules| > 0 && opts.verbosity >= 1 ==>
        DryRunMode in r.output && r.output[|r.output| - 1] == DryRunCompleted
  {
    var r := Handle(opts, s, response, fault);
    if !fault.QueryFault? && |s.modules| > 0 {
      forall i | 0 <= i < |BreakdownLines(s.live, s.modules)|
        ensures BreakdownLines(s.live, s.modules)[i].BreakdownLine?
      {
        BreakdownLinesPointwise(s.live, s.modules);
      }
    }
  }

  lemma {:induction false} BreakdownLinesPointwise(live: set<PluginId>, ms: seq<ModulePlugin>)
    ensures |BreakdownLines(live, ms)| == |ms|
    ensures forall i :: 0 <= i < |ms| ==>
      BreakdownLines(live, ms)[i] == BreakdownLine(ms[i].name, ms[i].id, ChildCount(live, ms[i]))
  {
    if ms != [] {
      BreakdownLinesPointwise(live, ms[1..]);
    }
  }

  /** Any answer other than "yes" in some mix of cases ends the command cleanly
      after the prompt, with the store untouched. */
  lemma DeclinedConfirmationTouchesNothing(opts: Options, s: Store, response: string, fault: Fault)
    requires !fault.QueryFault? && |s.modules| > 0 && !opts.dryRun && !opts.force
    requires !Confirms(response)
    ensures var r := Handle(opts, s, response, fault);
      && r.store == s
      && r.outcome == Cancelled
      && r.deleted == None
      && Prompt(opts, s) in r.output
      && (opts.verbosity >= 1 ==> r.output[|r.output| - 1] == OperationCancelled)
  {
  }

  /** On a well-formed store the prompt's total is the number of stored plugins
      the deletion removes: the Module plugins plus their descendants, roots not
      counted twice; its category figure is every category. */
  lemma PromptAnnouncesWhatIsRemoved(opts: Options, s: Store, response: string, fault: Fault)
    requires Valid(s)
    requires !fault.QueryFault? && |s.modules| > 0 && !opts.dryRun && !opts.force
    ensures var r := Handle(opts, s, response, fault);
      var p := Prompt(opts, s);
      && p in r.output
      && p.total == |s.live * AllSpans(s.modules)|
      && p.modules == |s.modules|
      && p.withCategories == (if opts.removeCategories then Some(|s.categories|) else None)
      && (r.outcome == Ok ==> |s.live| - |r.store.live| == p.total)
  {
    PluginTotalCountsCoveredPlugins(s.live, s.modules);
    var r := Handle(opts, s, response, fault);
    if r.outcome == Ok {
      assert r.store.live == s.live - AllSpans(s.modules);
      RemovedCount(s.live, AllSpans(s.modules));
    }
  }

  lemma RemovedCount(live: set<PluginId>, gone: set<PluginId>)
    ensures |live - gone| == |live| - |live * gone|
  {
    assert live == (live - gone) + (live * gone);
    assert (live - gone) !! (live * gone);
  }

  /** A committed run deletes every Module plugin and its tree, whatever the
      store holds, and reports one deleted Module plugin per row and the
      children counted just before each row's deletion. */
  lemma CompletedRunDeletesEveryModule(opts: Options, s: Store, response: string, fault: Fault)
    requires Proceeds(opts, s, response, fault) && Spares(fault, s, opts.removeCategories)
    ensures var r := Handle(opts, s, response, fault);
      && r.outcome == Ok
      && r.store.modules == []
      && r.store.live == s.live - AllSpans(s.modules)
      && r.deleted.Some?
      && r.deleted.value.modules == |s.modules|
      && r.deleted.value.children == Recounts(s.live, s.modules)
      && (opts.verbosity >= 1 ==>
            DeletedPlugins(|s.modules|, Recounts(s.live, s.modules)) in r.output)
  {
  }

  /** On a well-formed store the completion line repeats the numbers of the
      summary printed before the deletion. */
  lemma CompletedRunRepeatsSummaryCounts(opts: Options, s: Store, response: string, fault: Fault)
    requires Valid(s)
    requires Proceeds(opts, s, response, fault) && Spares(fault, s, opts.removeCategories)
    ensures var r := Handle(opts, s, response, fault);
      && r.deleted.Some?
      && r.deleted.value.children == ChildTotal(s.live, s.modules)
      && (opts.verbosity >= 1 ==>
            && FoundModules(|s.modules|, ChildTotal(s.live, s.modules)) in r.output
            && DeletedPlugins(|s.modules|, ChildTotal(s.live, s.modules)) in r.output)
  {
    DeletePluginsOnValidStore(s, opts.removeCategories, opts.verbosity, fault);
  }

  /** With --remove-categories and distinct category ids, a committed run
      deletes exactly the categories whose plugin query finds nothing once every
      Module plugin is gone, keeps every other one, and counts the deleted ones. */
  lemma EmptyCategoriesExactlyRemoved(opts: Options, s: Store, response: string, fault: Fault)
    requires DistinctIds(s.categories) && opts.removeCategories
    requires Proceeds(opts, s, response, fault) && Spares(fault, s, opts.removeCategories)
    ensures var r := Handle(opts, s, response, fault);
      && r.store.categories == NonEmptyOnes(s.categories, LiveAfter(s))
      && (forall c :: c in s.categories ==>
            (c in r.store.categories <==> RemainingPlugins(LiveAfter(s), c) != {}))
      && r.deleted.Some?
      && r.deleted.value.categories == |s.categories| - |r.store.categories|
  {
    DeletingEmptyOnesLeavesNonEmptyOnes(s.categories, LiveAfter(s));
  }

  /** Without --remove-categories a committed run leaves every category in place
      and reports none deleted. */
  lemma CategoriesKeptWithoutFlag(opts: Options, s: Store, response: string, fault: Fault)
    requires !opts.removeCategories
    requires Proceeds(opts, s, response, fault) && Spares(fault, s, opts.removeCategories)
    ensures var r := Handle(opts, s, response, fault);
      r.store.categories == s.categories && r.deleted.Some? && r.deleted.value.categories == 0
  {
  }

  /** A failure at any write of the transaction leaves the store exactly as it
      was, and the deletion error arrives wrapped a second time by the outer
      handler. */
  lemma FailedDeletionRollsBack(opts: Options, s: Store, response: string, fault: Fault)
    requires Proceeds(opts, s, response, fault) && !Spares(fault, s, opts.removeCategories)
    ensures var r := Handle(opts, s, response, fault);
      && r.store == s
      && r.outcome == Error(UnexpectedError + DeletionError + fault.cause)
      && r.deleted == None
  {
    var run := DeletePlugins(s, opts.removeCategories, opts.verbosity, fault);
    assert run.Failed? && run.cause == fault.cause;
    assert AfterSummary(opts, s, response, fault).outcome == Error(UnexpectedError + DeletionError + fault.cause);
    assert AfterSummary(opts, s, response, fault).store == s;
  }
}
