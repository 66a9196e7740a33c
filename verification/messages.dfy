/**
 The lines the command writes, as tags carrying the numbers and names they show,
 and their rendering into the text the command prints.
 */
module Messages {
  import opened Wrappers
  import opened Plurals

  datatype Msg =
    | NoModulesFound
    | FoundModules(modules: nat, children: nat)
    | FoundCategories(categories: nat)
    | DryRunMode
      /** The confirmation prompt; `withCategories` is present with --remove-categories. */
    | ConfirmPrompt(total: nat, modules: nat, children: nat, withCategories: Option<nat>)
    | OperationCancelled
    | BreakdownHeader
    | BreakdownLine(name: string, id: nat, children: nat)
    | DeletingModule(name: string, children: nat)
    | DeletingCategory(name: string)
    | DeletedPlugins(modules: nat, children: nat)
    | DeletedCategories(categories: nat)
    | DryRunCompleted

  function DigitChar(d: nat): (c: char)
    requires d < 10
    ensures '0' <= c <= '9'
  {
    ('0' as int + d) as char
  }

  /** The number a string of decimal digits denotes, most significant first. */
  function DigitsValue(s: string): int
  {
    if s == [] then 0 else DigitsValue(s[..|s| - 1]) * 10 + (s[|s| - 1] as int - '0' as int)
  }

  /** Python's `str(n)` for a non-negative integer: the digits that denote `n`,
      without leading zeros. */
  function Decimal(n: nat): (r: string)
    ensures |r| >= 1
    ensures forall i :: 0 <= i < |r| ==> '0' <= r[i] <= '9'
    ensures n > 0 ==> r[0] != '0'
    ensures |r| > 1 ==> r[0] != '0'
    ensures DigitsValue(r) == n
  {
    if n < 10 then
      [DigitChar(n)]
    else
      var high := Decimal(n / 10);
      var r := high + [DigitChar(n % 10)];
      assert r[..|r| - 1] == high;
      r
  }

  function PromptHead(total: nat): string
  {
    "This will permanently delete " + Decimal(total) + " plugin" + Pluralize(total)
  }

  /** The breakdown in the prompt; its nouns are written plural whatever the counts. */
  function PromptParenthetical(modules: nat, children: nat): string
  {
    "(" + Decimal(modules) + " Module plugins and " + Decimal(children) + " child plugins)"
  }

  function PromptCategories(categories: Option<nat>): string
  {
    match categories
    case Some(n) => " and " + Decimal(n) + " categor" + Pluralize(n, "y,ies")
    case None => ""
  }

  const PromptQuestion: string := ".\n\nAre you sure? Type \"yes\" to continue: "

  function PromptText(total: nat, modules: nat, children: nat, categories: Option<nat>): string
  {
    PromptHead(total) + " " + PromptParenthetical(modules, children) + PromptCategories(categories) + PromptQuestion
  }

  /** The text of each line. Every line is non-empty; a counted noun takes its
      plural ending unless the count is exactly one, and the category noun then
      keeps only its stem "categor". */
  function Render(m: Msg): (r: string)
    ensures |r| > 0
    ensures m.FoundModules? ==>
      r == "Found " + Decimal(m.modules) + " Module plugin" + (if m.modules == 1 then "" else "s")
        + " with " + Decimal(m.children) + " child plugin" + (if m.children == 1 then "" else "s")
    ensures m.FoundCategories? ==>
      r == "Found " + Decimal(m.categories) + " categor" + (if m.categories == 1 then "" else "ies") + " that will be removed"
    ensures m.BreakdownLine? ==>
      r == "  Module \"" + m.name + "\" (ID: " + Decimal(m.id) + ") has "
        + Decimal(m.children) + " child plugin" + (if m.children == 1 then "" else "s")
    ensures m.DeletingModule? ==>
      r == "Deleting Module \"" + m.name + "\" and " + Decimal(m.children) + " child plugin"
        + (if m.children == 1 then "" else "s") + "..."
    ensures m.DeletedCategories? ==>
      r == "Successfully deleted " + Decimal(m.categories) + " empty categor" + (if m.categories == 1 then "" else "ies")
  {
    match m
    case NoModulesFound =>
      "No Module plugins found to remove."
    case FoundModules(modules, children) =>
      PluralizeDefault(modules);
      PluralizeDefault(children);
      "Found " + Decimal(modules) + " Module plugin" + Pluralize(modules)
      + " with " + Decimal(children) + " child plugin" + Pluralize(children)
    case FoundCategories(n) =>
      PluralizeCategory(n);
      "Found " + Decimal(n) + " categor" + Pluralize(n, "y,ies") + " that will be removed"
    case DryRunMode =>
      "DRY RUN MODE - No changes will be made"
    case ConfirmPrompt(total, modules, children, categories) =>
      PromptText(total, modules, children, categories)
    case OperationCancelled =>
      "Operation cancelled."
    case BreakdownHeader =>
      "Detailed breakdown:"
    case BreakdownLine(name, id, children) =>
      PluralizeDefault(children);
      "  Module \"" + name + "\" (ID: " + Decimal(id) + ") has "
      + Decimal(children) + " child plugin" + Pluralize(children)
    case DeletingModule(name, children) =>
      PluralizeDefault(children);
      "Deleting Module \"" + name + "\" and " + Decimal(children) + " child plugin"
      + Pluralize(children) + "..."
    case DeletingCategory(name) =>
      "Deleting empty category \"" + name + "\"..."
    case DeletedPlugins(modules, children) =>
      "Successfully deleted " + Decimal(modules) + " Module plugins, "
      + Decimal(children) + " child plugins"
    case DeletedCategories(n) =>
      PluralizeCategory(n);
      "Successfully deleted " + Decimal(n) + " empty categor" + Pluralize(n, "y,ies")
    case DryRunCompleted =>
      "Dry run completed. Use --force to skip confirmation."
  }

  /** A single category is announced with the bare stem "categor": the "y,ies"
      argument contributes nothing when the count is one. */
  lemma OneCategoryReadsCategor()
    ensures Render(FoundCategories(1)) == "Found " + Decimal(1) + " categor" + " that will be removed"
    ensures Render(DeletedCategories(1)) == "Successfully deleted " + Decimal(1) + " empty categor"
  {
    PluralizeOneIsEmpty("y,ies");
  }

  /** The prompt's parenthetical keeps the plural nouns whatever the counts,
      one included. */
  lemma PromptParentheticalNotPluralised(total: nat, modules: nat, children: nat, categories: Option<nat>)
    ensures exists head, tail ::
      Render(ConfirmPrompt(total, modules, children, categories))
        == head + (Decimal(modules) + " Module plugins and " + Decimal(children) + " child plugins)") + tail
  {
    var dm, l1, dc, l2 := Decimal(modules), " Module plugins and ", Decimal(children), " child plugins)";
    var x := PromptHead(total) + " ";
    var c, q := PromptCategories(categories), PromptQuestion;
    var middle := dm + l1 + dc + l2;
    var text := Render(ConfirmPrompt(total, modules, children, categories));
    assert text == x + PromptParenthetical(modules, children) + c + q;
    assert PromptParenthetical(modules, children) == "(" + middle by {
      Assoc("(", dm, l1);
      Assoc("(", dm + l1, dc);
      Assoc("(", dm + l1 + dc, l2);
    }
    assert text == (x + "(") + middle + (c + q) by {
      Assoc(x + ("(" + middle), c, q);
      Assoc(x, "(", middle);
    }
  }

  lemma Assoc(a: string, b: string, c: string)
    ensures a + b + c == a + (b + c)
  {
  }
}
