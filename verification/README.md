# remove_modules, modelled in Dafny

This project models the `remove_modules` management command of djangocms-modules.
The command deletes every Module plugin, and each plugin's tree of child plugins.
When asked, it also deletes the categories that are left empty.
It has a dry-run mode and an interactive confirmation.
All deletion happens in one database transaction.

The model is functional. The database is an immutable `Store` value:
- the set of plugin ids still stored;
- the Module plugin table, where each row has an id, a name and the ids of its plugin tree;
- the category table, where each category has the plugin ids of its placeholder.

The cascade of `delete()` removes the root and its tree from the stored ids.
A category's `get_plugins().count()` is the size of its plugin set intersected with the stored ids.
`Command.Handle` takes four inputs: the flags, the store, the line typed at the prompt, and a `Fault`.
The fault says which database call raises, if any.
It returns the final store, the outcome (`Ok`, `Cancelled`, `NoModules` or `Error(message)`), the deletion counters of a committed run, and the console lines as tagged messages.
`Messages.Render` turns those messages into the printed text.

Modules, one per part of `djangocms_modules/management/commands/remove_modules.py`:
- `Plurals` (pluralize.dfy): `pluralize` and the `split(',', 1)` it relies on.
- `Confirmation` (confirmation.dfy): the `confirmation.lower() != 'yes'` test.
- `Messages` (messages.dfy): the lines the command writes and their text.
- `Database` (database.dfy): the abstract store and the ORM operations the command calls.
- `Deletion` (deletion.dfy): `Command._delete_plugins`, with failure injection.
- `Command` (command.dfy): `Command.handle`: guards, summary, confirmation, breakdown, transaction and error wrapping.
- `Wrappers` (wrappers.dfy): `Option`.

Behaviour kept as the code has it:
- `pluralize(1, "y,ies")` is `""`, so one category prints as "categor".
- The category count in the summary and in the prompt is every category, not only the empty ones.
- The prompt's "(N Module plugins and M child plugins)" is never pluralised.
- A deletion failure is reported as "Unexpected error: Error during deletion: <cause>". The outer handler catches the inner `CommandError` and wraps it again.

## Model

| member | source | states |
|---|---|---|
| Plurals.SplitFirst | djangocms_modules/management/commands/remove_modules.py:24 | the two parts put back together with the comma give the argument again, and the first part holds no comma, so the split is at the first comma |
| Plurals.Pluralize | djangocms_modules/management/commands/remove_modules.py:8-27 | "" when the value is 1; otherwise the argument itself when it has no comma, else the text after its first comma |
| Plurals.PluralizeTakesTextAfterFirstComma | djangocms_modules/management/commands/remove_modules.py:23-25 | for a count other than 1 and any comma-free singular, `singular + "," + plural` gives exactly `plural`, even when `plural` holds further commas |
| Plurals.PluralizeOneIsEmpty | djangocms_modules/management/commands/remove_modules.py:20-21 | a count of 1 gives "" for every argument, the irregular "y,ies" included |
| Plurals.PluralizeDefault | djangocms_modules/management/commands/remove_modules.py:8-27 | with the default argument: "" for 1 and "s" for every other count, zero included |
| Plurals.PluralizeCategory | djangocms_modules/management/commands/remove_modules.py:20-25 | "y,ies" gives "" for 1 and "ies" for every other count; it never gives "y" |
| Plurals.PluralizeKeepsLaterCommas | djangocms_modules/management/commands/remove_modules.py:23-25 | "a,b,c" gives "b,c" for any count other than 1 |
| Confirmation.LowerChar | djangocms_modules/management/commands/remove_modules.py:117 | the result is never an upper-case ASCII letter; a character changes if and only if it is an upper-case letter, which becomes the lower-case letter at the same place in the alphabet |
| Confirmation.Lower | djangocms_modules/management/commands/remove_modules.py:117 | the result has the same length as the input, and each character is the ASCII lowercase of the input character at that position |
| Confirmation.Confirms | djangocms_modules/management/commands/remove_modules.py:116-122 | a response confirms if and only if it has exactly three characters, y/Y then e/E then s/S; any other response cancels |
| Messages.Decimal | djangocms_modules/management/commands/remove_modules.py:92-93 | the count is written as decimal digits without leading zeros, and those digits denote the count |
| Messages.Render | djangocms_modules/management/commands/remove_modules.py:72-161 | every line is non-empty; the summary, breakdown, per-module and category-deletion lines end each counted noun in "s" ("ies" for the category stem "categor") unless the count is exactly one, and then add nothing |
| Messages.OneCategoryReadsCategor | djangocms_modules/management/commands/remove_modules.py:95-99 | one category is announced, and reported deleted, with the bare stem "categor" |
| Messages.PromptParentheticalNotPluralised | djangocms_modules/management/commands/remove_modules.py:108-111 | for every count, ones included, the prompt contains "<m> Module plugins and <c> child plugins)" with plural nouns |
| Database.DeleteModule | djangocms_modules/management/commands/remove_modules.py:189 | deleting a Module plugin removes its root and its tree from the stored plugins and nothing else; the row itself, and any row whose root was in that tree, leaves the table while every other row stays; categories are untouched |
| Database.DeleteCategory | djangocms_modules/management/commands/remove_modules.py:212 | deleting a category removes from the table exactly the rows with its id, the category itself included, and touches no plugin or Module plugin |
| Database.EmptyOnes | djangocms_modules/management/commands/remove_modules.py:196-207 | a category is selected if and only if it is in the table and its plugin query finds nothing |
| Database.NonEmptyOnes | djangocms_modules/management/commands/remove_modules.py:196-207 | a category is kept if and only if it is in the table and still holds a stored plugin; kept plus selected categories number the whole table |
| Database.DeleteFirstModuleLeavesRest | djangocms_modules/management/commands/remove_modules.py:176-189 | when trees are disjoint, deleting the first Module plugin removes that row and no other row |
| Database.ChildTotalIgnoresOtherTrees | djangocms_modules/management/commands/remove_modules.py:176-180 | deleting plugins outside every tree of the remaining rows leaves each row's child count unchanged, and so also their sum |
| Database.PluginTotalCountsCoveredPlugins | djangocms_modules/management/commands/remove_modules.py:77-87 | when trees are disjoint and roots are stored, the module count plus the summed descendant counts (root excluded) equals the number of stored plugins the trees cover |
| Database.DeletingEmptyOnesLeavesNonEmptyOnes | djangocms_modules/management/commands/remove_modules.py:197-213 | when category ids are distinct, deleting by id the categories found empty leaves exactly the non-empty ones, in their original order |
| Deletion.DeleteModules | djangocms_modules/management/commands/remove_modules.py:175-192 | the loop fails exactly when the armed write falls within its writes, with that cause; otherwise it removes every tree, leaves no deleted row in the table, keeps the categories, counts one module per row, and adds up the children counted just before each row's deletion |
| Deletion.DeleteCategories | djangocms_modules/management/commands/remove_modules.py:209-213 | the loop fails exactly when the armed write falls within its writes; otherwise it deletes by id exactly the given categories, counts them, and touches no plugin or module |
| Deletion.DeletePlugins | djangocms_modules/management/commands/remove_modules.py:167-215 | the transaction fails exactly when the armed write is below the module count plus the number of categories judged empty once all modules are gone; otherwise the Module plugin table is empty, every tree is gone, exactly the categories judged empty are deleted, one module is counted per row, and the children are the sum of the counts taken just before each row's deletion |
| Deletion.DeletedChildrenMatchSummary | djangocms_modules/management/commands/remove_modules.py:176-192 | when trees are disjoint, the children counted just before each deletion add up to the child count the summary measured before any deletion |
| Deletion.DeletePluginsOnValidStore | djangocms_modules/management/commands/remove_modules.py:167-215 | a completed transaction on a well-formed store reports the summary's child count and leaves exactly the non-empty categories, or every category without the flag |
| Command.Handle | djangocms_modules/management/commands/remove_modules.py:57-165 | a dry run never changes the store; the store changes only when the run is not a dry run and is forced or confirmed; every outcome other than `Ok` leaves the store as it was |
| Command.GuardsInOrder | djangocms_modules/management/commands/remove_modules.py:63-165 | a failing query gives "Unexpected error: <cause>", then no modules gives `NoModules`, then dry run gives `Ok`, then a declined prompt gives `Cancelled`; past these guards the outcome is `Ok` if and only if no write fails |
| Command.NoModulesTouchesNothing | djangocms_modules/management/commands/remove_modules.py:70-75 | with no Module plugins, under any flags, the store is unchanged, nothing is counted, and the only line is the warning at verbosity 1 or more |
| Command.SummaryCountsEveryCategory | djangocms_modules/management/commands/remove_modules.py:89-99 | the summary reports the module and child counts, and gives every category as one "that will be removed" |
| Command.DryRunTouchesNothing | djangocms_modules/management/commands/remove_modules.py:101-105 | a dry run, even with --force, leaves the store unchanged, counts nothing and never prompts; at verbosity 1 or more it announces dry-run mode and ends with the completion line |
| Command.DeclinedConfirmationTouchesNothing | djangocms_modules/management/commands/remove_modules.py:106-122 | a response other than "yes" in some case mix gives `Cancelled` after the prompt, with the store unchanged, and ends with "Operation cancelled." at verbosity 1 or more |
| Command.PromptAnnouncesWhatIsRemoved | djangocms_modules/management/commands/remove_modules.py:77-116 | on a well-formed store the prompt's total equals the number of stored plugins the trees cover; a committed run removes exactly that many plugins; the prompt's category figure is every category |
| Command.CompletedRunDeletesEveryModule | djangocms_modules/management/commands/remove_modules.py:134-148 | for any store, a forced or confirmed run that no fault interrupts ends `Ok` with no Module plugin left and every tree removed; it reports one deleted module per row and the children counted just before each row's deletion |
| Command.CompletedRunRepeatsSummaryCounts | djangocms_modules/management/commands/remove_modules.py:142-148 | on a well-formed store, the deleted-children counter of a committed run equals the summary's child count, and the summary line and the completion line show the same module and child counts |
| Command.EmptyCategoriesExactlyRemoved | djangocms_modules/management/commands/remove_modules.py:194-213 | with --remove-categories, on any store whose category ids are distinct, a category survives if and only if its plugin query still finds something once every Module plugin is gone; the survivors keep their order and the counter equals the number removed |
| Command.CategoriesKeptWithoutFlag | djangocms_modules/management/commands/remove_modules.py:194-195 | on any store, without --remove-categories a committed run changes no category and reports 0 categories deleted |
| Command.FailedDeletionRollsBack | djangocms_modules/management/commands/remove_modules.py:134-165 | a failure at any write of the transaction leaves the store exactly as it was and ends in `Error` with "Unexpected error: " + "Error during deletion: " + cause |
| Command.BreakdownLinesPointwise | djangocms_modules/management/commands/remove_modules.py:124-132 | the verbosity-2 breakdown has one line per Module plugin, in table order, giving its name, id and current child count |

## Left out

- Argument parsing (`add_arguments`, `--help`): the flags arrive already parsed, with verbosity restricted to 0, 1 or 2.
- Console output: styling (`self.style.*`) and the real writes are not modelled. Lines are tagged messages with a rendering to text. The prompt passed to `input()` is one of those messages.
- Unicode lowercasing: only ASCII letters are lowercased.
- The ORM: the tree query, `exclude(pk=…)`, the cascading `delete()` and the category's plugin query are modelled as operations on the abstract store. `models.py` is not part of this model.
- `transaction.atomic`: rollback is modelled as returning the store the command started with.
- Where a failure before the transaction happens: it is modelled as the first query failing, with nothing printed before it. A failure in the verbosity-2 breakdown has the same outcome and store, but the lines printed before it are not modelled.
- Failures inside the transaction other than a deletion raising: a failing query, or a failing console write, is not a separate case. Its outcome and store are the same as for a failing deletion.
- Exceptions that are not `Exception` (for example `KeyboardInterrupt` at the prompt) are not modelled.
- Category deletion removes only the row. Categories are deleted only when their plugin query finds nothing, so no plugin is affected.
- Deletion.DeletedChildrenMatchSummary: the child-count agreement is proved only when Module plugin trees are disjoint. When trees overlap, the counts depend on tree semantics that `models.py` defines.
- Command.CompletedRunRepeatsSummaryCounts: the agreement with the summary is stated only for well-formed stores. These have disjoint trees, stored roots and distinct category ids.
