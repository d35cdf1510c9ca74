# Chart-of-accounts reconciliation, modelled in Dafny

This project models the core of a small Python tool that keeps a company's
chart of accounts in an Excel workbook in step with QuickBooks Desktop. It
covers three parts:

- **Reconciliation (`compare_account_types`).** The Excel accounts and the
  QuickBooks accounts are each indexed by `id`; when ids repeat, the last
  record wins. The result has three lists:
  - `added_chart_of_accounts`: the Excel accounts whose id QuickBooks lacks;
  - `qb_only`: the QuickBooks accounts whose id Excel lacks;
  - `conflicts`: one `data_mismatch` conflict per shared id whose name,
    number or account type differs.
  This is the documented behaviour, and it is the base model (`Compare`).
  The function body does more:
  - it splits the id conflicts into `name_mismatch` and `id_conflict`;
  - it adds secondary passes that match accounts by number and by name;
  - it adds `only_in_excel` conflicts;
  - it drops everything those passes touched from the one-sided lists.
  That behaviour is modelled separately (`CompareExtension`) and related
  to the base by its contract and lemmas.
- **Report assembly (`run_chart_of_accounts` and its helpers).** This part
  covers:
  - the dictionary shape of added-account and conflict entries;
  - the synthetic `missing_in_excel` entry for each QuickBooks-only account;
  - the count of identical shared records;
  - the report path;
  - the success/error payload built around the comparison (`Runner`).
- **Worksheet row cleaning (`read_payment_terms`).** The header row is
  skipped. A row with a missing first or second cell is skipped. Both cells
  are stripped of Python whitespace, and a row whose stripped name is empty
  is dropped (`ExcelReader`).

Files: `wrappers.dfy` (Option/Result), `models.dfy` (the record types),
`compare.dfy` (base reconciler), `compare_examples.dfy` (the docstring's worked
example and the one-account cases), `compare_extension.dfy` (the body's
secondary passes), `runner.dfy`, `excel_reader.dfy`.

Modelling choices:
- **Loop order.** The base conflict loop, the id, number and name passes and
  the counting loop iterate a Python `set`. They are modelled as loops that
  pick any remaining element (`var k :| k in pending`), and their contracts
  say nothing about order. For `Compare.CompareAccountTypes` and
  `CompareExtension.IdPass` they are set facts with distinct conflict ids.
  For the number and name loops (`CompareExtension.KeyPass`) they are facts
  per key: one Excel id can carry several conflicts, for example two Excel
  records with id "1" whose numbers each match a QuickBooks record of another
  id. The `only_in_excel` loop iterates `dict.items()` and is modelled as a
  loop in dictionary order (`CompareExtension.OnlyInExcelPass`).
- **Dictionaries.** A dict comprehension keyed by id becomes `IndexBy`, where
  the last record per key wins. `dict.items()` order becomes `Entries`: one
  record per distinct id, in the order each id is first seen.
- **External calls.** Workbook loading, the QuickBooks fetch and the batch add
  are given as `Result` values or a function parameter. The timestamp is a
  string parameter.

Where code and documentation disagree:
- **Reconciler contract.** The code of `compare_account_types` contradicts its
  docstring, worked example and test (`src/compare.py:58-82`, `86-109`,
  `test/test_compare.py:45-50`). The base model follows the documented
  contract. `CompareExtension` models what the body computes, with its
  conflicts built in the model's `Conflict` shape (see below: as written, the
  body's conflict constructions would fail).
- **Conflict shape.** The `Conflict` dataclass (`src/models.py:24-34`) has
  fields `AccountType`, `record_id` and `ConflictReason`. The reconciler
  instead builds conflicts with `excel_id`/`qb_id` keywords, which the
  dataclass does not accept, so every conflict construction in the body would
  raise `TypeError`. The runner reads `id`, `excel_AccountType`,
  `qb_AccountType` and `reason`. The model's `Conflict` follows the shape the
  docstring (`src/compare.py:62-73`) and the runner (`src/runner.py:31-39`)
  agree on:
  - an id;
  - the Excel type;
  - an optional QuickBooks type;
  - optional names and numbers for both sides;
  - a reason.
  The extension's conflicts use the Excel record's id and leave the
  QuickBooks type empty, because the body passes only the Excel
  `AccountType`.
- **Runner wiring.** The runner calls `excel_reader.extract_account`
  (`src/runner.py:110`), which `src/excel_reader.py` does not define, so as
  written the workbook step always fails; the model takes that step's outcome
  as a `Result` input. It also calls `compare.compare_accounts` and reads
  `comparison.excel_only`, and neither exists (`src/runner.py:114-118`). The
  model calls the base reconciler and uses its `added_chart_of_accounts`.
- **QB-only test.** The test at `test/test_compare.py:21` expects one conflict
  for a QuickBooks-only input. The comparison itself has none. The runner's
  combined conflicts list has exactly one: the `missing_in_excel` entry
  (`Runner.QbOnlyAccountGivesOneReportConflict`).
- **Worksheet columns.** The reader's docstring says names are in column C,
  but the code reads the name from the first cell and the type from the
  second (`src/excel_reader.py:50-51`). The model follows the code.
  `ExcelReader.FixtureSheet` shows the consequence the test relies on: the
  first name read from its fixture is the type text "Cost of Goods Sold".

## Model

| member | source | states |
|---|---|---|
| Models.SourceText | src/models.py:9 | an account's source is serialised as one of the two literals `excel` / `quickbooks` |
| Models.SourceFromText | src/models.py:9 | a literal is accepted exactly when it is `excel` or `quickbooks` |
| Models.SourceTextRoundTrip | src/models.py:9 | reading a serialised source back gives the same source |
| Models.ReasonText | src/models.py:10 | every reason is serialised as one of the seven literals `data_mismatch`, `only_in_excel`, `missing_in_excel`, `name_mismatch`, `id_conflict`, `number_conflict`, `name_conflict` |
| Models.ReasonTextRoundTrip | src/models.py:10 | each of the seven conflict reasons has its own literal, which reads back as that reason |
| Models.EmptyReport | src/models.py:37-43 | a default-constructed report has all three lists empty |
| Compare.IndexBy | src/compare.py:112-113 | the index's keys are exactly the keys present in the input, and each key maps to an input record carrying that key |
| Compare.IndexLastWins | src/compare.py:112-113 | when ids repeat, the index holds the last record with that id |
| Compare.KeyOrder | src/compare.py:112-113 | the dictionary's id order lists each input id exactly once |
| Compare.Entries | src/compare.py:112-113 | the dictionary's values: one retained record per distinct id, no id twice, the same id set as the input |
| Compare.EntriesFollowFirstSeen | src/compare.py:112-113 | the retained records are ordered by where each id first appeared |
| Compare.EntriesOfDistinct | src/compare.py:112-113 | with no repeated ids, the dictionary's values are the input in its own order |
| Compare.OnlyIn | src/compare.py:225-240 | the filter keeps exactly the entries whose id the other side lacks, and keeps ids distinct (its order is the contract of `Compare.OnlyInKeepsOrder`) |
| Compare.OnlyInKeepsOrder | src/compare.py:225-240 | the filter keeps the entries' order: two kept entries occur in the input in the order they are kept, and any two entries whose id the other side lacks are kept in their input order |
| Compare.SubsequenceOrder | src/compare.py:225-240 | a list drawn from positions of its input in increasing order keeps the input's order in both directions |
| Compare.AddedChartOfAccounts | src/compare.py:225-232 | the definition: the Excel dictionary's values, in dictionary order, whose id QuickBooks lacks; its contents are the contract of `Compare.OneSidedExactly` and its order that of `Compare.OneSidedFollowsFirstSeen` |
| Compare.QbOnly | src/compare.py:233-240 | the definition: the QuickBooks dictionary's values, in dictionary order, whose id Excel lacks; its contents are the contract of `Compare.OneSidedExactly` and its order that of `Compare.OneSidedFollowsFirstSeen` |
| Compare.OneSidedFollowsFirstSeen | src/compare.py:225-240 | of two ids the other side lacks, the one that first appeared earlier on its side comes first in the one-sided list, for both `added_chart_of_accounts` and `qb_only` |
| Compare.OneSidedExactly | src/compare.py:225-240 | a one-sided list holds exactly the retained records whose id the other side lacks, no id twice, its ids are this side's ids minus the other side's, and its length is that difference's size |
| Compare.DistinctIdsCard | src/compare.py:225-240 | a list with distinct ids is as long as its id set (from the generic `Compare.DistinctElementsCard`) |
| Compare.MismatchConflict | src/compare.py:62-73 | the definition of the documented conflict: the shared id, the Excel type, both sides' QuickBooks type, name and number, reason `data_mismatch`; `Compare.MismatchIsOneConflict` states these fields of each mismatching id's conflict |
| Compare.DistinctConflictIdsCard | src/compare.py:121-162 | a conflict list with distinct ids is as long as its id set (from the generic `Compare.DistinctElementsCard`) |
| Compare.CompareAccountTypes | src/compare.py:112-162 | `added_chart_of_accounts` and `qb_only` are the one-sided lists; every conflict is the `data_mismatch` conflict of one mismatching shared id; the conflicts' ids are exactly the mismatching shared ids, each once |
| Compare.ExcelIdsPartitioned | src/compare.py:77-82 | every distinct Excel id lands in exactly one place: `added_chart_of_accounts`, a conflict, or the silent perfect matches |
| Compare.QbIdsPartitioned | src/compare.py:77-82 | every distinct QuickBooks id lands in exactly one place: `qb_only`, a conflict, or the silent perfect matches |
| Compare.PerfectMatchIsSilent | src/compare.py:125-130 | a shared id whose name, number and type agree appears in none of the three lists |
| Compare.MismatchIsOneConflict | src/compare.py:58-73 | a shared id whose records differ has exactly one conflict, with reason `data_mismatch` and both sides' type, name and number, and is in neither one-sided list |
| Compare.DisjointIdsOnlyOneSided | src/compare.py:225-240 | with no shared ids there are no conflicts and each one-sided list is as long as its side's distinct-id count |
| Compare.EmptyInputsGiveEmptyReport | src/models.py:41-43 | two empty inputs give the default empty report |
| Compare.ComparisonIsDeterminedUpToConflictOrder | src/compare.py:121-162 | any two results for the same inputs have the same one-sided lists and the same conflicts up to order |
| CompareExamples.DocstringExample | src/compare.py:86-109 | for the worked example: ASSET/1 is added, LIABILITY/4 is QuickBooks-only, and the single conflict is id 2's `Expense` vs `Expenses` |
| CompareExamples.DocRetained | src/compare.py:88-98 | in the worked example each side's dictionary keeps, for ids 2 and 3, the one record it lists with that id |
| CompareExamples.DocIncomeSilent | src/compare.py:108-109 | in the worked example both sides keep identical records for INCOME/3, and id 3 is in none of the three lists |
| CompareExamples.OneAccountEachSide | test/test_compare.py:24-73 | one account per side: an identical pair gives the empty report, a pair differing in any field gives exactly its `data_mismatch` conflict, and different ids give one account in each one-sided list |
| CompareExtension.PairConflict | src/compare.py:171-202 | a number or name conflict carries the Excel id and type, both sides' names and numbers, no QuickBooks type, and the pass's reason; `CompareExtension.KeyPassPairs` states which pairs it is built from |
| CompareExtension.IdPassConflict | src/compare.py:131-162 | the id pass's conflict carries the Excel id, and its reason is `name_mismatch` exactly when number and type agree, `id_conflict` otherwise |
| CompareExtension.OnlyInExcelConflict | src/compare.py:206-222 | the Excel-only conflict carries the Excel id, type, name and number, no QuickBooks field, and reason `only_in_excel` |
| CompareExtension.OnlyInExcelConflictsAt | src/compare.py:209-222 | the i-th Excel-only conflict is the conflict of the i-th Excel-only account |
| CompareExtension.IdPass | src/compare.py:121-162 | one conflict per mismatching shared id, `name_mismatch` when number and type agree and `id_conflict` otherwise; the recorded ids are exactly those ids |
| CompareExtension.KeyPass | src/compare.py:164-204 | the recorded keys are exactly the shared numbers (or names) whose retained records have different ids; every conflict pairs the two records of one such key, every such key has its conflict, and there is one conflict per key |
| CompareExtension.KeyPassPairs | src/compare.py:164-204 | each number or name conflict pairs an Excel and a QuickBooks account with an equal key and different ids |
| CompareExtension.OnlyInExcelPass | src/compare.py:206-222 | one `only_in_excel` conflict per Excel id QuickBooks lacks, in the dictionary's order |
| CompareExtension.ExtensionOneSided | src/compare.py:225-240 | the body's one-sided comprehension keeps exactly the entries whose id the other side lacks, whose id no conflict recorded, and whose number and name no secondary pass touched |
| CompareExtension.ExtensionOneSidedIsUntouchedBase | src/compare.py:225-240 | the body's one-sided list equals the base one-sided list minus the accounts whose number or name a secondary pass touched |
| CompareExtension.Untouched | src/compare.py:229-231 | the filter keeps exactly the accounts whose number and name are both untouched |
| CompareExtension.UntouchedKeepsOrder | src/compare.py:225-240 | the filter keeps its input's order: kept accounts occur in the input in the order they are kept, and any two untouched accounts are kept in their input order |
| CompareExtension.UntouchedNothing | src/compare.py:229-231 | with nothing touched, the filter keeps the whole list |
| CompareExtension.ConflictsByReason | src/compare.py:115-222 | the four passes raise disjoint reasons, so a combined conflict with a given reason comes from that pass |
| CompareExtension.SecondaryComplete | src/compare.py:164-222 | in the combined list every conflicted number and name has its pair conflict and every Excel-only account its `only_in_excel` conflict |
| CompareExtension.SecondaryPasses | src/compare.py:115-222 | the four passes record exactly the mismatching ids and the conflicted numbers and names, and their combined list is a secondary conflict list: one conflict per mismatching id, per conflicted number, per conflicted name and per Excel-only account, each of its pass's shape |
| CompareExtension.CompareWithSecondaryPasses | src/compare.py:112-246 | the one-sided lists are the base lists minus the touched accounts, so they are contained in the base lists; the conflicts are a secondary conflict list: their count is the sum of the four passes' counts, each conflict is what its reason's pass promises, and every mismatching id, conflicted number, conflicted name and Excel-only account has its conflict |
| CompareExtension.SecondaryMatchesBaseWithoutCrossIdKeys | src/compare.py:225-240 | when no number or name is shared under different ids, the extension's one-sided lists are the base lists |
| Runner.ReportPath | src/runner.py:97 | the report path is the given output path when it is present and non-empty, and the default name otherwise |
| Runner.ReportPathNonEmpty | src/runner.py:18 | the chosen path is never empty |
| Runner.AccountToDict | src/runner.py:21-26 | an added-account entry has exactly the keys `id`, `name`, `number`, `type` and `source` |
| Runner.AccountDictRoundTrip | src/runner.py:21-26 | an added-account entry copies every field under its key, so it reads back as the same account |
| Runner.AccountDictDetermined | src/runner.py:21-26 | an entry with exactly the account keys that reads back is the entry of that account |
| Runner.ConflictToDict | src/runner.py:29-40 | a conflict entry has exactly the eight conflict keys |
| Runner.ConflictDictRoundTrip | src/runner.py:29-40 | a conflict entry copies every field under its key, so it reads back as the same conflict |
| Runner.MissingInExcelConflict | src/runner.py:43-58 | a synthetic entry has exactly the same eight keys as a conflict entry |
| Runner.MissingInExcelCarriesAccount | src/runner.py:43-58 | the synthetic entry carries the QuickBooks id, name, number and type, no Excel field, and reason `missing_in_excel` |
| Runner.MissingInExcelIsNotAConflict | src/runner.py:43-58 | a synthetic entry is never the entry of a comparison conflict |
| Runner.CountMatchingTerms | src/runner.py:60-74 | the count is the number of shared ids whose name, number and type all agree |
| Runner.SharedIdsSplit | src/runner.py:60-74 | the shared ids split into identical and mismatching ones, so their counts add up |
| Runner.SameAccountsPlusConflicts | src/runner.py:60-74 | the identical count plus the number of `data_mismatch` conflicts is the number of shared distinct ids |
| Runner.SameAccountsBounded | src/runner.py:65-69 | the identical count is at most each side's distinct-id count |
| Runner.InitialPayload | src/runner.py:99-106 | the initial payload has status `success`, no error, empty lists and a zero count |
| Runner.ErrorPayload | src/runner.py:135-138 | a failed run's payload has status `error`, the failure's message, empty lists and a zero count |
| Runner.AccountEntries | src/runner.py:131 | one entry per added account, in order: each is that account's entry, has exactly the five account keys, and reads back as that account |
| Runner.ConflictEntries | src/runner.py:123-125 | one entry per comparison conflict, in order: each is that conflict's entry, has exactly the eight conflict keys, and reads back as that conflict |
| Runner.MissingEntries | src/runner.py:126-128 | one synthetic entry per QuickBooks-only account, in order, carrying its id and not reading back as a conflict |
| Runner.PayloadConflictsLayout | src/runner.py:122-128 | the report's conflicts are the comparison's conflicts in order followed by one synthetic entry per QuickBooks-only account in order, and the length is the sum of the two counts |
| Runner.RunChartOfAccounts | src/runner.py:97-138 | the first failing step, in the order workbook, QuickBooks, batch add, yields the error payload with its message; otherwise the payload holds the batch add's accounts, the combined conflicts of a comparison of the two inputs and the identical count; the status is `success` exactly when all three steps succeed |
| Runner.PayloadStatusShape | src/runner.py:99-106 | status `success` holds exactly when there is no error, and an error payload has empty lists and a zero count |
| Runner.AddedListIsBatchResult | src/runner.py:117-119 | the added-accounts list reads back as what the batch add returned, not the comparison's Excel-only list |
| Runner.QbOnlyAccountGivesOneReportConflict | test/test_compare.py:5-21 | a QuickBooks-only account against an empty workbook gives no comparison conflict, and one report conflict, its `missing_in_excel` entry |
| ExcelReader.TrimStartCutsSpace | src/excel_reader.py:59 | trimming the start removes a whitespace run from the front and stops at a non-whitespace character |
| ExcelReader.TrimEndCutsSpace | src/excel_reader.py:59 | trimming the end removes a whitespace run from the back and stops at a non-whitespace character |
| ExcelReader.Strip | src/excel_reader.py:59-60 | the definition of `str.strip()`: trim the start, then the end; what it means is the contract of `ExcelReader.StripSplits` |
| ExcelReader.StripSplits | src/excel_reader.py:59-60 | the stripped text is the original with a whitespace run cut off each end, and has no whitespace at either end |
| ExcelReader.StripIdempotent | src/excel_reader.py:59-60 | stripping twice is stripping once |
| ExcelReader.StripEmptyIffAllSpace | src/excel_reader.py:61 | a text strips to the empty string exactly when it is all whitespace |
| ExcelReader.CleanRow | src/excel_reader.py:50-62 | a row yields an entry exactly when both cells are present and the stripped name is non-empty; the entry holds the two stripped texts |
| ExcelReader.CleanRows | src/excel_reader.py:47-62 | the definition: each row's cleaned entry, in row order, skipping rows that give none; `ExcelReader.CleanRowsFromKeptRows` states its meaning |
| ExcelReader.ReadPaymentTerms | src/excel_reader.py:47-67 | the result is the cleaned entries of the rows below the header, in row order |
| ExcelReader.CleanRowsFromKeptRows | src/excel_reader.py:47-67 | the entries correspond one to one, in order, to the rows that yield one, and a row is kept exactly when it yields one |
| ExcelReader.CleanRowsBound | src/excel_reader.py:47-62 | there are never more entries than data rows |
| ExcelReader.EntriesAreClean | src/excel_reader.py:58-62 | every entry has a non-empty name and no whitespace at either end of name or type, and both are the stripped cells of some row |
| ExcelReader.IncompleteRowSkipped | src/excel_reader.py:53-55 | a row with a missing first or second cell contributes nothing |
| ExcelReader.BlankTypeKept | src/excel_reader.py:60-62 | a complete row with a non-blank name is kept even when its type is blank |
| ExcelReader.HeaderIgnored | src/excel_reader.py:49 | the first sheet row is never read |
| ExcelReader.FixtureSheet | test/test_excel_reader.py:19-41 | on the fixture sheet the entries are ("Cost of Goods Sold", "Materials") and ("Expense", "Office Supplies"): the name comes from the first column |

## Left out

- Inputs are sequences, so they can be read more than once. The source takes `Iterable[Account]` and iterates the inputs again at `src/compare.py:165-166`, `186-187` and `207-208`; a one-shot iterator would look empty from line 165 on, which the model cannot show. Every caller in the repository passes a list.
- Workbook loading and sheet lookup (`src/excel_reader.py:45-46`) are file I/O. The model starts from the sheet's rows, each given as its first two cells.
- `get_qb_payment_terms` (`src/excel_reader.py:69-128`) is a QuickBooks COM session and is not part of this model.
- ExcelReader.ReadPaymentTerms: cells are given as text. Python's `str()` of a number or date cell is not modelled, and `strip` never raises in the model, so the `except (ValueError, TypeError)` branch is absent. A row with fewer than two cells would raise `IndexError` in the code; the model has no such row.
- `qb_gateway.fetch_accounts`, `qb_gateway.add_accounts_batch`, `iso_timestamp` and `write_report` are external. The two loads are `Result` inputs, the batch add is a function parameter returning a `Result`, and the timestamp is a string. Writing the file is not modelled.
- Runner.ReportPath: `Path` normalisation is not modelled; the path is the string itself.
- Runner.RunChartOfAccounts: an exception that the model's steps cannot raise is not modelled. This covers the code's `AttributeError` from the missing `compare_accounts` and the body's `TypeError` at `Conflict(...)` (`src/compare.py:137-146` and the other `Conflict(excel_id=…)` calls).
- Compare.CompareAccountTypes states its conflicts as set facts with distinct ids, not their order. The code iterates a Python `set`, whose order is unspecified.
- CompareExtension.CompareWithSecondaryPasses: the body as written passes `excel_id=` and `qb_id=` to `Conflict`, which has no such fields, so it raises `TypeError` on any input that yields a conflict. The model does not reproduce that error: it builds each conflict in the model's shape with the Excel record's id and drops `qb_id`, and it leaves the QuickBooks type empty because the body passes only the Excel `AccountType`. It states each pass's conflicts by reason and count, not the order the set loops append them in.
- The `__main__` block of `src/compare.py` (lines 252-326) is developer I/O with hard-coded paths and is not part of this model.
- `src/comparer.py`, `src/cli.py`, `src/Account_Charts.py` and `src/__init__.py` are not part of this model. They are an unimplemented sibling module, argparse wiring with a broken import, an XML helper, and re-exports.
