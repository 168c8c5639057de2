# SQL hint engine: a Dafny model

This project models the core of a tutoring service that compares a student's SQL query with a
reference query. It explains the difference as a hint at a requested level, and never gives
the solution away. The model covers these parts:

- **Result comparison** (`compare_results`, new.py). Two execution records agree when both
  queries ran, their column names agree up to case, and their rows agree as a bag.
- **Semantic differencing** (semantic_diff.py). The signals `runtime_error`,
  `reference_error`, `row_count_mismatch`, `value_mismatch`, `ordering_difference`,
  `null_handling_difference` and `aggregation_or_grouping_issue`, and the summary sentence
  chosen from them.
- **Structural differencing**, in three variants:
  - `canonicalize`, `collect_select_columns` and `ast_diff` of new.py, with their
    `metadata`;
  - the standalone `ast_diff` of ast_diff.py;
  - the `ast_diff` of main.py, which is the same algorithm with the same messages.
- **Tiered hints** (`generate_tiered_hints`, main.py). The parse error comes first, then one
  to three hints per structural difference, then the execution-level hints.
- **The constraint catalogue of new.py.**
  - The `Constraint` record, `next_id` and `register_constraint`.
  - The 45 registrations and `sorted(CONSTRAINTS, key=priority)`.
  - The 45 checkers over a summary of the request context. The regular-expression searches
    are inputs.
- **The hint engine** (`get_sql_hint`, new.py).
  - The early exit on equal results.
  - The first-match scan in catalogue order, treating a raising checker as one that does not
    fire.
  - The generic `semantic_mismatch` fallback and the level-3 semantic explanation.
  - `format_hint`, `llm_conceptual_hint_stub` and `build_semantic_explanation`.
  - The guarded model reply at levels 4 and 5: `validate_llm_output`, the two-sentence
    truncation and the fixed fallback sentence.
- **The alternative catalogue of constraints.py.**
  - Its 24 detectors, over summaries of the two query trees.
  - Its static `CONSTRAINTS` registry.

Each module follows one source unit:

| module | file | source |
|---|---|---|
| `Base` | base.dfy | shared values: rows, execution records, `Option`, string helpers |
| `Order` | order.dfy | Python's ordering of rows and strings; `sorted(rows)` and `sorted(set(xs))` |
| `ResultComparator` | comparator.dfy | `compare_results` |
| `SemanticDiff` | semantic.dfy | semantic_diff.py |
| `QueryFacts` | query.dfy | what the walks over a parsed tree collect |
| `StructuralDiff` | structure.dfy | `canonicalize`, `collect_select_columns`, `ast_diff` of new.py |
| `ToolDiff` | tooldiff.dfy | `ast_diff` of ast_diff.py and main.py |
| `TieredHints` | tiered.dfy | `generate_tiered_hints` |
| `Checks` | checks.dfy | the checkers of new.py |
| `CatalogueEntries` | entries.dfy | the name, priority and hint texts of each registration |
| `Catalogue` | catalogue.dfy | `Constraint`, `next_id`, `register_constraint`, the registrations, the sort |
| `LlmGuard` | llm.dfy | `summarize_context_for_llm`, `validate_llm_output`, `llm_generate_safe_hint` |
| `HintEngine` | engine.dfy | `format_hint`, the stub, the explanation, `get_sql_hint` |
| `CbmConstraints` | cbm.dfy | constraints.py |

Parsing, executing the queries and calling the language model are outside the model. Their
outcomes are parameters:

- the parse outcome of each text;
- the facts a parsed tree yields;
- the execution records;
- the regular-expression outcomes;
- the set of checkers that raise;
- the model's reply.

Where the source builds a result by appending step by step, or loops, the model is a method
proved against a specification function. Properties of that function are lemmas.

## Model

| member | source | states |
|---|---|---|
| ResultComparator.CompareResults | new.py:407-429 | never an error on records; equal exactly when both succeeded, the lower-cased column lists are equal and the rows are equal as multisets |
| ResultComparator.EqualResultsSameSize | new.py:418-423 | agreeing results have the same number of rows and the same rows |
| ResultComparator.CompareResultsSymmetric | new.py:407-429 | the comparison does not depend on which record is the student's |
| Order.SortRowsCorrect | new.py:418-421 | `sorted(rows)` is ordered by Python's tuple comparison and is a permutation of the rows |
| Order.SortedRowsUnique | new.py:418-423 | a multiset of rows has exactly one sorted arrangement |
| Order.SortRowsEqualIff | new.py:423 | `sorted(a) == sorted(b)` exactly when `a` and `b` are equal as multisets |
| Order.RowLeTotal | new.py:418-421 | tuple comparison is total |
| Order.RowLeAntisym | new.py:418-421 | tuple comparison is antisymmetric |
| Order.RowLeTrans | new.py:418-421 | tuple comparison is transitive |
| Order.SortedSetCorrect | new.py:275 | `sorted(set(xs))` is strictly increasing and has exactly the elements of `xs` |
| Order.StrictlySortedUnique | new.py:275 | two strictly sorted lists with the same elements are equal |
| Order.SortedSetEqualIff | new.py:275 | two such lists are equal exactly when the inputs have the same elements |
| Order.MinusSorted | new.py:332-333 | filtering a strictly sorted list keeps it strictly sorted |
| SemanticDiff.RowsDifferPairwise | semantic_diff.py:53-57 | the `zip` loop finds a difference exactly when some shared position holds different rows |
| SemanticDiff.SemanticDiffOf | semantic_diff.py:5-87 | builds the signal list step by step and returns the result of the classification |
| SemanticDiff.SameLengthDifferAt | semantic_diff.py:53-57 | two different lists of the same length differ at some shared position |
| SemanticDiff.ClassifyEqualIff | semantic_diff.py:39-42 | `equal` holds exactly when both ran and returned the same list of rows |
| SemanticDiff.DiffSignalsMeaning | semantic_diff.py:44-81 | for unequal rows, each signal is present exactly when its condition holds: count differs, same length, equal as bags, NULL presence differs, fewer but some rows |
| SemanticDiff.ClassifySummary | semantic_diff.py:86-106 | for two successful unequal results some signal is raised; the count sentence is chosen exactly when lengths differ, the order sentence exactly when the rows agree as bags; the grouping and "non-obvious" sentences are never chosen |
| SemanticDiff.ClassifyFailure | semantic_diff.py:20-31 | a failed run gives one signal, never `equal`, and the student's failure is reported first |
| StructuralDiff.Canonicalize | new.py:219-243 | exactly one of text and error is present; blank input gives `Empty SQL`; otherwise text exactly when the parse succeeded, else its message |
| StructuralDiff.CollectSelectColumns | new.py:262-275 | the loop gives the specified selected columns, stopping at a bare `*` |
| StructuralDiff.SelectColumnsShape | new.py:262-275 | the list is strictly sorted and lower-case; `["*"]` when some item is a bare `*`; otherwise exactly the lower-cased column texts |
| StructuralDiff.LoweredColumnsNoUpper | new.py:274 | no collected column text has an upper-case letter |
| StructuralDiff.AstDiff | new.py:302-384 | the result holds the canonicalization, the re-parse errors that fill an empty error, the messages of the differences found and the metadata |
| StructuralDiff.Reparse | new.py:313-324 | the re-parsed tree exists only when the canonical text is truthy and the parse succeeded; a re-parse exception fills the parse error only when it is still empty |
| StructuralDiff.ReportSetDiffs | new.py:331-350 | appends the missing and extra messages of one column or table comparison |
| StructuralDiff.ReportDiffs | new.py:326-374 | appends exactly the messages of the differences, in source order |
| StructuralDiff.ReportTail | new.py:351-374 | appends the subquery, window, CTE, GROUP BY and join messages |
| StructuralDiff.ReportNesting | new.py:351-358 | appends the subquery, window and CTE messages |
| StructuralDiff.ReportGrouping | new.py:359-374 | appends the GROUP BY and join messages |
| StructuralDiff.SameSetIff | new.py:331-333 | two lists agree as sets exactly when neither has an element the other lacks |
| StructuralDiff.ColumnDiffsMeaning | new.py:331-337 | the column report is missing-then-extra, each only if non-empty, and empty exactly when the sets agree |
| StructuralDiff.TableDiffsMeaning | new.py:344-350 | the same for tables |
| StructuralDiff.NoDiffsIff | new.py:326-374 | nothing is reported exactly when every collected fact agrees, lists as sets |
| StructuralDiff.JoinTextsIff | new.py:368-372 | the join message appears exactly when the sets of lower-cased join texts differ |
| StructuralDiff.SetDiffsOrdered | new.py:331-350 | the column and table messages come first, in their order |
| StructuralDiff.TailDiffsRanked | new.py:351-374 | each later check adds at most one message of its own rank |
| StructuralDiff.DiffsOrdered | new.py:326-374 | messages always follow the order columns, tables, subqueries, window, CTE, group, joins |
| ToolDiff.AstDiff | ast_diff.py:24-78 | normalized texts fall back to the raw input; a parse failure of either side, the student's first, gives its message and no differences; otherwise the reports of the collected facts; main.py:258-317 is the same function with the same messages |
| ToolDiff.ReportSets | ast_diff.py:40-58 | appends the missing and extra messages of one column or table comparison |
| ToolDiff.ReportAll | ast_diff.py:40-76 | appends exactly the reports of the collected facts, in source order |
| ToolDiff.ColumnReportsMeaning | ast_diff.py:41-48 | for sorted lists: missing-then-extra, each only if non-empty, empty exactly when the sets agree |
| ToolDiff.TableReportsMeaning | ast_diff.py:51-58 | the same for tables |
| ToolDiff.CollectSorted | ast_diff.py:15-19 | the collected column and table lists are strictly sorted |
| ToolDiff.SetReportsRanked | ast_diff.py:40-58 | the column and table reports come first, in their order |
| ToolDiff.ReportsPresence | ast_diff.py:60-76 | the subquery, GROUP BY and JOIN messages each appear exactly when their facts differ (keys as sets) |
| ToolDiff.NoReportsIff | ast_diff.py:40-76 | for two parsed trees nothing is reported exactly when columns, tables, GROUP BY keys and joins agree as sets and the subquery counts agree |
| ToolDiff.ReportsOrdered | ast_diff.py:40-76 | reports follow the order columns, tables, subqueries, group, joins |
| TieredHints.GenerateTieredHints | main.py:385-469 | the appended list is exactly the decision tree's list |
| TieredHints.AppendDiffHints | main.py:398-426 | the loop gives the friendly hints of each diff, concatenated in order |
| TieredHints.AppendExecHints | main.py:432-463 | the execution-level hints of an execution summary |
| TieredHints.AreaHints | main.py:398-426 | each branch gives one to three hints |
| TieredHints.DiffHints | main.py:398-426 | each diff gives one to three hints |
| TieredHints.ParseErrorHints | main.py:388-393 | a parse error gives exactly three hints, the second quoting the error, whatever else is known |
| TieredHints.DiffHintsAllSize | main.py:396-426 | `n` diffs give between `n` and `3n` hints |
| TieredHints.StructuralHints | main.py:395-429 | with diffs and no parse error, the list starts with the review line, has `1+n` to `1+3n` hints and ignores the execution result |
| TieredHints.ConcatMapAppend | main.py:398 | the hints of a list of diffs are those of its parts, concatenated |
| TieredHints.UnmatchedDiff | main.py:424-426 | a diff matching none of the substrings is passed on behind "Level 2: " |
| TieredHints.ExecutionErrorHints | main.py:433-440 | an execution error gives the failure line, one line per failing side, then the fix line |
| TieredHints.RowCountGuidance | main.py:448-463 | with both counts: the count line, then over-filtering exactly when none of some rows, under-filtering exactly when more, else the aggregation line |
| TieredHints.FallbackHints | main.py:465-469 | without anything to go on, the three fallback hints |
| Checks.ParseError | new.py:470-473 | fires exactly when the student has a parse error, with the error as evidence |
| Checks.MissingTable | new.py:479-485 | fires exactly when some reference table is absent from the student's, reporting all of them |
| Checks.ExtraTable | new.py:490-496 | fires exactly when some student table is absent from the reference, reporting all of them |
| Checks.MissingJoinCondition | new.py:501-509 | fires exactly when there are several tables, no JOIN and no "where", listing the tables |
| Checks.JoinTypeMismatch | new.py:514-520 | fires exactly when one text mentions "left join" and the other does not |
| Checks.FirstRepeatedTable | new.py:534-544 | none exactly when no table passes the repeated-without-alias test; otherwise the first that does |
| Checks.ScanRepeatedTables | new.py:537-543 | the loop returns the first table that passes the test |
| Checks.SelfJoinAlias | new.py:534-544 | fires exactly when a student tree exists and some table passes the test; the evidence is `{"table": t}` for the first such table |
| Checks.MissingSelectColumn | new.py:558-567 | silent on a bare `*`; otherwise fires exactly when some reference column is missing, reporting them |
| Checks.ExtraSelectColumn | new.py:572-581 | a bare `*` against explicit columns reports `["*"]`; otherwise fires exactly when there are student-only columns, reporting them in student order |
| Checks.NonAggregatedMembers | new.py:590-597 | a column is reported exactly when it belongs to a non-aggregated item that has columns |
| Checks.CollectNonAggregated | new.py:590-597 | the loop collects the specified non-aggregated columns |
| Checks.AggregateWithoutGroupBy | new.py:586-601 | fires exactly when there is an aggregate, no GROUP BY and some non-aggregated column, reporting them |
| Checks.GroupByMissingColumns | new.py:606-615 | fires exactly when reference GROUP BY keys are absent from the student's, reporting them |
| Checks.HavingWithoutAggregate | new.py:620-624 | fires exactly when the student has HAVING and no aggregate |
| Checks.Aliases | new.py:629-638 | the non-empty aliases are exactly those of the items |
| Checks.AggregationAliasMissing | new.py:629-638 | fires exactly when the reference aliases some expression and the student aliases none, reporting the reference's aliases |
| Checks.MissingWhere | new.py:644-647 | fires exactly when "where" is in the reference text and not in the student's |
| Checks.ExtraWhere | new.py:652-655 | fires exactly when "where" is in the student text and not in the reference |
| Checks.WhereDiffers | new.py:687-696 | fires exactly when both have a WHERE whose normalized texts differ, reporting both |
| Checks.MissingSubquery | new.py:702-705 | fires exactly when the reference has more subqueries |
| Checks.WindowMismatch | new.py:898-903 | fires exactly when only the reference uses `over(` |
| Checks.ExecutionError | new.py:727-734 | fires exactly when a run failed; the student's error is reported first |
| Checks.StudentNoRows | new.py:739-744 | fires exactly when both ran, the student returned nothing and the reference something |
| Checks.StudentMoreRows | new.py:749-754 | fires exactly when both ran and the student returned more rows |
| Checks.AggregateValueMismatch | new.py:759-767 | fires exactly when both returned one row and the rows differ, reporting both |
| Checks.OrderingDifference | new.py:772-777 | fires exactly when both ran and the rows agree as a bag but not as a list |
| Checks.QuotedIdentifiers | new.py:792-796 | fires exactly when the student text has a double quote or a backtick |
| Checks.ContainsOneChar | new.py:794 | a one-character pattern is found exactly when the character occurs |
| Checks.DistinctMismatch | new.py:801-804 | fires exactly when one text mentions "distinct" and the other does not |
| Checks.JsonOps | new.py:817-821 | fires exactly when the student text has `->` or "json" |
| Checks.CaseWhenIncomplete | new.py:826-830 | fires exactly when "case when" occurs without "end" |
| Checks.Occurrences | new.py:838-841 | `xs.count(x)` is positive exactly when `x` occurs, and at most the length |
| Checks.FirstRepeatedAlias | new.py:838-841 | the first alias in list order that occurs twice, or none when none does |
| Checks.DuplicateIffRepeated | new.py:838-841 | two positions share an alias exactly when some alias occurs more than once |
| Checks.AliasConflict | new.py:836-842 | fires exactly when some alias repeats, reporting a repeated alias |
| Checks.NullHandling | new.py:863-867 | fires exactly when "is null" or "is not null" occurs |
| Checks.ComplexWhere | new.py:881-885 | fires exactly when the text is over 300 characters and mentions "where" |
| Checks.CartesianProduct | new.py:917-924 | fires exactly when `missing_join_condition` does, with the same evidence |
| Checks.WhereChecksExclusive | new.py:644-655 | `missing_where` and `extra_where` never both fire |
| Checks.CartesianSameAsMissingJoin | new.py:917-924 | `cartesian_product` gives exactly what `missing_join_condition` gives |
| Checks.WindowChecksAgree | new.py:898-903 | `window_mismatch` gives exactly what `window_expected` gives |
| Checks.UnusedTableNeverFires | new.py:929-930 | `unused_table` never fires |
| Checks.StarSilencesMissingColumns | new.py:558-567 | with a bare `*` the missing-column check is silent |
| Checks.RowCountChecksExclusive | new.py:739-754 | the two row-count checks never both fire, and only when both ran |
| Checks.FailureOnlyExecutionError | new.py:727-777 | a failed run fires `execution_error` and none of the result-based checks |
| CatalogueEntries.Priority | new.py:474-933 | every registered priority is positive |
| CatalogueEntries.Position | new.py:474-933 | every checker but the fallback's has a registration position, and the registration there is that checker |
| Catalogue.RegistrationPosition | new.py:474-933 | each position registers a different checker |
| Catalogue.PriorityOne | new.py:474-737 | priority 1 belongs exactly to `parse_error` and `execution_error` |
| Catalogue.Registry.constructor | new.py:446-462 | the list starts empty and the counter at 1 |
| Catalogue.Registry.NextId | new.py:463-467 | hands out the counter and advances it by one, leaving the list alone |
| Catalogue.Registry.Register | new.py:449-450 | appends the constraint, leaving the counter alone |
| Catalogue.LoadCatalogue | new.py:474-936 | the 45 registrations with consecutive ids, then the priority sort |
| Catalogue.RegisteredEntries | new.py:474-933 | ids are 1..45 in registration order, and every checker but the fallback's is registered exactly once |
| Catalogue.RegisteredEntry | new.py:474-933 | a registered constraint is its checker's entry, with the id of its position |
| Catalogue.Insert | new.py:936 | inserting adds exactly the element |
| Catalogue.SortByPriority | new.py:936 | the sort is a permutation |
| Catalogue.InsertPrioritySorted | new.py:936 | insertion keeps the list ordered by priority |
| Catalogue.SortPrioritySorted | new.py:936 | the sorted list is ordered by priority |
| Catalogue.InsertKeySorted | new.py:936 | inserting an element of smaller id keeps the (priority, id) order |
| Catalogue.SortKeySorted | new.py:936 | the sort is stable: ties keep registration (id) order |
| Catalogue.CatalogueOrdered | new.py:474-936 | the catalogue is a permutation of the 45 registrations ordered by priority, then id |
| Catalogue.CatalogueMember | new.py:474-936 | every catalogue member was registered |
| Catalogue.ParseErrorFirst | new.py:474-936 | `parse_error` (id 1) is scanned first |
| Catalogue.CatalogueStartsWithParseThenExecution | new.py:474-936 | `parse_error` is scanned first and `execution_error` (id 24) second |
| LlmGuard.Token | new.py:175 | the first word of a text is its longest whitespace-free prefix |
| LlmGuard.Words | new.py:175 | `split()` gives non-empty, whitespace-free words |
| LlmGuard.WordsKeepText | new.py:175 | the words, joined, are exactly the non-whitespace characters |
| LlmGuard.ValidHintIff | new.py:160-178 | with the empty banned list, a text is valid exactly when non-empty and at most 35 words long |
| LlmGuard.ValidateAgainst | new.py:163-178 | the body with its banned-keyword loop accepts exactly the texts of the specification |
| LlmGuard.ValidateLlmOutput | new.py:163-178 | `validate_llm_output` accepts exactly the valid hints |
| LlmGuard.SplitOn | new.py:201 | `split('.')` gives at least one piece and no piece holds a period |
| LlmGuard.JoinSplit | new.py:201 | joining the pieces with the separator gives back the text |
| LlmGuard.NonBlankParts | new.py:201 | the kept parts are no more than the pieces |
| LlmGuard.NonBlankPartsShape | new.py:201 | every kept part is non-empty, has no outer whitespace and no period |
| LlmGuard.SafeHintValidOrFallback | new.py:200-212 | any answer but the fallback is the valid candidate, and a valid candidate is always returned |
| LlmGuard.CandidateShape | new.py:201-206 | no part keeps the text; one part gives it; two or more give the first two, each with a period |
| LlmGuard.CandidatePeriods | new.py:201-206 | a truncated candidate has at most two periods |
| LlmGuard.StripEmptyIff | new.py:201 | `p.strip()` is empty exactly when `p` is all whitespace |
| LlmGuard.NonBlankPartsEmptyIff | new.py:201 | no part is kept exactly when every piece is all whitespace |
| LlmGuard.SplitBlankIff | new.py:201 | every piece of `split('.')` is all whitespace exactly when the text holds only periods and whitespace |
| LlmGuard.NoSentenceKept | new.py:201-206 | `parts` is empty exactly when the text holds only periods and whitespace, and then the candidate is the text itself |
| LlmGuard.PeriodsOnlyReplyKept | new.py:200-212 | for every reply whose stripped text holds only periods and whitespace, the answer is that text when valid, else the fallback |
| LlmGuard.SummarizeContextForLlm | new.py:75-92 | carries the name and diffs, empty operator lists, and the evidence keys in order |
| LlmGuard.RowDiffAgreesWithRowChecks | new.py:87-90 | the row difference is positive exactly when `student_more_rows` fires, and negative when `student_no_rows` fires |
| LlmGuard.LlmGenerateSafeHint | new.py:185-212 | the hint is the guarded answer for the reply |
| HintEngine.Outcome | new.py:1085-1088 | a raising checker does not fire; otherwise the checker's result |
| HintEngine.FirstFiring | new.py:1084-1092 | the first position where a constraint fires, with none firing before it |
| HintEngine.FirstMatch | new.py:1082-1092 | none exactly when nothing fires; otherwise a firing member of the list with its checker's evidence |
| HintEngine.FirstFiringUnique | new.py:1084-1092 | the first firing position is the only one with nothing firing before it |
| HintEngine.ScanConstraints | new.py:1082-1092 | the loop with `break` gives the first match |
| HintEngine.FirstMatchMinimal | new.py:1084-1092 | in a (priority, id)-ordered list, the selected constraint comes before every other that fires |
| HintEngine.Shadowed | new.py:1084-1092 | a constraint is never selected when an earlier one fires whenever it does |
| HintEngine.CatalogueHas | new.py:474-936 | every registration is in the catalogue |
| HintEngine.SelectedEntry | new.py:1084-1092 | the selected constraint is its checker's entry |
| HintEngine.ParseErrorWins | new.py:470-476 | a student parse error always selects `parse_error` with the error as evidence |
| HintEngine.ExecutionErrorNext | new.py:727-737 | otherwise a failed run selects `execution_error` |
| HintEngine.CartesianProductNeverSelected | new.py:917-927 | `cartesian_product` is never selected: `missing_join_condition` fires first |
| HintEngine.WindowMismatchNeverSelected | new.py:898-906 | `window_mismatch` is never selected: `window_expected` has its priority, a smaller id and its verdict |
| HintEngine.UnusedTableNeverSelected | new.py:929-933 | `unused_table` is never selected |
| HintEngine.ConceptualHintStub | new.py:951-962 | the stub always starts with "Level 4 concept: " |
| HintEngine.StubQuotesCategory | new.py:962 | an unmapped category is quoted verbatim in the default text |
| HintEngine.FormatHint | new.py:941-948 | level 1 gives the first hint text, level 2 the second, any other level the stub of the name |
| HintEngine.ExplanationKind | new.py:964-992 | the order sentence exactly when `ordering_difference` is present, the count sentence exactly when only `row_count_mismatch` precedes; failure signals give the generic sentence |
| HintEngine.ExplanationOfResults | new.py:964-992 | for two successful unequal results: order exactly when equal as bags, count exactly when lengths differ, NULLs or generic otherwise, never grouping |
| HintEngine.ExplanationOfFailure | new.py:964-992 | a failed run gets the generic sentence |
| HintEngine.ClampLevel | new.py:1115 | levels 1..5 are kept, anything else becomes 1 |
| HintEngine.LevelText | new.py:1114-1129 | level 1 or out of range gives the first text, 2 the second, 3 the stub, 4 and 5 the guarded reply |
| HintEngine.Render | new.py:1104-1131 | the hint keeps the level; constraint fields only when a constraint was chosen; the texts of the exit, the explanation and "no hints" |
| HintEngine.DecideHint | new.py:1070-1107 | the early exit, the scan with its fallback and the level-3 shortcut give the specified decision |
| HintEngine.RenderHint | new.py:1109-1131 | the hint for a decision, through the guarded reply at levels 4 and 5 |
| HintEngine.CopyOverrides | new.py:1024-1032 | each field of the structural diff overrides the canonicalization's when truthy |
| HintEngine.Assemble | new.py:1021-1133 | steps 2 to 6 give the specified result |
| HintEngine.GetSqlHint | new.py:998-1133 | `get_sql_hint` gives the specified result |
| HintEngine.CorrectQueryExit | new.py:1070-1078 | equal outputs of two successful runs end at the "correct" exit |
| HintEngine.LevelThreeExplains | new.py:1104-1107 | otherwise level 3 with unequal semantics explains without a constraint |
| HintEngine.SelectedDecides | new.py:1109-1131 | otherwise the selected constraint, or "no hints" when there is none |
| HintEngine.GenericMismatch | new.py:1094-1102 | nothing firing on two successful, different runs selects constraint 999 `semantic_mismatch` of priority 500 |
| HintEngine.FailureAlwaysMatches | new.py:1084-1092 | with the full catalogue a failed run always fires a checker |
| HintEngine.AlwaysSomeHint | new.py:1094-1131 | with the full catalogue and no raising checker, "no hints" never happens |
| HintEngine.ResultShape | new.py:1055-1078 | the level is kept, the execution error is none, `equal` is the comparison's verdict, and equality gives the "correct" text with empty evidence |
| CbmConstraints.MissingWhere | constraints.py:54-55 | matches exactly when the reference has a WHERE and the student not |
| CbmConstraints.ExtraWhere | constraints.py:57-58 | matches exactly when the student has a WHERE and the reference not |
| CbmConstraints.WhereDetectorsExclusive | constraints.py:54-58 | the two never both match, and swapping the queries swaps them |
| CbmConstraints.BetweenMismatch | constraints.py:60-61 | matches exactly when one query has BETWEEN and the other not |
| CbmConstraints.AndOrMix | constraints.py:63-65 | matches exactly when the student's WHERE holds both an AND and an OR node |
| CbmConstraints.ContradictoryFilters | constraints.py:67-76 | none exactly when no two column equalities on a column have different right sides; otherwise the column of the first predicate that conflicts with an earlier one |
| CbmConstraints.NullComparison | constraints.py:144-148 | matches exactly when some WHERE node is an equality with NULL |
| CbmConstraints.OperatorMismatch | constraints.py:150-151 | matches exactly when the node types of the two WHERE walks differ as sets |
| CbmConstraints.OperatorMismatchOrderFree | constraints.py:150-151 | reordering either walk does not change the outcome |
| CbmConstraints.SameKinds | constraints.py:150-151 | walks equal as multisets have the same node types |
| CbmConstraints.MissingJoin | constraints.py:78-79 | matches exactly when the reference joins and the student does not |
| CbmConstraints.FindZipDifference | constraints.py:81-85 | the `zip` loop finds a difference exactly when two lists differ at a shared position |
| CbmConstraints.ZipDiffersIgnoresTail | constraints.py:81-85 | elements past the end of the shorter list are never compared |
| CbmConstraints.JoinTypeMismatch | constraints.py:81-85 | matches exactly when the join kinds differ at a position both join lists have |
| CbmConstraints.JoinWithoutOn | constraints.py:87-88 | matches exactly when some student join has no ON |
| CbmConstraints.CartesianJoin | constraints.py:90-92 | matches exactly when FROM has several items and there is no join |
| CbmConstraints.CartesianExcludesJoinDetectors | constraints.py:81-92 | a cartesian join leaves no join without ON and no join kind to mismatch |
| CbmConstraints.DistinctIffNoDuplicate | constraints.py:94-96 | a list has as many distinct values as entries exactly when no value repeats |
| CbmConstraints.SelfJoinNoAlias | constraints.py:94-96 | matches exactly when the table list holds a duplicate |
| CbmConstraints.MissingGroup | constraints.py:98-99 | matches exactly when the reference groups and the student does not |
| CbmConstraints.ExtraGroup | constraints.py:101-102 | matches exactly when the student groups and the reference does not |
| CbmConstraints.NonGroupedColumn | constraints.py:104-109 | none exactly when every bare select column is grouped; otherwise the first one that is not |
| CbmConstraints.AggFunctionMismatch | constraints.py:111-112 | matches exactly when the aggregate node types differ as sets |
| CbmConstraints.CountStarMismatch | constraints.py:114-118 | matches exactly when some student COUNT has an argument other than `*` |
| CbmConstraints.HavingWithoutGroup | constraints.py:120-121 | matches exactly when the student has HAVING and no GROUP BY |
| CbmConstraints.GroupDetectorsExclusive | constraints.py:98-121 | the grouping detectors never both match, and HAVING without GROUP BY excludes `extra_group` |
| CbmConstraints.DistinctMismatch | constraints.py:123-124 | matches exactly when the DISTINCT nodes differ |
| CbmConstraints.ProjectionCount | constraints.py:126-127 | matches exactly when the select lists differ in length |
| CbmConstraints.ExpressionTypeMismatch | constraints.py:129-133 | matches exactly when the select node types differ at a shared position |
| CbmConstraints.AliasMismatch | constraints.py:135-139 | matches exactly when the aliases differ at a shared position |
| CbmConstraints.SameSelectListSilent | constraints.py:126-139 | equal select lists make the count, type and alias detectors silent |
| CbmConstraints.StarVsExplicit | constraints.py:141-142 | matches exactly when exactly one query has a `*` |
| CbmConstraints.LimitMismatch | constraints.py:153-154 | matches exactly when the LIMIT nodes differ |
| CbmConstraints.SymmetricDetectors | constraints.py:60-154 | the symmetric detectors do not depend on which query is the student's |
| CbmConstraints.Entry | constraints.py:161-234 | each entry carries the id, name, priority and detector of its row |
| CbmConstraints.Constraints | constraints.py:161-234 | the registry lists the 24 entries in order |
| CbmConstraints.RegistryDetectors | constraints.py:161-234 | every detector is registered exactly once |
| CbmConstraints.IdAt | constraints.py:161-234 | the id of each entry is its position plus one |
| CbmConstraints.NameAt | constraints.py:161-234 | each entry's name identifies it |
| CbmConstraints.RegistryIdsAndNames | constraints.py:161-234 | ids run 1..24 in list order and no two entries share a name |
| CbmConstraints.NextPriority | constraints.py:161-234 | each priority is at most the next, equal only after entries 1 and 11 |
| CbmConstraints.PriorityChain | constraints.py:161-234 | along the list the priority never drops, and stays equal only across one of the two ties |
| CbmConstraints.RegistryPriorities | constraints.py:161-234 | the list is ordered by priority, and only entries 1/2 and 11/12 tie |
| CbmConstraints.Ties | constraints.py:161-194 | the ties are at priorities 10 and 36 |

## Left out

- Parsing by sqlglot. A parse outcome is an input, except that a blank text gives `Empty SQL`. The walks over a tree are replaced by the facts they collect (`QueryFacts.Tree`, `CbmConstraints.Ast`).
- Query execution by DuckDB: the execution records are inputs. So is `compare_query_results` of main.py, whose dictionary is `TieredHints.ExecSummary`.
- The call to the language model, `html.unescape` and building the prompt. The model's reply is an input, taken after unescaping.
- Exceptions. A checker that raises is an input set of checkers, treated as not firing. The text of the exception, the traceback and the "AST diff internal error" message are not modelled; neither is the `TypeError` of `sorted` on rows that mix value kinds.
- Values are NULL, integers and strings. Floating-point numbers, dates and booleans other than 0/1 are not modelled. Lower-casing is ASCII only.
- `repr` of a list inside a message is modelled for plain strings only, without escaping quotes or backslashes.
- Python's set iteration order. Where the source lists a set, the model uses a fixed order: `group_by_missing_columns` lists the missing keys sorted, and `alias_conflict` reports the first repeated alias in the list order. The contracts state only membership.
- The sorting of SELECT expressions inside `canonicalize` is part of the parse outcome, which is an input.
- CatalogueEntries.HintL1 / HintL2: the hint texts are looked up by checker, not stored in each constraint record.
- The context trees reuse the re-parse outcomes of `ast_diff`; the source parses the same canonical text once more.
- The FastAPI endpoints, auth.py, db.py, sample_queries.py, the command-line entry point of main.py and the canonicalizer and normalizer modules are not part of this model.
- CbmConstraints: the trees are taken to be present. The source raises `AttributeError` on a missing tree, and that case is not modelled.
- CbmConstraints: constraints.py has no runner that scans the registry. A match is `Some(Report)`; the empty report stands for the falsy `{}` the source returns.
- CbmConstraints.DistinctMismatch / LimitMismatch: sqlglot compares the nodes structurally; the model compares their SQL texts.
