/**
 * `generate_tiered_hints` of main.py: the list of "Level n: ..." hints built from the
 * structural diff and the execution comparison, with a parse error taking precedence over
 * structural differences, and those over execution results.
 */
module TieredHints {
  import opened Base

  /** What `compare_query_results` returns: the dict with `error`, `student`, `reference`, `equal` and the counts. */
  datatype ExecSummary = ExecSummary(
    error: Option<string>,
    student: Option<ExecRecord>,
    reference: Option<ExecRecord>,
    equal: bool,
    studentCount: Option<nat>,
    referenceCount: Option<nat>)

  const CouldNotParse := "Level 1: Your SQL could not be parsed."
  const ParseErrorPrefix := "Level 2: Parse error: "
  const ClauseOrdering :=
    "Level 3: Check clause ordering and punctuation (SELECT → FROM → WHERE → GROUP BY → HAVING → ORDER BY)."
  const ReviewAreas := "Level 1: Review the general area(s) indicated below."
  const ExecutionFailed := "Level 1: Execution failed for one or both queries."
  const StudentErrorPrefix := "Level 2: Student query error: "
  const ReferenceErrorPrefix := "Level 2: Reference query error: "
  const FixErrors := "Level 3: Fix syntax/runtime errors (e.g., unknown relation, bad column)."
  const SameResults := "Level 1: The queries produce the same results on the provided dataset."
  const SemanticallyMatch := "Level 2: Structurally they may differ but semantically match for this dataset."
  const ConsiderEfficiency :=
    "Level 3: Consider efficiency or style improvements (indexes, join order) if required."
  const DifferentResults := "Level 1: Your query returns different results than expected."
  const OverFiltering :=
    "Level 3: You may be over-filtering (missing rows). Check your WHERE/HAVING predicates or join types (INNER vs OUTER)."
  const UnderFiltering :=
    "Level 3: You may be under-filtering (extra rows). Check join cardinality and WHERE conditions."
  const CheckAggregation := "Level 3: Check aggregation/having logic and join relationships."
  const InspectLogic := "Level 3: Inspect predicate logic, join keys, and aggregation."
  const NoObviousDifference := "Level 1: No obvious structural differences detected."
  const RicherData :=
    "Level 2: Try running both queries on richer test data or inspect intermediate results (e.g., partial aggregates)."
  const UseLlm :=
    "Level 3: If queries still differ semantically, consider using an LLM to produce conceptual hints (do not request the full solution)."

  // The hints of each branch of the structural-diff loop.
  const MissingColumnsL2 :=
    "Level 2: It looks like some required output columns are missing from your SELECT."
  const MissingColumnsL3 :=
    "Level 3: Ensure every attribute required by the task appears in SELECT (or is produced by an aggregate)."
  const ExtraColumnsL2 :=
    "Level 2: You have included extra columns in SELECT that the task doesn't require."
  const ExtraColumnsL3 :=
    "Level 3: Remove unnecessary columns to match the expected projection."
  const MissingTablesL2 :=
    "Level 2: One or more tables needed for the solution are not in your FROM/JOIN."
  const MissingTablesL3 :=
    "Level 3: Check the FROM and JOIN clauses to ensure all referenced relations are present."
  const ExtraTablesL2 :=
    "Level 2: You are using additional tables not needed for the task."
  const ExtraTablesL3 :=
    "Level 3: Remove irrelevant tables or verify join keys."
  const GroupByL1 :=
    "Level 1: Check your GROUP BY clause."
  const GroupByL2 :=
    "Level 2: Your grouping columns differ from expected."
  const GroupByL3 :=
    "Level 3: Remember: non-aggregated SELECT columns must be in GROUP BY."
  const JoinL1 :=
    "Level 1: Check your JOIN conditions."
  const JoinL2 :=
    "Level 2: The joins (keys or types) seem different; verify join columns and inner/outer type."
  const JoinL3 :=
    "Level 3: Ensure you're joining on the correct foreign-key relationships."
  const SubqueryL1 :=
    "Level 1: Check your nested/subquery structure."
  const SubqueryL2 :=
    "Level 2: A subquery may be missing or placed incorrectly."
  const SubqueryL3 :=
    "Level 3: Verify subquery aliases and where they are used in the outer query."

  /** The branch a structural diff message falls into: the first substring that occurs in it. */
  datatype Category =
    | MissingColumnsArea
    | ExtraColumnsArea
    | MissingTablesArea
    | ExtraTablesArea
    | GroupByArea
    | JoinArea
    | SubqueryArea
    | OtherArea

  function CategoryOf(d: string): Category {
    if Contains(d, "Missing columns") then MissingColumnsArea
    else if Contains(d, "Extra columns") then ExtraColumnsArea
    else if Contains(d, "Missing tables") then MissingTablesArea
    else if Contains(d, "Extra tables") then ExtraTablesArea
    else if Contains(d, "GROUP BY") then GroupByArea
    else if Contains(d, "JOIN structure") then JoinArea
    else if Contains(Lower(d), "subquery") then SubqueryArea
    else OtherArea
  }

  /** The friendly hints of each branch; an unrecognised diff `d` is passed on as a Level 2 hint. */
  function AreaHints(c: Category, d: string): (hs: seq<string>)
    ensures 1 <= |hs| <= 3
  {
    match c
    case MissingColumnsArea =>
      [MissingColumnsL2, MissingColumnsL3]
    case ExtraColumnsArea =>
      [ExtraColumnsL2, ExtraColumnsL3]
    case MissingTablesArea =>
      [MissingTablesL2, MissingTablesL3]
    case ExtraTablesArea =>
      [ExtraTablesL2, ExtraTablesL3]
    case GroupByArea =>
      [GroupByL1, GroupByL2, GroupByL3]
    case JoinArea =>
      [JoinL1, JoinL2, JoinL3]
    case SubqueryArea =>
      [SubqueryL1, SubqueryL2, SubqueryL3]
    case OtherArea => ["Level 2: " + d]
  }

  /** The hints for one structural diff. */
  function DiffHints(d: string): (hs: seq<string>)
    ensures 1 <= |hs| <= 3
  {
    AreaHints(CategoryOf(d), d)
  }

  /** The lists `f` gives for each element, concatenated in order. */
  function ConcatMap(ds: seq<string>, f: string -> seq<string>): seq<string> {
    if ds == [] then [] else ConcatMap(ds[..|ds| - 1], f) + f(ds[|ds| - 1])
  }

  /** The hints of the `for d in structural_diffs` loop, diff by diff. */
  function DiffHintsAll(ds: seq<string>): seq<string> {
    ConcatMap(ds, DiffHints)
  }

  function ErrorLine(prefix: string, side: Option<ExecRecord>): seq<string> {
    if side.Some? && Truthy(side.value.error) then [prefix + side.value.error.value] else []
  }

  function CountLine(scount: nat, rcount: nat): string {
    "Level 2: Your query returned " + NatToString(scount) + " row(s); expected " + NatToString(rcount) + " row(s)."
  }

  /** The row-count direction: none returned, too many returned, or anything else. */
  function Direction(scount: nat, rcount: nat): string {
    if scount == 0 && rcount > 0 then OverFiltering
    else if scount > rcount then UnderFiltering
    else CheckAggregation
  }

  /** The execution-level hints. */
  function ExecHints(e: ExecSummary): seq<string> {
    if Truthy(e.error) then
      [ExecutionFailed] + ErrorLine(StudentErrorPrefix, e.student)
      + ErrorLine(ReferenceErrorPrefix, e.reference) + [FixErrors]
    else if e.equal then [SameResults, SemanticallyMatch, ConsiderEfficiency]
    else if e.studentCount.Some? && e.referenceCount.Some? then
      [DifferentResults, CountLine(e.studentCount.value, e.referenceCount.value),
       Direction(e.studentCount.value, e.referenceCount.value)]
    else [DifferentResults, InspectLogic]
  }

  /** The whole decision tree of `generate_tiered_hints`. */
  function Hints(parseError: Option<string>, diffs: seq<string>, exec: Option<ExecSummary>): seq<string> {
    if Truthy(parseError) then [CouldNotParse, ParseErrorPrefix + parseError.value, ClauseOrdering]
    else if diffs != [] then [ReviewAreas] + DiffHintsAll(diffs)
    else if exec.Some? then ExecHints(exec.value)
    else [NoObviousDifference, RicherData, UseLlm]
  }

  /** `generate_tiered_hints`, appending to `hints` as the source does. */
  method GenerateTieredHints(parseError: Option<string>, diffs: seq<string>, exec: Option<ExecSummary>)
    returns (hints: seq<string>)
    ensures hints == Hints(parseError, diffs, exec)
  {
    hints := [];
    if Truthy(parseError) {
      hints := hints + [CouldNotParse];
      hints := hints + [ParseErrorPrefix + parseError.value];
      hints := hints + [ClauseOrdering];
      return;
    }
    if diffs != [] {
      hints := hints + [ReviewAreas];
      var more := AppendDiffHints(diffs);
      hints := hints + more;
      return;
    }
    if exec.Some? {
      hints := AppendExecHints(exec.value);
      return;
    }
    hints := hints + [NoObviousDifference, RicherData, UseLlm];
  }

  /** The loop over the structural differences. */
  method AppendDiffHints(diffs: seq<string>) returns (hints: seq<string>)
    ensures hints == DiffHintsAll(diffs)
  {
    hints := [];
    for i := 0 to |diffs|
      invariant hints == ConcatMap(diffs[..i], DiffHints)
    {
      assert diffs[..i + 1][..i] == diffs[..i];
      var d := diffs[i];
      var more := DiffHints(d);
      hints := hints + more;
    }
    assert diffs[..|diffs|] == diffs;
  }

  /** The branch reading the execution summary. */
  method AppendExecHints(e: ExecSummary) returns (hints: seq<string>)
    ensures hints == ExecHints(e)
  {
    hints := [];
    if Truthy(e.error) {
      hints := hints + [ExecutionFailed];
      if e.student.Some? && Truthy(e.student.value.error) {
        hints := hints + [StudentErrorPrefix + e.student.value.error.value];
      }
      if e.reference.Some? && Truthy(e.reference.value.error) {
        hints := hints + [ReferenceErrorPrefix + e.reference.value.error.value];
      }
      hints := hints + [FixErrors];
      return;
    }
    if e.equal {
      hints := hints + [SameResults, SemanticallyMatch, ConsiderEfficiency];
      return;
    }
    hints := hints + [DifferentResults];
    if e.studentCount.Some? && e.referenceCount.Some? {
      var scount, rcount := e.studentCount.value, e.referenceCount.value;
      hints := hints + [CountLine(scount, rcount)];
      if scount == 0 && rcount > 0 {
        hints := hints + [OverFiltering];
      } else if scount > rcount {
        hints := hints + [UnderFiltering];
      } else {
        hints := hints + [CheckAggregation];
      }
    } else {
      hints := hints + [InspectLogic];
    }
  }

  // ---------------------------------------------------------------------------
  // Properties of the decision tree
  // ---------------------------------------------------------------------------

  /** A parse error gives exactly three hints, whatever the diffs and the execution say. */
  lemma ParseErrorHints(parseError: Option<string>, diffs: seq<string>, exec: Option<ExecSummary>)
    requires Truthy(parseError)
    ensures |Hints(parseError, diffs, exec)| == 3
    ensures Hints(parseError, diffs, exec)[0] == CouldNotParse
    ensures Hints(parseError, diffs, exec)[1] == ParseErrorPrefix + parseError.value
  {
  }

  /** Every element contributes between `lo` and `hi` entries when `f` always gives that many. */
  lemma {:induction false} ConcatMapSize(ds: seq<string>, f: string -> seq<string>, lo: nat, hi: nat)
    requires forall x :: lo <= |f(x)| <= hi
    ensures lo * |ds| <= |ConcatMap(ds, f)| <= hi * |ds|
    decreases |ds|
  {
    if ds != [] {
      ConcatMapSize(ds[..|ds| - 1], f, lo, hi);
      assert |ConcatMap(ds, f)| == |ConcatMap(ds[..|ds| - 1], f)| + |f(ds[|ds| - 1])|;
    }
  }

  /** Every diff contributes at least one hint and at most three. */
  lemma DiffHintsAllSize(ds: seq<string>)
    ensures |ds| <= |DiffHintsAll(ds)| <= 3 * |ds|
  {
    ConcatMapSize(ds, DiffHints, 1, 3);
  }

  /**
   * With structural diffs and no parse error, the list starts with the "review" hint, holds
   * between one and three hints per diff, and does not depend on the execution result at all.
   */
  lemma StructuralHints(parseError: Option<string>, diffs: seq<string>, e1: Option<ExecSummary>, e2: Option<ExecSummary>)
    requires !Truthy(parseError) && diffs != []
    ensures Hints(parseError, diffs, e1)[0] == ReviewAreas
    ensures 1 + |diffs| <= |Hints(parseError, diffs, e1)| <= 1 + 3 * |diffs|
    ensures Hints(parseError, diffs, e1) == Hints(parseError, diffs, e2)
  {
    DiffHintsAllSize(diffs);
  }

  /** The hints of a list of diffs are those of its parts, concatenated: each diff is handled on its own. */
  lemma {:induction false} ConcatMapAppend(a: seq<string>, b: seq<string>, f: string -> seq<string>)
    ensures ConcatMap(a + b, f) == ConcatMap(a, f) + ConcatMap(b, f)
    decreases |b|
  {
    if b == [] {
      assert a + b == a;
    } else {
      var b' := b[..|b| - 1];
      assert (a + b)[..|a + b| - 1] == a + b';
      assert (a + b)[|a + b| - 1] == b[|b| - 1];
      ConcatMapAppend(a, b', f);
    }
  }

  /** A diff that matches none of the substrings is passed on verbatim behind "Level 2: ". */
  lemma UnmatchedDiff(d: string)
    requires !Contains(d, "Missing columns") && !Contains(d, "Extra columns")
    requires !Contains(d, "Missing tables") && !Contains(d, "Extra tables")
    requires !Contains(d, "GROUP BY") && !Contains(d, "JOIN structure")
    requires !Contains(Lower(d), "subquery")
    ensures DiffHints(d) == ["Level 2: " + d]
    ensures DiffHintsAll([d]) == ["Level 2: " + d]
  {
    assert [d][..0] == [];
    assert DiffHintsAll([d]) == ConcatMap([], DiffHints) + DiffHints(d);
  }

  /**
   * An execution error gives the failure hint first, then one Level 2 line per side that
   * reported an error (the student's first), and the fix-errors hint last.
   */
  lemma ExecutionErrorHints(e: ExecSummary)
    requires Truthy(e.error)
    ensures var h := Hints(None, [], Some(e));
      var studentFailed := e.student.Some? && Truthy(e.student.value.error);
      var referenceFailed := e.reference.Some? && Truthy(e.reference.value.error);
      h[0] == ExecutionFailed && h[|h| - 1] == FixErrors
      && |h| == 2 + (if studentFailed then 1 else 0) + (if referenceFailed then 1 else 0)
      && (studentFailed ==> h[1] == StudentErrorPrefix + e.student.value.error.value)
      && (referenceFailed ==> h[|h| - 2] == ReferenceErrorPrefix + e.reference.value.error.value)
  {
  }

  /**
   * With known row counts and different results, the third hint is the over-filtering one
   * exactly when nothing came back but rows were expected, the under-filtering one exactly
   * when too many came back, and the aggregation one otherwise.
   */
  lemma RowCountGuidance(e: ExecSummary)
    requires !Truthy(e.error) && !e.equal && e.studentCount.Some? && e.referenceCount.Some?
    ensures var h := Hints(None, [], Some(e));
      var s, r := e.studentCount.value, e.referenceCount.value;
      |h| == 3 && h[1] == CountLine(s, r)
      && (h[2] == OverFiltering <==> s == 0 && r > 0)
      && (h[2] == UnderFiltering <==> s > r)
      && (h[2] == CheckAggregation <==> !(s == 0 && r > 0) && s <= r)
  {
    assert OverFiltering != UnderFiltering && OverFiltering != CheckAggregation;
    assert |UnderFiltering| != |CheckAggregation|;
  }

  /** Without a parse error, diffs or an execution result, the three fallback hints are given. */
  lemma FallbackHints(parseError: Option<string>)
    requires !Truthy(parseError)
    ensures Hints(parseError, [], None) == [NoObviousDifference, RicherData, UseLlm]
  {
  }
}
