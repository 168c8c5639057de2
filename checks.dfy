/**
 * The checkers of new.py's constraint catalogue, over an abstract context: the SQL texts
 * (lower-cased by the checkers themselves), the parsed trees as summaries, the parse error,
 * `ast_diff`'s metadata and the two execution records. The results of the regular-expression
 * tests are given as inputs.
 */
module Checks {
  import opened Base
  import opened Order
  import opened QueryFacts
  import StructuralDiff

  // ---------------------------------------------------------------------------
  // Evidence and context
  // ---------------------------------------------------------------------------

  /** A value of an evidence dict. */
  datatype EvValue =
    | Strs(strs: seq<string>)
    | Text(text: string)
    | Count(count: int)
    | Tuple(row: Row)
    | MaybeText(maybe: Option<string>)

  datatype Field = Field(key: string, value: EvValue)

  /** An evidence dict, keys in insertion order. */
  type Evidence = seq<Field>

  /** What a checker returns: `(flag, evidence)`. */
  datatype CheckResult = CheckResult(matched: bool, evidence: Evidence)

  const NoMatch := CheckResult(false, [])

  /** The outcomes of the regular-expression searches over the lower-cased student text. */
  datatype RegexFacts = RegexFacts(
    joinOnConstant: bool,        // on\s+\d+\s*=\s*\d+
    tautology: bool,             // \b1\s*=\s*1\b|\btrue\s*=\s*true\b
    contradiction: bool,         // \b1\s*=\s*0\b|\btrue\s*=\s*false\b
    aggregateInWhere: bool,      // where\b.*\b(sum|count|avg|min|max)\s*\(
    nonstandardFunction: bool,   // regexp|str_to_date|to_char\(|date_part\(|date_trunc\(
    literalVsNumber: bool,       // =\s*'\d+'
    functionMisuse: bool,        // count\s*\(\s*\*\s*\)\s+over
    aliases: seq<string>)        // re.findall of \bAS\s+(identifier), in order

  /** The `context` dict the checkers read. */
  datatype Ctx = Ctx(
    studentSql: string,
    referenceSql: string,
    studentTree: Option<Tree>,
    refTree: Option<Tree>,
    parseErrorStudent: Option<string>,
    metadata: StructuralDiff.Metadata,
    execStudent: ExecRecord,
    execRef: ExecRecord,
    regex: RegexFacts)

  /** `ctx_student_sql(ctx)` and `ctx_ref_sql(ctx)`: the texts, lower-cased. */
  function S(ctx: Ctx): string { Lower(ctx.studentSql) }
  function R(ctx: Ctx): string { Lower(ctx.referenceSql) }

  /** The keyword occurs in the reference text but not in the student's. */
  predicate Expected(ctx: Ctx, kw: string) {
    Contains(R(ctx), kw) && !Contains(S(ctx), kw)
  }

  /** The keyword occurs in the student text but not in the reference. */
  predicate Unexpected(ctx: Ctx, kw: string) {
    Contains(S(ctx), kw) && !Contains(R(ctx), kw)
  }

  function Flag(b: bool): (r: CheckResult)
    ensures r.matched == b && r.evidence == []
  {
    CheckResult(b, [])
  }

  predicate BothSucceeded(ctx: Ctx) {
    ctx.execStudent.success && ctx.execRef.success
  }

  // ---------------------------------------------------------------------------
  // Parsing, tables and joins
  // ---------------------------------------------------------------------------

  function ParseError(ctx: Ctx): (r: CheckResult)
    ensures r.matched <==> Truthy(ctx.parseErrorStudent)
    ensures r.matched ==> r.evidence == [Field("error", Text(ctx.parseErrorStudent.value))]
  {
    if Truthy(ctx.parseErrorStudent) then CheckResult(true, [Field("error", Text(ctx.parseErrorStudent.value))])
    else NoMatch
  }

  /** Fires exactly when some reference table is absent from the student's, reporting all of them. */
  function MissingTable(ctx: Ctx): (r: CheckResult)
    ensures r.matched <==> exists t :: t in ctx.metadata.referenceTables && t !in ctx.metadata.studentTables
    ensures r.matched ==> r.evidence == [Field("missing_tables", Strs(Minus(ctx.metadata.referenceTables, ctx.metadata.studentTables)))]
    ensures !r.matched ==> r.evidence == []
  {
    var missing := Minus(ctx.metadata.referenceTables, ctx.metadata.studentTables);
    if missing != [] then
      assert missing[0] in missing;
      CheckResult(true, [Field("missing_tables", Strs(missing))])
    else NoMatch
  }

  /** Fires exactly when some student table is absent from the reference, reporting all of them. */
  function ExtraTable(ctx: Ctx): (r: CheckResult)
    ensures r.matched <==> exists t :: t in ctx.metadata.studentTables && t !in ctx.metadata.referenceTables
    ensures r.matched ==> r.evidence == [Field("extra_tables", Strs(Minus(ctx.metadata.studentTables, ctx.metadata.referenceTables)))]
    ensures !r.matched ==> r.evidence == []
  {
    var extra := Minus(ctx.metadata.studentTables, ctx.metadata.referenceTables);
    if extra != [] then
      assert extra[0] in extra;
      CheckResult(true, [Field("extra_tables", Strs(extra))])
    else NoMatch
  }

  /** Several tables, no JOIN node and no "where" in the text (shared by `missing_join_condition` and `cartesian_product`). */
  predicate UnjoinedTables(ctx: Ctx) {
    ctx.studentTree.Some? && |TableNames(ctx.studentTree)| > 1
    && ctx.studentTree.value.joins == [] && !Contains(S(ctx), "where")
  }

  function MissingJoinCondition(ctx: Ctx): (r: CheckResult)
    ensures r.matched <==> UnjoinedTables(ctx)
    ensures r.matched ==> r.evidence == [Field("tables", Strs(TableNames(ctx.studentTree)))]
  {
    if UnjoinedTables(ctx) then CheckResult(true, [Field("tables", Strs(TableNames(ctx.studentTree)))])
    else NoMatch
  }

  /** Exactly one of the two texts mentions "left join". */
  function JoinTypeMismatch(ctx: Ctx): (r: CheckResult)
    ensures r.matched <==> Contains(S(ctx), "left join") != Contains(R(ctx), "left join")
    ensures r.evidence == []
  {
    Flag(Unexpected(ctx, "left join") || Expected(ctx, "left join"))
  }

  /** The `self_join_alias` test for one table `t` on the lower-cased text `s`. */
  predicate RepeatedUnaliased(s: string, t: string) {
    CountOf(s, t) > 1 && !Contains(s, " as ") && Contains(s, t + " ")
  }

  /** The first table, in the sorted table list, that passes the test. */
  function FirstRepeatedTable(tables: seq<string>, s: string): (r: Option<string>)
    ensures r.None? <==> forall k :: 0 <= k < |tables| ==> !RepeatedUnaliased(s, tables[k])
    ensures r.Some? ==> exists k :: (0 <= k < |tables| && tables[k] == r.value && RepeatedUnaliased(s, r.value)
      && forall j :: 0 <= j < k ==> !RepeatedUnaliased(s, tables[j]))
  {
    if tables == [] then None
    else if RepeatedUnaliased(s, tables[0]) then Some(tables[0])
    else
      var r := FirstRepeatedTable(tables[1..], s);
      if r.Some? then
        var k :| 0 <= k < |tables[1..]| && tables[1..][k] == r.value && RepeatedUnaliased(s, r.value)
          && forall j :: 0 <= j < k ==> !RepeatedUnaliased(s, tables[1..][j]);
        assert tables[k + 1] == r.value;
        r
      else
        r
  }

  /** The `for t in tables` loop of `check_self_join_aliasing`. */
  method ScanRepeatedTables(tables: seq<string>, s: string) returns (found: Option<string>)
    ensures found == FirstRepeatedTable(tables, s)
  {
    var i := 0;
    while i < |tables|
      invariant 0 <= i <= |tables|
      invariant FirstRepeatedTable(tables, s) == FirstRepeatedTable(tables[i..], s)
    {
      if RepeatedUnaliased(s, tables[i]) {
        return Some(tables[i]);
      }
      assert tables[i..][1..] == tables[i + 1..];
      i := i + 1;
    }
    return None;
  }

  function SelfJoinAlias(ctx: Ctx): (r: CheckResult)
    ensures r.matched <==> (ctx.studentTree.Some?
      && exists k :: 0 <= k < |TableNames(ctx.studentTree)| && RepeatedUnaliased(S(ctx), TableNames(ctx.studentTree)[k]))
    ensures r.matched ==> (FirstRepeatedTable(TableNames(ctx.studentTree), S(ctx)).Some?
      && r.evidence == [Field("table", Text(FirstRepeatedTable(TableNames(ctx.studentTree), S(ctx)).value))])
  {
    if ctx.studentTree.None? then NoMatch
    else match FirstRepeatedTable(TableNames(ctx.studentTree), S(ctx))
      case Some(t) => CheckResult(true, [Field("table", Text(t))])
      case None => NoMatch
  }

  // ---------------------------------------------------------------------------
  // Projection
  // ---------------------------------------------------------------------------

  /** The student columns are exactly `['*']`. */
  predicate StudentStar(ctx: Ctx) {
    ctx.metadata.studentColumns == ["*"]
  }

  /** Never fires on a bare `*`; otherwise fires exactly when some reference column is missing. */
  function MissingSelectColumn(ctx: Ctx): (r: CheckResult)
    ensures StudentStar(ctx) ==> !r.matched
    ensures !StudentStar(ctx) ==>
      (r.matched <==> exists c :: c in ctx.metadata.referenceColumns && c !in ctx.metadata.studentColumns)
    ensures r.matched ==>
      r.evidence == [Field("missing_columns", Strs(Minus(ctx.metadata.referenceColumns, ctx.metadata.studentColumns)))]
  {
    if StudentStar(ctx) then NoMatch
    else
      var missing := Minus(ctx.metadata.referenceColumns, ctx.metadata.studentColumns);
      if missing != [] then
        assert missing[0] in missing;
        CheckResult(true, [Field("missing_columns", Strs(missing))])
      else NoMatch
  }

  /** A bare `*` against an explicit list reports `["*"]`; otherwise the student-only columns. */
  function ExtraSelectColumn(ctx: Ctx): (r: CheckResult)
    ensures StudentStar(ctx) && ctx.metadata.referenceColumns != ["*"] ==>
      r == CheckResult(true, [Field("extra_columns", Strs(["*"]))])
    ensures !(StudentStar(ctx) && ctx.metadata.referenceColumns != ["*"]) ==>
      (r.matched <==> exists c :: c in ctx.metadata.studentColumns && c !in ctx.metadata.referenceColumns)
    ensures !(StudentStar(ctx) && ctx.metadata.referenceColumns != ["*"]) && r.matched ==>
      r.evidence == [Field("extra_columns", Strs(Minus(ctx.metadata.studentColumns, ctx.metadata.referenceColumns)))]
  {
    if StudentStar(ctx) && ctx.metadata.referenceColumns != ["*"] then
      CheckResult(true, [Field("extra_columns", Strs(["*"]))])
    else
      var extra := Minus(ctx.metadata.studentColumns, ctx.metadata.referenceColumns);
      if extra != [] then
        assert extra[0] in extra;
        CheckResult(true, [Field("extra_columns", Strs(extra))])
      else NoMatch
  }

  // ---------------------------------------------------------------------------
  // Aggregation and grouping
  // ---------------------------------------------------------------------------

  /** The lower-cased columns of the select items that have columns but no aggregate, item by item. */
  function NonAggregated(items: seq<SelectItem>): seq<string> {
    if items == [] then []
    else
      var last := items[|items| - 1];
      NonAggregated(items[..|items| - 1])
      + (if last.columns != [] && !HasAggregate(last.funcs) then LowerAll(last.columns) else [])
  }

  /** A column is reported exactly when it belongs to a non-aggregated item that has columns. */
  lemma {:induction false} NonAggregatedMembers(items: seq<SelectItem>, c: string)
    ensures c in NonAggregated(items) <==>
      exists i :: 0 <= i < |items| && items[i].columns != [] && !HasAggregate(items[i].funcs)
                  && c in LowerAll(items[i].columns)
    decreases |items|
  {
    if items != [] {
      var init := items[..|items| - 1];
      NonAggregatedMembers(init, c);
      if exists i :: 0 <= i < |init| && init[i].columns != [] && !HasAggregate(init[i].funcs)
                     && c in LowerAll(init[i].columns) {
        var i :| 0 <= i < |init| && init[i].columns != [] && !HasAggregate(init[i].funcs)
                 && c in LowerAll(init[i].columns);
        assert items[i] == init[i];
      }
      if exists i :: 0 <= i < |items| && items[i].columns != [] && !HasAggregate(items[i].funcs)
                     && c in LowerAll(items[i].columns) {
        var i :| 0 <= i < |items| && items[i].columns != [] && !HasAggregate(items[i].funcs)
                 && c in LowerAll(items[i].columns);
        if i < |init| {
          assert init[i] == items[i];
        }
      }
    }
  }

  /** The `for e in sel.expressions` loop of `check_aggregate_without_group_by`. */
  method CollectNonAggregated(items: seq<SelectItem>) returns (nonagg: seq<string>)
    ensures nonagg == NonAggregated(items)
  {
    nonagg := [];
    for i := 0 to |items|
      invariant nonagg == NonAggregated(items[..i])
    {
      assert items[..i + 1][..i] == items[..i];
      var e := items[i];
      if e.columns != [] && !HasAggregate(e.funcs) {
        nonagg := nonagg + LowerAll(e.columns);
      }
    }
    assert items[..|items|] == items;
  }

  function SelectItems(t: Option<Tree>): seq<SelectItem> {
    if t.Some? && t.value.select.Some? then t.value.select.value else []
  }

  function AggregateWithoutGroupBy(ctx: Ctx): (r: CheckResult)
    ensures r.matched <==> (ctx.studentTree.Some? && HasAggregate(ctx.studentTree.value.funcs)
      && NonAggregated(SelectItems(ctx.studentTree)) != [] && ctx.studentTree.value.group.None?)
    ensures r.matched ==> r.evidence == [Field("nonagg", Strs(NonAggregated(SelectItems(ctx.studentTree))))]
  {
    if ctx.studentTree.Some? && HasAggregate(ctx.studentTree.value.funcs) then
      var nonagg := NonAggregated(SelectItems(ctx.studentTree));
      if nonagg != [] && ctx.studentTree.value.group.None? then CheckResult(true, [Field("nonagg", Strs(nonagg))])
      else NoMatch
    else NoMatch
  }

  /**
   * Fires when the reference has a GROUP BY with a key the student's GROUP BY lacks; the keys
   * are reported sorted (the source walks a set, whose order is not fixed).
   */
  function GroupByMissingColumns(ctx: Ctx): (r: CheckResult)
    ensures r.matched <==> (ctx.refTree.Some? && ctx.refTree.value.group.Some?
      && exists k :: k in LowerAll(ctx.refTree.value.group.value) && k !in GroupKeys(ctx.studentTree))
    ensures r.matched ==> (|r.evidence| == 1 && r.evidence[0].key == "missing_group_by"
      && r.evidence[0].value.Strs?
      && forall k :: k in r.evidence[0].value.strs <==>
           k in LowerAll(ctx.refTree.value.group.value) && k !in GroupKeys(ctx.studentTree))
  {
    if ctx.refTree.Some? && ctx.refTree.value.group.Some? then
      var keys := LowerAll(ctx.refTree.value.group.value);
      SortedSetCorrect(keys);
      var missing := Minus(SortedSet(keys), GroupKeys(ctx.studentTree));
      assert forall k :: k in SortedSet(keys) <==> k in ToSet(keys);
      if missing != [] then
        assert missing[0] in missing;
        CheckResult(true, [Field("missing_group_by", Strs(missing))])
      else NoMatch
    else NoMatch
  }

  function HavingWithoutAggregate(ctx: Ctx): (r: CheckResult)
    ensures r.matched <==> ctx.studentTree.Some? && ctx.studentTree.value.having && !HasAggregate(ctx.studentTree.value.funcs)
    ensures r.evidence == []
  {
    Flag(ctx.studentTree.Some? && ctx.studentTree.value.having && !HasAggregate(ctx.studentTree.value.funcs))
  }

  /** The non-empty aliases of the items, in order. */
  function Aliases(items: seq<SelectItem>): (r: seq<string>)
    ensures forall a :: a in r <==> a != "" && exists i :: 0 <= i < |items| && items[i].alias == a
    ensures r == [] <==> forall i :: 0 <= i < |items| ==> items[i].alias == ""
  {
    if items == [] then []
    else
      var rest := Aliases(items[1..]);
      assert forall i :: 1 <= i < |items| ==> items[1..][i - 1] == items[i];
      if items[0].alias != "" then [items[0].alias] + rest else rest
  }

  /** The reference aliases some expression and the student aliases none. */
  function AggregationAliasMissing(ctx: Ctx): (r: CheckResult)
    ensures r.matched <==> (ctx.refTree.Some? && ctx.refTree.value.select.Some?
      && ctx.studentTree.Some? && ctx.studentTree.value.select.Some?
      && (exists i :: 0 <= i < |ctx.refTree.value.select.value| && ctx.refTree.value.select.value[i].alias != "")
      && (forall i :: 0 <= i < |ctx.studentTree.value.select.value| ==> ctx.studentTree.value.select.value[i].alias == ""))
    ensures r.matched ==> (ctx.refTree.Some? && ctx.refTree.value.select.Some?
      && r.evidence == [Field("expected_aliases", Strs(Aliases(ctx.refTree.value.select.value)))])
  {
    if ctx.refTree.Some? && ctx.refTree.value.select.Some? && ctx.studentTree.Some? && ctx.studentTree.value.select.Some? then
      var expected := Aliases(ctx.refTree.value.select.value);
      if expected != [] && Aliases(ctx.studentTree.value.select.value) == [] then
        CheckResult(true, [Field("expected_aliases", Strs(expected))])
      else NoMatch
    else NoMatch
  }

  // ---------------------------------------------------------------------------
  // WHERE and predicates
  // ---------------------------------------------------------------------------

  function MissingWhere(ctx: Ctx): (r: CheckResult)
    ensures r.matched <==> Contains(R(ctx), "where") && !Contains(S(ctx), "where")
    ensures r.evidence == []
  {
    Flag(Expected(ctx, "where"))
  }

  function ExtraWhere(ctx: Ctx): (r: CheckResult)
    ensures r.matched <==> Contains(S(ctx), "where") && !Contains(R(ctx), "where")
    ensures r.evidence == []
  {
    Flag(Unexpected(ctx, "where"))
  }

  /** `str(where)` of a tree, "" without one. */
  function WhereText(t: Option<Tree>): string {
    if t.Some? && t.value.where.Some? then t.value.where.value else ""
  }

  /** Both queries have a WHERE and the two texts differ after `strip().lower()`. */
  function WhereDiffers(ctx: Ctx): (r: CheckResult)
    ensures r.matched <==> (WhereText(ctx.refTree) != "" && WhereText(ctx.studentTree) != ""
      && Lower(Strip(WhereText(ctx.refTree))) != Lower(Strip(WhereText(ctx.studentTree))))
    ensures r.matched ==>
      r.evidence == [Field("ref_where", Text(WhereText(ctx.refTree))), Field("stu_where", Text(WhereText(ctx.studentTree)))]
  {
    var wr, ws := WhereText(ctx.refTree), WhereText(ctx.studentTree);
    if wr != "" && ws != "" && Lower(Strip(wr)) != Lower(Strip(ws)) then
      CheckResult(true, [Field("ref_where", Text(wr)), Field("stu_where", Text(ws))])
    else NoMatch
  }

  // ---------------------------------------------------------------------------
  // Subqueries, CTEs and windows
  // ---------------------------------------------------------------------------

  function MissingSubquery(ctx: Ctx): (r: CheckResult)
    ensures r.matched <==> ctx.metadata.referenceSubqueries > ctx.metadata.studentSubqueries
    ensures r.evidence == []
  {
    Flag(ctx.metadata.referenceSubqueries > ctx.metadata.studentSubqueries)
  }

  /** `check_window_usage_mismatch`: false when both use `over(`, true when only the reference does. */
  function WindowMismatch(ctx: Ctx): (r: CheckResult)
    ensures r.matched <==> Expected(ctx, "over(")
    ensures r.evidence == []
  {
    if Contains(R(ctx), "over(") && Contains(S(ctx), "over(") then NoMatch
    else if Contains(R(ctx), "over(") && !Contains(S(ctx), "over(") then Flag(true)
    else NoMatch
  }

  // ---------------------------------------------------------------------------
  // Execution results
  // ---------------------------------------------------------------------------

  /** The student's failure is reported before the reference's. */
  function ExecutionError(ctx: Ctx): (r: CheckResult)
    ensures r.matched <==> !ctx.execStudent.success || !ctx.execRef.success
    ensures !ctx.execStudent.success ==> r.evidence == [Field("student_error", MaybeText(ctx.execStudent.error))]
    ensures ctx.execStudent.success && !ctx.execRef.success ==>
      r.evidence == [Field("reference_error", MaybeText(ctx.execRef.error))]
  {
    if !ctx.execStudent.success then CheckResult(true, [Field("student_error", MaybeText(ctx.execStudent.error))])
    else if !ctx.execRef.success then CheckResult(true, [Field("reference_error", MaybeText(ctx.execRef.error))])
    else NoMatch
  }

  function StudentNoRows(ctx: Ctx): (r: CheckResult)
    ensures r.matched <==> BothSucceeded(ctx) && |ctx.execStudent.rows| == 0 && |ctx.execRef.rows| > 0
    ensures r.matched ==> r.evidence == [Field("student_rows", Count(0)), Field("reference_rows", Count(|ctx.execRef.rows|))]
  {
    if BothSucceeded(ctx) && |ctx.execStudent.rows| == 0 && |ctx.execRef.rows| > 0 then
      CheckResult(true, [Field("student_rows", Count(0)), Field("reference_rows", Count(|ctx.execRef.rows|))])
    else NoMatch
  }

  function StudentMoreRows(ctx: Ctx): (r: CheckResult)
    ensures r.matched <==> BothSucceeded(ctx) && |ctx.execStudent.rows| > |ctx.execRef.rows|
    ensures r.matched ==>
      r.evidence == [Field("student_rows", Count(|ctx.execStudent.rows|)), Field("reference_rows", Count(|ctx.execRef.rows|))]
  {
    if BothSucceeded(ctx) && |ctx.execStudent.rows| > |ctx.execRef.rows| then
      CheckResult(true, [Field("student_rows", Count(|ctx.execStudent.rows|)), Field("reference_rows", Count(|ctx.execRef.rows|))])
    else NoMatch
  }

  /** One row on each side, and the two rows differ. */
  function AggregateValueMismatch(ctx: Ctx): (r: CheckResult)
    ensures r.matched <==> (BothSucceeded(ctx) && |ctx.execRef.rows| == 1 && |ctx.execStudent.rows| == 1
      && ctx.execRef.rows[0] != ctx.execStudent.rows[0])
    ensures r.matched ==> r.evidence == [Field("ref", Tuple(ctx.execRef.rows[0])), Field("stu", Tuple(ctx.execStudent.rows[0]))]
  {
    if BothSucceeded(ctx) && |ctx.execRef.rows| == 1 && |ctx.execStudent.rows| == 1
       && ctx.execRef.rows[0] != ctx.execStudent.rows[0]
    then CheckResult(true, [Field("ref", Tuple(ctx.execRef.rows[0])), Field("stu", Tuple(ctx.execStudent.rows[0]))])
    else NoMatch
  }

  /** The same rows as a bag, in a different order. */
  function OrderingDifference(ctx: Ctx): (r: CheckResult)
    ensures r.matched <==> (BothSucceeded(ctx) && multiset(ctx.execRef.rows) == multiset(ctx.execStudent.rows)
      && ctx.execRef.rows != ctx.execStudent.rows)
    ensures r.evidence == []
  {
    SortRowsEqualIff(ctx.execRef.rows, ctx.execStudent.rows);
    Flag(BothSucceeded(ctx) && SortRows(ctx.execRef.rows) == SortRows(ctx.execStudent.rows)
         && ctx.execRef.rows != ctx.execStudent.rows)
  }

  // ---------------------------------------------------------------------------
  // Style, dialect and miscellaneous
  // ---------------------------------------------------------------------------

  function QuotedIdentifiers(ctx: Ctx): (r: CheckResult)
    ensures r.matched <==> '"' in S(ctx) || '`' in S(ctx)
    ensures r.evidence == []
  {
    ContainsOneChar(S(ctx), '"');
    ContainsOneChar(S(ctx), '`');
    Flag(Contains(S(ctx), "\"") || Contains(S(ctx), "`"))
  }

  /** A one-character pattern occurs exactly when the character does. */
  lemma {:induction false} ContainsOneChar(s: string, c: char)
    ensures Contains(s, [c]) <==> c in s
    decreases |s|
  {
    if s != [] {
      ContainsOneChar(s[1..], c);
      assert c in s <==> s[0] == c || c in s[1..];
    }
  }

  function DistinctMismatch(ctx: Ctx): (r: CheckResult)
    ensures r.matched <==> Contains(S(ctx), "distinct") != Contains(R(ctx), "distinct")
    ensures r.evidence == []
  {
    Flag(Contains(S(ctx), "distinct") != Contains(R(ctx), "distinct"))
  }

  function JsonOps(ctx: Ctx): (r: CheckResult)
    ensures r.matched <==> Contains(S(ctx), "->") || Contains(S(ctx), "json")
    ensures r.evidence == []
  {
    Flag(Contains(S(ctx), "->") || Contains(S(ctx), "json"))
  }

  function CaseWhenIncomplete(ctx: Ctx): (r: CheckResult)
    ensures r.matched <==> Contains(S(ctx), "case when") && !Contains(S(ctx), "end")
    ensures r.evidence == []
  {
    Flag(Contains(S(ctx), "case when") && !Contains(S(ctx), "end"))
  }

  /** `xs.count(x)` */
  function Occurrences(xs: seq<string>, x: string): (n: nat)
    ensures n > 0 <==> x in xs
    ensures n <= |xs|
  {
    if xs == [] then 0 else (if xs[0] == x then 1 else 0) + Occurrences(xs[1..], x)
  }

  /** The first alias, in list order, that occurs more than once. */
  function FirstRepeatedAlias(aliases: seq<string>): (r: Option<string>)
    ensures r.Some? ==> r.value in aliases && Occurrences(aliases, r.value) > 1
    ensures r.None? ==> forall a :: a in aliases ==> Occurrences(aliases, a) <= 1
  {
    if aliases == [] then None
    else if Occurrences(aliases, aliases[0]) > 1 then Some(aliases[0])
    else
      var r := FirstRepeatedAlias(aliases[1..]);
      OccurrencesTail(aliases);
      r
  }

  lemma OccurrencesTail(aliases: seq<string>)
    requires aliases != []
    ensures forall a :: a != aliases[0] ==> Occurrences(aliases, a) == Occurrences(aliases[1..], a)
  {
  }

  /** Two positions hold the same alias exactly when some alias occurs more than once. */
  lemma {:induction false} DuplicateIffRepeated(xs: seq<string>)
    ensures HasDuplicate(xs) <==> exists a :: a in xs && Occurrences(xs, a) > 1
    decreases |xs|
  {
    if xs != [] {
      DuplicateIffRepeated(xs[1..]);
      if HasDuplicate(xs) {
        var i, j :| 0 <= i < j < |xs| && xs[i] == xs[j];
        if i == 0 {
          assert xs[j] == xs[1..][j - 1];
          assert Occurrences(xs, xs[0]) > 1;
        } else {
          assert xs[1..][i - 1] == xs[i] && xs[1..][j - 1] == xs[j];
          assert HasDuplicate(xs[1..]);
          var a :| a in xs[1..] && Occurrences(xs[1..], a) > 1;
          assert Occurrences(xs, a) >= Occurrences(xs[1..], a);
        }
      }
      if exists a :: a in xs && Occurrences(xs, a) > 1 {
        var a :| a in xs && Occurrences(xs, a) > 1;
        if a == xs[0] {
          assert a in xs[1..];
          var j :| 0 <= j < |xs[1..]| && xs[1..][j] == a;
          assert xs[0] == xs[j + 1];
        } else {
          assert Occurrences(xs[1..], a) > 1;
          assert HasDuplicate(xs[1..]);
          var i, j :| 0 <= i < j < |xs[1..]| && xs[1..][i] == xs[1..][j];
          assert xs[i + 1] == xs[j + 1];
        }
      }
    }
  }

  /** Fires exactly when some alias is repeated, and reports a repeated one. */
  function AliasConflict(ctx: Ctx): (r: CheckResult)
    ensures r.matched <==> HasDuplicate(ctx.regex.aliases)
    ensures r.matched ==> exists a :: r.evidence == [Field("alias", Text(a))] && Occurrences(ctx.regex.aliases, a) > 1
  {
    DuplicateIffRepeated(ctx.regex.aliases);
    match FirstRepeatedAlias(ctx.regex.aliases)
    case Some(a) => CheckResult(true, [Field("alias", Text(a))])
    case None => NoMatch
  }

  function NullHandling(ctx: Ctx): (r: CheckResult)
    ensures r.matched <==> Contains(S(ctx), "is null") || Contains(S(ctx), "is not null")
    ensures r.evidence == []
  {
    Flag(Contains(S(ctx), "is null") || Contains(S(ctx), "is not null"))
  }

  /** The lowered text is longer than 300 characters and mentions "where". */
  function ComplexWhere(ctx: Ctx): (r: CheckResult)
    ensures r.matched <==> |ctx.studentSql| > 300 && Contains(S(ctx), "where")
    ensures r.evidence == []
  {
    Flag(|S(ctx)| > 300 && Contains(S(ctx), "where"))
  }

  function CartesianProduct(ctx: Ctx): (r: CheckResult)
    ensures r.matched <==> UnjoinedTables(ctx)
    ensures r.matched ==> r.evidence == [Field("tables", Strs(TableNames(ctx.studentTree)))]
  {
    if UnjoinedTables(ctx) then CheckResult(true, [Field("tables", Strs(TableNames(ctx.studentTree)))])
    else NoMatch
  }

  // ---------------------------------------------------------------------------
  // The checkers by name
  // ---------------------------------------------------------------------------

  /** One tag per checker function of the catalogue, and one for the generic fallback's lambda. */
  datatype Check =
    | ParseErrorCheck | MissingTableCheck | ExtraTableCheck | MissingJoinConditionCheck
    | JoinTypeMismatchCheck | JoinOnConstantCheck | SelfJoinAliasCheck | SelectStarCheck
    | MissingSelectColumnCheck | ExtraSelectColumnCheck | AggregateWithoutGroupByCheck
    | GroupByMissingColumnsCheck | HavingWithoutAggregateCheck | AggregationAliasMissingCheck
    | MissingWhereCheck | ExtraWhereCheck | TautologyCheck | ContradictoryPredicateCheck
    | AggregateInWhereCheck | WhereDiffersCheck | MissingSubqueryCheck | CteExpectedCheck
    | WindowExpectedCheck | ExecutionErrorCheck | StudentNoRowsCheck | StudentMoreRowsCheck
    | AggregateValueMismatchCheck | OrderingDifferenceCheck | NonstandardFunctionCheck
    | QuotedIdentifiersCheck | DistinctMismatchCheck | UnexpectedUnionCheck | JsonOpsCheck
    | CaseWhenIncompleteCheck | AliasConflictCheck | LikeUsageCheck | LimitMissingCheck
    | NullHandlingCheck | LiteralVsNumberCheck | ComplexWhereCheck | OrderByMissingCheck
    | WindowMismatchCheck | FunctionMisuseCheck | CartesianProductCheck | UnusedTableCheck
    | SemanticMismatchCheck

  /** `c.checker(context)` */
  function RunCheck(c: Check, ctx: Ctx): CheckResult {
    match c
    case ParseErrorCheck => ParseError(ctx)
    case MissingTableCheck => MissingTable(ctx)
    case ExtraTableCheck => ExtraTable(ctx)
    case MissingJoinConditionCheck => MissingJoinCondition(ctx)
    case JoinTypeMismatchCheck => JoinTypeMismatch(ctx)
    case JoinOnConstantCheck => Flag(ctx.regex.joinOnConstant)
    case SelfJoinAliasCheck => SelfJoinAlias(ctx)
    case SelectStarCheck => Flag(Contains(S(ctx), "*"))
    case MissingSelectColumnCheck => MissingSelectColumn(ctx)
    case ExtraSelectColumnCheck => ExtraSelectColumn(ctx)
    case AggregateWithoutGroupByCheck => AggregateWithoutGroupBy(ctx)
    case GroupByMissingColumnsCheck => GroupByMissingColumns(ctx)
    case HavingWithoutAggregateCheck => HavingWithoutAggregate(ctx)
    case AggregationAliasMissingCheck => AggregationAliasMissing(ctx)
    case MissingWhereCheck => MissingWhere(ctx)
    case ExtraWhereCheck => ExtraWhere(ctx)
    case TautologyCheck => Flag(ctx.regex.tautology)
    case ContradictoryPredicateCheck => Flag(ctx.regex.contradiction)
    case AggregateInWhereCheck => Flag(ctx.regex.aggregateInWhere)
    case WhereDiffersCheck => WhereDiffers(ctx)
    case MissingSubqueryCheck => MissingSubquery(ctx)
    case CteExpectedCheck => Flag(Expected(ctx, "with "))
    case WindowExpectedCheck => Flag(Expected(ctx, "over("))
    case ExecutionErrorCheck => ExecutionError(ctx)
    case StudentNoRowsCheck => StudentNoRows(ctx)
    case StudentMoreRowsCheck => StudentMoreRows(ctx)
    case AggregateValueMismatchCheck => AggregateValueMismatch(ctx)
    case OrderingDifferenceCheck => OrderingDifference(ctx)
    case NonstandardFunctionCheck => Flag(ctx.regex.nonstandardFunction)
    case QuotedIdentifiersCheck => QuotedIdentifiers(ctx)
    case DistinctMismatchCheck => DistinctMismatch(ctx)
    case UnexpectedUnionCheck => Flag(Unexpected(ctx, "union"))
    case JsonOpsCheck => JsonOps(ctx)
    case CaseWhenIncompleteCheck => CaseWhenIncomplete(ctx)
    case AliasConflictCheck => AliasConflict(ctx)
    case LikeUsageCheck => Flag(Unexpected(ctx, "like"))
    case LimitMissingCheck => Flag(Expected(ctx, "limit"))
    case NullHandlingCheck => NullHandling(ctx)
    case LiteralVsNumberCheck => Flag(ctx.regex.literalVsNumber)
    case ComplexWhereCheck => ComplexWhere(ctx)
    case OrderByMissingCheck => Flag(Expected(ctx, "order by"))
    case WindowMismatchCheck => WindowMismatch(ctx)
    case FunctionMisuseCheck => Flag(ctx.regex.functionMisuse)
    case CartesianProductCheck => CartesianProduct(ctx)
    case UnusedTableCheck => NoMatch
    case SemanticMismatchCheck => CheckResult(true, [])
  }

  // ---------------------------------------------------------------------------
  // Relations between checkers
  // ---------------------------------------------------------------------------

  /** `missing_where` and `extra_where` never both fire. */
  lemma WhereChecksExclusive(ctx: Ctx)
    ensures !(RunCheck(MissingWhereCheck, ctx).matched && RunCheck(ExtraWhereCheck, ctx).matched)
  {
  }

  /** `cartesian_product` fires exactly when `missing_join_condition` does, with the same evidence. */
  lemma CartesianSameAsMissingJoin(ctx: Ctx)
    ensures RunCheck(CartesianProductCheck, ctx) == RunCheck(MissingJoinConditionCheck, ctx)
  {
  }

  /** `window_mismatch` gives exactly what `window_expected` gives. */
  lemma WindowChecksAgree(ctx: Ctx)
    ensures RunCheck(WindowMismatchCheck, ctx) == RunCheck(WindowExpectedCheck, ctx)
  {
  }

  /** `unused_table` never fires. */
  lemma UnusedTableNeverFires(ctx: Ctx)
    ensures !RunCheck(UnusedTableCheck, ctx).matched
  {
  }

  /** With a bare `*` on the student side, the missing-column check is silent. */
  lemma StarSilencesMissingColumns(ctx: Ctx)
    requires ctx.metadata.studentColumns == ["*"]
    ensures !RunCheck(MissingSelectColumnCheck, ctx).matched
  {
  }

  /** The two row-count checks never both fire, and neither fires unless both queries ran. */
  lemma RowCountChecksExclusive(ctx: Ctx)
    ensures !(RunCheck(StudentNoRowsCheck, ctx).matched && RunCheck(StudentMoreRowsCheck, ctx).matched)
    ensures RunCheck(StudentNoRowsCheck, ctx).matched || RunCheck(StudentMoreRowsCheck, ctx).matched ==>
      BothSucceeded(ctx) && !RunCheck(ExecutionErrorCheck, ctx).matched
  {
  }

  /** Every failed execution is caught by `execution_error`, and no result-based check fires then. */
  lemma FailureOnlyExecutionError(ctx: Ctx)
    requires !BothSucceeded(ctx)
    ensures RunCheck(ExecutionErrorCheck, ctx).matched
    ensures !RunCheck(StudentNoRowsCheck, ctx).matched && !RunCheck(StudentMoreRowsCheck, ctx).matched
    ensures !RunCheck(AggregateValueMismatchCheck, ctx).matched && !RunCheck(OrderingDifferenceCheck, ctx).matched
  {
  }
}
