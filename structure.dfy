/**
 * The structural differ of new.py: `canonicalize`'s empty-input guard, `collect_select_columns`,
 * and `ast_diff`, which compares the collected facts of the two queries and reports each
 * difference as a message, in a fixed order, together with the metadata the checkers read.
 */
module StructuralDiff {
  import opened Base
  import opened Order
  import opened QueryFacts

  // ---------------------------------------------------------------------------
  // canonicalize and the re-parse
  // ---------------------------------------------------------------------------

  /**
   * `canonicalize`: blank text is refused with "Empty SQL" before the parser is consulted;
   * otherwise the parser's outcome (canonical text or error message) is passed on.
   */
  function Canonicalize(sql: string, parsed: Outcome<string>): (r: (Option<string>, Option<string>))
    ensures r.0.Some? != r.1.Some?
    ensures IsBlank(sql) ==> r == (None, Some("Empty SQL"))
    ensures !IsBlank(sql) ==> (r.0.Some? <==> parsed.Ok?)
    ensures !IsBlank(sql) && parsed.Err? ==> r.1 == Some(parsed.message)
  {
    if IsBlank(sql) then (None, Some("Empty SQL"))
    else match parsed
      case Ok(c) => (Some(c), None)
      case Err(m) => (None, Some(m))
  }

  /** The tree `ast_diff` re-parses from the canonical text; None when there is none or the parse raised. */
  function ReparsedTree(can: Option<string>, reparse: Outcome<Tree>): Option<Tree> {
    if Truthy(can) && reparse.Ok? then Some(reparse.value) else None
  }

  /** The parse error after the re-parse: a re-parse exception fills it only when it is still empty. */
  function ReparseError(can: Option<string>, err: Option<string>, reparse: Outcome<Tree>): Option<string> {
    if Truthy(can) && reparse.Err? && !Truthy(err) then Some(reparse.message) else err
  }

  // ---------------------------------------------------------------------------
  // collect_select_columns
  // ---------------------------------------------------------------------------

  /** `expr.sql().strip() == '*'`: the text is a `*` with only whitespace around it. */
  predicate IsStar(item: SelectItem) {
    StarText(item.text)
  }

  /** The lower-cased column texts of the items, item by item. */
  function LoweredColumns(items: seq<SelectItem>): seq<string> {
    if items == [] then []
    else LoweredColumns(items[..|items| - 1]) + LowerAll(items[|items| - 1].columns)
  }

  function SelectColumns(t: Option<Tree>): seq<string> {
    if t.None? || t.value.select.None? then []
    else
      var items := t.value.select.value;
      if exists i :: 0 <= i < |items| && IsStar(items[i]) then ["*"]
      else SortedSet(LoweredColumns(items))
  }

  lemma LowerAllPrefix(xs: seq<string>, j: nat)
    requires j < |xs|
    ensures LowerAll(xs[..j + 1]) == LowerAll(xs[..j]) + [Lower(xs[j])]
  {
    assert xs[..j + 1] == xs[..j] + [xs[j]];
  }

  lemma LoweredColumnsPrefix(items: seq<SelectItem>, i: nat)
    requires i < |items|
    ensures LoweredColumns(items[..i + 1]) == LoweredColumns(items[..i]) + LowerAll(items[i].columns)
  {
    assert items[..i + 1][..i] == items[..i];
  }

  /** `collect_select_columns`: stops at a bare `*`; otherwise collects the columns of every expression. */
  method CollectSelectColumns(t: Option<Tree>) returns (cols: seq<string>)
    ensures cols == SelectColumns(t)
  {
    if t.None? || t.value.select.None? {
      return [];
    }
    var items := t.value.select.value;
    var acc: seq<string> := [];
    var i := 0;
    while i < |items|
      invariant 0 <= i <= |items|
      invariant acc == LoweredColumns(items[..i])
      invariant forall k :: 0 <= k < i ==> !IsStar(items[k])
    {
      var star := IsStar(items[i]);
      if star {
        return ["*"];
      }
      assert !IsStar(items[i]);
      var columns := items[i].columns;
      var j := 0;
      while j < |columns|
        invariant 0 <= j <= |columns|
        invariant acc == LoweredColumns(items[..i]) + LowerAll(columns[..j])
      {
        LowerAllPrefix(columns, j);
        acc := acc + [Lower(columns[j])];
        j := j + 1;
      }
      assert columns[..j] == columns;
      LoweredColumnsPrefix(items, i);
      i := i + 1;
    }
    assert items[..i] == items;
    cols := SortedSet(acc);
  }

  lemma {:induction false} LoweredColumnsNoUpper(items: seq<SelectItem>)
    ensures forall c :: c in LoweredColumns(items) ==> NoUpper(c)
    decreases |items|
  {
    if items != [] {
      LoweredColumnsNoUpper(items[..|items| - 1]);
      forall c | c in LowerAll(items[|items| - 1].columns) ensures NoUpper(c) {
        var k :| 0 <= k < |items[|items| - 1].columns| && LowerAll(items[|items| - 1].columns)[k] == c;
        LowerHasNoUpper(items[|items| - 1].columns[k]);
      }
    }
  }

  /**
   * The selected columns are a sorted, duplicate-free list of lower-case texts; they are
   * `["*"]` when some expression is a bare `*`, and otherwise hold exactly the lower-cased
   * column texts.
   */
  lemma SelectColumnsShape(t: Option<Tree>)
    ensures StrictlySorted(SelectColumns(t))
    ensures forall c :: c in SelectColumns(t) ==> NoUpper(c)
    ensures t.Some? && t.value.select.Some? &&
      (exists i :: 0 <= i < |t.value.select.value| && IsStar(t.value.select.value[i]))
      ==> SelectColumns(t) == ["*"]
    ensures t.Some? && t.value.select.Some? &&
      (forall i :: 0 <= i < |t.value.select.value| ==> !IsStar(t.value.select.value[i]))
      ==> ToSet(SelectColumns(t)) == ToSet(LoweredColumns(t.value.select.value))
  {
    assert NoUpper("*");
    if t.Some? && t.value.select.Some? {
      var items := t.value.select.value;
      if !exists i :: 0 <= i < |items| && IsStar(items[i]) {
        SortedSetCorrect(LoweredColumns(items));
        LoweredColumnsNoUpper(items);
        assert forall c :: c in SelectColumns(t) ==> c in ToSet(LoweredColumns(items));
      }
    }
  }

  // ---------------------------------------------------------------------------
  // The differences and their messages
  // ---------------------------------------------------------------------------

  datatype Diff =
    | MissingSelectColumns(columns: seq<string>)
    | ExtraSelectColumns(columns: seq<string>)
    | MissingTables(tables: seq<string>)
    | ExtraTables(tables: seq<string>)
    | SubqueryCountDiffers(student: nat, reference: nat)
    | WindowUsageDiffers
    | CteUsageDiffers
    | GroupByMismatch(studentKeys: seq<string>, referenceKeys: seq<string>)
    | JoinStructureDiffers

  function Message(d: Diff): string {
    match d
    case MissingSelectColumns(c) => "Missing SELECT columns: " + ListRepr(c)
    case ExtraSelectColumns(c) => "Extra SELECT columns: " + ListRepr(c)
    case MissingTables(t) => "Missing tables in FROM/JOIN: " + ListRepr(t)
    case ExtraTables(t) => "Extra tables in FROM/JOIN: " + ListRepr(t)
    case SubqueryCountDiffers(s, r) =>
      "Different nested-subquery count (student=" + NatToString(s) + ", ref=" + NatToString(r) + ")"
    case WindowUsageDiffers => "Window function usage differs between student and reference."
    case CteUsageDiffers => "CTE/ WITH usage differs between student and reference."
    case GroupByMismatch(s, r) => "GROUP BY mismatch: student=" + ListRepr(s) + ", ref=" + ListRepr(r)
    case JoinStructureDiffers => "Join structure differs (check join keys/types)."
  }

  function Messages(ds: seq<Diff>): seq<string> {
    seq(|ds|, i requires 0 <= i < |ds| => Message(ds[i]))
  }

  function HasWindow(t: Option<Tree>): bool {
    t.Some? && t.value.windows
  }

  function HasCte(t: Option<Tree>): bool {
    t.Some? && t.value.ctes
  }

  /** The column report: only when the two lists differ as sets, missing then extra, each if non-empty. */
  function ColumnDiffs(s: seq<string>, r: seq<string>): seq<Diff> {
    if ToSet(s) == ToSet(r) then []
    else
      (if Minus(r, s) != [] then [MissingSelectColumns(Minus(r, s))] else [])
      + (if Minus(s, r) != [] then [ExtraSelectColumns(Minus(s, r))] else [])
  }

  /** The table report, built the same way. */
  function TableDiffs(s: seq<string>, r: seq<string>): seq<Diff> {
    if ToSet(s) == ToSet(r) then []
    else
      (if Minus(r, s) != [] then [MissingTables(Minus(r, s))] else [])
      + (if Minus(s, r) != [] then [ExtraTables(Minus(s, r))] else [])
  }

  /** The facts `ast_diff` collects from the two trees. */
  datatype Collected = Collected(
    studentColumns: seq<string>, referenceColumns: seq<string>,
    studentTables: seq<string>, referenceTables: seq<string>,
    studentSubqueries: nat, referenceSubqueries: nat,
    studentWindow: bool, referenceWindow: bool,
    studentCte: bool, referenceCte: bool,
    studentGroup: seq<string>, referenceGroup: seq<string>,
    studentJoins: seq<string>, referenceJoins: seq<string>)

  function Collect(st: Option<Tree>, rt: Option<Tree>): Collected {
    Collected(SelectColumns(st), SelectColumns(rt), TableNames(st), TableNames(rt),
              SubqueryCount(st), SubqueryCount(rt), HasWindow(st), HasWindow(rt),
              HasCte(st), HasCte(rt), GroupKeys(st), GroupKeys(rt), JoinTexts(st), JoinTexts(rt))
  }

  function SubqueryDiff(f: Collected): seq<Diff> {
    if f.studentSubqueries != f.referenceSubqueries
    then [SubqueryCountDiffers(f.studentSubqueries, f.referenceSubqueries)] else []
  }

  function WindowDiff(f: Collected): seq<Diff> {
    if f.referenceWindow != f.studentWindow then [WindowUsageDiffers] else []
  }

  function CteDiff(f: Collected): seq<Diff> {
    if f.referenceCte != f.studentCte then [CteUsageDiffers] else []
  }

  function GroupDiff(f: Collected): seq<Diff> {
    if ToSet(f.studentGroup) != ToSet(f.referenceGroup)
    then [GroupByMismatch(SortedSet(f.studentGroup), SortedSet(f.referenceGroup))] else []
  }

  function JoinDiff(f: Collected): seq<Diff> {
    if f.studentJoins != f.referenceJoins then [JoinStructureDiffers] else []
  }

  /** The differences `ast_diff` reports, in its order: columns, tables, subqueries, window, CTE, group, joins. */
  function Diffs(f: Collected): seq<Diff> {
    ColumnDiffs(f.studentColumns, f.referenceColumns)
    + TableDiffs(f.studentTables, f.referenceTables)
    + SubqueryDiff(f) + WindowDiff(f) + CteDiff(f) + GroupDiff(f) + JoinDiff(f)
  }

  /** What the checkers read: `ast_diff`'s `metadata`. */
  datatype Metadata = Metadata(
    studentColumns: seq<string>, referenceColumns: seq<string>,
    studentTables: seq<string>, referenceTables: seq<string>,
    studentSubqueries: nat, referenceSubqueries: nat)

  function MetadataOf(f: Collected): Metadata {
    Metadata(f.studentColumns, f.referenceColumns, f.studentTables, f.referenceTables,
             f.studentSubqueries, f.referenceSubqueries)
  }

  datatype AstDiffResult = AstDiffResult(
    parseErrorStudent: Option<string>,
    parseErrorReference: Option<string>,
    normalizedStudent: Option<string>,
    normalizedReference: Option<string>,
    structuralDiffs: seq<string>,
    metadata: Metadata)

  /** What `ast_diff` returns: the parse errors, the canonical texts, the difference messages and the metadata. */
  function AstDiffOf(studentSql: string, referenceSql: string,
                     parsedS: Outcome<string>, parsedR: Outcome<string>,
                     reparseS: Outcome<Tree>, reparseR: Outcome<Tree>): AstDiffResult
  {
    var (canS, errS) := Canonicalize(studentSql, parsedS);
    var (canR, errR) := Canonicalize(referenceSql, parsedR);
    var st := ReparsedTree(canS, reparseS);
    var rt := ReparsedTree(canR, reparseR);
    AstDiffResult(ReparseError(canS, errS, reparseS), ReparseError(canR, errR, reparseR),
                  canS, canR, Messages(Diffs(Collect(st, rt))), MetadataOf(Collect(st, rt)))
  }

  /** Re-parsing one canonical text: its tree, or its exception filling an empty parse error. */
  method Reparse(can: Option<string>, err0: Option<string>, reparse: Outcome<Tree>)
    returns (tree: Option<Tree>, err: Option<string>)
    ensures tree == ReparsedTree(can, reparse)
    ensures err == ReparseError(can, err0, reparse)
    ensures tree.Some? ==> Truthy(can) && tree.value == reparse.value
    ensures err != err0 ==> err == Some(reparse.message) && !Truthy(err0)
  {
    tree, err := None, err0;
    if Truthy(can) {
      match reparse
      case Ok(t) => tree := Some(t);
      case Err(m) =>
        if !Truthy(err) {
          err := Some(m);
        }
    }
  }

  /**
   * `ast_diff` of new.py. The parser's outcomes are inputs: `parsedS`/`parsedR` for the
   * canonicalization of each query, `reparseS`/`reparseR` for re-parsing the canonical text.
   */
  method AstDiff(studentSql: string, referenceSql: string,
                 parsedS: Outcome<string>, parsedR: Outcome<string>,
                 reparseS: Outcome<Tree>, reparseR: Outcome<Tree>)
    returns (res: AstDiffResult)
    ensures res == AstDiffOf(studentSql, referenceSql, parsedS, parsedR, reparseS, reparseR)
  {
    var (canS, errS) := Canonicalize(studentSql, parsedS);
    var (canR, errR) := Canonicalize(referenceSql, parsedR);
    var st, parseErrorStudent := Reparse(canS, errS, reparseS);
    var rt, parseErrorReference := Reparse(canR, errR, reparseR);

    var sCols := CollectSelectColumns(st);
    var rCols := CollectSelectColumns(rt);
    var f := Collected(sCols, rCols, TableNames(st), TableNames(rt),
                       SubqueryCount(st), SubqueryCount(rt), HasWindow(st), HasWindow(rt),
                       HasCte(st), HasCte(rt), GroupKeys(st), GroupKeys(rt), JoinTexts(st), JoinTexts(rt));
    assert f == Collect(st, rt);
    var diffs := ReportDiffs(f);
    res := AstDiffResult(parseErrorStudent, parseErrorReference, canS, canR, diffs, MetadataOf(f));
  }

  lemma MessagesSnoc(ds: seq<Diff>, d: Diff)
    ensures Messages(ds + [d]) == Messages(ds) + [Message(d)]
  {
  }

  /** The column or table part of the report, appended to what was reported before. */
  method ReportSetDiffs(diffs0: seq<string>, ghost ds0: seq<Diff>, s: seq<string>, r: seq<string>, tables: bool)
    returns (diffs: seq<string>, ghost ds: seq<Diff>)
    requires diffs0 == Messages(ds0)
    ensures ds == ds0 + (if tables then TableDiffs(s, r) else ColumnDiffs(s, r))
    ensures diffs == Messages(ds)
  {
    diffs, ds := diffs0, ds0;
    if ToSet(s) != ToSet(r) {
      var missing := Minus(r, s);
      var extra := Minus(s, r);
      if missing != [] {
        var d := if tables then MissingTables(missing) else MissingSelectColumns(missing);
        MessagesSnoc(ds, d);
        diffs, ds := diffs + [Message(d)], ds + [d];
      }
      if extra != [] {
        var d := if tables then ExtraTables(extra) else ExtraSelectColumns(extra);
        MessagesSnoc(ds, d);
        diffs, ds := diffs + [Message(d)], ds + [d];
      }
    }
  }

  /** The reporting part of `ast_diff`: appends one message per difference found. */
  method ReportDiffs(f: Collected) returns (diffs: seq<string>)
    ensures diffs == Messages(Diffs(f))
  {
    ghost var ds: seq<Diff>;
    ghost var c := ColumnDiffs(f.studentColumns, f.referenceColumns);
    ghost var t := TableDiffs(f.studentTables, f.referenceTables);
    diffs, ds := ReportSetDiffs([], [], f.studentColumns, f.referenceColumns, false);
    assert ds == c;
    diffs, ds := ReportSetDiffs(diffs, ds, f.studentTables, f.referenceTables, true);
    assert ds == c + t;
    ghost var head := ds;
    diffs, ds := ReportTail(f, diffs, ds);
    assert ds == head + SubqueryDiff(f) + WindowDiff(f) + CteDiff(f) + GroupDiff(f) + JoinDiff(f);
    assert ds == Diffs(f);
  }

  /** The reports after the column and table parts: one message per fact that differs. */
  method ReportTail(f: Collected, diffs0: seq<string>, ghost ds0: seq<Diff>)
    returns (diffs: seq<string>, ghost ds: seq<Diff>)
    requires diffs0 == Messages(ds0)
    ensures ds == ds0 + SubqueryDiff(f) + WindowDiff(f) + CteDiff(f) + GroupDiff(f) + JoinDiff(f)
    ensures diffs == Messages(ds)
  {
    diffs, ds := ReportNesting(f, diffs0, ds0);
    diffs, ds := ReportGrouping(f, diffs, ds);
  }

  /** The subquery, window and CTE reports. */
  method ReportNesting(f: Collected, diffs0: seq<string>, ghost ds0: seq<Diff>)
    returns (diffs: seq<string>, ghost ds: seq<Diff>)
    requires diffs0 == Messages(ds0)
    ensures ds == ds0 + SubqueryDiff(f) + WindowDiff(f) + CteDiff(f)
    ensures diffs == Messages(ds)
  {
    diffs, ds := diffs0, ds0;
    ghost var head := ds;
    if f.studentSubqueries != f.referenceSubqueries {
      var d := SubqueryCountDiffers(f.studentSubqueries, f.referenceSubqueries);
      MessagesSnoc(ds, d);
      diffs, ds := diffs + [Message(d)], ds + [d];
    }
    assert ds == head + SubqueryDiff(f);
    head := ds;
    if f.referenceWindow != f.studentWindow {
      MessagesSnoc(ds, WindowUsageDiffers);
      diffs, ds := diffs + [Message(WindowUsageDiffers)], ds + [WindowUsageDiffers];
    }
    assert ds == head + WindowDiff(f);
    head := ds;
    if f.referenceCte != f.studentCte {
      MessagesSnoc(ds, CteUsageDiffers);
      diffs, ds := diffs + [Message(CteUsageDiffers)], ds + [CteUsageDiffers];
    }
    assert ds == head + CteDiff(f);
  }

  /** The GROUP BY and join reports. */
  method ReportGrouping(f: Collected, diffs0: seq<string>, ghost ds0: seq<Diff>)
    returns (diffs: seq<string>, ghost ds: seq<Diff>)
    requires diffs0 == Messages(ds0)
    ensures ds == ds0 + GroupDiff(f) + JoinDiff(f)
    ensures diffs == Messages(ds)
  {
    diffs, ds := diffs0, ds0;
    ghost var head := ds;
    if ToSet(f.studentGroup) != ToSet(f.referenceGroup) {
      var d := GroupByMismatch(SortedSet(f.studentGroup), SortedSet(f.referenceGroup));
      MessagesSnoc(ds, d);
      diffs, ds := diffs + [Message(d)], ds + [d];
    }
    assert ds == head + GroupDiff(f);
    head := ds;
    if f.studentJoins != f.referenceJoins {
      MessagesSnoc(ds, JoinStructureDiffers);
      diffs, ds := diffs + [Message(JoinStructureDiffers)], ds + [JoinStructureDiffers];
    }
    assert ds == head + JoinDiff(f);
  }

  // ---------------------------------------------------------------------------
  // What the differences mean
  // ---------------------------------------------------------------------------

  /** Two lists agree as sets exactly when neither has an element the other lacks. */
  lemma SameSetIff(s: seq<string>, r: seq<string>)
    ensures ToSet(s) == ToSet(r) <==> Minus(r, s) == [] && Minus(s, r) == []
  {
    if Minus(r, s) == [] && Minus(s, r) == [] {
      forall x ensures x in ToSet(s) <==> x in ToSet(r) {
        assert x !in Minus(r, s) && x !in Minus(s, r);
      }
    }
    if Minus(r, s) != [] {
      var x := Minus(r, s)[0];
      assert x in Minus(r, s);
      assert x in ToSet(r) && x !in ToSet(s);
    }
    if Minus(s, r) != [] {
      var x := Minus(s, r)[0];
      assert x in Minus(s, r);
      assert x in ToSet(s) && x !in ToSet(r);
    }
  }

  /**
   * The column report lists exactly the reference columns the student lacks, then exactly the
   * student columns the reference lacks, each only if non-empty (the set test in front of them
   * filters nothing further); it is empty exactly when the two agree as sets.
   */
  lemma ColumnDiffsMeaning(s: seq<string>, r: seq<string>)
    ensures ColumnDiffs(s, r) ==
      (if Minus(r, s) != [] then [MissingSelectColumns(Minus(r, s))] else [])
      + (if Minus(s, r) != [] then [ExtraSelectColumns(Minus(s, r))] else [])
    ensures ColumnDiffs(s, r) == [] <==> ToSet(s) == ToSet(r)
  {
    SameSetIff(s, r);
  }

  /** The table report, likewise. */
  lemma TableDiffsMeaning(s: seq<string>, r: seq<string>)
    ensures TableDiffs(s, r) ==
      (if Minus(r, s) != [] then [MissingTables(Minus(r, s))] else [])
      + (if Minus(s, r) != [] then [ExtraTables(Minus(s, r))] else [])
    ensures TableDiffs(s, r) == [] <==> ToSet(s) == ToSet(r)
  {
    SameSetIff(s, r);
  }

  /** No difference is reported exactly when every collected fact agrees (lists compared as sets). */
  lemma NoDiffsIff(f: Collected)
    ensures Diffs(f) == [] <==>
      ToSet(f.studentColumns) == ToSet(f.referenceColumns)
      && ToSet(f.studentTables) == ToSet(f.referenceTables)
      && f.studentSubqueries == f.referenceSubqueries
      && f.studentWindow == f.referenceWindow
      && f.studentCte == f.referenceCte
      && ToSet(f.studentGroup) == ToSet(f.referenceGroup)
      && f.studentJoins == f.referenceJoins
  {
    ColumnDiffsMeaning(f.studentColumns, f.referenceColumns);
    TableDiffsMeaning(f.studentTables, f.referenceTables);
  }

  /** The join message appears exactly when the two sets of lower-cased join texts differ. */
  lemma JoinTextsIff(st: Option<Tree>, rt: Option<Tree>)
    ensures JoinTexts(st) == JoinTexts(rt) <==>
      ToSet(LowerAll(if st.Some? then st.value.joins else []))
      == ToSet(LowerAll(if rt.Some? then rt.value.joins else []))
  {
    var a := LowerAll(if st.Some? then st.value.joins else []);
    var b := LowerAll(if rt.Some? then rt.value.joins else []);
    SortedSetEqualIff(a, b);
    assert JoinTexts(st) == SortedSet(a) && JoinTexts(rt) == SortedSet(b);
  }

  /** Reported differences follow the fixed order columns, tables, subqueries, window, CTE, group, joins. */
  function Rank(d: Diff): nat {
    match d
    case MissingSelectColumns(_) => 0
    case ExtraSelectColumns(_) => 1
    case MissingTables(_) => 2
    case ExtraTables(_) => 3
    case SubqueryCountDiffers(_, _) => 4
    case WindowUsageDiffers => 5
    case CteUsageDiffers => 6
    case GroupByMismatch(_, _) => 7
    case JoinStructureDiffers => 8
  }

  predicate RankIncreasing(ds: seq<Diff>) {
    forall i, j :: 0 <= i < j < |ds| ==> Rank(ds[i]) < Rank(ds[j])
  }

  lemma RankIncreasingAppend(a: seq<Diff>, b: seq<Diff>, k: nat)
    requires RankIncreasing(a) && RankIncreasing(b)
    requires forall d :: d in a ==> Rank(d) < k
    requires forall d :: d in b ==> Rank(d) >= k
    ensures RankIncreasing(a + b)
  {
    forall i, j | 0 <= i < j < |a + b| ensures Rank((a + b)[i]) < Rank((a + b)[j]) {
      if j < |a| {
        assert (a + b)[i] == a[i] && (a + b)[j] == a[j];
      } else if i >= |a| {
        assert (a + b)[i] == b[i - |a|] && (a + b)[j] == b[j - |a|];
      } else {
        assert (a + b)[i] in a && (a + b)[j] in b;
      }
    }
  }

  /** The column and table reports come first, each in its own order. */
  lemma SetDiffsOrdered(f: Collected)
    ensures RankIncreasing(ColumnDiffs(f.studentColumns, f.referenceColumns)
                           + TableDiffs(f.studentTables, f.referenceTables))
    ensures forall d ::
      d in ColumnDiffs(f.studentColumns, f.referenceColumns) + TableDiffs(f.studentTables, f.referenceTables)
      ==> Rank(d) < 4
  {
    var c := ColumnDiffs(f.studentColumns, f.referenceColumns);
    var t := TableDiffs(f.studentTables, f.referenceTables);
    assert forall d :: d in c ==> Rank(d) < 2;
    assert forall d :: d in t ==> 2 <= Rank(d) < 4;
    RankIncreasingAppend(c, t, 2);
  }

  /** Each of the remaining reports is at most one message of a fixed rank. */
  lemma TailDiffsRanked(f: Collected)
    ensures |SubqueryDiff(f)| <= 1 && forall d :: d in SubqueryDiff(f) ==> Rank(d) == 4
    ensures |WindowDiff(f)| <= 1 && forall d :: d in WindowDiff(f) ==> Rank(d) == 5
    ensures |CteDiff(f)| <= 1 && forall d :: d in CteDiff(f) ==> Rank(d) == 6
    ensures |GroupDiff(f)| <= 1 && forall d :: d in GroupDiff(f) ==> Rank(d) == 7
    ensures |JoinDiff(f)| <= 1 && forall d :: d in JoinDiff(f) ==> Rank(d) == 8
  {
  }

  /** The reports always come in the order columns, tables, subqueries, window, CTE, group, joins. */
  lemma DiffsOrdered(f: Collected)
    ensures RankIncreasing(Diffs(f))
  {
    var h := ColumnDiffs(f.studentColumns, f.referenceColumns) + TableDiffs(f.studentTables, f.referenceTables);
    var q, w, e, g, j := SubqueryDiff(f), WindowDiff(f), CteDiff(f), GroupDiff(f), JoinDiff(f);
    SetDiffsOrdered(f);
    TailDiffsRanked(f);
    assert Diffs(f) == h + q + w + e + g + j;
    RankIncreasingAppend(h, q, 4);
    assert forall d :: d in h + q ==> Rank(d) < 5;
    RankIncreasingAppend(h + q, w, 5);
    assert forall d :: d in h + q + w ==> Rank(d) < 6;
    RankIncreasingAppend(h + q + w, e, 6);
    assert forall d :: d in h + q + w + e ==> Rank(d) < 7;
    RankIncreasingAppend(h + q + w + e, g, 7);
    assert forall d :: d in h + q + w + e + g ==> Rank(d) < 8;
    RankIncreasingAppend(h + q + w + e + g, j, 8);
  }
}
