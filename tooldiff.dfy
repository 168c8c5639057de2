/**
 * The standalone structural differ, `ast_diff` of ast_diff.py and of main.py (the two are the
 * same algorithm with the same messages). The normalized texts fall back to the raw input, a
 * parse failure of either side stops the comparison, and otherwise the collected facts are
 * compared: all columns, tables, subquery counts, GROUP BY keys and join texts.
 */
module ToolDiff {
  import opened Base
  import opened Order
  import opened QueryFacts
  import StructuralDiff

  datatype Report =
    | MissingColumns(columns: seq<string>)
    | ExtraColumns(columns: seq<string>)
    | MissingTables(tables: seq<string>)
    | ExtraTables(tables: seq<string>)
    | SubqueryCountDiffers(student: nat, reference: nat)
    | GroupByMismatch(studentKeys: seq<string>, referenceKeys: seq<string>)
    | JoinStructureDiffers

  function Message(d: Report): string {
    match d
    case MissingColumns(c) => "Missing columns in SELECT: " + ListRepr(c)
    case ExtraColumns(c) => "Extra columns in SELECT: " + ListRepr(c)
    case MissingTables(t) => "Missing tables in FROM/JOIN: " + ListRepr(t)
    case ExtraTables(t) => "Extra tables in FROM/JOIN: " + ListRepr(t)
    case SubqueryCountDiffers(s, r) =>
      "Different nested-subquery count (student=" + NatToString(s) + ", reference=" + NatToString(r) + ")"
    case GroupByMismatch(s, r) => "GROUP BY mismatch: student=" + ListRepr(s) + ", ref=" + ListRepr(r)
    case JoinStructureDiffers => "JOIN structure differs (check join keys and types)"
  }

  function Messages(ds: seq<Report>): seq<string> {
    seq(|ds|, i requires 0 <= i < |ds| => Message(ds[i]))
  }

  lemma MessagesSnoc(ds: seq<Report>, d: Report)
    ensures Messages(ds + [d]) == Messages(ds) + [Message(d)]
  {
  }

  /** `_collect_columns`: every Column of the tree, lower-cased, sorted and de-duplicated. */
  function AllColumns(t: Tree): seq<string> {
    SortedSet(LowerAll(t.columns))
  }

  /** What `ast_diff` collects from the two parsed trees. */
  datatype Facts = Facts(
    studentColumns: seq<string>, referenceColumns: seq<string>,
    studentTables: seq<string>, referenceTables: seq<string>,
    studentSubqueries: nat, referenceSubqueries: nat,
    studentGroup: seq<string>, referenceGroup: seq<string>,
    studentJoins: seq<string>, referenceJoins: seq<string>)

  function Collect(s: Tree, r: Tree): Facts {
    Facts(AllColumns(s), AllColumns(r), TableNames(Some(s)), TableNames(Some(r)),
          s.subqueries, r.subqueries, GroupKeys(Some(s)), GroupKeys(Some(r)),
          JoinTexts(Some(s)), JoinTexts(Some(r)))
  }

  /** The column report: only when the sorted lists differ, missing then extra, each if non-empty. */
  function ColumnReports(s: seq<string>, r: seq<string>): seq<Report> {
    if s == r then []
    else
      (if Minus(r, s) != [] then [MissingColumns(Minus(r, s))] else [])
      + (if Minus(s, r) != [] then [ExtraColumns(Minus(s, r))] else [])
  }

  /** The table report, built the same way. */
  function TableReports(s: seq<string>, r: seq<string>): seq<Report> {
    if s == r then []
    else
      (if Minus(r, s) != [] then [MissingTables(Minus(r, s))] else [])
      + (if Minus(s, r) != [] then [ExtraTables(Minus(s, r))] else [])
  }

  function SubqueryReport(f: Facts): seq<Report> {
    if f.studentSubqueries != f.referenceSubqueries
    then [SubqueryCountDiffers(f.studentSubqueries, f.referenceSubqueries)] else []
  }

  /** GROUP BY keys are compared as sets and listed sorted. */
  function GroupReport(f: Facts): seq<Report> {
    if ToSet(f.studentGroup) != ToSet(f.referenceGroup)
    then [GroupByMismatch(SortedSet(f.studentGroup), SortedSet(f.referenceGroup))] else []
  }

  function JoinReport(f: Facts): seq<Report> {
    if f.studentJoins != f.referenceJoins then [JoinStructureDiffers] else []
  }

  /** The reports `ast_diff` makes, in its order: columns, tables, subqueries, group, joins. */
  function Reports(f: Facts): seq<Report> {
    ColumnReports(f.studentColumns, f.referenceColumns)
    + TableReports(f.studentTables, f.referenceTables)
    + SubqueryReport(f) + GroupReport(f) + JoinReport(f)
  }

  /** `can or raw`: the canonical text unless it is missing or empty. */
  function Normalized(can: Option<string>, raw: string): string {
    if Truthy(can) then can.value else raw
  }

  datatype ToolDiffResult = ToolDiffResult(
    parseError: Option<string>,
    structuralDiffs: seq<string>,
    normalizedStudent: string,
    normalizedReference: string)

  /**
   * `ast_diff`. `canS`/`canR` are what `canonicalize` returned (None on a parse error);
   * `parseS`/`parseR` are the outcomes of parsing the normalized texts, the student's first.
   */
  method AstDiff(studentSql: string, referenceSql: string, canS: Option<string>, canR: Option<string>,
                 parseS: Outcome<Tree>, parseR: Outcome<Tree>)
    returns (res: ToolDiffResult)
    ensures res.normalizedStudent == Normalized(canS, studentSql)
    ensures res.normalizedReference == Normalized(canR, referenceSql)
    ensures parseS.Err? ==> res.parseError == Some(parseS.message) && res.structuralDiffs == []
    ensures parseS.Ok? && parseR.Err? ==> res.parseError == Some(parseR.message) && res.structuralDiffs == []
    ensures parseS.Ok? && parseR.Ok? ==>
      res.parseError == None && res.structuralDiffs == Messages(Reports(Collect(parseS.value, parseR.value)))
  {
    res := ToolDiffResult(None, [], "", "");
    res := res.(normalizedStudent := Normalized(canS, studentSql));
    res := res.(normalizedReference := Normalized(canR, referenceSql));
    if parseS.Err? {
      res := res.(parseError := Some(parseS.message));
      return;
    }
    if parseR.Err? {
      res := res.(parseError := Some(parseR.message));
      return;
    }
    var f := Collect(parseS.value, parseR.value);
    var diffs := ReportAll(f);
    res := res.(structuralDiffs := diffs);
  }

  /** The column or table part of the report, appended to what was reported before. */
  method ReportSets(diffs0: seq<string>, ghost ds0: seq<Report>, s: seq<string>, r: seq<string>, tables: bool)
    returns (diffs: seq<string>, ghost ds: seq<Report>)
    requires diffs0 == Messages(ds0)
    ensures ds == ds0 + (if tables then TableReports(s, r) else ColumnReports(s, r))
    ensures diffs == Messages(ds)
  {
    diffs, ds := diffs0, ds0;
    if s != r {
      var missing := Minus(r, s);
      var extra := Minus(s, r);
      if missing != [] {
        var d := if tables then MissingTables(missing) else MissingColumns(missing);
        MessagesSnoc(ds, d);
        diffs, ds := diffs + [Message(d)], ds + [d];
      }
      if extra != [] {
        var d := if tables then ExtraTables(extra) else ExtraColumns(extra);
        MessagesSnoc(ds, d);
        diffs, ds := diffs + [Message(d)], ds + [d];
      }
    }
  }

  /** The appends of `ast_diff` after parsing, one per difference found. */
  method ReportAll(f: Facts) returns (diffs: seq<string>)
    ensures diffs == Messages(Reports(f))
  {
    ghost var ds: seq<Report>;
    ghost var c := ColumnReports(f.studentColumns, f.referenceColumns);
    ghost var t := TableReports(f.studentTables, f.referenceTables);
    diffs, ds := ReportSets([], [], f.studentColumns, f.referenceColumns, false);
    assert ds == c;
    diffs, ds := ReportSets(diffs, ds, f.studentTables, f.referenceTables, true);
    assert ds == c + t;
    ghost var head := ds;
    if f.studentSubqueries != f.referenceSubqueries {
      var d := SubqueryCountDiffers(f.studentSubqueries, f.referenceSubqueries);
      MessagesSnoc(ds, d);
      diffs, ds := diffs + [Message(d)], ds + [d];
    }
    assert ds == head + SubqueryReport(f);
    head := ds;
    if ToSet(f.studentGroup) != ToSet(f.referenceGroup) {
      var d := GroupByMismatch(SortedSet(f.studentGroup), SortedSet(f.referenceGroup));
      MessagesSnoc(ds, d);
      diffs, ds := diffs + [Message(d)], ds + [d];
    }
    assert ds == head + GroupReport(f);
    head := ds;
    if f.studentJoins != f.referenceJoins {
      MessagesSnoc(ds, JoinStructureDiffers);
      diffs, ds := diffs + [Message(JoinStructureDiffers)], ds + [JoinStructureDiffers];
    }
    assert ds == head + JoinReport(f);
    assert ds == Reports(f);
  }

  // ---------------------------------------------------------------------------
  // What the reports mean
  // ---------------------------------------------------------------------------

  /**
   * On sorted, duplicate-free lists (what the collectors return), the column report lists
   * exactly the reference columns the student lacks, then exactly the converse, each only if
   * non-empty, and it is empty exactly when the two agree as sets.
   */
  lemma ColumnReportsMeaning(s: seq<string>, r: seq<string>)
    requires StrictlySorted(s) && StrictlySorted(r)
    ensures ColumnReports(s, r) ==
      (if Minus(r, s) != [] then [MissingColumns(Minus(r, s))] else [])
      + (if Minus(s, r) != [] then [ExtraColumns(Minus(s, r))] else [])
    ensures ColumnReports(s, r) == [] <==> ToSet(s) == ToSet(r)
  {
    StructuralDiff.SameSetIff(s, r);
    if ToSet(s) == ToSet(r) {
      StrictlySortedUnique(s, r);
    }
  }

  /** The table report, likewise. */
  lemma TableReportsMeaning(s: seq<string>, r: seq<string>)
    requires StrictlySorted(s) && StrictlySorted(r)
    ensures TableReports(s, r) ==
      (if Minus(r, s) != [] then [MissingTables(Minus(r, s))] else [])
      + (if Minus(s, r) != [] then [ExtraTables(Minus(s, r))] else [])
    ensures TableReports(s, r) == [] <==> ToSet(s) == ToSet(r)
  {
    StructuralDiff.SameSetIff(s, r);
    if ToSet(s) == ToSet(r) {
      StrictlySortedUnique(s, r);
    }
  }

  /** Every list `ast_diff` collects is strictly sorted, except the GROUP BY keys. */
  lemma CollectSorted(s: Tree, r: Tree)
    ensures StrictlySorted(Collect(s, r).studentColumns) && StrictlySorted(Collect(s, r).referenceColumns)
    ensures StrictlySorted(Collect(s, r).studentTables) && StrictlySorted(Collect(s, r).referenceTables)
  {
    SortedSetCorrect(LowerAll(s.columns));
    SortedSetCorrect(LowerAll(r.columns));
    SortedSetCorrect(LowerAll(s.tables));
    SortedSetCorrect(LowerAll(r.tables));
  }

  /** The column and table reports carry ranks below 4, in increasing order. */
  lemma SetReportsRanked(f: Facts)
    ensures RankIncreasing(ColumnReports(f.studentColumns, f.referenceColumns)
                           + TableReports(f.studentTables, f.referenceTables))
    ensures forall d ::
      d in ColumnReports(f.studentColumns, f.referenceColumns) + TableReports(f.studentTables, f.referenceTables)
      ==> Rank(d) < 4
  {
    var c := ColumnReports(f.studentColumns, f.referenceColumns);
    var t := TableReports(f.studentTables, f.referenceTables);
    assert forall d :: d in c ==> Rank(d) < 2;
    assert forall d :: d in t ==> 2 <= Rank(d) < 4;
    RankIncreasingAppend(c, t, 2);
  }

  /** A report of rank `k` occurs exactly when the piece of that rank is not empty. */
  lemma KindPresent(h: seq<Report>, q: seq<Report>, g: seq<Report>, j: seq<Report>, k: nat)
    requires forall d :: d in h ==> Rank(d) < 4
    requires forall d :: d in q ==> Rank(d) == 4
    requires forall d :: d in g ==> Rank(d) == 5
    requires forall d :: d in j ==> Rank(d) == 6
    requires 4 <= k <= 6
    ensures (exists i :: 0 <= i < |h + q + g + j| && Rank((h + q + g + j)[i]) == k) <==>
      (if k == 4 then q else if k == 5 then g else j) != []
  {
    var ds := h + q + g + j;
    var piece := if k == 4 then q else if k == 5 then g else j;
    if piece != [] {
      assert piece[0] in piece;
      assert piece[0] in ds;
    }
    if exists i :: 0 <= i < |ds| && Rank(ds[i]) == k {
      var i :| 0 <= i < |ds| && Rank(ds[i]) == k;
      assert ds[i] in ds;
      assert ds[i] in piece;
    }
  }

  /**
   * Each report kind appears exactly when its fact differs: the subquery message when the
   * counts differ, the GROUP BY message when the key sets differ, the JOIN message when the
   * collected join texts differ.
   */
  lemma ReportsPresence(f: Facts)
    ensures (exists i :: 0 <= i < |Reports(f)| && Reports(f)[i].SubqueryCountDiffers?) <==>
      f.studentSubqueries != f.referenceSubqueries
    ensures (exists i :: 0 <= i < |Reports(f)| && Reports(f)[i].GroupByMismatch?) <==>
      ToSet(f.studentGroup) != ToSet(f.referenceGroup)
    ensures (exists i :: 0 <= i < |Reports(f)| && Reports(f)[i].JoinStructureDiffers?) <==>
      f.studentJoins != f.referenceJoins
  {
    var h := ColumnReports(f.studentColumns, f.referenceColumns) + TableReports(f.studentTables, f.referenceTables);
    var q, g, j := SubqueryReport(f), GroupReport(f), JoinReport(f);
    SetReportsRanked(f);
    assert Reports(f) == h + q + g + j;
    KindPresent(h, q, g, j, 4);
    KindPresent(h, q, g, j, 5);
    KindPresent(h, q, g, j, 6);
    assert forall d: Report :: d.SubqueryCountDiffers? <==> Rank(d) == 4;
    assert forall d: Report :: d.GroupByMismatch? <==> Rank(d) == 5;
    assert forall d: Report :: d.JoinStructureDiffers? <==> Rank(d) == 6;
  }

  /** For two parsed trees, nothing is reported exactly when every collected fact agrees as a set. */
  lemma NoReportsIff(s: Tree, r: Tree)
    ensures Reports(Collect(s, r)) == [] <==>
      ToSet(LowerAll(s.columns)) == ToSet(LowerAll(r.columns))
      && ToSet(LowerAll(s.tables)) == ToSet(LowerAll(r.tables))
      && s.subqueries == r.subqueries
      && ToSet(GroupKeys(Some(s))) == ToSet(GroupKeys(Some(r)))
      && ToSet(LowerAll(s.joins)) == ToSet(LowerAll(r.joins))
  {
    var f := Collect(s, r);
    CollectSorted(s, r);
    ColumnReportsMeaning(f.studentColumns, f.referenceColumns);
    TableReportsMeaning(f.studentTables, f.referenceTables);
    SortedSetEqualIff(LowerAll(s.columns), LowerAll(r.columns));
    SortedSetEqualIff(LowerAll(s.tables), LowerAll(r.tables));
    SortedSetEqualIff(LowerAll(s.joins), LowerAll(r.joins));
    SortedSetCorrect(LowerAll(s.columns));
    SortedSetCorrect(LowerAll(r.columns));
    SortedSetCorrect(LowerAll(s.tables));
    SortedSetCorrect(LowerAll(r.tables));
  }

  /** The report ranks, in the order `ast_diff` appends them. */
  function Rank(d: Report): nat {
    match d
    case MissingColumns(_) => 0
    case ExtraColumns(_) => 1
    case MissingTables(_) => 2
    case ExtraTables(_) => 3
    case SubqueryCountDiffers(_, _) => 4
    case GroupByMismatch(_, _) => 5
    case JoinStructureDiffers => 6
  }

  predicate RankIncreasing(ds: seq<Report>) {
    forall i, j :: 0 <= i < j < |ds| ==> Rank(ds[i]) < Rank(ds[j])
  }

  lemma RankIncreasingAppend(a: seq<Report>, b: seq<Report>, k: nat)
    requires RankIncreasing(a) && RankIncreasing(b)
    requires forall d :: d in a ==> Rank(d) < k
    requires forall d :: d in b ==> Rank(d) >= k
    ensures RankIncreasing(a + b)
  {
    forall i, j | 0 <= i < j < |a + b| ensures Rank((a + b)[i]) < Rank((a + b)[j]) {
      if j < |a| {
        assert (a + b)[i] == a[i] && (a + b)[j] == a[j];
      } else if i >= |a| {
        assert (a + b)[i] == b[i - |a|] && (a + b)[j] == b[j - |a|];
      } else {
        assert (a + b)[i] in a && (a + b)[j] in b;
      }
    }
  }

  /** Reports always come in the order columns, tables, subqueries, group, joins. */
  lemma ReportsOrdered(f: Facts)
    ensures RankIncreasing(Reports(f))
  {
    var h := ColumnReports(f.studentColumns, f.referenceColumns) + TableReports(f.studentTables, f.referenceTables);
    var q, g, j := SubqueryReport(f), GroupReport(f), JoinReport(f);
    SetReportsRanked(f);
    assert Reports(f) == h + q + g + j;
    RankIncreasingAppend(h, q, 4);
    assert forall d :: d in h + q ==> Rank(d) < 5;
    RankIncreasingAppend(h + q, g, 5);
    assert forall d :: d in h + q + g ==> Rank(d) < 6;
    RankIncreasingAppend(h + q + g, j, 6);
  }
}
