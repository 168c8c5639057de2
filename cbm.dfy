/**
 * constraints.py: the alternative constraint catalogue, whose 24 detectors compare summaries
 * of the student's and the reference query trees, and its static registry.
 */
module CbmConstraints {
  import opened Base

  // ---------------------------------------------------------------------------
  // What the detectors read of a query tree
  // ---------------------------------------------------------------------------

  /** A node of the WHERE clause's walk: its node type, the left column of a comparison, the right side. */
  datatype Pred = Pred(kind: string, leftColumn: Option<string>, rightSql: string, rightIsNull: bool)

  /** A JOIN node: its kind and whether it has an ON condition. */
  datatype JoinNode = JoinNode(kind: string, hasOn: bool)

  /** A select-list expression: its node type, its SQL text and its alias. */
  datatype SelectExpr = SelectExpr(kind: string, sql: string, alias: string)

  /** An aggregate call: its node type and whether its argument is `*`. */
  datatype AggNode = AggNode(kind: string, argIsStar: bool)

  /**
   * A query tree as the detectors see it. `where` is the walk of the WHERE clause (the clause
   * node first, then every expression below it), absent without a WHERE; `fromItems` is the
   * number of expressions of the FROM node, absent without one; `selects` is the list of the
   * first SELECT, empty without one; `group` holds the GROUP BY texts, absent without a GROUP BY;
   * `distinct` and `limit` are the SQL texts of those nodes.
   */
  datatype Ast = Ast(
    where: Option<seq<Pred>>,
    hasBetween: bool,
    fromItems: Option<nat>,
    joins: seq<JoinNode>,
    tables: seq<string>,
    group: Option<seq<string>>,
    selects: seq<SelectExpr>,
    aggs: seq<AggNode>,
    hasHaving: bool,
    distinct: Option<string>,
    hasStar: bool,
    limit: Option<string>)

  datatype Ctx = Ctx(student: Ast, reference: Ast)

  /** What a detector returns when it matches: `{}` or `{"column": c}`; `None` when it does not. */
  datatype Report = Report(column: Option<string>)

  const Empty := Report(None)

  /** `where_preds(ast)` */
  function WherePreds(a: Ast): seq<Pred> {
    if a.where.Some? then a.where.value else []
  }

  /** `group_cols(ast)` as a set */
  function GroupSet(a: Ast): set<string> {
    if a.group.Some? then ToSet(a.group.value) else {}
  }

  function PredKinds(ps: seq<Pred>): set<string> {
    set i | 0 <= i < |ps| :: ps[i].kind
  }

  function AggKinds(gs: seq<AggNode>): set<string> {
    set i | 0 <= i < |gs| :: gs[i].kind
  }

  /** The `type` of each join node, in order: what `join_type_mismatch` zips. */
  function JoinKinds(js: seq<JoinNode>): (r: seq<string>)
    ensures |r| == |js| && forall i :: 0 <= i < |js| ==> r[i] == js[i].kind
  {
    seq(|js|, i requires 0 <= i < |js| => js[i].kind)
  }

  /**
   * The `type` of each select expression, in order: what `expression_type_mismatch` zips.
   * It has the shape of `JoinKinds` over a different node type; a single helper would need each
   * caller to pass the field as a function.
   */
  function ExprKinds(es: seq<SelectExpr>): (r: seq<string>)
    ensures |r| == |es| && forall i :: 0 <= i < |es| ==> r[i] == es[i].kind
  {
    seq(|es|, i requires 0 <= i < |es| => es[i].kind)
  }

  function Aliases(es: seq<SelectExpr>): (r: seq<string>)
    ensures |r| == |es| && forall i :: 0 <= i < |es| ==> r[i] == es[i].alias
  {
    seq(|es|, i requires 0 <= i < |es| => es[i].alias)
  }

  function Matched(b: bool): (r: Option<Report>)
    ensures r.Some? == b && (b ==> r.value == Empty)
  {
    if b then Some(Empty) else None
  }

  // ---------------------------------------------------------------------------
  // The WHERE clause
  // ---------------------------------------------------------------------------

  /** `missing_where`: the reference filters, the student does not. */
  function MissingWhere(ctx: Ctx): (r: Option<Report>)
    ensures r.Some? <==> ctx.reference.where.Some? && ctx.student.where.None?
    ensures r.Some? ==> r.value == Empty
  {
    Matched(ctx.reference.where.Some? && ctx.student.where.None?)
  }

  /** `extra_where`: the student filters, the reference does not. */
  function ExtraWhere(ctx: Ctx): (r: Option<Report>)
    ensures r.Some? <==> ctx.student.where.Some? && ctx.reference.where.None?
    ensures r.Some? ==> r.value == Empty
  {
    Matched(ctx.student.where.Some? && ctx.reference.where.None?)
  }

  /** The two WHERE detectors never both match, and swapping the queries swaps them. */
  lemma WhereDetectorsExclusive(ctx: Ctx)
    ensures !(MissingWhere(ctx).Some? && ExtraWhere(ctx).Some?)
    ensures MissingWhere(ctx) == ExtraWhere(Ctx(ctx.reference, ctx.student))
  {
  }

  /** `between_mismatch`: exactly one of the queries contains BETWEEN. */
  function BetweenMismatch(ctx: Ctx): (r: Option<Report>)
    ensures r.Some? <==> ctx.student.hasBetween != ctx.reference.hasBetween
    ensures r.Some? ==> r.value == Empty
  {
    Matched(ctx.student.hasBetween != ctx.reference.hasBetween)
  }

  /** `and_or_mix`: the student's WHERE contains both an AND node and an OR node. */
  function AndOrMix(ctx: Ctx): (r: Option<Report>)
    ensures r.Some? <==> ctx.student.where.Some? &&
                         (exists i :: 0 <= i < |WherePreds(ctx.student)| && WherePreds(ctx.student)[i].kind == "And") &&
                         (exists i :: 0 <= i < |WherePreds(ctx.student)| && WherePreds(ctx.student)[i].kind == "Or")
    ensures r.Some? ==> r.value == Empty
  {
    var ps := WherePreds(ctx.student);
    Matched(ctx.student.where.Some? && "And" in PredKinds(ps) && "Or" in PredKinds(ps))
  }

  /** An equality whose left side is a column. */
  predicate ColumnEq(p: Pred) {
    p.kind == "EQ" && p.leftColumn.Some?
  }

  /** Two column equalities on the same column with different right sides. */
  predicate Conflicts(p: Pred, q: Pred) {
    ColumnEq(p) && ColumnEq(q) && p.leftColumn == q.leftColumn && p.rightSql != q.rightSql
  }

  /** Some earlier predicate conflicts with the one at `k`. */
  predicate ConflictAt(ps: seq<Pred>, k: nat)
    requires k < |ps|
  {
    exists j :: 0 <= j < k && Conflicts(ps[j], ps[k])
  }

  /**
   * `contradictory_filters`: scans the WHERE walk remembering the last right side seen for
   * each column, and reports the column of the first equality that disagrees with it. It
   * reports nothing exactly when no two equalities on a column disagree, and otherwise the
   * column of the first predicate that disagrees with an earlier one.
   */
  method ContradictoryFilters(ctx: Ctx) returns (r: Option<Report>)
    ensures var ps := WherePreds(ctx.student);
            r.None? <==> forall j, k :: 0 <= j < k < |ps| ==> !Conflicts(ps[j], ps[k])
    ensures var ps := WherePreds(ctx.student);
            r.Some? ==> exists k :: 0 <= k < |ps| && ConflictAt(ps, k) &&
                                    r.value == Report(ps[k].leftColumn) &&
                                    forall k' :: 0 <= k' < k ==> !ConflictAt(ps, k')
  {
    var ps := WherePreds(ctx.student);
    var seen: map<string, string> := map[];
    var i := 0;
    while i < |ps|
      invariant 0 <= i <= |ps|
      invariant forall j :: 0 <= j < i && ColumnEq(ps[j]) ==>
                  ps[j].leftColumn.value in seen && seen[ps[j].leftColumn.value] == ps[j].rightSql
      invariant forall c :: c in seen ==>
                  exists j :: 0 <= j < i && ColumnEq(ps[j]) && ps[j].leftColumn.value == c
      invariant forall k :: 0 <= k < i ==> !ConflictAt(ps, k)
    {
      var p := ps[i];
      if p.kind == "EQ" && p.leftColumn.Some? {
        var col := p.leftColumn.value;
        var val := p.rightSql;
        if col in seen && seen[col] != val {
          var j :| 0 <= j < i && ColumnEq(ps[j]) && ps[j].leftColumn.value == col;
          assert Conflicts(ps[j], ps[i]);
          return Some(Report(Some(col)));
        }
        seen := seen[col := val];
      }
      i := i + 1;
    }
    forall j, k | 0 <= j < k < |ps|
      ensures !Conflicts(ps[j], ps[k])
    {
      assert !ConflictAt(ps, k);
    }
    return None;
  }

  /** `null_comparison`: some predicate of the student's WHERE is `= NULL`. */
  method NullComparison(ctx: Ctx) returns (r: Option<Report>)
    ensures var ps := WherePreds(ctx.student);
            r.Some? <==> exists i :: 0 <= i < |ps| && ps[i].kind == "EQ" && ps[i].rightIsNull
    ensures r.Some? ==> r.value == Empty
  {
    var ps := WherePreds(ctx.student);
    for i := 0 to |ps|
      invariant forall j :: 0 <= j < i ==> !(ps[j].kind == "EQ" && ps[j].rightIsNull)
    {
      if ps[i].kind == "EQ" && ps[i].rightIsNull {
        return Some(Empty);
      }
    }
    return None;
  }

  /** `operator_mismatch`: the node types of the two WHERE walks differ as sets. */
  function OperatorMismatch(ctx: Ctx): (r: Option<Report>)
    ensures r.Some? <==> PredKinds(WherePreds(ctx.student)) != PredKinds(WherePreds(ctx.reference))
    ensures r.Some? ==> r.value == Empty
  {
    Matched(PredKinds(WherePreds(ctx.student)) != PredKinds(WherePreds(ctx.reference)))
  }

  /** The operator detector does not depend on the order of either walk. */
  lemma OperatorMismatchOrderFree(ctx: Ctx, s: seq<Pred>, r: seq<Pred>)
    requires ctx.student.where.Some? && ctx.reference.where.Some?
    requires multiset(s) == multiset(ctx.student.where.value) && multiset(r) == multiset(ctx.reference.where.value)
    ensures OperatorMismatch(ctx) ==
            OperatorMismatch(Ctx(ctx.student.(where := Some(s)), ctx.reference.(where := Some(r))))
  {
    SameKinds(s, ctx.student.where.value);
    SameKinds(r, ctx.reference.where.value);
  }

  lemma SameKinds(a: seq<Pred>, b: seq<Pred>)
    requires multiset(a) == multiset(b)
    ensures PredKinds(a) == PredKinds(b)
  {
    forall k | k in PredKinds(a)
      ensures k in PredKinds(b)
    {
      var i :| 0 <= i < |a| && a[i].kind == k;
      assert a[i] in multiset(b);
      var j :| 0 <= j < |b| && b[j] == a[i];
    }
    forall k | k in PredKinds(b)
      ensures k in PredKinds(a)
    {
      var j :| 0 <= j < |b| && b[j].kind == k;
      assert b[j] in multiset(a);
      var i :| 0 <= i < |a| && a[i] == b[j];
    }
  }

  // ---------------------------------------------------------------------------
  // Joins and tables
  // ---------------------------------------------------------------------------

  /** `missing_join`: the reference joins, the student does not. */
  function MissingJoin(ctx: Ctx): (r: Option<Report>)
    ensures r.Some? <==> ctx.reference.joins != [] && ctx.student.joins == []
    ensures r.Some? ==> r.value == Empty
  {
    Matched(ctx.reference.joins != [] && ctx.student.joins == [])
  }

  /** Two lists differ at some position both of them have. */
  predicate ZipDiffers(s: seq<string>, r: seq<string>) {
    exists i :: 0 <= i < |s| && i < |r| && s[i] != r[i]
  }

  /** The `for s, r in zip(...)` loop with early return. */
  method FindZipDifference(s: seq<string>, r: seq<string>) returns (found: bool)
    ensures found <==> ZipDiffers(s, r)
  {
    var n := if |s| < |r| then |s| else |r|;
    for i := 0 to n
      invariant forall j :: 0 <= j < i ==> s[j] == r[j]
    {
      if s[i] != r[i] {
        return true;
      }
    }
    return false;
  }

  /** Elements past the end of the shorter list are never compared. */
  lemma {:induction false} ZipDiffersIgnoresTail(s: seq<string>, r: seq<string>, extra: seq<string>)
    requires |s| <= |r|
    ensures ZipDiffers(s, r + extra) == ZipDiffers(s, r)
    ensures ZipDiffers(r + extra, s) == ZipDiffers(r, s)
  {
    if ZipDiffers(s, r + extra) {
      var i :| 0 <= i < |s| && i < |r + extra| && s[i] != (r + extra)[i];
      assert s[i] != r[i];
    }
    if ZipDiffers(r, s) {
      var i :| 0 <= i < |r| && i < |s| && r[i] != s[i];
      assert (r + extra)[i] != s[i];
    }
  }

  /** `join_type_mismatch`: the join kinds differ at a position both join lists have. */
  method JoinTypeMismatch(ctx: Ctx) returns (r: Option<Report>)
    ensures r.Some? <==> exists i :: 0 <= i < |ctx.student.joins| && i < |ctx.reference.joins| &&
                                     ctx.student.joins[i].kind != ctx.reference.joins[i].kind
    ensures r.Some? ==> r.value == Empty
  {
    var sk, rk := JoinKinds(ctx.student.joins), JoinKinds(ctx.reference.joins);
    var found := FindZipDifference(sk, rk);
    if found {
      var i :| 0 <= i < |sk| && i < |rk| && sk[i] != rk[i];
      assert ctx.student.joins[i].kind != ctx.reference.joins[i].kind;
    }
    r := Matched(found);
  }

  /** `join_without_on`: some join of the student has no ON condition. */
  function JoinWithoutOn(ctx: Ctx): (r: Option<Report>)
    ensures r.Some? <==> exists i :: 0 <= i < |ctx.student.joins| && !ctx.student.joins[i].hasOn
    ensures r.Some? ==> r.value == Empty
  {
    Matched(exists i :: 0 <= i < |ctx.student.joins| && !ctx.student.joins[i].hasOn)
  }

  /** `cartesian_join`: several FROM items and no join at all. */
  function CartesianJoin(ctx: Ctx): (r: Option<Report>)
    ensures r.Some? <==> ctx.student.fromItems.Some? && ctx.student.fromItems.value > 1 && ctx.student.joins == []
    ensures r.Some? ==> r.value == Empty
  {
    var f := ctx.student.fromItems;
    Matched(f.Some? && f.value > 1 && ctx.student.joins == [])
  }

  /** The join detectors are silent about each other: a cartesian join has no join to mistype or leave without ON. */
  lemma CartesianExcludesJoinDetectors(ctx: Ctx)
    requires CartesianJoin(ctx).Some?
    ensures JoinWithoutOn(ctx).None?
    ensures !exists i :: 0 <= i < |ctx.student.joins| && i < |ctx.reference.joins| &&
                         ctx.student.joins[i].kind != ctx.reference.joins[i].kind
  {
  }

  /** A list has as many distinct elements as positions exactly when no value repeats. */
  lemma {:induction false} DistinctIffNoDuplicate(xs: seq<string>)
    ensures |ToSet(xs)| <= |xs|
    ensures |ToSet(xs)| == |xs| <==> !HasDuplicate(xs)
    decreases |xs|
  {
    if xs == [] {
      assert ToSet(xs) == {};
    } else {
      var t := xs[1..];
      DistinctIffNoDuplicate(t);
      assert ToSet(xs) == {xs[0]} + ToSet(t);
      if xs[0] in t {
        assert ToSet(xs) == ToSet(t);
        var j :| 0 <= j < |t| && t[j] == xs[0];
        assert xs[0] == xs[j + 1];
      } else {
        assert |ToSet(xs)| == |ToSet(t)| + 1;
        if HasDuplicate(xs) {
          var i, j :| 0 <= i < j < |xs| && xs[i] == xs[j];
          assert i != 0 by {
            assert t[j - 1] == xs[j];
          }
          assert t[i - 1] == t[j - 1];
        }
        if HasDuplicate(t) {
          var i, j :| 0 <= i < j < |t| && t[i] == t[j];
          assert xs[i + 1] == xs[j + 1];
        }
      }
    }
  }

  /** `self_join_no_alias`: the table texts hold fewer distinct values than entries. */
  function SelfJoinNoAlias(ctx: Ctx): (r: Option<Report>)
    ensures r.Some? <==> HasDuplicate(ctx.student.tables)
    ensures r.Some? ==> r.value == Empty
  {
    DistinctIffNoDuplicate(ctx.student.tables);
    Matched(|ctx.student.tables| != |ToSet(ctx.student.tables)|)
  }

  // ---------------------------------------------------------------------------
  // Grouping and aggregation
  // ---------------------------------------------------------------------------

  /** `missing_group`: the reference groups, the student does not. */
  function MissingGroup(ctx: Ctx): (r: Option<Report>)
    ensures r.Some? <==> ctx.reference.group.Some? && ctx.student.group.None?
    ensures r.Some? ==> r.value == Empty
  {
    Matched(ctx.reference.group.Some? && ctx.student.group.None?)
  }

  /** `extra_group`: the student groups, the reference does not. */
  function ExtraGroup(ctx: Ctx): (r: Option<Report>)
    ensures r.Some? <==> ctx.student.group.Some? && ctx.reference.group.None?
    ensures r.Some? ==> r.value == Empty
  {
    Matched(ctx.student.group.Some? && ctx.reference.group.None?)
  }

  /** A bare column of the select list that is not among the GROUP BY texts. */
  predicate Ungrouped(e: SelectExpr, g: set<string>) {
    e.kind == "Column" && e.sql !in g
  }

  /**
   * `non_grouped_column`: the first bare select column missing from the GROUP BY texts, or
   * nothing when every bare column is grouped. Without GROUP BY every bare column counts.
   */
  method NonGroupedColumn(ctx: Ctx) returns (r: Option<Report>)
    ensures var sel, g := ctx.student.selects, GroupSet(ctx.student);
            r.None? <==> forall i :: 0 <= i < |sel| ==> !Ungrouped(sel[i], g)
    ensures var sel, g := ctx.student.selects, GroupSet(ctx.student);
            r.Some? ==> exists i :: 0 <= i < |sel| && Ungrouped(sel[i], g) &&
                                    r.value == Report(Some(sel[i].sql)) &&
                                    forall j :: 0 <= j < i ==> !Ungrouped(sel[j], g)
  {
    var gcols := GroupSet(ctx.student);
    var sel := ctx.student.selects;
    for i := 0 to |sel|
      invariant forall j :: 0 <= j < i ==> !Ungrouped(sel[j], gcols)
    {
      var e := sel[i];
      if e.kind == "Column" && e.sql !in gcols {
        return Some(Report(Some(e.sql)));
      }
    }
    return None;
  }

  /** `agg_function_mismatch`: the aggregate node types differ as sets. */
  function AggFunctionMismatch(ctx: Ctx): (r: Option<Report>)
    ensures r.Some? <==> AggKinds(ctx.student.aggs) != AggKinds(ctx.reference.aggs)
    ensures r.Some? ==> r.value == Empty
  {
    Matched(AggKinds(ctx.student.aggs) != AggKinds(ctx.reference.aggs))
  }

  /** `count_star_mismatch`: the student counts something other than `*`. */
  method CountStarMismatch(ctx: Ctx) returns (r: Option<Report>)
    ensures var gs := ctx.student.aggs;
            r.Some? <==> exists i :: 0 <= i < |gs| && gs[i].kind == "Count" && !gs[i].argIsStar
    ensures r.Some? ==> r.value == Empty
  {
    var gs := ctx.student.aggs;
    for i := 0 to |gs|
      invariant forall j :: 0 <= j < i ==> !(gs[j].kind == "Count" && !gs[j].argIsStar)
    {
      if gs[i].kind == "Count" && !gs[i].argIsStar {
        return Some(Empty);
      }
    }
    return None;
  }

  /** `having_without_group`: the student has HAVING but no GROUP BY. */
  function HavingWithoutGroup(ctx: Ctx): (r: Option<Report>)
    ensures r.Some? <==> ctx.student.hasHaving && ctx.student.group.None?
    ensures r.Some? ==> r.value == Empty
  {
    Matched(ctx.student.hasHaving && ctx.student.group.None?)
  }

  /** `missing_group` and `extra_group` never both match. HAVING without GROUP BY rules out
      `extra_group`, and it implies `missing_group` when the reference groups. */
  lemma GroupDetectorsExclusive(ctx: Ctx)
    ensures !(MissingGroup(ctx).Some? && ExtraGroup(ctx).Some?)
    ensures HavingWithoutGroup(ctx).Some? ==> ExtraGroup(ctx).None?
    ensures HavingWithoutGroup(ctx).Some? && ctx.reference.group.Some? ==> MissingGroup(ctx).Some?
  {
  }

  // ---------------------------------------------------------------------------
  // The select list and the rest
  // ---------------------------------------------------------------------------

  /** `distinct_mismatch`: the DISTINCT nodes differ (one of them missing counts). */
  function DistinctMismatch(ctx: Ctx): (r: Option<Report>)
    ensures r.Some? <==> ctx.student.distinct != ctx.reference.distinct
    ensures r.Some? ==> r.value == Empty
  {
    Matched(ctx.student.distinct != ctx.reference.distinct)
  }

  /** `projection_count`: the select lists have different lengths. */
  function ProjectionCount(ctx: Ctx): (r: Option<Report>)
    ensures r.Some? <==> |ctx.student.selects| != |ctx.reference.selects|
    ensures r.Some? ==> r.value == Empty
  {
    Matched(|ctx.student.selects| != |ctx.reference.selects|)
  }

  /** `expression_type_mismatch`: the select expressions' node types differ at a shared position. */
  method ExpressionTypeMismatch(ctx: Ctx) returns (r: Option<Report>)
    ensures r.Some? <==> exists i :: 0 <= i < |ctx.student.selects| && i < |ctx.reference.selects| &&
                                     ctx.student.selects[i].kind != ctx.reference.selects[i].kind
    ensures r.Some? ==> r.value == Empty
  {
    var sk, rk := ExprKinds(ctx.student.selects), ExprKinds(ctx.reference.selects);
    var found := FindZipDifference(sk, rk);
    if found {
      var i :| 0 <= i < |sk| && i < |rk| && sk[i] != rk[i];
      assert ctx.student.selects[i].kind != ctx.reference.selects[i].kind;
    }
    r := Matched(found);
  }

  /** `alias_mismatch`: the aliases differ at a shared position of the select lists. */
  method AliasMismatch(ctx: Ctx) returns (r: Option<Report>)
    ensures r.Some? <==> exists i :: 0 <= i < |ctx.student.selects| && i < |ctx.reference.selects| &&
                                     ctx.student.selects[i].alias != ctx.reference.selects[i].alias
    ensures r.Some? ==> r.value == Empty
  {
    var sa, ra := Aliases(ctx.student.selects), Aliases(ctx.reference.selects);
    var found := FindZipDifference(sa, ra);
    if found {
      var i :| 0 <= i < |sa| && i < |ra| && sa[i] != ra[i];
      assert ctx.student.selects[i].alias != ctx.reference.selects[i].alias;
    }
    r := Matched(found);
  }

  /** Same-length select lists with equal texts: neither the count nor the positional detectors match. */
  lemma SameSelectListSilent(ctx: Ctx)
    requires ctx.student.selects == ctx.reference.selects
    ensures ProjectionCount(ctx).None?
    ensures !ZipDiffers(ExprKinds(ctx.student.selects), ExprKinds(ctx.reference.selects))
    ensures !ZipDiffers(Aliases(ctx.student.selects), Aliases(ctx.reference.selects))
  {
  }

  /** `star_vs_explicit`: exactly one of the queries has a `*`. */
  function StarVsExplicit(ctx: Ctx): (r: Option<Report>)
    ensures r.Some? <==> (ctx.student.hasStar && !ctx.reference.hasStar) || (!ctx.student.hasStar && ctx.reference.hasStar)
    ensures r.Some? ==> r.value == Empty
  {
    Matched(ctx.student.hasStar != ctx.reference.hasStar)
  }

  /** `limit_mismatch`: the LIMIT nodes differ (one of them missing counts). */
  function LimitMismatch(ctx: Ctx): (r: Option<Report>)
    ensures r.Some? <==> ctx.student.limit != ctx.reference.limit
    ensures r.Some? ==> r.value == Empty
  {
    Matched(ctx.student.limit != ctx.reference.limit)
  }

  /** The detectors that compare the two queries symmetrically do not care which one is the student's. */
  lemma SymmetricDetectors(ctx: Ctx)
    ensures var swapped := Ctx(ctx.reference, ctx.student);
            BetweenMismatch(swapped) == BetweenMismatch(ctx) &&
            OperatorMismatch(swapped) == OperatorMismatch(ctx) &&
            AggFunctionMismatch(swapped) == AggFunctionMismatch(ctx) &&
            DistinctMismatch(swapped) == DistinctMismatch(ctx) &&
            ProjectionCount(swapped) == ProjectionCount(ctx) &&
            StarVsExplicit(swapped) == StarVsExplicit(ctx) &&
            LimitMismatch(swapped) == LimitMismatch(ctx)
  {
  }

  // ---------------------------------------------------------------------------
  // The registry
  // ---------------------------------------------------------------------------

  /** Which detector an entry runs. */
  datatype Detector =
    | MissingWhereDetector | ExtraWhereDetector | BetweenMismatchDetector | AndOrMixDetector
    | ContradictoryFiltersDetector | MissingJoinDetector | JoinTypeMismatchDetector
    | JoinWithoutOnDetector | CartesianJoinDetector | SelfJoinNoAliasDetector
    | MissingGroupDetector | ExtraGroupDetector | NonGroupedColumnDetector
    | AggFunctionMismatchDetector | CountStarMismatchDetector | HavingWithoutGroupDetector
    | DistinctMismatchDetector | ProjectionCountDetector | ExpressionTypeMismatchDetector
    | AliasMismatchDetector | StarVsExplicitDetector | NullComparisonDetector
    | OperatorMismatchDetector | LimitMismatchDetector

  /** The `Constraint` dataclass. */
  datatype Constraint = Constraint(id: int, name: string, priority: int, checker: Detector,
                                   shortHint: string, longHint: string)

  const RegistrySize := 24

  /** Which detector the entry at position `i` of the `CONSTRAINTS` list literal runs. */
  function DetectorAt(i: nat): Detector
    requires i < RegistrySize
  {
    match i
    case 0 => MissingWhereDetector
    case 1 => ExtraWhereDetector
    case 2 => BetweenMismatchDetector
    case 3 => AndOrMixDetector
    case 4 => ContradictoryFiltersDetector
    case 5 => MissingJoinDetector
    case 6 => JoinTypeMismatchDetector
    case 7 => JoinWithoutOnDetector
    case 8 => CartesianJoinDetector
    case 9 => SelfJoinNoAliasDetector
    case 10 => MissingGroupDetector
    case 11 => ExtraGroupDetector
    case 12 => NonGroupedColumnDetector
    case 13 => AggFunctionMismatchDetector
    case 14 => CountStarMismatchDetector
    case 15 => HavingWithoutGroupDetector
    case 16 => DistinctMismatchDetector
    case 17 => ProjectionCountDetector
    case 18 => ExpressionTypeMismatchDetector
    case 19 => AliasMismatchDetector
    case 20 => StarVsExplicitDetector
    case 21 => NullComparisonDetector
    case 22 => OperatorMismatchDetector
    case _ => LimitMismatchDetector
  }

  /** The id of the entry running `d`. */
  function Id(d: Detector): int {
    match d
    case MissingWhereDetector => 1
    case ExtraWhereDetector => 2
    case BetweenMismatchDetector => 3
    case AndOrMixDetector => 4
    case ContradictoryFiltersDetector => 5
    case MissingJoinDetector => 6
    case JoinTypeMismatchDetector => 7
    case JoinWithoutOnDetector => 8
    case CartesianJoinDetector => 9
    case SelfJoinNoAliasDetector => 10
    case MissingGroupDetector => 11
    case ExtraGroupDetector => 12
    case NonGroupedColumnDetector => 13
    case AggFunctionMismatchDetector => 14
    case CountStarMismatchDetector => 15
    case HavingWithoutGroupDetector => 16
    case DistinctMismatchDetector => 17
    case ProjectionCountDetector => 18
    case ExpressionTypeMismatchDetector => 19
    case AliasMismatchDetector => 20
    case StarVsExplicitDetector => 21
    case NullComparisonDetector => 22
    case OperatorMismatchDetector => 23
    case LimitMismatchDetector => 24
  }

  /** The name of the entry running `d`. */
  function Name(d: Detector): string {
    match d
    case MissingWhereDetector => "missing_where"
    case ExtraWhereDetector => "extra_where"
    case BetweenMismatchDetector => "between_bounds"
    case AndOrMixDetector => "and_or"
    case ContradictoryFiltersDetector => "contradiction"
    case MissingJoinDetector => "missing_join"
    case JoinTypeMismatchDetector => "join_type"
    case JoinWithoutOnDetector => "join_on"
    case CartesianJoinDetector => "cartesian"
    case SelfJoinNoAliasDetector => "self_join_alias"
    case MissingGroupDetector => "missing_group"
    case ExtraGroupDetector => "extra_group"
    case NonGroupedColumnDetector => "non_grouped"
    case AggFunctionMismatchDetector => "agg_func"
    case CountStarMismatchDetector => "count_star"
    case HavingWithoutGroupDetector => "having"
    case DistinctMismatchDetector => "distinct"
    case ProjectionCountDetector => "projection"
    case ExpressionTypeMismatchDetector => "expr_type"
    case AliasMismatchDetector => "alias"
    case StarVsExplicitDetector => "star"
    case NullComparisonDetector => "null"
    case OperatorMismatchDetector => "operator"
    case LimitMismatchDetector => "limit"
  }

  /** The priority of the entry running `d`. */
  function Priority(d: Detector): int {
    match d
    case MissingWhereDetector => 10
    case ExtraWhereDetector => 10
    case BetweenMismatchDetector => 15
    case AndOrMixDetector => 18
    case ContradictoryFiltersDetector => 20
    case MissingJoinDetector => 25
    case JoinTypeMismatchDetector => 28
    case JoinWithoutOnDetector => 30
    case CartesianJoinDetector => 32
    case SelfJoinNoAliasDetector => 34
    case MissingGroupDetector => 36
    case ExtraGroupDetector => 36
    case NonGroupedColumnDetector => 38
    case AggFunctionMismatchDetector => 40
    case CountStarMismatchDetector => 42
    case HavingWithoutGroupDetector => 44
    case DistinctMismatchDetector => 46
    case ProjectionCountDetector => 48
    case ExpressionTypeMismatchDetector => 50
    case AliasMismatchDetector => 52
    case StarVsExplicitDetector => 54
    case NullComparisonDetector => 56
    case OperatorMismatchDetector => 58
    case LimitMismatchDetector => 60
  }

  /** The short hint of the entry running `d`. */
  function ShortHint(d: Detector): string {
    match d
    case MissingWhereDetector => "Your query is missing a filter."
    case ExtraWhereDetector => "Your query applies an unnecessary filter."
    case BetweenMismatchDetector => "Range logic differs."
    case AndOrMixDetector => "Logical condition grouping may be incorrect."
    case ContradictoryFiltersDetector => "Your filters contradict each other."
    case MissingJoinDetector => "A required join is missing."
    case JoinTypeMismatchDetector => "The join type differs."
    case JoinWithoutOnDetector => "A join condition is missing."
    case CartesianJoinDetector => "Your query produces a Cartesian product."
    case SelfJoinNoAliasDetector => "Self-join lacks proper aliasing."
    case MissingGroupDetector => "Grouping is missing."
    case ExtraGroupDetector => "Unnecessary grouping detected."
    case NonGroupedColumnDetector => "A selected column is not grouped."
    case AggFunctionMismatchDetector => "Aggregation function differs."
    case CountStarMismatchDetector => "COUNT usage differs."
    case HavingWithoutGroupDetector => "HAVING is used incorrectly."
    case DistinctMismatchDetector => "Duplicate handling differs."
    case ProjectionCountDetector => "The number of selected expressions differs."
    case ExpressionTypeMismatchDetector => "Selected expressions differ in form."
    case AliasMismatchDetector => "Column aliases differ."
    case StarVsExplicitDetector => "Column selection differs."
    case NullComparisonDetector => "NULL is compared incorrectly."
    case OperatorMismatchDetector => "Comparison operators differ."
    case LimitMismatchDetector => "Row limiting differs."
  }

  /** The long hint of the entry running `d`. */
  function LongHint(d: Detector): string {
    match d
    case MissingWhereDetector =>
      "The expected solution restricts rows using a WHERE clause. Review which records should be included."
    case ExtraWhereDetector =>
      "The reference solution does not apply filtering here. Check whether the WHERE condition is required."
    case BetweenMismatchDetector =>
      "The reference solution handles boundary conditions differently. Ensure your comparisons match."
    case AndOrMixDetector =>
      "Mixing AND and OR without parentheses can change evaluation order."
    case ContradictoryFiltersDetector =>
      "Multiple conditions on the same column conflict and eliminate all rows."
    case MissingJoinDetector =>
      "The expected solution combines multiple tables using JOIN."
    case JoinTypeMismatchDetector =>
      "Different join types change which unmatched rows are included."
    case JoinWithoutOnDetector =>
      "Each JOIN must specify how rows are matched using an ON clause."
    case CartesianJoinDetector =>
      "Tables are combined without a join condition, resulting in excessive rows."
    case SelfJoinNoAliasDetector =>
      "When joining a table to itself, distinct aliases are required."
    case MissingGroupDetector =>
      "Aggregations with non-aggregated columns require GROUP BY."
    case ExtraGroupDetector =>
      "The reference solution does not group results."
    case NonGroupedColumnDetector =>
      "All non-aggregated columns must appear in GROUP BY."
    case AggFunctionMismatchDetector =>
      "Ensure the correct aggregation (COUNT, SUM, etc.) is used."
    case CountStarMismatchDetector =>
      "COUNT(*) and COUNT(column) behave differently with NULLs."
    case HavingWithoutGroupDetector =>
      "HAVING filters groups and requires GROUP BY."
    case DistinctMismatchDetector =>
      "DISTINCT changes whether duplicate rows are removed."
    case ProjectionCountDetector =>
      "The expected output contains a different number of columns."
    case ExpressionTypeMismatchDetector =>
      "The reference solution uses a different expression structure."
    case AliasMismatchDetector =>
      "Aliases affect column names in the output."
    case StarVsExplicitDetector =>
      "Selecting all columns (*) differs from selecting specific columns."
    case NullComparisonDetector =>
      "NULL must be tested using IS NULL or IS NOT NULL."
    case OperatorMismatchDetector =>
      "Different operators can change which rows match."
    case LimitMismatchDetector =>
      "LIMIT affects how many rows are returned."
  }

  /** The entry at position `i` of the `CONSTRAINTS` list literal. */
  function Entry(i: nat): (k: Constraint)
    requires i < RegistrySize
    ensures k.checker == DetectorAt(i) && k.id == Id(k.checker) && k.name == Name(k.checker)
    ensures k.priority == Priority(k.checker)
  {
    var d := DetectorAt(i);
    Constraint(Id(d), Name(d), Priority(d), d, ShortHint(d), LongHint(d))
  }

  /** `CONSTRAINTS` */
  function Constraints(n: nat): (cs: seq<Constraint>)
    requires n == RegistrySize
    ensures |cs| == n && forall i :: 0 <= i < n ==> cs[i] == Entry(i)
  {
    seq(n, i requires 0 <= i < n => Entry(i))
  }

  /** The position of the entry running a given detector, the inverse of `DetectorAt`. */
  function DetectorPosition(d: Detector): nat {
    match d
    case MissingWhereDetector => 0
    case ExtraWhereDetector => 1
    case BetweenMismatchDetector => 2
    case AndOrMixDetector => 3
    case ContradictoryFiltersDetector => 4
    case MissingJoinDetector => 5
    case JoinTypeMismatchDetector => 6
    case JoinWithoutOnDetector => 7
    case CartesianJoinDetector => 8
    case SelfJoinNoAliasDetector => 9
    case MissingGroupDetector => 10
    case ExtraGroupDetector => 11
    case NonGroupedColumnDetector => 12
    case AggFunctionMismatchDetector => 13
    case CountStarMismatchDetector => 14
    case HavingWithoutGroupDetector => 15
    case DistinctMismatchDetector => 16
    case ProjectionCountDetector => 17
    case ExpressionTypeMismatchDetector => 18
    case AliasMismatchDetector => 19
    case StarVsExplicitDetector => 20
    case NullComparisonDetector => 21
    case OperatorMismatchDetector => 22
    case LimitMismatchDetector => 23
  }

  /** The position of the entry with a given name, -1 for a name no entry has; names are told apart by length first. */
  function PositionOfName(name: string): int {
    match |name|
    case 4 => if name == "star" then 20 else if name == "null" then 21 else -1
    case 5 => if name == "alias" then 19 else if name == "limit" then 23 else -1
    case 6 => if name == "and_or" then 3 else if name == "having" then 15 else -1
    case 7 => if name == "join_on" then 7 else -1
    case 8 =>
      if name == "agg_func" then 13 else if name == "distinct" then 16
      else if name == "operator" then 22 else -1
    case 9 =>
      if name == "join_type" then 6 else if name == "cartesian" then 8
      else if name == "expr_type" then 18 else -1
    case 10 => if name == "count_star" then 14 else if name == "projection" then 17 else -1
    case 11 =>
      if name == "extra_where" then 1 else if name == "extra_group" then 11
      else if name == "non_grouped" then 12 else -1
    case 12 => if name == "missing_join" then 5 else -1
    case 13 =>
      if name == "missing_where" then 0 else if name == "contradiction" then 4
      else if name == "missing_group" then 10 else -1
    case 14 => if name == "between_bounds" then 2 else -1
    case 15 => if name == "self_join_alias" then 9 else -1
    case _ => -1
  }

  /** `DetectorPosition` and `DetectorAt` are inverse to each other. */
  lemma PositionOfDetectorAt(i: nat)
    requires i < RegistrySize
    ensures DetectorPosition(DetectorAt(i)) == i
  {
  }

  lemma DetectorAtPosition(d: Detector)
    ensures DetectorPosition(d) < RegistrySize && DetectorAt(DetectorPosition(d)) == d
  {
  }

  /** Every detector is registered exactly once. */
  lemma RegistryDetectors(n: nat)
    requires n == RegistrySize
    ensures forall i, j :: 0 <= i < j < n ==> Constraints(n)[i].checker != Constraints(n)[j].checker
    ensures forall d: Detector :: DetectorPosition(d) < n && Constraints(n)[DetectorPosition(d)].checker == d
  {
    forall i | 0 <= i < n
      ensures DetectorPosition(Constraints(n)[i].checker) == i
    {
      PositionOfDetectorAt(i);
    }
    forall d: Detector
      ensures DetectorPosition(d) < n && Constraints(n)[DetectorPosition(d)].checker == d
    {
      DetectorAtPosition(d);
    }
  }

  /** The id of each entry is its position plus one. */
  lemma IdAt(i: nat)
    requires i < RegistrySize
    ensures Id(DetectorAt(i)) == i + 1
  {
  }

  /** An entry's name determines the entry. */
  lemma NameAt(d: Detector)
    ensures PositionOfName(Name(d)) == DetectorPosition(d)
  {
  }

  /** The ids run 1..24 in list order, and no two entries share a name. */
  lemma RegistryIdsAndNames(n: nat)
    requires n == RegistrySize
    ensures forall i :: 0 <= i < n ==> Constraints(n)[i].id == i + 1
    ensures forall i, j :: 0 <= i < j < n ==> Constraints(n)[i].name != Constraints(n)[j].name
  {
    forall i | 0 <= i < n
      ensures Constraints(n)[i].id == i + 1
    {
      IdAt(i);
    }
    forall i, j | 0 <= i < j < n
      ensures Constraints(n)[i].name != Constraints(n)[j].name
    {
      NameAt(Constraints(n)[i].checker);
      NameAt(Constraints(n)[j].checker);
      PositionOfDetectorAt(i);
      PositionOfDetectorAt(j);
    }
  }

  /** Each entry's priority is at most the next one's, equal only after the first WHERE and the first GROUP entry. */
  lemma NextPriority(i: nat)
    requires i + 1 < RegistrySize
    ensures Priority(DetectorAt(i)) <= Priority(DetectorAt(i + 1))
    ensures Priority(DetectorAt(i)) == Priority(DetectorAt(i + 1)) <==> i == 0 || i == 10
  {
  }

  /** Along the list the priority never drops, and it stays equal only across one of the two ties. */
  lemma {:induction false} PriorityChain(i: nat, j: nat)
    requires i < j < RegistrySize
    ensures Priority(DetectorAt(i)) <= Priority(DetectorAt(j))
    ensures Priority(DetectorAt(i)) == Priority(DetectorAt(j)) ==> j == i + 1 && (i == 0 || i == 10)
    decreases j - i
  {
    NextPriority(j - 1);
    if i < j - 1 {
      PriorityChain(i, j - 1);
      NextPriority(i);
    }
  }

  /** The list is ordered by priority, and only entries 1/2 (priority 10) and 11/12 (priority 36) tie. */
  lemma RegistryPriorities(n: nat)
    requires n == RegistrySize
    ensures forall i, j :: 0 <= i < j < n ==> Constraints(n)[i].priority <= Constraints(n)[j].priority
    ensures forall i, j :: 0 <= i < j < n && Constraints(n)[i].priority == Constraints(n)[j].priority ==>
              (i == 0 && j == 1) || (i == 10 && j == 11)
  {
    forall i, j | 0 <= i < j < n
      ensures Constraints(n)[i].priority <= Constraints(n)[j].priority
      ensures Constraints(n)[i].priority == Constraints(n)[j].priority ==> (i == 0 && j == 1) || (i == 10 && j == 11)
    {
      PriorityChain(i, j);
    }
  }

  /** The two ties are at priority 10 and 36. */
  lemma Ties()
    ensures Priority(DetectorAt(0)) == Priority(DetectorAt(1)) == 10
    ensures Priority(DetectorAt(10)) == Priority(DetectorAt(11)) == 36
  {
  }
}
