/**
 * The hint engine of new.py: the scan of the catalogue for the first constraint that fires,
 * the texts of the hint levels, and `get_sql_hint`, which puts canonicalization, the
 * structural diff, execution, the semantic diff and the scan together.
 */
module HintEngine {
  import opened Base
  import opened QueryFacts
  import opened Checks
  import opened CatalogueEntries
  import opened Catalogue
  import StructuralDiff
  import ResultComparator
  import SemanticDiff
  import LlmGuard

  // ---------------------------------------------------------------------------
  // The scan
  // ---------------------------------------------------------------------------

  /**
   * `c.checker(context)` under the scan's `try`: the checkers in `raising` throw, which the
   * scan turns into "not matched" (the exception text it keeps as evidence is never read).
   */
  function Outcome(k: Constraint, ctx: Ctx, raising: set<Check>): (r: CheckResult)
    ensures k.check in raising ==> !r.matched
    ensures k.check !in raising ==> r == RunCheck(k.check, ctx)
  {
    if k.check in raising then NoMatch else RunCheck(k.check, ctx)
  }

  predicate Fires(k: Constraint, ctx: Ctx, raising: set<Check>) {
    Outcome(k, ctx, raising).matched
  }

  /** The position of the first constraint that fires, or `|cat|` when none does. */
  function FirstFiring(cat: seq<Constraint>, ctx: Ctx, raising: set<Check>): (i: nat)
    ensures i <= |cat|
    ensures i < |cat| ==> Fires(cat[i], ctx, raising)
    ensures forall j :: 0 <= j < i ==> !Fires(cat[j], ctx, raising)
    decreases |cat|
  {
    if cat == [] then 0
    else if Fires(cat[0], ctx, raising) then 0
    else
      var rest := FirstFiring(cat[1..], ctx, raising);
      assert forall j :: 1 <= j < 1 + rest ==> cat[j] == cat[1..][j - 1];
      1 + rest
  }

  datatype Match = Match(constraint: Constraint, evidence: Evidence)

  /** What the `for c in CONSTRAINTS` loop leaves in `matched_constraint` and `matched_evidence`. */
  function FirstMatch(cat: seq<Constraint>, ctx: Ctx, raising: set<Check>): (m: Option<Match>)
    ensures m.None? <==> forall j :: 0 <= j < |cat| ==> !Fires(cat[j], ctx, raising)
    ensures m.Some? ==> m.value.constraint in cat && Fires(m.value.constraint, ctx, raising)
    ensures m.Some? ==> m.value.evidence == RunCheck(m.value.constraint.check, ctx).evidence
  {
    var i := FirstFiring(cat, ctx, raising);
    if i < |cat| then Some(Match(cat[i], Outcome(cat[i], ctx, raising).evidence)) else None
  }

  /** The first firing position is the only one with nothing firing before it. */
  lemma FirstFiringUnique(cat: seq<Constraint>, ctx: Ctx, raising: set<Check>, i: nat)
    requires i <= |cat|
    requires i < |cat| ==> Fires(cat[i], ctx, raising)
    requires forall j :: 0 <= j < i ==> !Fires(cat[j], ctx, raising)
    ensures FirstFiring(cat, ctx, raising) == i
  {
  }

  /** The scan loop: the first constraint whose checker fires, with its evidence. */
  method ScanConstraints(cat: seq<Constraint>, ctx: Ctx, raising: set<Check>) returns (matched: Option<Match>)
    ensures matched == FirstMatch(cat, ctx, raising)
  {
    matched := None;
    var i := 0;
    while i < |cat|
      invariant 0 <= i <= |cat|
      invariant forall j :: 0 <= j < i ==> !Fires(cat[j], ctx, raising)
      invariant matched == None
    {
      var result := Outcome(cat[i], ctx, raising);
      if result.matched {
        matched := Some(Match(cat[i], result.evidence));
        break;
      }
      i := i + 1;
    }
    FirstFiringUnique(cat, ctx, raising, i);
  }

  /** In a catalogue ordered by priority and id, the selected constraint precedes every other that fires. */
  lemma FirstMatchMinimal(cat: seq<Constraint>, ctx: Ctx, raising: set<Check>, k: Constraint)
    requires KeySorted(cat)
    requires k in cat && Fires(k, ctx, raising)
    ensures FirstMatch(cat, ctx, raising).Some?
    ensures k == FirstMatch(cat, ctx, raising).value.constraint ||
            Before(FirstMatch(cat, ctx, raising).value.constraint, k)
  {
    var j :| 0 <= j < |cat| && cat[j] == k;
    var i := FirstFiring(cat, ctx, raising);
    assert i <= j;
  }

  /**
   * A constraint `b` is never selected when an earlier constraint `a`, whose checker does not
   * raise, fires whenever `b` does.
   */
  lemma Shadowed(cat: seq<Constraint>, ctx: Ctx, raising: set<Check>, a: Constraint, b: Constraint)
    requires KeySorted(cat) && a in cat && Before(a, b)
    requires a.check !in raising
    requires Fires(b, ctx, raising) ==> RunCheck(a.check, ctx).matched
    ensures FirstMatch(cat, ctx, raising).None? || FirstMatch(cat, ctx, raising).value.constraint != b
  {
    if Fires(b, ctx, raising) {
      FirstMatchMinimal(cat, ctx, raising, a);
    }
  }

  /** The entry registered at position `i` is in the catalogue. */
  lemma CatalogueHas(n: nat, cat: seq<Constraint>, i: nat)
    requires IsCatalogue(n, cat) && i < n
    ensures Entry(i + 1, Registration(i)) in cat
  {
    CatalogueOrdered(n, cat);
    assert Registered(n)[i] == Entry(i + 1, Registration(i));
    assert Entry(i + 1, Registration(i)) in multiset(cat);
  }

  /** The selected constraint of the catalogue is the entry of its checker. */
  lemma SelectedEntry(n: nat, cat: seq<Constraint>, ctx: Ctx, raising: set<Check>)
    requires IsCatalogue(n, cat) && FirstMatch(cat, ctx, raising).Some?
    ensures var k := FirstMatch(cat, ctx, raising).value.constraint;
            Position(k.check).Some? && k == Entry(Position(k.check).value + 1, k.check)
  {
    var k := FirstMatch(cat, ctx, raising).value.constraint;
    CatalogueMember(n, cat, k);
    RegisteredEntry(n, k);
  }

  /** A student parse error is always what the hint is about, unless its checker raises. */
  lemma ParseErrorWins(n: nat, cat: seq<Constraint>, ctx: Ctx, raising: set<Check>)
    requires IsCatalogue(n, cat) && ParseErrorCheck !in raising
    requires Truthy(ctx.parseErrorStudent)
    ensures FirstMatch(cat, ctx, raising) ==
      Some(Match(Entry(1, ParseErrorCheck), [Field("error", Text(ctx.parseErrorStudent.value))]))
  {
    ParseErrorFirst(n, cat);
    FirstFiringUnique(cat, ctx, raising, 0);
  }

  /** Without a parse error, a failed execution selects `execution_error`. */
  lemma ExecutionErrorNext(n: nat, cat: seq<Constraint>, ctx: Ctx, raising: set<Check>)
    requires IsCatalogue(n, cat) && ExecutionErrorCheck !in raising
    requires !Truthy(ctx.parseErrorStudent) && !BothSucceeded(ctx)
    ensures FirstMatch(cat, ctx, raising).Some?
    ensures FirstMatch(cat, ctx, raising).value.constraint == Entry(24, ExecutionErrorCheck)
  {
    CatalogueStartsWithParseThenExecution(n, cat);
    FailureOnlyExecutionError(ctx);
    FirstFiringUnique(cat, ctx, raising, 1);
  }

  /** `cartesian_product` is never selected: `missing_join_condition` fires on the same input first. */
  lemma CartesianProductNeverSelected(n: nat, cat: seq<Constraint>, ctx: Ctx, raising: set<Check>)
    requires IsCatalogue(n, cat) && MissingJoinConditionCheck !in raising
    ensures FirstMatch(cat, ctx, raising).None? ||
            FirstMatch(cat, ctx, raising).value.constraint.check != CartesianProductCheck
  {
    CatalogueOrdered(n, cat);
    CatalogueHas(n, cat, 3);
    CartesianSameAsMissingJoin(ctx);
    Shadowed(cat, ctx, raising, Entry(4, MissingJoinConditionCheck), Entry(44, CartesianProductCheck));
    if FirstMatch(cat, ctx, raising).Some? {
      SelectedEntry(n, cat, ctx, raising);
    }
  }

  /** `window_mismatch` is never selected: `window_expected` has its priority, an earlier id and its verdict. */
  lemma WindowMismatchNeverSelected(n: nat, cat: seq<Constraint>, ctx: Ctx, raising: set<Check>)
    requires IsCatalogue(n, cat) && WindowExpectedCheck !in raising
    ensures FirstMatch(cat, ctx, raising).None? ||
            FirstMatch(cat, ctx, raising).value.constraint.check != WindowMismatchCheck
  {
    CatalogueOrdered(n, cat);
    CatalogueHas(n, cat, 22);
    WindowChecksAgree(ctx);
    Shadowed(cat, ctx, raising, Entry(23, WindowExpectedCheck), Entry(42, WindowMismatchCheck));
    if FirstMatch(cat, ctx, raising).Some? {
      SelectedEntry(n, cat, ctx, raising);
    }
  }

  /** `unused_table` is never selected, in any order. */
  lemma UnusedTableNeverSelected(cat: seq<Constraint>, ctx: Ctx, raising: set<Check>)
    ensures FirstMatch(cat, ctx, raising).None? ||
            FirstMatch(cat, ctx, raising).value.constraint.check != UnusedTableCheck
  {
    UnusedTableNeverFires(ctx);
  }

  // ---------------------------------------------------------------------------
  // Hint texts
  // ---------------------------------------------------------------------------

  const StubPrefix := "Level 4 concept: "
  const CategoryOpen := "The category '"

  lemma PrefixOfConcat(a: string, b: string)
    ensures a <= a + b
  {
    assert (a + b)[..|a|] == a;
  }

  /** The six categories with a sentence of their own. */
  predicate MappedCategory(category: string) {
    category in {"missing_table", "missing_join_condition", "aggregate_without_groupby",
                 "group_by_missing_columns", "execution_error", "student_no_rows"}
  }

  /** What follows "Level 4 concept: " in the stub's text. */
  function Concept(category: string): string {
    if category == "missing_table" then
      "Consider where required attributes come from; a missing relation will prevent access to its columns."
    else if category == "missing_join_condition" then
      "Join keys pair related rows; missing or wrong keys lead to Cartesian products or missing matches."
    else if category == "aggregate_without_groupby" then
      "When aggregating, non-aggregated select columns must appear in GROUP BY."
    else if category == "group_by_missing_columns" then
      "GROUP BY defines grouping keys; missing keys change aggregation buckets."
    else if category == "execution_error" then
      "Fix syntax/runtime errors first; they indicate structural issues or unsupported functions."
    else if category == "student_no_rows" then
      "Zero rows usually means over-filtering or incorrect join types; test parts of the query to isolate the predicate."
    else
      CategoryOpen + category + "' refers to a conceptual area. Review the relevant SQL concept (joins, aggregation, predicates) and avoid requesting direct SQL corrections."
  }

  /**
   * `llm_conceptual_hint_stub`: a fixed sentence per mapped category, otherwise a sentence
   * quoting the category; every text starts with "Level 4 concept: ".
   */
  function ConceptualHintStub(category: string): (r: string)
    ensures StubPrefix <= r
  {
    PrefixOfConcat(StubPrefix, Concept(category));
    StubPrefix + Concept(category)
  }

  /** An unmapped category appears verbatim in its text, right after "Level 4 concept: The category '". */
  lemma StubQuotesCategory(category: string)
    requires !MappedCategory(category)
    ensures var r := ConceptualHintStub(category);
            var at := |StubPrefix| + |CategoryOpen|;
            at + |category| <= |r| && r[at..at + |category|] == category
  {
    var r := ConceptualHintStub(category);
    var c := Concept(category);
    assert r == StubPrefix + c;
    assert c[..|CategoryOpen|] == CategoryOpen;
    assert c[|CategoryOpen|..|CategoryOpen| + |category|] == category;
  }

  /** `format_hint`: the constraint's own level-1 or level-2 text, else the conceptual stub of its name. */
  function FormatHint(k: Constraint, level: int): (r: string)
    ensures level == 1 ==> r == HintL1(k.check)
    ensures level == 2 ==> r == HintL2(k.check)
    ensures level != 1 && level != 2 ==> r == ConceptualHintStub(k.name) && StubPrefix <= r
  {
    if level == 1 then HintL1(k.check)
    else if level == 2 then HintL2(k.check)
    else ConceptualHintStub(k.name)
  }

  /** The five sentences `build_semantic_explanation` chooses from. */
  datatype Explanation = OrderExplained | CountExplained | GroupingExplained | NullsExplained | GenericExplained

  /** Which sentence: the first signal of the precedence list order, count, grouping, NULLs decides. */
  function ExplanationKind(signals: seq<SemanticDiff.Signal>): (e: Explanation)
    ensures e == OrderExplained <==> SemanticDiff.OrderingDifference in signals
    ensures e == CountExplained <==>
              SemanticDiff.OrderingDifference !in signals && SemanticDiff.RowCountMismatch in signals
    ensures (forall g :: g in signals ==> g == SemanticDiff.RuntimeError || g == SemanticDiff.ReferenceError) ==>
              e == GenericExplained
  {
    if SemanticDiff.OrderingDifference in signals then OrderExplained
    else if SemanticDiff.RowCountMismatch in signals then CountExplained
    else if SemanticDiff.AggregationOrGroupingIssue in signals then GroupingExplained
    else if SemanticDiff.NullHandlingDifference in signals then NullsExplained
    else GenericExplained
  }

  function ExplanationText(e: Explanation): string {
    match e
    case OrderExplained =>
      "The values match the expected output, but their order differs. Check whether explicit ordering is required."
    case CountExplained =>
      "The number of returned results does not match the expected output. This often indicates missing filters, joins, or grouping logic."
    case GroupingExplained =>
      "The output size suggests that rows may be grouped or aggregated incorrectly. Review how records are combined."
    case NullsExplained =>
      "The output differs in how missing values are handled. Check how NULL values are treated in conditions or expressions."
    case GenericExplained =>
      "The output differs from the expected result. Review the logic that determines which values are produced."
  }

  /** `build_semantic_explanation` */
  function BuildSemanticExplanation(signals: seq<SemanticDiff.Signal>): string {
    ExplanationText(ExplanationKind(signals))
  }

  /**
   * The level-3 explanation of two results that both ran and differ: the order sentence
   * exactly when they hold the same rows in another order, the count sentence exactly when
   * the sizes differ, the NULL sentence when only the presence of NULLs tells them apart,
   * and the generic sentence otherwise. The grouping sentence never appears, since its signal
   * always comes with the count signal.
   */
  lemma ExplanationOfResults(student: ExecRecord, reference: ExecRecord)
    requires student.success && reference.success && student.rows != reference.rows
    ensures var s, r := student.rows, reference.rows;
            var e := ExplanationKind(SemanticDiff.Classify(student, reference).signals);
            (e == OrderExplained <==> multiset(s) == multiset(r)) &&
            (e == CountExplained <==> |s| != |r|) &&
            (e == NullsExplained <==>
               (|s| == |r| && multiset(s) != multiset(r) && SemanticDiff.HasNull(s) != SemanticDiff.HasNull(r))) &&
            (e == GenericExplained <==>
               (|s| == |r| && multiset(s) != multiset(r) && SemanticDiff.HasNull(s) == SemanticDiff.HasNull(r))) &&
            e != GroupingExplained
  {
    SemanticDiff.DiffSignalsMeaning(student.rows, reference.rows);
  }

  /** A failed execution gets the generic sentence. */
  lemma ExplanationOfFailure(student: ExecRecord, reference: ExecRecord)
    requires !student.success || !reference.success
    ensures ExplanationKind(SemanticDiff.Classify(student, reference).signals) == GenericExplained
  {
    SemanticDiff.ClassifyFailure(student, reference);
  }

  /** `hint_level if hint_level in (1,2,3,4,5) else 1` */
  function ClampLevel(level: int): (r: int)
    ensures 1 <= r <= 5
    ensures 1 <= level <= 5 ==> r == level
    ensures !(1 <= level <= 5) ==> r == 1
  {
    if 1 <= level <= 5 then level else 1
  }

  /**
   * The text for the selected constraint: its level-1 text (also for a level outside 1..5),
   * its level-2 text, its conceptual stub at level 3, and the guarded model reply at 4 and 5.
   */
  function LevelText(k: Constraint, hintLevel: int, reply: string): (r: string)
    ensures (hintLevel == 1 || !(1 <= hintLevel <= 5)) ==> r == HintL1(k.check)
    ensures hintLevel == 2 ==> r == HintL2(k.check)
    ensures hintLevel == 3 ==> r == ConceptualHintStub(k.name)
    ensures hintLevel == 4 || hintLevel == 5 ==> r == LlmGuard.SafeHint(reply)
  {
    var lvl := ClampLevel(hintLevel);
    if lvl == 4 || lvl == 5 then LlmGuard.SafeHint(reply) else FormatHint(k, lvl)
  }

  // ---------------------------------------------------------------------------
  // get_sql_hint
  // ---------------------------------------------------------------------------

  const CorrectText := "Your query is correct. It produces the expected output."
  const NoHintsText := "No hints applicable; your query may already match or require deeper manual analysis."

  datatype Hint = Hint(level: int, text: string, constraintId: Option<int>,
                       constraintName: Option<string>, evidence: Option<Evidence>)

  datatype Execution = Execution(student: ExecRecord, reference: ExecRecord, equal: bool, error: Option<string>)

  /** The dict `get_sql_hint` returns. */
  datatype SqlHint = SqlHint(
    normalizedStudent: Option<string>,
    normalizedReference: Option<string>,
    parseErrorStudent: Option<string>,
    parseErrorReference: Option<string>,
    astDiffs: seq<string>,
    execution: Execution,
    hint: Hint)

  /** The scan's result, with the generic `semantic_mismatch` constraint when nothing fired and the outputs differ. */
  function Selected(cat: seq<Constraint>, ctx: Ctx, raising: set<Check>, equal: bool): Option<Match> {
    var m := FirstMatch(cat, ctx, raising);
    if m.None? && BothSucceeded(ctx) && !equal then Some(Match(Generic, [])) else m
  }

  /** Where the hint comes from: the early exit, the level-3 shortcut, a constraint, or nothing. */
  datatype Decision = CorrectQuery | Explained(signals: seq<SemanticDiff.Signal>) | Chosen(m: Match) | NothingApplies

  function Decide(cat: seq<Constraint>, ctx: Ctx, hintLevel: int, equal: bool,
                  semantic: SemanticDiff.SemanticResult, raising: set<Check>): Decision
  {
    if BothSucceeded(ctx) && equal then CorrectQuery
    else if hintLevel == 3 && !semantic.equal then Explained(semantic.signals)
    else match Selected(cat, ctx, raising, equal)
      case Some(m) => Chosen(m)
      case None => NothingApplies
  }

  /** The `hint` dict for a decision: the text, and the constraint and evidence when one was chosen. */
  function Render(d: Decision, hintLevel: int, reply: string): (h: Hint)
    ensures h.level == hintLevel
    ensures d.Chosen? <==> h.constraintId.Some?
    ensures d.Chosen? ==> h.constraintId == Some(d.m.constraint.id) &&
                          h.constraintName == Some(d.m.constraint.name) &&
                          h.text == LevelText(d.m.constraint, hintLevel, reply)
    ensures !d.Chosen? ==> h.constraintName == None
    ensures h.evidence == (if d.CorrectQuery? then Some([]) else if d.Chosen? then Some(d.m.evidence) else None)
    ensures d.Explained? ==> h.text == BuildSemanticExplanation(d.signals)
    ensures d.CorrectQuery? ==> h.text == CorrectText
    ensures d.NothingApplies? ==> h.text == NoHintsText
  {
    match d
    case CorrectQuery => Hint(hintLevel, CorrectText, None, None, Some([]))
    case Explained(signals) => Hint(hintLevel, BuildSemanticExplanation(signals), None, None, None)
    case Chosen(m) =>
      Hint(hintLevel, LevelText(m.constraint, hintLevel, reply),
           Some(m.constraint.id), Some(m.constraint.name), Some(m.evidence))
    case NothingApplies => Hint(hintLevel, NoHintsText, None, None, None)
  }

  /** The context the checkers read: the canonical texts re-parsed, the merged parse error, the runs. */
  function ContextOf(studentSql: string, referenceSql: string,
                     ad: StructuralDiff.AstDiffResult, parseErrorStudent: Option<string>,
                     normalizedStudent: Option<string>, normalizedReference: Option<string>,
                     reparseS: Outcome<Tree>, reparseR: Outcome<Tree>,
                     execStudent: ExecRecord, execRef: ExecRecord, regex: RegexFacts): Ctx
  {
    Ctx(studentSql, referenceSql,
        StructuralDiff.ReparsedTree(normalizedStudent, reparseS),
        StructuralDiff.ReparsedTree(normalizedReference, reparseR),
        parseErrorStudent, ad.metadata, execStudent, execRef, regex)
  }

  /** `a if truthy(a) else b`: the `if ad.x: out[...] = ad.x` overrides. */
  function Prefer(a: Option<string>, b: Option<string>): Option<string> {
    if Truthy(a) then a else b
  }

  /**
   * What `get_sql_hint` returns once the queries are canonicalized (`canS`/`errS`,
   * `canR`/`errR`) and diffed (`ad`).
   */
  function SqlHintFrom(cat: seq<Constraint>, studentSql: string, referenceSql: string, hintLevel: int,
                       canS: Option<string>, errS: Option<string>, canR: Option<string>, errR: Option<string>,
                       ad: StructuralDiff.AstDiffResult, reparseS: Outcome<Tree>, reparseR: Outcome<Tree>,
                       execStudent: ExecRecord, execRef: ExecRecord, regex: RegexFacts,
                       raising: set<Check>, reply: string): SqlHint
  {
    var normS := Prefer(ad.normalizedStudent, canS);
    var normR := Prefer(ad.normalizedReference, canR);
    var perrS := Prefer(ad.parseErrorStudent, errS);
    var perrR := Prefer(ad.parseErrorReference, errR);
    var ctx := ContextOf(studentSql, referenceSql, ad, perrS, normS, normR, reparseS, reparseR,
                         execStudent, execRef, regex);
    var cmp := ResultComparator.CompareResults(execStudent, execRef);
    var semantic := SemanticDiff.Classify(execStudent, execRef);
    SqlHint(normS, normR, perrS, perrR, ad.structuralDiffs,
            Execution(execStudent, execRef, cmp.equal, cmp.error),
            Render(Decide(cat, ctx, hintLevel, cmp.equal, semantic, raising), hintLevel, reply))
  }

  /**
   * What `get_sql_hint` returns. The parser's outcomes, the two execution records, the
   * regular-expression facts, the set of checkers that raise and the model's reply are inputs.
   */
  function SqlHintOf(cat: seq<Constraint>, studentSql: string, referenceSql: string, hintLevel: int,
                     parsedS: Outcome<string>, parsedR: Outcome<string>,
                     reparseS: Outcome<Tree>, reparseR: Outcome<Tree>,
                     execStudent: ExecRecord, execRef: ExecRecord, regex: RegexFacts,
                     raising: set<Check>, reply: string): SqlHint
  {
    var (canS, errS) := StructuralDiff.Canonicalize(studentSql, parsedS);
    var (canR, errR) := StructuralDiff.Canonicalize(referenceSql, parsedR);
    var ad := StructuralDiff.AstDiffOf(studentSql, referenceSql, parsedS, parsedR, reparseS, reparseR);
    SqlHintFrom(cat, studentSql, referenceSql, hintLevel, canS, errS, canR, errR, ad, reparseS, reparseR,
                execStudent, execRef, regex, raising, reply)
  }

  /** Steps 4 and 5 of `get_sql_hint`: the early exit, the scan with its generic fallback, the level-3 shortcut. */
  method DecideHint(cat: seq<Constraint>, ctx: Ctx, hintLevel: int, equal: bool,
                    semantic: SemanticDiff.SemanticResult, raising: set<Check>)
    returns (d: Decision)
    ensures d == Decide(cat, ctx, hintLevel, equal, semantic, raising)
  {
    if ctx.execStudent.success && ctx.execRef.success && equal {
      return CorrectQuery;
    }
    var matched := ScanConstraints(cat, ctx, raising);
    if matched.None? && ctx.execStudent.success && ctx.execRef.success && !equal {
      matched := Some(Match(Generic, []));
    }
    if hintLevel == 3 && !semantic.equal {
      d := Explained(semantic.signals);
    } else if matched.Some? {
      d := Chosen(matched.value);
    } else {
      d := NothingApplies;
    }
  }

  /** Step 6 of `get_sql_hint`: the hint text, through the guarded model call at levels 4 and 5. */
  method RenderHint(d: Decision, hintLevel: int, reply: string, astDiffs: seq<string>, ctx: Ctx)
    returns (hint: Hint)
    ensures hint == Render(d, hintLevel, reply)
  {
    match d
    case CorrectQuery =>
      hint := Hint(hintLevel, CorrectText, None, None, Some([]));
    case Explained(signals) =>
      hint := Hint(hintLevel, BuildSemanticExplanation(signals), None, None, None);
    case Chosen(m) =>
      var k := m.constraint;
      var lvl := ClampLevel(hintLevel);
      var text: string;
      if lvl == 4 || lvl == 5 {
        text := LlmGuard.LlmGenerateSafeHint(astDiffs, ctx.metadata, ctx.execStudent, ctx.execRef,
                                             k.name, m.evidence, reply);
      } else {
        text := FormatHint(k, lvl);
      }
      hint := Hint(hintLevel, text, Some(k.id), Some(k.name), Some(m.evidence));
    case NothingApplies =>
      hint := Hint(hintLevel, NoHintsText, None, None, None);
  }

  /** The `if ad.x: out[...] = ad.x` overrides of the canonicalization's fields. */
  method CopyOverrides(ad: StructuralDiff.AstDiffResult, canS: Option<string>, errS: Option<string>,
                       canR: Option<string>, errR: Option<string>)
    returns (normS: Option<string>, normR: Option<string>, perrS: Option<string>, perrR: Option<string>)
    ensures normS == Prefer(ad.normalizedStudent, canS) && normR == Prefer(ad.normalizedReference, canR)
    ensures perrS == Prefer(ad.parseErrorStudent, errS) && perrR == Prefer(ad.parseErrorReference, errR)
  {
    normS, normR, perrS, perrR := canS, canR, errS, errR;
    if Truthy(ad.normalizedStudent) {
      normS := ad.normalizedStudent;
    }
    if Truthy(ad.normalizedReference) {
      normR := ad.normalizedReference;
    }
    if Truthy(ad.parseErrorStudent) {
      perrS := ad.parseErrorStudent;
    }
    if Truthy(ad.parseErrorReference) {
      perrR := ad.parseErrorReference;
    }
  }

  /** Steps 2 to 6 of `get_sql_hint`, after the structural diff `ad` has been computed. */
  method Assemble(cat: seq<Constraint>, studentSql: string, referenceSql: string, hintLevel: int,
                  canS: Option<string>, errS: Option<string>, canR: Option<string>, errR: Option<string>,
                  ad: StructuralDiff.AstDiffResult, reparseS: Outcome<Tree>, reparseR: Outcome<Tree>,
                  execStudent: ExecRecord, execRef: ExecRecord, regex: RegexFacts,
                  raising: set<Check>, reply: string)
    returns (out: SqlHint)
    ensures out == SqlHintFrom(cat, studentSql, referenceSql, hintLevel, canS, errS, canR, errR, ad,
                               reparseS, reparseR, execStudent, execRef, regex, raising, reply)
  {
    var normS, normR, perrS, perrR := CopyOverrides(ad, canS, errS, canR, errR);
    var ctx := ContextOf(studentSql, referenceSql, ad, perrS, normS, normR, reparseS, reparseR,
                         execStudent, execRef, regex);

    // 3) execution and comparison
    var cmp := ResultComparator.CompareResults(execStudent, execRef);
    var execution := Execution(execStudent, execRef, cmp.equal, cmp.error);
    var semantic := SemanticDiff.SemanticDiffOf(execStudent, execRef);

    // 4) to 6) the hint
    var d := DecideHint(cat, ctx, hintLevel, cmp.equal, semantic, raising);
    var hint := RenderHint(d, hintLevel, reply, ad.structuralDiffs, ctx);
    out := SqlHint(normS, normR, perrS, perrR, ad.structuralDiffs, execution, hint);
  }

  /** `get_sql_hint`, step by step as the source takes them. */
  method GetSqlHint(cat: seq<Constraint>, studentSql: string, referenceSql: string, hintLevel: int,
                    parsedS: Outcome<string>, parsedR: Outcome<string>,
                    reparseS: Outcome<Tree>, reparseR: Outcome<Tree>,
                    execStudent: ExecRecord, execRef: ExecRecord, regex: RegexFacts,
                    raising: set<Check>, reply: string)
    returns (out: SqlHint)
    ensures out == SqlHintOf(cat, studentSql, referenceSql, hintLevel, parsedS, parsedR,
                             reparseS, reparseR, execStudent, execRef, regex, raising, reply)
  {
    // 1) canonicalize, 2) structural diff
    var (canS, errS) := StructuralDiff.Canonicalize(studentSql, parsedS);
    var (canR, errR) := StructuralDiff.Canonicalize(referenceSql, parsedR);
    var ad := StructuralDiff.AstDiff(studentSql, referenceSql, parsedS, parsedR, reparseS, reparseR);
    out := Assemble(cat, studentSql, referenceSql, hintLevel, canS, errS, canR, errR, ad, reparseS, reparseR,
                    execStudent, execRef, regex, raising, reply);
  }

  // ---------------------------------------------------------------------------
  // Properties of the decision
  // ---------------------------------------------------------------------------

  /** Equal outputs of two successful runs end the request at the "correct" exit. */
  lemma CorrectQueryExit(cat: seq<Constraint>, ctx: Ctx, hintLevel: int, equal: bool,
                         semantic: SemanticDiff.SemanticResult, raising: set<Check>)
    requires BothSucceeded(ctx) && equal
    ensures Decide(cat, ctx, hintLevel, equal, semantic, raising) == CorrectQuery
  {
  }

  /** Otherwise, at level 3, differing outputs are explained from the semantic signals, without a constraint. */
  lemma LevelThreeExplains(cat: seq<Constraint>, ctx: Ctx, equal: bool,
                           semantic: SemanticDiff.SemanticResult, raising: set<Check>)
    requires !(BothSucceeded(ctx) && equal) && !semantic.equal
    ensures Decide(cat, ctx, 3, equal, semantic, raising) == Explained(semantic.signals)
  {
  }

  /** Otherwise the constraint the scan selected (or the generic one) decides the hint. */
  lemma SelectedDecides(cat: seq<Constraint>, ctx: Ctx, hintLevel: int, equal: bool,
                        semantic: SemanticDiff.SemanticResult, raising: set<Check>)
    requires !(BothSucceeded(ctx) && equal) && !(hintLevel == 3 && !semantic.equal)
    ensures Selected(cat, ctx, raising, equal).Some? ==>
              Decide(cat, ctx, hintLevel, equal, semantic, raising) == Chosen(Selected(cat, ctx, raising, equal).value)
    ensures Selected(cat, ctx, raising, equal).None? ==>
              Decide(cat, ctx, hintLevel, equal, semantic, raising) == NothingApplies
  {
  }

  /** When no checker fires but both runs succeeded with different outputs, the generic constraint 999 is used. */
  lemma GenericMismatch(cat: seq<Constraint>, ctx: Ctx, equal: bool, raising: set<Check>)
    requires FirstMatch(cat, ctx, raising).None? && BothSucceeded(ctx) && !equal
    ensures Selected(cat, ctx, raising, equal) == Some(Match(Generic, []))
    ensures Generic.id == 999 && Generic.name == "semantic_mismatch" && Generic.priority == 500
  {
  }

  /** A failed run always makes some checker fire: `execution_error` is in the catalogue. */
  lemma FailureAlwaysMatches(n: nat, cat: seq<Constraint>, ctx: Ctx)
    requires IsCatalogue(n, cat) && !BothSucceeded(ctx)
    ensures FirstMatch(cat, ctx, {}).Some?
  {
    FailureOnlyExecutionError(ctx);
    CatalogueHas(n, cat, 23);
    var k := Entry(24, ExecutionErrorCheck);
    assert Fires(k, ctx, {});
    var j :| 0 <= j < |cat| && cat[j] == k;
  }

  /** With the whole catalogue and no checker raising, the "no hints" answer never happens. */
  lemma AlwaysSomeHint(n: nat, cat: seq<Constraint>, ctx: Ctx, hintLevel: int, equal: bool,
                       semantic: SemanticDiff.SemanticResult)
    requires IsCatalogue(n, cat)
    ensures Decide(cat, ctx, hintLevel, equal, semantic, {}) != NothingApplies
  {
    if !BothSucceeded(ctx) {
      FailureAlwaysMatches(n, cat, ctx);
    }
  }

  /** The result reports the execution comparison, and the hint keeps the requested level. */
  lemma ResultShape(cat: seq<Constraint>, studentSql: string, referenceSql: string, hintLevel: int,
                    parsedS: Outcome<string>, parsedR: Outcome<string>,
                    reparseS: Outcome<Tree>, reparseR: Outcome<Tree>,
                    execStudent: ExecRecord, execRef: ExecRecord, regex: RegexFacts,
                    raising: set<Check>, reply: string)
    ensures var out := SqlHintOf(cat, studentSql, referenceSql, hintLevel, parsedS, parsedR,
                                 reparseS, reparseR, execStudent, execRef, regex, raising, reply);
            out.hint.level == hintLevel &&
            out.execution.error == None &&
            (out.execution.equal <==> (execStudent.success && execRef.success &&
                                       LowerAll(execStudent.cols) == LowerAll(execRef.cols) &&
                                       multiset(execStudent.rows) == multiset(execRef.rows))) &&
            (out.execution.equal ==> out.hint.text == CorrectText && out.hint.evidence == Some([]))
  {
  }
}
