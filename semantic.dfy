/**
 * semantic_diff.py: execution-based differencing of the student's and the reference result,
 * producing an equality flag, a list of signals and a one-sentence summary.
 */
module SemanticDiff {
  import opened Base
  import opened Order

  datatype Signal =
    | RuntimeError
    | ReferenceError
    | RowCountMismatch
    | ValueMismatch
    | OrderingDifference
    | NullHandlingDifference
    | AggregationOrGroupingIssue

  /** The signal names the source appends. */
  function SignalName(g: Signal): string {
    match g
    case RuntimeError => "runtime_error"
    case ReferenceError => "reference_error"
    case RowCountMismatch => "row_count_mismatch"
    case ValueMismatch => "value_mismatch"
    case OrderingDifference => "ordering_difference"
    case NullHandlingDifference => "null_handling_difference"
    case AggregationOrGroupingIssue => "aggregation_or_grouping_issue"
  }

  datatype SemanticResult = SemanticResult(equal: bool, signals: seq<Signal>, summary: string)

  const FailsToExecute := "The program fails to execute."
  const ReferenceFailed := "The reference solution failed unexpectedly."
  const OutputsMatch := "Outputs match exactly."
  const NonObvious := "Outputs differ in a non-obvious way."
  const CountDiffers := "The number of results differs from the expected output."
  const OrderDiffers := "The results contain the same values but appear in a different order."
  const SizeSuggestsGrouping := "The output size suggests a grouping or aggregation difference."
  const NullsDiffer := "The handling of missing or NULL values differs."
  const ValuesDiffer := "Some result values differ from the expected output."

  /** `has_null`: some value of some row is NULL. */
  predicate HasNull(rows: seq<Row>) {
    exists i, j :: 0 <= i < |rows| && 0 <= j < |rows[i]| && rows[i][j] == Null
  }

  /** Some position shared by both lists holds different rows (what the `zip` loop looks for). */
  predicate ZipDiffers(s: seq<Row>, r: seq<Row>) {
    exists k :: 0 <= k < |s| && k < |r| && s[k] != r[k]
  }

  /** `summarize_signals`: the first signal of a fixed precedence list names the summary. */
  function SummarizeSignals(signals: seq<Signal>): string {
    if signals == [] then NonObvious
    else if RowCountMismatch in signals then CountDiffers
    else if OrderingDifference in signals then OrderDiffers
    else if AggregationOrGroupingIssue in signals then SizeSuggestsGrouping
    else if NullHandlingDifference in signals then NullsDiffer
    else ValuesDiffer
  }

  /** The signals of two successful, unequal results, in the order the source appends them. */
  function DiffSignals(s: seq<Row>, r: seq<Row>): seq<Signal> {
    (if |s| != |r| then [RowCountMismatch] else [])
    + (if |s| == |r| && ZipDiffers(s, r) then [ValueMismatch] else [])
    + (if SortRows(s) == SortRows(r) then [OrderingDifference] else [])
    + (if HasNull(s) != HasNull(r) then [NullHandlingDifference] else [])
    + (if 0 < |s| < |r| then [AggregationOrGroupingIssue] else [])
  }

  /** What `semantic_diff` returns for the two execution records. */
  function Classify(student: ExecRecord, reference: ExecRecord): SemanticResult {
    if !student.success then SemanticResult(false, [RuntimeError], FailsToExecute)
    else if !reference.success then SemanticResult(false, [ReferenceError], ReferenceFailed)
    else if student.rows == reference.rows then SemanticResult(true, [], OutputsMatch)
    else
      var signals := DiffSignals(student.rows, reference.rows);
      SemanticResult(false, signals, SummarizeSignals(signals))
  }

  /** The `zip` loop of `semantic_diff`: stops at the first position holding different rows. */
  method RowsDifferPairwise(s: seq<Row>, r: seq<Row>) returns (differs: bool)
    ensures differs <==> ZipDiffers(s, r)
  {
    differs := false;
    var i := 0;
    while i < |s| && i < |r|
      invariant 0 <= i <= |s| && i <= |r|
      invariant forall k :: 0 <= k < i ==> s[k] == r[k]
    {
      if s[i] != r[i] {
        differs := true;
        break;
      }
      i := i + 1;
    }
  }

  /** `semantic_diff`, building the signal list step by step as the source does. */
  method SemanticDiffOf(student: ExecRecord, reference: ExecRecord) returns (res: SemanticResult)
    ensures res == Classify(student, reference)
  {
    var signals: seq<Signal> := [];
    if !student.success {
      signals := signals + [RuntimeError];
      return SemanticResult(false, signals, FailsToExecute);
    }
    if !reference.success {
      signals := signals + [ReferenceError];
      return SemanticResult(false, signals, ReferenceFailed);
    }
    var s := student.rows;
    var r := reference.rows;
    if s == r {
      return SemanticResult(true, signals, OutputsMatch);
    }
    var sameBag := SortRows(s) == SortRows(r);
    var nullsDiffer := HasNull(s) != HasNull(r);
    if |s| != |r| {
      signals := signals + [RowCountMismatch];
    }
    if |s| == |r| {
      var differs := RowsDifferPairwise(s, r);
      if differs {
        signals := signals + [ValueMismatch];
      }
    }
    if sameBag {
      signals := signals + [OrderingDifference];
    }
    if nullsDiffer {
      signals := signals + [NullHandlingDifference];
    }
    if |s| < |r| && |s| > 0 {
      signals := signals + [AggregationOrGroupingIssue];
    }
    assert signals == DiffSignals(s, r);
    res := SemanticResult(false, signals, SummarizeSignals(signals));
  }

  // ---------------------------------------------------------------------------
  // What the signals mean
  // ---------------------------------------------------------------------------

  /** Two lists of the same length that differ differ at some position. */
  lemma {:induction false} SameLengthDifferAt(s: seq<Row>, r: seq<Row>)
    requires |s| == |r| && s != r
    ensures ZipDiffers(s, r)
    decreases |s|
  {
    if s[0] != r[0] {
      assert 0 < |s| && s[0] != r[0];
    } else {
      assert s == [s[0]] + s[1..] && r == [r[0]] + r[1..];
      assert s[1..] != r[1..];
      SameLengthDifferAt(s[1..], r[1..]);
      var k :| 0 <= k < |s[1..]| && k < |r[1..]| && s[1..][k] != r[1..][k];
      assert s[k + 1] != r[k + 1];
    }
  }

  /** `equal` holds exactly when both ran and returned the very same list of rows. */
  lemma ClassifyEqualIff(student: ExecRecord, reference: ExecRecord)
    ensures Classify(student, reference).equal <==>
      student.success && reference.success && student.rows == reference.rows
  {
  }

  /**
   * For two successful, unequal results: the count signal and the value signal exclude each
   * other and one of them is always present; the order signal means equal as bags; the
   * aggregation signal comes only with the count signal.
   */
  lemma {:induction false} DiffSignalsMeaning(s: seq<Row>, r: seq<Row>)
    requires s != r
    ensures RowCountMismatch in DiffSignals(s, r) <==> |s| != |r|
    ensures ValueMismatch in DiffSignals(s, r) <==> |s| == |r|
    ensures OrderingDifference in DiffSignals(s, r) <==> multiset(s) == multiset(r)
    ensures NullHandlingDifference in DiffSignals(s, r) <==> HasNull(s) != HasNull(r)
    ensures AggregationOrGroupingIssue in DiffSignals(s, r) <==> 0 < |s| < |r|
    ensures AggregationOrGroupingIssue in DiffSignals(s, r) ==> RowCountMismatch in DiffSignals(s, r)
    ensures OrderingDifference in DiffSignals(s, r) ==> ValueMismatch in DiffSignals(s, r)
  {
    if |s| == |r| {
      SameLengthDifferAt(s, r);
    }
    SortRowsEqualIff(s, r);
    if multiset(s) == multiset(r) {
      assert |s| == |multiset(s)| == |multiset(r)| == |r|;
    }
  }

  /**
   * Once the outputs differ, the summary is never the "non-obvious" sentence nor the
   * grouping sentence: the signal list is never empty, and the aggregation signal is always
   * preceded in the precedence list by the count signal.
   */
  lemma ClassifySummary(student: ExecRecord, reference: ExecRecord)
    requires student.success && reference.success && student.rows != reference.rows
    ensures Classify(student, reference).signals != []
    ensures Classify(student, reference).summary != NonObvious
    ensures Classify(student, reference).summary != SizeSuggestsGrouping
    ensures Classify(student, reference).summary == CountDiffers <==> |student.rows| != |reference.rows|
    ensures Classify(student, reference).summary == OrderDiffers <==>
      multiset(student.rows) == multiset(reference.rows)
  {
    var s, r := student.rows, reference.rows;
    DiffSignalsMeaning(s, r);
    var signals := DiffSignals(s, r);
    if |s| == |r| {
      assert ValueMismatch in signals;
    }
  }

  /** A failed execution yields exactly one signal, and the student's failure is reported first. */
  lemma ClassifyFailure(student: ExecRecord, reference: ExecRecord)
    requires !student.success || !reference.success
    ensures !Classify(student, reference).equal
    ensures Classify(student, reference).signals ==
      (if !student.success then [RuntimeError] else [ReferenceError])
  {
  }
}
