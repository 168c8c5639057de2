/**
 * `compare_results` of new.py: two execution records agree when both queries succeeded, their
 * column names agree up to case, and their rows agree as a bag (`sorted(rows)` on both sides).
 */
module ResultComparator {
  import opened Base
  import opened Order

  /** The `(equal, error)` pair `compare_results` returns. */
  datatype Comparison = Comparison(equal: bool, error: Option<string>)

  function CompareResults(s: ExecRecord, r: ExecRecord): (c: Comparison)
    ensures c.error == None
    ensures c.equal <==>
      s.success && r.success && LowerAll(s.cols) == LowerAll(r.cols) && multiset(s.rows) == multiset(r.rows)
  {
    if !s.success || !r.success then Comparison(false, None)
    else if LowerAll(s.cols) != LowerAll(r.cols) then Comparison(false, None)
    else
      SortRowsEqualIff(s.rows, r.rows);
      Comparison(SortRows(s.rows) == SortRows(r.rows), None)
  }

  /** Agreeing results have the same number of rows, and the same rows up to order. */
  lemma EqualResultsSameSize(s: ExecRecord, r: ExecRecord)
    requires CompareResults(s, r).equal
    ensures |s.rows| == |r.rows|
    ensures forall row :: row in s.rows <==> row in r.rows
  {
    assert |multiset(s.rows)| == |multiset(r.rows)|;
    forall row ensures row in s.rows <==> row in r.rows {
      assert row in s.rows <==> row in multiset(s.rows);
      assert row in r.rows <==> row in multiset(r.rows);
    }
  }

  /** The comparison does not depend on which side is the student's. */
  lemma CompareResultsSymmetric(s: ExecRecord, r: ExecRecord)
    ensures CompareResults(s, r) == CompareResults(r, s)
  {
  }
}
