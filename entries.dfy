/**
 * The per-entry data of new.py's constraint catalogue: the name, priority and the two
 * hint texts each checker is registered with, and the order of the registrations.
 */
module CatalogueEntries {
  import opened Base
  import opened Checks

  // ---------------------------------------------------------------------------
  // The entries' data
  // ---------------------------------------------------------------------------

  /** The name each entry is registered under. */
  function Name(c: Check): string {
    match c
    case ParseErrorCheck => "parse_error"
    case MissingTableCheck => "missing_table"
    case ExtraTableCheck => "extra_table"
    case MissingJoinConditionCheck => "missing_join_condition"
    case JoinTypeMismatchCheck => "join_type_mismatch"
    case JoinOnConstantCheck => "join_on_constant"
    case SelfJoinAliasCheck => "self_join_alias"
    case SelectStarCheck => "select_star"
    case MissingSelectColumnCheck => "missing_select_column"
    case ExtraSelectColumnCheck => "extra_select_column"
    case AggregateWithoutGroupByCheck => "aggregate_without_groupby"
    case GroupByMissingColumnsCheck => "group_by_missing_columns"
    case HavingWithoutAggregateCheck => "having_without_aggregate"
    case AggregationAliasMissingCheck => "aggregation_alias_missing"
    case MissingWhereCheck => "missing_where"
    case ExtraWhereCheck => "extra_where"
    case TautologyCheck => "tautology_predicate"
    case ContradictoryPredicateCheck => "contradictory_predicate"
    case AggregateInWhereCheck => "aggregate_in_where"
    case WhereDiffersCheck => "where_differs"
    case MissingSubqueryCheck => "missing_subquery"
    case CteExpectedCheck => "cte_expected"
    case WindowExpectedCheck => "window_expected"
    case ExecutionErrorCheck => "execution_error"
    case StudentNoRowsCheck => "student_no_rows"
    case StudentMoreRowsCheck => "student_more_rows"
    case AggregateValueMismatchCheck => "aggregate_value_mismatch"
    case OrderingDifferenceCheck => "ordering_difference"
    case NonstandardFunctionCheck => "nonstandard_function"
    case QuotedIdentifiersCheck => "quoted_identifiers"
    case DistinctMismatchCheck => "distinct_mismatch"
    case UnexpectedUnionCheck => "unexpected_union"
    case JsonOpsCheck => "json_ops"
    case CaseWhenIncompleteCheck => "case_when_incomplete"
    case AliasConflictCheck => "alias_conflict"
    case LikeUsageCheck => "like_usage"
    case LimitMissingCheck => "limit_missing"
    case NullHandlingCheck => "null_handling"
    case LiteralVsNumberCheck => "literal_vs_number"
    case ComplexWhereCheck => "complex_where"
    case OrderByMissingCheck => "order_by_missing"
    case WindowMismatchCheck => "window_mismatch"
    case FunctionMisuseCheck => "function_misuse"
    case CartesianProductCheck => "cartesian_product"
    case UnusedTableCheck => "unused_table"
    case SemanticMismatchCheck => "semantic_mismatch"
  }

  /** The priority each entry is registered with (lower runs earlier); every priority is positive. */
  function Priority(c: Check): (p: int)
    ensures p >= 1
  {
    match c
    case ParseErrorCheck => 1
    case MissingTableCheck => 2
    case ExtraTableCheck => 50
    case MissingJoinConditionCheck => 3
    case JoinTypeMismatchCheck => 40
    case JoinOnConstantCheck => 30
    case SelfJoinAliasCheck => 7
    case SelectStarCheck => 80
    case MissingSelectColumnCheck => 60
    case ExtraSelectColumnCheck => 4
    case AggregateWithoutGroupByCheck => 5
    case GroupByMissingColumnsCheck => 6
    case HavingWithoutAggregateCheck => 35
    case AggregationAliasMissingCheck => 100
    case MissingWhereCheck => 8
    case ExtraWhereCheck => 65
    case TautologyCheck => 90
    case ContradictoryPredicateCheck => 20
    case AggregateInWhereCheck => 9
    case WhereDiffersCheck => 12
    case MissingSubqueryCheck => 15
    case CteExpectedCheck => 25
    case WindowExpectedCheck => 17
    case ExecutionErrorCheck => 1
    case StudentNoRowsCheck => 11
    case StudentMoreRowsCheck => 14
    case AggregateValueMismatchCheck => 13
    case OrderingDifferenceCheck => 52
    case NonstandardFunctionCheck => 85
    case QuotedIdentifiersCheck => 93
    case DistinctMismatchCheck => 55
    case UnexpectedUnionCheck => 84
    case JsonOpsCheck => 88
    case CaseWhenIncompleteCheck => 95
    case AliasConflictCheck => 22
    case LikeUsageCheck => 70
    case LimitMissingCheck => 57
    case NullHandlingCheck => 21
    case LiteralVsNumberCheck => 32
    case ComplexWhereCheck => 92
    case OrderByMissingCheck => 58
    case WindowMismatchCheck => 17
    case FunctionMisuseCheck => 76
    case CartesianProductCheck => 18
    case UnusedTableCheck => 90
    case SemanticMismatchCheck => 500
  }

  function HintL1(c: Check): string {
    match c
    case ParseErrorCheck => "Your SQL has a syntax error."
    case MissingTableCheck => "A required table is missing from your FROM clause."
    case ExtraTableCheck => "Your query references unnecessary tables."
    case MissingJoinConditionCheck => "Multiple tables detected but no join conditions found."
    case JoinTypeMismatchCheck => "Your JOIN type differs from expected (INNER vs LEFT/RIGHT)."
    case JoinOnConstantCheck => "JOIN condition uses constants (e.g., ON 1=1)."
    case SelfJoinAliasCheck => "Self-join detected without proper aliasing."
    case SelectStarCheck => "Avoid using SELECT * in your query."
    case MissingSelectColumnCheck => "Required columns are missing from your SELECT clause."
    case ExtraSelectColumnCheck => "Your SELECT contains extra columns not required."
    case AggregateWithoutGroupByCheck => "Aggregate functions used without GROUP BY clause."
    case GroupByMissingColumnsCheck => "GROUP BY is missing required columns."
    case HavingWithoutAggregateCheck => "HAVING clause used without aggregate functions."
    case AggregationAliasMissingCheck => "Consider aliasing your aggregated expressions."
    case MissingWhereCheck => "A WHERE clause is required but missing."
    case ExtraWhereCheck => "Your query has an extra WHERE clause."
    case TautologyCheck => "Tautological predicate detected (always true)."
    case ContradictoryPredicateCheck => "Contradictory predicate detected (always false)."
    case AggregateInWhereCheck => "Aggregate functions found in WHERE clause."
    case WhereDiffersCheck => "Your WHERE clause logic differs from expected."
    case MissingSubqueryCheck => "This problem requires a subquery or nested query."
    case CteExpectedCheck => "Consider using a CTE (Common Table Expression)."
    case WindowExpectedCheck => "A window function may be required for this problem."
    case ExecutionErrorCheck => "Query execution failed with an error."
    case StudentNoRowsCheck => "Your query returns zero rows but should return results."
    case StudentMoreRowsCheck => "Your query returns too many rows."
    case AggregateValueMismatchCheck => "Aggregate calculation result is incorrect."
    case OrderingDifferenceCheck => "Results are correct but ordering is wrong."
    case NonstandardFunctionCheck => "Your query uses dialect-specific functions."
    case QuotedIdentifiersCheck => "Quoted identifiers detected in your query."
    case DistinctMismatchCheck => "DISTINCT usage differs from expected solution."
    case UnexpectedUnionCheck => "UNION detected but may not be needed."
    case JsonOpsCheck => "JSON/array operators detected in query."
    case CaseWhenIncompleteCheck => "CASE WHEN expression is incomplete."
    case AliasConflictCheck => "Duplicate alias name detected."
    case LikeUsageCheck => "LIKE pattern matching differs from expected."
    case LimitMissingCheck => "LIMIT clause is missing from your query."
    case NullHandlingCheck => "NULL comparison detected in your query."
    case LiteralVsNumberCheck => "Comparing numeric values as strings detected."
    case ComplexWhereCheck => "WHERE clause is very complex."
    case OrderByMissingCheck => "ORDER BY clause is missing."
    case WindowMismatchCheck => "Window function expected but not found."
    case FunctionMisuseCheck => "Potential function misuse detected."
    case CartesianProductCheck => "Possible Cartesian product detected."
    case UnusedTableCheck => "Check for unused tables in your query."
    case SemanticMismatchCheck => "Your query output differs from expected output."
  }

  function HintL2(c: Check): string {
    match c
    case ParseErrorCheck => "Check for missing commas, unmatched parentheses, or incorrect keywords."
    case MissingTableCheck => "Include all tables needed to access the required columns or join conditions."
    case ExtraTableCheck => "Remove extra tables that aren't needed, as they may cause duplicate rows."
    case MissingJoinConditionCheck => "Add ON conditions or WHERE predicates to specify how tables relate."
    case JoinTypeMismatchCheck => "Use LEFT JOIN to keep unmatched rows or INNER JOIN to exclude them."
    case JoinOnConstantCheck => "Replace constant conditions with actual column comparisons to avoid cross joins."
    case SelfJoinAliasCheck => "Use table aliases (e.g., employees e1, employees e2) to distinguish instances."
    case SelectStarCheck => "List specific columns instead to match expected output and improve clarity."
    case MissingSelectColumnCheck => "Add the missing columns or compute them using appropriate expressions."
    case ExtraSelectColumnCheck => "Remove unnecessary columns to match the expected output structure."
    case AggregateWithoutGroupByCheck => "Add GROUP BY with all non-aggregated columns from your SELECT clause."
    case GroupByMissingColumnsCheck => "Include all non-aggregated SELECT columns in GROUP BY to define correct grouping."
    case HavingWithoutAggregateCheck => "Use HAVING to filter aggregated results, or move non-aggregate filters to WHERE."
    case AggregationAliasMissingCheck => "Use AS to name aggregate columns (e.g., COUNT(*) AS total_count)."
    case MissingWhereCheck => "Add WHERE to filter rows before grouping or aggregation."
    case ExtraWhereCheck => "Remove unnecessary filtering that may exclude required rows."
    case TautologyCheck => "Remove conditions like 1=1 that don't actually filter any rows."
    case ContradictoryPredicateCheck => "Remove conditions that are always false and prevent any rows from being returned."
    case AggregateInWhereCheck => "Move aggregate conditions from WHERE to HAVING (used after GROUP BY)."
    case WhereDiffersCheck => "Review each condition, operator, and logical connector (AND/OR) carefully."
    case MissingSubqueryCheck => "Use a subquery to compute intermediate results before the final aggregation."
    case CteExpectedCheck => "Use WITH to define named subqueries that simplify complex multi-step logic."
    case WindowExpectedCheck => "Use window functions with OVER() for rankings or running calculations across rows."
    case ExecutionErrorCheck => "Fix syntax errors, check table/column names, and verify function usage."
    case StudentNoRowsCheck => "Check WHERE conditions and join types—you may be over-filtering."
    case StudentMoreRowsCheck => "Add missing filters or fix join conditions to reduce duplicate rows."
    case AggregateValueMismatchCheck => "Verify which rows are included in your aggregate and check GROUP BY logic."
    case OrderingDifferenceCheck => "Add ORDER BY with the correct columns and sort direction (ASC/DESC)."
    case NonstandardFunctionCheck => "Verify these functions are supported by the target database system."
    case QuotedIdentifiersCheck => "Avoid quotes around table/column names unless necessary for case-sensitivity."
    case DistinctMismatchCheck => "Add or remove DISTINCT based on whether duplicate rows should be eliminated."
    case UnexpectedUnionCheck => "Consider if JOINs would be more appropriate for combining related data."
    case JsonOpsCheck => "Verify that JSON operations are supported by your database system."
    case CaseWhenIncompleteCheck => "Ensure each CASE statement has matching END and proper WHEN...THEN structure."
    case AliasConflictCheck => "Use unique alias names to avoid ambiguous column references."
    case LikeUsageCheck => "Verify your pattern is correct and consider case sensitivity issues."
    case LimitMissingCheck => "Add LIMIT with ORDER BY to restrict results to the top N rows."
    case NullHandlingCheck => "Use IS NULL or IS NOT NULL—regular equality operators don't work with NULL."
    case LiteralVsNumberCheck => "Remove quotes around numbers or use explicit CAST for type conversion."
    case ComplexWhereCheck => "Break complex logic into CTEs or subqueries for easier debugging."
    case OrderByMissingCheck => "Add ORDER BY to sort results in the expected sequence."
    case WindowMismatchCheck => "Use OVER() clause for calculations like ROW_NUMBER, RANK, or running totals."
    case FunctionMisuseCheck => "Verify aggregate and window functions are used in appropriate clauses."
    case CartesianProductCheck => "Add join conditions to match rows correctly and avoid unnecessary combinations."
    case UnusedTableCheck => "Remove tables that don't contribute columns or join conditions."
    case SemanticMismatchCheck => "Row counts or values differ — consider joins/filters/grouping/aggregates."
  }

  /** The number of `register_constraint` calls. */
  const CatalogueSize := 45

  /** The checker registered by the (i+1)-th call. */
  function Registration(i: nat): Check
    requires i < CatalogueSize
  {
    match i
    case 0 => ParseErrorCheck
    case 1 => MissingTableCheck
    case 2 => ExtraTableCheck
    case 3 => MissingJoinConditionCheck
    case 4 => JoinTypeMismatchCheck
    case 5 => JoinOnConstantCheck
    case 6 => SelfJoinAliasCheck
    case 7 => SelectStarCheck
    case 8 => MissingSelectColumnCheck
    case 9 => ExtraSelectColumnCheck
    case 10 => AggregateWithoutGroupByCheck
    case 11 => GroupByMissingColumnsCheck
    case 12 => HavingWithoutAggregateCheck
    case 13 => AggregationAliasMissingCheck
    case 14 => MissingWhereCheck
    case 15 => ExtraWhereCheck
    case 16 => TautologyCheck
    case 17 => ContradictoryPredicateCheck
    case 18 => AggregateInWhereCheck
    case 19 => WhereDiffersCheck
    case 20 => MissingSubqueryCheck
    case 21 => CteExpectedCheck
    case 22 => WindowExpectedCheck
    case 23 => ExecutionErrorCheck
    case 24 => StudentNoRowsCheck
    case 25 => StudentMoreRowsCheck
    case 26 => AggregateValueMismatchCheck
    case 27 => OrderingDifferenceCheck
    case 28 => NonstandardFunctionCheck
    case 29 => QuotedIdentifiersCheck
    case 30 => DistinctMismatchCheck
    case 31 => UnexpectedUnionCheck
    case 32 => JsonOpsCheck
    case 33 => CaseWhenIncompleteCheck
    case 34 => AliasConflictCheck
    case 35 => LikeUsageCheck
    case 36 => LimitMissingCheck
    case 37 => NullHandlingCheck
    case 38 => LiteralVsNumberCheck
    case 39 => ComplexWhereCheck
    case 40 => OrderByMissingCheck
    case 41 => WindowMismatchCheck
    case 42 => FunctionMisuseCheck
    case 43 => CartesianProductCheck
    case _ => UnusedTableCheck
  }

  /** Where a checker is registered; the generic fallback is not. */
  function Position(c: Check): (p: Option<nat>)
    ensures p.Some? ==> p.value < CatalogueSize && Registration(p.value) == c
    ensures p.None? <==> c == SemanticMismatchCheck
  {
    match c
    case ParseErrorCheck => Some(0)
    case MissingTableCheck => Some(1)
    case ExtraTableCheck => Some(2)
    case MissingJoinConditionCheck => Some(3)
    case JoinTypeMismatchCheck => Some(4)
    case JoinOnConstantCheck => Some(5)
    case SelfJoinAliasCheck => Some(6)
    case SelectStarCheck => Some(7)
    case MissingSelectColumnCheck => Some(8)
    case ExtraSelectColumnCheck => Some(9)
    case AggregateWithoutGroupByCheck => Some(10)
    case GroupByMissingColumnsCheck => Some(11)
    case HavingWithoutAggregateCheck => Some(12)
    case AggregationAliasMissingCheck => Some(13)
    case MissingWhereCheck => Some(14)
    case ExtraWhereCheck => Some(15)
    case TautologyCheck => Some(16)
    case ContradictoryPredicateCheck => Some(17)
    case AggregateInWhereCheck => Some(18)
    case WhereDiffersCheck => Some(19)
    case MissingSubqueryCheck => Some(20)
    case CteExpectedCheck => Some(21)
    case WindowExpectedCheck => Some(22)
    case ExecutionErrorCheck => Some(23)
    case StudentNoRowsCheck => Some(24)
    case StudentMoreRowsCheck => Some(25)
    case AggregateValueMismatchCheck => Some(26)
    case OrderingDifferenceCheck => Some(27)
    case NonstandardFunctionCheck => Some(28)
    case QuotedIdentifiersCheck => Some(29)
    case DistinctMismatchCheck => Some(30)
    case UnexpectedUnionCheck => Some(31)
    case JsonOpsCheck => Some(32)
    case CaseWhenIncompleteCheck => Some(33)
    case AliasConflictCheck => Some(34)
    case LikeUsageCheck => Some(35)
    case LimitMissingCheck => Some(36)
    case NullHandlingCheck => Some(37)
    case LiteralVsNumberCheck => Some(38)
    case ComplexWhereCheck => Some(39)
    case OrderByMissingCheck => Some(40)
    case WindowMismatchCheck => Some(41)
    case FunctionMisuseCheck => Some(42)
    case CartesianProductCheck => Some(43)
    case UnusedTableCheck => Some(44)
    case SemanticMismatchCheck => None
  }
}
