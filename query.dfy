/**
 * What the pipeline reads off a parsed query. The parser is not modelled: each field is what
 * the sqlglot walk would return (`node.sql()` texts, in walk order), and is an input.
 */
module QueryFacts {
  import opened Base
  import Order

  /** One expression of the first SELECT node. */
  datatype SelectItem = SelectItem(
    text: string,            // expr.sql()
    columns: seq<string>,    // col.sql() of every Column inside it
    funcs: seq<string>,      // the `name` of every Func inside it
    alias: string)           // its alias, "" when it has none

  datatype Tree = Tree(
    select: Option<seq<SelectItem>>,  // expressions of the first SELECT node, None without one
    columns: seq<string>,             // every Column node
    tables: seq<string>,              // every Table node
    subqueries: nat,                  // number of Subquery nodes
    windows: bool,                    // some Window node
    ctes: bool,                       // some CTE node
    group: Option<seq<string>>,       // GROUP BY expressions, None without a GROUP BY
    joins: seq<string>,               // every Join node
    funcs: seq<string>,               // the `name` of every Func node
    having: bool,                     // a HAVING clause
    where: Option<string>)            // str() of the WHERE clause, None without one

  /** The aggregate names the checkers recognise, compared after `upper()`. */
  predicate IsAggregateName(name: string) {
    Upper(name) in {"SUM", "COUNT", "AVG", "MIN", "MAX"}
  }

  predicate HasAggregate(funcs: seq<string>) {
    exists i :: 0 <= i < |funcs| && IsAggregateName(funcs[i])
  }

  /** `collect_tables`: sorted, de-duplicated, lower-cased table texts; [] without a tree. */
  function TableNames(t: Option<Tree>): seq<string> {
    if t.None? then [] else Order.SortedSet(LowerAll(t.value.tables))
  }

  /** `count_subqueries` */
  function SubqueryCount(t: Option<Tree>): nat {
    if t.None? then 0 else t.value.subqueries
  }

  /** The GROUP BY expressions, lower-cased; [] without a tree or a GROUP BY. */
  function GroupKeys(t: Option<Tree>): seq<string> {
    if t.Some? && t.value.group.Some? then LowerAll(t.value.group.value) else []
  }

  /** The lower-cased join texts, sorted and de-duplicated; [] without a tree. */
  function JoinTexts(t: Option<Tree>): seq<string> {
    if t.None? then [] else Order.SortedSet(LowerAll(t.value.joins))
  }
}
