/**
 * The constraint catalogue of new.py: the `Constraint` record, the registry that numbers the
 * entries as they are registered (`next_id`, `register_constraint`), the 45 entries in their
 * registration order, and the stable sort by priority that orders the catalogue for the scan.
 */
module Catalogue {
  import opened Base
  import opened Checks
  import opened CatalogueEntries

  /**
   * `Constraint(id, name, priority, checker, hint_l1, hint_l2)`. The checker is named by its tag,
   * and the two hint texts, which are fixed per checker, are `HintL1(check)` and `HintL2(check)`.
   */
  datatype Constraint = Constraint(id: int, name: string, priority: int, check: Check)

  /** Each position registers a different checker. */
  lemma RegistrationPosition(i: nat)
    requires i < CatalogueSize
    ensures Position(Registration(i)) == Some(i)
  {
  }

  /** The first and the 24th registration are the two entries of priority 1. */
  lemma PriorityOne(c: Check)
    ensures Priority(c) == 1 <==> c == ParseErrorCheck || c == ExecutionErrorCheck
  {
  }

  // ---------------------------------------------------------------------------
  // Registration
  // ---------------------------------------------------------------------------

  /** The constraint built for checker `c` with the id `next_id()` handed out. */
  function Entry(id: int, c: Check): Constraint {
    Constraint(id, Name(c), Priority(c), c)
  }

  /** The fallback `get_sql_hint` builds when no entry fires but the results differ. */
  const Generic := Entry(999, SemanticMismatchCheck)

  /** `CONSTRAINTS` after the first `n` registrations, before sorting. */
  function Registered(n: nat): seq<Constraint>
    requires n <= CatalogueSize
  {
    seq(n, i requires 0 <= i < n => Entry(i + 1, Registration(i)))
  }

  /** The module-level list and the `_next_id` counter. */
  class Registry {
    var constraints: seq<Constraint>
    var nextId: int

    constructor ()
      ensures constraints == [] && nextId == 1
    {
      constraints := [];
      nextId := 1;
    }

    /** `next_id()`: hands out the counter and advances it. */
    method NextId() returns (i: int)
      modifies this
      ensures i == old(nextId) && nextId == old(nextId) + 1
      ensures constraints == old(constraints)
    {
      i := nextId;
      nextId := nextId + 1;
    }

    /** `register_constraint(c)` */
    method Register(c: Constraint)
      modifies this
      ensures constraints == old(constraints) + [c]
      ensures nextId == old(nextId)
    {
      constraints := constraints + [c];
    }
  }

  /** The registrations at import time, then `sorted(CONSTRAINTS, key=priority)`. */
  method LoadCatalogue() returns (catalogue: seq<Constraint>)
    ensures catalogue == SortByPriority(Registered(CatalogueSize))
  {
    var registry := new Registry();
    for i := 0 to CatalogueSize
      invariant registry.constraints == Registered(i)
      invariant registry.nextId == i + 1
    {
      var id := registry.NextId();
      registry.Register(Entry(id, Registration(i)));
    }
    catalogue := SortByPriority(registry.constraints);
  }

  /** Ids follow registration order, and every checker but the fallback's is registered exactly once. */
  lemma RegisteredEntries(n: nat)
    requires n == CatalogueSize
    ensures |Registered(n)| == n
    ensures forall i :: 0 <= i < n ==> Registered(n)[i].id == i + 1
    ensures forall i, j :: 0 <= i < j < n ==> Registered(n)[i].check != Registered(n)[j].check
    ensures forall c: Check :: Position(c).Some? ==> Registered(n)[Position(c).value].check == c
  {
    forall i, j | 0 <= i < j < n
      ensures Registered(n)[i].check != Registered(n)[j].check
    {
      RegistrationPosition(i);
      RegistrationPosition(j);
    }
  }

  /** A registered constraint is the entry of its checker, with the id of its position. */
  lemma RegisteredEntry(n: nat, k: Constraint)
    requires n == CatalogueSize && k in Registered(n)
    ensures Position(k.check).Some? && k == Entry(Position(k.check).value + 1, k.check)
  {
    var i :| 0 <= i < n && Registered(n)[i] == k;
    RegistrationPosition(i);
  }

  // ---------------------------------------------------------------------------
  // The priority sort
  // ---------------------------------------------------------------------------

  /** Puts `c` before the first element whose priority is not smaller: later equals stay behind it. */
  function Insert(c: Constraint, sorted: seq<Constraint>): (r: seq<Constraint>)
    ensures multiset(r) == multiset(sorted) + multiset{c}
    decreases |sorted|
  {
    if sorted == [] || c.priority <= sorted[0].priority then [c] + sorted
    else
      assert sorted == [sorted[0]] + sorted[1..];
      [sorted[0]] + Insert(c, sorted[1..])
  }

  /** `sorted(cs, key=lambda c: c.priority)`: a stable insertion sort. */
  function SortByPriority(cs: seq<Constraint>): (r: seq<Constraint>)
    ensures multiset(r) == multiset(cs)
  {
    if cs == [] then []
    else
      assert cs == [cs[0]] + cs[1..];
      Insert(cs[0], SortByPriority(cs[1..]))
  }

  predicate PrioritySorted(cs: seq<Constraint>) {
    forall i, j :: 0 <= i < j < |cs| ==> cs[i].priority <= cs[j].priority
  }

  /** The scan order: by priority, then by id. */
  predicate Before(a: Constraint, b: Constraint) {
    a.priority < b.priority || (a.priority == b.priority && a.id < b.id)
  }

  predicate KeySorted(cs: seq<Constraint>) {
    forall i, j :: 0 <= i < j < |cs| ==> Before(cs[i], cs[j])
  }

  predicate IdsIncreasing(cs: seq<Constraint>) {
    forall i, j :: 0 <= i < j < |cs| ==> cs[i].id < cs[j].id
  }

  lemma {:induction false} InsertPrioritySorted(c: Constraint, s: seq<Constraint>)
    requires PrioritySorted(s)
    ensures PrioritySorted(Insert(c, s))
    decreases |s|
  {
    if !(s == [] || c.priority <= s[0].priority) {
      InsertPrioritySorted(c, s[1..]);
      var t := Insert(c, s[1..]);
      forall x | x in t ensures s[0].priority <= x.priority {
        assert x in multiset(t);
        if x != c {
          assert x in multiset(s[1..]);
        }
      }
    }
  }

  /** The sorted list is ordered by priority. */
  lemma {:induction false} SortPrioritySorted(cs: seq<Constraint>)
    ensures PrioritySorted(SortByPriority(cs))
    decreases |cs|
  {
    if cs != [] {
      SortPrioritySorted(cs[1..]);
      InsertPrioritySorted(cs[0], SortByPriority(cs[1..]));
    }
  }

  lemma {:induction false} InsertKeySorted(c: Constraint, s: seq<Constraint>)
    requires KeySorted(s)
    requires forall x :: x in s ==> c.id < x.id
    ensures KeySorted(Insert(c, s))
    decreases |s|
  {
    if !(s == [] || c.priority <= s[0].priority) {
      InsertKeySorted(c, s[1..]);
      var t := Insert(c, s[1..]);
      forall x | x in t ensures Before(s[0], x) {
        assert x in multiset(t);
        if x != c {
          assert x in multiset(s[1..]);
        }
      }
    }
  }

  /**
   * Stability: when ids grow along the input, the sorted list is ordered by priority and,
   * among equal priorities, keeps the input order.
   */
  lemma {:induction false} SortKeySorted(cs: seq<Constraint>)
    requires IdsIncreasing(cs)
    ensures KeySorted(SortByPriority(cs))
    decreases |cs|
  {
    if cs != [] {
      SortKeySorted(cs[1..]);
      var t := SortByPriority(cs[1..]);
      forall x | x in t ensures cs[0].id < x.id {
        assert x in multiset(cs[1..]);
        var j :| 0 <= j < |cs[1..]| && cs[1..][j] == x;
        assert cs[j + 1] == x;
      }
      InsertKeySorted(cs[0], t);
    }
  }

  // ---------------------------------------------------------------------------
  // The catalogue
  // ---------------------------------------------------------------------------

  /** `CONSTRAINTS` as the hint engine scans it: what `LoadCatalogue` returns. */
  predicate IsCatalogue(n: nat, cat: seq<Constraint>) {
    n == CatalogueSize && cat == SortByPriority(Registered(n))
  }

  /** The catalogue holds exactly the registered entries, ordered by priority and then id. */
  lemma CatalogueOrdered(n: nat, cat: seq<Constraint>)
    requires IsCatalogue(n, cat)
    ensures multiset(cat) == multiset(Registered(n))
    ensures |cat| == n
    ensures KeySorted(cat)
  {
    RegisteredEntries(n);
    assert |multiset(cat)| == |cat|;
    SortKeySorted(Registered(n));
  }

  lemma CatalogueMember(n: nat, cat: seq<Constraint>, k: Constraint)
    requires IsCatalogue(n, cat) && k in cat
    ensures k in Registered(n)
  {
    assert k in multiset(cat);
  }

  /** No registered entry comes before a registered entry of priority 1 and id 1. */
  lemma ParseErrorFirst(n: nat, cat: seq<Constraint>)
    requires IsCatalogue(n, cat)
    ensures |cat| == CatalogueSize && cat[0] == Entry(1, ParseErrorCheck)
  {
    CatalogueOrdered(n, cat);
    RegisteredEntries(n);
    var parse := Entry(1, ParseErrorCheck);
    assert Registered(n)[0] == parse;
    assert parse in multiset(cat);
    var p :| 0 <= p < |cat| && cat[p] == parse;
    CatalogueMember(n, cat, cat[0]);
    RegisteredEntry(n, cat[0]);
    if p != 0 {
      assert Before(cat[0], cat[p]);
      PriorityOne(cat[0].check);
      assert false;
    }
  }

  /** `parse_error` is scanned first and `execution_error` second. */
  lemma CatalogueStartsWithParseThenExecution(n: nat, cat: seq<Constraint>)
    requires IsCatalogue(n, cat)
    ensures |cat| == CatalogueSize
    ensures cat[0] == Entry(1, ParseErrorCheck)
    ensures cat[1] == Entry(24, ExecutionErrorCheck)
  {
    ParseErrorFirst(n, cat);
    CatalogueOrdered(n, cat);
    var exec := Entry(24, ExecutionErrorCheck);
    RegisteredEntries(n);
    assert Registered(n)[23] == exec;
    assert exec in multiset(cat);
    var e :| 0 <= e < |cat| && cat[e] == exec;
    CatalogueMember(n, cat, cat[1]);
    RegisteredEntry(n, cat[1]);
    if e != 1 {
      assert Before(cat[1], cat[e]);
      PriorityOne(cat[1].check);
      assert false;
    }
  }
}
