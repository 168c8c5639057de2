/**
 * Python's comparison of strings and of row tuples, and the two uses of `sorted` in the
 * pipeline: `sorted(rows)` (a bag of rows in canonical order) and `sorted(set(names))`
 * (a duplicate-free name list in canonical order). The central facts are that each order is
 * total and antisymmetric, so that a sorted rearrangement of a collection is unique.
 */
module Order {
  import opened Base

  // ---------------------------------------------------------------------------
  // Strings: lexicographic by code point, a proper prefix first
  // ---------------------------------------------------------------------------

  predicate StrLe(a: string, b: string)
    decreases |a|
  {
    if a == [] then true
    else if b == [] then false
    else if a[0] != b[0] then a[0] < b[0]
    else StrLe(a[1..], b[1..])
  }

  predicate StrLt(a: string, b: string) {
    StrLe(a, b) && a != b
  }

  lemma {:induction false} StrLeRefl(a: string)
    ensures StrLe(a, a)
    decreases |a|
  {
    if a != [] {
      StrLeRefl(a[1..]);
    }
  }

  lemma {:induction false} StrLeTotal(a: string, b: string)
    ensures StrLe(a, b) || StrLe(b, a)
    decreases |a|
  {
    if a != [] && b != [] && a[0] == b[0] {
      StrLeTotal(a[1..], b[1..]);
    }
  }

  lemma {:induction false} StrLeAntisym(a: string, b: string)
    requires StrLe(a, b) && StrLe(b, a)
    ensures a == b
    decreases |a|
  {
    if a != [] && b != [] {
      StrLeAntisym(a[1..], b[1..]);
      assert a == [a[0]] + a[1..] && b == [b[0]] + b[1..];
    }
  }

  lemma {:induction false} StrLeTrans(a: string, b: string, c: string)
    requires StrLe(a, b) && StrLe(b, c)
    ensures StrLe(a, c)
    decreases |a|
  {
    if a != [] && b != [] && c != [] && a[0] == b[0] && b[0] == c[0] {
      StrLeTrans(a[1..], b[1..], c[1..]);
    }
  }

  // ---------------------------------------------------------------------------
  // Values and rows (NULL < integers < strings; rows lexicographic)
  // ---------------------------------------------------------------------------

  function Rank(v: Value): nat {
    match v
    case Null => 0
    case Int(_) => 1
    case Str(_) => 2
  }

  predicate ValueLe(a: Value, b: Value) {
    if Rank(a) != Rank(b) then Rank(a) < Rank(b)
    else match a
      case Null => true
      case Int(x) => x <= b.i
      case Str(x) => StrLe(x, b.s)
  }

  lemma ValueLeTotal(a: Value, b: Value)
    ensures ValueLe(a, b) || ValueLe(b, a)
  {
    if a.Str? && b.Str? {
      StrLeTotal(a.s, b.s);
    }
  }

  lemma ValueLeAntisym(a: Value, b: Value)
    requires ValueLe(a, b) && ValueLe(b, a)
    ensures a == b
  {
    if a.Str? && b.Str? {
      StrLeAntisym(a.s, b.s);
    }
  }

  lemma ValueLeTrans(a: Value, b: Value, c: Value)
    requires ValueLe(a, b) && ValueLe(b, c)
    ensures ValueLe(a, c)
  {
    if a.Str? && b.Str? && c.Str? {
      StrLeTrans(a.s, b.s, c.s);
    }
  }

  /** Python's tuple comparison: the first differing position decides; a proper prefix is smaller. */
  predicate RowLe(a: Row, b: Row)
    decreases |a|
  {
    if a == [] then true
    else if b == [] then false
    else if a[0] != b[0] then ValueLe(a[0], b[0])
    else RowLe(a[1..], b[1..])
  }

  lemma {:induction false} RowLeRefl(a: Row)
    ensures RowLe(a, a)
    decreases |a|
  {
    if a != [] {
      RowLeRefl(a[1..]);
    }
  }

  lemma {:induction false} RowLeTotal(a: Row, b: Row)
    ensures RowLe(a, b) || RowLe(b, a)
    decreases |a|
  {
    if a != [] && b != [] {
      if a[0] == b[0] {
        RowLeTotal(a[1..], b[1..]);
      } else {
        ValueLeTotal(a[0], b[0]);
      }
    }
  }

  lemma {:induction false} RowLeAntisym(a: Row, b: Row)
    requires RowLe(a, b) && RowLe(b, a)
    ensures a == b
    decreases |a|
  {
    if a != [] && b != [] {
      if a[0] == b[0] {
        RowLeAntisym(a[1..], b[1..]);
        assert a == [a[0]] + a[1..] && b == [b[0]] + b[1..];
      } else {
        ValueLeAntisym(a[0], b[0]);
      }
    }
  }

  lemma {:induction false} RowLeTrans(a: Row, b: Row, c: Row)
    requires RowLe(a, b) && RowLe(b, c)
    ensures RowLe(a, c)
    decreases |a|
  {
    if a != [] && b != [] && c != [] {
      if a[0] == b[0] && b[0] == c[0] {
        RowLeTrans(a[1..], b[1..], c[1..]);
      } else if a[0] == b[0] {
        assert ValueLe(b[0], c[0]);
      } else if b[0] == c[0] {
        assert ValueLe(a[0], b[0]);
      } else {
        ValueLeTrans(a[0], b[0], c[0]);
        if a[0] == c[0] {
          ValueLeAntisym(a[0], b[0]);
        }
      }
    }
  }

  // ---------------------------------------------------------------------------
  // sorted(rows)
  // ---------------------------------------------------------------------------

  predicate RowsSorted(s: seq<Row>) {
    forall i, j :: 0 <= i < j < |s| ==> RowLe(s[i], s[j])
  }

  function InsertRow(x: Row, s: seq<Row>): seq<Row> {
    if s == [] then [x]
    else if RowLe(x, s[0]) then [x] + s
    else [s[0]] + InsertRow(x, s[1..])
  }

  /** `sorted(rows)` (any correct sort gives the same list, see SortedRowsUnique). */
  function SortRows(s: seq<Row>): seq<Row> {
    if s == [] then [] else InsertRow(s[0], SortRows(s[1..]))
  }

  lemma {:induction false} InsertRowMultiset(x: Row, s: seq<Row>)
    ensures multiset(InsertRow(x, s)) == multiset(s) + multiset{x}
    decreases |s|
  {
    if s != [] && !RowLe(x, s[0]) {
      InsertRowMultiset(x, s[1..]);
      assert s == [s[0]] + s[1..];
    }
  }

  lemma SortedCons(x: Row, s: seq<Row>)
    requires RowsSorted(s)
    requires forall k :: 0 <= k < |s| ==> RowLe(x, s[k])
    ensures RowsSorted([x] + s)
  {
    var t := [x] + s;
    forall i, j | 0 <= i < j < |t| ensures RowLe(t[i], t[j]) {
      if i > 0 {
        assert t[i] == s[i - 1] && t[j] == s[j - 1];
      }
    }
  }

  lemma {:induction false} InsertRowSorted(x: Row, s: seq<Row>)
    requires RowsSorted(s)
    ensures RowsSorted(InsertRow(x, s))
    decreases |s|
  {
    if s == [] {
    } else if RowLe(x, s[0]) {
      forall k | 0 <= k < |s| ensures RowLe(x, s[k]) {
        if k > 0 {
          RowLeTrans(x, s[0], s[k]);
        }
      }
      SortedCons(x, s);
    } else {
      RowLeTotal(x, s[0]);
      var t := InsertRow(x, s[1..]);
      InsertRowSorted(x, s[1..]);
      InsertRowMultiset(x, s[1..]);
      forall k | 0 <= k < |t| ensures RowLe(s[0], t[k]) {
        assert t[k] in multiset(t);
        if t[k] != x {
          assert t[k] in multiset(s[1..]);
          var m :| 0 <= m < |s[1..]| && s[1..][m] == t[k];
          assert t[k] == s[m + 1];
        }
      }
      SortedCons(s[0], t);
    }
  }

  lemma {:induction false} SortRowsCorrect(s: seq<Row>)
    ensures RowsSorted(SortRows(s))
    ensures multiset(SortRows(s)) == multiset(s)
    decreases |s|
  {
    if s != [] {
      SortRowsCorrect(s[1..]);
      InsertRowSorted(s[0], SortRows(s[1..]));
      InsertRowMultiset(s[0], SortRows(s[1..]));
      assert s == [s[0]] + s[1..];
    }
  }

  /** The head of a sorted list is below every row in it. */
  lemma SortedHeadLe(a: seq<Row>, x: Row)
    requires RowsSorted(a)
    requires x in multiset(a)
    ensures RowLe(a[0], x)
  {
    var i :| 0 <= i < |a| && a[i] == x;
    if i == 0 {
      RowLeRefl(x);
    }
  }

  lemma MultisetTail(a: seq<Row>)
    requires a != []
    ensures multiset(a[1..]) == multiset(a) - multiset{a[0]}
  {
    assert a == [a[0]] + a[1..];
  }

  /** A bag of rows has exactly one sorted arrangement. */
  lemma {:induction false} SortedRowsUnique(a: seq<Row>, b: seq<Row>)
    requires RowsSorted(a) && RowsSorted(b)
    requires multiset(a) == multiset(b)
    ensures a == b
    decreases |a|
  {
    if a != [] {
      assert |b| == |multiset(b)| == |multiset(a)| == |a|;
      assert a[0] in multiset(a) && b[0] in multiset(b);
      SortedHeadLe(b, a[0]);
      SortedHeadLe(a, b[0]);
      RowLeAntisym(a[0], b[0]);
      MultisetTail(a);
      MultisetTail(b);
      SortedRowsUnique(a[1..], b[1..]);
      assert a == [a[0]] + a[1..] && b == [b[0]] + b[1..];
    }
  }

  /** `sorted(a) == sorted(b)` holds exactly when `a` and `b` are equal as bags. */
  lemma SortRowsEqualIff(a: seq<Row>, b: seq<Row>)
    ensures SortRows(a) == SortRows(b) <==> multiset(a) == multiset(b)
  {
    SortRowsCorrect(a);
    SortRowsCorrect(b);
    if multiset(a) == multiset(b) {
      SortedRowsUnique(SortRows(a), SortRows(b));
    }
  }

  // ---------------------------------------------------------------------------
  // sorted(set(names))
  // ---------------------------------------------------------------------------

  predicate StrictlySorted(s: seq<string>) {
    forall i, j :: 0 <= i < j < |s| ==> StrLt(s[i], s[j])
  }

  function InsertName(x: string, s: seq<string>): seq<string> {
    if s == [] then [x]
    else if x == s[0] then s
    else if StrLe(x, s[0]) then [x] + s
    else [s[0]] + InsertName(x, s[1..])
  }

  /** `sorted(set(xs))` */
  function SortedSet(xs: seq<string>): seq<string> {
    if xs == [] then [] else InsertName(xs[0], SortedSet(xs[1..]))
  }

  lemma {:induction false} InsertNameSet(x: string, s: seq<string>)
    ensures ToSet(InsertName(x, s)) == ToSet(s) + {x}
    decreases |s|
  {
    if s != [] && x != s[0] && !StrLe(x, s[0]) {
      InsertNameSet(x, s[1..]);
      assert s == [s[0]] + s[1..];
      assert ToSet(s) == {s[0]} + ToSet(s[1..]);
      assert ToSet(InsertName(x, s)) == {s[0]} + ToSet(InsertName(x, s[1..]));
    } else if s != [] && x != s[0] {
      assert ToSet(InsertName(x, s)) == {x} + ToSet(s);
    }
  }

  lemma StrictCons(x: string, s: seq<string>)
    requires StrictlySorted(s)
    requires forall k :: 0 <= k < |s| ==> StrLt(x, s[k])
    ensures StrictlySorted([x] + s)
  {
    var t := [x] + s;
    forall i, j | 0 <= i < j < |t| ensures StrLt(t[i], t[j]) {
      if i > 0 {
        assert t[i] == s[i - 1] && t[j] == s[j - 1];
      }
    }
  }

  lemma StrLtTrans(a: string, b: string, c: string)
    requires StrLt(a, b) && StrLe(b, c)
    ensures StrLt(a, c)
  {
    StrLeTrans(a, b, c);
    if a == c {
      StrLeAntisym(a, b);
    }
  }

  lemma {:induction false} InsertNameSorted(x: string, s: seq<string>)
    requires StrictlySorted(s)
    ensures StrictlySorted(InsertName(x, s))
    decreases |s|
  {
    if s == [] || x == s[0] {
    } else if StrLe(x, s[0]) {
      forall k | 0 <= k < |s| ensures StrLt(x, s[k]) {
        if k > 0 {
          StrLtTrans(x, s[0], s[k]);
        }
      }
      StrictCons(x, s);
    } else {
      StrLeTotal(x, s[0]);
      var t := InsertName(x, s[1..]);
      InsertNameSorted(x, s[1..]);
      InsertNameSet(x, s[1..]);
      forall k | 0 <= k < |t| ensures StrLt(s[0], t[k]) {
        assert t[k] in ToSet(t);
        if t[k] != x {
          var m :| 0 <= m < |s[1..]| && s[1..][m] == t[k];
          assert t[k] == s[m + 1];
        }
      }
      StrictCons(s[0], t);
    }
  }

  lemma {:induction false} SortedSetCorrect(xs: seq<string>)
    ensures StrictlySorted(SortedSet(xs))
    ensures ToSet(SortedSet(xs)) == ToSet(xs)
    decreases |xs|
  {
    if xs != [] {
      SortedSetCorrect(xs[1..]);
      InsertNameSorted(xs[0], SortedSet(xs[1..]));
      InsertNameSet(xs[0], SortedSet(xs[1..]));
      assert xs == [xs[0]] + xs[1..];
      assert ToSet(xs) == {xs[0]} + ToSet(xs[1..]);
    }
  }

  /** A set of names has exactly one strictly sorted listing. */
  lemma StrictHeadNotInTail(s: seq<string>)
    requires StrictlySorted(s) && s != []
    ensures s[0] !in s[1..]
  {
    forall k | 0 <= k < |s| - 1 ensures s[1..][k] != s[0] {
      assert StrLt(s[0], s[k + 1]);
    }
  }

  lemma {:induction false} StrictlySortedUnique(a: seq<string>, b: seq<string>)
    requires StrictlySorted(a) && StrictlySorted(b)
    requires ToSet(a) == ToSet(b)
    ensures a == b
    decreases |a|
  {
    assert a != [] ==> a[0] in ToSet(a);
    assert b != [] ==> b[0] in ToSet(b);
    if a != [] {
      var j :| 0 <= j < |b| && b[j] == a[0];
      var i :| 0 <= i < |a| && a[i] == b[0];
      assert StrLe(b[0], a[0]) by {
        if j > 0 { assert StrLt(b[0], b[j]); } else { StrLeRefl(b[0]); }
      }
      assert StrLe(a[0], b[0]) by {
        if i > 0 { assert StrLt(a[0], a[i]); } else { StrLeRefl(a[0]); }
      }
      StrLeAntisym(a[0], b[0]);
      assert a == [a[0]] + a[1..] && b == [b[0]] + b[1..];
      StrictHeadNotInTail(a);
      StrictHeadNotInTail(b);
      assert ToSet(a) == {a[0]} + ToSet(a[1..]);
      assert ToSet(b) == {b[0]} + ToSet(b[1..]);
      assert ToSet(a[1..]) == ToSet(b[1..]);
      StrictlySortedUnique(a[1..], b[1..]);
    }
  }

  /** `sorted(set(a)) == sorted(set(b))` holds exactly when `a` and `b` have the same elements. */
  lemma SortedSetEqualIff(a: seq<string>, b: seq<string>)
    ensures SortedSet(a) == SortedSet(b) <==> ToSet(a) == ToSet(b)
  {
    SortedSetCorrect(a);
    SortedSetCorrect(b);
    if ToSet(a) == ToSet(b) {
      StrictlySortedUnique(SortedSet(a), SortedSet(b));
    }
  }

  /** Filtering a strictly sorted list keeps it strictly sorted. */
  lemma {:induction false} MinusSorted(a: seq<string>, b: seq<string>)
    requires StrictlySorted(a)
    ensures StrictlySorted(Minus(a, b))
    decreases |a|
  {
    if a != [] {
      MinusSorted(a[1..], b);
      if a[0] !in b {
        var r := Minus(a[1..], b);
        forall k | 0 <= k < |r| ensures StrLt(a[0], r[k]) {
          assert r[k] in r;
          var m :| 0 <= m < |a[1..]| && a[1..][m] == r[k];
          assert r[k] == a[m + 1];
        }
        StrictCons(a[0], r);
      }
    }
  }
}
