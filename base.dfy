/**
 * Shared vocabulary of the hinting pipeline: optional values, SQL result values and
 * execution records, and the handful of Python string operations the pipeline relies on
 * (`lower`, `upper`, `strip`, `in` on strings, `str.count`, list and integer formatting).
 */
module Base {

  datatype Option<T> = None | Some(value: T)

  /** The outcome of a step that may raise: its value, or the text of the exception. */
  datatype Outcome<T> = Ok(value: T) | Err(message: string)

  /** Python truthiness of an optional string: present and non-empty. */
  predicate Truthy(o: Option<string>) {
    o.Some? && o.value != ""
  }

  /** A value in a result row. Booleans are integers (Python's True == 1) and NULL is `Null`. */
  datatype Value = Null | Int(i: int) | Str(s: string)

  /** One result row: a tuple of values. */
  type Row = seq<Value>

  /** What the execution engine returns for one query: `{success, error, rows, cols}`. */
  datatype ExecRecord = ExecRecord(success: bool, error: Option<string>, rows: seq<Row>, cols: seq<string>)

  // ---------------------------------------------------------------------------
  // Characters and case mapping (ASCII letters; other characters are unchanged)
  // ---------------------------------------------------------------------------

  predicate IsUpper(c: char) {
    'A' <= c <= 'Z'
  }

  function LowerChar(c: char): char {
    if IsUpper(c) then (c as int + 32) as char else c
  }

  function UpperChar(c: char): char {
    if 'a' <= c <= 'z' then (c as int - 32) as char else c
  }

  /** `s.lower()` */
  function Lower(s: string): string {
    seq(|s|, i requires 0 <= i < |s| => LowerChar(s[i]))
  }

  /** `s.upper()` */
  function Upper(s: string): string {
    seq(|s|, i requires 0 <= i < |s| => UpperChar(s[i]))
  }

  /** `[x.lower() for x in xs]` */
  function LowerAll(xs: seq<string>): seq<string> {
    seq(|xs|, i requires 0 <= i < |xs| => Lower(xs[i]))
  }

  /** No upper-case ASCII letter occurs in `s`. */
  predicate NoUpper(s: string) {
    forall i :: 0 <= i < |s| ==> !IsUpper(s[i])
  }

  lemma LowerHasNoUpper(s: string)
    ensures NoUpper(Lower(s))
  {
  }

  /** The characters Python's `str.isspace` accepts (and hence `split()` and `strip()` use). */
  predicate IsSpace(c: char) {
    var n := c as int;
    (9 <= n <= 13) || (28 <= n <= 32) || n == 0x85 || n == 0xA0 || n == 0x1680
    || (0x2000 <= n <= 0x200A) || n == 0x2028 || n == 0x2029 || n == 0x202F
    || n == 0x205F || n == 0x3000
  }

  function TrimLeft(s: string): (r: string)
    ensures |r| <= |s| && r == s[|s| - |r|..]
    ensures r != [] ==> !IsSpace(r[0])
  {
    if s != [] && IsSpace(s[0]) then TrimLeft(s[1..]) else s
  }

  function TrimRight(s: string): (r: string)
    ensures |r| <= |s| && r == s[..|r|]
    ensures r != [] ==> !IsSpace(r[|r| - 1])
  {
    if s != [] && IsSpace(s[|s| - 1]) then TrimRight(s[..|s| - 1]) else s
  }

  /** `s.strip()`: no leading or trailing whitespace remains, and only whitespace was removed. */
  function Strip(s: string): (r: string)
    ensures r != [] ==> !IsSpace(r[0]) && !IsSpace(r[|r| - 1])
    ensures forall c :: c in r ==> c in s
  {
    var t := TrimLeft(s);
    var r := TrimRight(t);
    assert forall c :: c in r ==> c in t;
    r
  }

  /** `s.strip() == "*"`, stated without `strip`: one `*` and whitespace everywhere else. */
  predicate StarText(s: string) {
    exists i :: 0 <= i < |s| && s[i] == '*' && forall j :: 0 <= j < |s| && j != i ==> IsSpace(s[j])
  }

  lemma {:induction false} TrimLeftAfterSpaces(s: string, i: nat)
    requires i < |s| && !IsSpace(s[i])
    requires forall k :: 0 <= k < i ==> IsSpace(s[k])
    ensures TrimLeft(s) == s[i..]
    decreases i
  {
    if i > 0 {
      TrimLeftAfterSpaces(s[1..], i - 1);
      assert s[1..][i - 1..] == s[i..];
    }
  }

  lemma {:induction false} TrimRightBeforeSpaces(t: string, n: nat)
    requires 0 < n <= |t| && !IsSpace(t[n - 1])
    requires forall k :: n <= k < |t| ==> IsSpace(t[k])
    ensures TrimRight(t) == t[..n]
    decreases |t|
  {
    if |t| > n {
      TrimRightBeforeSpaces(t[..|t| - 1], n);
      assert t[..|t| - 1][..n] == t[..n];
    }
  }

  lemma {:induction false} TrimLeftRemovesSpaces(s: string)
    ensures forall k :: 0 <= k < |s| - |TrimLeft(s)| ==> IsSpace(s[k])
    decreases |s|
  {
    if s != [] && IsSpace(s[0]) {
      TrimLeftRemovesSpaces(s[1..]);
      assert forall k :: 1 <= k < |s| - |TrimLeft(s)| ==> s[k] == s[1..][k - 1];
    }
  }

  lemma {:induction false} TrimRightRemovesSpaces(s: string)
    ensures forall k :: |TrimRight(s)| <= k < |s| ==> IsSpace(s[k])
    decreases |s|
  {
    if s != [] && IsSpace(s[|s| - 1]) {
      TrimRightRemovesSpaces(s[..|s| - 1]);
      assert forall k :: |TrimRight(s)| <= k < |s| - 1 ==> s[k] == s[..|s| - 1][k];
    }
  }

  lemma StarTextStrips(s: string)
    requires StarText(s)
    ensures Strip(s) == "*"
  {
    var i :| 0 <= i < |s| && s[i] == '*' && forall j :: 0 <= j < |s| && j != i ==> IsSpace(s[j]);
    TrimLeftAfterSpaces(s, i);
    var t := s[i..];
    forall k | 1 <= k < |t| ensures IsSpace(t[k]) {
      assert t[k] == s[i + k];
    }
    TrimRightBeforeSpaces(t, 1);
  }

  lemma StripsToStar(s: string)
    requires Strip(s) == "*"
    ensures StarText(s)
  {
    var t := TrimLeft(s);
    var a := |s| - |t|;
    TrimLeftRemovesSpaces(s);
    TrimRightRemovesSpaces(t);
    assert TrimRight(t) == "*";
    assert t[0] == '*';
    assert s[a] == '*';
    forall j | 0 <= j < |s| && j != a ensures IsSpace(s[j]) {
      if j > a {
        assert s[j] == t[j - a];
      }
    }
  }

  /** The star test without `strip` agrees with `s.strip() == "*"`. */
  lemma StarTextIff(s: string)
    ensures StarText(s) <==> Strip(s) == "*"
  {
    if StarText(s) {
      StarTextStrips(s);
    }
    if Strip(s) == "*" {
      StripsToStar(s);
    }
  }

  /** `not s.strip()`: the string is empty or all whitespace. */
  predicate IsBlank(s: string) {
    Strip(s) == ""
  }

  // ---------------------------------------------------------------------------
  // Substrings
  // ---------------------------------------------------------------------------

  /** `sub in s` */
  predicate Contains(s: string, sub: string)
    decreases |s|
  {
    sub <= s || (|s| > 0 && Contains(s[1..], sub))
  }

  /** An occurrence of `sub` starts with the first character of `sub`. */
  lemma {:induction false} ContainsFirstChar(s: string, sub: string)
    requires |sub| > 0 && Contains(s, sub)
    ensures sub[0] in s
    decreases |s|
  {
    if !(sub <= s) {
      ContainsFirstChar(s[1..], sub);
    }
  }

  /** Anything that occurs in the tail occurs in the whole. */
  lemma {:induction false} ContainsInSuffix(a: string, b: string, sub: string)
    requires Contains(b, sub)
    ensures Contains(a + b, sub)
    decreases |a|
  {
    if a != [] {
      ContainsInSuffix(a[1..], b, sub);
      assert (a + b)[1..] == a[1..] + b;
      assert Contains((a + b)[1..], sub);
    } else {
      assert a + b == b;
    }
  }

  /** A prefix occurs. */
  lemma ContainsPrefix(s: string, sub: string)
    requires sub <= s
    ensures Contains(s, sub)
  {
  }

  /** `s.count(sub)`: non-overlapping occurrences, scanning left to right; `""` occurs |s|+1 times. */
  function CountOf(s: string, sub: string): nat
    decreases |s|
  {
    if |sub| == 0 then |s| + 1
    else if |s| < |sub| then 0
    else if sub <= s then 1 + CountOf(s[|sub|..], sub)
    else CountOf(s[1..], sub)
  }

  // ---------------------------------------------------------------------------
  // Formatting
  // ---------------------------------------------------------------------------

  function DigitChar(d: nat): char
    requires d < 10
  {
    ('0' as int + d) as char
  }

  /** `str(n)` for a non-negative integer. */
  function NatToString(n: nat): string
    decreases n
  {
    if n < 10 then [DigitChar(n)] else NatToString(n / 10) + [DigitChar(n % 10)]
  }

  function QuotedItems(xs: seq<string>): string {
    if xs == [] then ""
    else if |xs| == 1 then "'" + xs[0] + "'"
    else "'" + xs[0] + "', " + QuotedItems(xs[1..])
  }

  /** `str(xs)` for a list of strings, e.g. `['a', 'b']` (quote selection and escapes aside). */
  function ListRepr(xs: seq<string>): string {
    "[" + QuotedItems(xs) + "]"
  }

  lemma {:induction false} QuotedItemsNoUpper(xs: seq<string>)
    requires forall i :: 0 <= i < |xs| ==> NoUpper(xs[i])
    ensures NoUpper(QuotedItems(xs))
    decreases |xs|
  {
    if |xs| > 1 {
      QuotedItemsNoUpper(xs[1..]);
      assert NoUpper(xs[0]);
    } else if |xs| == 1 {
      assert NoUpper(xs[0]);
    }
  }

  lemma ListReprNoUpper(xs: seq<string>)
    requires forall i :: 0 <= i < |xs| ==> NoUpper(xs[i])
    ensures NoUpper(ListRepr(xs))
  {
    QuotedItemsNoUpper(xs);
  }

  // ---------------------------------------------------------------------------
  // Lists used as sets
  // ---------------------------------------------------------------------------

  function ToSet<T>(xs: seq<T>): set<T> {
    set x | x in xs
  }

  /** `[x for x in a if x not in b]` */
  function Minus(a: seq<string>, b: seq<string>): (r: seq<string>)
    ensures forall x :: x in r <==> x in a && x !in b
    ensures |r| <= |a|
  {
    if a == [] then []
    else if a[0] in b then Minus(a[1..], b)
    else [a[0]] + Minus(a[1..], b)
  }

  /** Some element occurs twice: `len(xs) != len(set(xs))`. */
  predicate HasDuplicate<T(==)>(xs: seq<T>) {
    exists i, j :: 0 <= i < j < |xs| && xs[i] == xs[j]
  }
}
