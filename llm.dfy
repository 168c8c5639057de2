/**
 * The guard around the level-4/5 language-model hint of new.py: the context summary handed
 * to the prompt, the output validator, and the truncation to at most two sentences with a
 * fixed fallback. The model's reply is an input (already HTML-unescaped).
 */
module LlmGuard {
  import opened Base
  import Checks
  import StructuralDiff

  // ---------------------------------------------------------------------------
  // Words: `text.split()`
  // ---------------------------------------------------------------------------

  /** The longest prefix of `t` without whitespace. */
  function Token(t: string): (w: string)
    ensures w <= t
    ensures forall k :: 0 <= k < |w| ==> !IsSpace(w[k])
    ensures |w| < |t| ==> IsSpace(t[|w|])
  {
    if t == [] || IsSpace(t[0]) then [] else [t[0]] + Token(t[1..])
  }

  /** A word of `split()`: non-empty and free of whitespace. */
  predicate Word(w: string) {
    w != [] && forall k :: 0 <= k < |w| ==> !IsSpace(w[k])
  }

  lemma TokenWord(t: string)
    requires t != [] && !IsSpace(t[0])
    ensures Word(Token(t))
  {
  }

  lemma WordsCons(w: string, rest: seq<string>)
    requires Word(w)
    requires forall i :: 0 <= i < |rest| ==> Word(rest[i])
    ensures forall i :: 0 <= i < |[w] + rest| ==> Word(([w] + rest)[i])
  {
    forall i | 1 <= i < |[w] + rest| ensures Word(([w] + rest)[i]) {
      assert ([w] + rest)[i] == rest[i - 1];
    }
  }

  /** `s.split()`: the maximal runs of non-whitespace characters, in order. */
  function Words(s: string): (ws: seq<string>)
    ensures forall i :: 0 <= i < |ws| ==> Word(ws[i])
    decreases |s|
  {
    var t := TrimLeft(s);
    if t == [] then []
    else
      var w := Token(t);
      TokenWord(t);
      var rest := Words(t[|w|..]);
      WordsCons(w, rest);
      [w] + rest
  }

  /** The non-whitespace characters of `s`, in order. */
  function NonSpace(s: string): string {
    if s == [] then [] else (if IsSpace(s[0]) then [] else [s[0]]) + NonSpace(s[1..])
  }

  function Concat(ws: seq<string>): string {
    if ws == [] then [] else ws[0] + Concat(ws[1..])
  }

  lemma {:induction false} NonSpaceAppend(a: string, b: string)
    ensures NonSpace(a + b) == NonSpace(a) + NonSpace(b)
    decreases |a|
  {
    if a != [] {
      NonSpaceAppend(a[1..], b);
      assert (a + b)[1..] == a[1..] + b;
    } else {
      assert a + b == b;
    }
  }

  lemma {:induction false} NonSpaceOfWord(w: string)
    requires forall k :: 0 <= k < |w| ==> !IsSpace(w[k])
    ensures NonSpace(w) == w
    decreases |w|
  {
    if w != [] {
      NonSpaceOfWord(w[1..]);
    }
  }

  lemma {:induction false} NonSpaceTrimLeft(s: string)
    ensures NonSpace(TrimLeft(s)) == NonSpace(s)
    decreases |s|
  {
    if s != [] && IsSpace(s[0]) {
      NonSpaceTrimLeft(s[1..]);
    }
  }

  /** Splitting loses exactly the whitespace: the words, joined, are the non-whitespace characters. */
  lemma {:induction false} WordsKeepText(s: string)
    ensures Concat(Words(s)) == NonSpace(s)
    decreases |s|
  {
    var t := TrimLeft(s);
    NonSpaceTrimLeft(s);
    if t != [] {
      var w := Token(t);
      var rest := t[|w|..];
      assert Words(s) == [w] + Words(rest);
      assert Concat(Words(s)) == w + Concat(Words(rest)) by {
        assert ([w] + Words(rest))[1..] == Words(rest);
      }
      WordsKeepText(rest);
      assert t == w + rest;
      NonSpaceAppend(w, rest);
      NonSpaceOfWord(w);
    }
  }

  // ---------------------------------------------------------------------------
  // validate_llm_output
  // ---------------------------------------------------------------------------

  /** `BANNED_SQL_KEYWORDS`: empty in the source. */
  const BannedSqlKeywords: seq<string> := []

  const MaxWords := 35

  /** What `validate_llm_output` accepts, for a given banned list. */
  predicate AcceptedBy(text: string, banned: seq<string>) {
    text != ""
    && (forall i :: 0 <= i < |banned| ==> !Contains(Strip(Lower(text)), banned[i]))
    && |Words(text)| <= MaxWords
  }

  predicate IsValidHint(text: string) {
    AcceptedBy(text, BannedSqlKeywords)
  }

  /** With the banned list empty, a text is valid exactly when it is non-empty and at most 35 words long. */
  lemma ValidHintIff(text: string)
    ensures IsValidHint(text) <==> text != "" && |Words(text)| <= MaxWords
  {
  }

  /** The body of `validate_llm_output`, with its loop over the banned keywords. */
  method ValidateAgainst(text: string, banned: seq<string>) returns (ok: bool)
    ensures ok <==> AcceptedBy(text, banned)
  {
    if text == "" {
      return false;
    }
    var lower := Strip(Lower(text));
    for i := 0 to |banned|
      invariant forall j :: 0 <= j < i ==> !Contains(lower, banned[j])
    {
      if Contains(lower, banned[i]) {
        return false;
      }
    }
    if |Words(text)| > MaxWords {
      return false;
    }
    return true;
  }

  /** `validate_llm_output` */
  method ValidateLlmOutput(text: string) returns (ok: bool)
    ensures ok <==> IsValidHint(text)
  {
    ok := ValidateAgainst(text, BannedSqlKeywords);
  }

  // ---------------------------------------------------------------------------
  // Splitting on "." and joining back
  // ---------------------------------------------------------------------------

  /** `s.split(sep)`: always at least one piece, none containing `sep`. */
  function SplitOn(s: string, sep: char): (ps: seq<string>)
    ensures |ps| >= 1
    ensures forall i :: 0 <= i < |ps| ==> sep !in ps[i]
  {
    if s == [] then [""]
    else
      var rest := SplitOn(s[1..], sep);
      if s[0] == sep then [""] + rest
      else [[s[0]] + rest[0]] + rest[1..]
  }

  /** `sep.join(ps)` */
  function JoinWith(ps: seq<string>, sep: char): string
    requires |ps| >= 1
  {
    if |ps| == 1 then ps[0] else ps[0] + [sep] + JoinWith(ps[1..], sep)
  }

  /** Joining the pieces with the separator gives back the text. */
  lemma {:induction false} JoinSplit(s: string, sep: char)
    ensures JoinWith(SplitOn(s, sep), sep) == s
    decreases |s|
  {
    if s != [] {
      var rest := SplitOn(s[1..], sep);
      JoinSplit(s[1..], sep);
      if s[0] != sep {
        var ps := SplitOn(s, sep);
        assert ps[1..] == rest[1..];
        if |rest| > 1 {
          assert JoinWith(rest, sep) == rest[0] + [sep] + JoinWith(rest[1..], sep);
        }
      } else {
        assert SplitOn(s, sep)[1..] == rest;
      }
    }
  }

  /** `[p.strip() for p in ps if p.strip()]` */
  function NonBlankParts(ps: seq<string>): (qs: seq<string>)
    ensures |qs| <= |ps|
  {
    if ps == [] then []
    else (if Strip(ps[0]) != "" then [Strip(ps[0])] else []) + NonBlankParts(ps[1..])
  }

  /** A kept part: non-empty, no outer whitespace, no separator. */
  predicate CleanPart(q: string, c: char) {
    q != "" && !IsSpace(q[0]) && !IsSpace(q[|q| - 1]) && c !in q
  }

  lemma StrippedPartClean(p: string, c: char)
    requires c !in p
    ensures Strip(p) != "" ==> CleanPart(Strip(p), c)
  {
  }

  lemma CleanAppend(h: seq<string>, t: seq<string>, c: char)
    requires forall i :: 0 <= i < |h| ==> CleanPart(h[i], c)
    requires forall i :: 0 <= i < |t| ==> CleanPart(t[i], c)
    ensures forall i :: 0 <= i < |h + t| ==> CleanPart((h + t)[i], c)
  {
    forall i | |h| <= i < |h + t| ensures CleanPart((h + t)[i], c) {
      assert (h + t)[i] == t[i - |h|];
    }
  }

  /** Every kept part is non-empty, has no outer whitespace and lies inside one piece. */
  lemma {:induction false} NonBlankPartsShape(ps: seq<string>, c: char)
    requires forall i :: 0 <= i < |ps| ==> c !in ps[i]
    ensures forall i :: 0 <= i < |NonBlankParts(ps)| ==> CleanPart(NonBlankParts(ps)[i], c)
    decreases |ps|
  {
    if ps != [] {
      NonBlankPartsShape(ps[1..], c);
      var head := if Strip(ps[0]) != "" then [Strip(ps[0])] else [];
      assert c !in ps[0];
      StrippedPartClean(ps[0], c);
      CleanAppend(head, NonBlankParts(ps[1..]), c);
    }
  }

  // ---------------------------------------------------------------------------
  // llm_generate_safe_hint
  // ---------------------------------------------------------------------------

  const Fallback := "Review the underlying logic structure; ensure conditions and relationships reflect the intended meaning."

  /** The text kept from the stripped reply: its first sentence, or its first two with periods restored. */
  function Candidate(raw: string): string {
    var parts := NonBlankParts(SplitOn(raw, '.'));
    if parts == [] then raw
    else if |parts| == 1 then parts[0]
    else parts[0] + ". " + parts[1] + "."
  }

  /** The hint returned for the model's reply. */
  function SafeHint(reply: string): string {
    var c := Candidate(Strip(reply));
    if IsValidHint(c) then c else Fallback
  }

  /** Anything but the fallback is the validated candidate, and a valid candidate is always kept. */
  lemma SafeHintValidOrFallback(reply: string)
    ensures SafeHint(reply) != Fallback ==> SafeHint(reply) == Candidate(Strip(reply)) && IsValidHint(SafeHint(reply))
    ensures IsValidHint(Candidate(Strip(reply))) ==> SafeHint(reply) == Candidate(Strip(reply))
  {
  }

  /** The candidate is the first non-blank sentence, the first two with periods, or the whole text without any. */
  lemma CandidateShape(raw: string)
    ensures var parts := NonBlankParts(SplitOn(raw, '.'));
      (parts == [] ==> Candidate(raw) == raw)
      && (|parts| == 1 ==> Candidate(raw) == parts[0])
      && (|parts| >= 2 ==> Candidate(raw) == parts[0] + ". " + parts[1] + ".")
  {
  }

  /** A kept candidate carries at most two periods: one per restored sentence end. */
  lemma CandidatePeriods(raw: string)
    requires NonBlankParts(SplitOn(raw, '.')) != []
    ensures multiset(Candidate(raw))['.'] <= 2
  {
    var parts := NonBlankParts(SplitOn(raw, '.'));
    NonBlankPartsShape(SplitOn(raw, '.'), '.');
    assert CleanPart(parts[0], '.');
    if |parts| >= 2 {
      assert CleanPart(parts[1], '.');
      TwoSentencePeriods(parts[0], parts[1]);
    }
  }

  lemma TwoSentencePeriods(a: string, b: string)
    requires '.' !in a && '.' !in b
    ensures multiset(a + ". " + b + ".")['.'] == 2
  {
    assert multiset(a + ". " + b + ".") == multiset(a) + multiset(". ") + multiset(b) + multiset(".");
  }

  /** Only whitespace: what `strip()` reduces to the empty string. */
  predicate Blank(p: string) {
    forall k :: 0 <= k < |p| ==> IsSpace(p[k])
  }

  /** A text with no sentence in it: nothing but periods and whitespace. */
  predicate PeriodsAndSpaces(t: string) {
    SepsAndSpaces(t, '.')
  }

  lemma {:induction false} TrimLeftEmptyIff(s: string)
    ensures TrimLeft(s) == "" <==> Blank(s)
    decreases |s|
  {
    if s != [] && IsSpace(s[0]) {
      TrimLeftEmptyIff(s[1..]);
      assert forall k :: 1 <= k < |s| ==> s[1..][k - 1] == s[k];
    }
  }

  lemma {:induction false} TrimRightKeepsHead(t: string)
    requires t != [] && !IsSpace(t[0])
    ensures TrimRight(t) != ""
    decreases |t|
  {
    if IsSpace(t[|t| - 1]) {
      TrimRightKeepsHead(t[..|t| - 1]);
    }
  }

  lemma StripEmptyIff(p: string)
    ensures Strip(p) == "" <==> Blank(p)
  {
    TrimLeftEmptyIff(p);
    if TrimLeft(p) != "" {
      TrimRightKeepsHead(TrimLeft(p));
    }
  }

  lemma {:induction false} NonBlankPartsEmptyIff(ps: seq<string>)
    ensures NonBlankParts(ps) == [] <==> AllBlank(ps)
    decreases |ps|
  {
    if ps != [] {
      NonBlankPartsEmptyIff(ps[1..]);
      StripEmptyIff(ps[0]);
      assert forall i :: 1 <= i < |ps| ==> ps[1..][i - 1] == ps[i];
    }
  }

  predicate AllBlank(ps: seq<string>) {
    forall i :: 0 <= i < |ps| ==> Blank(ps[i])
  }

  predicate SepsAndSpaces(s: string, sep: char) {
    forall k :: 0 <= k < |s| ==> s[k] == sep || IsSpace(s[k])
  }

  lemma SepsAndSpacesCons(s: string, sep: char)
    requires s != []
    ensures SepsAndSpaces(s, sep) <==> (s[0] == sep || IsSpace(s[0])) && SepsAndSpaces(s[1..], sep)
  {
    assert forall k :: 1 <= k < |s| ==> s[1..][k - 1] == s[k];
  }

  lemma AllBlankCons(p: string, ps: seq<string>)
    ensures AllBlank([p] + ps) <==> Blank(p) && AllBlank(ps)
  {
    var q := [p] + ps;
    assert q[0] == p;
    assert forall i :: 0 <= i < |ps| ==> q[i + 1] == ps[i];
  }

  lemma BlankCons(c: char, p: string)
    ensures Blank([c] + p) <==> IsSpace(c) && Blank(p)
  {
    var q := [c] + p;
    assert q[0] == c;
    assert forall k :: 0 <= k < |p| ==> q[k + 1] == p[k];
  }

  lemma {:induction false} SplitBlankIff(s: string, sep: char)
    ensures AllBlank(SplitOn(s, sep)) <==> SepsAndSpaces(s, sep)
    decreases |s|
  {
    if s != [] {
      SplitBlankIff(s[1..], sep);
      SepsAndSpacesCons(s, sep);
      var rest := SplitOn(s[1..], sep);
      if s[0] == sep {
        AllBlankCons("", rest);
      } else {
        AllBlankCons([s[0]] + rest[0], rest[1..]);
        AllBlankCons(rest[0], rest[1..]);
        assert rest == [rest[0]] + rest[1..];
        BlankCons(s[0], rest[0]);
      }
    }
  }

  /** `parts` is empty exactly when the text holds no sentence, and then the text is kept whole. */
  lemma NoSentenceKept(raw: string)
    ensures NonBlankParts(SplitOn(raw, '.')) == [] <==> PeriodsAndSpaces(raw)
    ensures PeriodsAndSpaces(raw) ==> Candidate(raw) == raw
  {
    NonBlankPartsEmptyIff(SplitOn(raw, '.'));
    SplitBlankIff(raw, '.');
  }

  /** A reply without a sentence (periods and spaces only) is not truncated: it is returned as it stands when valid. */
  lemma PeriodsOnlyReplyKept(reply: string)
    requires PeriodsAndSpaces(Strip(reply))
    ensures SafeHint(reply) == (if IsValidHint(Strip(reply)) then Strip(reply) else Fallback)
  {
    NoSentenceKept(Strip(reply));
  }

  /** The abstract summary the prompt is built from. */
  datatype LlmSummary = LlmSummary(
    constraint: string,
    astDiffs: seq<string>,
    studentOps: seq<string>,
    refOps: seq<string>,
    rowDiff: int,
    evidence: seq<string>)

  /** `summarize_context_for_llm`. The metadata has no `student_ops`/`ref_ops` keys, so both are empty. */
  function SummarizeContextForLlm(astDiffs: seq<string>, metadata: StructuralDiff.Metadata,
                                  execStudent: ExecRecord, execRef: ExecRecord,
                                  constraintName: string, evidence: Checks.Evidence): (r: LlmSummary)
    ensures r.constraint == constraintName && r.astDiffs == astDiffs
    ensures r.studentOps == [] && r.refOps == []
    ensures |r.evidence| == |evidence| && forall i :: 0 <= i < |evidence| ==> r.evidence[i] == evidence[i].key
  {
    var studentRows := if execStudent.rows != [] then |execStudent.rows| else 0;
    var refRows := if execRef.rows != [] then |execRef.rows| else 0;
    LlmSummary(constraintName, astDiffs, [], [], studentRows - refRows,
               seq(|evidence|, i requires 0 <= i < |evidence| => evidence[i].key))
  }

  /** The row difference is positive exactly when `student_more_rows` would fire on two successful runs. */
  lemma RowDiffAgreesWithRowChecks(astDiffs: seq<string>, ctx: Checks.Ctx, name: string, evidence: Checks.Evidence)
    requires Checks.BothSucceeded(ctx)
    ensures var s := SummarizeContextForLlm(astDiffs, ctx.metadata, ctx.execStudent, ctx.execRef, name, evidence);
      (s.rowDiff > 0 <==> Checks.RunCheck(Checks.StudentMoreRowsCheck, ctx).matched)
      && (Checks.RunCheck(Checks.StudentNoRowsCheck, ctx).matched ==> s.rowDiff == -|ctx.execRef.rows| < 0)
  {
  }

  /**
   * `llm_generate_safe_hint`. The prompt built from the summary and the remote call are not
   * modelled: `reply` is what the model answered, after `html.unescape`.
   */
  method LlmGenerateSafeHint(astDiffs: seq<string>, metadata: StructuralDiff.Metadata,
                             execStudent: ExecRecord, execRef: ExecRecord,
                             constraintName: string, evidence: Checks.Evidence, reply: string)
    returns (hint: string)
    ensures hint == SafeHint(reply)
  {
    var summary := SummarizeContextForLlm(astDiffs, metadata, execStudent, execRef, constraintName, evidence);
    var raw := Strip(reply);
    var parts := NonBlankParts(SplitOn(raw, '.'));
    if parts != [] {
      var candidate := parts[0];
      if |parts| > 1 {
        candidate := parts[0] + ". " + parts[1] + ".";
      }
      raw := candidate;
    }
    var ok := ValidateLlmOutput(raw);
    if ok {
      return raw;
    }
    return Fallback;
  }
}
