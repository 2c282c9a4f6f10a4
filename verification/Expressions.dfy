/** `preprocessExpressions`: column references `.f` become `cols['f']`, and bare words become string literals. */
module Expressions {
  predicate IsAlphaNumeric(c: char) { 'a' <= c <= 'z' || 'A' <= c <= 'Z' || '0' <= c <= '9' || c == '_' }

  predicate IsField(f: string) { forall i :: 0 <= i < |f| ==> IsAlphaNumeric(f[i]) }

  /** `^[a-zA-Z_][a-zA-Z0-9_]*$` */
  predicate IsBare(s: string) { s != "" && IsField(s) && !('0' <= s[0] <= '9') }

  /** The length of the run of word characters at the front. */
  function WordRun(s: string): (k: nat)
    ensures k <= |s|
    ensures k < |s| ==> !IsAlphaNumeric(s[k])
  {
    if s != "" && IsAlphaNumeric(s[0]) then 1 + WordRun(s[1..]) else 0
  }

  /** The length of the match of `\.\w+` at the front; 0 if there is none. */
  function DotField(s: string): (n: nat)
    ensures n <= |s| && n != 1
  {
    if |s| > 1 && s[0] == '.' && IsAlphaNumeric(s[1]) then 1 + WordRun(s[1..]) else 0
  }

  /** How a column reference reads in the output. */
  function Column(field: string): string { "cols['" + field + "']" }

  // ---- The rule, in one pass ----------------------------------------------

  /** The rest `s` of an expression rewritten; `word` says whether the character before it is a word character. */
  function Rewritten(s: string, word: bool): string {
    if s == "" then ""
    else
      var n := DotField(s);
      if n > 0 && !word then Column(s[1..n]) + Rewritten(s[n..], true)
      else [s[0]] + Rewritten(s[1..], IsAlphaNumeric(s[0]))
  }

  function Preprocess(expr: string): string {
    if IsBare(expr) then if expr == "true" || expr == "false" then expr else "\"" + expr + "\""
    else Rewritten(expr, false)
  }

  // ---- The code: a regular expression walk that searches each match again --

  /** `strings.Index`. */
  function Index(s: string, part: string): int {
    if part <= s then 0
    else if s == "" then -1
    else
      var i := Index(s[1..], part);
      if i < 0 then -1 else i + 1
  }

  /** The next match of the expression from `pos` on, or the end. */
  function NextMatch(expr: string, pos: nat): (i: nat)
    requires pos <= |expr|
    ensures pos <= i <= |expr|
    decreases |expr| - pos
  {
    if pos == |expr| || DotField(expr[pos..]) > 0 then pos else NextMatch(expr, pos + 1)
  }

  lemma {:induction false} NoMatchBefore(expr: string, pos: nat, j: nat)
    requires pos <= |expr| && pos <= j < NextMatch(expr, pos)
    ensures DotField(expr[j..]) == 0
    decreases |expr| - pos
  {
    if pos < j { NoMatchBefore(expr, pos + 1, j); }
  }

  lemma {:induction false} MatchThere(expr: string, pos: nat)
    requires pos <= |expr| && NextMatch(expr, pos) < |expr|
    ensures DotField(expr[NextMatch(expr, pos)..]) > 0
    decreases |expr| - pos
  {
    if DotField(expr[pos..]) == 0 { MatchThere(expr, pos + 1); }
  }

  lemma NoMatchNoText(s: string, part: string)
    requires DotField(s) == 0 && |part| > 1 && part[0] == '.' && IsAlphaNumeric(part[1])
    ensures !(part <= s)
  {
  }

  /** Where nothing matches before position i, the text of a match at i is found at i. */
  lemma {:induction false} SearchFrom(expr: string, offset: nat, i: nat, part: string)
    requires offset <= i <= |expr| && part <= expr[i..]
    requires |part| > 1 && part[0] == '.' && IsAlphaNumeric(part[1])
    requires forall j :: offset <= j < i ==> DotField(expr[j..]) == 0
    ensures Index(expr[offset..], part) == i - offset
    decreases i - offset
  {
    if offset < i {
      SearchFrom(expr, offset + 1, i, part);
      NoMatchNoText(expr[offset..], part);
      assert expr[offset..][1..] == expr[offset + 1..];
    }
  }

  /** Where the match at i ends, */
  function MatchEnd(expr: string, i: nat): (end: nat)
    requires i <= |expr|
    ensures i <= end <= |expr|
  {
    i + DotField(expr[i..])
  }

  /** and its text. */
  function MatchAt(expr: string, i: nat): (s: string)
    requires i <= |expr|
    ensures i + |s| == MatchEnd(expr, i)
  {
    expr[i..MatchEnd(expr, i)]
  }

  lemma MatchText(expr: string, i: nat)
    requires i < |expr| && DotField(expr[i..]) > 0
    ensures var s := MatchAt(expr, i); |s| > 1 && s[0] == '.' && IsAlphaNumeric(s[1]) && s <= expr[i..]
  {
    var t := expr[i..];
    assert MatchAt(expr, i) == t[..DotField(t)];
  }

  /**
   * Searching again for the text of the next match, from where the last one ended, finds that very match: the text
   * cannot occur any earlier, for it would have matched there.
   */
  lemma SearchIsExact(expr: string, offset: nat)
    requires offset <= |expr| && NextMatch(expr, offset) < |expr|
    ensures var i := NextMatch(expr, offset); Index(expr[offset..], MatchAt(expr, i)) + offset == i
  {
    var i := NextMatch(expr, offset);
    MatchThere(expr, offset);
    MatchText(expr, i);
    forall j | offset <= j < i ensures DotField(expr[j..]) == 0 { NoMatchBefore(expr, offset, j); }
    SearchFrom(expr, offset, i, MatchAt(expr, i));
  }

  /** Whether the character before position i is a word character. */
  predicate WordBefore(expr: string, i: nat)
    requires i <= |expr|
  {
    i > 0 && IsAlphaNumeric(expr[i - 1])
  }

  lemma CharCopied(s: string, word: bool)
    requires s != "" && (DotField(s) == 0 || word)
    ensures Rewritten(s, word) == [s[0]] + Rewritten(s[1..], IsAlphaNumeric(s[0]))
  {
  }

  /** What the rule makes of the expression from position `pos` on. */
  function Rest(expr: string, pos: nat): string
    requires pos <= |expr|
  {
    Rewritten(expr[pos..], WordBefore(expr, pos))
  }

  /** No column reference starts at position k. */
  predicate Kept(expr: string, k: nat)
    requires k <= |expr|
  {
    DotField(expr[k..]) == 0 || WordBefore(expr, k)
  }

  lemma KeptCopied(expr: string, i: nat)
    requires i < |expr| && Kept(expr, i)
    ensures Rest(expr, i) == [expr[i]] + Rest(expr, i + 1)
  {
    CharCopied(expr[i..], WordBefore(expr, i));
    assert expr[i..][1..] == expr[i + 1..];
  }

  /** Text in which no column reference starts is copied. */
  lemma {:induction false} Copied(expr: string, i: nat, j: nat)
    requires i <= j <= |expr|
    requires forall k :: i <= k < j ==> Kept(expr, k)
    ensures Rest(expr, i) == expr[i..j] + Rest(expr, j)
    decreases j - i
  {
    if i < j {
      KeptCopied(expr, i);
      Copied(expr, i + 1, j);
      CharBefore(expr, i, j, Rest(expr, j));
    } else {
      assert expr[i..j] == "";
    }
  }

  lemma CharBefore(expr: string, i: nat, j: nat, rest: string)
    requires i < j <= |expr|
    ensures [expr[i]] + (expr[i + 1..j] + rest) == expr[i..j] + rest
  {
  }

  lemma {:induction false} WordRunWords(s: string, k: nat)
    requires k < WordRun(s)
    ensures IsAlphaNumeric(s[k])
  {
    if k > 0 { WordRunWords(s[1..], k - 1); }
  }

  lemma DotFieldShape(s: string, k: nat)
    requires 0 < k < DotField(s)
    ensures s[0] == '.' && IsAlphaNumeric(s[k]) && DotField(s[k..]) == 0
    ensures IsAlphaNumeric(s[DotField(s) - 1])
  {
    WordRunWords(s[1..], k - 1);
    WordRunWords(s[1..], DotField(s) - 2);
  }

  lemma NoMatchInside(expr: string, i: nat, k: nat)
    requires i < k < |expr| && k - i < DotField(expr[i..])
    ensures IsAlphaNumeric(expr[k]) && DotField(expr[k..]) == 0
  {
    DotFieldShape(expr[i..], k - i);
  }

  lemma MatchKept(expr: string, i: nat, k: nat)
    requires i < |expr| && DotField(expr[i..]) > 0 && WordBefore(expr, i) && i <= k < MatchEnd(expr, i)
    ensures Kept(expr, k)
  {
    if k > i { NoMatchInside(expr, i, k); }
  }

  /** A match after a word character is copied whole. */
  lemma MemberCopied(expr: string, i: nat)
    requires i < |expr| && DotField(expr[i..]) > 0 && WordBefore(expr, i)
    ensures Rest(expr, i) == MatchAt(expr, i) + Rest(expr, MatchEnd(expr, i))
  {
    forall k | i <= k < MatchEnd(expr, i) ensures Kept(expr, k) { MatchKept(expr, i, k); }
    Copied(expr, i, MatchEnd(expr, i));
  }

  lemma MatchEndsInWord(expr: string, i: nat)
    requires i < |expr| && DotField(expr[i..]) > 0
    ensures WordBefore(expr, i + DotField(expr[i..]))
  {
    DotFieldShape(expr[i..], 1);
  }

  /** Any other match becomes a column reference. */
  lemma ColumnRewritten(expr: string, i: nat)
    requires i < |expr| && DotField(expr[i..]) > 0 && !WordBefore(expr, i)
    ensures Rest(expr, i) == Column(MatchAt(expr, i)[1..]) + Rest(expr, MatchEnd(expr, i))
  {
    var s, n := expr[i..], DotField(expr[i..]);
    MatchEndsInWord(expr, i);
    assert s[1..n] == MatchAt(expr, i)[1..] && s[n..] == expr[i + n..];
  }

  /** What stands for the match at i. */
  function Replacement(expr: string, i: nat): string
    requires i <= |expr|
  {
    var s := MatchAt(expr, i);
    if WordBefore(expr, i) || s == "" then s else Column(s[1..])
  }

  lemma MatchReplaced(expr: string, i: nat)
    requires i < |expr| && DotField(expr[i..]) > 0
    ensures Rest(expr, i) == Replacement(expr, i) + Rest(expr, MatchEnd(expr, i))
  {
    MatchText(expr, i);
    if WordBefore(expr, i) { MemberCopied(expr, i); } else { ColumnRewritten(expr, i); }
  }

  lemma Chain(a: string, b: string, c: string, d: string, e: string, r: string)
    requires a == b + c && c == d + e
    ensures r + a == r + b + d + e
  {
  }

  lemma CopiedToMatch(expr: string, pos: nat)
    requires pos <= |expr|
    ensures var i := NextMatch(expr, pos); Rest(expr, pos) == expr[pos..i] + Rest(expr, i)
  {
    var i := NextMatch(expr, pos);
    forall k | pos <= k < i ensures Kept(expr, k) { NoMatchBefore(expr, pos, k); }
    Copied(expr, pos, i);
  }

  /** One step of the walk: the text up to the next match, and what stands for the match. */
  lemma NextStep(expr: string, pos: nat, result: string, whole: string)
    requires pos <= |expr| && NextMatch(expr, pos) < |expr| && whole == result + Rest(expr, pos)
    ensures var i := NextMatch(expr, pos);
            var end := MatchEnd(expr, i);
            pos < end && whole == result + expr[pos..i] + Replacement(expr, i) + Rest(expr, end)
  {
    var i := NextMatch(expr, pos);
    var end := MatchEnd(expr, i);
    MatchThere(expr, pos);
    CopiedToMatch(expr, pos);
    MatchReplaced(expr, i);
    Chain(Rest(expr, pos), expr[pos..i], Rest(expr, i), Replacement(expr, i), Rest(expr, end), result);
  }

  /** What the replacement function makes of the match `s`, and the offset it leaves behind. */
  method ReplaceField(expr: string, s: string, offset: nat) returns (text: string, newOffset: nat)
    requires offset <= |expr| && NextMatch(expr, offset) < |expr| && s == MatchAt(expr, NextMatch(expr, offset))
    ensures var i := NextMatch(expr, offset); newOffset == MatchEnd(expr, i) && text == Replacement(expr, i)
  {
    SearchIsExact(expr, offset);
    MatchThere(expr, offset);
    MatchText(expr, NextMatch(expr, offset));
    var matchIndex := Index(expr[offset..], s) + offset;
    if matchIndex > 0 && IsAlphaNumeric(expr[matchIndex - 1]) {
      return s, matchIndex + |s|;
    }
    newOffset := matchIndex + |s|;
    var field := if s[0] == '.' then s[1..] else s;
    text := Column(field);
  }

  lemma NoMatchLeft(expr: string, pos: nat)
    requires pos <= |expr| && NextMatch(expr, pos) == |expr|
    ensures Rest(expr, pos) == expr[pos..]
  {
    CopiedToMatch(expr, pos);
    assert expr[pos..|expr|] == expr[pos..] && expr[|expr|..] == "";
  }

  lemma WholeRest(expr: string)
    ensures Rest(expr, 0) == Rewritten(expr, false)
  {
    assert expr[0..] == expr;
  }

  /** The walk over the matches of the field expression. */
  method ReplaceFields(expr: string) returns (result: string)
    ensures result == Rewritten(expr, false)
  {
    result := "";
    var offset, pos := 0, 0;
    ghost var whole := Rest(expr, 0);
    WholeRest(expr);
    while true
      invariant offset == pos <= |expr| && whole == result + Rest(expr, pos)
      decreases |expr| - pos
    {
      var i := NextMatch(expr, pos);
      if i == |expr| {
        break;
      }
      NextStep(expr, pos, result, whole);
      var s := MatchAt(expr, i);
      var text;
      text, offset := ReplaceField(expr, s, offset);
      result := result + expr[pos..i] + text;
      pos := i + |s|;
    }
    NoMatchLeft(expr, pos);
    result := result + expr[pos..];
  }

  /** The code refines the one-pass rule. */
  method PreprocessExpressions(expr: string) returns (result: string)
    ensures result == Preprocess(expr)
    ensures expr == "true" || expr == "false" ==> result == expr
    ensures IsField(expr) && expr != "" && !('0' <= expr[0] <= '9') && expr != "true" && expr != "false" ==>
              result == "\"" + expr + "\""
    ensures expr == "" || '0' <= expr[0] <= '9' || !IsField(expr) ==> result == Rewritten(expr, false)
  {
    if IsBare(expr) {
      if expr == "true" || expr == "false" {
        return expr;
      }
      return "\"" + expr + "\"";
    }
    result := ReplaceFields(expr);
  }

  // ---- Rewritten fields ---------------------------------------------------

  /** The number of fields that are rewritten. */
  function Fields(s: string, word: bool): nat {
    if s == "" then 0
    else
      var n := DotField(s);
      if n > 0 && !word then 1 + Fields(s[n..], true) else Fields(s[1..], IsAlphaNumeric(s[0]))
  }

  lemma ColumnLength(f: string)
    ensures |Column(f)| == |f| + 8
  {
  }

  /** Each rewritten field adds seven characters; without one the text stays as it is. */
  lemma {:induction false} RewrittenLength(s: string, word: bool)
    ensures |Rewritten(s, word)| == |s| + 7 * Fields(s, word)
    ensures Fields(s, word) == 0 ==> Rewritten(s, word) == s
  {
    if s != "" {
      var n := DotField(s);
      if n > 0 && !word {
        RewrittenLength(s[n..], true);
        ColumnLength(s[1..n]);
      } else {
        RewrittenLength(s[1..], IsAlphaNumeric(s[0]));
      }
    }
  }

  lemma {:induction false} WordRunIs(w: string, rest: string)
    requires IsField(w) && (rest == "" || !IsAlphaNumeric(rest[0]))
    ensures WordRun(w + rest) == |w|
  {
    if w == "" {
      assert w + rest == rest;
    } else {
      assert (w + rest)[1..] == w[1..] + rest;
      WordRunIs(w[1..], rest);
    }
  }

  lemma FieldOf(s: string)
    requires DotField(s) > 0
    ensures IsField(s[1..DotField(s)]) && s[0] == '.' && s[1..DotField(s)] != ""
  {
    forall k | 0 < k < DotField(s) ensures IsAlphaNumeric(s[k]) { DotFieldShape(s, k); }
  }

  // ---- The rule, piece by piece -------------------------------------------

  lemma TextStep(text: string, rest: string, word: bool)
    requires text != "" && text[0] != '.'
    ensures Rewritten(text + rest, word) == [text[0]] + Rewritten(text[1..] + rest, IsAlphaNumeric(text[0]))
  {
    var s := text + rest;
    assert s[1..] == text[1..] + rest;
    CharCopied(s, word);
  }

  /** Text without dots is copied. */
  lemma {:induction false} DotlessCopied(text: string, rest: string, word: bool)
    requires text != "" && forall i :: 0 <= i < |text| ==> text[i] != '.'
    ensures Rewritten(text + rest, word) == text + Rewritten(rest, IsAlphaNumeric(text[|text| - 1]))
  {
    var c, tail := text[0], text[1..];
    TextStep(text, rest, word);
    if tail == "" {
      assert text == [c] && tail + rest == rest;
    } else {
      DotlessCopied(tail, rest, IsAlphaNumeric(c));
      Joined(text, Rewritten(rest, IsAlphaNumeric(text[|text| - 1])));
    }
  }

  lemma Joined(text: string, rest: string)
    requires text != ""
    ensures [text[0]] + (text[1..] + rest) == text + rest
  {
  }

  /** Every expression is made of text without dots, fields with their dots, and lone dots. Text is copied; */
  lemma TextCopied(text: string, rest: string, word: bool)
    requires '.' !in text && text != ""
    ensures var last := text[|text| - 1];
            Rewritten(text + rest, word) ==
            text + Rewritten(rest, 'a' <= last <= 'z' || 'A' <= last <= 'Z' || '0' <= last <= '9' || last == '_')
  {
    forall i | 0 <= i < |text| ensures text[i] != '.' { assert text[i] in text; }
    DotlessCopied(text, rest, word);
  }

  lemma FieldMatch(f: string, rest: string)
    requires f != "" && IsField(f) && (rest == "" || !IsAlphaNumeric(rest[0]))
    ensures var s := "." + f + rest;
            DotField(s) == 1 + |f| && s[1..1 + |f|] == f && s[1 + |f|..] == rest && IsAlphaNumeric(f[|f| - 1])
  {
    var s := "." + f + rest;
    assert s[1..] == f + rest && s[1] == f[0];
    WordRunIs(f, rest);
  }

  /** a field becomes a reference, unless there is a word character before its dot: then it is copied as well; */
  lemma FieldReferenced(f: string, rest: string)
    requires f != "" && forall c :: c in f ==> 'a' <= c <= 'z' || 'A' <= c <= 'Z' || '0' <= c <= '9' || c == '_'
    requires rest == "" || !('a' <= rest[0] <= 'z' || 'A' <= rest[0] <= 'Z' || '0' <= rest[0] <= '9' || rest[0] == '_')
    ensures Rewritten("." + f + rest, false) == "cols['" + f + "']" + Rewritten(rest, true)
    ensures Rewritten("." + f + rest, true) == "." + f + Rewritten(rest, true)
  {
    var s := "." + f + rest;
    assert IsField(f) by {
      forall i | 0 <= i < |f| ensures IsAlphaNumeric(f[i]) { assert f[i] in f; }
    }
    FieldMatch(f, rest);
    FieldCopied(f, rest, s);
  }

  lemma FieldCopied(f: string, rest: string, s: string)
    requires f != "" && s == "." + f + rest && IsField(f)
    ensures Rewritten(s, true) == "." + f + Rewritten(rest, true)
  {
    assert s[1..] == f + rest;
    CharCopied(s, true);
    assert !IsAlphaNumeric('.');
    DotlessCopied(f, rest, false);
    var after := Rewritten(rest, true);
    assert IsAlphaNumeric(f[|f| - 1]);
    assert ['.'] + (f + after) == "." + f + after;
  }

  /** and a dot without a field is copied. */
  lemma DotCopied(rest: string, word: bool)
    requires rest == "" || !('a' <= rest[0] <= 'z' || 'A' <= rest[0] <= 'Z' || '0' <= rest[0] <= '9' || rest[0] == '_')
    ensures Rewritten("." + rest, word) == "." + Rewritten(rest, false)
  {
    var s := "." + rest;
    assert s[1..] == rest && DotField(s) == 0;
    CharCopied(s, word);
  }
}
