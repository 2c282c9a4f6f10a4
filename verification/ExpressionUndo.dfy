/** What can be recovered from a rewritten expression by reading column references back as fields. */
module ExpressionUndo {
  import opened Expressions
  import opened ExpressionStability

  const OPENING := "cols['"

  /** The length of a column reference at the front; 0 if there is none. */
  function ColumnAt(s: string): (n: nat)
    ensures n <= |s|
  {
    if OPENING <= s then
      var k := WordRun(s[6..]);
      if k > 0 && "']" <= s[6 + k..] then k + 8 else 0
    else 0
  }

  /** Reads column references back as fields. */
  function Undo(s: string): string {
    if s == "" then ""
    else
      var n := ColumnAt(s);
      if n > 0 then "." + s[6..n - 2] + Undo(s[n..]) else [s[0]] + Undo(s[1..])
  }

  /** A column reference is written out at position i of the walk over the expression. */
  predicate ReferenceHere(e: string, i: nat)
    requires i <= |e|
  {
    !FieldAt(e, i) && ColumnAt(e[i..]) > 0
  }

  /** The walk over an expression takes rewritten fields and column references whole. */
  function After(e: string, i: nat): (j: nat)
    requires i < |e|
    ensures i < j <= |e|
  {
    if FieldAt(e, i) then MatchEnd(e, i) else if ReferenceHere(e, i) then i + ColumnAt(e[i..]) else i + 1
  }

  /** The number of column references that are written out from position i on. */
  function References(e: string, i: nat): nat
    requires i <= |e|
    decreases |e| - i
  {
    if i == |e| then 0 else (if ReferenceHere(e, i) then 1 else 0) + References(e, After(e, i))
  }

  // ---- Copied text --------------------------------------------------------

  /** Output text that cannot come from a rewritten field comes from the input. */
  lemma {:induction false} FromInput(s: string, word: bool, p: string)
    requires p <= Rewritten(s, word) && forall i :: 0 <= i < |p| ==> p[i] != '.' && p[i] != 'c'
    ensures p <= s
  {
    if p != "" {
      assert Rewritten(s, word)[0] == p[0];
      assert Rewritten(s, word)[1..] == Rewritten(s[1..], IsAlphaNumeric(s[0]));
      FromInput(s[1..], IsAlphaNumeric(s[0]), p[1..]);
    }
  }

  lemma ColumnIsRead(f: string, rest: string)
    requires f != "" && IsField(f)
    ensures ColumnAt(Column(f) + rest) == |f| + 8
    ensures Undo(Column(f) + rest) == "." + f + Undo(rest)
  {
    var s := Column(f) + rest;
    assert s[6..] == f + ("']" + rest);
    WordRunIs(f, "']" + rest);
    assert s[6 + |f|..] == "']" + rest;
    assert s[6..|f| + 6] == f && s[|f| + 8..] == rest;
  }

  /** An opening of a column reference that starts with a copied character is in the input. */
  lemma OpeningCopied(s: string)
    requires s != "" && OPENING <= [s[0]] + Rewritten(s[1..], IsAlphaNumeric(s[0]))
    ensures OPENING <= s
  {
    var rest := Rewritten(s[1..], IsAlphaNumeric(s[0]));
    assert OPENING[1..] <= ([s[0]] + rest)[1..] == rest;
    FromInput(s[1..], IsAlphaNumeric(s[0]), OPENING[1..]);
    assert OPENING == [s[0]] + OPENING[1..] <= [s[0]] + s[1..] == s;
  }

  /** A word and the end of a column reference in the output, at a copied character, come from the input. */
  lemma {:induction false} ClosingCopied(s: string, word: bool)
    requires var out := Rewritten(s, word); WordRun(out) > 0 && "']" <= out[WordRun(out)..]
    ensures var k := WordRun(Rewritten(s, word)); WordRun(s) == k && "']" <= s[k..]
  {
    var out := Rewritten(s, word);
    var n := DotField(s);
    if n > 0 && !word {
      ColumnRun(s[1..n], Rewritten(s[n..], true));
    } else {
      var rest := Rewritten(s[1..], true);
      assert out == [s[0]] + rest && out[1..] == rest && IsAlphaNumeric(s[0]);
      assert WordRun(out) == 1 + WordRun(rest) && out[WordRun(out)..] == rest[WordRun(rest)..];
      if WordRun(rest) == 0 {
        FromInput(s[1..], true, "']");
        assert s[1..][0] == '\'';
      } else {
        ClosingCopied(s[1..], true);
      }
      assert s[WordRun(s)..] == s[1..][WordRun(s[1..])..];
    }
  }

  lemma ColumnRun(f: string, rest: string)
    ensures WordRun(Column(f) + rest) == 4 && (Column(f) + rest)[4] == '['
  {
    var word, tail: string := "cols", "['" + f + "']" + rest;
    assert Column(f) + rest == word + tail;
    WordRunIs(word, tail);
  }

  lemma ColumnShape(s: string)
    requires ColumnAt(s) > 0
    ensures var m := ColumnAt(s);
            m > 8 && IsField(s[6..m - 2]) && s[..m] == Column(s[6..m - 2])
  {
    var m := ColumnAt(s);
    forall i | 6 <= i < m - 2 ensures IsAlphaNumeric(s[i]) { WordRunWords(s[6..], i - 6); }
    assert s[..6] == OPENING && s[m - 2..m] == s[6..][m - 8..][..2];
    assert s[..m] == s[..6] + s[6..m - 2] + s[m - 2..m];
  }

  /** A column reference in the input is copied whole. */
  lemma ReferenceCopied(s: string, word: bool)
    requires ColumnAt(s) > 0
    ensures var m := ColumnAt(s); Rewritten(s, word) == Column(s[6..m - 2]) + Rewritten(s[m..], false)
  {
    var m := ColumnAt(s);
    ColumnShape(s);
    ColumnHasNoDots(s[6..m - 2]);
    DotlessCopied(s[..m], s[m..], word);
    assert s[..m] + s[m..] == s;
  }

  /** At a copied character there is a column reference in the output only where one is in the input. */
  lemma ReferenceFromInput(s: string, word: bool)
    requires s != "" && (DotField(s) == 0 || word) && ColumnAt(Rewritten(s, word)) > 0
    ensures ColumnAt(s) > 0
  {
    var rest := s[1..];
    CharCopied(s, word);
    OpeningCopied(s);
    var t := s[6..];
    assert s == OPENING + t;
    DotlessCopied(OPENING, t, word);
    assert Rewritten(s, word)[6..] == Rewritten(t, false);
    ClosingCopied(t, false);
    assert s[6 + WordRun(t)..] == t[WordRun(t)..];
  }

  // ---- Undoing ------------------------------------------------------------

  lemma FieldRest(e: string, i: nat) returns (f: string)
    requires i < |e| && FieldAt(e, i)
    ensures f != "" && IsField(f) && "." + f == MatchAt(e, i)
    ensures Rest(e, i) == Column(f) + Rest(e, MatchEnd(e, i))
  {
    f := MatchAt(e, i)[1..];
    FieldSlice(e, i);
    ColumnRewritten(e, i);
  }

  lemma UndoField(e: string, i: nat)
    requires i < |e| && FieldAt(e, i)
    ensures Undo(Rest(e, i)) == e[i..MatchEnd(e, i)] + Undo(Rest(e, MatchEnd(e, i)))
  {
    var f := FieldRest(e, i);
    ColumnIsRead(f, Rest(e, MatchEnd(e, i)));
  }

  lemma FieldSlice(e: string, i: nat)
    requires i < |e| && FieldAt(e, i)
    ensures var s := MatchAt(e, i); |s| > 1 && IsField(s[1..]) && "." + s[1..] == s
  {
    var s := MatchAt(e, i);
    FieldOf(e[i..]);
    MatchText(e, i);
    assert e[i..][1..DotField(e[i..])] == s[1..];
  }

  lemma ReferenceEnds(e: string, i: nat)
    requires i < |e| && ColumnAt(e[i..]) > 0
    ensures var m := ColumnAt(e[i..]); e[i..][m..] == e[i + m..] && !WordBefore(e, i + m)
  {
    var s, m := e[i..], ColumnAt(e[i..]);
    ColumnShape(s);
    assert e[i + m - 1] == s[..m][m - 1] == ']';
  }

  lemma ReferenceRest(e: string, i: nat) returns (f: string)
    requires i < |e| && ColumnAt(e[i..]) > 0
    ensures f != "" && IsField(f) && |f| + 8 == ColumnAt(e[i..])
    ensures Rest(e, i) == Column(f) + Rest(e, i + ColumnAt(e[i..]))
  {
    f := e[i..][6..ColumnAt(e[i..]) - 2];
    ColumnShape(e[i..]);
    ReferenceCopied(e[i..], WordBefore(e, i));
    ReferenceEnds(e, i);
  }

  lemma UndoColumn(f: string, rest: string)
    requires f != "" && IsField(f)
    ensures |Undo(Column(f) + rest)| == |f| + 1 + |Undo(rest)|
  {
    ColumnIsRead(f, rest);
  }

  lemma UndoReference(e: string, i: nat)
    requires i < |e| && ColumnAt(e[i..]) > 0
    ensures |Undo(Rest(e, i))| == ColumnAt(e[i..]) - 7 + |Undo(Rest(e, i + ColumnAt(e[i..])))|
  {
    var f := ReferenceRest(e, i);
    UndoColumn(f, Rest(e, i + ColumnAt(e[i..])));
  }

  lemma UndoCopied(e: string, i: nat)
    requires i < |e| && !FieldAt(e, i) && ColumnAt(e[i..]) == 0
    ensures Undo(Rest(e, i)) == [e[i]] + Undo(Rest(e, i + 1))
  {
    var s, word, rest := e[i..], WordBefore(e, i), Rest(e, i + 1);
    assert s[1..] == e[i + 1..];
    CharCopied(s, word);
    if ColumnAt(Rewritten(s, word)) > 0 { ReferenceFromInput(s, word); }
    assert ([e[i]] + rest)[1..] == rest;
  }

  /** `u` is the text from position i on with each of `n` references shortened by seven characters. */
  ghost predicate Shortened(u: string, n: nat, e: string, i: nat)
    requires i <= |e|
  {
    |u| + 7 * n == |e| - i && (n == 0 ==> u == e[i..])
  }

  lemma LongerCopy(u: string, n: nat, e: string, i: nat, j: nat)
    requires i <= j <= |e| && Shortened(u, n, e, j)
    ensures Shortened(e[i..j] + u, n, e, i)
  {
    assert e[i..j] + e[j..] == e[i..];
  }

  ghost predicate UndoShortens(e: string, i: nat)
    requires i <= |e|
  {
    Shortened(Undo(Rest(e, i)), References(e, i), e, i)
  }

  lemma AtEnd(e: string)
    ensures UndoShortens(e, |e|)
  {
    assert e[|e|..] == "";
  }

  lemma FieldNotCounted(e: string, i: nat)
    requires i < |e| && FieldAt(e, i)
    ensures References(e, i) == References(e, MatchEnd(e, i))
  {
  }

  lemma AtField(e: string, i: nat)
    requires i < |e| && FieldAt(e, i) && UndoShortens(e, MatchEnd(e, i))
    ensures UndoShortens(e, i)
  {
    var end := MatchEnd(e, i);
    FieldNotCounted(e, i);
    UndoField(e, i);
    LongerCopy(Undo(Rest(e, end)), References(e, end), e, i, end);
  }

  lemma AtReference(e: string, i: nat)
    requires i < |e| && ReferenceHere(e, i) && UndoShortens(e, After(e, i))
    ensures UndoShortens(e, i)
  {
    UndoReference(e, i);
    assert References(e, i) == 1 + References(e, After(e, i));
  }

  lemma AtCopied(e: string, i: nat)
    requires i < |e| && !FieldAt(e, i) && !ReferenceHere(e, i) && UndoShortens(e, i + 1)
    ensures UndoShortens(e, i)
  {
    UndoCopied(e, i);
    assert e[i..i + 1] == [e[i]];
    LongerCopy(Undo(Rest(e, i + 1)), References(e, i + 1), e, i, i + 1);
  }

  lemma UndoStep(e: string, i: nat)
    requires i < |e| && UndoShortens(e, After(e, i))
    ensures UndoShortens(e, i)
  {
    if FieldAt(e, i) { AtField(e, i); } else if ReferenceHere(e, i) { AtReference(e, i); } else { AtCopied(e, i); }
  }

  /** Undoing takes seven characters off every reference that is written out, and changes nothing else. */
  lemma {:induction false} UndoCounts(e: string, i: nat)
    requires i <= |e|
    ensures UndoShortens(e, i)
    decreases |e| - i
  {
    if i == |e| {
      AtEnd(e);
    } else {
      UndoCounts(e, After(e, i));
      UndoStep(e, i);
    }
  }

  /** A column reference is written out at position i, outside rewritten fields. */
  ghost predicate ReferenceAt(e: string, i: nat) { i <= |e| && Outside(e, i) && ColumnAt(e[i..]) > 0 }

  lemma NoReferenceInField(e: string, i: nat, k: nat)
    requires i < |e| && FieldAt(e, i) && i <= k < i + DotField(e[i..])
    ensures !ReferenceAt(e, k)
  {
    MatchText(e, i);
    if i == k { assert e[i..][0] == '.'; }
  }

  lemma NoneCounted(e: string, i: nat)
    requires i < |e| && References(e, i) == 0
    ensures !ReferenceHere(e, i) && References(e, After(e, i)) == 0
  {
  }

  lemma NoneOnStep(e: string, i: nat, k: nat)
    requires i < |e| && !ReferenceHere(e, i) && i <= k < After(e, i)
    ensures !ReferenceAt(e, k)
  {
    if FieldAt(e, i) { NoReferenceInField(e, i, k); }
  }

  /** Where none are counted none is written out, */
  lemma {:induction false} NoneWritten(e: string, i: nat, k: nat)
    requires i <= k && i <= |e| && References(e, i) == 0
    ensures !ReferenceAt(e, k)
    decreases |e| - i
  {
    if i < |e| {
      var j := After(e, i);
      NoneCounted(e, i);
      if j <= k { NoneWritten(e, j, k); } else { NoneOnStep(e, i, k); }
    }
  }

  lemma OutsideNext(e: string, i: nat)
    requires i < |e| && Outside(e, i) && !ReferenceHere(e, i)
    ensures Outside(e, After(e, i))
  {
    if FieldAt(e, i) { OutsideAfterField(e, i); } else { OutsideAfterChar(e, i); }
  }

  /** and where one is counted one is written out. */
  lemma {:induction false} SomeWritten(e: string, i: nat) returns (k: nat)
    requires i <= |e| && Outside(e, i) && References(e, i) > 0
    ensures ReferenceAt(e, k)
    decreases |e| - i
  {
    k := i;
    if !ReferenceHere(e, i) {
      OutsideNext(e, i);
      k := SomeWritten(e, After(e, i));
    }
  }

  /** An expression can be recovered from its rewriting if and only if no column reference is written out in it, */
  lemma UndoRewritten(e: string)
    ensures Undo(Rewritten(e, false)) == e <==> forall i: nat :: !ReferenceAt(e, i)
  {
    UndoCounts(e, 0);
    assert UndoShortens(e, 0) && e[0..] == e;
    if References(e, 0) == 0 {
      forall i: nat ensures !ReferenceAt(e, i) { NoneWritten(e, 0, i); }
    } else {
      var k := SomeWritten(e, 0);
    }
  }

  /** so two different ones of this kind never become the same expression; */
  lemma RewriteInjective(a: string, b: string)
    requires !IsBare(a) && !IsBare(b) && Preprocess(a) == Preprocess(b)
    requires forall i: nat :: !ReferenceAt(a, i) && !ReferenceAt(b, i)
    ensures a == b
  {
    UndoRewritten(a);
    UndoRewritten(b);
  }

  lemma LoneField(f: string)
    requires f != "" && IsField(f)
    ensures Rewritten("." + f, false) == Column(f)
  {
    var d := "." + f;
    assert d[1..] == f && d[1] == f[0] && f + "" == f;
    WordRunIs(f, "");
    assert DotField(d) == |d| && d[|d|..] == "" && Column(f) + "" == Column(f);
  }

  lemma LoneReference(f: string)
    requires f != "" && IsField(f)
    ensures Rewritten(Column(f), false) == Column(f) && ReferenceAt(Column(f), 0)
  {
    var e := Column(f);
    ColumnIsRead(f, "");
    ColumnHasNoDots(f);
    DotlessCopied(e, "", false);
    assert e + "" == e && e[0..] == e;
  }

  lemma NotBare(s: string, i: nat)
    requires i < |s| && !IsAlphaNumeric(s[i])
    ensures !IsBare(s)
  {
  }

  /** while a field and the reference written out for it do. */
  lemma ReferenceCollides(f: string)
    requires f != "" && IsField(f)
    ensures ReferenceAt(Column(f), 0) && Preprocess(Column(f)) == Preprocess("." + f)
  {
    LoneField(f);
    LoneReference(f);
    NotBare(Column(f), 4);
    NotBare("." + f, 0);
  }
}
