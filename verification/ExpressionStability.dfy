/** When preprocessing an expression a second time changes nothing. */
module ExpressionStability {
  import opened Expressions

  /**
   * The rest `s` of an expression leaves nothing to rewrite in its own rewriting. `word` says whether a word character
   * stands before it, and `shown` whether one stands before its rewriting; they differ only after a rewritten field.
   */
  predicate Settled(s: string, word: bool, shown: bool) {
    if s == "" then true
    else
      var n := DotField(s);
      if n > 0 && !word then Settled(s[n..], true, false)
      else
        !(s[0] == '.' && !shown && (n > 0 || DotField(s[1..]) > 0))
        && Settled(s[1..], IsAlphaNumeric(s[0]), IsAlphaNumeric(s[0]))
  }

  /** Text without dots holds no fields. */
  lemma {:induction false} NoDots(a: string, b: string, word: bool)
    requires a != "" && forall i :: 0 <= i < |a| ==> a[i] != '.'
    ensures Fields(a + b, word) == Fields(b, IsAlphaNumeric(a[|a| - 1]))
  {
    assert (a + b)[1..] == a[1..] + b;
    if |a| == 1 { assert a[1..] + b == b; } else { NoDots(a[1..], b, IsAlphaNumeric(a[0])); }
  }

  lemma ColumnHasNoDots(f: string)
    requires IsField(f)
    ensures var c := Column(f); c != "" && (forall i :: 0 <= i < |c| ==> c[i] != '.') && !IsAlphaNumeric(c[|c| - 1])
  {
  }

  /** After a copied dot the output has a word character just when a field or a column reference follows it. */
  lemma AfterDot(s: string)
    requires s != "" && s[0] == '.'
    ensures DotField(s) > 0 || DotField(s[1..]) > 0 <==> DotField(['.'] + Rewritten(s[1..], false)) > 0
  {
    var rest := Rewritten(s[1..], false);
    var out := ['.'] + rest;
    assert out[1..] == rest;
    if |s| > 1 {
      if DotField(s[1..]) > 0 { assert rest[0] == 'c'; } else { assert rest[0] == s[1]; }
    }
  }

  /** Rewriting leaves nothing to rewrite exactly for settled expressions. */
  lemma {:induction false} FieldsLeft(s: string, word: bool, shown: bool)
    ensures Fields(Rewritten(s, word), shown) == 0 <==> Settled(s, word, shown)
  {
    if s != "" {
      var n := DotField(s);
      if n > 0 && !word {
        var rest := Rewritten(s[n..], true);
        FieldOf(s);
        ColumnHasNoDots(s[1..n]);
        NoDots(Column(s[1..n]), rest, shown);
        FieldsLeft(s[n..], true, false);
      } else {
        var w := IsAlphaNumeric(s[0]);
        var rest := Rewritten(s[1..], w);
        var out := [s[0]] + rest;
        assert out[1..] == rest;
        FieldsLeft(s[1..], w, w);
        if s[0] == '.' { AfterDot(s); }
      }
    }
  }

  /** A rewritten field begins at j. */
  predicate FieldAt(e: string, j: nat)
    requires j <= |e|
  {
    DotField(e[j..]) > 0 && !WordBefore(e, j)
  }

  /** A rewritten field ends just before position i. */
  ghost predicate FieldEnds(e: string, i: nat) {
    i <= |e| && exists j :: 0 <= j < i && FieldAt(e, j) && j + DotField(e[j..]) == i
  }

  /**
   * The dot at i will be taken for the start of a column reference the second time: either a rewritten field ends
   * before it and a word follows it, or a rewritten field follows it and nothing but a word kept as it was could
   * protect it.
   */
  ghost predicate Clash(e: string, i: nat)
    requires i < |e|
  {
    e[i] == '.'
    && ((FieldEnds(e, i) && DotField(e[i..]) > 0)
        || (DotField(e[i + 1..]) > 0 && (FieldEnds(e, i) || !WordBefore(e, i))))
  }

  /** Position i is not inside a rewritten field. */
  ghost predicate Outside(e: string, i: nat) {
    i <= |e| && forall j :: 0 <= j < i && FieldAt(e, j) ==> j + DotField(e[j..]) <= i
  }

  lemma FieldInside(e: string, i: nat)
    requires i < |e| && FieldAt(e, i)
    ensures var end := i + DotField(e[i..]);
            i + 1 < end <= |e| && forall k :: i < k < end ==> IsAlphaNumeric(e[k]) && DotField(e[k..]) == 0
  {
    var n := DotField(e[i..]);
    FieldOf(e[i..]);
    forall k | i < k < i + n ensures IsAlphaNumeric(e[k]) && DotField(e[k..]) == 0 { NoMatchInside(e, i, k); }
  }

  /** The dot of a rewritten field does not clash, for no field ends before it. */
  lemma FieldDoesNotClash(e: string, i: nat)
    requires i < |e| && FieldAt(e, i)
    ensures !Clash(e, i)
  {
    FieldInside(e, i);
    assert IsAlphaNumeric(e[i + 1]);
    if FieldEnds(e, i) {
      var j :| 0 <= j < i && FieldAt(e, j) && j + DotField(e[j..]) == i;
      FieldInside(e, j);
    }
  }

  lemma OutsideAfterField(e: string, i: nat)
    requires i < |e| && Outside(e, i) && FieldAt(e, i)
    ensures var end := i + DotField(e[i..]);
            Outside(e, end) && FieldEnds(e, end) && WordBefore(e, end) && !Clash(e, i)
            && forall k :: i < k < end ==> !Clash(e, k)
  {
    FieldInside(e, i);
    FieldDoesNotClash(e, i);
  }

  lemma OutsideAfterChar(e: string, i: nat)
    requires i < |e| && Outside(e, i) && !FieldAt(e, i)
    ensures Outside(e, i + 1) && !FieldEnds(e, i + 1)
  {
  }

  /** Where a character is copied, being settled is having no clash there and being settled after it. */
  lemma SettledChar(e: string, i: nat)
    requires i < |e| && Outside(e, i) && !FieldAt(e, i)
    ensures Settled(e[i..], WordBefore(e, i), WordBefore(e, i) && !FieldEnds(e, i)) <==>
            !Clash(e, i) && Settled(e[i + 1..], WordBefore(e, i + 1), WordBefore(e, i + 1) && !FieldEnds(e, i + 1))
  {
    OutsideAfterChar(e, i);
    assert e[i..][1..] == e[i + 1..];
  }

  lemma SettledField(e: string, i: nat)
    requires i < |e| && Outside(e, i) && FieldAt(e, i)
    ensures var end := i + DotField(e[i..]);
            Settled(e[i..], WordBefore(e, i), WordBefore(e, i) && !FieldEnds(e, i)) <==>
            Settled(e[end..], WordBefore(e, end), WordBefore(e, end) && !FieldEnds(e, end))
  {
    OutsideAfterField(e, i);
    assert e[i..][DotField(e[i..])..] == e[i + DotField(e[i..])..];
  }

  ghost predicate NoClashFrom(e: string, i: nat) { forall k :: i <= k < |e| ==> !Clash(e, k) }

  /** Being settled, from a position outside rewritten fields on, is the absence of clashes from there on. */
  lemma {:induction false} SettledFrom(e: string, i: nat)
    requires i <= |e| && Outside(e, i)
    ensures Settled(e[i..], WordBefore(e, i), WordBefore(e, i) && !FieldEnds(e, i)) <==> NoClashFrom(e, i)
    decreases |e| - i
  {
    if i < |e| {
      var end := if FieldAt(e, i) then i + DotField(e[i..]) else i + 1;
      if FieldAt(e, i) {
        OutsideAfterField(e, i);
        SettledField(e, i);
      } else {
        OutsideAfterChar(e, i);
        SettledChar(e, i);
      }
      SettledFrom(e, end);
    }
  }

  /** A rewritten field shows. */
  lemma {:induction false} FieldsShow(s: string, word: bool)
    requires Fields(s, word) > 0
    ensures '[' in Rewritten(s, word)
  {
    var n := DotField(s);
    if n > 0 && !word {
      assert Rewritten(s, word)[4] == '[';
    } else {
      FieldsShow(s[1..], IsAlphaNumeric(s[0]));
    }
  }

  /** Preprocessing an expression twice is preprocessing it once, if and only if none of its dots clash. */
  lemma IdempotentExactly(e: string)
    requires !IsBare(e)
    ensures Preprocess(Preprocess(e)) == Preprocess(e) <==> forall i :: 0 <= i < |e| ==> !Clash(e, i)
  {
    assert NoClashFrom(e, 0) <==> forall i :: 0 <= i < |e| ==> !Clash(e, i);
    var once := Rewritten(e, false);
    if Fields(e, false) > 0 { FieldsShow(e, false); }
    RewrittenLength(e, false);
    assert !IsBare(once);
    FieldsLeft(e, false, false);
    RewrittenLength(once, false);
    assert e[0..] == e;
    SettledFrom(e, 0);
  }

  /** Bare words are quoted once. */
  lemma BareIdempotent(e: string)
    requires IsBare(e)
    ensures Preprocess(Preprocess(e)) == Preprocess(e)
  {
    var quoted := "\"" + e + "\"";
    NoDots(quoted, "", false);
    assert quoted + "" == quoted;
    RewrittenLength(quoted, false);
    assert !IsAlphaNumeric(quoted[0]);
  }

  /** No two dots in a row, and no rewritten field directly followed by another field, is enough. */
  lemma PlainIdempotent(e: string)
    requires !IsBare(e)
    requires forall i :: 0 <= i < |e| - 1 ==> !(e[i] == '.' && e[i + 1] == '.')
    requires forall i :: 0 <= i < |e| && FieldEnds(e, i) ==> DotField(e[i..]) == 0
    ensures Preprocess(Preprocess(e)) == Preprocess(e)
  {
    IdempotentExactly(e);
  }

  /** Both conditions are needed: `..f` changes again, */
  lemma TwoDotsClash(f: string)
    requires f != "" && IsField(f)
    ensures Preprocess(Preprocess(".." + f)) != Preprocess(".." + f)
  {
    var e := ".." + f;
    assert e[1..] == "." + f && e[2] == f[0];
    assert Clash(e, 0);
    IdempotentExactly(e);
  }

  /** and so does `.f.g`, although the second field was left alone the first time. */
  lemma FieldAfterFieldClashes(f: string, g: string)
    requires f != "" && IsField(f) && g != "" && IsField(g)
    ensures Preprocess(Preprocess("." + f + "." + g)) != Preprocess("." + f + "." + g)
  {
    var e, i := "." + f + "." + g, |f| + 1;
    assert e[0..] == e && e[1..] == f + ("." + g);
    WordRunIs(f, "." + g);
    assert e[1] == f[0] && FieldAt(e, 0) && DotField(e) == i;
    assert FieldEnds(e, i);
    assert e[i..] == "." + g && e[i + 1] == g[0];
    assert Clash(e, i);
    IdempotentExactly(e);
  }
}
