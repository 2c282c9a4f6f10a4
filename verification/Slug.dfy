/** `Slugify`: six passes over a string. */
module Slug {

  /**
   * `strings.ToLower`, character by character. Besides the ASCII capitals, two characters have an ASCII letter as their
   * lower case: the Kelvin sign and the capital I with a dot. Every other character stays outside ASCII, so what it
   * becomes makes no difference: the fourth pass removes it.
   */
  function LowerChar(c: char): char {
    if 'A' <= c <= 'Z' then c + ' '
    else if c == '\U{212A}' then 'k'
    else if c == '\U{0130}' then 'i'
    else c
  }

  function ToLower(s: string): string { seq(|s|, i requires 0 <= i < |s| => LowerChar(s[i])) }

  function Replace(s: string, c: char, d: char): string {
    seq(|s|, i requires 0 <= i < |s| => if s[i] == c then d else s[i])
  }

  predicate Kept(c: char) { 'a' <= c <= 'z' || '0' <= c <= '9' || c == '-' }

  /** Removes the runs of other characters. */
  function RemoveOthers(s: string): string {
    if s == "" then "" else (if Kept(s[0]) then [s[0]] else []) + RemoveOthers(s[1..])
  }

  /** Makes every run of hyphens one hyphen. */
  function CollapseHyphens(s: string): string {
    if s == "" then ""
    else if s[0] == '-' && |s| > 1 && s[1] == '-' then CollapseHyphens(s[1..])
    else [s[0]] + CollapseHyphens(s[1..])
  }

  /** `strings.Trim(s, "-")` */
  function TrimHyphens(s: string): string {
    if s != "" && s[0] == '-' then TrimHyphens(s[1..])
    else if s != "" && s[|s| - 1] == '-' then TrimHyphens(s[..|s| - 1])
    else s
  }

  /** The four passes that look at one character at a time. */
  function Cleaned(s: string): string {
    RemoveOthers(Replace(Replace(ToLower(s), ' ', '-'), '_', '-'))
  }

  function Slugify(s: string): string { TrimHyphens(CollapseHyphens(Cleaned(s))) }

  // ---- What the passes amount to ------------------------------------------

  predicate IsClean(s: string) { forall i :: 0 <= i < |s| ==> Kept(s[i]) }

  /** The length of the run at the front that has no hyphen. */
  function Run(s: string): (k: nat)
    ensures k <= |s| && (k < |s| ==> s[k] == '-') && forall i :: 0 <= i < k ==> s[i] != '-'
  {
    if s == "" || s[0] == '-' then 0 else 1 + Run(s[1..])
  }

  /** The words between hyphens, without the empty ones. */
  function Words(s: string): seq<string> {
    if s == "" then []
    else if s[0] == '-' then Words(s[1..])
    else [s[..Run(s)]] + Words(s[Run(s)..])
  }

  function Join(words: seq<string>): string {
    if words == [] then "" else if |words| == 1 then words[0] else words[0] + "-" + Join(words[1..])
  }

  predicate IsWord(w: string) { w != "" && forall i :: 0 <= i < |w| ==> Kept(w[i]) && w[i] != '-' }

  predicate AllWords(words: seq<string>) { forall i :: 0 <= i < |words| ==> IsWord(words[i]) }

  lemma {:induction false} WordsAreWords(s: string)
    requires IsClean(s)
    ensures AllWords(Words(s))
  {
    if s != "" {
      if s[0] == '-' { WordsAreWords(s[1..]); } else { WordsAreWords(s[Run(s)..]); }
    }
  }

  /** Hyphens around the words of a collapsed text. */
  function Hyphen(present: bool): string { if present then "-" else "" }

  predicate StartsWithHyphen(s: string) { s != "" && s[0] == '-' }

  predicate EndsWithHyphen(s: string) { s != "" && s[|s| - 1] == '-' }

  lemma {:induction false} CollapseRun(w: string, rest: string)
    requires IsWord(w)
    ensures CollapseHyphens(w + rest) == w + CollapseHyphens(rest)
    decreases |w|
  {
    assert (w + rest)[1..] == w[1..] + rest;
    if |w| == 1 {
      assert w[1..] + rest == rest;
    } else {
      assert IsWord(w[1..]);
      CollapseRun(w[1..], rest);
      assert [w[0]] + (w[1..] + CollapseHyphens(rest)) == w + CollapseHyphens(rest);
    }
  }

  lemma {:induction false} NoWordsEnd(s: string)
    requires s != "" && Words(s) == []
    ensures s[0] == '-' && EndsWithHyphen(s)
  {
    if |s| > 1 {
      NoWordsEnd(s[1..]);
      assert s[|s| - 1] == s[1..][|s| - 2];
    }
  }

  /** What a collapsed text looks like, in terms of its words. */
  function Shape(s: string): string {
    if Words(s) == [] then Hyphen(s != "")
    else Hyphen(StartsWithHyphen(s)) + (Join(Words(s)) + Hyphen(EndsWithHyphen(s)))
  }

  lemma ShapeAfterHyphen(s: string)
    requires StartsWithHyphen(s) && CollapseHyphens(s[1..]) == Shape(s[1..])
    ensures CollapseHyphens(s) == Shape(s)
  {
    var rest := s[1..];
    assert Words(s) == Words(rest);
    if rest != "" {
      assert s[|s| - 1] == rest[|rest| - 1] && s[1] == rest[0];
      if rest[0] != '-' {
        assert Hyphen(false) + (Join(Words(rest)) + Hyphen(EndsWithHyphen(rest))) ==
               Join(Words(rest)) + Hyphen(EndsWithHyphen(rest));
      }
    }
  }

  /** The three things that can come after a word: nothing, only hyphens, or hyphens and more words. */
  lemma ShapeLastWord(w: string, rest: string)
    requires IsWord(w) && Words(w + rest) == [w] && (rest == "" || EndsWithHyphen(rest))
    ensures Shape(w + rest) == w + Hyphen(rest != "")
  {
    var s := w + rest;
    assert s[0] == w[0];
    assert s[|s| - 1] == if rest == "" then w[|w| - 1] else rest[|rest| - 1];
    var end := Hyphen(rest != "");
    assert Join([w]) == w && EndsWithHyphen(s) == (rest != "");
    assert Shape(s) == Hyphen(false) + (w + end);
    assert "" + (w + end) == w + end;
  }

  lemma JoinMore(w: string, words: seq<string>)
    requires words != []
    ensures Join([w] + words) == w + "-" + Join(words)
  {
    assert ([w] + words)[1..] == words;
  }

  lemma ShapeEnds(w: string, rest: string)
    requires IsWord(w) && rest != ""
    ensures StartsWithHyphen(w + rest) == false && EndsWithHyphen(w + rest) == EndsWithHyphen(rest)
  {
    var s := w + rest;
    assert s[0] == w[0] && s[|s| - 1] == rest[|rest| - 1];
  }

  lemma Regrouped(none: string, w: string, hyphen: string, joined: string, end: string)
    requires none == ""
    ensures none + (w + hyphen + joined + end) == w + (hyphen + (joined + end))
  {
  }

  lemma ShapeMoreWords(w: string, rest: string)
    requires IsWord(w) && StartsWithHyphen(rest) && Words(rest) != [] && Words(w + rest) == [w] + Words(rest)
    ensures Shape(w + rest) == w + Shape(rest)
  {
    ShapeEnds(w, rest);
    JoinMore(w, Words(rest));
    Regrouped(Hyphen(false), w, Hyphen(true), Join(Words(rest)), Hyphen(EndsWithHyphen(rest)));
  }

  lemma ShapeAfterWord(w: string, rest: string)
    requires IsWord(w) && (rest == "" || rest[0] == '-') && CollapseHyphens(rest) == Shape(rest)
    requires Words(w + rest) == [w] + Words(rest)
    ensures CollapseHyphens(w + rest) == Shape(w + rest)
  {
    CollapseRun(w, rest);
    if Words(rest) == [] {
      if rest != "" { NoWordsEnd(rest); }
      ShapeLastWord(w, rest);
    } else {
      ShapeMoreWords(w, rest);
    }
  }

  /** A collapsed text is its words joined by hyphens, with a hyphen at either end where the text has one. */
  lemma {:induction false} CollapsedIsJoined(s: string)
    requires IsClean(s)
    ensures CollapseHyphens(s) == Shape(s)
  {
    if s != "" {
      if s[0] == '-' {
        CollapsedIsJoined(s[1..]);
        ShapeAfterHyphen(s);
      } else {
        var w, rest := s[..Run(s)], s[Run(s)..];
        CollapsedIsJoined(rest);
        assert s == w + rest;
        ShapeAfterWord(w, rest);
      }
    }
  }

  // ---- Slugs --------------------------------------------------------------

  /** Nothing, or runs of lower-case letters and digits joined by single hyphens. */
  predicate IsSlug(s: string) {
    (forall i :: 0 <= i < |s| ==> 'a' <= s[i] <= 'z' || '0' <= s[i] <= '9' || s[i] == '-')
    && !StartsWithHyphen(s) && !EndsWithHyphen(s)
    && forall i :: 0 <= i < |s| - 1 ==> !(s[i] == '-' && s[i + 1] == '-')
  }

  lemma {:induction false} JoinIsSlug(words: seq<string>)
    requires AllWords(words)
    ensures IsSlug(Join(words)) && (Join(words) == "" <==> words == [])
  {
    if words != [] {
      assert IsWord(words[0]);
      if |words| > 1 {
        JoinIsSlug(words[1..]);
        JoinedSlug(words[0], Join(words[1..]));
      }
    }
  }

  lemma JoinedSlug(w: string, rest: string)
    requires IsWord(w) && IsSlug(rest) && rest != ""
    ensures IsSlug(w + "-" + rest)
  {
    var s := w + "-" + rest;
    forall i | 0 <= i < |s| ensures s[i] == if i < |w| then w[i] else if i == |w| then '-' else rest[i - |w| - 1] {}
  }

  lemma TrimShape(b: bool, s: string, e: bool)
    requires IsSlug(s)
    ensures TrimHyphens(Hyphen(b) + (s + Hyphen(e))) == s
  {
    var t := s + Hyphen(e);
    TrimEnd(s, e);
    if b {
      assert (Hyphen(b) + t)[1..] == t;
    } else {
      assert Hyphen(b) + t == t;
    }
  }

  lemma TrimEnd(s: string, e: bool)
    requires IsSlug(s)
    ensures TrimHyphens(s + Hyphen(e)) == s
  {
    var t := s + Hyphen(e);
    if e {
      assert t[..|t| - 1] == s;
      if s == "" { assert t[1..] == s; } else { assert t[0] == s[0]; }
    } else {
      assert t == s;
    }
  }

  lemma {:induction false} RemovedIsClean(s: string)
    ensures IsClean(RemoveOthers(s))
  {
    if s != "" { RemovedIsClean(s[1..]); }
  }

  /** All six passes together: the words of the cleaned text, joined by hyphens. */
  lemma SlugifyJoins(s: string)
    ensures AllWords(Words(Cleaned(s))) && Slugify(s) == Join(Words(Cleaned(s)))
  {
    var c := Cleaned(s);
    RemovedIsClean(Replace(Replace(ToLower(s), ' ', '-'), '_', '-'));
    WordsAreWords(c);
    CollapsedIsJoined(c);
    JoinIsSlug(Words(c));
    if Words(c) == [] {
      TrimEnd("", c != "");
      assert "" + Hyphen(c != "") == Hyphen(c != "");
    } else {
      TrimShape(StartsWithHyphen(c), Join(Words(c)), EndsWithHyphen(c));
    }
  }

  // ---- Slugs are the fixed points -----------------------------------------

  lemma {:induction false} NothingRemoved(s: string)
    requires IsClean(s)
    ensures RemoveOthers(s) == s
  {
    if s != "" { NothingRemoved(s[1..]); }
  }

  lemma {:induction false} NothingCollapsed(s: string)
    requires forall i :: 0 <= i < |s| - 1 ==> !(s[i] == '-' && s[i + 1] == '-')
    ensures CollapseHyphens(s) == s
  {
    if s != "" {
      assert |s| > 1 ==> !(s[0] == '-' && s[0 + 1] == '-');
      NothingCollapsed(s[1..]);
    }
  }

  lemma NothingReplaced(s: string)
    requires IsClean(s)
    ensures Replace(Replace(ToLower(s), ' ', '-'), '_', '-') == s
  {
    forall i | 0 <= i < |s| ensures LowerChar(s[i]) == s[i] && s[i] != ' ' && s[i] != '_' { assert Kept(s[i]); }
    assert ToLower(s) == s;
    assert Replace(s, ' ', '-') == s;
    assert Replace(s, '_', '-') == s;
  }

  /** Every output is a slug, and exactly the slugs are left as they are. */
  lemma SlugsAreFixed(s: string)
    ensures IsSlug(Slugify(s))
    ensures Slugify(s) == s <==> IsSlug(s)
  {
    SlugifyJoins(s);
    JoinIsSlug(Words(Cleaned(s)));
    if IsSlug(s) {
      NothingReplaced(s);
      NothingRemoved(s);
      NothingCollapsed(s);
    }
  }

  /** So slugifying twice is slugifying once. */
  lemma SlugifyIdempotent(s: string)
    ensures Slugify(Slugify(s)) == Slugify(s)
  {
    SlugsAreFixed(s);
    SlugsAreFixed(Slugify(s));
  }

  // ---- Concatenation ------------------------------------------------------

  lemma {:induction false} RemoveAppend(a: string, b: string)
    ensures RemoveOthers(a + b) == RemoveOthers(a) + RemoveOthers(b)
  {
    if a == "" {
      assert a + b == b;
    } else {
      RemoveAppend(a[1..], b);
      assert (a + b)[0] == a[0] && (a + b)[1..] == a[1..] + b;
      var first := if Kept(a[0]) then [a[0]] else [];
      assert first + (RemoveOthers(a[1..]) + RemoveOthers(b)) == first + RemoveOthers(a[1..]) + RemoveOthers(b);
    }
  }

  lemma CleanedAppend(a: string, b: string)
    ensures Cleaned(a + b) == Cleaned(a) + Cleaned(b)
  {
    assert ToLower(a + b) == ToLower(a) + ToLower(b);
    var la, lb := ToLower(a), ToLower(b);
    assert Replace(la + lb, ' ', '-') == Replace(la, ' ', '-') + Replace(lb, ' ', '-');
    var sa, sb := Replace(la, ' ', '-'), Replace(lb, ' ', '-');
    assert Replace(sa + sb, '_', '-') == Replace(sa, '_', '-') + Replace(sb, '_', '-');
    RemoveAppend(Replace(sa, '_', '-'), Replace(sb, '_', '-'));
  }

  lemma {:induction false} RunIs(w: string, rest: string)
    requires (forall i :: 0 <= i < |w| ==> w[i] != '-') && (rest == "" || rest[0] == '-')
    ensures Run(w + rest) == |w|
  {
    if w == "" {
      assert w + rest == rest;
    } else {
      assert (w + rest)[1..] == w[1..] + rest;
      RunIs(w[1..], rest);
    }
  }

  lemma {:induction false} WordsAppend(a: string, b: string)
    ensures Words(a + "-" + b) == Words(a) + Words(b)
    decreases |a|
  {
    var s := a + "-" + b;
    if a == "" {
      assert s[1..] == b;
    } else if a[0] == '-' {
      assert s[1..] == a[1..] + "-" + b;
      WordsAppend(a[1..], b);
    } else {
      var k := Run(a);
      assert s == a[..k] + (a[k..] + "-" + b);
      RunIs(a[..k], a[k..] + "-" + b);
      assert s[..k] == a[..k] && s[k..] == a[k..] + "-" + b;
      WordsAppend(a[k..], b);
    }
  }

  lemma {:induction false} JoinAppend(xs: seq<string>, ys: seq<string>)
    requires xs != [] && ys != []
    ensures Join(xs + ys) == Join(xs) + "-" + Join(ys)
  {
    assert (xs + ys)[1..] == xs[1..] + ys;
    if |xs| == 1 {
      assert xs[1..] + ys == ys;
    } else {
      JoinAppend(xs[1..], ys);
      assert xs[0] + "-" + (Join(xs[1..]) + "-" + Join(ys)) == xs[0] + "-" + Join(xs[1..]) + "-" + Join(ys);
    }
  }

  /** The non-empty ones of two slugs, joined by a hyphen. */
  function JoinSlugs(a: string, b: string): string {
    if a == "" then b else if b == "" then a else a + "-" + b
  }

  /** Slugify takes text apart at spaces, underscores and hyphens, and its parts are slugified on their own. */
  lemma SlugifyConcat(a: string, separator: char, b: string)
    requires separator in {' ', '_', '-'}
    ensures Slugify(a + [separator] + b) == JoinSlugs(Slugify(a), Slugify(b))
  {
    CleanedAppend(a + [separator], b);
    CleanedAppend(a, [separator]);
    CleanedSeparator(separator);
    var xs, ys := Words(Cleaned(a)), Words(Cleaned(b));
    WordsAppend(Cleaned(a), Cleaned(b));
    SlugifyJoins(a);
    SlugifyJoins(b);
    SlugifyJoins(a + [separator] + b);
    JoinIsSlug(xs);
    JoinIsSlug(ys);
    if xs == [] {
      assert xs + ys == ys;
    } else if ys == [] {
      assert xs + ys == xs;
    } else {
      JoinAppend(xs, ys);
    }
  }

  lemma CleanedSeparator(separator: char)
    requires separator in {' ', '_', '-'}
    ensures Cleaned([separator]) == "-"
  {
    assert ToLower([separator]) == [separator];
    var s := Replace(Replace([separator], ' ', '-'), '_', '-');
    assert s == ['-'] && s[1..] == [];
    assert RemoveOthers(s) == ['-'] + RemoveOthers([]);
  }

  // ---- Single characters --------------------------------------------------

  predicate IsAlphanumeric(c: char) { 'a' <= c <= 'z' || 'A' <= c <= 'Z' || '0' <= c <= '9' }

  /** A capital becomes the small letter at the same place in the alphabet, and other letters and digits stay. */
  lemma LettersLowered(c: char)
    requires IsAlphanumeric(c)
    ensures 'A' <= c <= 'Z' ==> 'a' <= LowerChar(c) <= 'z' && LowerChar(c) - 'a' == c - 'A'
    ensures !('A' <= c <= 'Z') ==> LowerChar(c) == c
  {
  }

  lemma AlphanumericLowered(s: string)
    requires forall i :: 0 <= i < |s| ==> IsAlphanumeric(s[i])
    ensures Slugify(s) == ToLower(s)
  {
    var lower := ToLower(s);
    forall i | 0 <= i < |s| ensures Kept(lower[i]) && lower[i] != '-' && LowerChar(lower[i]) == lower[i] {
      assert IsAlphanumeric(s[i]);
    }
    assert IsSlug(lower);
    NothingReplaced(lower);
    assert ToLower(lower) == lower;
    NothingRemoved(lower);
    NothingCollapsed(lower);
    TrimEnd(lower, false);
    assert lower + "" == lower;
  }

  /** Letters and digits stay where they are, and capitals become small letters. */
  lemma AlphanumericKept(s: string, i: nat)
    requires i < |s| && forall k :: 0 <= k < |s| ==> IsAlphanumeric(s[k])
    ensures |Slugify(s)| == |s|
    ensures 'A' <= s[i] <= 'Z' ==> 'a' <= Slugify(s)[i] <= 'z' && Slugify(s)[i] - 'a' == s[i] - 'A'
    ensures !('A' <= s[i] <= 'Z') ==> Slugify(s)[i] == s[i]
  {
    AlphanumericLowered(s);
    LettersLowered(s[i]);
  }

  /**
   * A character that is no letter, digit or separator, and has no such letter as its lower case, leaves no trace, not
   * even a hyphen.
   */
  lemma OthersVanish(a: string, c: char, b: string)
    requires !IsAlphanumeric(c) && c !in {' ', '_', '-', '\U{212A}', '\U{0130}'}
    ensures Slugify(a + [c] + b) == Slugify(a + b)
  {
    CleanedAppend(a + [c], b);
    CleanedAppend(a, [c]);
    CleanedAppend(a, b);
    CleanedOther(c);
    assert Cleaned(a) + "" == Cleaned(a);
  }

  lemma CleanedOther(c: char)
    requires !Kept(LowerChar(c)) && c != ' ' && c != '_'
    ensures Cleaned([c]) == ""
  {
    var l := LowerChar(c);
    assert ToLower([c]) == [l];
    assert Replace([l], ' ', '-') == [l] && Replace([l], '_', '-') == [l];
    assert [l][1..] == [];
    assert RemoveOthers([l]) == [] + RemoveOthers([]);
  }

  /** The two characters outside ASCII whose lower case is a letter count as that letter. */
  lemma ForeignLetters(a: string, b: string)
    ensures Slugify(a + "\U{212A}" + b) == Slugify(a + "k" + b)
    ensures Slugify(a + "\U{0130}" + b) == Slugify(a + "i" + b)
  {
    SameLower(a, '\U{212A}', 'k', b);
    SameLower(a, '\U{0130}', 'i', b);
  }

  lemma SameLower(a: string, c: char, d: char, b: string)
    requires LowerChar(c) == LowerChar(d)
    ensures Slugify(a + [c] + b) == Slugify(a + [d] + b)
  {
    assert ToLower(a + [c] + b) == ToLower(a + [d] + b);
  }
}
