/** The query template language: text with tokens `?<key>` and `?<key|option>`. */
module Template {
  import opened Wrappers
  import opened Decimal
  import opened SqlValues

  datatype Engine = MySQL | PostgreSQL | SQLite | MSSQL | Oracle | UnknownEngine

  // ---- Lexing -------------------------------------------------------------

  predicate IsWord(c: char) { 'a' <= c <= 'z' || 'A' <= c <= 'Z' || IsDigit(c) || c == '_' }

  predicate IsWords(s: string) { forall i :: 0 <= i < |s| ==> IsWord(s[i]) }

  function LowerChar(c: char): (r: char)
    ensures 'A' <= c <= 'Z' ==> 'a' <= r <= 'z' && r - 'a' == c - 'A'
    ensures !('A' <= c <= 'Z') ==> r == c
  {
    if 'A' <= c <= 'Z' then c + ' ' else c
  }

  /** Letters of either case, digits and the underscore make up keys and options. */
  lemma WordCharacters(c: char)
    ensures IsWord(c) <==> 'a' <= LowerChar(c) <= 'z' || '0' <= c <= '9' || c == '_'
  {
    assert 'A' <= c <= 'Z' ==> c - 'A' <= 'Z' - 'A';
  }

  function Lower(s: string): (r: string)
    ensures |r| == |s| && forall i :: 0 <= i < |s| ==> r[i] == LowerChar(s[i])
  {
    seq(|s|, i requires 0 <= i < |s| => LowerChar(s[i]))
  }

  /** The length of the greedy run of word characters at the front of `s`. */
  function WordRun(s: string): (k: nat)
    ensures k <= |s|
  {
    if s != "" && IsWord(s[0]) then 1 + WordRun(s[1..]) else 0
  }

  lemma {:induction false} WordRunWords(s: string)
    ensures var k := WordRun(s); IsWords(s[..k]) && (k < |s| ==> !IsWord(s[k]))
  {
    if s != "" && IsWord(s[0]) {
      WordRunWords(s[1..]);
      assert s[..WordRun(s)] == [s[0]] + s[1..][..WordRun(s[1..])];
    }
  }

  lemma {:induction false} WordRunIs(w: string, rest: string)
    requires IsWords(w) && (rest == "" || !IsWord(rest[0]))
    ensures WordRun(w + rest) == |w|
  {
    if w == "" {
      assert w + rest == rest;
    } else {
      assert (w + rest)[1..] == w[1..] + rest;
      WordRunIs(w[1..], rest);
    }
  }

  /** The text of a token after its key; no option is the empty option. */
  function TokenEnd(opt: string): string { if opt == "" then ">" else "|" + (opt + ">") }

  function TokenText(key: string, opt: string): string { "?<" + (key + TokenEnd(opt)) }

  predicate IsToken(key: string, opt: string) { key != "" && IsWords(key) && IsWords(opt) }

  /** A token at the front of a text, and its length. */
  datatype Match = Match(length: nat, key: string, opt: string)

  /** What the token expression matches after the key: a closing bracket, or an option and a closing bracket. */
  function MatchEnd(s: string): Option<(nat, string)> {
    if s == "" then None
    else if s[0] == '>' then Some((1, ""))
    else if s[0] == '|' then
      var o := 1 + WordRun(s[1..]);
      if o == 1 || o == |s| || s[o] != '>' then None else Some((o + 1, s[1..o]))
    else None
  }

  /** What the token expression matches at the very front of `s`. */
  function MatchFront(s: string): Option<Match> {
    if |s| < 2 || s[0] != '?' || s[1] != '<' then None
    else
      var k := 2 + WordRun(s[2..]);
      if k == 2 then None
      else match MatchEnd(s[k..])
        case None => None
        case Some((n, opt)) => Some(Match(k + n, s[2..k], opt))
  }

  lemma MatchEndIsEnd(s: string)
    requires MatchEnd(s).Some?
    ensures var (n, opt) := MatchEnd(s).value;
            0 < n <= |s| && IsWords(opt) && s[..n] == TokenEnd(opt)
  {
    var (n, opt) := MatchEnd(s).value;
    if s[0] == '|' {
      WordRunWords(s[1..]);
      assert opt == s[1..][..n - 2];
    }
  }

  lemma TwoCuts(s: string, i: nat, k: nat, n: nat)
    requires i <= k <= n <= |s|
    ensures s[i..][..k - i] == s[i..k] && s[..n] == s[..i] + (s[i..k] + s[k..][..n - k])
  {
  }

  /** Only tokens match, */
  lemma MatchIsToken(s: string)
    requires MatchFront(s).Some?
    ensures var Match(n, key, opt) := MatchFront(s).value;
            IsToken(key, opt) && 0 < n <= |s| && s[..n] == TokenText(key, opt)
  {
    var Match(n, key, opt) := MatchFront(s).value;
    var k := 2 + WordRun(s[2..]);
    WordRunWords(s[2..]);
    MatchEndIsEnd(s[k..]);
    TwoCuts(s, 2, k, n);
    assert s[..2] == "?<";
  }

  lemma EndMatches(opt: string, after: string)
    requires IsWords(opt)
    ensures MatchEnd(TokenEnd(opt) + after) == Some((|TokenEnd(opt)|, opt))
  {
    var s, rest := TokenEnd(opt) + after, ">" + after;
    if opt != "" {
      assert s[1..] == opt + rest;
      WordRunIs(opt, rest);
      assert s[1..1 + |opt|] == opt;
    }
  }

  lemma TokenSlices(key: string, end: string, after: string)
    ensures var s, k := "?<" + (key + end) + after, 2 + |key|;
            s[0] == '?' && s[1] == '<' && s[2..] == key + (end + after) && s[2..k] == key && s[k..] == end + after
  {
  }

  /** and every token matches, whatever comes after it. */
  lemma TokenMatches(key: string, opt: string, after: string)
    requires IsToken(key, opt)
    ensures MatchFront(TokenText(key, opt) + after) == Some(Match(|TokenText(key, opt)|, key, opt))
  {
    var end := TokenEnd(opt);
    TokenSlices(key, end, after);
    WordRunIs(key, end + after);
    EndMatches(opt, after);
  }

  /** A template read as a sequence of literal characters and tokens. */
  datatype Piece = Lit(c: char) | Tok(key: string, opt: string)

  function PieceText(p: Piece): string {
    match p case Lit(c) => [c] case Tok(key, opt) => TokenText(key, opt)
  }

  /** The first piece of a template. */
  function FirstPiece(q: string): Piece
    requires q != ""
  {
    match MatchFront(q) case Some(m) => Tok(m.key, m.opt) case None => Lit(q[0])
  }

  lemma FirstPieceText(q: string)
    requires q != ""
    ensures var text := PieceText(FirstPiece(q)); text != "" && text <= q
  {
    if MatchFront(q).Some? { MatchIsToken(q); }
  }

  /** The pieces of a template: leftmost, non-overlapping tokens and the characters between them. */
  function Lex(q: string): seq<Piece> {
    if q == "" then [] else
    FirstPieceText(q);
    [FirstPiece(q)] + Lex(q[|PieceText(FirstPiece(q))|..])
  }

  function Spelling(pieces: seq<Piece>): string {
    if pieces == [] then "" else PieceText(pieces[0]) + Spelling(pieces[1..])
  }

  lemma SpellingCons(p: Piece, pieces: seq<Piece>)
    ensures Spelling([p] + pieces) == PieceText(p) + Spelling(pieces)
  {
    assert ([p] + pieces)[1..] == pieces;
  }

  lemma LexCons(q: string)
    requires q != ""
    ensures var p := FirstPiece(q);
            PieceText(p) <= q && PieceText(p) != "" && Lex(q) == [p] + Lex(q[|PieceText(p)|..])
  {
    FirstPieceText(q);
  }

  /** Lexing loses nothing: the pieces spell the template. */
  lemma {:induction false} LexSpells(q: string)
    ensures Spelling(Lex(q)) == q
  {
    if q != "" {
      var p := FirstPiece(q);
      LexCons(q);
      var rest := q[|PieceText(p)|..];
      LexSpells(rest);
      SpellingCons(p, Lex(rest));
    }
  }

  // ---- Meaning ------------------------------------------------------------

  const UNQUOTED_KEY := "unquoted"

  /** A token is usable when its option, if any, is `unquoted` and its key is a variable. */
  predicate Known(p: Piece, vars: map<string, Value>) {
    p.Tok? ==> Lower(p.opt) in {"", UNQUOTED_KEY} && Lower(p.key) in vars
  }

  predicate AllKnown(pieces: seq<Piece>, vars: map<string, Value>) {
    forall i :: 0 <= i < |pieces| ==> Known(pieces[i], vars)
  }

  /** What is wrong with a token; its option is looked at first. */
  function PieceErrors(p: Piece, vars: map<string, Value>): seq<Error> {
    if p.Lit? then []
    else if Lower(p.opt) !in {"", UNQUOTED_KEY} then [UnknownOption]
    else if Lower(p.key) !in vars then [UnknownToken]
    else []
  }

  function Errors(pieces: seq<Piece>, vars: map<string, Value>): seq<Error> {
    if pieces == [] then []
    else Errors(pieces[..|pieces| - 1], vars) + PieceErrors(pieces[|pieces| - 1], vars)
  }

  lemma LastKnown(before: seq<Piece>, last: Piece, pieces: seq<Piece>, vars: map<string, Value>)
    requires pieces == before + [last]
    ensures AllKnown(pieces, vars) <==> AllKnown(before, vars) && Known(last, vars)
  {
    assert pieces[|before|] == last;
    assert forall i :: 0 <= i < |before| ==> pieces[i] == before[i];
  }

  lemma {:induction false} NoErrors(pieces: seq<Piece>, vars: map<string, Value>)
    ensures Errors(pieces, vars) == [] <==> AllKnown(pieces, vars)
  {
    if pieces != [] {
      var before, last := pieces[..|pieces| - 1], pieces[|pieces| - 1];
      NoErrors(before, vars);
      LastKnown(before, last, pieces, vars);
      assert PieceErrors(last, vars) == [] <==> Known(last, vars);
    }
  }

  /** An instantiated statement: characters of SQL text and values bound into it. */
  datatype Item = Ch(c: char) | Val(v: Value)

  function Chars(s: string): (r: seq<Item>)
    ensures |r| == |s| && forall i :: 0 <= i < |s| ==> r[i] == Ch(s[i])
  {
    seq(|s|, i requires 0 <= i < |s| => Ch(s[i]))
  }

  /** Direct substitution: the value of a token, or its text when unquoted, stands where the token stood. */
  function Substitute(p: Piece, vars: map<string, Value>): seq<Item>
    requires Known(p, vars)
  {
    match p
    case Lit(c) => [Ch(c)]
    case Tok(key, opt) => if opt == "" then [Val(vars[Lower(key)])] else Chars(Show(vars[Lower(key)]))
  }

  function Meaning(pieces: seq<Piece>, vars: map<string, Value>): seq<Item>
    requires AllKnown(pieces, vars)
  {
    if pieces == [] then [] else Substitute(pieces[0], vars) + Meaning(pieces[1..], vars)
  }

  // ---- What is sent to the database ---------------------------------------

  /** `getNextPlaceholder`, for the n-th argument. */
  function Placeholder(engine: Engine, n: nat): string {
    match engine
    case PostgreSQL => "$" + Digits(n)
    case MSSQL => "@p" + Digits(n)
    case Oracle => ":" + Digits(n)
    case _ => "?"
  }

  function ItemValues(item: Item): seq<Value> { if item.Val? then [item.v] else [] }

  function ItemText(engine: Engine, item: Item, n: nat): string {
    if item.Ch? then [item.c] else Placeholder(engine, n + 1)
  }

  function Values(items: seq<Item>): seq<Value> {
    if items == [] then [] else ItemValues(items[0]) + Values(items[1..])
  }

  /** The statement text in which every value is a placeholder, numbered from `n + 1`. */
  function Render(engine: Engine, items: seq<Item>, n: nat): string {
    if items == [] then ""
    else ItemText(engine, items[0], n) + Render(engine, items[1..], n + |ItemValues(items[0])|)
  }

  datatype Statement = Statement(text: string, args: seq<Value>)

  function Compile(engine: Engine, items: seq<Item>): Statement {
    Statement(Render(engine, items, 0), Values(items))
  }

  /** The statement a template stands for under `vars`, or everything that is wrong with it. */
  function Rewrite(engine: Engine, query: string, vars: map<string, Value>): Result<Statement, Error> {
    var pieces := Lex(query);
    if AllKnown(pieces, vars) then Ok(Compile(engine, Meaning(pieces, vars)))
    else Err(BadTemplate(Errors(pieces, vars)))
  }

  lemma Associative<T>(a: seq<T>, b: seq<T>, c: seq<T>)
    ensures a + (b + c) == a + b + c
  {
  }

  lemma FrontOfAppend<T>(a: seq<T>, b: seq<T>)
    requires a != []
    ensures (a + b)[0] == a[0] && (a + b)[1..] == a[1..] + b
  {
  }

  lemma KnownAppend(a: seq<Piece>, b: seq<Piece>, vars: map<string, Value>)
    requires AllKnown(a, vars) && AllKnown(b, vars)
    ensures AllKnown(a + b, vars)
  {
    forall i | 0 <= i < |a + b| ensures Known((a + b)[i], vars) {
      assert if i < |a| then (a + b)[i] == a[i] else (a + b)[i] == b[i - |a|];
    }
  }

  lemma MeaningFront(pieces: seq<Piece>, front: Piece, rest: seq<Piece>, vars: map<string, Value>)
    requires AllKnown(pieces, vars) && pieces != [] && pieces[0] == front && pieces[1..] == rest
    ensures Known(front, vars) && AllKnown(rest, vars)
    ensures Meaning(pieces, vars) == Substitute(front, vars) + Meaning(rest, vars)
  {
  }

  lemma {:induction false} MeaningAppend(a: seq<Piece>, b: seq<Piece>, vars: map<string, Value>)
    requires AllKnown(a, vars) && AllKnown(b, vars)
    ensures AllKnown(a + b, vars) && Meaning(a + b, vars) == Meaning(a, vars) + Meaning(b, vars)
  {
    KnownAppend(a, b, vars);
    if a == [] {
      assert a + b == b;
    } else {
      var p, rest := a[0], a[1..];
      FrontOfAppend(a, b);
      MeaningFront(a, p, rest, vars);
      MeaningAppend(rest, b, vars);
      MeaningFront(a + b, p, rest + b, vars);
      Associative(Substitute(p, vars), Meaning(rest, vars), Meaning(b, vars));
    }
  }

  lemma {:induction false} ValuesAppend(a: seq<Item>, b: seq<Item>)
    ensures Values(a + b) == Values(a) + Values(b)
  {
    if a == [] {
      assert a + b == b;
    } else {
      FrontOfAppend(a, b);
      ValuesAppend(a[1..], b);
      Associative(ItemValues(a[0]), Values(a[1..]), Values(b));
    }
  }

  lemma RenderItem(engine: Engine, items: seq<Item>, front: Item, rest: seq<Item>, n: nat)
    requires items != [] && items[0] == front && items[1..] == rest
    ensures |Values(items)| == |ItemValues(front)| + |Values(rest)|
    ensures Render(engine, items, n) == ItemText(engine, front, n) + Render(engine, rest, n + |ItemValues(front)|)
  {
  }

  lemma RenderNone(engine: Engine, b: seq<Item>, n: nat)
    ensures Values([]) == [] && Render(engine, [] + b, n) == Render(engine, [], n) + Render(engine, b, n)
  {
    assert [] + b == b;
    assert Render(engine, [], n) == "";
  }

  lemma {:induction false} RenderAppend(engine: Engine, a: seq<Item>, b: seq<Item>, n: nat, m: nat)
    requires m == n + |Values(a)|
    ensures Render(engine, a + b, n) == Render(engine, a, n) + Render(engine, b, m)
  {
    if a == [] {
      RenderNone(engine, b, n);
    } else {
      var front, rest := a[0], a[1..];
      var text, k := ItemText(engine, front, n), n + |ItemValues(front)|;
      FrontOfAppend(a, b);
      RenderItem(engine, a, front, rest, n);
      RenderItem(engine, a + b, front, rest + b, n);
      RenderAppend(engine, rest, b, k, m);
      Associative(text, Render(engine, rest, k), Render(engine, b, m));
    }
  }

  lemma {:induction false} RenderChars(engine: Engine, s: string, n: nat)
    ensures Values(Chars(s)) == [] && Render(engine, Chars(s), n) == s
  {
    if s != "" {
      RenderChars(engine, s[1..], n);
      assert Chars(s)[1..] == Chars(s[1..]);
    }
  }
}
