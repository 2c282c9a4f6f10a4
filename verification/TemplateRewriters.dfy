/** The two rewriters: `parseQueryOpts` for paged queries and `prepareProvisioningQuery` for provisioning. */
module TemplateRewriters {
  import opened Wrappers
  import opened Listings
  import opened Decimal
  import opened Template
  import opened SqlValues

  datatype TokenOpts = TokenOpts(key: string, unquoted: bool)

  // ---- parseToken ---------------------------------------------------------

  /** The leftmost match of the token expression in `s`. */
  function FirstMatch(s: string): Option<Match> {
    if s == "" || MatchFront(s).Some? then MatchFront(s) else FirstMatch(s[1..])
  }

  function OptsOf(key: string, opt: string): Result<TokenOpts, Error> {
    if Lower(opt) == "" then Ok(TokenOpts(Lower(key), false))
    else if Lower(opt) == UNQUOTED_KEY then Ok(TokenOpts(Lower(key), true))
    else Err(UnknownOption)
  }

  /** `strings.Split(s, ",")`, the part of `s` before position `i` being the start of the current field. */
  function SplitCommas(s: string, i: nat := 0): seq<string>
    requires i <= |s|
    decreases |s| - i
  {
    if i == |s| then [s]
    else if s[i] == ',' then [s[..i]] + SplitCommas(s[i + 1..])
    else SplitCommas(s, i + 1)
  }

  predicate IsSpace(c: char) { c == ' ' || '\t' <= c <= '\r' }

  function TrimSpace(s: string): string {
    if s != "" && IsSpace(s[0]) then TrimSpace(s[1..])
    else if s != "" && IsSpace(s[|s| - 1]) then TrimSpace(s[..|s| - 1])
    else s
  }

  lemma {:induction false} NoCommas(s: string, i: nat)
    requires i <= |s| && IsWords(s)
    ensures SplitCommas(s, i) == [s]
    decreases |s| - i
  {
    if i < |s| { NoCommas(s, i + 1); }
  }

  lemma LowerWords(s: string)
    requires IsWords(s)
    ensures IsWords(Lower(s)) && Lower(Lower(s)) == Lower(s) && TrimSpace(Lower(s)) == Lower(s)
  {
    assert s != "" ==> IsWord(Lower(s)[0]) && IsWord(Lower(s)[|s| - 1]);
  }

  method ParseToken(token: string) returns (r: Result<TokenOpts, Error>)
    ensures FirstMatch(token).None? ==> r == Err(InvalidToken)
    ensures FirstMatch(token).Some? ==> r == OptsOf(FirstMatch(token).value.key, FirstMatch(token).value.opt)
  {
    var found := FirstMatch(token);
    if found.None? {
      return Err(InvalidToken);
    }
    FirstMatchIsToken(token);
    var Match(_, k, o) := found.value;
    var opts := TokenOpts(Lower(k), false);
    var optStr := Lower(o);
    if optStr == "" {
      return Ok(opts);
    }
    LowerWords(o);
    NoCommas(optStr, 0);
    var parts := SplitCommas(optStr);
    for n := 0 to |parts|
      invariant parts == [optStr] && opts == TokenOpts(Lower(k), n == 1)
      invariant n == 1 ==> optStr == UNQUOTED_KEY
    {
      var opt := TrimSpace(Lower(parts[n]));
      if opt == UNQUOTED_KEY {
        opts := opts.(unquoted := true);
      } else {
        return Err(UnknownOption);
      }
    }
    return Ok(opts);
  }

  lemma {:induction false} FirstMatchIsToken(s: string)
    requires FirstMatch(s).Some?
    ensures IsToken(FirstMatch(s).value.key, FirstMatch(s).value.opt)
  {
    if MatchFront(s).Some? { MatchIsToken(s); } else { FirstMatchIsToken(s[1..]); }
  }

  /** The text of a token parses as that token. */
  lemma TokenParses(key: string, opt: string)
    requires IsToken(key, opt)
    ensures FirstMatch(TokenText(key, opt)) == Some(Match(|TokenText(key, opt)|, key, opt))
  {
    TokenMatches(key, opt, "");
    assert TokenText(key, opt) + "" == TokenText(key, opt);
  }

  lemma TokenThen(key: string, opt: string, rest: string)
    requires IsToken(key, opt)
    ensures Lex(TokenText(key, opt) + rest) == [Tok(key, opt)] + Lex(rest)
  {
    var token := TokenText(key, opt);
    TokenMatches(key, opt, rest);
    LexCons(token + rest);
    assert (token + rest)[|token|..] == rest;
  }

  lemma TokenSpelling(key: string, opt: string)
    ensures TokenText(key, opt) == if opt == "" then "?<" + key + ">" else "?<" + key + "|" + opt + ">"
  {
    var s := TokenText(key, opt);
    if opt == "" {
      Associative("?<", key, ">");
    } else {
      Associative("?<", key, "|" + (opt + ">"));
      Associative("?<" + key, "|", opt + ">");
      Associative("?<" + key + "|", opt, ">");
    }
  }

  /** A token at the front of a query, spelled out, */
  lemma TokenFirst(key: string, opt: string, rest: string)
    requires IsToken(key, opt)
    ensures opt == "" ==> Lex("?<" + key + ">" + rest) == [Tok(key, "")] + Lex(rest)
    ensures opt != "" ==> Lex("?<" + key + "|" + opt + ">" + rest) == [Tok(key, opt)] + Lex(rest)
  {
    TokenThen(key, opt, rest);
    TokenSpelling(key, opt);
  }

  lemma LiteralFirst(q: string)
    requires q != "" && FirstPiece(q).Lit?
    ensures Lex(q) == [Lit(q[0])] + Lex(q[1..])
  {
    LexCons(q);
    assert |PieceText(FirstPiece(q))| == 1;
  }

  function Lits(text: string): (r: seq<Piece>)
    ensures |r| == |text| && forall i :: 0 <= i < |text| ==> r[i] == Lit(text[i])
  {
    seq(|text|, i requires 0 <= i < |text| => Lit(text[i]))
  }

  lemma LitsCons(text: string)
    requires text != ""
    ensures Lits(text) == [Lit(text[0])] + Lits(text[1..])
  {
  }

  /** and text before any question mark: every query of such texts and tokens is read as just these. */
  lemma {:induction false} TextFirst(text: string, rest: string)
    requires '?' !in text
    ensures Lex(text + rest) == Lits(text) + Lex(rest)
  {
    if text == "" {
      assert text + rest == rest && Lits(text) == [] && [] + Lex(rest) == Lex(rest);
    } else {
      FrontOfAppend(text, rest);
      assert text[0] in text;
      LiteralFirst(text + rest);
      TextFirst(text[1..], rest);
      LitsCons(text);
      Associative([Lit(text[0])], Lits(text[1..]), Lex(rest));
    }
  }

  lemma TokenAlone(key: string, opt: string)
    requires IsToken(key, opt)
    ensures Lex(TokenText(key, opt)) == [Tok(key, opt)]
  {
    TokenThen(key, opt, "");
    assert TokenText(key, opt) + "" == TokenText(key, opt);
  }

  // ---- prepareProvisioningQuery -------------------------------------------

  /** The argument a piece adds, if any. */
  function PieceArgs(p: Piece, vars: map<string, Value>): seq<Value>
    requires Known(p, vars)
  {
    if p.Tok? && p.opt == "" then [vars[Lower(p.key)]] else []
  }

  /** The text a piece adds after `n` arguments. */
  function PieceAdds(engine: Engine, p: Piece, vars: map<string, Value>, n: nat): string
    requires Known(p, vars)
  {
    if p.Lit? then [p.c] else if p.opt == "" then Placeholder(engine, n + 1) else Show(vars[Lower(p.key)])
  }

  lemma SubstituteCompiles(engine: Engine, p: Piece, vars: map<string, Value>, n: nat)
    requires Known(p, vars)
    ensures Values(Substitute(p, vars)) == PieceArgs(p, vars)
    ensures Render(engine, Substitute(p, vars), n) == PieceAdds(engine, p, vars, n)
  {
    if p.Tok? && p.opt != "" {
      RenderChars(engine, Show(vars[Lower(p.key)]), n);
    } else {
      assert Substitute(p, vars)[1..] == [];
    }
  }

  /** A token with no option or the option `unquoted`, and the name of a variable. */
  predicate IsPlain(p: Piece, vars: map<string, Value>) {
    p.Tok? ==> (p.opt == "" || Lower(p.opt) == "unquoted") && Lower(p.key) in vars
  }

  predicate AllPlain(pieces: seq<Piece>, vars: map<string, Value>) {
    forall i :: 0 <= i < |pieces| ==> IsPlain(pieces[i], vars)
  }

  /** What stands in the statement for a piece, after `n` arguments. */
  function Written(engine: Engine, p: Piece, vars: map<string, Value>, n: nat): string
    requires IsPlain(p, vars)
  {
    match p
    case Lit(c) => [c]
    case Tok(key, opt) =>
      if opt == "" then
        match engine
        case PostgreSQL => "$" + Itoa(n + 1)
        case MSSQL => "@p" + Itoa(n + 1)
        case Oracle => ":" + Itoa(n + 1)
        case MySQL => "?"
        case SQLite => "?"
        case UnknownEngine => "?"
      else
        match vars[Lower(key)]
        case Null => "<nil>"
        case Text(t) => t
        case Bytes(_) => Show(vars[Lower(key)])
        case Int(n) => Itoa(n)
        case Other(shown) => shown
  }

  /** The template with every token replaced where it stands, in one pass. */
  function Spliced(engine: Engine, pieces: seq<Piece>, vars: map<string, Value>, n: nat): string
    requires AllPlain(pieces, vars)
  {
    if pieces == [] then ""
    else Written(engine, pieces[0], vars, n)
         + Spliced(engine, pieces[1..], vars, if pieces[0].Tok? && pieces[0].opt == "" then n + 1 else n)
  }

  /** The values of the quoted tokens, in order. */
  function Bound(pieces: seq<Piece>, vars: map<string, Value>): seq<Value>
    requires AllPlain(pieces, vars)
  {
    if pieces == [] then []
    else (if pieces[0].Tok? && pieces[0].opt == "" then [vars[Lower(pieces[0].key)]] else []) + Bound(pieces[1..], vars)
  }

  lemma PlainPiece(engine: Engine, p: Piece, vars: map<string, Value>, n: nat)
    ensures IsPlain(p, vars) <==> Known(p, vars)
    ensures Known(p, vars) ==> PieceAdds(engine, p, vars, n) == Written(engine, p, vars, n)
  {
    assert p.Tok? ==> |Lower(p.opt)| == |p.opt|;
  }

  lemma PlainPieces(pieces: seq<Piece>, vars: map<string, Value>)
    ensures AllPlain(pieces, vars) <==> AllKnown(pieces, vars)
  {
    forall i | 0 <= i < |pieces| ensures IsPlain(pieces[i], vars) <==> Known(pieces[i], vars) {
      PlainPiece(SQLite, pieces[i], vars, 0);
    }
  }

  lemma ItemsFront(engine: Engine, items: seq<Item>, rest: seq<Item>, n: nat, text: string, args: seq<Value>)
    requires Render(engine, items, n) == text && Values(items) == args
    ensures Render(engine, items + rest, n) == text + Render(engine, rest, n + |args|)
    ensures Values(items + rest) == args + Values(rest)
  {
    RenderAppend(engine, items, rest, n, n + |args|);
    ValuesAppend(items, rest);
  }

  lemma SplicedFront(engine: Engine, p: Piece, vars: map<string, Value>, n: nat, rest: seq<Item>)
    requires IsPlain(p, vars) && Known(p, vars)
    ensures var m := if p.Tok? && p.opt == "" then n + 1 else n;
            Render(engine, Substitute(p, vars) + rest, n) == Written(engine, p, vars, n) + Render(engine, rest, m)
    ensures Values(Substitute(p, vars) + rest) ==
            (if p.Tok? && p.opt == "" then [vars[Lower(p.key)]] else []) + Values(rest)
  {
    PlainPiece(engine, p, vars, n);
    SubstituteCompiles(engine, p, vars, n);
    ItemsFront(engine, Substitute(p, vars), rest, n, Written(engine, p, vars, n), PieceArgs(p, vars));
  }

  /** The statement is the template with its tokens replaced, and its arguments are the quoted values. */
  lemma {:induction false} SplicedCompiles(engine: Engine, pieces: seq<Piece>, vars: map<string, Value>, n: nat)
    requires AllPlain(pieces, vars) && AllKnown(pieces, vars)
    ensures Render(engine, Meaning(pieces, vars), n) == Spliced(engine, pieces, vars, n)
    ensures Values(Meaning(pieces, vars)) == Bound(pieces, vars)
  {
    if pieces != [] {
      var p, rest := pieces[0], pieces[1..];
      SplicedCompiles(engine, rest, vars, if p.Tok? && p.opt == "" then n + 1 else n);
      SplicedFront(engine, p, vars, n, Meaning(rest, vars));
    }
  }

  /** What is wrong with the pieces, by their index. */
  function Wrong(pieces: seq<Piece>, vars: map<string, Value>): int -> Result<Option<Error>, Error> {
    i =>
      if 0 <= i < |pieces| && pieces[i].Tok? then
        if pieces[i].opt != "" && Lower(pieces[i].opt) != "unquoted" then Ok(Some(UnknownOption))
        else if Lower(pieces[i].key) !in vars then Ok(Some(UnknownToken))
        else Ok(None)
      else Ok(None)
  }

  lemma ErrorsAppend(done: seq<Piece>, p: Piece, vars: map<string, Value>)
    ensures Errors(done + [p], vars) == Errors(done, vars) + PieceErrors(p, vars)
    ensures AllKnown(done + [p], vars) <==> AllKnown(done, vars) && Known(p, vars)
  {
    var more := done + [p];
    assert more[..|more| - 1] == done && more[|more| - 1] == p;
    assert forall i :: 0 <= i < |done| ==> more[i] == done[i];
  }

  lemma WrongPiece(pieces: seq<Piece>, vars: map<string, Value>, i: nat)
    requires i < |pieces|
    ensures Single(Wrong(pieces, vars)(i)) == Ok(PieceErrors(pieces[i], vars))
  {
    var p := pieces[i];
    if p.Tok? { assert |Lower(p.opt)| == |p.opt| && UNQUOTED_KEY == "unquoted"; }
  }

  lemma {:induction false} FirstErrors(pieces: seq<Piece>, vars: map<string, Value>, n: nat, errs: seq<Error>)
    requires n <= |pieces| && errs == Errors(pieces[..n], vars)
    ensures Yields(Below(n), Less(), Wrong(pieces, vars), Ok(errs))
  {
    var wrong := Wrong(pieces, vars);
    if n == 0 {
      YieldsNothing(Below(n), Less(), wrong);
    } else {
      var before, p := pieces[..n - 1], pieces[n - 1];
      var first := Errors(before, vars);
      FirstErrors(pieces, vars, n - 1, first);
      WrongPiece(pieces, vars, n - 1);
      ErrorsAppend(before, p, vars);
      assert before + [p] == pieces[..n];
      YieldsNext(wrong, n - 1, first, PieceErrors(p, vars));
    }
  }

  /** The errors are what is wrong with each token that cannot be replaced, each once and in their order. */
  lemma ErrorsListed(pieces: seq<Piece>, vars: map<string, Value>)
    ensures Yields(Below(|pieces|), Less(), Wrong(pieces, vars), Ok(Errors(pieces, vars)))
  {
    assert pieces[..|pieces|] == pieces;
    FirstErrors(pieces, vars, |pieces|, Errors(pieces, vars));
  }

  /** A good template with its tokens replaced, or everything that is wrong with a bad one. */
  ghost predicate IsRewritten(engine: Engine, query: string, vars: map<string, Value>, r: Result<Statement, Error>) {
    var pieces := Lex(query);
    if AllPlain(pieces, vars) then r == Ok(Statement(Spliced(engine, pieces, vars, 0), Bound(pieces, vars)))
    else r.Err? && r.error.BadTemplate? && r.error.errors != []
         && Yields(Below(|pieces|), Less(), Wrong(pieces, vars), Ok(r.error.errors))
  }

  lemma RewriteIs(engine: Engine, query: string, vars: map<string, Value>)
    ensures IsRewritten(engine, query, vars, Rewrite(engine, query, vars))
  {
    var pieces := Lex(query);
    PlainPieces(pieces, vars);
    NoErrors(pieces, vars);
    if AllPlain(pieces, vars) {
      SplicedCompiles(engine, pieces, vars, 0);
    } else {
      ErrorsListed(pieces, vars);
    }
  }

  /** The loop state of a rewriter after the pieces `done`: the errors, or else the statement so far. */
  ghost predicate Rewritten(engine: Engine, done: seq<Piece>, vars: map<string, Value>,
                            errs: seq<Error>, text: string, args: seq<Value>)
  {
    errs == Errors(done, vars)
    && (AllKnown(done, vars) ==> Statement(text, args) == Compile(engine, Meaning(done, vars)))
  }

  /** A good piece adds its text and its argument. */
  lemma GoodPieceAdds(engine: Engine, done: seq<Piece>, vars: map<string, Value>, text: string, args: seq<Value>,
                      p: Piece)
    requires AllKnown(done, vars) && Known(p, vars) && Statement(text, args) == Compile(engine, Meaning(done, vars))
    ensures AllKnown(done + [p], vars)
    ensures Compile(engine, Meaning(done + [p], vars)) ==
            Statement(text + PieceAdds(engine, p, vars, |args|), args + PieceArgs(p, vars))
  {
    ErrorsAppend(done, p, vars);
    MeaningAppend(done, [p], vars);
    SinglePiece(p, vars);
    CompileAppend(engine, Meaning(done, vars), Substitute(p, vars));
    SubstituteCompiles(engine, p, vars, |args|);
  }

  lemma CompileAppend(engine: Engine, a: seq<Item>, b: seq<Item>)
    ensures var s := Compile(engine, a);
            Compile(engine, a + b) == Statement(s.text + Render(engine, b, |s.args|), s.args + Values(b))
  {
    ValuesAppend(a, b);
    RenderAppend(engine, a, b, 0, |Values(a)|);
  }

  lemma SinglePiece(p: Piece, vars: map<string, Value>)
    requires Known(p, vars)
    ensures AllKnown([p], vars) && Meaning([p], vars) == Substitute(p, vars)
  {
    assert [p][1..] == [];
    assert Substitute(p, vars) + [] == Substitute(p, vars);
  }

  /** A piece that is replaced as it should be keeps the loop state right. */
  lemma PieceDone(engine: Engine, done: seq<Piece>, vars: map<string, Value>, errs: seq<Error>, text: string,
                  args: seq<Value>, p: Piece, added: string, args': seq<Value>)
    requires Rewritten(engine, done, vars, errs, text, args)
    requires Known(p, vars) ==> args' == args + PieceArgs(p, vars) && added == PieceAdds(engine, p, vars, |args|)
    ensures Rewritten(engine, done + [p], vars, errs + PieceErrors(p, vars), text + added, args')
  {
    ErrorsAppend(done, p, vars);
    if AllKnown(done + [p], vars) { GoodPieceAdds(engine, done, vars, text, args, p); }
  }

  lemma LexStep(query: string, done: seq<Piece>, rest: string)
    requires Lex(query) == done + Lex(rest) && rest != ""
    ensures var n := |PieceText(FirstPiece(rest))|;
            0 < n <= |rest| && Lex(query) == done + [FirstPiece(rest)] + Lex(rest[n..])
  {
    FirstPieceText(rest);
  }

  /** What parsing a token tells about it. */
  lemma OptsDecide(key: string, opt: string, vars: map<string, Value>)
    ensures var p := Tok(key, opt);
            match OptsOf(key, opt)
            case Err(e) => !Known(p, vars) && PieceErrors(p, vars) == [e]
            case Ok(opts) =>
              opts.key == Lower(key) && (opts.unquoted <==> opt != "") && (Known(p, vars) <==> Lower(key) in vars)
              && PieceErrors(p, vars) == if Lower(key) in vars then [] else [UnknownToken]
  {
    assert |Lower(opt)| == |opt|;
  }

  /** The replacement function: what stands for one token, with the errors and arguments collected so far. */
  method ReplaceToken(engine: Engine, token: string, vars: map<string, Value>, errs: seq<Error>, args: seq<Value>,
                      ghost key: string, ghost opt: string)
    returns (text: string, parseErr: seq<Error>, qArgs: seq<Value>)
    requires IsToken(key, opt) && token == TokenText(key, opt)
    ensures parseErr == errs + PieceErrors(Tok(key, opt), vars)
    ensures Known(Tok(key, opt), vars) ==>
              qArgs == args + PieceArgs(Tok(key, opt), vars)
              && text == PieceAdds(engine, Tok(key, opt), vars, |args|)
    ensures !Known(Tok(key, opt), vars) ==> qArgs == args && text == token
  {
    TokenParses(key, opt);
    OptsDecide(key, opt, vars);
    parseErr, qArgs := errs, args;
    var opts := ParseToken(token);
    if opts.Err? {
      return token, errs + [opts.error], args;
    }
    if opts.value.key !in vars {
      return token, errs + [UnknownToken], args;
    }
    var v := vars[opts.value.key];
    if opts.value.unquoted {
      return Show(v), errs, args;
    }
    qArgs := qArgs + [v];
    text := Placeholder(engine, |qArgs|);
  }

  method PrepareProvisioningQuery(engine: Engine, query: string, vars: map<string, Value>)
    returns (r: Result<Statement, Error>)
    ensures r == Rewrite(engine, query, vars)
    ensures IsRewritten(engine, query, vars, r)
  {
    var qArgs: seq<Value> := [];
    var parseErr: seq<Error> := [];
    var updated := "";
    var rest := query;
    ghost var done: seq<Piece> := [];
    while rest != ""
      invariant Lex(query) == done + Lex(rest)
      invariant Rewritten(engine, done, vars, parseErr, updated, qArgs)
      decreases |rest|
    {
      ghost var p, errs, args := FirstPiece(rest), parseErr, qArgs;
      LexStep(query, done, rest);
      var m := MatchFront(rest);
      var n, text := 1, [rest[0]];
      if m.Some? {
        MatchIsToken(rest);
        n := m.value.length;
        text, parseErr, qArgs := ReplaceToken(engine, rest[..n], vars, parseErr, qArgs, m.value.key, m.value.opt);
      }
      PieceDone(engine, done, vars, errs, updated, args, p, text, qArgs);
      updated := updated + text;
      rest := rest[n..];
      done := done + [p];
    }
    assert done + [] == done;
    NoErrors(done, vars);
    RewriteIs(engine, query, vars);
    if parseErr != [] {
      return Err(BadTemplate(parseErr));
    }
    return Ok(Statement(updated, qArgs));
  }

  // ---- parseQueryOpts -----------------------------------------------------

  const OFFSET_KEY := "offset"
  const CURSOR_KEY := "cursor"
  const LIMIT_KEY := "limit"

  lemma KeysDiffer()
    ensures LIMIT_KEY != OFFSET_KEY && LIMIT_KEY != CURSOR_KEY && OFFSET_KEY != CURSOR_KEY
  {
    assert |LIMIT_KEY| == 5 && |OFFSET_KEY| == 6 && |CURSOR_KEY| == 6 && OFFSET_KEY[0] != CURSOR_KEY[0];
  }

  /** The strategy named in a configuration: "offset", "cursor", or a name that is neither. */
  datatype Strategy = OffsetStrategy | CursorStrategy | OtherStrategy(name: string)

  datatype PageCtx = PageCtx(strategy: Strategy, limit: int, offset: int, cursor: string, primaryKey: string)

  /** The position of a page as variables; one row more than the page is asked for. */
  function PageVars(ctx: PageCtx): map<string, Value> {
    map[LIMIT_KEY := Int(ctx.limit + 1), OFFSET_KEY := Int(ctx.offset), CURSOR_KEY := Text(ctx.cursor)]
  }

  /** The value of a pagination key. */
  method PageValue(ctx: PageCtx, key: string) returns (v: Option<Value>)
    ensures v == if key in PageVars(ctx) then Some(PageVars(ctx)[key]) else None
  {
    KeysDiffer();
    if key == LIMIT_KEY {
      return Some(Int(ctx.limit + 1));
    } else if key == OFFSET_KEY {
      return Some(Int(ctx.offset));
    } else if key == CURSOR_KEY {
      return Some(Text(ctx.cursor));
    }
    return None;
  }

  predicate HasToken(pieces: seq<Piece>) { exists i :: 0 <= i < |pieces| && pieces[i].Tok? }

  lemma HasTokenAppend(done: seq<Piece>, p: Piece)
    ensures HasToken(done + [p]) <==> HasToken(done) || p.Tok?
  {
    var more := done + [p];
    assert more[|done|] == p;
    assert forall i :: 0 <= i < |done| ==> more[i] == done[i];
  }

  /** The replacement function of `parseQueryOpts`. */
  method ReplacePageToken(engine: Engine, token: string, ctx: PageCtx, errs: seq<Error>, args: seq<Value>,
                          used: bool, ghost key: string, ghost opt: string)
    returns (text: string, parseErr: seq<Error>, qArgs: seq<Value>, optSet: bool)
    requires IsToken(key, opt) && token == TokenText(key, opt)
    ensures parseErr == errs + PieceErrors(Tok(key, opt), PageVars(ctx))
    ensures Known(Tok(key, opt), PageVars(ctx)) ==>
              qArgs == args + PieceArgs(Tok(key, opt), PageVars(ctx)) && optSet
              && text == PieceAdds(engine, Tok(key, opt), PageVars(ctx), |args|)
    ensures !Known(Tok(key, opt), PageVars(ctx)) ==> qArgs == args && text == token && optSet == used
  {
    TokenParses(key, opt);
    OptsDecide(key, opt, PageVars(ctx));
    parseErr, qArgs, optSet := errs, args, used;
    var opts := ParseToken(token);
    if opts.Err? {
      return token, errs + [opts.error], args, used;
    }
    var v := PageValue(ctx, opts.value.key);
    if v.None? {
      return token, errs + [UnknownToken], args, used;
    }
    optSet := true;
    if opts.value.unquoted {
      return Show(v.value), errs, args, optSet;
    }
    qArgs := qArgs + [v.value];
    text := Placeholder(engine, |qArgs|);
  }

  /** The statement for a page of a query, and whether it depends on the page; without a page nothing is rewritten. */
  function PagedStatement(engine: Engine, page: Option<PageCtx>, query: string): Result<(Statement, bool), Error> {
    if page.None? then Ok((Statement(query, []), false))
    else match Rewrite(engine, query, PageVars(page.value))
      case Ok(s) => Ok((s, HasToken(Lex(query))))
      case Err(e) => Err(e)
  }

  /** The variables of a page, one by one. */
  lemma PageVarsAre(ctx: PageCtx)
    ensures PageVars(ctx) ==
            map["limit" := Int(ctx.limit + 1), "offset" := Int(ctx.offset), "cursor" := Text(ctx.cursor)]
  {
  }

  method ParseQueryOpts(engine: Engine, page: Option<PageCtx>, query: string)
    returns (r: Result<(Statement, bool), Error>)
    ensures r == PagedStatement(engine, page, query)
    ensures page.Some? ==>
              IsRewritten(engine, query, PageVars(page.value), if r.Ok? then Ok(r.value.0) else Err(r.error))
    ensures r.Ok? ==> (r.value.1 <==> page.Some? && exists i :: 0 <= i < |Lex(query)| && Lex(query)[i].Tok?)
  {
    if page.None? {
      return Ok((Statement(query, []), false));
    }
    var ctx := page.value;
    var qArgs: seq<Value> := [];
    var parseErr: seq<Error> := [];
    var paginationOptSet := false;
    var updated := "";
    var rest := query;
    ghost var done: seq<Piece> := [];
    while rest != ""
      invariant Lex(query) == done + Lex(rest)
      invariant Rewritten(engine, done, PageVars(ctx), parseErr, updated, qArgs)
      invariant AllKnown(done, PageVars(ctx)) ==> paginationOptSet == HasToken(done)
      decreases |rest|
    {
      ghost var p, errs, args := FirstPiece(rest), parseErr, qArgs;
      LexStep(query, done, rest);
      var m := MatchFront(rest);
      var n, text := 1, [rest[0]];
      if m.Some? {
        MatchIsToken(rest);
        n := m.value.length;
        text, parseErr, qArgs, paginationOptSet :=
          ReplacePageToken(engine, rest[..n], ctx, parseErr, qArgs, paginationOptSet, m.value.key, m.value.opt);
      }
      PieceDone(engine, done, PageVars(ctx), errs, updated, args, p, text, qArgs);
      HasTokenAppend(done, p);
      ErrorsAppend(done, p, PageVars(ctx));
      updated := updated + text;
      rest := rest[n..];
      done := done + [p];
    }
    assert done + [] == done;
    NoErrors(done, PageVars(ctx));
    RewriteIs(engine, query, PageVars(ctx));
    if parseErr != [] {
      return Err(BadTemplate(parseErr));
    }
    return Ok((Statement(updated, qArgs), paginationOptSet));
  }

  lemma OneSpliced(engine: Engine, p: Piece, vars: map<string, Value>)
    requires IsPlain(p, vars)
    ensures AllPlain([p], vars) && Spliced(engine, [p], vars, 0) == Written(engine, p, vars, 0)
    ensures Bound([p], vars) == if p.Tok? && p.opt == "" then [vars[Lower(p.key)]] else []
  {
    var rest := [p][1..];
    assert rest == [];
    assert Written(engine, p, vars, 0) + "" == Written(engine, p, vars, 0);
  }

  /** A query that is one token: a placeholder and its argument, or the text alone. */
  lemma TokenRewritten(engine: Engine, key: string, opt: string, vars: map<string, Value>)
    requires IsToken(key, opt) && IsPlain(Tok(key, opt), vars)
    ensures Rewrite(engine, TokenText(key, opt), vars) ==
            Ok(Statement(Written(engine, Tok(key, opt), vars, 0), if opt == "" then [vars[Lower(key)]] else []))
  {
    TokenAlone(key, opt);
    OneSpliced(engine, Tok(key, opt), vars);
    RewriteIs(engine, TokenText(key, opt), vars);
  }

  lemma LimitToken()
    ensures IsToken("limit", "unquoted") && Lower("limit") == "limit" && Lower("unquoted") == "unquoted"
    ensures TokenText("limit", "unquoted") == "?<limit|unquoted>"
  {
  }

  /** An unquoted limit becomes the number of rows that are asked for: one more than the page holds. */
  lemma UnquotedLimit(engine: Engine, ctx: PageCtx)
    ensures PagedStatement(engine, Some(ctx), "?<limit|unquoted>") == Ok((Statement(Itoa(ctx.limit + 1), []), true))
  {
    LimitToken();
    PageVarsAre(ctx);
    UnquotedNumber(engine, ctx, "limit", "unquoted", ctx.limit + 1);
  }

  lemma UnquotedNumber(engine: Engine, ctx: PageCtx, key: string, opt: string, n: int)
    requires IsToken(key, opt) && opt != "" && Lower(opt) == "unquoted"
    requires Lower(key) in PageVars(ctx) && PageVars(ctx)[Lower(key)] == Int(n)
    ensures PagedStatement(engine, Some(ctx), TokenText(key, opt)) == Ok((Statement(Itoa(n), []), true))
  {
    TokenAlone(key, opt);
    assert Lex(TokenText(key, opt))[0].Tok?;
    TokenRewritten(engine, key, opt, PageVars(ctx));
  }

  /**
   * The two rewriters, run on the same query with a page's position as variables, agree: both fail with the same
   * errors, or both give the same text and arguments.
   */
  method RewritersAgree(engine: Engine, ctx: PageCtx, query: string)
    returns (paged: Result<(Statement, bool), Error>, provisioned: Result<Statement, Error>)
    ensures paged.Ok? <==> provisioned.Ok?
    ensures paged.Ok? ==> paged.value.0 == provisioned.value
    ensures paged.Err? ==> paged.error == provisioned.error
  {
    paged := ParseQueryOpts(engine, Some(ctx), query);
    provisioned := PrepareProvisioningQuery(engine, query, PageVars(ctx));
  }

  // ---- Letter case --------------------------------------------------------

  /** The same piece up to letter case; with `strict`, only tokens may differ in case. */
  ghost predicate SamePiece(p: Piece, p': Piece, strict: bool) {
    match (p, p')
    case (Tok(key, opt), Tok(key', opt')) => Lower(key) == Lower(key') && Lower(opt) == Lower(opt')
    case (Lit(c), Lit(c')) => LowerChar(c) == LowerChar(c') && (strict ==> c == c')
    case _ => false
  }

  ghost predicate SamePieces(a: seq<Piece>, b: seq<Piece>, strict: bool) {
    |a| == |b| && forall i :: 0 <= i < |a| ==> SamePiece(a[i], b[i], strict)
  }

  /** The same text up to letter case. */
  ghost predicate SameLetters(s: string, s': string) {
    |s| == |s'| && forall i :: 0 <= i < |s| ==> LowerChar(s[i]) == LowerChar(s'[i])
  }

  lemma SameLettersLower(s: string, s': string)
    requires SameLetters(s, s')
    ensures Lower(s) == Lower(s')
  {
  }

  lemma {:induction false} WordRunCase(s: string, s': string)
    requires SameLetters(s, s')
    ensures WordRun(s) == WordRun(s')
  {
    if s != "" {
      WordRunCase(s[1..], s'[1..]);
      assert LowerChar(s[0]) == LowerChar(s'[0]);
    }
  }

  lemma MatchEndCase(s: string, s': string)
    requires SameLetters(s, s')
    ensures match (MatchEnd(s), MatchEnd(s'))
            case (None, None) => true
            case (Some((n, opt)), Some((n', opt'))) => n == n' && SameLetters(opt, opt')
            case _ => false
  {
    if s != "" {
      assert LowerChar(s[0]) == LowerChar(s'[0]);
      if s[0] == '|' {
        WordRunCase(s[1..], s'[1..]);
        var o := 1 + WordRun(s[1..]);
        assert o < |s| ==> LowerChar(s[o]) == LowerChar(s'[o]);
      }
    }
  }

  lemma MatchCase(q: string, q': string)
    requires SameLetters(q, q')
    ensures match (MatchFront(q), MatchFront(q'))
            case (None, None) => true
            case (Some(m), Some(m')) =>
              m.length == m'.length && SameLetters(m.key, m'.key) && SameLetters(m.opt, m'.opt)
            case _ => false
  {
    if |q| >= 2 {
      assert LowerChar(q[0]) == LowerChar(q'[0]) && LowerChar(q[1]) == LowerChar(q'[1]);
      WordRunCase(q[2..], q'[2..]);
      var k := 2 + WordRun(q[2..]);
      MatchEndCase(q[k..], q'[k..]);
    }
  }

  lemma FirstPieceCase(q: string, q': string)
    requires SameLetters(q, q') && q != "" && q' != ""
    ensures SamePiece(FirstPiece(q), FirstPiece(q'), false)
    ensures |PieceText(FirstPiece(q))| == |PieceText(FirstPiece(q'))|
  {
    MatchCase(q, q');
    if MatchFront(q).Some? {
      MatchIsToken(q);
      MatchIsToken(q');
      var m, m' := MatchFront(q).value, MatchFront(q').value;
      SameLettersLower(m.key, m'.key);
      SameLettersLower(m.opt, m'.opt);
    } else {
      assert LowerChar(q[0]) == LowerChar(q'[0]);
    }
  }

  /** Changing letter case never changes where the tokens of a template are. */
  lemma {:induction false} LexCase(q: string, q': string)
    requires SameLetters(q, q')
    ensures SamePieces(Lex(q), Lex(q'), false)
    decreases |q|
  {
    if q != "" {
      FirstPieceCase(q, q');
      FirstPieceText(q);
      FirstPieceText(q');
      var n := |PieceText(FirstPiece(q))|;
      LexCase(q[n..], q'[n..]);
      SamePiecesCons(FirstPiece(q), Lex(q[n..]), FirstPiece(q'), Lex(q'[n..]));
    }
  }

  lemma SamePiecesCons(p: Piece, ps: seq<Piece>, p': Piece, ps': seq<Piece>)
    requires SamePiece(p, p', false) && SamePieces(ps, ps', false)
    ensures SamePieces([p] + ps, [p'] + ps', false)
  {
  }

  /**
   * Two query texts that differ only in the letter case of their tokens rewrite to the same statement:
   * `?<Limit|UNQUOTED>` is `?<limit|unquoted>`.
   */
  lemma TokenCaseIsIgnored(engine: Engine, q: string, q': string, vars: map<string, Value>)
    requires SameLetters(q, q')
    requires forall i :: 0 <= i < |Lex(q)| && i < |Lex(q')| && Lex(q)[i].Lit? ==> Lex(q')[i] == Lex(q)[i]
    ensures Rewrite(engine, q, vars) == Rewrite(engine, q', vars)
  {
    LexCase(q, q');
    forall i | 0 <= i < |Lex(q)| ensures SamePiece(Lex(q)[i], Lex(q')[i], true) {
      assert SamePiece(Lex(q)[i], Lex(q')[i], false);
    }
    CaseInsensitive(Lex(q), Lex(q'), vars);
    ErrorsCase(Lex(q), Lex(q'), vars);
  }

  lemma {:induction false} ErrorsCase(a: seq<Piece>, b: seq<Piece>, vars: map<string, Value>)
    requires SamePieces(a, b, true)
    ensures Errors(a, vars) == Errors(b, vars)
  {
    if a != [] {
      var n := |a| - 1;
      assert SamePiece(a[n], b[n], true);
      forall i | 0 <= i < n ensures SamePiece(a[..n][i], b[..n][i], true) { assert SamePiece(a[i], b[i], true); }
      ErrorsCase(a[..n], b[..n], vars);
    }
  }

  lemma {:induction false} CaseInsensitive(a: seq<Piece>, b: seq<Piece>, vars: map<string, Value>)
    requires SamePieces(a, b, true)
    ensures AllKnown(a, vars) <==> AllKnown(b, vars)
    ensures AllKnown(a, vars) ==> Meaning(a, vars) == Meaning(b, vars)
  {
    forall i | 0 <= i < |a| ensures Known(a[i], vars) == Known(b[i], vars) {
      assert SamePiece(a[i], b[i], true);
    }
    if a != [] && AllKnown(a, vars) {
      assert SamePiece(a[0], b[0], true);
      assert a[0].Tok? ==> |Lower(a[0].opt)| == |Lower(b[0].opt)|;
      forall i | 0 <= i < |a| - 1 ensures SamePiece(a[1..][i], b[1..][i], true) && Known(a[1..][i], vars) {
        assert SamePiece(a[i + 1], b[i + 1], true) && Known(a[i + 1], vars);
      }
      CaseInsensitive(a[1..], b[1..], vars);
    }
  }

  // ---- Queries without tokens, and variables without effect ---------------

  lemma LiteralMeaning(c: char, rest: seq<Piece>, vars: map<string, Value>)
    requires AllKnown(rest, vars)
    ensures AllKnown([Lit(c)] + rest, vars) && Meaning([Lit(c)] + rest, vars) == [Ch(c)] + Meaning(rest, vars)
  {
    assert ([Lit(c)] + rest)[1..] == rest;
  }

  lemma HasTokenCons(p: Piece, rest: seq<Piece>)
    ensures HasToken([p] + rest) <==> p.Tok? || HasToken(rest)
  {
    var pieces := [p] + rest;
    assert pieces[0] == p;
    if HasToken(rest) {
      var i :| 0 <= i < |rest| && rest[i].Tok?;
      assert pieces[i + 1].Tok?;
    }
  }

  lemma TokenlessStep(q: string)
    requires q != "" && !HasToken(Lex(q))
    ensures Lex(q) == [Lit(q[0])] + Lex(q[1..]) && !HasToken(Lex(q[1..]))
  {
    LexCons(q);
    HasTokenCons(FirstPiece(q), Lex(q[|PieceText(FirstPiece(q))|..]));
    LiteralFirst(q);
    HasTokenCons(Lit(q[0]), Lex(q[1..]));
  }

  lemma CharsCons(q: string)
    requires q != ""
    ensures Chars(q) == [Ch(q[0])] + Chars(q[1..])
  {
  }

  lemma {:induction false} TokenlessMeaning(q: string, vars: map<string, Value>)
    requires !HasToken(Lex(q))
    ensures AllKnown(Lex(q), vars) && Meaning(Lex(q), vars) == Chars(q)
  {
    if q != "" {
      TokenlessStep(q);
      TokenlessMeaning(q[1..], vars);
      LiteralMeaning(q[0], Lex(q[1..]), vars);
      CharsCons(q);
    }
  }

  /** A query without tokens is sent as it is, without arguments. */
  lemma TokenlessRewrite(engine: Engine, q: string, vars: map<string, Value>)
    requires !HasToken(Lex(q))
    ensures Rewrite(engine, q, vars) == Ok(Statement(q, []))
  {
    TokenlessMeaning(q, vars);
    RenderChars(engine, q, 0);
  }

  predicate SameAt(key: string, vars: map<string, Value>, vars': map<string, Value>) {
    (key in vars <==> key in vars') && (key in vars ==> vars[key] == vars'[key])
  }

  /** Some token of these pieces has this key, once lower-cased. */
  predicate UsesKey(pieces: seq<Piece>, key: string) {
    exists i :: 0 <= i < |pieces| && pieces[i].Tok? && Lower(pieces[i].key) == key
  }

  /** The variables have the same values, as far as these pieces use them. */
  ghost predicate Agree(pieces: seq<Piece>, vars: map<string, Value>, vars': map<string, Value>) {
    forall i :: 0 <= i < |pieces| && pieces[i].Tok? ==> SameAt(Lower(pieces[i].key), vars, vars')
  }

  lemma KnownAlike(pieces: seq<Piece>, vars: map<string, Value>, vars': map<string, Value>)
    requires Agree(pieces, vars, vars')
    ensures AllKnown(pieces, vars) <==> AllKnown(pieces, vars')
  {
    forall i | 0 <= i < |pieces| ensures Known(pieces[i], vars) == Known(pieces[i], vars') {}
  }

  lemma {:induction false} MeaningAlike(pieces: seq<Piece>, vars: map<string, Value>, vars': map<string, Value>)
    requires Agree(pieces, vars, vars') && AllKnown(pieces, vars) && AllKnown(pieces, vars')
    ensures Meaning(pieces, vars) == Meaning(pieces, vars')
  {
    if pieces != [] {
      MeaningAlike(pieces[1..], vars, vars');
      assert Substitute(pieces[0], vars) == Substitute(pieces[0], vars');
    }
  }

  lemma {:induction false} ErrorsAlike(pieces: seq<Piece>, vars: map<string, Value>, vars': map<string, Value>)
    requires Agree(pieces, vars, vars')
    ensures Errors(pieces, vars) == Errors(pieces, vars')
  {
    if pieces != [] {
      var n := |pieces| - 1;
      ErrorsAlike(pieces[..n], vars, vars');
      assert PieceErrors(pieces[n], vars) == PieceErrors(pieces[n], vars');
    }
  }

  /** Only the variables that the tokens of a query use have a say in what becomes of it. */
  lemma OnlyTokensMatter(engine: Engine, q: string, vars: map<string, Value>, vars': map<string, Value>)
    requires Agree(Lex(q), vars, vars')
    ensures Rewrite(engine, q, vars) == Rewrite(engine, q, vars')
  {
    var pieces := Lex(q);
    KnownAlike(pieces, vars, vars');
    ErrorsAlike(pieces, vars, vars');
    if AllKnown(pieces, vars) { MeaningAlike(pieces, vars, vars'); }
  }

  /** A variable that no token uses can have any value. */
  lemma VariableIgnored(engine: Engine, q: string, vars: map<string, Value>, key: string, v: Value)
    requires !UsesKey(Lex(q), key)
    ensures Rewrite(engine, q, vars[key := v]) == Rewrite(engine, q, vars)
  {
    OnlyTokensMatter(engine, q, vars[key := v], vars);
  }

  lemma PageVarsMoved(ctx: PageCtx, offset: int, cursor: string)
    ensures PageVars(ctx.(offset := offset)) == PageVars(ctx)[OFFSET_KEY := Int(offset)]
    ensures PageVars(ctx.(cursor := cursor)) == PageVars(ctx)[CURSOR_KEY := Text(cursor)]
  {
    KeysDiffer();
  }

  /** A query that never mentions the offset is the same at every offset, */
  lemma OffsetIgnored(engine: Engine, ctx: PageCtx, q: string, offset: int)
    requires !UsesKey(Lex(q), OFFSET_KEY)
    ensures PagedStatement(engine, Some(ctx.(offset := offset)), q) == PagedStatement(engine, Some(ctx), q)
  {
    PageVarsMoved(ctx, offset, "");
    VariableIgnored(engine, q, PageVars(ctx), OFFSET_KEY, Int(offset));
  }

  /** and one that never mentions the cursor after every key. */
  lemma CursorIgnored(engine: Engine, ctx: PageCtx, q: string, cursor: string)
    requires !UsesKey(Lex(q), CURSOR_KEY)
    ensures PagedStatement(engine, Some(ctx.(cursor := cursor)), q) == PagedStatement(engine, Some(ctx), q)
  {
    PageVarsMoved(ctx, 0, cursor);
    VariableIgnored(engine, q, PageVars(ctx), CURSOR_KEY, Text(cursor));
  }

  lemma {:induction false} TokensAreTokens(q: string)
    ensures forall i :: 0 <= i < |Lex(q)| && Lex(q)[i].Tok? ==> IsToken(Lex(q)[i].key, Lex(q)[i].opt)
  {
    if q != "" {
      LexCons(q);
      if MatchFront(q).Some? { MatchIsToken(q); }
      TokensAreTokens(q[|PieceText(FirstPiece(q))|..]);
    }
  }

  /** The names that tokens can have. */
  predicate IsUsable(name: string) { IsToken(name, "") && Lower(name) == name }

  /**
   * Token keys are words and are lower-cased before they are looked up; variable names are neither. A query can use
   * a variable if and only if its name is a lower-case word: not with a capital letter, a hyphen or no letter at all.
   */
  lemma NameIsUsed(name: string)
    ensures (exists q: string :: UsesKey(Lex(q), name)) <==> IsUsable(name)
  {
    if IsUsable(name) {
      TokenAlone(name, "");
      assert Lex(TokenText(name, ""))[0].Tok?;
      assert UsesKey(Lex(TokenText(name, "")), name);
    }
    forall q: string | UsesKey(Lex(q), name) ensures IsUsable(name) {
      var i :| 0 <= i < |Lex(q)| && Lex(q)[i].Tok? && Lower(Lex(q)[i].key) == name;
      TokensAreTokens(q);
      LowerWords(Lex(q)[i].key);
    }
  }

  /** Whether defining the variable changes what becomes of the query. */
  ghost predicate Matters(engine: Engine, q: string, vars: map<string, Value>, name: string, v: Value) {
    Rewrite(engine, q, vars[name := v]) != Rewrite(engine, q, vars)
  }

  /** Defining or changing a variable with any other name makes no difference to any query, be it good or bad, */
  lemma UnusableVariable(engine: Engine, q: string, vars: map<string, Value>, name: string, v: Value)
    requires !IsUsable(name)
    ensures !Matters(engine, q, vars, name, v)
  {
    NameIsUsed(name);
    assert !UsesKey(Lex(q), name);
    VariableIgnored(engine, q, vars, name, v);
  }

  /** and these are all such names: any other variable makes a difference to some query. */
  lemma VariableMatters(name: string)
    ensures (exists engine, q, vars, v :: Matters(engine, q, vars, name, v)) <==> IsUsable(name)
  {
    if IsUsable(name) {
      var q, none: map<string, Value> := TokenText(name, ""), map[];
      TokenAlone(name, "");
      assert !Known(Lex(q)[0], none);
      assert Rewrite(SQLite, q, none).Err?;
      assert AllKnown(Lex(q), none[name := Null]) by { assert |Lower("")| == 0; }
      assert Matters(SQLite, q, none, name, Null);
    } else {
      forall engine, q, vars, v ensures !Matters(engine, q, vars, name, v) {
        UnusableVariable(engine, q, vars, name, v);
      }
    }
  }
}
