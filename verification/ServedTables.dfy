/** Databases that serve tables as the run theorems require: their premises can be met, for every table. */
module ServedTables {
  import opened Wrappers
  import opened Decimal
  import opened Template
  import opened TemplateRewriters
  import opened SqlValues
  import opened Runs
  import opened Paging
  import opened PageContract
  import opened CursorRuns
  import opened KeyOrders
  import opened Sources

  const NAME_COLUMN := "login"
  const KEY_COLUMN := "id"

  // ---- What a query asks for ----------------------------------------------

  /** The tokens among the pieces of a query. */
  function TokensOf(pieces: seq<Piece>): seq<Piece> {
    if pieces == [] then []
    else (if pieces[0].Tok? then [pieces[0]] else []) + TokensOf(pieces[1..])
  }

  lemma {:induction false} TokensFound(pieces: seq<Piece>)
    ensures forall p :: p in TokensOf(pieces) <==> p in pieces && p.Tok?
  {
    if pieces != [] {
      TokensFound(pieces[1..]);
      assert pieces == [pieces[0]] + pieces[1..];
    }
  }

  lemma KnownTokens(pieces: seq<Piece>, vars: map<string, Value>)
    requires AllKnown(TokensOf(pieces), vars)
    ensures AllKnown(pieces, vars)
  {
    TokensFound(pieces);
    forall i | 0 <= i < |pieces| ensures Known(pieces[i], vars) {
      if pieces[i].Tok? {
        assert pieces[i] in TokensOf(pieces);
        var j :| 0 <= j < |TokensOf(pieces)| && TokensOf(pieces)[j] == pieces[i];
      }
    }
  }

  /** The arguments of a query are the values of its tokens, whatever text stands between them. */
  lemma {:induction false} TokenValues(pieces: seq<Piece>, vars: map<string, Value>)
    requires AllKnown(pieces, vars) && AllKnown(TokensOf(pieces), vars)
    ensures Values(Meaning(pieces, vars)) == Values(Meaning(TokensOf(pieces), vars))
  {
    if pieces != [] {
      var p, rest, tokens := pieces[0], pieces[1..], TokensOf(pieces[1..]);
      if p.Tok? {
        assert TokensOf(pieces)[1..] == tokens;
        forall i | 0 <= i < |tokens| ensures Known(tokens[i], vars) { assert Known(TokensOf(pieces)[i + 1], vars); }
        ValuesAppend(Substitute(p, vars), Meaning(tokens, vars));
      } else {
        assert TokensOf(pieces) == tokens;
      }
      TokenValues(rest, vars);
      ValuesAppend(Substitute(p, vars), Meaning(rest, vars));
    }
  }

  lemma ArgsOfTokens(engine: Engine, ctx: PageCtx, query: string, tokens: seq<Piece>)
    requires TokensOf(Lex(query)) == tokens != [] && AllKnown(tokens, PageVars(ctx))
    ensures HasToken(Lex(query)) && PagedStatement(engine, Some(ctx), query).Ok?
    ensures var (s, used) := PagedStatement(engine, Some(ctx), query).value;
            used && s.args == Values(Meaning(tokens, PageVars(ctx)))
  {
    TokensFound(Lex(query));
    assert tokens[0] in Lex(query);
    KnownTokens(Lex(query), PageVars(ctx));
    TokenValues(Lex(query), PageVars(ctx));
  }

  /** All tokens of the query are quoted positions: limits, offsets and cursors, in any number, order and case. */
  predicate AsksPositions(query: string) { AllPositions(TokensOf(Lex(query))) }

  predicate AllPositions(tokens: seq<Piece>) { forall i :: 0 <= i < |tokens| ==> IsPosition(tokens[i]) }

  predicate IsPosition(t: Piece) {
    t.Tok? && t.opt == "" && (Lower(t.key) == LIMIT_KEY || Lower(t.key) == OFFSET_KEY || Lower(t.key) == CURSOR_KEY)
  }

  /** The i-th token of the query is this position. */
  predicate AsksAt(query: string, i: nat, key: string) {
    var tokens := TokensOf(Lex(query));
    i < |tokens| && tokens[i].Tok? && Lower(tokens[i].key) == key
  }

  lemma QuotedToken(key: string, rest: seq<Piece>, vars: map<string, Value>)
    requires Lower(key) in vars && AllKnown(rest, vars)
    ensures AllKnown([Tok(key, "")] + rest, vars)
    ensures Values(Meaning([Tok(key, "")] + rest, vars)) == [vars[Lower(key)]] + Values(Meaning(rest, vars))
  {
    var pieces := [Tok(key, "")] + rest;
    assert pieces[1..] == rest && Lower("") == "";
    var items := [Val(vars[Lower(key)])] + Meaning(rest, vars);
    assert Meaning(pieces, vars) == items && items[1..] == Meaning(rest, vars);
  }

  /** Every token of the query, in order, is one argument. */
  lemma {:induction false} PositionValues(tokens: seq<Piece>, ctx: PageCtx)
    requires AllPositions(tokens)
    ensures AllKnown(tokens, PageVars(ctx))
    ensures var args := Values(Meaning(tokens, PageVars(ctx)));
            |args| == |tokens|
            && forall i :: 0 <= i < |tokens| ==>
                 Lower(tokens[i].key) in PageVars(ctx) && args[i] == PageVars(ctx)[Lower(tokens[i].key)]
  {
    if tokens != [] {
      var t, rest := tokens[0], tokens[1..];
      assert IsPosition(t) && tokens == [Tok(t.key, "")] + rest;
      PositionValues(rest, ctx);
      QuotedToken(t.key, rest, PageVars(ctx));
    }
  }

  lemma PositionVars(ctx: PageCtx)
    ensures LIMIT_KEY in PageVars(ctx) && PageVars(ctx)[LIMIT_KEY] == Int(ctx.limit + 1)
    ensures OFFSET_KEY in PageVars(ctx) && PageVars(ctx)[OFFSET_KEY] == Int(ctx.offset)
    ensures CURSOR_KEY in PageVars(ctx) && PageVars(ctx)[CURSOR_KEY] == Text(ctx.cursor)
  {
    KeysDiffer();
  }

  /** A position arrives as the argument of its token. */
  lemma PositionArg(engine: Engine, ctx: PageCtx, query: string, i: nat, key: string)
    requires AsksPositions(query) && AsksAt(query, i, key)
    ensures HasToken(Lex(query)) && PagedStatement(engine, Some(ctx), query).Ok?
    ensures var (s, used) := PagedStatement(engine, Some(ctx), query).value;
            used && i < |s.args| && key in PageVars(ctx) && s.args[i] == PageVars(ctx)[key]
  {
    var tokens := TokensOf(Lex(query));
    PositionValues(tokens, ctx);
    ArgsOfTokens(engine, ctx, query, tokens);
  }

  lemma TokensFromToken(key: string, rest: string)
    requires IsToken(key, "")
    ensures TokensOf(Lex(TokenText(key, "") + rest)) == [Tok(key, "")] + TokensOf(Lex(rest))
  {
    TokenThen(key, "", rest);
    assert ([Tok(key, "")] + Lex(rest))[1..] == Lex(rest);
  }

  /** A text with any two tokens. */
  lemma TextOfTwo(a: string, b: string) returns (query: string)
    requires IsToken(a, "") && IsToken(b, "")
    ensures TokensOf(Lex(query)) == [Tok(a, ""), Tok(b, "")]
  {
    var end: string := "";
    TokensFromToken(b, end);
    query := TokenText(a, "") + (TokenText(b, "") + end);
    TokensFromToken(a, TokenText(b, "") + end);
  }

  lemma Spelled()
    ensures IsToken("Limit", "") && IsToken("Offset", "") && IsToken("Cursor", "")
    ensures Lower("Limit") == LIMIT_KEY && Lower("Offset") == OFFSET_KEY && Lower("Cursor") == CURSOR_KEY
  {
  }

  /** Queries that ask for a limit and then an offset, and for a cursor and then a limit. */
  lemma QueriesExist() returns (byOffset: string, byCursor: string)
    ensures AsksPositions(byOffset) && AsksAt(byOffset, 0, LIMIT_KEY) && AsksAt(byOffset, 1, OFFSET_KEY)
    ensures AsksPositions(byCursor) && AsksAt(byCursor, 0, CURSOR_KEY) && AsksAt(byCursor, 1, LIMIT_KEY)
  {
    Spelled();
    byOffset := TextOfTwo("Limit", "Offset");
    byCursor := TextOfTwo("Cursor", "Limit");
  }

  // ---- Tables of two columns ----------------------------------------------

  /** A row of the table: its key is in the second column. */
  datatype Entry = Entry(name: Value, key: Value)

  function RowOf(e: Entry): Row { Row([e.name, e.key]) }

  function MapOfEntry(e: Entry): RowMap { map[NAME_COLUMN := e.name, KEY_COLUMN := e.key] }

  function TableOf(entries: seq<Entry>): (table: seq<RowMap>)
    ensures |table| == |entries| && forall i :: 0 <= i < |entries| ==> table[i] == MapOfEntry(entries[i])
  {
    seq(|entries|, i requires 0 <= i < |entries| => MapOfEntry(entries[i]))
  }

  function Answer(entries: seq<Entry>): (rs: ResultSet)
    ensures |rs.rows| == |entries| && forall i :: 0 <= i < |entries| ==> rs.rows[i] == RowOf(entries[i])
  {
    ResultSet([NAME_COLUMN, KEY_COLUMN], seq(|entries|, i requires 0 <= i < |entries| => RowOf(entries[i])), false)
  }

  /** Each value is found under the name of its column. */
  lemma EntryMap(e: Entry)
    ensures MapOf([NAME_COLUMN, KEY_COLUMN], [e.name, e.key]) == MapOfEntry(e)
  {
    var columns, values := [NAME_COLUMN, KEY_COLUMN], [e.name, e.key];
    assert |NAME_COLUMN| == 5 && |KEY_COLUMN| == 2;
    MapOfLast(columns, values, 0);
    MapOfLast(columns, values, 1);
    assert forall c :: c in columns <==> c == NAME_COLUMN || c == KEY_COLUMN;
  }

  lemma AnswerMaps(entries: seq<Entry>, n: nat)
    requires n <= |entries|
    ensures Scannable(Answer(entries), n) && Maps(Answer(entries), n) == TableOf(entries)[..n]
  {
    forall i | 0 <= i < n
      ensures MapOf([NAME_COLUMN, KEY_COLUMN], [entries[i].name, entries[i].key]) == MapOfEntry(entries[i])
    {
      EntryMap(entries[i]);
    }
  }

  function AtMost(n: nat, entries: seq<Entry>): seq<Entry> { entries[..Min(n, |entries|)] }

  /** One row more than the limit is enough to deliver what is wanted. */
  lemma AtMostDelivers(entries: seq<Entry>, ctx: PageCtx)
    requires ctx.limit >= 1 && ctx.primaryKey == KEY_COLUMN
    ensures Delivers(Answer(AtMost(ctx.limit + 1, entries)), TableOf(entries), Some(ctx))
  {
    var sent, h := AtMost(ctx.limit + 1, entries), Handed(Some(ctx), |entries|);
    AnswerMaps(sent, h);
    assert TableOf(sent)[..h] == TableOf(entries)[..h];
  }

  /** The limit arrives as a number, whatever else the query asks for. */
  lemma LimitArg(engine: Engine, ctx: PageCtx, query: string, i: nat)
    requires AsksPositions(query) && AsksAt(query, i, LIMIT_KEY) && ctx.limit >= 1
    ensures PagedStatement(engine, Some(ctx), query).Ok?
    ensures var (s, used) := PagedStatement(engine, Some(ctx), query).value;
            used && NumberAt(s.args, i) == Some(ctx.limit + 1)
  {
    PositionVars(ctx);
    PositionArg(engine, ctx, query, i, LIMIT_KEY);
  }

  lemma OffsetArg(engine: Engine, ctx: PageCtx, query: string, j: nat)
    requires AsksPositions(query) && AsksAt(query, j, OFFSET_KEY) && ctx.offset >= 0
    ensures PagedStatement(engine, Some(ctx), query).Ok?
    ensures NumberAt(PagedStatement(engine, Some(ctx), query).value.0.args, j) == Some(ctx.offset)
  {
    PositionVars(ctx);
    PositionArg(engine, ctx, query, j, OFFSET_KEY);
  }

  lemma CursorArg(engine: Engine, ctx: PageCtx, query: string, j: nat)
    requires AsksPositions(query) && AsksAt(query, j, CURSOR_KEY)
    ensures PagedStatement(engine, Some(ctx), query).Ok?
    ensures var (s, used) := PagedStatement(engine, Some(ctx), query).value;
            j < |s.args| && s.args[j] == Text(ctx.cursor)
  {
    PositionVars(ctx);
    PositionArg(engine, ctx, query, j, CURSOR_KEY);
  }

  function NumberAt(args: seq<Value>, i: nat): Option<nat> {
    if i < |args| && args[i].Int? && args[i].n >= 0 then Some(args[i].n) else None
  }

  /** At most the asked number of rows from the asked offset on; no offset that is no int64. */
  function OffsetAnswer(entries: seq<Entry>, args: seq<Value>, i: nat, j: nat): Result<ResultSet, Error> {
    match (NumberAt(args, i), NumberAt(args, j))
    case (Some(n), Some(o)) =>
      if o > MAX_INT64 then Err(QueryFailed) else Ok(Answer(AtMost(n, entries[Min(o, |entries|)..])))
    case _ => Err(QueryFailed)
  }

  function OffsetDb(entries: seq<Entry>, i: nat, j: nat): Db {
    (text: string, args: seq<Value>) => OffsetAnswer(entries, args, i, j)
  }

  function OffsetSource(engine: Engine, query: string, entries: seq<Entry>, size: int, i: nat, j: nat): Source {
    Source(engine, OffsetDb(entries, i, j), query, Some(Pagination(OffsetStrategy, KEY_COLUMN)), size)
  }

  /** Every table is served by some database, on every engine, page by page by offset. */
  lemma OffsetsServed(engine: Engine, query: string, entries: seq<Entry>, size: int, i: nat, j: nat)
    requires AsksPositions(query) && AsksAt(query, i, LIMIT_KEY) && AsksAt(query, j, OFFSET_KEY)
    ensures ServesOffsets(OffsetSource(engine, query, entries, size, i, j), TableOf(entries))
    ensures !IsUnpaged(OffsetSource(engine, query, entries, size, i, j))
  {
    var src, table := OffsetSource(engine, query, entries, size, i, j), TableOf(entries);
    PositionArg(engine, OffsetPage(src, 0), query, i, LIMIT_KEY);
    forall o: nat | o <= MAX_INT64 ensures Answers(src, Some(OffsetPage(src, o)), table[Min(o, |table|)..]) {
      OffsetAnswered(engine, query, entries, size, i, j, o);
    }
  }

  lemma OffsetAnswered(engine: Engine, query: string, entries: seq<Entry>, size: int, i: nat, j: nat, o: nat)
    requires AsksPositions(query) && AsksAt(query, i, LIMIT_KEY) && AsksAt(query, j, OFFSET_KEY) && o <= MAX_INT64
    ensures var src := OffsetSource(engine, query, entries, size, i, j);
            Answers(src, Some(OffsetPage(src, o)), TableOf(entries)[Min(o, |entries|)..])
  {
    var src := OffsetSource(engine, query, entries, size, i, j);
    var ctx := OffsetPage(src, o);
    LimitArg(engine, ctx, query, i);
    OffsetArg(engine, ctx, query, j);
    var from := Min(o, |entries|);
    AtMostDelivers(entries[from..], ctx);
    assert TableOf(entries)[from..] == TableOf(entries[from..]);
  }

  // ---- Keys as cursors ----------------------------------------------------

  predicate IsKey(v: Value) { v.Text? || v.Bytes? || v.Int? }

  /** How the database reads a key as a cursor: text as it is, a number in decimal. */
  function Shown(v: Value): string {
    match v
    case Text(t) => t
    case Bytes(b) => b
    case Int(n) => Itoa(n)
    case _ => ""
  }

  ghost predicate AreKeys(entries: seq<Entry>) { forall i :: 0 <= i < |entries| ==> IsKey(entries[i].key) }

  /** The keys ascend, as the database orders them. */
  ghost predicate KeysAscend(below: Order, entries: seq<Entry>) {
    forall i, j :: 0 <= i < j < |entries| ==>
      Shown(entries[i].key) == Shown(entries[j].key) || below(Shown(entries[i].key), Shown(entries[j].key))
  }

  /** The rows that come after a cursor. */
  function EntriesAbove(below: Order, entries: seq<Entry>, cursor: string): seq<Entry> {
    if entries == [] then []
    else (if below(cursor, Shown(entries[0].key)) then [entries[0]] else []) + EntriesAbove(below, entries[1..], cursor)
  }

  /** At most the asked number of rows after the cursor, if it is not refused. */
  function CursorAnswer(below: Order, entries: seq<Entry>, refuses: string -> bool, args: seq<Value>, i: nat, j: nat)
    : Result<ResultSet, Error>
  {
    if j >= |args| || !args[j].Text? || refuses(args[j].text) then Err(QueryFailed)
    else
      match NumberAt(args, i)
      case Some(n) => Ok(Answer(AtMost(n, EntriesAbove(below, entries, args[j].text))))
      case None => Err(QueryFailed)
  }

  function CursorDb(below: Order, entries: seq<Entry>, refuses: string -> bool, i: nat, j: nat): Db {
    (text: string, args: seq<Value>) => CursorAnswer(below, entries, refuses, args, i, j)
  }

  function CursorSource(engine: Engine, query: string, below: Order, entries: seq<Entry>, refuses: string -> bool,
                        size: int, i: nat, j: nat): Source
  {
    Source(engine, CursorDb(below, entries, refuses, i, j), query, Some(Pagination(CursorStrategy, KEY_COLUMN)), size)
  }

  /** The key that a page goes on from is the one that the database reads. */
  lemma KeyOfEntry(e: Entry)
    ensures HasPrintableKey(KEY_COLUMN, MapOfEntry(e)) <==> IsKey(e.key)
    ensures KeyIn(KEY_COLUMN)(MapOfEntry(e)) == Shown(e.key)
  {
    assert |NAME_COLUMN| == 5 && |KEY_COLUMN| == 2;
    KeyTexts(e.key);
  }

  lemma KeysOfTable(entries: seq<Entry>)
    requires AreKeys(entries)
    ensures forall i :: 0 <= i < |entries| ==> KeyIn(KEY_COLUMN)(TableOf(entries)[i]) == Shown(entries[i].key)
    ensures forall row :: row in TableOf(entries) ==> HasPrintableKey(KEY_COLUMN, row)
  {
    var table := TableOf(entries);
    forall i | 0 <= i < |entries|
      ensures KeyIn(KEY_COLUMN)(table[i]) == Shown(entries[i].key) && HasPrintableKey(KEY_COLUMN, table[i])
    {
      KeyOfEntry(entries[i]);
    }
  }

  lemma {:induction false} TableAbove(below: Order, entries: seq<Entry>, cursor: string)
    ensures Above(below, KeyIn(KEY_COLUMN), TableOf(entries), cursor) == TableOf(EntriesAbove(below, entries, cursor))
  {
    if entries != [] {
      var table := TableOf(entries);
      assert table[1..] == TableOf(entries[1..]);
      KeyOfEntry(entries[0]);
      TableAbove(below, entries[1..], cursor);
    }
  }

  lemma CursorAnswered(engine: Engine, query: string, below: Order, entries: seq<Entry>, refuses: string -> bool,
                       size: int, i: nat, j: nat, cursor: string)
    requires AsksPositions(query) && AsksAt(query, i, LIMIT_KEY) && AsksAt(query, j, CURSOR_KEY) && !refuses(cursor)
    ensures var src := CursorSource(engine, query, below, entries, refuses, size, i, j);
            Answers(src, Some(CursorPage(src, cursor)), Above(below, KeyIn(KEY_COLUMN), TableOf(entries), cursor))
  {
    var src := CursorSource(engine, query, below, entries, refuses, size, i, j);
    var ctx := CursorPage(src, cursor);
    LimitArg(engine, ctx, query, i);
    CursorArg(engine, ctx, query, j);
    AtMostDelivers(EntriesAbove(below, entries, cursor), ctx);
    TableAbove(below, entries, cursor);
  }

  lemma TableAscends(below: Order, entries: seq<Entry>)
    requires AreKeys(entries) && KeysAscend(below, entries)
    ensures Ascending(below, KeyIn(KEY_COLUMN), TableOf(entries))
  {
    KeysOfTable(entries);
  }

  /** What a run over the table can send is not refused. */
  predicate AcceptsKeys(entries: seq<Entry>, refuses: string -> bool) {
    !refuses("") && forall i :: 0 <= i < |entries| ==> !refuses(Shown(entries[i].key))
  }

  lemma SentIsAccepted(below: Order, entries: seq<Entry>, refuses: string -> bool, cursor: string)
    requires AreKeys(entries) && AcceptsKeys(entries, refuses)
    requires CanSend(below, KeyIn(KEY_COLUMN), TableOf(entries), cursor)
    ensures !refuses(cursor)
  {
    if cursor != "" {
      KeysOfTable(entries);
      var row :| row in TableOf(entries) && KeyIn(KEY_COLUMN)(row) == cursor;
      var i :| 0 <= i < |entries| && TableOf(entries)[i] == row;
    }
  }

  lemma CursorsAnswered(engine: Engine, query: string, below: Order, entries: seq<Entry>, refuses: string -> bool,
                        size: int, i: nat, j: nat)
    requires AsksPositions(query) && AsksAt(query, i, LIMIT_KEY) && AsksAt(query, j, CURSOR_KEY)
    requires AreKeys(entries) && KeysAscend(below, entries) && AcceptsKeys(entries, refuses)
    ensures var src, table := CursorSource(engine, query, below, entries, refuses, size, i, j), TableOf(entries);
            ServesCursors(src, below, table, table)
  {
    var src, table := CursorSource(engine, query, below, entries, refuses, size, i, j), TableOf(entries);
    KeysOfTable(entries);
    TableAscends(below, entries);
    forall c: string | CanSend(below, KeyOf(src), table, c)
      ensures Answers(src, Some(CursorPage(src, c)), Above(below, KeyOf(src), table, c))
    {
      SentIsAccepted(below, entries, refuses, c);
      CursorAnswered(engine, query, below, entries, refuses, size, i, j, c);
    }
  }

  lemma KeysReachable(below: Order, entries: seq<Entry>)
    requires AreKeys(entries)
    ensures AllReachable(below, KeyIn(KEY_COLUMN), TableOf(entries)) <==>
            forall i :: 0 <= i < |entries| ==> below("", Shown(entries[i].key))
  {
    var table := TableOf(entries);
    KeysOfTable(entries);
    assert forall i :: 0 <= i < |entries| ==> table[i] in table;
  }

  /**
   * Every table whose keys are texts, bytes or integers that ascend in the database's order is served by cursor, even
   * by a database that refuses any text but these keys. A run delivers it whole if and only if every key comes after
   * the empty cursor and no page ends between two rows of the same key.
   */
  lemma CursorsServed(engine: Engine, query: string, below: Order, entries: seq<Entry>, refuses: string -> bool,
                      size: int, i: nat, j: nat)
    requires AsksPositions(query) && AsksAt(query, i, LIMIT_KEY) && AsksAt(query, j, CURSOR_KEY)
    requires IsOrder(below) && AreKeys(entries) && KeysAscend(below, entries) && AcceptsKeys(entries, refuses)
    ensures var src := CursorSource(engine, query, below, entries, refuses, size, i, j);
            Serves(src, below, TableOf(entries))
            && (Complete(src, below, TableOf(entries)) <==>
                (forall n :: 0 <= n < |entries| ==> below("", Shown(entries[n].key)))
                && CutsNoTie(KeyIn(KEY_COLUMN), TableOf(entries), Limit(src)))
  {
    var src := CursorSource(engine, query, below, entries, refuses, size, i, j);
    KeysReachable(below, entries);
    CursorsAnswered(engine, query, below, entries, refuses, size, i, j);
    PositionArg(engine, CursorPage(src, ""), query, i, LIMIT_KEY);
  }

  ghost predicate AscendingIntegers(entries: seq<Entry>) {
    (forall n :: 0 <= n < |entries| ==> entries[n].key.Int?)
    && forall m, n :: 0 <= m < n < |entries| ==> entries[m].key.n <= entries[n].key.n
  }

  lemma IntegersAscend(entries: seq<Entry>)
    requires AscendingIntegers(entries)
    ensures AreKeys(entries) && KeysAscend(NumberBelow, entries)
    ensures forall n :: 0 <= n < |entries| ==> NumberBelow("", Shown(entries[n].key))
  {
    forall m, n | 0 <= m < n < |entries|
      ensures Shown(entries[m].key) == Shown(entries[n].key)
              || NumberBelow(Shown(entries[m].key), Shown(entries[n].key))
    {
      PrintedOrder(entries[m].key.n, entries[n].key.n);
    }
    forall n | 0 <= n < |entries| ensures NumberBelow("", Shown(entries[n].key)) {
      PrintedOrder(0, entries[n].key.n);
    }
  }

  /** So tables of ascending integers are, completely unless a page ends between equal keys, */
  lemma IntegersServed(engine: Engine, query: string, entries: seq<Entry>, refuses: string -> bool, size: int, i: nat,
                       j: nat)
    requires AsksPositions(query) && AsksAt(query, i, LIMIT_KEY) && AsksAt(query, j, CURSOR_KEY)
    requires AscendingIntegers(entries) && AcceptsKeys(entries, refuses)
    ensures var src := CursorSource(engine, query, NumberBelow, entries, refuses, size, i, j);
            Serves(src, NumberBelow, TableOf(entries))
            && (Complete(src, NumberBelow, TableOf(entries)) <==>
                CutsNoTie(KeyIn(KEY_COLUMN), TableOf(entries), Limit(src)))
  {
    NumberOrder();
    IntegersAscend(entries);
    CursorsServed(engine, query, NumberBelow, entries, refuses, size, i, j);
  }

  /** and tables of different non-empty texts in alphabetical order always. */
  lemma TextsServed(engine: Engine, query: string, entries: seq<Entry>, refuses: string -> bool, size: int, i: nat,
                    j: nat)
    returns (pages: seq<seq<RowMap>>)
    requires AsksPositions(query) && AsksAt(query, i, LIMIT_KEY) && AsksAt(query, j, CURSOR_KEY)
    requires forall n :: 0 <= n < |entries| ==> entries[n].key.Text? && entries[n].key.text != ""
    requires forall m, n :: 0 <= m < n < |entries| ==> TextBelow(entries[m].key.text, entries[n].key.text)
    requires AcceptsKeys(entries, refuses)
    ensures Run(Fetcher(CursorSource(engine, query, TextBelow, entries, refuses, size, i, j)), "", pages)
    ensures Concat(pages) == TableOf(entries)
  {
    var src, table := CursorSource(engine, query, TextBelow, entries, refuses, size, i, j), TableOf(entries);
    TextOrder();
    CursorsServed(engine, query, TextBelow, entries, refuses, size, i, j);
    KeysOfTable(entries);
    SortedHasNoTies(TextBelow, KeyIn(KEY_COLUMN), table, Limit(src));
    pages := ServedRun(src, TextBelow, table);
  }

  // ---- Queries that leave something out -----------------------------------

  function LimitAnswer(entries: seq<Entry>, args: seq<Value>, i: nat): Result<ResultSet, Error> {
    match NumberAt(args, i) case Some(n) => Ok(Answer(AtMost(n, entries))) case None => Err(QueryFailed)
  }

  /** Answers a query that asks for one row more than a page, but not from where. */
  function LimitSource(engine: Engine, query: string, entries: seq<Entry>, size: int, strategy: Strategy, i: nat)
    : Source
  {
    Source(engine, (text: string, args: seq<Value>) => LimitAnswer(entries, args, i), query,
           Some(Pagination(strategy, KEY_COLUMN)), size)
  }

  lemma LimitAnswered(engine: Engine, query: string, entries: seq<Entry>, size: int, strategy: Strategy, i: nat,
                      ctx: PageCtx)
    requires AsksPositions(query) && AsksAt(query, i, LIMIT_KEY) && ctx.limit >= 1 && ctx.primaryKey == KEY_COLUMN
    ensures Answers(LimitSource(engine, query, entries, size, strategy, i), Some(ctx), TableOf(entries))
  {
    LimitArg(engine, ctx, query, i);
    AtMostDelivers(entries, ctx);
  }

  /** The query never mentions where the page of the strategy starts. */
  predicate ForgetsStart(query: string, strategy: Strategy) {
    (strategy.OffsetStrategy? && !UsesKey(Lex(query), OFFSET_KEY))
    || (strategy.CursorStrategy? && !UsesKey(Lex(query), CURSOR_KEY))
  }

  lemma LimitAloneByOffset(engine: Engine, query: string, entries: seq<Entry>, size: int, i: nat)
    requires AsksPositions(query) && AsksAt(query, i, LIMIT_KEY) && ForgetsStart(query, OffsetStrategy)
    ensures var src := LimitSource(engine, query, entries, size, OffsetStrategy, i);
            (exists pages :: WholeRun(Fetcher(src), pages)) <==> |entries| <= Limit(src)
  {
    var src := LimitSource(engine, query, entries, size, OffsetStrategy, i);
    LimitAnswered(engine, query, entries, size, OffsetStrategy, i, OffsetPage(src, 0));
    ForgottenOffsetEnds(src, TableOf(entries));
  }

  /** The key of the last row of the first page is empty text. */
  predicate EndsWithEmptyKey(entries: seq<Entry>, limit: nat) {
    1 <= limit < |entries| && (entries[limit - 1].key == Text("") || entries[limit - 1].key == Bytes(""))
  }

  lemma EmptyKeyEnds(src: Source, entries: seq<Entry>)
    requires IsCursor(src) && src.opts.value.primaryKey == KEY_COLUMN && |entries| > Limit(src)
    ensures EndsEarly(src, TableOf(entries)) <==> EndsWithEmptyKey(entries, Limit(src))
  {
    var e := entries[Limit(src) - 1];
    KeyOfEntry(e);
    if e.key.Int? { PrintedOrder(0, e.key.n); }
  }

  lemma LimitAloneByCursor(engine: Engine, query: string, entries: seq<Entry>, size: int, i: nat)
    requires AsksPositions(query) && AsksAt(query, i, LIMIT_KEY) && ForgetsStart(query, CursorStrategy)
    ensures var src := LimitSource(engine, query, entries, size, CursorStrategy, i);
            (exists pages :: WholeRun(Fetcher(src), pages)) <==>
            |entries| <= Limit(src) || EndsWithEmptyKey(entries, Limit(src))
  {
    var src := LimitSource(engine, query, entries, size, CursorStrategy, i);
    LimitAnswered(engine, query, entries, size, CursorStrategy, i, CursorPage(src, ""));
    ForgottenCursorEnds(src, TableOf(entries));
    if |entries| > Limit(src) { EmptyKeyEnds(src, entries); }
  }

  /**
   * For every engine and table some database answers it so that a run ends only if one page is enough, or by cursor
   * also if the page ends with the empty key.
   */
  lemma LimitAloneEnds(engine: Engine, query: string, entries: seq<Entry>, size: int, strategy: Strategy, i: nat)
    requires AsksPositions(query) && AsksAt(query, i, LIMIT_KEY) && ForgetsStart(query, strategy)
    ensures var src := LimitSource(engine, query, entries, size, strategy, i);
            (exists pages :: WholeRun(Fetcher(src), pages)) <==>
            |entries| <= Limit(src) || (strategy == CursorStrategy && EndsWithEmptyKey(entries, Limit(src)))
  {
    if strategy == OffsetStrategy {
      LimitAloneByOffset(engine, query, entries, size, i);
    } else {
      LimitAloneByCursor(engine, query, entries, size, i);
    }
  }

  function WholeSource(engine: Engine, query: string, entries: seq<Entry>, size: int, opts: Option<Pagination>): Source
  {
    Source(engine, (text: string, args: seq<Value>) => Ok(Answer(entries)), query, opts, size)
  }

  /** A query without tokens is served, and completely, whatever its pagination. */
  lemma WholeServed(engine: Engine, query: string, entries: seq<Entry>, size: int, opts: Option<Pagination>,
                    below: Order)
    requires !HasToken(Lex(query)) && (opts.Some? ==> !opts.value.strategy.OtherStrategy?)
    ensures Serves(WholeSource(engine, query, entries, size, opts), below, TableOf(entries))
    ensures Complete(WholeSource(engine, query, entries, size, opts), below, TableOf(entries))
  {
    AnswerMaps(entries, |entries|);
  }
}
