/** One page of a query: `setupPagination`, `prepareQuery`, `runQuery` and `nextPageToken`. */
module Paging {
  import opened Wrappers
  import opened Decimal
  import opened Template
  import opened TemplateRewriters
  import opened SqlValues
  import opened Runs

  const MAX_PAGE_SIZE := 1000
  const MIN_PAGE_SIZE := 1
  const DEFAULT_PAGE_SIZE := 100

  datatype Pagination = Pagination(strategy: Strategy, primaryKey: string)

  /** The page a caller asks for: a size, and the token returned with the page before. */
  datatype PageToken = PageToken(size: int, token: string)

  /** One row of a result as `rows.Scan` meets it. */
  datatype Row = Row(values: seq<Value>) | Unscannable

  /** `failed`: the iteration ends with an error after the rows. */
  datatype ResultSet = ResultSet(columns: seq<string>, rows: seq<Row>, failed: bool)

  /** The database as a reader sees it: what it answers to a statement text with arguments. */
  type Db = (string, seq<Value>) -> Result<ResultSet, Error>

  /** What a row callback does with `acc`, the variables it has captured: go on, stop, or fail. */
  datatype Reply<A> = Reply(acc: A, ok: bool) | Refusal(error: Error)

  function Distance(a: int, b: int): nat { if a < b then b - a else a - b }

  /** The default for no page size, and otherwise the allowed size that is nearest to the one asked for. */
  function ClampPageSize(pageSize: int): (r: int)
    ensures 1 <= r <= 1000
    ensures pageSize == 0 ==> r == 100
    ensures pageSize != 0 ==> forall p :: 1 <= p <= 1000 ==> Distance(r, pageSize) <= Distance(p, pageSize)
  {
    if pageSize == 0 then DEFAULT_PAGE_SIZE
    else if pageSize > MAX_PAGE_SIZE then MAX_PAGE_SIZE
    else if pageSize < MIN_PAGE_SIZE then MIN_PAGE_SIZE
    else pageSize
  }

  /** The position a page token stands for, under its query's own pagination. */
  predicate StandsFor(page: PageToken, opts: Pagination, ctx: PageCtx) {
    ctx.strategy == opts.strategy && ctx.primaryKey == opts.primaryKey && ctx.limit == ClampPageSize(page.size)
    && (opts.strategy == OffsetStrategy ==>
          if page.token == "" then ctx.offset == 0 else ParseInt(page.token) == Some(ctx.offset))
    && (opts.strategy == CursorStrategy ==> ctx.cursor == page.token)
  }

  function SetupPagination(page: PageToken, opts: Option<Pagination>): (r: Result<Option<PageCtx>, Error>)
    ensures r.Ok? && r.value.Some? ==> MIN_PAGE_SIZE <= r.value.value.limit <= MAX_PAGE_SIZE
    ensures r == Err(BadOffset) <==>
            opts.Some? && opts.value.strategy.OffsetStrategy? && page.token != "" && ParseInt(page.token).None?
    ensures r == Err(UnknownStrategy) <==> opts.Some? && opts.value.strategy.OtherStrategy?
    ensures r == Ok(None) <==> opts.None?
    ensures r.Ok? && r.value.Some? ==> StandsFor(page, opts.value, r.value.value)
  {
    if opts.None? then Ok(None) else
    var Pagination(strategy, key) := opts.value;
    var ctx := PageCtx(strategy, ClampPageSize(page.size), 0, "", key);
    match strategy
    case OffsetStrategy =>
      if page.token == "" then Ok(Some(ctx))
      else (match ParseInt(page.token)
            case Some(offset) => Ok(Some(ctx.(offset := offset)))
            case None => Err(BadOffset))
    case CursorStrategy => Ok(Some(ctx.(cursor := page.token)))
    case OtherStrategy(_) => Err(UnknownStrategy)
  }

  function PrimaryKeyText(v: Value): Result<string, Error> {
    match v
    case Text(s) => Ok(s)
    case Bytes(b) => Ok(b)
    case Int(n) => Ok(Itoa(n))
    case _ => Err(BadKeyType)
  }

  /** Text keys are cursors as they are, strings or byte slices; integers are in decimal; nothing else can be one. */
  lemma KeyTexts(v: Value)
    ensures match v
            case Text(s) => PrimaryKeyText(v) == Ok(s)
            case Bytes(b) => PrimaryKeyText(v) == Ok(b)
            case Int(n) =>
              PrimaryKeyText(v).Ok? && (IsInt64(n) ==> ParseInt(PrimaryKeyText(v).value) == Some(n))
              && (n >= 0 ==> PrimaryKeyText(v).value == Digits(n))
              && (n < 0 ==> PrimaryKeyText(v).value == "-" + Digits(0 - n))
            case _ => PrimaryKeyText(v) == Err(BadKeyType)
  {
    if v.Int? { ParsePrinted(v.n); }
  }

  function NextPageToken(page: Option<PageCtx>, lastRowID: Value): Result<string, Error> {
    if page.None? then Ok("") else
    var ctx := page.value;
    match ctx.strategy
    case OffsetStrategy => Ok(Itoa(Wrap64(ctx.offset * ctx.limit + ctx.limit)))
    case CursorStrategy => PrimaryKeyText(lastRowID)
    case OtherStrategy(_) => Err(UnknownStrategy)
  }

  /**
   * A next token, given back with any page size, stands for the position it was made at: the wrapped next offset, or
   * the printed key of the last row.
   */
  lemma TokenStands(ctx: PageCtx, lastRowID: Value, size: int)
    requires NextPageToken(Some(ctx), lastRowID).Ok?
    ensures var token := NextPageToken(Some(ctx), lastRowID).value;
            var next := SetupPagination(PageToken(size, token), Some(Pagination(ctx.strategy, ctx.primaryKey)));
            next.Ok? && next.value.Some?
            && (ctx.strategy == OffsetStrategy ==>
                  next.value.value.offset == Wrap64(ctx.offset * ctx.limit + ctx.limit))
            && (ctx.strategy == CursorStrategy ==>
                  match lastRowID
                  case Text(s) => next.value.value.cursor == s
                  case Bytes(b) => next.value.value.cursor == b
                  case Int(n) => IsInt64(n) ==> ParseInt(next.value.value.cursor) == Some(n)
                  case _ => false)
  {
    if ctx.strategy == OffsetStrategy {
      ParsePrinted(Wrap64(ctx.offset * ctx.limit + ctx.limit));
    } else if lastRowID.Int? {
      ParsePrinted(lastRowID.n);
    }
  }

  /** The prepared statement with the page it depends on; a query without tokens depends on none. */
  function PreparedQuery(engine: Engine, page: PageToken, query: string, opts: Option<Pagination>)
    : (r: Result<(Statement, Option<PageCtx>), Error>)
    ensures r.Ok? && r.value.1.Some? ==> MIN_PAGE_SIZE <= r.value.1.value.limit <= MAX_PAGE_SIZE
    ensures r.Ok? ==> (r.value.1.Some? <==> opts.Some? && HasToken(Lex(query)))
  {
    match SetupPagination(page, opts)
    case Err(e) => Err(e)
    case Ok(ctx) =>
      match PagedStatement(engine, ctx, query)
      case Err(e) => Err(e)
      case Ok((s, used)) => Ok((s, if used then ctx else None))
  }

  /**
   * Preparing succeeds exactly when the token stands for a position and the query uses nothing but positions. A query
   * that is not paginated, or has no token, is sent as it is and depends on no page; any other is sent as what it
   * means at that position.
   */
  lemma PreparedMeaning(engine: Engine, page: PageToken, query: string, opts: Option<Pagination>)
    ensures var r, setup := PreparedQuery(engine, page, query, opts), SetupPagination(page, opts);
            (r.Ok? <==> setup.Ok? && (setup.value.Some? ==> AllKnown(Lex(query), PageVars(setup.value.value))))
            && (r.Ok? && !(opts.Some? && HasToken(Lex(query))) ==> r.value == (Statement(query, []), None))
            && (r.Ok? && opts.Some? && HasToken(Lex(query)) ==>
                  setup.Ok? && setup.value.Some? && AllKnown(Lex(query), PageVars(setup.value.value))
                  && r.value == (Compile(engine, Meaning(Lex(query), PageVars(setup.value.value))), setup.value))
  {
    var setup := SetupPagination(page, opts);
    if setup.Ok? && setup.value.Some? && !HasToken(Lex(query)) {
      TokenlessRewrite(engine, query, PageVars(setup.value.value));
    }
  }

  method PrepareQuery(engine: Engine, page: PageToken, query: string, opts: Option<Pagination>)
    returns (r: Result<(Statement, Option<PageCtx>), Error>)
    ensures r == PreparedQuery(engine, page, query, opts)
    ensures r.Ok? && !(opts.Some? && HasToken(Lex(query))) ==> r.value == (Statement(query, []), None)
    ensures r.Ok? && opts.Some? && HasToken(Lex(query)) ==>
              exists ctx :: StandsFor(page, opts.value, ctx) && AllKnown(Lex(query), PageVars(ctx))
                            && r.value == (Compile(engine, Meaning(Lex(query), PageVars(ctx))), Some(ctx))
  {
    PreparedMeaning(engine, page, query, opts);
    var ctx := SetupPagination(page, opts);
    if ctx.Err? {
      return Err(ctx.error);
    }
    var parsed := ParseQueryOpts(engine, ctx.value, query);
    if parsed.Err? {
      return Err(parsed.error);
    }
    return Ok((parsed.value.0, if parsed.value.1 then ctx.value else None));
  }

  // ---- runQuery -----------------------------------------------------------

  /** No later column has the same name. */
  ghost predicate IsLast(columns: seq<string>, k: nat) {
    k < |columns| && forall j :: k < j < |columns| ==> columns[j] != columns[k]
  }

  /** The row as a map from column names; of equal names the last column counts. */
  function MapOf(columns: seq<string>, values: seq<Value>): (m: RowMap)
    requires |columns| == |values|
    ensures forall c :: c in m <==> c in columns
  {
    if columns == [] then map[]
    else
      var n := |columns| - 1;
      assert columns == columns[..n] + [columns[n]];
      MapOf(columns[..n], values[..n])[columns[n] := values[n]]
  }

  lemma {:induction false} MapOfLast(columns: seq<string>, values: seq<Value>, k: nat)
    requires |columns| == |values| && IsLast(columns, k)
    ensures columns[k] in MapOf(columns, values) && MapOf(columns, values)[columns[k]] == values[k]
  {
    var n := |columns| - 1;
    if k < n { MapOfLast(columns[..n], values[..n], k); }
  }

  /** What one row is to the loop: its map and the key remembered so far, or why it cannot be used. */
  function ScannedRow(columns: seq<string>, row: Row, page: Option<PageCtx>, last: Value)
    : Result<(RowMap, Value), Error>
  {
    if row.Unscannable? || |row.values| != |columns| then Err(ScanFailed)
    else
      var rowMap := MapOf(columns, row.values);
      if page.None? then Ok((rowMap, last))
      else if page.value.primaryKey !in rowMap then Err(MissingKey)
      else Ok((rowMap, rowMap[page.value.primaryKey]))
  }

  /** How the row loop ends: the captured variables, the last key seen, and whether a surplus row was met. */
  datatype End<A> = End(acc: A, lastRowID: Value, surplus: bool)

  /** The row loop from row `i` on. */
  function Walk<A>(rs: ResultSet, page: Option<PageCtx>, callback: (A, RowMap) -> Reply<A>, i: nat, last: Value, acc: A)
    : Result<End<A>, Error>
    decreases |rs.rows| - i
  {
    if i >= |rs.rows| then if rs.failed then Err(IterationFailed) else Ok(End(acc, last, false))
    else if page.Some? && i + 1 > page.value.limit then Ok(End(acc, last, true))
    else match ScannedRow(rs.columns, rs.rows[i], page, last)
      case Err(e) => Err(e)
      case Ok((row, last')) =>
        match callback(acc, row)
        case Refusal(e) => Err(e)
        case Reply(acc', false) => Ok(End(acc', last', false))
        case Reply(acc', true) => Walk(rs, page, callback, i + 1, last', acc')
  }

  function PageOf<A>(rs: ResultSet, page: Option<PageCtx>, callback: (A, RowMap) -> Reply<A>, acc: A)
    : Result<Page<A>, Error>
  {
    match Walk(rs, page, callback, 0, Null, acc)
    case Err(e) => Err(e)
    case Ok(End(acc', last, surplus)) =>
      if !surplus then Ok(Page(acc', ""))
      else match NextPageToken(page, last)
        case Err(e) => Err(e)
        case Ok(token) => Ok(Page(acc', token))
  }

  function QueryPage<A>(engine: Engine, db: Db, page: PageToken, query: string, opts: Option<Pagination>,
                        callback: (A, RowMap) -> Reply<A>, acc: A): Result<Page<A>, Error>
  {
    match PreparedQuery(engine, page, query, opts)
    case Err(e) => Err(e)
    case Ok((s, ctx)) =>
      match db(s.text, s.args)
      case Err(e) => Err(e)
      case Ok(rs) => PageOf(rs, ctx, callback, acc)
  }

  /** Builds the row map from the scanned values, and picks up the primary key when a page needs it. */
  method CollectColumns(columns: seq<string>, values: array<Value>, page: Option<PageCtx>, last: Value)
    returns (rowMap: RowMap, lastRowID: Value, foundPaginationKey: bool)
    requires values.Length == |columns|
    ensures rowMap == MapOf(columns, values[..]) && rowMap.Keys == set c | c in columns
    ensures forall k: nat :: IsLast(columns, k) ==> columns[k] in rowMap && rowMap[columns[k]] == values[k]
    ensures foundPaginationKey == (page.Some? && page.value.primaryKey in columns)
    ensures lastRowID == if foundPaginationKey then rowMap[page.value.primaryKey] else last
    ensures forall k: nat :: page.Some? && IsLast(columns, k) && columns[k] == page.value.primaryKey ==>
              foundPaginationKey && lastRowID == values[k]
  {
    lastRowID, foundPaginationKey, rowMap := last, false, map[];
    for k := 0 to |columns|
      invariant rowMap == MapOf(columns[..k], values[..k])
      invariant foundPaginationKey == (page.Some? && page.value.primaryKey in rowMap)
      invariant lastRowID == if foundPaginationKey then rowMap[page.value.primaryKey] else last
    {
      assert columns[..k + 1][..k] == columns[..k] && values[..k + 1][..k] == values[..k];
      rowMap := rowMap[columns[k] := values[k]];
      if page.Some? && page.value.primaryKey == columns[k] {
        lastRowID := values[k];
        foundPaginationKey := true;
      }
    }
    assert columns[..|columns|] == columns && values[..|columns|] == values[..];
    forall k: nat | IsLast(columns, k) ensures columns[k] in rowMap && rowMap[columns[k]] == values[k] {
      MapOfLast(columns, values[..], k);
    }
  }

  /** Scans a row into the reused buffer and builds its map. */
  method ScanRow(columns: seq<string>, values: array<Value>, row: Row, page: Option<PageCtx>, last: Value)
    returns (r: Result<(RowMap, Value), Error>)
    requires values.Length == |columns|
    modifies values
    ensures r == ScannedRow(columns, row, page, last)
    ensures r == Err(ScanFailed) <==> row.Unscannable? || |row.values| != |columns|
    ensures r == Err(MissingKey) <==>
            row.Row? && |row.values| == |columns| && page.Some? && page.value.primaryKey !in columns
    ensures r.Ok? ==>
              (forall k: nat :: IsLast(columns, k) ==>
                 columns[k] in r.value.0 && r.value.0[columns[k]] == row.values[k]
                 && (page.Some? && columns[k] == page.value.primaryKey ==> r.value.1 == row.values[k]))
              && (page.None? ==> r.value.1 == last)
  {
    if row.Unscannable? || |row.values| != |columns| {
      return Err(ScanFailed);
    }
    forall k | 0 <= k < |columns| { values[k] := row.values[k]; }
    assert values[..] == row.values;
    var rowMap, lastRowID, foundPaginationKey := CollectColumns(columns, values, page, last);
    if page.Some? && !foundPaginationKey {
      return Err(MissingKey);
    }
    return Ok((rowMap, lastRowID));
  }

  /** The row loop: moves past a row, counts it, and stops before scanning a surplus one. */
  method WalkRows<A>(rs: ResultSet, ctx: Option<PageCtx>, callback: (A, RowMap) -> Reply<A>, captured: A)
    returns (r: Result<End<A>, Error>)
    requires ctx.Some? ==> ctx.value.limit >= MIN_PAGE_SIZE
    ensures r == Walk(rs, ctx, callback, 0, Null, captured)
  {
    var values := new Value[|rs.columns|](_ => Null);
    var acc := captured;
    var lastRowID := Null;
    var rowCount := 0;
    var stopped := false;
    ghost var walked := Walk(rs, ctx, callback, 0, Null, captured);
    while !stopped && rowCount < |rs.rows|
      invariant rowCount <= |rs.rows|
      invariant !stopped ==> walked == Walk(rs, ctx, callback, rowCount, lastRowID, acc)
      invariant !stopped && ctx.Some? ==> rowCount <= ctx.value.limit
      invariant stopped ==> walked == Ok(End(acc, lastRowID, ctx.Some? && rowCount > ctx.value.limit))
      decreases !stopped, |rs.rows| - rowCount
    {
      rowCount := rowCount + 1;
      if ctx.Some? && rowCount > ctx.value.limit {
        stopped := true;
      } else {
        var scanned := ScanRow(rs.columns, values, rs.rows[rowCount - 1], ctx, lastRowID);
        if scanned.Err? {
          return Err(scanned.error);
        }
        lastRowID := scanned.value.1;
        match callback(acc, scanned.value.0)
        case Refusal(e) => return Err(e);
        case Reply(acc', ok) =>
          acc := acc';
          stopped := !ok;
      }
    }
    if !stopped && rs.failed {
      return Err(IterationFailed);
    }
    return Ok(End(acc, lastRowID, ctx.Some? && rowCount > ctx.value.limit));
  }

  method RunQuery<A>(engine: Engine, db: Db, page: PageToken, query: string, opts: Option<Pagination>,
                     callback: (A, RowMap) -> Reply<A>, captured: A)
    returns (r: Result<Page<A>, Error>)
    ensures r == QueryPage(engine, db, page, query, opts, callback, captured)
    ensures var prepared := PreparedQuery(engine, page, query, opts);
            (prepared.Err? ==> r == Err(prepared.error))
            && (prepared.Ok? ==>
                  var Statement(text, args) := prepared.value.0;
                  if db(text, args).Err? then r == Err(db(text, args).error)
                  else r == PageOf(db(text, args).value, prepared.value.1, callback, captured))
  {
    var prepared := PrepareQuery(engine, page, query, opts);
    if prepared.Err? {
      return Err(prepared.error);
    }
    var (statement, ctx) := prepared.value;
    var answer := db(statement.text, statement.args);
    if answer.Err? {
      return Err(answer.error);
    }
    var walked := WalkRows(answer.value, ctx, callback, captured);
    if walked.Err? {
      return Err(walked.error);
    }
    var End(acc, lastRowID, surplus) := walked.value;
    var nextPageToken := "";
    if surplus {
      var token := NextPageToken(ctx, lastRowID);
      if token.Err? {
        return Err(token.error);
      }
      nextPageToken := token.value;
    }
    return Ok(Page(acc, nextPageToken));
  }
}
