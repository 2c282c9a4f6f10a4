/** What one page of a query delivers. */
module PageContract {
  import opened Wrappers
  import opened Listings
  import opened Decimal
  import opened Template
  import opened TemplateRewriters
  import opened SqlValues
  import opened Paging
  import opened Runs

  // ---- The contract of one page -------------------------------------------

  /** The first n rows can be scanned; those after them may be anything. */
  ghost predicate Scannable(rs: ResultSet, n: nat) {
    n <= |rs.rows| && forall i :: 0 <= i < n ==> IsScannable(rs, i)
  }

  predicate IsScannable(rs: ResultSet, i: nat)
    requires i < |rs.rows|
  {
    rs.rows[i].Row? && |rs.rows[i].values| == |rs.columns|
  }

  /** The first n rows as maps. */
  function Maps(rs: ResultSet, n: nat): (maps: seq<RowMap>)
    requires Scannable(rs, n)
    ensures |maps| == n
    ensures forall i :: 0 <= i < n ==> IsScannable(rs, i) && maps[i] == MapOf(rs.columns, rs.rows[i].values)
  {
    seq(n, i requires 0 <= i < n => assert IsScannable(rs, i); MapOf(rs.columns, rs.rows[i].values))
  }

  /** The callback accepts each of `rows` in turn. */
  predicate Accepts<A>(callback: (A, RowMap) -> Reply<A>, acc: A, rows: seq<RowMap>) {
    rows == [] || match callback(acc, rows[0])
                  case Reply(acc', true) => Accepts(callback, acc', rows[1..])
                  case _ => false
  }

  /** The captured variables after the callback has seen `rows`. */
  function Fold<A>(callback: (A, RowMap) -> Reply<A>, acc: A, rows: seq<RowMap>): A
    requires Accepts(callback, acc, rows)
  {
    if rows == [] then acc else Fold(callback, callback(acc, rows[0]).acc, rows[1..])
  }

  /** How many of `n` returned rows a page hands over. */
  function Handed(page: Option<PageCtx>, n: nat): nat
    requires page.Some? ==> page.value.limit >= 1
  {
    if page.Some? then Min(page.value.limit, n) else n
  }

  /** If there is a row at all, the result has the key column that a page needs. */
  ghost predicate HasKey(rs: ResultSet, page: Option<PageCtx>) {
    page.Some? && rs.rows != [] ==> page.value.primaryKey in rs.columns
  }

  /** An error that ends the iteration is met only if the page is not full before it. */
  ghost predicate EndsWell(rs: ResultSet, page: Option<PageCtx>)
    requires page.Some? ==> page.value.limit >= 1
  {
    rs.failed ==> Handed(page, |rs.rows|) < |rs.rows|
  }

  lemma {:induction false} WalkAccepts<A>(rs: ResultSet, page: Option<PageCtx>, callback: (A, RowMap) -> Reply<A>,
                                          i: nat, last: Value, acc: A)
    requires page.Some? ==> page.value.limit >= 1
    requires Scannable(rs, Handed(page, |rs.rows|)) && HasKey(rs, page) && EndsWell(rs, page)
    requires var h := Handed(page, |rs.rows|); i <= h && Accepts(callback, acc, Maps(rs, h)[i..])
    ensures var h := Handed(page, |rs.rows|);
            Walk(rs, page, callback, i, last, acc) ==
            Ok(End(Fold(callback, acc, Maps(rs, h)[i..]),
                   if page.Some? && h > i then Maps(rs, h)[h - 1][page.value.primaryKey] else last, h < |rs.rows|))
    decreases |rs.rows| - i
  {
    var maps := Maps(rs, Handed(page, |rs.rows|));
    if i < |maps| {
      var row := maps[i];
      assert IsScannable(rs, i);
      assert maps[i..][0] == row && maps[i..][1..] == maps[i + 1..];
      var last' := if page.Some? then row[page.value.primaryKey] else last;
      WalkAccepts(rs, page, callback, i + 1, last', callback(acc, row).acc);
    }
  }

  /**
   * The page contract: a callback that always accepts sees exactly the first min(limit, n) of the n returned rows,
   * in order, whether or not the query heeded the limit; a next token is made exactly when there was a surplus row,
   * and from the primary key of the last row handed over. Without a page every row is delivered and the run ends.
   * Surplus rows need not be readable, and an error that ends the iteration is only met when there are none.
   */
  lemma PageDelivers<A>(rs: ResultSet, page: Option<PageCtx>, callback: (A, RowMap) -> Reply<A>, acc: A)
    requires page.Some? ==> page.value.limit >= 1
    requires Scannable(rs, Handed(page, |rs.rows|)) && HasKey(rs, page) && EndsWell(rs, page)
    requires Accepts(callback, acc, Maps(rs, Handed(page, |rs.rows|)))
    ensures var h := Handed(page, |rs.rows|);
            var seen := Fold(callback, acc, Maps(rs, h));
            PageOf(rs, page, callback, acc) ==
            if h == |rs.rows| then Ok(Page(seen, ""))
            else match NextPageToken(page, Maps(rs, h)[h - 1][page.value.primaryKey])
                 case Ok(token) => Ok(Page(seen, token))
                 case Err(e) => Err(e)
  {
    var maps := Maps(rs, Handed(page, |rs.rows|));
    assert maps[0..] == maps;
    WalkAccepts(rs, page, callback, 0, Null, acc);
  }

  /** The walk reaches row k with what the callback has made of the rows before it. */
  lemma {:induction false} WalkReaches<A>(rs: ResultSet, page: Option<PageCtx>, callback: (A, RowMap) -> Reply<A>,
                                          i: nat, k: nat, last: Value, acc: A)
    returns (last': Value)
    requires page.Some? ==> page.value.limit >= 1
    requires Scannable(rs, k) && HasKey(rs, page) && i <= k <= Handed(page, |rs.rows|)
    requires Accepts(callback, acc, Maps(rs, k)[i..])
    ensures Walk(rs, page, callback, i, last, acc) ==
            Walk(rs, page, callback, k, last', Fold(callback, acc, Maps(rs, k)[i..]))
    decreases k - i
  {
    var maps := Maps(rs, k);
    if i < k {
      var row := maps[i];
      assert IsScannable(rs, i);
      assert maps[i..][0] == row && maps[i..][1..] == maps[i + 1..];
      var next := if page.Some? then row[page.value.primaryKey] else last;
      last' := WalkReaches(rs, page, callback, i + 1, k, next, callback(acc, row).acc);
    } else {
      last' := last;
    }
  }

  /** A callback that stops or fails at row k ends the whole run there: no next token, whatever rows are left. */
  lemma StoppedPage<A>(rs: ResultSet, page: Option<PageCtx>, callback: (A, RowMap) -> Reply<A>, acc: A, k: nat)
    requires page.Some? ==> page.value.limit >= 1
    requires Scannable(rs, k + 1) && HasKey(rs, page) && k < Handed(page, |rs.rows|)
    requires Scannable(rs, k) && Accepts(callback, acc, Maps(rs, k))
    ensures match callback(Fold(callback, acc, Maps(rs, k)), Maps(rs, k + 1)[k])
            case Refusal(e) => PageOf(rs, page, callback, acc) == Err(e)
            case Reply(acc', ok) => !ok ==> PageOf(rs, page, callback, acc) == Ok(Page(acc', ""))
  {
    assert Maps(rs, k)[0..] == Maps(rs, k) && IsScannable(rs, k);
    var last := WalkReaches(rs, page, callback, 0, k, Null, acc);
  }

  /** A row on the page that cannot be scanned fails it, unless it has failed before. */
  lemma {:induction false} UnscannableFails(rs: ResultSet, page: Option<PageCtx>, i: nat, k: nat, last: Value,
                                            acc: seq<RowMap>)
    requires page.Some? ==> page.value.limit >= 1
    requires i <= k < Handed(page, |rs.rows|) && !IsScannable(rs, k)
    ensures Walk(rs, page, Collect, i, last, acc).Err?
    decreases k - i
  {
    var scanned := ScannedRow(rs.columns, rs.rows[i], page, last);
    if scanned.Ok? {
      assert i < k;
      var (row, last') := scanned.value;
      UnscannableFails(rs, page, i + 1, k, last', acc + [row]);
    }
  }

  // ---- Collecting rows ----------------------------------------------------

  /** The callback that keeps every row. */
  function Collect(acc: seq<RowMap>, row: RowMap): Reply<seq<RowMap>> { Reply(acc + [row], true) }

  lemma {:induction false} CollectFolds(acc: seq<RowMap>, rows: seq<RowMap>)
    ensures Accepts(Collect, acc, rows) && Fold(Collect, acc, rows) == acc + rows
    decreases rows
  {
    if rows == [] {
      assert acc + rows == acc;
    } else {
      CollectFolds(acc + [rows[0]], rows[1..]);
      assert acc + [rows[0]] + rows[1..] == acc + rows;
    }
  }

  /** A configured query, on a database, read in pages of a given size. */
  datatype Source = Source(engine: Engine, db: Db, query: string, opts: Option<Pagination>, size: int)

  function Rows(src: Source, token: string): Result<Page<seq<RowMap>>, Error> {
    QueryPage(src.engine, src.db, PageToken(src.size, token), src.query, src.opts, Collect, [])
  }

  /**
   * The answer starts with the rows of the page that is cut from the `wanted` ones, with the key column, and has more
   * rows than the page just when there are more. Which those are does not matter, nor does an error after them.
   */
  ghost predicate Delivers(rs: ResultSet, wanted: seq<RowMap>, page: Option<PageCtx>)
    requires page.Some? ==> page.value.limit >= 1
  {
    var h := Handed(page, |wanted|);
    HasKey(rs, page) && Handed(page, |rs.rows|) == h && (|rs.rows| > h <==> |wanted| > h) && EndsWell(rs, page)
    && Scannable(rs, h) && Maps(rs, h) == wanted[..h]
  }

  /** The database answers the query, rewritten for `page`, with the `wanted` rows. */
  ghost predicate Answers(src: Source, page: Option<PageCtx>, wanted: seq<RowMap>)
    requires page.Some? ==> page.value.limit >= 1
  {
    match PagedStatement(src.engine, page, src.query)
    case Err(_) => false
    case Ok((s, used)) =>
      match src.db(s.text, s.args)
      case Err(_) => false
      case Ok(rs) => used == page.Some? && Delivers(rs, wanted, page)
  }

  /** The page that is cut from the `wanted` rows. */
  function PageFor(page: Option<PageCtx>, wanted: seq<RowMap>): Result<Page<seq<RowMap>>, Error>
    requires page.Some? ==> page.value.limit >= 1
  {
    if page.None? || |wanted| <= page.value.limit then Ok(Page(wanted, ""))
    else
      var n, key := page.value.limit, page.value.primaryKey;
      if key !in wanted[n - 1] then Err(MissingKey)
      else match NextPageToken(page, wanted[n - 1][key])
        case Ok(next) => Ok(Page(wanted[..n], next))
        case Err(e) => Err(e)
  }

  /** A database that answers with the `wanted` rows delivers the page cut from them. */
  lemma AnsweredPage(src: Source, token: string, page: Option<PageCtx>, wanted: seq<RowMap>)
    requires SetupPagination(PageToken(src.size, token), src.opts) == Ok(page) && Answers(src, page, wanted)
    ensures Rows(src, token) == PageFor(page, wanted)
  {
    var (s, used) := PagedStatement(src.engine, page, src.query).value;
    var rs := src.db(s.text, s.args).value;
    DeliveredPage(rs, page, wanted);
  }

  lemma DeliveredPage(rs: ResultSet, page: Option<PageCtx>, wanted: seq<RowMap>)
    requires page.Some? ==> page.value.limit >= 1
    requires Delivers(rs, wanted, page)
    ensures PageOf(rs, page, Collect, []) == PageFor(page, wanted)
  {
    var h := Handed(page, |wanted|);
    CollectedPage(rs, page);
    if h < |wanted| {
      assert Maps(rs, h)[h - 1] == wanted[h - 1];
    } else {
      assert wanted[..h] == wanted;
    }
  }

  lemma CollectedPage(rs: ResultSet, page: Option<PageCtx>)
    requires page.Some? ==> page.value.limit >= 1
    requires Scannable(rs, Handed(page, |rs.rows|)) && HasKey(rs, page) && EndsWell(rs, page)
    ensures var h := Handed(page, |rs.rows|);
            PageOf(rs, page, Collect, []) ==
            if h == |rs.rows| then Ok(Page(Maps(rs, h), ""))
            else match NextPageToken(page, Maps(rs, h)[h - 1][page.value.primaryKey])
                 case Ok(token) => Ok(Page(Maps(rs, h), token))
                 case Err(e) => Err(e)
  {
    var rows := Maps(rs, Handed(page, |rs.rows|));
    CollectFolds([], rows);
    assert [] + rows == rows;
    PageDelivers(rs, page, Collect, []);
  }

  /** An iteration that fails before the page is full fails the page. */
  lemma FailedPage(rs: ResultSet, page: Option<PageCtx>)
    requires page.Some? ==> page.value.limit >= 1
    requires Scannable(rs, |rs.rows|) && HasKey(rs, page) && rs.failed && Handed(page, |rs.rows|) == |rs.rows|
    ensures PageOf(rs, page, Collect, []) == Err(IterationFailed)
  {
    var n := |rs.rows|;
    CollectFolds([], Maps(rs, n)[0..]);
    var last := WalkReaches(rs, page, Collect, 0, n, Null, []);
  }

  lemma KeylessFails(rs: ResultSet, page: PageCtx)
    requires page.limit >= 1 && rs.rows != [] && page.primaryKey !in rs.columns
    ensures PageOf(rs, Some(page), Collect, []).Err?
  {
  }

  /** The next token can be made from the last row of a full page. */
  predicate HasNext(rs: ResultSet, page: PageCtx)
    requires 1 <= page.limit < |rs.rows| && IsScannable(rs, page.limit - 1) && page.primaryKey in rs.columns
  {
    NextPageToken(Some(page), MapOf(rs.columns, rs.rows[page.limit - 1].values)[page.primaryKey]).Ok?
  }

  /**
   * A page is delivered if and only if all its rows can be scanned; its primary key is a column of the result, or there
   * is no row; and, of a result that fits the page, no error ends the iteration, while of one that does not, a next
   * token can be made. Surplus rows and what comes after them do not matter.
   */
  lemma PageSucceeds(rs: ResultSet, page: PageCtx)
    requires page.limit >= 1
    ensures PageOf(rs, Some(page), Collect, []).Ok? <==>
            Scannable(rs, Min(page.limit, |rs.rows|)) && (rs.rows == [] || page.primaryKey in rs.columns)
            && if |rs.rows| <= page.limit then !rs.failed
               else IsScannable(rs, page.limit - 1) && HasNext(rs, page)
  {
    var h := Min(page.limit, |rs.rows|);
    if rs.rows != [] && page.primaryKey !in rs.columns {
      KeylessFails(rs, page);
    } else if !Scannable(rs, h) {
      var k: nat :| k < h && !IsScannable(rs, k);
      UnscannableFails(rs, Some(page), 0, k, Null, []);
    } else if rs.failed && |rs.rows| <= page.limit {
      FailedPage(rs, Some(page));
    } else {
      CollectedPage(rs, Some(page));
    }
  }

  /** Without a page the result is delivered if and only if all its rows can be scanned and no error ends it. */
  lemma WholeSucceeds(rs: ResultSet)
    ensures PageOf(rs, None, Collect, []).Ok? <==> Scannable(rs, |rs.rows|) && !rs.failed
    ensures PageOf(rs, None, Collect, []).Ok? ==> PageOf(rs, None, Collect, []) == Ok(Page(Maps(rs, |rs.rows|), ""))
  {
    if !Scannable(rs, |rs.rows|) {
      var k: nat :| k < |rs.rows| && !IsScannable(rs, k);
      UnscannableFails(rs, None, 0, k, Null, []);
    } else if rs.failed {
      FailedPage(rs, None);
    } else {
      CollectedPage(rs, None);
    }
  }

  /** So even with the offset strategy, which has no use for the key, any row must come with the primary key column. */
  lemma KeyIsRequired(rs: ResultSet, page: PageCtx)
    requires page.limit >= 1 && page.strategy == OffsetStrategy
    requires Scannable(rs, Min(page.limit, |rs.rows|)) && (rs.failed ==> |rs.rows| > page.limit)
    ensures PageOf(rs, Some(page), Collect, []).Ok? <==> rs.rows == [] || page.primaryKey in rs.columns
  {
    PageSucceeds(rs, page);
  }

  lemma LastKey(rs: ResultSet, n: nat, k: nat, column: string)
    requires 1 <= n && Scannable(rs, n) && IsLast(rs.columns, k) && rs.columns[k] == column
    ensures IsScannable(rs, n - 1) && column in Maps(rs, n)[n - 1]
    ensures Maps(rs, n)[n - 1][column] == rs.rows[n - 1].values[k]
  {
    assert IsScannable(rs, n - 1);
    MapOfLast(rs.columns, rs.rows[n - 1].values, k);
  }

  lemma FullCursorPage(rs: ResultSet, page: PageCtx, k: nat)
    requires 1 <= page.limit < |rs.rows| && page.strategy == CursorStrategy && Scannable(rs, page.limit)
    requires IsLast(rs.columns, k) && rs.columns[k] == page.primaryKey && IsScannable(rs, page.limit - 1)
    ensures PageOf(rs, Some(page), Collect, []) ==
            match PrimaryKeyText(rs.rows[page.limit - 1].values[k])
            case Ok(token) => Ok(Page(Maps(rs, page.limit), token))
            case Err(e) => Err(e)
  {
    CollectedPage(rs, Some(page));
    LastKey(rs, page.limit, k, page.primaryKey);
  }

  /** The next token of a full cursor page is the key of its last row, as the text it is. */
  lemma CursorOfLastRow(rs: ResultSet, page: PageCtx, k: nat)
    requires 1 <= page.limit < |rs.rows| && page.strategy == CursorStrategy && Scannable(rs, page.limit)
    requires IsLast(rs.columns, k) && rs.columns[k] == page.primaryKey && IsScannable(rs, page.limit - 1)
    ensures var out := PageOf(rs, Some(page), Collect, []);
            match rs.rows[page.limit - 1].values[k]
            case Text(s) => out.Ok? && out.value.next == s
            case Bytes(b) => out.Ok? && out.value.next == b
            case Int(n) => out.Ok? && (IsInt64(n) ==> ParseInt(out.value.next) == Some(n))
            case _ => out == Err(BadKeyType)
  {
    FullCursorPage(rs, page, k);
    KeyTexts(rs.rows[page.limit - 1].values[k]);
  }

  // ---- Mapping rows -------------------------------------------------------

  /** What `f` makes of each of the rows, in order, or the first error. */
  function FlatMap<G>(f: RowMap -> Result<seq<G>, Error>, rows: seq<RowMap>): Result<seq<G>, Error> {
    if rows == [] then Ok([]) else Both(f(rows[0]), FlatMap(f, rows[1..]))
  }

  /** The callback that appends what `f` makes of a row, and fails when `f` does. */
  function Mapping<G>(f: RowMap -> Result<seq<G>, Error>): (seq<G>, RowMap) -> Reply<seq<G>> {
    (acc: seq<G>, row) => match f(row) case Ok(items) => Reply(acc + items, true) case Err(e) => Refusal(e)
  }

  lemma {:induction false} FlatMapAppend<G>(f: RowMap -> Result<seq<G>, Error>, a: seq<RowMap>, b: seq<RowMap>)
    ensures FlatMap(f, a + b) == Both(FlatMap(f, a), FlatMap(f, b))
  {
    if a == [] {
      assert a + b == b;
      BothNothing(FlatMap(f, b));
    } else {
      FlatMapAppend(f, a[1..], b);
      FrontOfAppend(a, b);
      BothAssociative(f(a[0]), FlatMap(f, a[1..]), FlatMap(f, b));
    }
  }

  /** Walking with a mapping callback maps the rows that a collecting walk keeps. */
  lemma {:induction false} WalkMaps<G>(rs: ResultSet, page: Option<PageCtx>, f: RowMap -> Result<seq<G>, Error>, i: nat,
                                       last: Value, rows: seq<RowMap>, acc: seq<G>)
    requires Walk(rs, page, Collect, i, last, rows).Ok?
    ensures var End(out, last', surplus) := Walk(rs, page, Collect, i, last, rows).value;
            rows <= out
            && Walk(rs, page, Mapping(f), i, last, acc) ==
               match FlatMap(f, out[|rows|..])
               case Err(e) => Err(e)
               case Ok(items) => Ok(End(acc + items, last', surplus))
    decreases |rs.rows| - i, 1
  {
    if i >= |rs.rows| || (page.Some? && i + 1 > page.value.limit) {
      assert rows[|rows|..] == [] && acc + [] == acc;
    } else {
      var row := MapOf(rs.columns, rs.rows[i].values);
      var last' := if page.Some? then row[page.value.primaryKey] else last;
      WalkMapsStep(rs, page, f, i + 1, last', rows, acc, row);
    }
  }

  lemma {:induction false} WalkMapsStep<G>(rs: ResultSet, page: Option<PageCtx>, f: RowMap -> Result<seq<G>, Error>,
                                           i: nat, last: Value, rows: seq<RowMap>, acc: seq<G>, row: RowMap)
    requires Walk(rs, page, Collect, i, last, rows + [row]).Ok?
    ensures var End(out, last', surplus) := Walk(rs, page, Collect, i, last, rows + [row]).value;
            rows + [row] <= out
            && FlatMap(f, out[|rows|..]) == Both(f(row), FlatMap(f, out[|rows| + 1..]))
            && (f(row).Ok? ==>
                  Walk(rs, page, Mapping(f), i, last, acc + f(row).value) ==
                  match FlatMap(f, out[|rows|..])
                  case Err(e) => Err(e)
                  case Ok(items) => Ok(End(acc + items, last', surplus)))
    decreases |rs.rows| - i, 2
  {
    WalkMaps(rs, page, f, i, last, rows + [row], if f(row).Ok? then acc + f(row).value else acc);
    var out := Walk(rs, page, Collect, i, last, rows + [row]).value.acc;
    assert out[|rows|] == row && out[|rows|..][1..] == out[|rows| + 1..];
    var rest := FlatMap(f, out[|rows| + 1..]);
    if f(row).Ok? && rest.Ok? {
      assert acc + f(row).value + rest.value == acc + (f(row).value + rest.value);
    }
  }

  /** What stops a collecting walk stops a mapping one, if no mapping has stopped it before. */
  lemma {:induction false} WalkMapsFails<G>(rs: ResultSet, page: Option<PageCtx>, f: RowMap -> Result<seq<G>, Error>,
                                            i: nat, last: Value, rows: seq<RowMap>, acc: seq<G>)
    requires Walk(rs, page, Collect, i, last, rows).Err?
    ensures Walk(rs, page, Mapping(f), i, last, acc).Err?
    decreases |rs.rows| - i
  {
    if i < |rs.rows| && !(page.Some? && i + 1 > page.value.limit) {
      var scanned := ScannedRow(rs.columns, rs.rows[i], page, last);
      if scanned.Ok? && f(scanned.value.0).Ok? {
        var (row, last') := scanned.value;
        WalkMapsFails(rs, page, f, i + 1, last', rows + [row], acc + f(row).value);
      }
    }
  }

  /** No lister that maps rows returns a page that a collecting one does not. */
  lemma UnmappedPage<G>(src: Source, token: string, f: RowMap -> Result<seq<G>, Error>)
    requires Rows(src, token).Err?
    ensures QueryPage(src.engine, src.db, PageToken(src.size, token), src.query, src.opts, Mapping(f), []).Err?
  {
    var prepared := PreparedQuery(src.engine, PageToken(src.size, token), src.query, src.opts);
    if prepared.Ok? && src.db(prepared.value.0.text, prepared.value.0.args).Ok? {
      var (s, page) := prepared.value;
      var rs := src.db(s.text, s.args).value;
      if Walk(rs, page, Collect, 0, Null, []).Err? {
        WalkMapsFails(rs, page, f, 0, Null, [], []);
      } else {
        WalkMaps(rs, page, f, 0, Null, [], []);
      }
    }
  }

  /** A lister that maps rows returns the mapped rows of the page, with the same next token, or the first error. */
  lemma MappedPage<G>(src: Source, token: string, f: RowMap -> Result<seq<G>, Error>)
    requires Rows(src, token).Ok?
    ensures var Page(rows, next) := Rows(src, token).value;
            QueryPage(src.engine, src.db, PageToken(src.size, token), src.query, src.opts, Mapping(f), []) ==
            match FlatMap(f, rows) case Ok(items) => Ok(Page(items, next)) case Err(e) => Err(e)
  {
    var (s, page) := PreparedQuery(src.engine, PageToken(src.size, token), src.query, src.opts).value;
    var rs := src.db(s.text, s.args).value;
    WalkMaps(rs, page, f, 0, Null, [], []);
    var out := Walk(rs, page, Collect, 0, Null, []).value.acc;
    assert out[0..] == out;
    assert FlatMap(f, out).Ok? ==> [] + FlatMap(f, out).value == FlatMap(f, out).value;
  }

  function Fetcher(src: Source): Fetch<RowMap> { token => Rows(src, token) }

  /** Pages do not matter to the query: it is not paginated, or has no token. */
  predicate IsUnpaged(src: Source) {
    src.opts.None? || (!src.opts.value.strategy.OtherStrategy? && !HasToken(Lex(src.query)))
  }

  /** Such a query is sent as it is for any page token that can be read, and delivers everything at once. */
  lemma UnpagedPage(src: Source, token: string, table: seq<RowMap>)
    requires IsUnpaged(src) && SetupPagination(PageToken(src.size, token), src.opts).Ok? && Answers(src, None, table)
    ensures Rows(src, token) == Ok(Page(table, ""))
  {
    PreparedMeaning(src.engine, PageToken(src.size, token), src.query, src.opts);
    DeliveredPage(src.db(src.query, []).value, None, table);
  }

  /** The whole run is that one page. */
  lemma UnpagedRun(src: Source, table: seq<RowMap>)
    requires IsUnpaged(src) && Answers(src, None, table)
    ensures Run(Fetcher(src), "", [table])
  {
    UnpagedPage(src, "", table);
    assert Fetcher(src)("") == Ok(Page(table, ""));
  }

  method FetchRows(src: Source, token: string) returns (r: Result<Page<seq<RowMap>>, Error>)
    ensures r == Fetcher(src)(token)
  {
    r := RunQuery(src.engine, src.db, PageToken(src.size, token), src.query, src.opts, Collect, []);
  }

  /** One page of a run is taken. */
  lemma RunStep(fetch: Fetch<RowMap>, token: string, rest: seq<seq<RowMap>>, out: seq<RowMap>)
    requires Run(fetch, token, rest)
    ensures fetch(token).Ok?
    ensures var Page(rows, next) := fetch(token).value;
            if next == "" then out + Concat(rest) == out + rows
            else Run(fetch, next, rest[1..]) && out + Concat(rest) == out + rows + Concat(rest[1..])
  {
    if fetch(token).value.next == "" {
      ConcatOne(rest[0]);
      assert rest == [rest[0]];
    } else {
      Associative(out, rest[0], Concat(rest[1..]));
    }
  }

  /** The caller of a lister: asks for pages, feeding back each token, until the token is empty. */
  method Drain(src: Source, ghost pages: seq<seq<RowMap>>) returns (out: seq<RowMap>)
    requires Run(Fetcher(src), "", pages)
    ensures out == Concat(pages)
  {
    out := [];
    var token := "";
    ghost var fetch, rest := Fetcher(src), pages;
    while true
      invariant Run(fetch, token, rest) && Concat(pages) == out + Concat(rest)
      decreases |rest|
    {
      var page := FetchRows(src, token);
      RunStep(fetch, token, rest, out);
      out := out + page.value.acc;
      if page.value.next == "" {
        return;
      }
      token := page.value.next;
      rest := rest[1..];
    }
  }
}
