/** Whole runs of configured queries, on a database that answers each page as it should. */
module Sources {
  import opened Wrappers
  import opened Decimal
  import opened Template
  import opened TemplateRewriters
  import opened SqlValues
  import opened Paging
  import opened PageContract
  import opened Runs
  import opened OffsetRuns
  import opened CursorRuns

  // ---- Offset queries -----------------------------------------------------

  predicate IsOffset(src: Source) { src.opts.Some? && src.opts.value.strategy == OffsetStrategy }

  function Limit(src: Source): (l: nat)
    ensures l >= 1
  {
    ClampPageSize(src.size)
  }

  function OffsetPage(src: Source, offset: int): PageCtx
    requires IsOffset(src)
  {
    PageCtx(OffsetStrategy, Limit(src), offset, "", src.opts.value.primaryKey)
  }

  /** The database answers each page of the query, at an int64, with the rows of `table` from its offset on. */
  ghost predicate ServesOffsets(src: Source, table: seq<RowMap>) {
    IsOffset(src)
    && forall o: nat :: o <= MAX_INT64 ==> Answers(src, Some(OffsetPage(src, o)), table[Min(o, |table|)..])
  }

  /** The token of an offset is empty at the start and otherwise the printed offset. */
  predicate TokenOf(token: string, offset: int) {
    (token == "" && offset == 0) || (token == Itoa(offset) && IsInt64(offset))
  }

  lemma TokenSetsUp(src: Source, token: string, offset: int)
    requires IsOffset(src) && TokenOf(token, offset)
    ensures SetupPagination(PageToken(src.size, token), src.opts) == Ok(Some(OffsetPage(src, offset)))
  {
    ParsePrinted(offset);
  }

  /** No offset that a run asks for overflows an int64. */
  ghost predicate OffsetsFit(n: nat, limit: nat) {
    forall o: nat :: o + limit < n ==> Multiplied(limit)(o) <= MAX_INT64
  }

  /** A next token is only made while rows are left, so it is enough that the table's length times the limit fits. */
  lemma NoOverflow(n: nat, limit: nat)
    requires n * limit <= MAX_INT64
    ensures OffsetsFit(n, limit)
  {
    forall o: nat | o + limit < n ensures Multiplied(limit)(o) <= MAX_INT64 { Distribute(o, n, limit); }
  }

  lemma {:induction false} Distribute(offset: nat, n: nat, limit: nat)
    requires offset < n
    ensures offset * limit + limit <= n * limit
    decreases limit
  {
    if limit > 0 {
      Distribute(offset, n, limit - 1);
      assert offset * limit == offset * (limit - 1) + offset;
      assert n * limit == n * (limit - 1) + n;
    }
  }

  lemma OffsetNextToken(src: Source, offset: nat)
    requires IsOffset(src) && Multiplied(Limit(src))(offset) <= MAX_INT64
    ensures forall key :: NextPageToken(Some(OffsetPage(src, offset)), key) == Ok(Itoa(Multiplied(Limit(src))(offset)))
  {
  }

  /** A page whose next token does not depend on the last key. */
  lemma KeylessPage(src: Source, token: string, page: PageCtx, wanted: seq<RowMap>, next: string)
    requires page.limit >= 1 && SetupPagination(PageToken(src.size, token), src.opts) == Ok(Some(page))
    requires Answers(src, Some(page), wanted)
    requires page.limit < |wanted| ==> forall key :: NextPageToken(Some(page), key) == Ok(next)
    ensures Rows(src, token) == Ok(if page.limit < |wanted| then Page(wanted[..page.limit], next) else Page(wanted, ""))
  {
    AnsweredPage(src, token, Some(page), wanted);
    AnswersHaveKey(src, page, wanted);
    KeylessCut(page, wanted, next);
  }

  lemma KeylessCut(page: PageCtx, wanted: seq<RowMap>, next: string)
    requires page.limit >= 1
    requires page.limit < |wanted| ==>
               page.primaryKey in wanted[page.limit - 1] && forall key :: NextPageToken(Some(page), key) == Ok(next)
    ensures PageFor(Some(page), wanted) ==
            Ok(if page.limit < |wanted| then Page(wanted[..page.limit], next) else Page(wanted, ""))
  {
  }

  lemma DeliveredHaveKey(rs: ResultSet, page: PageCtx, wanted: seq<RowMap>)
    requires page.limit >= 1 && Delivers(rs, wanted, Some(page)) && page.limit < |wanted|
    ensures page.primaryKey in wanted[page.limit - 1]
  {
    assert Maps(rs, page.limit)[page.limit - 1] == wanted[page.limit - 1];
  }

  lemma AnswersHaveKey(src: Source, page: PageCtx, wanted: seq<RowMap>)
    requires page.limit >= 1 && Answers(src, Some(page), wanted)
    ensures page.limit < |wanted| ==> page.primaryKey in wanted[page.limit - 1]
  {
    var (s, used) := PagedStatement(src.engine, Some(page), src.query).value;
    if page.limit < |wanted| { DeliveredHaveKey(src.db(s.text, s.args).value, page, wanted); }
  }

  lemma ServedAt(src: Source, table: seq<RowMap>, offset: nat)
    requires ServesOffsets(src, table) && offset <= MAX_INT64
    ensures Answers(src, Some(OffsetPage(src, offset)), table[Min(offset, |table|)..])
  {
  }

  lemma OffsetPageRows(src: Source, table: seq<RowMap>, token: string, offset: nat)
    requires ServesOffsets(src, table) && TokenOf(token, offset) && OffsetsFit(|table|, Limit(src))
    ensures Rows(src, token) == Ok(PageAt(table, Limit(src), Multiplied(Limit(src)), Itoa, offset))
  {
    var step := Multiplied(Limit(src));
    var wanted := table[Min(offset, |table|)..];
    ServedAt(src, table, offset);
    TokenSetsUp(src, token, offset);
    if Limit(src) < |wanted| { OffsetNextToken(src, offset); }
    KeylessPage(src, token, OffsetPage(src, offset), wanted, Itoa(step(offset)));
    PageAtCuts(table, Limit(src), step, Itoa, offset);
  }

  /** Every printed offset fetches its page. */
  lemma OffsetFetches(src: Source, table: seq<RowMap>)
    requires ServesOffsets(src, table) && OffsetsFit(|table|, Limit(src))
    ensures forall o: nat :: Itoa(o) != ""
    ensures forall o: nat :: o <= MAX_INT64 ==>
              Fetcher(src)(Itoa(o)) == Ok(PageAt(table, Limit(src), Multiplied(Limit(src)), Itoa, o))
    ensures Fetcher(src)("") == Ok(PageAt(table, Limit(src), Multiplied(Limit(src)), Itoa, 0))
  {
    forall o: nat ensures Itoa(o) != "" {}
    forall o: nat | o <= MAX_INT64
      ensures Fetcher(src)(Itoa(o)) == Ok(PageAt(table, Limit(src), Multiplied(Limit(src)), Itoa, o))
    {
      OffsetPageRows(src, table, Itoa(o), o);
    }
    OffsetPageRows(src, table, "", 0);
  }

  /** Feeding back each token yields exactly the pages at multiplied offsets. */
  lemma OffsetRun(src: Source, table: seq<RowMap>)
    requires ServesOffsets(src, table) && OffsetsFit(|table|, Limit(src))
    ensures Advances(Multiplied(Limit(src)), Limit(src))
    ensures Run(Fetcher(src), "", Pages(table, Limit(src), Multiplied(Limit(src)), 0))
  {
    OffsetFetches(src, table);
    MultipliedAdvances(Limit(src));
    RunOfPages(Fetcher(src), table, Limit(src), Multiplied(Limit(src)), Itoa, MAX_INT64, "", 0);
  }

  /** A run of an offset query delivers all of its table exactly when a page is one row or two pages hold the table. */
  lemma OffsetRunDelivers(src: Source, table: seq<RowMap>, pages: seq<seq<RowMap>>)
    requires ServesOffsets(src, table) && |table| * Limit(src) <= MAX_INT64
    requires Run(Fetcher(src), "", pages)
    ensures Concat(pages) == table <==> Limit(src) == 1 || |table| <= 2 * Limit(src)
  {
    NoOverflow(|table|, Limit(src));
    OffsetRun(src, table);
    OffsetRunComplete(table, Limit(src));
    RunIsUnique(Fetcher(src), "", pages, Pages(table, Limit(src), Multiplied(Limit(src)), 0));
  }

  /** The query is answered with the same rows at every offset. */
  ghost predicate ForgetsOffset(src: Source, rows: seq<RowMap>) {
    IsOffset(src) && forall o: int :: Answers(src, Some(OffsetPage(src, o)), rows)
  }

  /** This is so for every query that forgets the offset. */
  lemma ForgottenOffset(src: Source, rows: seq<RowMap>)
    requires IsOffset(src) && !UsesKey(Lex(src.query), OFFSET_KEY) && Answers(src, Some(OffsetPage(src, 0)), rows)
    ensures ForgetsOffset(src, rows)
  {
    forall o: int ensures Answers(src, Some(OffsetPage(src, o)), rows) {
      OffsetIgnored(src.engine, OffsetPage(src, 0), src.query, o);
      assert OffsetPage(src, 0).(offset := o) == OffsetPage(src, o);
    }
  }

  function WrappedNext(src: Source, offset: int): int { Wrap64(offset * Limit(src) + Limit(src)) }

  lemma WrappedNextToken(src: Source, offset: int)
    requires IsOffset(src)
    ensures forall key :: NextPageToken(Some(OffsetPage(src, offset)), key) == Ok(Itoa(WrappedNext(src, offset)))
  {
  }

  lemma ForgottenOffsetPage(src: Source, rows: seq<RowMap>, token: string, offset: int)
    requires ForgetsOffset(src, rows) && |rows| > Limit(src)
    requires TokenOf(token, offset)
    ensures Rows(src, token) == Ok(Page(rows[..Limit(src)], Itoa(WrappedNext(src, offset))))
  {
    TokenSetsUp(src, token, offset);
    WrappedNextToken(src, offset);
    assert Answers(src, Some(OffsetPage(src, offset)), rows);
    KeylessPage(src, token, OffsetPage(src, offset), rows, Itoa(WrappedNext(src, offset)));
  }

  lemma {:induction false} SamePageAgain(src: Source, rows: seq<RowMap>, token: string, offset: int,
                                         pages: seq<seq<RowMap>>)
    requires ForgetsOffset(src, rows) && |rows| > Limit(src)
    requires TokenOf(token, offset)
    ensures !Run(Fetcher(src), token, pages)
    decreases |pages|
  {
    var next := WrappedNext(src, offset);
    ForgottenOffsetPage(src, rows, token, offset);
    if |pages| > 0 { SamePageAgain(src, rows, Itoa(next), next, pages[1..]); }
  }

  /**
   * A query with a token but without `?<offset>` comes to an end if and only if one page holds all rows; otherwise its
   * first page comes again and again, even when the offset overflows.
   */
  lemma ForgottenOffsetEnds(src: Source, rows: seq<RowMap>)
    requires IsOffset(src) && !UsesKey(Lex(src.query), OFFSET_KEY) && Answers(src, Some(OffsetPage(src, 0)), rows)
    ensures (exists pages :: WholeRun(Fetcher(src), pages)) <==> |rows| <= Limit(src)
    ensures |rows| <= Limit(src) ==> WholeRun(Fetcher(src), [rows])
  {
    ForgottenOffset(src, rows);
    if |rows| <= Limit(src) {
      TokenSetsUp(src, "", 0);
      AnsweredPage(src, "", Some(OffsetPage(src, 0)), rows);
      assert WholeRun(Fetcher(src), [rows]);
    } else {
      forall pages ensures !WholeRun(Fetcher(src), pages) { SamePageAgain(src, rows, "", 0, pages); }
    }
  }

  // ---- Cursor queries -----------------------------------------------------

  predicate IsCursor(src: Source) { src.opts.Some? && src.opts.value.strategy == CursorStrategy }

  function CursorPage(src: Source, cursor: string): PageCtx
    requires IsCursor(src)
  {
    PageCtx(CursorStrategy, Limit(src), 0, cursor, src.opts.value.primaryKey)
  }

  predicate HasPrintableKey(column: string, row: RowMap) { column in row && PrimaryKeyText(row[column]).Ok? }

  /** The printed primary key of a row. */
  function KeyIn(column: string): Key {
    row => if HasPrintableKey(column, row) then PrimaryKeyText(row[column]).value else ""
  }

  function KeyOf(src: Source): Key
    requires IsCursor(src)
  {
    KeyIn(src.opts.value.primaryKey)
  }

  /**
   * The database answers each page of the query with the rows of `table` after the cursor, in ascending key order, for
   * every cursor that can be sent once the rows `known` have been seen. It may refuse any other.
   */
  ghost predicate ServesCursors(src: Source, below: Order, table: seq<RowMap>, known: seq<RowMap>) {
    IsCursor(src) && Ascending(below, KeyOf(src), table)
    && (forall row :: row in table ==> row in known && HasPrintableKey(src.opts.value.primaryKey, row))
    && forall c: string :: CanSend(below, KeyOf(src), known, c) ==>
         Answers(src, Some(CursorPage(src, c)), Above(below, KeyOf(src), table, c))
  }

  lemma CursorServedAt(src: Source, below: Order, table: seq<RowMap>, known: seq<RowMap>, c: string)
    requires ServesCursors(src, below, table, known) && CanSend(below, KeyOf(src), known, c)
    ensures Answers(src, Some(CursorPage(src, c)), Above(below, KeyOf(src), table, c))
    ensures forall row :: row in Above(below, KeyOf(src), table, c) ==> HasPrintableKey(src.opts.value.primaryKey, row)
  {
    AboveRows(below, KeyOf(src), table, c);
  }

  /** A page whose next token is the printed key of its last row. */
  lemma KeyedPage(src: Source, token: string, page: PageCtx, wanted: seq<RowMap>)
    requires page.limit >= 1 && page.strategy == CursorStrategy
    requires SetupPagination(PageToken(src.size, token), src.opts) == Ok(Some(page))
    requires Answers(src, Some(page), wanted)
    requires forall row :: row in wanted ==> HasPrintableKey(page.primaryKey, row)
    ensures Rows(src, token) ==
            Ok(if page.limit < |wanted| then Page(wanted[..page.limit], KeyIn(page.primaryKey)(wanted[page.limit - 1]))
               else Page(wanted, ""))
  {
    AnsweredPage(src, token, Some(page), wanted);
    KeyedCut(page, wanted);
  }

  lemma KeyedCut(page: PageCtx, wanted: seq<RowMap>)
    requires page.limit >= 1 && page.strategy == CursorStrategy
    requires forall row :: row in wanted ==> HasPrintableKey(page.primaryKey, row)
    ensures PageFor(Some(page), wanted) ==
            Ok(if page.limit < |wanted| then Page(wanted[..page.limit], KeyIn(page.primaryKey)(wanted[page.limit - 1]))
               else Page(wanted, ""))
  {
    if page.limit < |wanted| { assert wanted[page.limit - 1] in wanted; }
  }

  lemma CursorPageRows(src: Source, below: Order, table: seq<RowMap>, known: seq<RowMap>, token: string)
    requires ServesCursors(src, below, table, known) && CanSend(below, KeyOf(src), known, token)
    ensures Rows(src, token) == Ok(Cut(below, KeyOf(src), table, Limit(src), token))
  {
    CursorServedAt(src, below, table, known, token);
    KeyedPage(src, token, CursorPage(src, token), Above(below, KeyOf(src), table, token));
  }

  lemma CursorSetsUp(src: Source, token: string)
    requires IsCursor(src)
    ensures SetupPagination(PageToken(src.size, token), src.opts) == Ok(Some(CursorPage(src, token)))
  {
  }

  lemma ForgottenCursor(src: Source, rows: seq<RowMap>, token: string)
    requires IsCursor(src) && !UsesKey(Lex(src.query), CURSOR_KEY) && Answers(src, Some(CursorPage(src, "")), rows)
    ensures Answers(src, Some(CursorPage(src, token)), rows)
  {
    CursorIgnored(src.engine, CursorPage(src, ""), src.query, token);
    assert CursorPage(src, "").(cursor := token) == CursorPage(src, token);
  }

  /** A page with the cursor strategy does not depend on the cursor but through its rows. */
  lemma CursorCutsAlike(src: Source, rows: seq<RowMap>, c: string, d: string)
    requires IsCursor(src)
    ensures PageFor(Some(CursorPage(src, c)), rows) == PageFor(Some(CursorPage(src, d)), rows)
  {
  }

  /** A query that forgets the cursor returns the same page for every token, */
  lemma ForgottenCursorPage(src: Source, rows: seq<RowMap>, token: string)
    requires IsCursor(src) && !UsesKey(Lex(src.query), CURSOR_KEY) && Answers(src, Some(CursorPage(src, "")), rows)
    ensures Rows(src, token) == PageFor(Some(CursorPage(src, "")), rows)
  {
    ForgottenCursor(src, rows, token);
    CursorSetsUp(src, token);
    AnsweredPage(src, token, Some(CursorPage(src, token)), rows);
    CursorCutsAlike(src, rows, token, "");
  }

  lemma ForgottenCursorFetches(src: Source, rows: seq<RowMap>)
    requires IsCursor(src) && !UsesKey(Lex(src.query), CURSOR_KEY) && Answers(src, Some(CursorPage(src, "")), rows)
    ensures forall t: string :: Fetcher(src)(t) == PageFor(Some(CursorPage(src, "")), rows)
  {
    forall t: string ensures Fetcher(src)(t) == PageFor(Some(CursorPage(src, "")), rows) {
      ForgottenCursorPage(src, rows, t);
    }
  }

  /** The first page is full and surplus rows are left, but its last key prints as the end marker. */
  predicate EndsEarly(src: Source, rows: seq<RowMap>)
    requires IsCursor(src) && |rows| > Limit(src)
  {
    var last := rows[Limit(src) - 1];
    HasPrintableKey(src.opts.value.primaryKey, last) && KeyOf(src)(last) == ""
  }

  lemma LastPage(src: Source, rows: seq<RowMap>)
    requires IsCursor(src)
    ensures var first := PageFor(Some(CursorPage(src, "")), rows);
            (first.Ok? && first.value.next == "" <==> |rows| <= Limit(src) || EndsEarly(src, rows))
            && (|rows| <= Limit(src) ==> first == Ok(Page(rows, "")))
  {
    if |rows| > Limit(src) && src.opts.value.primaryKey in rows[Limit(src) - 1] {
      var key := rows[Limit(src) - 1][src.opts.value.primaryKey];
      assert NextPageToken(Some(CursorPage(src, "")), key) == PrimaryKeyText(key);
    }
  }

  /**
   * and comes to an end if and only if that one page holds all rows, or ends with the empty key; otherwise the page
   * comes again and again, or fails.
   */
  lemma ForgottenCursorEnds(src: Source, rows: seq<RowMap>)
    requires IsCursor(src) && !UsesKey(Lex(src.query), CURSOR_KEY) && Answers(src, Some(CursorPage(src, "")), rows)
    ensures (exists pages :: WholeRun(Fetcher(src), pages)) <==> |rows| <= Limit(src) || EndsEarly(src, rows)
    ensures |rows| <= Limit(src) ==> WholeRun(Fetcher(src), [rows])
  {
    ForgottenCursorFetches(src, rows);
    LastPage(src, rows);
    SameForAll(Fetcher(src), PageFor(Some(CursorPage(src, "")), rows));
  }

  /** Calls made one after the other, each with the token the one before returned; `last` is returned last. */
  ghost predicate Calls(srcs: seq<Source>, token: string, pages: seq<seq<RowMap>>, last: string)
    decreases srcs
  {
    |pages| == |srcs| &&
    if srcs == [] then last == token
    else
      match Rows(srcs[0], token)
      case Err(_) => false
      case Ok(Page(rows, next)) =>
        rows == pages[0] && (next == "" ==> |srcs| == 1) && Calls(srcs[1..], next, pages[1..], last)
  }

  /** Each call meets its own table, all of them with rows of `known`. */
  ghost predicate ServesAll(srcs: seq<Source>, below: Order, tables: seq<seq<RowMap>>, known: seq<RowMap>,
                            column: string)
  {
    |srcs| == |tables|
    && forall i :: 0 <= i < |srcs| ==>
         ServesCursors(srcs[i], below, tables[i], known) && srcs[i].opts.value.primaryKey == column
  }

  lemma ServesRest(srcs: seq<Source>, below: Order, tables: seq<seq<RowMap>>, known: seq<RowMap>, column: string)
    requires ServesAll(srcs, below, tables, known, column) && srcs != []
    ensures ServesCursors(srcs[0], below, tables[0], known) && srcs[0].opts.value.primaryKey == column
    ensures ServesAll(srcs[1..], below, tables[1..], known, column)
  {
    forall i | 0 <= i < |srcs| - 1
      ensures ServesCursors(srcs[1..][i], below, tables[1..][i], known) && srcs[1..][i].opts.value.primaryKey == column
    {
      assert ServesCursors(srcs[i + 1], below, tables[i + 1], known);
    }
  }

  function Moments(srcs: seq<Source>, tables: seq<seq<RowMap>>): seq<Moment>
    requires |srcs| == |tables|
  {
    if srcs == [] then [] else [Moment(tables[0], Limit(srcs[0]))] + Moments(srcs[1..], tables[1..])
  }

  lemma {:induction false} MomentsProper(srcs: seq<Source>, below: Order, tables: seq<seq<RowMap>>,
                                         known: seq<RowMap>, column: string)
    requires ServesAll(srcs, below, tables, known, column)
    ensures var ms := Moments(srcs, tables);
            |ms| == |srcs| && Proper(below, KeyIn(column), ms)
            && forall i :: 0 <= i < |ms| ==> ms[i].table == tables[i]
  {
    if srcs != [] {
      ServesRest(srcs, below, tables, known, column);
      MomentsProper(srcs[1..], below, tables[1..], known, column);
    }
  }

  /** Real calls are a session over the tables they meet. */
  lemma {:induction false} CallsAreSession(srcs: seq<Source>, below: Order, tables: seq<seq<RowMap>>,
                                           known: seq<RowMap>, column: string, token: string,
                                           pages: seq<seq<RowMap>>, last: string)
    requires IsOrder(below) && ServesAll(srcs, below, tables, known, column) && Calls(srcs, token, pages, last)
    requires CanSend(below, KeyIn(column), known, token)
    ensures Proper(below, KeyIn(column), Moments(srcs, tables))
    ensures Session(below, KeyIn(column), Moments(srcs, tables), token, pages, last)
    decreases srcs
  {
    MomentsProper(srcs, below, tables, known, column);
    if srcs != [] {
      ServesRest(srcs, below, tables, known, column);
      CursorPageRows(srcs[0], below, tables[0], known, token);
      NextCanBeSent(below, KeyIn(column), tables[0], known, Limit(srcs[0]), token);
      CallsAreSession(srcs[1..], below, tables[1..], known, column, Rows(srcs[0], token).value.next, pages[1..], last);
      assert Moments(srcs, tables)[1..] == Moments(srcs[1..], tables[1..]);
    }
  }

  /** No table has a key twice. */
  ghost predicate UniqueKeys(below: Order, tables: seq<seq<RowMap>>, column: string) {
    forall i :: 0 <= i < |tables| ==> Sorted(below, KeyIn(column), tables[i])
  }

  lemma MomentsUnique(srcs: seq<Source>, below: Order, tables: seq<seq<RowMap>>, known: seq<RowMap>, column: string)
    requires ServesAll(srcs, below, tables, known, column) && UniqueKeys(below, tables, column)
    ensures KeysUnique(below, KeyIn(column), Moments(srcs, tables))
  {
    MomentsProper(srcs, below, tables, known, column);
  }

  /** Over any run of a cursor query on a changing table the delivered keys increase: no key comes twice. */
  lemma CursorCallsIncrease(srcs: seq<Source>, below: Order, tables: seq<seq<RowMap>>, known: seq<RowMap>,
                            column: string, pages: seq<seq<RowMap>>, last: string)
    requires IsOrder(below) && ServesAll(srcs, below, tables, known, column) && UniqueKeys(below, tables, column)
    requires Calls(srcs, "", pages, last)
    ensures Sorted(below, KeyIn(column), Concat(pages))
  {
    CallsAreSession(srcs, below, tables, known, column, "", pages, last);
    MomentsUnique(srcs, below, tables, known, column);
    KeysIncrease(below, KeyIn(column), Moments(srcs, tables), "", pages, last);
  }

  /** Even if the key column is not unique, no key comes on two pages. */
  lemma CursorCallsApart(srcs: seq<Source>, below: Order, tables: seq<seq<RowMap>>, known: seq<RowMap>,
                         column: string, pages: seq<seq<RowMap>>, last: string, a: nat, b: nat)
    requires IsOrder(below) && ServesAll(srcs, below, tables, known, column) && Calls(srcs, "", pages, last)
    requires a < b < |pages|
    ensures forall row, row' :: row in pages[a] && row' in pages[b] ==> below(KeyIn(column)(row), KeyIn(column)(row'))
  {
    CallsAreSession(srcs, below, tables, known, column, "", pages, last);
    PagesApart(below, KeyIn(column), Moments(srcs, tables), "", pages, last, a, b);
  }

  /** And once the run is complete, every key that was there at every call has been delivered. */
  lemma CursorCallsComplete(srcs: seq<Source>, below: Order, tables: seq<seq<RowMap>>, known: seq<RowMap>,
                            column: string, pages: seq<seq<RowMap>>, k: string)
    requires IsOrder(below) && srcs != [] && ServesAll(srcs, below, tables, known, column) && Calls(srcs, "", pages, "")
    requires below("", k) && forall i :: 0 <= i < |tables| ==> Has(KeyIn(column), tables[i], k)
    ensures Has(KeyIn(column), Concat(pages), k)
  {
    var key, moments := KeyIn(column), Moments(srcs, tables);
    MomentsProper(srcs, below, tables, known, column);
    CallsAreSession(srcs, below, tables, known, column, "", pages, "");
    forall i | 0 <= i < |moments| ensures Has(key, moments[i].table, k) {
      assert Has(key, tables[i], k);
    }
    LastingKeyDelivered(below, key, moments, "", pages, k);
  }

  // ---- Every kind of query ------------------------------------------------

  /** The database serves the query from `table`, as its pagination needs it. */
  ghost predicate Serves(src: Source, below: Order, table: seq<RowMap>) {
    if IsUnpaged(src) then Answers(src, None, table)
    else
      match src.opts.value.strategy
      case OffsetStrategy => ServesOffsets(src, table) && OffsetsFit(|table|, Limit(src))
      case CursorStrategy => IsOrder(below) && ServesCursors(src, below, table, table)
      case OtherStrategy(_) => false
  }

  /** Every key comes after the empty cursor. */
  ghost predicate AllReachable(below: Order, key: Key, table: seq<RowMap>) {
    forall row :: row in table ==> below("", key(row))
  }

  /** The condition under which a whole run of the query delivers the whole table. */
  ghost predicate Complete(src: Source, below: Order, table: seq<RowMap>) {
    if IsUnpaged(src) then true
    else
      match src.opts.value.strategy
      case OffsetStrategy => Limit(src) == 1 || |table| <= 2 * Limit(src)
      case CursorStrategy => AllReachable(below, KeyOf(src), table) && CutsNoTie(KeyOf(src), table, Limit(src))
      case OtherStrategy(_) => false
  }

  /** A run exists, and delivers the whole table exactly under that condition. */
  lemma ServedRun(src: Source, below: Order, table: seq<RowMap>) returns (pages: seq<seq<RowMap>>)
    requires Serves(src, below, table)
    ensures Run(Fetcher(src), "", pages)
    ensures Concat(pages) == table <==> Complete(src, below, table)
  {
    if IsUnpaged(src) {
      UnpagedRun(src, table);
      pages := [table];
      ConcatCons(table, []);
      assert Concat(pages) == table;
    } else if IsOffset(src) {
      OffsetRun(src, table);
      OffsetRunComplete(table, Limit(src));
      pages := Pages(table, Limit(src), Multiplied(Limit(src)), 0);
    } else {
      pages := ServedCursorRun(src, below, table);
    }
  }

  lemma CursorFetches(src: Source, below: Order, table: seq<RowMap>)
    requires ServesCursors(src, below, table, table)
    ensures forall c :: CanSend(below, KeyOf(src), table, c) ==>
              Fetcher(src)(c) == Ok(Cut(below, KeyOf(src), table, Limit(src), c))
  {
    forall c | CanSend(below, KeyOf(src), table, c)
      ensures Fetcher(src)(c) == Ok(Cut(below, KeyOf(src), table, Limit(src), c))
    {
      CursorPageRows(src, below, table, table, c);
    }
  }

  lemma ServedCursorRun(src: Source, below: Order, table: seq<RowMap>) returns (pages: seq<seq<RowMap>>)
    requires IsOrder(below) && ServesCursors(src, below, table, table)
    ensures Run(Fetcher(src), "", pages)
    ensures Concat(pages) == table <==>
            AllReachable(below, KeyOf(src), table) && CutsNoTie(KeyOf(src), table, Limit(src))
  {
    CursorFetches(src, below, table);
    CursorRun(Fetcher(src), below, KeyOf(src), table, Limit(src), "");
    pages := CursorPages(below, KeyOf(src), table, Limit(src), "");
    CursorPagesDeliver(below, KeyOf(src), table, Limit(src), "");
    AboveAll(below, KeyOf(src), table);
  }

  lemma AboveAll(below: Order, key: Key, table: seq<RowMap>)
    ensures Above(below, key, table, "") == table <==> AllReachable(below, key, table)
    ensures |Above(below, key, table, "")| >= |table| ==> Above(below, key, table, "") == table
  {
    AboveRows(below, key, table, "");
    AboveShort(below, key, table, "");
    if AllReachable(below, key, table) { AllAbove(below, key, table, ""); }
  }

  lemma {:induction false} AboveShort(below: Order, key: Key, table: seq<RowMap>, cursor: string)
    ensures |Above(below, key, table, cursor)| <= |table|
    ensures |Above(below, key, table, cursor)| == |table| ==> Above(below, key, table, cursor) == table
  {
    if table != [] { AboveShort(below, key, table[1..], cursor); }
  }
}
