/** When a sync of grants comes to an end at all. */
module SyncEnds {
  import opened Wrappers
  import opened Decimal
  import opened Template
  import opened TemplateRewriters
  import opened SqlValues
  import opened Runs
  import opened Chains
  import opened Paging
  import opened PageContract
  import opened Sources
  import opened PageBag
  import opened Grants
  import opened GrantsRun

  /** One call of the sync with this token. */
  function SyncTurn(s: Syncer, size: int, token: BagToken): Turn<BagToken> {
    match GrantsPage(s, size, token)
    case Err(_) => Failed
    case Ok((_, next)) => if next == NoToken then Finished else Going(next)
  }

  /** One page of query i on its own, with this cursor. */
  function QueryTurn(s: Syncer, size: int, i: nat, cursor: string): Turn<string>
    requires i < |s.grants|
  {
    match Listed(s, PageToken(size, cursor), s.grants[i])
    case Err(_) => Failed
    case Ok(Page(_, next)) => if next == "" then Finished else Going(next)
  }

  function SyncCalls(s: Syncer, size: int): Step<BagToken> { token => SyncTurn(s, size, token) }

  function QueryStep(s: Syncer, size: int, i: nat): Step<string>
    requires i < |s.grants|
  {
    cursor => QueryTurn(s, size, i, cursor)
  }

  function QueryStack(s: Syncer, size: int): (stack: Stack)
    ensures |stack| == |s.grants| && forall i :: 0 <= i < |stack| ==> stack[i] == QueryStep(s, size, i)
  {
    seq(|s.grants|, i requires 0 <= i < |s.grants| => QueryStep(s, size, i))
  }

  ghost predicate ComesToEnd(s: Syncer, size: int) { CanEnd(SyncCalls(s, size), NoToken) }

  function Standing(s: Syncer): Place<BagToken> {
    (token: BagToken, k: nat, cursor: string) => StandsAt(s, token, k, cursor)
  }

  /** The stack after a page of query k - 1. */
  function StackAfter(k: nat, turn: Turn<string>): seq<PageState>
    requires k > 0
  {
    if turn.Going? then QueryStates(k - 1) + [StateAt(k, turn.next)] else QueryStates(k - 1)
  }

  lemma TurnOfTop(s: Syncer, size: int, below: seq<PageState>, top: PageState, i: nat)
    requires i < |s.grants| && top.resourceTypeId == GRANT_QUERY_TYPE && ParseInt(top.resourceId) == Some(i)
    ensures var turn, left := QueryTurn(s, size, i, top.token), GrantsFrom(s, size, below, top);
            (turn.Failed? <==> left.Err?)
            && (left.Ok? ==> left.value.1 == if turn.Going? then below + [top.(token := turn.next)] else below)
  {
  }

  lemma TopTurn(s: Syncer, size: int, k: nat, cursor: string)
    requires 0 < k <= |s.grants| <= MAX_INT64
    ensures var turn := QueryTurn(s, size, k - 1, cursor);
            var left := GrantsFrom(s, size, QueryStates(k - 1), StateAt(k, cursor));
            (turn.Failed? <==> left.Err?) && (left.Ok? ==> left.value.1 == StackAfter(k, turn))
  {
    ParsePrinted(k - 1);
    TurnOfTop(s, size, QueryStates(k - 1), StateAt(k, cursor), k - 1);
  }

  lemma StackStands(s: Syncer, k: nat, turn: Turn<string>)
    requires 0 < k <= |s.grants| && !turn.Failed?
    ensures var token := Encode(StackAfter(k, turn));
            if turn.Going? then token != NoToken && StandsAt(s, token, k, turn.next)
            else if k == 1 then token == NoToken
            else token != NoToken && StandsAt(s, token, k - 1, "")
  {
    if !turn.Going? && k > 1 { assert QueryStates(k - 1) == QueryStates(k - 2) + [StateAt(k - 1, "")]; }
  }

  /** A call is a page of the query on top; then comes its next page, or the first one of the query below. */
  lemma OneCall(s: Syncer, size: int, token: BagToken, k: nat, cursor: string)
    requires StandsAt(s, token, k, cursor) && |s.grants| <= MAX_INT64
    ensures Follows(SyncTurn(s, size, token), QueryTurn(s, size, k - 1, cursor), k, Standing(s))
  {
    var turn := QueryTurn(s, size, k - 1, cursor);
    CallAt(s, size, token, k, cursor);
    TopTurn(s, size, k, cursor);
    if !turn.Failed? { StackStands(s, k, turn); }
  }

  lemma SyncReads(s: Syncer, size: int)
    requires |s.grants| <= MAX_INT64
    ensures Reads(SyncCalls(s, size), QueryStack(s, size), Standing(s))
  {
    forall token, k: nat, cursor | Standing(s)(token, k, cursor)
      ensures 0 < k <= |s.grants|
      ensures Follows(SyncCalls(s, size)(token), QueryStack(s, size)[k - 1](cursor), k, Standing(s))
    {
      OneCall(s, size, token, k, cursor);
    }
  }

  /**
   * A sync comes to an end if and only if no query is endless that is reached: every one either comes to the end of its
   * pages, or fails on one of them, and then those below it are not reached.
   */
  lemma SyncEndsExactly(s: Syncer, size: int)
    requires |s.grants| <= MAX_INT64
    ensures ComesToEnd(s, size) <==> NoneEndless(QueryStack(s, size), |s.grants|)
  {
    if s.grants == [] {
      assert Ends(SyncCalls(s, size), NoToken, 1);
    } else {
      SyncReads(s, size);
      assert Standing(s)(NoToken, |s.grants|, "");
      EndsExactly(SyncCalls(s, size), QueryStack(s, size), Standing(s), NoToken, |s.grants|);
    }
  }

  // ---- What finishing means for the query itself --------------------------

  /** A page of grants is a page of rows, all mapped. */
  lemma TurnOfRows(s: Syncer, size: int, i: nat, cursor: string)
    requires i < |s.grants| && s.grants[i].Some?
    ensures var page, turn := Rows(QuerySource(s, size, i), cursor), QueryTurn(s, size, i, cursor);
            if page.Err? || QueryGrants(s, i, page.value.acc).Err? then turn.Failed?
            else if page.value.next == "" then turn.Finished?
            else turn == Going(page.value.next)
  {
    var src, f := QuerySource(s, size, i), RowGrants(s.env, s.grants[i].value.mappings);
    if Rows(src, cursor).Err? { UnmappedPage(src, cursor, f); } else { MappedPage(src, cursor, f); }
  }

  lemma {:induction false} FinishedRun(s: Syncer, size: int, i: nat, cursor: string, n: nat)
    returns (pages: seq<seq<RowMap>>)
    requires i < |s.grants| && s.grants[i].Some? && Finishes(QueryStep(s, size, i), cursor, n)
    ensures Run(Fetcher(QuerySource(s, size, i)), cursor, pages) && QueryGrants(s, i, Concat(pages)).Ok?
    decreases n
  {
    TurnOfRows(s, size, i, cursor);
    var Page(rows, next) := Rows(QuerySource(s, size, i), cursor).value;
    if next == "" {
      pages := [rows];
      ConcatOne(rows);
    } else {
      var rest := FinishedRun(s, size, i, next, n - 1);
      pages := [rows] + rest;
      MorePages(Fetcher(QuerySource(s, size, i)), cursor, rows, next, rest);
      ConcatCons(rows, rest);
      FlatMapAppend(RowGrants(s.env, s.grants[i].value.mappings), rows, Concat(rest));
    }
  }

  lemma MappedParts(s: Syncer, i: nat, pages: seq<seq<RowMap>>)
    requires i < |s.grants| && s.grants[i].Some? && pages != [] && QueryGrants(s, i, Concat(pages)).Ok?
    ensures QueryGrants(s, i, pages[0]).Ok? && QueryGrants(s, i, Concat(pages[1..])).Ok?
  {
    FlatMapAppend(RowGrants(s.env, s.grants[i].value.mappings), pages[0], Concat(pages[1..]));
  }

  lemma {:induction false} RunFinishes(s: Syncer, size: int, i: nat, cursor: string, pages: seq<seq<RowMap>>)
    requires i < |s.grants| && s.grants[i].Some? && Run(Fetcher(QuerySource(s, size, i)), cursor, pages)
    requires QueryGrants(s, i, Concat(pages)).Ok?
    ensures Finishes(QueryStep(s, size, i), cursor, |pages|)
    decreases pages
  {
    FirstPage(Fetcher(QuerySource(s, size, i)), cursor, pages);
    TurnOfRows(s, size, i, cursor);
    MappedParts(s, i, pages);
    var turn := QueryTurn(s, size, i, cursor);
    if turn.Going? { RunFinishes(s, size, i, turn.next, pages[1..]); }
  }

  /** The query has a finite run, and every row of it is mapped. */
  ghost predicate HasMappedRun(s: Syncer, size: int, i: nat)
    requires i < |s.grants| && s.grants[i].Some?
  {
    exists pages :: WholeRun(Fetcher(QuerySource(s, size, i)), pages) && QueryGrants(s, i, Concat(pages)).Ok?
  }

  lemma FinishesExactly(s: Syncer, size: int, i: nat)
    requires i < |s.grants| && s.grants[i].Some?
    ensures CanFinish(QueryStep(s, size, i), "") <==> HasMappedRun(s, size, i)
  {
    if CanFinish(QueryStep(s, size, i), "") {
      var n: nat :| Finishes(QueryStep(s, size, i), "", n);
      var pages := FinishedRun(s, size, i, "", n);
      assert WholeRun(Fetcher(QuerySource(s, size, i)), pages);
    }
    if HasMappedRun(s, size, i) {
      var pages :| WholeRun(Fetcher(QuerySource(s, size, i)), pages) && QueryGrants(s, i, Concat(pages)).Ok?;
      RunFinishes(s, size, i, "", pages);
    }
  }

  // ---- A query that forgets its offset ------------------------------------

  lemma {:induction false} NeverFails(s: Syncer, size: int, i: nat, rows: seq<RowMap>, token: string, offset: int,
                                      n: nat)
    requires i < |s.grants| && s.grants[i].Some?
    requires var src := QuerySource(s, size, i);
             ForgetsOffset(src, rows) && |rows| > Limit(src) && QueryGrants(s, i, rows[..Limit(src)]).Ok?
    requires TokenOf(token, offset)
    ensures !Fails(QueryStep(s, size, i), token, n)
    decreases n
  {
    if n > 0 {
      var src := QuerySource(s, size, i);
      var next := WrappedNext(src, offset);
      ForgottenOffsetPage(src, rows, token, offset);
      TurnOfRows(s, size, i, token);
      NeverFails(s, size, i, rows, Itoa(next), next, n - 1);
    }
  }

  lemma ForgottenOffsetNeverFinishes(s: Syncer, size: int, i: nat, rows: seq<RowMap>)
    requires i < |s.grants| && s.grants[i].Some?
    requires var src := QuerySource(s, size, i);
             IsOffset(src) && !UsesKey(Lex(src.query), OFFSET_KEY) && Answers(src, Some(OffsetPage(src, 0)), rows)
             && |rows| > Limit(src)
    ensures !CanFinish(QueryStep(s, size, i), "")
    ensures CanFail(QueryStep(s, size, i), "") <==> QueryGrants(s, i, rows[..Limit(QuerySource(s, size, i))]).Err?
  {
    var src := QuerySource(s, size, i);
    ForgottenOffset(src, rows);
    ForgottenOffsetEnds(src, rows);
    FinishesExactly(s, size, i);
    if QueryGrants(s, i, rows[..Limit(src)]).Ok? {
      forall n: nat ensures !Fails(QueryStep(s, size, i), "", n) { NeverFails(s, size, i, rows, "", 0, n); }
    } else {
      ForgottenOffsetPage(src, rows, "", 0);
      TurnOfRows(s, size, i, "");
      assert Fails(QueryStep(s, size, i), "", 1);
    }
  }

  /**
   * A reached query that uses a token but never mentions its offset, and has more rows than a page, lets the sync come
   * to an end if and only if its mappings fail on the first page.
   */
  lemma ForgottenOffsetSync(s: Syncer, size: int, i: nat, rows: seq<RowMap>)
    requires i < |s.grants| <= MAX_INT64 && s.grants[i].Some? && FinishAbove(QueryStack(s, size), i, |s.grants|)
    requires var src := QuerySource(s, size, i);
             IsOffset(src) && !UsesKey(Lex(src.query), OFFSET_KEY) && Answers(src, Some(OffsetPage(src, 0)), rows)
             && |rows| > Limit(src)
    ensures ComesToEnd(s, size) <==> QueryGrants(s, i, rows[..Limit(QuerySource(s, size, i))]).Err?
  {
    SyncEndsExactly(s, size);
    ForgottenOffsetNeverFinishes(s, size, i, rows);
    ReachedDecides(QueryStack(s, size), i);
  }
}
