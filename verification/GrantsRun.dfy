/** A whole sync of grants: `Grants` called from the empty token, feeding back each token, until it is empty again. */
module GrantsRun {
  import opened Wrappers
  import opened Decimal
  import opened SqlValues
  import opened Runs
  import opened Listings
  import opened PageContract
  import opened PageBag
  import opened Grants

  /** The lister behind query i. */
  function QuerySource(s: Syncer, size: int, i: nat): Source
    requires i < |s.grants| && s.grants[i].Some?
  {
    SourceOf(s, size, s.grants[i].value)
  }

  /** The grants that query i makes of some rows. */
  function QueryGrants(s: Syncer, i: nat, rows: seq<RowMap>): Result<seq<Grant>, Error>
    requires i < |s.grants| && s.grants[i].Some?
  {
    FlatMap(RowGrants(s.env, s.grants[i].value.mappings), rows)
  }

  /** `runs[i]` is the whole run of query i on its own. */
  ghost predicate Planned(s: Syncer, size: int, runs: seq<seq<seq<RowMap>>>) {
    |runs| == |s.grants| <= MAX_INT64
    && forall i :: 0 <= i < |runs| ==> s.grants[i].Some? && Run(Fetcher(QuerySource(s, size, i)), "", runs[i])
  }

  ghost predicate Configured(s: Syncer) { forall i :: 0 <= i < |s.grants| ==> s.grants[i].Some? }

  /** The grants of the first k queries from given rows, the last query first. */
  ghost function GrantsOfAll(s: Syncer, rows: seq<seq<RowMap>>, k: nat): Result<seq<Grant>, Error>
    requires Configured(s) && k <= |s.grants| == |rows|
  {
    if k == 0 then Ok([]) else Both(QueryGrants(s, k - 1, rows[k - 1]), GrantsOfAll(s, rows, k - 1))
  }

  /** The state of query k - 1 in the middle of its run. */
  function StateAt(k: nat, token: string): PageState
    requires k > 0
  {
    PageState(token, GRANT_QUERY_TYPE, Itoa(k - 1))
  }

  /** The sync stands at page `cursor` of query k - 1, with the queries before it still to come. */
  predicate StandsAt(s: Syncer, token: BagToken, k: nat, cursor: string) {
    0 < k <= |s.grants|
    && (token == Encode(QueryStates(k - 1) + [StateAt(k, cursor)])
        || (token == NoToken && k == |s.grants| && cursor == ""))
  }

  lemma EncodeTop(below: seq<PageState>, top: PageState)
    ensures Encode(below + [top]) == Encoded(below, Some(top))
  {
    assert (below + [top])[..|below|] == below;
  }

  /** One call where the sync stands is one page of the query on top. */
  lemma CallAt(s: Syncer, size: int, token: BagToken, k: nat, cursor: string)
    requires StandsAt(s, token, k, cursor)
    ensures GrantsPage(s, size, token) ==
            match GrantsFrom(s, size, QueryStates(k - 1), StateAt(k, cursor))
            case Err(e) => Err(e)
            case Ok((grants, left)) => Ok((grants, Encode(left)))
  {
    var below, top := QueryStates(k - 1), StateAt(k, cursor);
    EncodeTop(below, top);
    CallOn(s, size, token, below, top);
  }

  lemma CallOn(s: Syncer, size: int, token: BagToken, below: seq<PageState>, top: PageState)
    requires s.grants != []
    requires token == Encoded(below, Some(top)) || (token == NoToken && QueryStates(|s.grants|) == below + [top])
    ensures GrantsPage(s, size, token) ==
            match GrantsFrom(s, size, below, top)
            case Err(e) => Err(e)
            case Ok((grants, left)) => Ok((grants, Encode(left)))
  {
    var stack := below + [top];
    assert stack[..|stack| - 1] == below && stack[|stack| - 1] == top;
    assert [] + stack == stack;
  }

  /** That page: its grants, and the query's next token kept or the query dropped. */
  lemma PageOfQuery(s: Syncer, size: int, k: nat, cursor: string)
    requires 0 < k <= |s.grants| <= MAX_INT64 && s.grants[k - 1].Some?
    requires Rows(QuerySource(s, size, k - 1), cursor).Ok?
    ensures var Page(rows, next) := Rows(QuerySource(s, size, k - 1), cursor).value;
            var below := QueryStates(k - 1);
            GrantsFrom(s, size, below, StateAt(k, cursor)) ==
            match QueryGrants(s, k - 1, rows)
            case Err(e) => Err(e)
            case Ok(grants) => Ok((grants, if next == "" then below else below + [StateAt(k, next)]))
  {
    ParsePrinted(k - 1);
    MappedPage(QuerySource(s, size, k - 1), cursor, RowGrants(s.env, s.grants[k - 1].value.mappings));
  }

  /** One call of the sync, in terms of the lister of the query on top. */
  lemma CallDelivers(s: Syncer, size: int, token: BagToken, k: nat, cursor: string)
    requires StandsAt(s, token, k, cursor) && |s.grants| <= MAX_INT64 && s.grants[k - 1].Some?
    requires Fetcher(QuerySource(s, size, k - 1))(cursor).Ok?
    ensures var Page(rows, next) := Fetcher(QuerySource(s, size, k - 1))(cursor).value;
            var called := GrantsPage(s, size, token);
            match QueryGrants(s, k - 1, rows)
            case Err(e) => called == Err(e)
            case Ok(grants) =>
              called.Ok? && called.value.0 == grants
              && if next != "" then StandsAt(s, called.value.1, k, next)
                 else if k == 1 then called.value.1 == NoToken
                 else StandsAt(s, called.value.1, k - 1, "")
  {
    CallAt(s, size, token, k, cursor);
    PageOfQuery(s, size, k, cursor);
    if k > 1 { assert QueryStates(k - 1) == QueryStates(k - 2) + [StateAt(k - 1, "")]; }
  }

  /** What is still to come: the rest of the run of query k - 1, and then the queries before it. */
  ghost function ToCome(s: Syncer, rows: seq<seq<RowMap>>, k: nat, rest: seq<RowMap>): Result<seq<Grant>, Error>
    requires Configured(s) && 0 < k <= |s.grants| == |rows|
  {
    Both(QueryGrants(s, k - 1, rest), GrantsOfAll(s, rows, k - 1))
  }

  lemma ToComeSplits(s: Syncer, rows: seq<seq<RowMap>>, k: nat, page: seq<RowMap>, rest: seq<RowMap>)
    requires Configured(s) && 0 < k <= |s.grants| == |rows|
    ensures ToCome(s, rows, k, page + rest) == Both(QueryGrants(s, k - 1, page), ToCome(s, rows, k, rest))
  {
    FlatMapAppend(RowGrants(s.env, s.grants[k - 1].value.mappings), page, rest);
    BothAssociative(QueryGrants(s, k - 1, page), QueryGrants(s, k - 1, rest), GrantsOfAll(s, rows, k - 1));
  }

  /** The rows each run delivers. */
  function Delivered(runs: seq<seq<seq<RowMap>>>): seq<seq<RowMap>> {
    if runs == [] then [] else [Concat(runs[0])] + Delivered(runs[1..])
  }

  lemma {:induction false} DeliveredAt(runs: seq<seq<seq<RowMap>>>)
    ensures |Delivered(runs)| == |runs| && forall i :: 0 <= i < |runs| ==> Delivered(runs)[i] == Concat(runs[i])
  {
    if runs != [] { DeliveredAt(runs[1..]); }
  }

  /** Where a sync stands: pages `rest` of query k - 1 to come, `out` returned so far out of `total`. */
  ghost predicate InSync(s: Syncer, size: int, rows: seq<seq<RowMap>>, total: Result<seq<Grant>, Error>,
                         token: BagToken, k: nat, cursor: string, rest: seq<seq<RowMap>>, out: seq<Grant>)
    requires Configured(s) && |s.grants| == |rows|
  {
    StandsAt(s, token, k, cursor)
    && Run(Fetcher(QuerySource(s, size, k - 1)), cursor, rest)
    && total == Both(Ok(out), ToCome(s, rows, k, Concat(rest)))
  }

  /** The page just read, taken from what is still to come. */
  lemma PageTaken(s: Syncer, size: int, rows: seq<seq<RowMap>>, total: Result<seq<Grant>, Error>, token: BagToken,
                  k: nat, cursor: string, rest: seq<seq<RowMap>>, out: seq<Grant>)
    requires Configured(s) && |s.grants| == |rows| && InSync(s, size, rows, total, token, k, cursor, rest, out)
    ensures Fetcher(QuerySource(s, size, k - 1))(cursor).Ok?
    ensures var Page(page, next) := Fetcher(QuerySource(s, size, k - 1))(cursor).value;
            total == Both(Both(Ok(out), QueryGrants(s, k - 1, page)), ToCome(s, rows, k, Concat(rest[1..])))
            && (next == "" ==> ToCome(s, rows, k, Concat(rest[1..])) == GrantsOfAll(s, rows, k - 1))
            && (next != "" ==> Run(Fetcher(QuerySource(s, size, k - 1)), next, rest[1..]))
  {
    var Page(page, next) := Fetcher(QuerySource(s, size, k - 1))(cursor).value;
    var later := Concat(rest[1..]);
    assert Concat(rest) == page + later;
    ToComeSplits(s, rows, k, page, later);
    BothAssociative(Ok(out), QueryGrants(s, k - 1, page), ToCome(s, rows, k, later));
    if next == "" {
      assert rest[1..] == [];
      BothNothing(GrantsOfAll(s, rows, k - 1));
    }
  }

  /** What a call has returned is the end of the sync, an error, or leads on to where the sync stands. */
  ghost predicate Pending(s: Syncer, size: int, rows: seq<seq<RowMap>>, total: Result<seq<Grant>, Error>,
                          called: Result<(seq<Grant>, BagToken), Error>, out: seq<Grant>, k: nat, cursor: string,
                          rest: seq<seq<RowMap>>)
    requires Configured(s) && |s.grants| == |rows|
  {
    match called
    case Err(e) => total == Err(e)
    case Ok((grants, next)) =>
      if next == NoToken then total == Ok(out + grants)
      else InSync(s, size, rows, total, next, k, cursor, rest, out + grants)
  }

  /** One call: the end, or the sync stands at the next page of the same query or the first page of the one below. */
  lemma SyncStep(s: Syncer, size: int, runs: seq<seq<seq<RowMap>>>, rows: seq<seq<RowMap>>,
                 total: Result<seq<Grant>, Error>, token: BagToken, k: nat, cursor: string, rest: seq<seq<RowMap>>,
                 out: seq<Grant>)
    returns (k': nat, cursor': string, rest': seq<seq<RowMap>>)
    requires Planned(s, size, runs) && Configured(s) && rows == Delivered(runs) && |s.grants| == |rows|
    requires InSync(s, size, rows, total, token, k, cursor, rest, out)
    ensures var called := GrantsPage(s, size, token);
            Pending(s, size, rows, total, called, out, k', cursor', rest')
            && (called.Ok? && called.value.1 != NoToken ==> k' < k || (k' == k && |rest'| < |rest|))
  {
    var Page(page, next) := Fetcher(QuerySource(s, size, k - 1))(cursor).value;
    PageTaken(s, size, rows, total, token, k, cursor, rest, out);
    CallDelivers(s, size, token, k, cursor);
    k', cursor', rest' := k, next, rest[1..];
    match QueryGrants(s, k - 1, page)
    case Err(e) => assert total == Err(e);
    case Ok(grants) =>
      var left := GrantsPage(s, size, token).value.1;
      if next != "" {
        assert InSync(s, size, rows, total, left, k', cursor', rest', out + grants);
      } else if k == 1 {
        BothNothing(Ok(out + grants));
        assert total == Ok(out + grants);
      } else {
        k', rest' := k - 1, runs[k - 2];
        DeliveredAt(runs);
        assert InSync(s, size, rows, total, left, k', cursor', rest', out + grants);
      }
  }

  /** Before the first call everything is still to come. */
  lemma FirstCall(s: Syncer, size: int, runs: seq<seq<seq<RowMap>>>, rows: seq<seq<RowMap>>)
    returns (k: nat, cursor: string, rest: seq<seq<RowMap>>)
    requires Planned(s, size, runs) && Configured(s) && rows == Delivered(runs) && |s.grants| == |rows|
    ensures Pending(s, size, rows, GrantsOfAll(s, rows, |s.grants|), GrantsPage(s, size, NoToken), [], k, cursor, rest)
  {
    k, cursor, rest := |s.grants|, "", [];
    var total := GrantsOfAll(s, rows, k);
    if k > 0 {
      DeliveredAt(runs);
      BothNothing(total);
      k, cursor, rest := SyncStep(s, size, runs, rows, total, NoToken, k, "", runs[k - 1], []);
    } else {
      var none: seq<Grant> := [];
      assert none + none == none && total == Ok(none);
    }
  }

  /**
   * The sync terminates, runs every configured query to its end exactly once, the last configured one first, and
   * returns all their grants in order, or the first mapping error.
   */
  method SyncGrants(s: Syncer, size: int, ghost runs: seq<seq<seq<RowMap>>>) returns (r: Result<seq<Grant>, Error>)
    requires Planned(s, size, runs) && Configured(s)
    ensures |Delivered(runs)| == |s.grants| && r == GrantsOfAll(s, Delivered(runs), |s.grants|)
  {
    DeliveredAt(runs);
    ghost var rows := Delivered(runs);
    ghost var total := GrantsOfAll(s, rows, |s.grants|);
    ghost var k, cursor, rest := FirstCall(s, size, runs, rows);
    var out := [];
    var called := Grants.Grants(s, size, NoToken);
    while called.Ok? && called.value.1 != NoToken
      invariant Pending(s, size, rows, total, called, out, k, cursor, rest)
      decreases called.Ok? && called.value.1 != NoToken, k, |rest|
    {
      var token := called.value.1;
      out := out + called.value.0;
      k, cursor, rest := SyncStep(s, size, runs, rows, total, token, k, cursor, rest, out);
      called := Grants.Grants(s, size, token);
    }
    if called.Err? {
      return Err(called.error);
    }
    return Ok(out + called.value.0);
  }
}
