/** Listing grants: one query after another, page by page, with the state kept in a bag. */
module Grants {
  import opened Wrappers
  import opened Decimal
  import opened Template
  import opened SqlValues
  import opened Runs
  import opened Paging
  import opened PageContract
  import opened Listings
  import opened PageBag

  datatype GrantMapping = GrantMapping(skipIf: string, principalId: string, principalType: string, entitlement: string)

  datatype GrantsQuery = GrantsQuery(query: string, pagination: Option<Pagination>, mappings: seq<Option<GrantMapping>>)

  datatype Grant = Grant(entitlementId: string, principalType: string, principalId: string)

  /** Expression evaluation over a row, for the resource whose grants are listed. */
  datatype Env = Env(evaluateBool: (string, RowMap) -> Result<bool, Error>,
                     evaluateString: (string, RowMap) -> Result<string, Error>)

  datatype Syncer = Syncer(engine: Engine, db: Db, env: Env, grants: seq<Option<GrantsQuery>>)

  // ---- Mapping a row ------------------------------------------------------

  predicate IsComplete(mapping: Option<GrantMapping>) {
    mapping.Some? && mapping.value.principalId != "" && mapping.value.principalType != ""
    && mapping.value.entitlement != ""
  }

  /** The grant a mapping makes of a row; none when the row is skipped. */
  function MapGrant(env: Env, mapping: Option<GrantMapping>, row: RowMap): (r: Result<Option<Grant>, Error>)
    ensures r == Ok(None) <==>
            IsComplete(mapping) && mapping.value.skipIf != "" && env.evaluateBool(mapping.value.skipIf, row) == Ok(true)
    ensures r.Ok? && r.value.Some? <==>
            IsComplete(mapping)
            && (mapping.value.skipIf == "" || env.evaluateBool(mapping.value.skipIf, row) == Ok(false))
            && env.evaluateString(mapping.value.principalId, row).Ok?
            && env.evaluateString(mapping.value.entitlement, row).Ok?
    ensures r.Ok? && r.value.Some? ==>
              var g := r.value.value;
              IsComplete(mapping) && g.principalType == mapping.value.principalType
              && env.evaluateString(mapping.value.principalId, row) == Ok(g.principalId)
              && env.evaluateString(mapping.value.entitlement, row) == Ok(g.entitlementId)
    ensures !IsComplete(mapping) ==> r == Err(BadMapping)
    ensures IsComplete(mapping) && r.Err? ==>
              var m := mapping.value;
              (m.skipIf != "" && env.evaluateBool(m.skipIf, row) == Err(r.error))
              || env.evaluateString(m.principalId, row) == Err(r.error)
              || (env.evaluateString(m.principalId, row).Ok? && env.evaluateString(m.entitlement, row) == Err(r.error))
  {
    if mapping.None? then Err(BadMapping) else
    var m := mapping.value;
    if m.principalId == "" || m.principalType == "" || m.entitlement == "" then Err(BadMapping)
    else
      var skip := if m.skipIf != "" then env.evaluateBool(m.skipIf, row) else Ok(false);
      if skip.Err? then Err(skip.error)
      else if skip.value then Ok(None)
      else
        match env.evaluateString(m.principalId, row)
        case Err(e) => Err(e)
        case Ok(principal) =>
          match env.evaluateString(m.entitlement, row)
          case Err(e) => Err(e)
          case Ok(entitlement) => Ok(Some(Grant(entitlement, m.principalType, principal)))
  }

  /** What the mappings, in order, make of a row. */
  function GrantsOf(env: Env, mappings: seq<Option<GrantMapping>>, row: RowMap): Result<seq<Grant>, Error> {
    if mappings == [] then Ok([])
    else Both(Single(MapGrant(env, mappings[0], row)), GrantsOf(env, mappings[1..], row))
  }

  /** What the mappings make of a row, by their index. */
  function RowOutcomes(env: Env, mappings: seq<Option<GrantMapping>>, row: RowMap): int -> Result<Option<Grant>, Error>
  {
    j => if 0 <= j < |mappings| then MapGrant(env, mappings[j], row) else Ok(None)
  }

  /** Mapping j has its place `at(j)`, right before those `from(j + 1)` on. */
  ghost predicate Placed<K(!new)>(env: Env, mappings: seq<Option<GrantMapping>>, row: RowMap, at: int -> K,
                                  from: int -> K -> bool, before: (K, K) -> bool,
                                  made: K -> Result<Option<Grant>, Error>, j: nat)
    requires j < |mappings|
  {
    made(at(j)) == MapGrant(env, mappings[j], row) && !before(at(j), at(j))
    && Divides(from(j), before, Only(at(j)), from(j + 1))
  }

  lemma {:induction false} MappingsYield<K(!new)>(env: Env, mappings: seq<Option<GrantMapping>>, row: RowMap, lo: nat,
                                                  at: int -> K, from: int -> K -> bool, before: (K, K) -> bool,
                                                  made: K -> Result<Option<Grant>, Error>)
    requires lo <= |mappings|
    requires forall j: nat :: j < |mappings| ==> Placed(env, mappings, row, at, from, before, made, j)
    requires forall k :: from(|mappings|)(k) ==> made(k) == Ok(None)
    ensures Yields(from(lo), before, made, GrantsOf(env, mappings[lo..], row))
    decreases |mappings| - lo
  {
    if lo == |mappings| {
      YieldsNothing(from(lo), before, made);
    } else {
      var place, rest := at(lo), GrantsOf(env, mappings[lo + 1..], row);
      assert mappings[lo..][1..] == mappings[lo + 1..];
      assert Placed(env, mappings, row, at, from, before, made, lo);
      YieldsOne(Only(place), before, made, place);
      MappingsYield(env, mappings, row, lo + 1, at, from, before, made);
      YieldsJoin(from(lo), before, made, Only(place), from(lo + 1), Single(made(place)), rest);
    }
  }

  lemma RowYields(env: Env, mappings: seq<Option<GrantMapping>>, row: RowMap)
    ensures Yields(From(0), Less(), RowOutcomes(env, mappings, row), GrantsOf(env, mappings, row))
  {
    assert mappings[0..] == mappings;
    MappingsYield(env, mappings, row, 0, j => j, From, Less(), RowOutcomes(env, mappings, row));
  }

  function RowGrants(env: Env, mappings: seq<Option<GrantMapping>>): RowMap -> Result<seq<Grant>, Error> {
    row => GrantsOf(env, mappings, row)
  }

  lemma RowReply(env: Env, mappings: seq<Option<GrantMapping>>, row: RowMap, captured: seq<Grant>)
    ensures match Mapping(RowGrants(env, mappings))(captured, row)
            case Reply(acc, ok) =>
              ok && captured <= acc
              && Yields(From(0), Less(), RowOutcomes(env, mappings, row), Ok(acc[|captured|..]))
            case Refusal(e) => Yields(From(0), Less(), RowOutcomes(env, mappings, row), Err(e))
    ensures Mapping(RowGrants(env, mappings))(captured, row).Reply? <==>
            forall j :: 0 <= j < |mappings| ==> MapGrant(env, mappings[j], row).Ok?
  {
    RowYields(env, mappings, row);
    var grants, made := GrantsOf(env, mappings, row), RowOutcomes(env, mappings, row);
    YieldsExactly(From(0), Less(), made, grants);
    assert (forall j :: From(0)(j) ==> made(j).Ok?) <==>
           forall j :: 0 <= j < |mappings| ==> MapGrant(env, mappings[j], row).Ok? by {
      assert forall j :: 0 <= j < |mappings| ==> made(j) == MapGrant(env, mappings[j], row);
    }
    if grants.Ok? { assert (captured + grants.value)[|captured|..] == grants.value; }
  }

  /** The row callback of `listGrants`. Its loop over the mappings is the function that the page reader is given. */
  method MapRow(env: Env, mappings: seq<Option<GrantMapping>>, row: RowMap, captured: seq<Grant>)
    returns (r: Reply<seq<Grant>>)
    ensures r == Mapping(RowGrants(env, mappings))(captured, row)
    ensures match r
            case Reply(acc, ok) =>
              ok && captured <= acc
              && Yields(From(0), Less(), RowOutcomes(env, mappings, row), Ok(acc[|captured|..]))
            case Refusal(e) => Yields(From(0), Less(), RowOutcomes(env, mappings, row), Err(e))
    ensures r.Reply? <==> forall j :: 0 <= j < |mappings| ==> MapGrant(env, mappings[j], row).Ok?
  {
    RowReply(env, mappings, row, captured);
    var ret := captured;
    for n := 0 to |mappings|
      invariant Both(Ok(captured), GrantsOf(env, mappings, row)) == Both(Ok(ret), GrantsOf(env, mappings[n..], row))
    {
      var g := MapGrant(env, mappings[n], row);
      assert mappings[n..][1..] == mappings[n + 1..];
      BothAssociative(Ok(ret), Single(g), GrantsOf(env, mappings[n + 1..], row));
      if g.Err? {
        return Refusal(g.error);
      }
      if g.value.Some? {
        ret := ret + [g.value.value];
      } else {
        assert ret + [] == ret;
      }
    }
    assert mappings[|mappings|..] == [] && ret + [] == ret;
    return Reply(ret, true);
  }

  // ---- listGrants ---------------------------------------------------------

  function SourceOf(s: Syncer, size: int, q: GrantsQuery): Source {
    Source(s.engine, s.db, q.query, q.pagination, size)
  }

  /** A page of the grants of one query. */
  function Listed(s: Syncer, page: PageToken, query: Option<GrantsQuery>): Result<Page<seq<Grant>>, Error> {
    if query.None? then Err(MissingQuery)
    else QueryPage(s.engine, s.db, page, query.value.query, query.value.pagination,
                   Mapping(RowGrants(s.env, query.value.mappings)), [])
  }

  method ListGrants(s: Syncer, page: PageToken, query: Option<GrantsQuery>) returns (r: Result<Page<seq<Grant>>, Error>)
    ensures r == Listed(s, page, query)
    ensures query.None? ==> r == Err(MissingQuery)
  {
    if query.None? {
      return Err(MissingQuery);
    }
    var callback := Mapping(RowGrants(s.env, query.value.mappings));
    r := RunQuery(s.engine, s.db, page, query.value.query, query.value.pagination, callback, []);
  }

  // ---- Grants -------------------------------------------------------------

  const GRANT_QUERY_TYPE := "grant-query"

  /** The states of the first n queries, each at its start. */
  function QueryStates(n: nat): seq<PageState> {
    if n == 0 then [] else QueryStates(n - 1) + [PageState("", GRANT_QUERY_TYPE, Itoa(n - 1))]
  }

  /** What one call makes of the stack it finds: the grants of a page of the top query, and the stack left. */
  function GrantsFrom(s: Syncer, size: int, below: seq<PageState>, top: PageState)
    : Result<(seq<Grant>, seq<PageState>), Error>
  {
    if top.resourceTypeId != GRANT_QUERY_TYPE then Err(BadPageToken)
    else match ParseInt(top.resourceId)
      case None => Err(BadPageToken)
      case Some(i) =>
        if i < 0 || i >= |s.grants| then Err(NoSuchQuery)
        else match Listed(s, PageToken(size, top.token), s.grants[i])
          case Err(e) => Err(e)
          case Ok(Page(grants, next)) =>
            Ok((grants, if next == "" then below else below + [top.(token := next)]))
  }

  /** One call of `Grants`: without a current state, all queries are stacked first. */
  function GrantsPage(s: Syncer, size: int, token: BagToken): Result<(seq<Grant>, BagToken), Error> {
    if s.grants == [] then Ok(([], NoToken))
    else if token.Corrupt? then Err(BadPageToken)
    else
      var states := if token.Encoded? then token.states else [];
      var stack := if token.Encoded? && token.current.Some? then states + [token.current.value]
                   else states + QueryStates(|s.grants|);
      match GrantsFrom(s, size, stack[..|stack| - 1], stack[|stack| - 1])
      case Err(e) => Err(e)
      case Ok((grants, left)) => Ok((grants, Encode(left)))
  }

  /** Stacks all configured queries, the last one on top. */
  method PushQueries(b: Bag, n: nat)
    requires b.current == None
    modifies b
    ensures b.Stack() == old(b.states) + QueryStates(n)
    ensures n > 0 ==> b.current.Some?
  {
    ghost var before := b.states;
    for ii := 0 to n
      invariant b.Stack() == before + QueryStates(ii)
      invariant ii > 0 ==> b.current.Some?
    {
      b.Push(PageState("", GRANT_QUERY_TYPE, Itoa(ii)));
    }
  }

  /** The rest of a call, once the bag has a current state. */
  method GrantsOfCurrent(s: Syncer, size: int, b: Bag) returns (r: Result<(seq<Grant>, BagToken), Error>)
    requires b.current.Some?
    modifies b
    ensures r == match old(GrantsFrom(s, size, b.states, b.current.value))
                 case Err(e) => Err(e)
                 case Ok((grants, left)) => Ok((grants, Encode(left)))
    ensures old(b.current.value.resourceTypeId) != "grant-query" || ParseInt(old(b.current.value.resourceId)).None? ==>
              r == Err(BadPageToken)
    ensures old(b.current.value.resourceTypeId) == "grant-query" ==>
              match ParseInt(old(b.current.value.resourceId))
              case Some(i) => !(0 <= i < |s.grants|) ==> r == Err(NoSuchQuery)
              case None => true
  {
    var current := b.current.value;
    if current.resourceTypeId != GRANT_QUERY_TYPE {
      return Err(BadPageToken);
    }
    var grantIi := ParseInt(current.resourceId);
    if grantIi.None? {
      return Err(BadPageToken);
    }
    if grantIi.value < 0 || grantIi.value >= |s.grants| {
      return Err(NoSuchQuery);
    }
    var listed := ListGrants(s, PageToken(size, current.token), s.grants[grantIi.value]);
    if listed.Err? {
      return Err(listed.error);
    }
    assert b.Stack()[..|b.Stack()| - 1] == b.states;
    var moved := b.Next(listed.value.next);
    var nextPageToken := b.Marshal();
    return Ok((listed.value.acc, nextPageToken));
  }

  method Grants(s: Syncer, size: int, token: BagToken) returns (r: Result<(seq<Grant>, BagToken), Error>)
    ensures r == GrantsPage(s, size, token)
    ensures s.grants == [] ==> r == Ok(([], NoToken))
    ensures s.grants != [] && token.Corrupt? ==> r == Err(BadPageToken)
  {
    if |s.grants| == 0 {
      return Ok(([], NoToken));
    }
    var b := new Bag();
    var ok := b.Unmarshal(token);
    if !ok {
      return Err(BadPageToken);
    }
    if b.current == None {
      PushQueries(b, |s.grants|);
    }
    assert b.Stack()[..|b.Stack()| - 1] == b.states;
    r := GrantsOfCurrent(s, size, b);
  }
}
