/** All grants of all tables: what a whole sync returns, when every query is served completely. */
module GrantTables {
  import opened Wrappers
  import opened Decimal
  import opened SqlValues
  import opened Runs
  import opened PageContract
  import opened Listings
  import opened CursorRuns
  import opened Sources
  import opened Grants
  import opened GrantsRun

  // ---- Which grants, and in which order -----------------------------------

  /** What a grant comes from: a mapping of a query, applied to a row of the query's table. */
  datatype Origin = Origin(query: int, row: int, mapping: int)

  /** The last query comes first; its rows and the mappings of a row come in order. */
  predicate Precedes(a: Origin, b: Origin) {
    a.query > b.query
    || (a.query == b.query && (a.row < b.row || (a.row == b.row && a.mapping < b.mapping)))
  }

  function Before(): (Origin, Origin) -> bool { (a, b) => Precedes(a, b) }

  /** What every mapping makes of every row of every table. */
  ghost function Outcomes(s: Syncer, tables: seq<seq<RowMap>>): Origin -> Result<Option<Grant>, Error>
    requires Configured(s) && |tables| == |s.grants|
  {
    (o: Origin) =>
      if 0 <= o.query < |tables| && 0 <= o.row < |tables[o.query]|
         && 0 <= o.mapping < |s.grants[o.query].value.mappings|
      then MapGrant(s.env, s.grants[o.query].value.mappings[o.mapping], tables[o.query][o.row])
      else Ok(None)
  }

  /** The origins in row r of query i, from mapping j on. */
  function FromMapping(i: int, r: int): int -> Origin -> bool {
    j => (o: Origin) => o.query == i && o.row == r && o.mapping >= j
  }

  /** The origins in query i, from row r on. */
  function FromRow(i: int): int -> Origin -> bool { r => (o: Origin) => o.query == i && o.row >= r && o.mapping >= 0 }

  /** The origins in the first k queries. */
  function FirstQueries(k: int): Origin -> bool { (o: Origin) => o.query < k && o.row >= 0 && o.mapping >= 0 }

  lemma OriginsOfRow(s: Syncer, tables: seq<seq<RowMap>>, i: nat, r: nat)
    requires Configured(s) && i < |tables| == |s.grants| && r < |tables[i]|
    ensures Yields(FromMapping(i, r)(0), Before(), Outcomes(s, tables),
                   GrantsOf(s.env, s.grants[i].value.mappings, tables[i][r]))
  {
    var mappings, row := s.grants[i].value.mappings, tables[i][r];
    var at := j => Origin(i, r, j);
    forall j: nat | j < |mappings|
      ensures Placed(s.env, mappings, row, at, FromMapping(i, r), Before(), Outcomes(s, tables), j)
    {
      assert at(j) == Origin(i, r, j);
    }
    assert mappings[0..] == mappings;
    MappingsYield(s.env, mappings, row, 0, at, FromMapping(i, r), Before(), Outcomes(s, tables));
  }

  lemma {:induction false} OriginsOfRows(s: Syncer, tables: seq<seq<RowMap>>, i: nat, r: nat)
    requires Configured(s) && i < |tables| == |s.grants| && r <= |tables[i]|
    ensures Yields(FromRow(i)(r), Before(), Outcomes(s, tables), QueryGrants(s, i, tables[i][r..]))
    decreases |tables[i]| - r
  {
    var rows := tables[i];
    if r == |rows| {
      YieldsNothing(FromRow(i)(r), Before(), Outcomes(s, tables));
    } else {
      assert rows[r..][0] == rows[r] && rows[r..][1..] == rows[r + 1..];
      OriginsOfRow(s, tables, i, r);
      OriginsOfRows(s, tables, i, r + 1);
      YieldsJoin(FromRow(i)(r), Before(), Outcomes(s, tables), FromMapping(i, r)(0), FromRow(i)(r + 1),
                 GrantsOf(s.env, s.grants[i].value.mappings, rows[r]), QueryGrants(s, i, rows[r + 1..]));
    }
  }

  /** The grants of the first k queries are what is made at their origins, in order, or the first error. */
  lemma {:induction false} OriginsOfQueries(s: Syncer, tables: seq<seq<RowMap>>, k: nat)
    requires Configured(s) && k <= |tables| == |s.grants|
    ensures Yields(FirstQueries(k), Before(), Outcomes(s, tables), GrantsOfAll(s, tables, k))
  {
    if k == 0 {
      YieldsNothing(FirstQueries(k), Before(), Outcomes(s, tables));
    } else {
      var table := tables[k - 1];
      assert table[0..] == table;
      OriginsOfRows(s, tables, k - 1, 0);
      OriginsOfQueries(s, tables, k - 1);
      YieldsJoin(FirstQueries(k), Before(), Outcomes(s, tables), FromRow(k - 1)(0), FirstQueries(k - 1),
                 QueryGrants(s, k - 1, table), GrantsOfAll(s, tables, k - 1));
    }
  }

  // ---- A sync of whole tables ---------------------------------------------

  /** Every query is served from its table, and in a way its pagination can cope with. */
  ghost predicate ServesTables(s: Syncer, size: int, orders: seq<Order>, tables: seq<seq<RowMap>>) {
    Configured(s) && |orders| == |tables| == |s.grants| <= MAX_INT64
    && forall i :: 0 <= i < |tables| ==>
         Serves(QuerySource(s, size, i), orders[i], tables[i])
         && Complete(QuerySource(s, size, i), orders[i], tables[i])
  }

  /** Whether `pages` is a whole run of query i that delivers its table. */
  ghost function DeliveringRun(s: Syncer, size: int, tables: seq<seq<RowMap>>): (int, seq<seq<RowMap>>) -> bool
    requires Configured(s) && |tables| == |s.grants|
  {
    (i: int, pages: seq<seq<RowMap>>) =>
      0 <= i < |tables| && Run(Fetcher(QuerySource(s, size, i)), "", pages) && Concat(pages) == tables[i]
  }

  lemma RunOfTable(s: Syncer, size: int, orders: seq<Order>, tables: seq<seq<RowMap>>, i: nat)
    requires ServesTables(s, size, orders, tables) && i < |tables|
    ensures Possible(DeliveringRun(s, size, tables), i)
  {
    var src := QuerySource(s, size, i);
    assert Serves(src, orders[i], tables[i]);
    var pages := ServedRun(src, orders[i], tables[i]);
    assert DeliveringRun(s, size, tables)(i, pages);
  }

  lemma RunsOfTables(s: Syncer, size: int, orders: seq<Order>, tables: seq<seq<RowMap>>)
    returns (runs: seq<seq<seq<RowMap>>>)
    requires ServesTables(s, size, orders, tables)
    ensures Planned(s, size, runs) && Delivered(runs) == tables
  {
    forall i: nat | i < |tables| ensures Possible(DeliveringRun(s, size, tables), i) {
      RunOfTable(s, size, orders, tables, i);
    }
    runs := Choices(DeliveringRun(s, size, tables), |tables|);
    DeliveredAt(runs);
    forall i | 0 <= i < |runs| ensures DeliveringRun(s, size, tables)(i, runs[i]) {}
    assert Delivered(runs) == tables;
  }

  /**
   * A sync of complete queries returns exactly what every mapping makes of every row of every table, each grant once:
   * the last query first, its rows in order, and the grants of a row in the order of the mappings. It fails exactly
   * when some mapping fails on some row, with the error of the first that does.
   */
  method SyncTables(s: Syncer, size: int, ghost orders: seq<Order>, ghost tables: seq<seq<RowMap>>)
    returns (r: Result<seq<Grant>, Error>)
    requires ServesTables(s, size, orders, tables)
    ensures r == GrantsOfAll(s, tables, |tables|)
    ensures Yields(FirstQueries(|tables|), Before(), Outcomes(s, tables), r)
    ensures r.Ok? <==> forall o :: Outcomes(s, tables)(o).Ok?
  {
    ghost var runs := RunsOfTables(s, size, orders, tables);
    DeliveredAt(runs);
    r := SyncGrants(s, size, runs);
    OriginsOfQueries(s, tables, |tables|);
    YieldsExactly(FirstQueries(|tables|), Before(), Outcomes(s, tables), r);
  }

  /** The grants of all tables, whatever the order of the queries. */
  ghost function GrantCounts(s: Syncer, tables: seq<seq<RowMap>>, k: nat): multiset<Grant>
    requires Configured(s) && k <= |s.grants| == |tables|
    requires GrantsOfAll(s, tables, k).Ok?
  {
    if k == 0 then multiset{}
    else GrantCounts(s, tables, k - 1) + multiset(QueryGrants(s, k - 1, tables[k - 1]).value)
  }

  /** As a multiset, the output is the sum over the queries. */
  lemma {:induction false} SyncIsUnion(s: Syncer, tables: seq<seq<RowMap>>, k: nat)
    requires Configured(s) && k <= |s.grants| == |tables| && GrantsOfAll(s, tables, k).Ok?
    ensures multiset(GrantsOfAll(s, tables, k).value) == GrantCounts(s, tables, k)
  {
    if k > 0 { SyncIsUnion(s, tables, k - 1); }
  }
}
