/** Whole runs with the cursor strategy, over a table that may change between one page and the next. */
module CursorRuns {
  import opened Wrappers
  import opened SqlValues
  import opened Runs

  /** The database's order on keys, printed as cursors: a cursor is below the keys that come after it. */
  type Order = (string, string) -> bool

  /** The printed primary key of a row. */
  type Key = RowMap -> string

  ghost predicate IsOrder(below: Order) {
    (forall a, b, c :: below(a, b) && below(b, c) ==> below(a, c)) && forall a :: !below(a, a)
  }

  /** In ascending key order, no key twice. */
  ghost predicate Sorted(below: Order, key: Key, rows: seq<RowMap>) {
    forall i, j :: 0 <= i < j < |rows| ==> below(key(rows[i]), key(rows[j]))
  }

  /** In ascending key order, where rows may share a key. */
  ghost predicate Ascending(below: Order, key: Key, rows: seq<RowMap>) {
    forall i, j :: 0 <= i < j < |rows| ==> key(rows[i]) == key(rows[j]) || below(key(rows[i]), key(rows[j]))
  }

  /** The rows whose key comes after the cursor. */
  function Above(below: Order, key: Key, table: seq<RowMap>, cursor: string): seq<RowMap> {
    if table == [] then []
    else (if below(cursor, key(table[0])) then [table[0]] else []) + Above(below, key, table[1..], cursor)
  }

  lemma {:induction false} AboveRows(below: Order, key: Key, table: seq<RowMap>, cursor: string)
    ensures forall row :: row in Above(below, key, table, cursor) <==> row in table && below(cursor, key(row))
  {
    if table != [] {
      AboveRows(below, key, table[1..], cursor);
      assert table == [table[0]] + table[1..];
    }
  }

  /** The rows that come after the cursor are taken from the table in its order. */
  lemma {:induction false} AboveSorted(below: Order, key: Key, table: seq<RowMap>, cursor: string)
    requires Sorted(below, key, table)
    ensures Sorted(below, key, Above(below, key, table, cursor))
  {
    if table != [] {
      AboveSorted(below, key, table[1..], cursor);
      AboveRows(below, key, table[1..], cursor);
      var rest := Above(below, key, table[1..], cursor);
      forall i | 0 <= i < |rest| ensures below(key(table[0]), key(rest[i])) {
        assert rest[i] in table[1..];
      }
    }
  }

  lemma {:induction false} AboveAscending(below: Order, key: Key, table: seq<RowMap>, cursor: string)
    requires Ascending(below, key, table)
    ensures Ascending(below, key, Above(below, key, table, cursor))
    ensures Sorted(below, key, table) ==> Sorted(below, key, Above(below, key, table, cursor))
  {
    if Sorted(below, key, table) { AboveSorted(below, key, table, cursor); }
    if table != [] {
      AboveAscending(below, key, table[1..], cursor);
      AboveRows(below, key, table[1..], cursor);
      var rest := Above(below, key, table[1..], cursor);
      forall i | 0 <= i < |rest| ensures key(table[0]) == key(rest[i]) || below(key(table[0]), key(rest[i])) {
        assert rest[i] in table[1..];
      }
    }
  }

  /** A page of at most `limit` rows after the cursor, whose token is the key of its last row if there are more. */
  function Cut(below: Order, key: Key, table: seq<RowMap>, limit: nat, cursor: string): Page<seq<RowMap>>
    requires limit >= 1
  {
    var rows := Above(below, key, table, cursor);
    if |rows| <= limit then Page(rows, "") else Page(rows[..limit], key(rows[limit - 1]))
  }

  // ---- Sessions over a changing table -------------------------------------

  /** What one call is answered from: the table at that moment, and the page size asked for. */
  datatype Moment = Moment(table: seq<RowMap>, limit: nat)

  ghost predicate Proper(below: Order, key: Key, moments: seq<Moment>) {
    forall i :: 0 <= i < |moments| ==> moments[i].limit >= 1 && Ascending(below, key, moments[i].table)
  }

  /** No table has a key twice. */
  ghost predicate KeysUnique(below: Order, key: Key, moments: seq<Moment>) {
    forall i :: 0 <= i < |moments| ==> Sorted(below, key, moments[i].table)
  }

  /**
   * `pages` are fetched one after the other, each with the token returned by the one before, the first with `token`;
   * only the last may return the empty token. `last` is the token returned last.
   */
  ghost predicate Session(below: Order, key: Key, moments: seq<Moment>, token: string, pages: seq<seq<RowMap>>,
                          last: string)
    requires Proper(below, key, moments)
  {
    |pages| == |moments| &&
    if moments == [] then last == token
    else
      var Page(rows, next) := Cut(below, key, moments[0].table, moments[0].limit, token);
      rows == pages[0]
      && (next == "" ==> |moments| == 1)
      && Session(below, key, moments[1..], next, pages[1..], last)
  }

  lemma CutAscends(below: Order, key: Key, table: seq<RowMap>, limit: nat, cursor: string)
    requires limit >= 1 && Ascending(below, key, table)
    ensures var rows := Cut(below, key, table, limit, cursor).acc;
            Ascending(below, key, rows) && (Sorted(below, key, table) ==> Sorted(below, key, rows))
  {
    AboveAscending(below, key, table, cursor);
  }

  lemma CutKeys(below: Order, key: Key, table: seq<RowMap>, limit: nat, cursor: string)
    requires IsOrder(below) && limit >= 1 && (cursor == "" || below("", cursor))
    ensures var Page(rows, next) := Cut(below, key, table, limit, cursor);
            (forall row :: row in rows ==> row in table && below(cursor, key(row)))
            && (next != "" <==> |Above(below, key, table, cursor)| > limit)
            && (next != "" ==> below("", next) && |rows| == limit && next == key(rows[limit - 1]))
  {
    AboveRows(below, key, table, cursor);
    var all := Above(below, key, table, cursor);
    if |all| > limit {
      assert all[limit - 1] in all;
      assert forall row :: row in all[..limit] ==> row in all;
    }
  }

  /** One page: its rows come after the cursor in order, and its token is its last key, if it is not the last page. */
  lemma CutPage(below: Order, key: Key, table: seq<RowMap>, limit: nat, cursor: string)
    requires IsOrder(below) && limit >= 1 && Ascending(below, key, table)
    requires cursor == "" || below("", cursor)
    ensures var Page(rows, next) := Cut(below, key, table, limit, cursor);
            Ascending(below, key, rows) && (Sorted(below, key, table) ==> Sorted(below, key, rows))
            && (forall row :: row in rows ==> row in table && below(cursor, key(row)))
            && (next != "" <==> |Above(below, key, table, cursor)| > limit)
            && (next != "" ==> below("", next) && |rows| == limit && next == key(rows[limit - 1]))
  {
    CutAscends(below, key, table, limit, cursor);
    CutKeys(below, key, table, limit, cursor);
  }

  /** Whatever is inserted or deleted between pages, and whatever the page sizes, the delivered keys ascend. */
  lemma {:induction false} KeysAscend(below: Order, key: Key, moments: seq<Moment>, token: string,
                                      pages: seq<seq<RowMap>>, last: string)
    requires IsOrder(below) && Proper(below, key, moments) && Session(below, key, moments, token, pages, last)
    requires token == "" || below("", token)
    ensures Ascending(below, key, Concat(pages))
    ensures forall row :: row in Concat(pages) ==> below(token, key(row))
  {
    if moments != [] {
      var Page(rows, next) := Cut(below, key, moments[0].table, moments[0].limit, token);
      CutPage(below, key, moments[0].table, moments[0].limit, token);
      var rest := Concat(pages[1..]);
      assert Concat(pages) == rows + rest;
      if next == "" {
        assert rest == [] && rows + rest == rows;
      } else {
        KeysAscend(below, key, moments[1..], next, pages[1..], last);
        AscendingAppend(below, key, rows, rest);
        AfterBoth(below, key, rows, rest, token, next);
      }
    }
  }

  /** If no table has a key twice they increase strictly over the whole session: no key is delivered twice. */
  lemma {:induction false} KeysIncrease(below: Order, key: Key, moments: seq<Moment>, token: string,
                                        pages: seq<seq<RowMap>>, last: string)
    requires IsOrder(below) && Proper(below, key, moments) && Session(below, key, moments, token, pages, last)
    requires (token == "" || below("", token)) && KeysUnique(below, key, moments)
    ensures Sorted(below, key, Concat(pages))
  {
    if moments != [] {
      var Page(rows, next) := Cut(below, key, moments[0].table, moments[0].limit, token);
      CutPage(below, key, moments[0].table, moments[0].limit, token);
      var rest := Concat(pages[1..]);
      assert Concat(pages) == rows + rest;
      if next == "" {
        assert rest == [] && rows + rest == rows;
      } else {
        KeysIncrease(below, key, moments[1..], next, pages[1..], last);
        KeysAscend(below, key, moments[1..], next, pages[1..], last);
        SortedAppend(below, key, rows, rest);
      }
    }
  }

  /** What comes after the last row comes after every row. */
  lemma AfterLast(below: Order, key: Key, rows: seq<RowMap>, i: nat, k: string)
    requires IsOrder(below) && Ascending(below, key, rows) && i < |rows| && below(key(rows[|rows| - 1]), k)
    ensures below(key(rows[i]), k)
  {
    if i < |rows| - 1 { assert key(rows[i]) == key(rows[|rows| - 1]) || below(key(rows[i]), key(rows[|rows| - 1])); }
  }

  lemma AscendingAppend(below: Order, key: Key, a: seq<RowMap>, b: seq<RowMap>)
    requires IsOrder(below) && Ascending(below, key, a) && Ascending(below, key, b) && a != []
    requires forall row :: row in b ==> below(key(a[|a| - 1]), key(row))
    ensures Ascending(below, key, a + b)
  {
    forall i, j | 0 <= i < |a| && 0 <= j < |b| ensures below(key(a[i]), key(b[j])) {
      assert b[j] in b;
      AfterLast(below, key, a, i, key(b[j]));
    }
  }

  lemma SortedAppend(below: Order, key: Key, a: seq<RowMap>, b: seq<RowMap>)
    requires IsOrder(below) && Sorted(below, key, a) && Sorted(below, key, b) && a != []
    requires forall row :: row in b ==> below(key(a[|a| - 1]), key(row))
    ensures Sorted(below, key, a + b)
  {
    forall i, j | 0 <= i < |a| && 0 <= j < |b| ensures below(key(a[i]), key(b[j])) {
      assert b[j] in b;
      AfterLast(below, key, a, i, key(b[j]));
    }
  }

  lemma AfterBoth(below: Order, key: Key, a: seq<RowMap>, b: seq<RowMap>, token: string, next: string)
    requires IsOrder(below) && a != [] && next == key(a[|a| - 1])
    requires forall row :: row in a ==> below(token, key(row))
    requires forall row :: row in b ==> below(next, key(row))
    ensures forall row :: row in a + b ==> below(token, key(row))
  {
    assert a[|a| - 1] in a;
  }

  lemma {:induction false} ConcatRows<T>(parts: seq<seq<T>>, i: nat, x: T)
    requires i < |parts| && x in parts[i]
    ensures x in Concat(parts)
  {
    if i > 0 { ConcatRows(parts[1..], i - 1, x); }
  }

  lemma UpToToken(below: Order, key: Key, table: seq<RowMap>, limit: nat, cursor: string, row: RowMap, k: string)
    requires IsOrder(below) && limit >= 1 && Ascending(below, key, table)
    requires cursor == "" || below("", cursor)
    requires var Page(rows, next) := Cut(below, key, table, limit, cursor); next != "" && row in rows && below(next, k)
    ensures below(key(row), k)
  {
    var rows := Cut(below, key, table, limit, cursor).acc;
    CutPage(below, key, table, limit, cursor);
    var i :| 0 <= i < |rows| && rows[i] == row;
    AfterLast(below, key, rows, i, k);
  }

  lemma FirstPageApart(below: Order, key: Key, moments: seq<Moment>, token: string, pages: seq<seq<RowMap>>,
                       last: string, row: RowMap, row': RowMap)
    requires IsOrder(below) && Proper(below, key, moments) && Session(below, key, moments, token, pages, last)
    requires (token == "" || below("", token)) && |pages| > 1
    requires row in pages[0] && row' in Concat(pages[1..])
    ensures below(key(row), key(row'))
  {
    var table, limit := moments[0].table, moments[0].limit;
    var next := Cut(below, key, table, limit, token).next;
    CutPage(below, key, table, limit, token);
    KeysAscend(below, key, moments[1..], next, pages[1..], last);
    UpToToken(below, key, table, limit, token, row, key(row'));
  }

  /** Even where rows share a key, every key of a page comes after those of the pages before it. */
  lemma {:induction false} PagesApart(below: Order, key: Key, moments: seq<Moment>, token: string,
                                      pages: seq<seq<RowMap>>, last: string, a: nat, b: nat)
    requires IsOrder(below) && Proper(below, key, moments) && Session(below, key, moments, token, pages, last)
    requires (token == "" || below("", token)) && a < b < |pages|
    ensures forall row, row' :: row in pages[a] && row' in pages[b] ==> below(key(row), key(row'))
    decreases a
  {
    if a > 0 {
      CutPage(below, key, moments[0].table, moments[0].limit, token);
      var next := Cut(below, key, moments[0].table, moments[0].limit, token).next;
      PagesApart(below, key, moments[1..], next, pages[1..], last, a - 1, b - 1);
    } else {
      assert pages[1..][b - 1] == pages[b];
      forall row, row' | row in pages[0] && row' in pages[b] ensures below(key(row), key(row')) {
        ConcatRows(pages[1..], b - 1, row');
        FirstPageApart(below, key, moments, token, pages, last, row, row');
      }
    }
  }

  /** A row after the cursor is on the page, or has the page's token for its key, or comes after it. */
  lemma OnPageOrAfter(below: Order, key: Key, table: seq<RowMap>, limit: nat, cursor: string, row: RowMap)
    requires IsOrder(below) && limit >= 1 && Ascending(below, key, table) && row in table && below(cursor, key(row))
    ensures var Page(rows, next) := Cut(below, key, table, limit, cursor);
            row in rows
            || (|rows| == limit && next == key(rows[limit - 1]) && (next == key(row) || below(next, key(row))))
  {
    AboveRows(below, key, table, cursor);
    AboveAscending(below, key, table, cursor);
    var all := Above(below, key, table, cursor);
    var i :| 0 <= i < |all| && all[i] == row;
    if |all| > limit {
      if i < limit { assert all[..limit][i] == row; }
    }
  }

  ghost predicate Has(key: Key, rows: seq<RowMap>, k: string) { exists row :: row in rows && key(row) == k }

  /** A cursor that a run can send: none at the start, and then the key of a row it has seen, after the empty cursor. */
  ghost predicate CanSend(below: Order, key: Key, known: seq<RowMap>, cursor: string) {
    cursor == "" || (below("", cursor) && Has(key, known, cursor))
  }

  lemma NextCanBeSent(below: Order, key: Key, table: seq<RowMap>, known: seq<RowMap>, limit: nat, cursor: string)
    requires IsOrder(below) && limit >= 1 && CanSend(below, key, known, cursor)
    requires forall row :: row in table ==> row in known
    ensures CanSend(below, key, known, Cut(below, key, table, limit, cursor).next)
  {
    var Page(rows, next) := Cut(below, key, table, limit, cursor);
    CutKeys(below, key, table, limit, cursor);
    if next != "" { assert rows[limit - 1] in rows; }
  }

  /**
   * A session that has come to its end has delivered every key that was in the table at every page, if it comes after
   * the first cursor, however the table changed around it.
   */
  lemma {:induction false} LastingKeyDelivered(below: Order, key: Key, moments: seq<Moment>, token: string,
                                               pages: seq<seq<RowMap>>, k: string)
    requires IsOrder(below) && Proper(below, key, moments) && moments != []
    requires Session(below, key, moments, token, pages, "")
    requires (token == "" || below("", token)) && below(token, k)
    requires forall i :: 0 <= i < |moments| ==> Has(key, moments[i].table, k)
    ensures Has(key, Concat(pages), k)
  {
    var table, limit := moments[0].table, moments[0].limit;
    var Page(rows, next) := Cut(below, key, table, limit, token);
    CutPage(below, key, table, limit, token);
    assert Has(key, table, k);
    var row :| row in table && key(row) == k;
    OnPageOrAfter(below, key, table, limit, token, row);
    assert Concat(pages) == rows + Concat(pages[1..]);
    if row in rows {
      assert row in Concat(pages);
    } else if next == k {
      assert rows[limit - 1] in Concat(pages);
    } else {
      LastingKeyDelivered(below, key, moments[1..], next, pages[1..], k);
      var later :| later in Concat(pages[1..]) && key(later) == k;
      assert later in Concat(pages);
    }
  }

  /** A key that does not come after the empty cursor, such as the empty key, is never delivered. */
  lemma UnreachableKey(below: Order, key: Key, moments: seq<Moment>, pages: seq<seq<RowMap>>, last: string, row: RowMap)
    requires IsOrder(below) && Proper(below, key, moments) && Session(below, key, moments, "", pages, last)
    requires !below("", key(row))
    ensures row !in Concat(pages)
  {
    KeysAscend(below, key, moments, "", pages, last);
  }

  // ---- Runs over a table that stays the same ------------------------------

  /** The first position from n on at which the key is not that of row n - 1. */
  function SkipTies(key: Key, rows: seq<RowMap>, n: nat): (m: nat)
    requires 1 <= n <= |rows|
    ensures n <= m <= |rows| && (forall i :: n <= i < m ==> key(rows[i]) == key(rows[n - 1]))
    ensures m < |rows| ==> key(rows[m]) != key(rows[n - 1])
    decreases |rows| - n
  {
    if n == |rows| || key(rows[n]) != key(rows[n - 1]) then n else SkipTies(key, rows, n + 1)
  }

  /** What comes after the last row of a page is what that page left, but for rows with the key of its last row. */
  lemma AboveCut(below: Order, key: Key, table: seq<RowMap>, cursor: string, n: nat)
    requires IsOrder(below) && Ascending(below, key, table) && 1 <= n <= |Above(below, key, table, cursor)|
    ensures var rows := Above(below, key, table, cursor);
            Above(below, key, table, key(rows[n - 1])) == rows[SkipTies(key, rows, n)..]
  {
    var rows := Above(below, key, table, cursor);
    AboveAscending(below, key, table, cursor);
    AboveRows(below, key, table, cursor);
    assert rows[n - 1] in rows;
    AboveTwice(below, key, table, cursor, key(rows[n - 1]));
    AfterTies(below, key, rows, n);
    AboveSuffix(below, key, rows, SkipTies(key, rows, n), key(rows[n - 1]));
  }

  lemma AfterTies(below: Order, key: Key, rows: seq<RowMap>, n: nat)
    requires IsOrder(below) && Ascending(below, key, rows) && 1 <= n <= |rows|
    ensures var m, c := SkipTies(key, rows, n), key(rows[n - 1]);
            (forall i :: 0 <= i < m ==> !below(c, key(rows[i])))
            && forall i :: m <= i < |rows| ==> below(c, key(rows[i]))
  {
    var m, c := SkipTies(key, rows, n), key(rows[n - 1]);
    forall i | 0 <= i < m ensures !below(c, key(rows[i])) {
      assert key(rows[i]) == c || below(key(rows[i]), c);
    }
    if m < |rows| {
      assert below(c, key(rows[m]));
      forall i | m < i < |rows| ensures below(c, key(rows[i])) {
        assert key(rows[m]) == key(rows[i]) || below(key(rows[m]), key(rows[i]));
      }
    }
  }

  /** A later cursor selects among the rows after an earlier one. */
  lemma {:induction false} AboveTwice(below: Order, key: Key, table: seq<RowMap>, c: string, d: string)
    requires IsOrder(below) && below(c, d)
    ensures Above(below, key, table, d) == Above(below, key, Above(below, key, table, c), d)
  {
    if table != [] {
      AboveTwice(below, key, table[1..], c, d);
      var k, rest := key(table[0]), Above(below, key, table[1..], c);
      if below(c, k) {
        assert ([table[0]] + rest)[1..] == rest;
      } else {
        assert !below(d, k);
        assert [] + rest == rest;
      }
    }
  }

  lemma {:induction false} AllAbove(below: Order, key: Key, rows: seq<RowMap>, cursor: string)
    requires forall i :: 0 <= i < |rows| ==> below(cursor, key(rows[i]))
    ensures Above(below, key, rows, cursor) == rows
  {
    if rows != [] { AllAbove(below, key, rows[1..], cursor); }
  }

  /** When exactly the rows from n on come after the cursor, they are what it selects. */
  lemma {:induction false} AboveSuffix(below: Order, key: Key, rows: seq<RowMap>, n: nat, cursor: string)
    requires n <= |rows|
    requires forall i :: 0 <= i < n ==> !below(cursor, key(rows[i]))
    requires forall i :: n <= i < |rows| ==> below(cursor, key(rows[i]))
    ensures Above(below, key, rows, cursor) == rows[n..]
  {
    if n == 0 {
      AllAbove(below, key, rows, cursor);
    } else {
      AboveSuffix(below, key, rows[1..], n - 1, cursor);
      assert rows[1..][n - 1..] == rows[n..];
      assert !below(cursor, key(rows[0]));
    }
  }

  /** The pages of a run over one table. */
  ghost function CursorPages(below: Order, key: Key, table: seq<RowMap>, limit: nat, cursor: string): seq<seq<RowMap>>
    requires IsOrder(below) && Ascending(below, key, table) && limit >= 1
    decreases |Above(below, key, table, cursor)|
  {
    var rows := Above(below, key, table, cursor);
    if |rows| <= limit then [rows]
    else
      AboveCut(below, key, table, cursor, limit);
      [rows[..limit]] + CursorPages(below, key, table, limit, key(rows[limit - 1]))
  }

  /** Rows n - 1 and n share their key. */
  predicate Tie(key: Key, rows: seq<RowMap>, n: int) { 0 < n < |rows| && key(rows[n - 1]) == key(rows[n]) }

  /** A run in pages of `limit` rows ends its k-th page between two rows of the same key. */
  predicate CutsTie(key: Key, rows: seq<RowMap>, limit: nat, k: nat) { Tie(key, rows, k * limit) }

  ghost predicate CutsNoTie(key: Key, rows: seq<RowMap>, limit: nat) { forall k: nat :: !CutsTie(key, rows, limit, k) }

  /** With unique keys no page does. */
  lemma SortedHasNoTies(below: Order, key: Key, rows: seq<RowMap>, limit: nat)
    requires IsOrder(below) && Sorted(below, key, rows)
    ensures CutsNoTie(key, rows, limit)
  {
    forall k: nat ensures !CutsTie(key, rows, limit, k) {
      var n := k * limit;
      if 0 < n < |rows| { assert below(key(rows[n - 1]), key(rows[n])); }
    }
  }

  lemma LaterTie(key: Key, rows: seq<RowMap>, limit: nat, k: nat)
    requires 1 <= limit <= |rows| && k >= 1
    ensures CutsTie(key, rows[limit..], limit, k) == CutsTie(key, rows, limit, k + 1)
  {
    var n := k * limit;
    assert (k + 1) * limit == n + limit && n >= limit;
  }

  lemma TiesAfterPage(key: Key, rows: seq<RowMap>, limit: nat)
    requires 1 <= limit <= |rows|
    ensures CutsNoTie(key, rows, limit) <==> !Tie(key, rows, limit) && CutsNoTie(key, rows[limit..], limit)
  {
    var rest := rows[limit..];
    assert CutsTie(key, rows, limit, 1) == Tie(key, rows, limit);
    if CutsNoTie(key, rows, limit) {
      forall k: nat ensures !CutsTie(key, rest, limit, k) { if k >= 1 { LaterTie(key, rows, limit, k); } }
    }
    if !Tie(key, rows, limit) && CutsNoTie(key, rest, limit) {
      forall k: nat ensures !CutsTie(key, rows, limit, k) { if k >= 2 { LaterTie(key, rows, limit, k - 1); } }
    }
  }

  lemma OnePageCutsNoTie(key: Key, rows: seq<RowMap>, limit: nat)
    requires |rows| <= limit
    ensures CutsNoTie(key, rows, limit)
  {
    forall k: nat ensures !CutsTie(key, rows, limit, k) {
      if k >= 1 { assert k * limit == (k - 1) * limit + limit >= limit; }
    }
  }

  /**
   * Of the rows after the first cursor they deliver all, in order, if and only if no page ends between two rows of the
   * same key: the rows left of such a tie are skipped. Without ties nothing is.
   */
  lemma {:induction false} CursorPagesDeliver(below: Order, key: Key, table: seq<RowMap>, limit: nat, cursor: string)
    requires IsOrder(below) && Ascending(below, key, table) && limit >= 1
    ensures var rows, out := Above(below, key, table, cursor), Concat(CursorPages(below, key, table, limit, cursor));
            |out| <= |rows| && (out == rows <==> CutsNoTie(key, rows, limit))
    decreases |Above(below, key, table, cursor)|
  {
    var rows := Above(below, key, table, cursor);
    if |rows| <= limit {
      ConcatCons(rows, []);
      OnePageCutsNoTie(key, rows, limit);
    } else {
      var next, m := key(rows[limit - 1]), SkipTies(key, rows, limit);
      AboveCut(below, key, table, cursor, limit);
      CursorPagesDeliver(below, key, table, limit, next);
      var later := CursorPages(below, key, table, limit, next);
      ConcatCons(rows[..limit], later);
      TiesAfterPage(key, rows, limit);
      PageThenRest(rows, limit, m, Concat(later));
    }
  }

  lemma PageThenRest<T>(rows: seq<T>, n: nat, m: nat, rest: seq<T>)
    requires n <= m <= |rows| && |rest| <= |rows| - m
    ensures |rows[..n] + rest| <= |rows|
    ensures rows[..n] + rest == rows <==> m == n && rest == rows[m..]
  {
    if rows[..n] + rest == rows { assert (rows[..n] + rest)[n..] == rest; }
    if m == n && rest == rows[m..] { assert rows[..n] + rows[n..] == rows; }
  }

  /** And they are what a lister returns that cuts its pages after the cursor. */
  lemma {:induction false} CursorRun(fetch: Fetch<RowMap>, below: Order, key: Key, table: seq<RowMap>, limit: nat,
                                     cursor: string)
    requires IsOrder(below) && Ascending(below, key, table) && limit >= 1 && CanSend(below, key, table, cursor)
    requires forall c :: CanSend(below, key, table, c) ==> fetch(c) == Ok(Cut(below, key, table, limit, c))
    ensures Run(fetch, cursor, CursorPages(below, key, table, limit, cursor))
    decreases |Above(below, key, table, cursor)|
  {
    var rows := Above(below, key, table, cursor);
    CutPage(below, key, table, limit, cursor);
    if |rows| > limit {
      var next := key(rows[limit - 1]);
      AboveCut(below, key, table, cursor, limit);
      NextCanBeSent(below, key, table, table, limit, cursor);
      CursorRun(fetch, below, key, table, limit, next);
      MorePages(fetch, cursor, rows[..limit], next, CursorPages(below, key, table, limit, next));
    }
  }
}
