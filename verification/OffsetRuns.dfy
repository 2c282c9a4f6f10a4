/** Whole runs with the offset strategy over a table that does not change. */
module OffsetRuns {
  import opened Wrappers
  import opened Runs

  /** How a pagination gets from the offset of one page to that of the next. */
  type Step = nat -> nat

  /** Every step passes the page just read. */
  ghost predicate Advances(step: Step, limit: nat) {
    limit >= 1 && forall o: nat :: step(o) >= o + limit
  }

  /** The pages of a run that starts at `offset`. */
  ghost function Pages<T>(table: seq<T>, limit: nat, step: Step, offset: nat): seq<seq<T>>
    requires Advances(step, limit)
    decreases |table| - offset
  {
    if offset + limit < |table|
    then [table[offset..offset + limit]] + Pages(table, limit, step, step(offset))
    else [table[Min(offset, |table|)..]]
  }

  /** The rows of a run: those of its first page, and those of the run that starts at the next offset. */
  lemma LastPageDelivers<T>(table: seq<T>, limit: nat, step: Step, offset: nat)
    requires Advances(step, limit) && offset + limit >= |table|
    ensures Concat(Pages(table, limit, step, offset)) == table[Min(offset, |table|)..]
  {
    ConcatOne(table[Min(offset, |table|)..]);
  }

  lemma PagesDeliver<T>(table: seq<T>, limit: nat, step: Step, offset: nat)
    requires Advances(step, limit)
    ensures Concat(Pages(table, limit, step, offset)) ==
            if offset + limit < |table|
            then table[offset..offset + limit] + Concat(Pages(table, limit, step, step(offset)))
            else table[Min(offset, |table|)..]
  {
    if offset + limit < |table| {
      ConcatCons(table[offset..offset + limit], Pages(table, limit, step, step(offset)));
    } else {
      LastPageDelivers(table, limit, step, offset);
    }
  }

  // ---- What a run delivers, whatever the step -----------------------------

  function Interval(lo: nat, hi: nat): (r: seq<nat>)
    requires lo <= hi
    ensures |r| == hi - lo && forall i :: 0 <= i < |r| ==> r[i] == lo + i
  {
    seq(hi - lo, i requires 0 <= i => lo + i)
  }

  /** The table positions delivered by a run, in order of delivery. */
  ghost function Positions(n: nat, limit: nat, step: Step, offset: nat): seq<nat>
    requires Advances(step, limit)
    decreases n - offset
  {
    if offset + limit < n then Interval(offset, offset + limit) + Positions(n, limit, step, step(offset))
    else Interval(Min(offset, n), n)
  }

  /** Increasing, and within bounds. */
  predicate Increasing(ps: seq<nat>, lo: nat, hi: nat) {
    (forall i :: 0 <= i < |ps| ==> lo <= ps[i] < hi) && forall i, j :: 0 <= i < j < |ps| ==> ps[i] < ps[j]
  }

  lemma IncreasingAppend(a: seq<nat>, b: seq<nat>, lo: nat, mid: nat, hi: nat)
    requires lo <= mid <= hi && Increasing(a, lo, mid) && Increasing(b, mid, hi)
    ensures Increasing(a + b, lo, hi)
  {
  }

  /** The positions are increasing, so no row is delivered twice or out of order, */
  lemma {:induction false} PositionsIncrease(n: nat, limit: nat, step: Step, offset: nat)
    requires Advances(step, limit)
    ensures Increasing(Positions(n, limit, step, offset), offset, n)
    decreases n - offset
  {
    if offset + limit < n {
      var next := step(offset);
      PositionsIncrease(n, limit, step, next);
      assert Increasing(Positions(n, limit, step, next), offset + limit, n);
      IncreasingAppend(Interval(offset, offset + limit), Positions(n, limit, step, next), offset, offset + limit, n);
    }
  }

  /** and the run delivers the table's rows at these positions. */
  lemma {:induction false} DeliveredAtPositions<T>(table: seq<T>, limit: nat, step: Step, offset: nat)
    requires Advances(step, limit)
    ensures var ps, out := Positions(|table|, limit, step, offset), Concat(Pages(table, limit, step, offset));
            |out| == |ps| && forall i :: 0 <= i < |ps| ==> 0 <= ps[i] < |table| && out[i] == table[ps[i]]
    decreases |table| - offset
  {
    PagesDeliver(table, limit, step, offset);
    if offset + limit < |table| {
      DeliveredAtPositions(table, limit, step, step(offset));
    }
  }

  /** A run never delivers more rows than lie beyond its start. */
  lemma {:induction false} DeliversAtMost<T>(table: seq<T>, limit: nat, step: Step, offset: nat)
    requires Advances(step, limit)
    ensures |Concat(Pages(table, limit, step, offset))| <= |table| - Min(offset, |table|)
    decreases |table| - offset
  {
    PagesDeliver(table, limit, step, offset);
    if offset + limit < |table| {
      DeliversAtMost(table, limit, step, step(offset));
    }
  }

  // ---- The intended step --------------------------------------------------

  function ByPage(limit: nat): Step { o => o + limit }

  /** Stepping by the page size delivers the whole table, for every table and page size. */
  lemma {:induction false} ByPageComplete<T>(table: seq<T>, limit: nat, offset: nat)
    requires limit >= 1 && offset <= |table|
    ensures Advances(ByPage(limit), limit)
    ensures Concat(Pages(table, limit, ByPage(limit), offset)) == table[offset..]
    decreases |table| - offset
  {
    PagesDeliver(table, limit, ByPage(limit), offset);
    if offset + limit < |table| {
      ByPageComplete(table, limit, offset + limit);
      assert table[offset..] == table[offset..offset + limit] + table[offset + limit..];
    }
  }

  // ---- The step of the code -----------------------------------------------

  /** `nextPageToken` multiplies the offset, already a number of rows, by the page size. */
  function Multiplied(limit: nat): Step { o => o * limit + limit }

  lemma MultipliedAdvances(limit: nat)
    requires limit >= 1
    ensures Advances(Multiplied(limit), limit)
  {
    forall o: nat ensures Multiplied(limit)(o) >= o + limit { assert o * limit >= o; }
  }

  /** Two pages hold a table of at most twice the page size. */
  lemma TwoPagesHold<T>(table: seq<T>, limit: nat, step: Step)
    requires Advances(step, limit) && step(0) == limit && |table| <= limit + limit
    ensures Concat(Pages(table, limit, step, 0)) == table
  {
    PagesDeliver(table, limit, step, 0);
    if |table| > limit {
      PagesDeliver(table, limit, step, limit);
      assert table[0..limit] + table[limit..] == table;
    }
  }

  /** A third page that starts beyond twice the page size leaves rows out. */
  lemma ThirdPageSkips<T>(table: seq<T>, limit: nat, step: Step)
    requires Advances(step, limit) && step(0) == limit && step(limit) > limit + limit && |table| > limit + limit
    ensures |Concat(Pages(table, limit, step, 0))| < |table|
  {
    var third := step(limit);
    PagesDeliver(table, limit, step, 0);
    PagesDeliver(table, limit, step, limit);
    DeliversAtMost(table, limit, step, third);
  }

  lemma MultipliedSteps(limit: nat)
    requires limit >= 1
    ensures var step := Multiplied(limit);
            Advances(step, limit) && step(0) == limit && (limit >= 2 ==> step(limit) > 2 * limit)
  {
    MultipliedAdvances(limit);
    assert limit >= 2 ==> limit * limit >= 2 * limit;
  }

  /** Offset runs deliver the whole table if and only if a page is one row, or the table fits in two pages. */
  lemma OffsetRunComplete<T>(table: seq<T>, limit: nat)
    requires limit >= 1
    ensures Advances(Multiplied(limit), limit)
    ensures Concat(Pages(table, limit, Multiplied(limit), 0)) == table <==> limit == 1 || |table| <= 2 * limit
  {
    var step := Multiplied(limit);
    MultipliedSteps(limit);
    if limit == 1 {
      SameSteps(table, 1, step, ByPage(1), 0);
      ByPageComplete(table, 1, 0);
    } else if |table| <= 2 * limit {
      TwoPagesHold(table, limit, step);
    } else {
      ThirdPageSkips(table, limit, step);
    }
  }

  lemma {:induction false} SameSteps<T>(table: seq<T>, limit: nat, s: Step, t: Step, offset: nat)
    requires Advances(s, limit) && Advances(t, limit) && forall o: nat :: s(o) == t(o)
    ensures Pages(table, limit, s, offset) == Pages(table, limit, t, offset)
    decreases |table| - offset
  {
    if offset + limit < |table| { SameSteps(table, limit, s, t, s(offset)); }
  }

  // ---- Tokens in closed form ----------------------------------------------

  function Power(b: nat, e: nat): nat { if e == 0 then 1 else b * Power(b, e - 1) }

  /** b + b² + ... + b^k. */
  function PowerSum(b: nat, k: nat): nat { if k == 0 then 0 else PowerSum(b, k - 1) + Power(b, k) }

  lemma {:induction false} PowerSumStep(b: nat, k: nat)
    ensures PowerSum(b, k + 1) == PowerSum(b, k) * b + b
  {
    if k == 0 {
      assert Power(b, 1) == b * Power(b, 0);
    } else {
      PowerSumStep(b, k - 1);
      TimesSum(PowerSum(b, k - 1), Power(b, k), b);
    }
  }

  lemma TimesSum(x: nat, y: nat, b: nat)
    ensures (x + y) * b + b == x * b + b + b * y
  {
  }

  lemma {:induction false} PowerInSum(b: nat, k: nat)
    requires b >= 1
    ensures 1 <= Power(b, k) <= PowerSum(b, k) + b
  {
    if k > 0 {
      PowerInSum(b, k - 1);
      assert b * Power(b, k - 1) >= 1;
    }
  }

  /** After k pages the run stands at offset L + L² + ... + L^k, and the page before it ended inside the table. */
  lemma {:induction false} PagesAtPowers<T>(table: seq<T>, limit: nat, k: nat)
    requires Advances(Multiplied(limit), limit)
    requires k < |Pages(table, limit, Multiplied(limit), 0)|
    ensures Pages(table, limit, Multiplied(limit), 0)[k..] == Pages(table, limit, Multiplied(limit), PowerSum(limit, k))
    ensures k > 0 ==> PowerSum(limit, k - 1) + limit < |table|
  {
    var step := Multiplied(limit);
    var pages := Pages(table, limit, step, 0);
    if k == 0 {
      assert pages[0..] == pages;
    } else {
      PagesAtPowers(table, limit, k - 1);
      PowerSumStep(limit, k - 1);
      var before := PowerSum(limit, k - 1);
      var tail := Pages(table, limit, step, before);
      assert |tail| > 1 && pages[k..] == tail[1..];
      assert tail[1..] == Pages(table, limit, step, step(before));
    }
  }

  /** The number of pages is logarithmic: p pages of L rows need a table of more than L^(p - 2) rows. */
  lemma PageCount<T>(table: seq<T>, limit: nat)
    requires Advances(Multiplied(limit), limit)
    ensures var p := |Pages(table, limit, Multiplied(limit), 0)|; p >= 2 ==> Power(limit, p - 2) < |table|
  {
    var p := |Pages(table, limit, Multiplied(limit), 0)|;
    if p >= 2 {
      PagesAtPowers(table, limit, p - 1);
      PowerInSum(limit, p - 2);
    }
  }

  // ---- From pages to runs -------------------------------------------------

  /** One page of a run that prints its offsets as tokens. */
  ghost function PageAt<T>(table: seq<T>, limit: nat, step: Step, show: int -> string, offset: nat): Page<seq<T>> {
    if offset + limit < |table| then Page(table[offset..offset + limit], show(step(offset)))
    else Page(table[Min(offset, |table|)..], "")
  }

  /** The page at an offset is cut from the rows from there on. */
  lemma PageAtCuts<T>(table: seq<T>, limit: nat, step: Step, show: int -> string, offset: nat)
    ensures var wanted := table[Min(offset, |table|)..];
            PageAt(table, limit, step, show, offset) ==
            if limit < |wanted| then Page(wanted[..limit], show(step(offset))) else Page(wanted, "")
  {
    if offset + limit < |table| { assert table[offset..][..limit] == table[offset..offset + limit]; }
  }

  /** If every token up to `bound` fetches its page, and none beyond is ever needed, the pages make a run. */
  lemma {:induction false} RunOfPages<T>(fetch: Fetch<T>, table: seq<T>, limit: nat, step: Step, show: int -> string,
                                      bound: nat, token: string, offset: nat)
    requires Advances(step, limit) && forall o: nat :: show(o) != ""
    requires forall o: nat :: o <= bound ==> fetch(show(o)) == Ok(PageAt(table, limit, step, show, o))
    requires forall o: nat :: o + limit < |table| ==> step(o) <= bound
    requires fetch(token) == Ok(PageAt(table, limit, step, show, offset))
    ensures Run(fetch, token, Pages(table, limit, step, offset))
    decreases |table| - offset
  {
    if offset + limit < |table| {
      var next := step(offset);
      RunOfPages(fetch, table, limit, step, show, bound, show(next), next);
      MorePages(fetch, token, table[offset..offset + limit], show(next), Pages(table, limit, step, next));
    }
  }
}
