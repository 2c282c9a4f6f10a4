/** Whole runs of a lister: pages fetched by feeding back each token until it is empty. */
module Runs {
  import opened Wrappers

  function Min(a: int, b: int): int { if a < b then a else b }

  /** What a page has put into the captured variables, and the token of the page that follows. */
  datatype Page<A> = Page(acc: A, next: string)

  /** A lister: the rows of the page a token stands for, and the token of the next page. */
  type Fetch<T> = string -> Result<Page<seq<T>>, Error>

  function Concat<T>(parts: seq<seq<T>>): seq<T> {
    if parts == [] then [] else parts[0] + Concat(parts[1..])
  }

  lemma ConcatCons<T>(first: seq<T>, rest: seq<seq<T>>)
    ensures Concat([first] + rest) == first + Concat(rest)
  {
    assert ([first] + rest)[1..] == rest;
  }

  lemma ConcatOne<T>(part: seq<T>)
    ensures Concat([part]) == part
  {
    assert [part][1..] == [] && part + [] == part;
  }

  /** `pages` is the whole run from `token`: each page names the next, and the last returns the empty token. */
  ghost predicate Run<T>(fetch: Fetch<T>, token: string, pages: seq<seq<T>>)
    decreases pages
  {
    pages != [] &&
    match fetch(token)
    case Err(_) => false
    case Ok(Page(rows, next)) =>
      rows == pages[0] && if next == "" then |pages| == 1 else Run(fetch, next, pages[1..])
  }

  lemma FirstPage<T>(fetch: Fetch<T>, token: string, pages: seq<seq<T>>)
    requires Run(fetch, token, pages)
    ensures pages != [] && fetch(token).Ok? && fetch(token).value.acc == pages[0]
    ensures var next := fetch(token).value.next; if next == "" then |pages| == 1 else Run(fetch, next, pages[1..])
  {
  }

  lemma MorePages<T>(fetch: Fetch<T>, token: string, rows: seq<T>, next: string, rest: seq<seq<T>>)
    requires fetch(token) == Ok(Page(rows, next)) && next != "" && Run(fetch, next, rest)
    ensures Run(fetch, token, [rows] + rest)
  {
    assert ([rows] + rest)[1..] == rest;
  }

  lemma {:induction false} NoEnd<T>(fetch: Fetch<T>, page: Page<seq<T>>, token: string, pages: seq<seq<T>>)
    requires (forall t: string :: fetch(t) == Ok(page)) && page.next != ""
    ensures !Run(fetch, token, pages)
    decreases |pages|
  {
    if |pages| > 0 { NoEnd(fetch, page, page.next, pages[1..]); }
  }

  /** A whole run from the start. */
  ghost predicate WholeRun<T>(fetch: Fetch<T>, pages: seq<seq<T>>) { Run(fetch, "", pages) }

  /** A lister that returns the same for every token comes to an end just when that is a last page. */
  lemma SameForAll<T(!new)>(fetch: Fetch<T>, first: Result<Page<seq<T>>, Error>)
    requires forall t: string :: fetch(t) == first
    ensures (exists pages :: WholeRun(fetch, pages)) <==> first.Ok? && first.value.next == ""
    ensures first.Ok? && first.value.next == "" ==> WholeRun(fetch, [first.value.acc])
  {
    assert fetch("") == first;
    if first.Ok? && first.value.next == "" {
      assert WholeRun(fetch, [first.value.acc]);
    } else {
      forall pages ensures !WholeRun(fetch, pages) {
        if first.Ok? { NoEnd(fetch, first.value, "", pages); }
      }
    }
  }

  /** A run is determined by where it starts. */
  lemma {:induction false} RunIsUnique<T>(fetch: Fetch<T>, token: string, p: seq<seq<T>>, q: seq<seq<T>>)
    requires Run(fetch, token, p) && Run(fetch, token, q)
    ensures p == q
    decreases p
  {
    var next := fetch(token).value.next;
    if next != "" {
      RunIsUnique(fetch, next, p[1..], q[1..]);
      assert p == [p[0]] + p[1..] && q == [q[0]] + q[1..];
    }
  }
}
