/** What is made, place by place, of an ordered collection: a list without gaps or repetition, or the first error. */
module Listings {
  import opened Wrappers

  /** Both lists, or the first error. */
  function Both<G>(a: Result<seq<G>, Error>, b: Result<seq<G>, Error>): Result<seq<G>, Error> {
    match (a, b)
    case (Err(e), _) => Err(e)
    case (_, Err(e)) => Err(e)
    case (Ok(x), Ok(y)) => Ok(x + y)
  }

  lemma BothAssociative<G>(a: Result<seq<G>, Error>, b: Result<seq<G>, Error>, c: Result<seq<G>, Error>)
    ensures Both(a, Both(b, c)) == Both(Both(a, b), c)
  {
    if a.Ok? && b.Ok? && c.Ok? { assert a.value + (b.value + c.value) == a.value + b.value + c.value; }
  }

  lemma BothNothing<G>(a: Result<seq<G>, Error>)
    ensures Both(Ok([]), a) == a && Both(a, Ok([])) == a
  {
    if a.Ok? { assert [] + a.value == a.value == a.value + []; }
  }

  // The order of numbers, and stretches of places.

  function Less(): (int, int) -> bool { (i, j) => i < j }

  function From(lo: int): int -> bool { i => lo <= i }

  function Below(hi: int): int -> bool { i => i < hi }

  function Only<K(==)>(place: K): K -> bool { k => k == place }

  /** `places` are those within which something is made, in order and each once, and `items` is what they make. */
  ghost predicate Lists<K(!new), G>(within: K -> bool, before: (K, K) -> bool, made: K -> Result<Option<G>, Error>,
                                    places: seq<K>, items: seq<G>)
  {
    |places| == |items|
    && (forall a :: 0 <= a < |places| ==> within(places[a]) && made(places[a]) == Ok(Some(items[a])))
    && (forall a, b :: 0 <= a < b < |places| ==> before(places[a], places[b]))
    && (forall k :: within(k) ==> k in places || made(k) == Ok(None))
  }

  /** A place that fails, none before it failing. */
  ghost predicate FailsFirst<K(!new), G>(within: K -> bool, before: (K, K) -> bool,
                                         made: K -> Result<Option<G>, Error>, k: K, e: Error)
  {
    within(k) && made(k) == Err(e) && forall k' :: within(k') && before(k', k) ==> made(k').Ok?
  }

  /** The items made at all places, in order; or the error of the first place that fails. */
  ghost predicate Yields<K(!new), G>(within: K -> bool, before: (K, K) -> bool, made: K -> Result<Option<G>, Error>,
                                     r: Result<seq<G>, Error>)
  {
    match r
    case Ok(items) => exists places :: Lists(within, before, made, places, items)
    case Err(e) => exists k :: FailsFirst(within, before, made, k, e)
  }

  /** So there is a list exactly when no place fails. */
  lemma YieldsExactly<K(!new), G>(within: K -> bool, before: (K, K) -> bool, made: K -> Result<Option<G>, Error>,
                                  r: Result<seq<G>, Error>)
    requires Yields(within, before, made, r)
    ensures r.Ok? <==> forall k :: within(k) ==> made(k).Ok?
  {
    if r.Ok? {
      var places :| Lists(within, before, made, places, r.value);
      forall k | within(k) ensures made(k).Ok? {
        if k in places {
          var a :| 0 <= a < |places| && places[a] == k;
        }
      }
    }
  }

  /** `all` is what is within `front` or `back`, and everything in front comes before everything at the back. */
  ghost predicate Divides<K(!new)>(all: K -> bool, before: (K, K) -> bool, front: K -> bool, back: K -> bool) {
    (forall k :: all(k) <==> front(k) || back(k))
    && (forall j, k :: front(j) && back(k) ==> before(j, k) && !before(k, j))
  }

  lemma ListsJoin<K(!new), G>(all: K -> bool, before: (K, K) -> bool, made: K -> Result<Option<G>, Error>,
                              front: K -> bool, back: K -> bool, ps: seq<K>, xs: seq<G>, qs: seq<K>, ys: seq<G>)
    requires Divides(all, before, front, back)
    requires Lists(front, before, made, ps, xs) && Lists(back, before, made, qs, ys)
    ensures Lists(all, before, made, ps + qs, xs + ys)
  {
    var places := ps + qs;
    forall k | all(k) ensures k in places || made(k) == Ok(None) {
      if front(k) {
        if k in ps { assert k in places; }
      } else {
        if k in qs { assert k in places; }
      }
    }
  }

  /** Two stretches yield, one after the other, what the whole does. */
  lemma YieldsJoin<K(!new), G>(all: K -> bool, before: (K, K) -> bool, made: K -> Result<Option<G>, Error>,
                               front: K -> bool, back: K -> bool, a: Result<seq<G>, Error>, b: Result<seq<G>, Error>)
    requires Divides(all, before, front, back)
    requires Yields(front, before, made, a) && Yields(back, before, made, b)
    ensures Yields(all, before, made, Both(a, b))
  {
    if a.Err? {
      var k :| FailsFirst(front, before, made, k, a.error);
      assert FailsFirst(all, before, made, k, a.error);
    } else if b.Err? {
      YieldsExactly(front, before, made, a);
      var k :| FailsFirst(back, before, made, k, b.error);
      assert FailsFirst(all, before, made, k, b.error);
    } else {
      var ps :| Lists(front, before, made, ps, a.value);
      var qs :| Lists(back, before, made, qs, b.value);
      ListsJoin(all, before, made, front, back, ps, a.value, qs, b.value);
    }
  }

  /** Nothing is made where there is nothing. */
  lemma YieldsNothing<K(!new), G>(within: K -> bool, before: (K, K) -> bool, made: K -> Result<Option<G>, Error>)
    requires forall k :: within(k) ==> made(k) == Ok(None)
    ensures Yields(within, before, made, Ok([]))
  {
    assert Lists(within, before, made, [], []);
  }

  /** The list of the one item that is made, if any. */
  function Single<G>(made: Result<Option<G>, Error>): Result<seq<G>, Error> {
    match made
    case Err(e) => Err(e)
    case Ok(None) => Ok([])
    case Ok(Some(g)) => Ok([g])
  }

  /** A single place yields what is made there. */
  lemma YieldsOne<K(!new), G>(within: K -> bool, before: (K, K) -> bool, made: K -> Result<Option<G>, Error>, place: K)
    requires (forall k :: within(k) <==> k == place) && !before(place, place)
    ensures Yields(within, before, made, Single(made(place)))
  {
    match made(place)
    case Err(e) => assert FailsFirst(within, before, made, place, e);
    case Ok(None) => YieldsNothing(within, before, made);
    case Ok(Some(g)) =>
      var places := [place];
      assert places[0] == place;
      assert Lists(within, before, made, places, [g]);
  }

  /** One number more yields what is made there as well. */
  lemma YieldsNext<G>(made: int -> Result<Option<G>, Error>, n: int, items: seq<G>, more: seq<G>)
    requires Yields(Below(n), Less(), made, Ok(items)) && Single(made(n)) == Ok(more)
    ensures Yields(Below(n + 1), Less(), made, Ok(items + more))
  {
    YieldsOne(Only(n), Less(), made, n);
    YieldsJoin(Below(n + 1), Less(), made, Below(n), Only(n), Ok(items), Ok(more));
  }

  // ---- Choosing -----------------------------------------------------------

  ghost predicate Possible<X(!new)>(p: (int, X) -> bool, i: int) { exists x :: p(i, x) }

  /** What is possible at every place can be chosen for all of them. */
  lemma {:induction false} Choices<X(!new)>(p: (int, X) -> bool, n: nat) returns (xs: seq<X>)
    requires forall i: nat :: i < n ==> Possible(p, i)
    ensures |xs| == n && forall i :: 0 <= i < n ==> p(i, xs[i])
  {
    xs := [];
    if n > 0 {
      var before := Choices(p, n - 1);
      assert Possible(p, n - 1);
      var x :| p(n - 1, x);
      xs := before + [x];
    }
  }
}
