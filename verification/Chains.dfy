/** Chains of pages, each naming the next, and stacks of chains that are read one after the other. */
module Chains {

  /** What becomes of a chain at one of its tokens. */
  datatype Turn<T> = Failed | Finished | Going(next: T)

  type Step<!T> = T -> Turn<T>

  /** The chain comes to an end, good or bad, after at most n steps. */
  predicate Ends<T>(step: Step<T>, token: T, n: nat)
    decreases n
  {
    n > 0 && match step(token) case Going(next) => Ends(step, next, n - 1) case _ => true
  }

  predicate Finishes<T>(step: Step<T>, token: T, n: nat)
    decreases n
  {
    n > 0 &&
    match step(token)
    case Failed => false
    case Finished => true
    case Going(next) => Finishes(step, next, n - 1)
  }

  predicate Fails<T>(step: Step<T>, token: T, n: nat)
    decreases n
  {
    n > 0 &&
    match step(token)
    case Failed => true
    case Finished => false
    case Going(next) => Fails(step, next, n - 1)
  }

  ghost predicate CanEnd<T>(step: Step<T>, token: T) { exists n: nat :: Ends(step, token, n) }

  ghost predicate CanFinish<T>(step: Step<T>, token: T) { exists n: nat :: Finishes(step, token, n) }

  ghost predicate CanFail<T>(step: Step<T>, token: T) { exists n: nat :: Fails(step, token, n) }

  lemma {:induction false} NotBoth<T>(step: Step<T>, token: T, m: nat, n: nat)
    requires Finishes(step, token, m)
    ensures !Fails(step, token, n)
    decreases m
  {
    var turn := step(token);
    if n > 0 && turn.Going? { NotBoth(step, turn.next, m - 1, n - 1); }
  }

  /** n steps lead from one token to another. */
  predicate Leads<T(==)>(step: Step<T>, token: T, token': T, n: nat)
    decreases n
  {
    if n == 0 then token == token'
    else
      var turn := step(token);
      turn.Going? && Leads(step, turn.next, token', n - 1)
  }

  lemma {:induction false} LeadsToEnd<T>(step: Step<T>, token: T, token': T, n: nat, m: nat)
    requires Leads(step, token, token', n) && Ends(step, token', m)
    ensures Ends(step, token, n + m)
    decreases n
  {
    if n > 0 { LeadsToEnd(step, step(token).next, token', n - 1, m); }
  }

  // ---- Stacks of chains ---------------------------------------------------

  /** The chains that are stacked; each starts with the empty token. */
  type Stack = seq<Step<string>>

  /** The reader of a stack stands at a token of the k-th chain. */
  type Place<!T> = (T, nat, string) -> bool

  /** One step of the reader is one of the chain; after the end of the chain it stands at the start of the one below. */
  predicate Follows<T>(turn: Turn<T>, of: Turn<string>, k: nat, stands: Place<T>) {
    match of
    case Failed => turn.Failed?
    case Finished => if k == 1 then turn.Finished? else turn.Going? && k > 0 && stands(turn.next, k - 1, "")
    case Going(next) => turn.Going? && stands(turn.next, k, next)
  }

  ghost predicate Reads<T(!new)>(step: Step<T>, stack: Stack, stands: Place<T>) {
    forall token, k: nat, cursor :: stands(token, k, cursor) ==>
      0 < k <= |stack| && Follows(step(token), stack[k - 1](cursor), k, stands)
  }

  lemma OneStep<T(!new)>(step: Step<T>, stack: Stack, stands: Place<T>, token: T, k: nat, cursor: string)
    requires Reads(step, stack, stands) && stands(token, k, cursor)
    ensures 0 < k <= |stack| && Follows(step(token), stack[k - 1](cursor), k, stands)
  {
  }

  /** All chains between the i-th and the k-th finish. */
  ghost predicate FinishAbove(stack: Stack, i: nat, k: nat)
    requires k <= |stack|
  {
    forall j :: i < j < k ==> CanFinish(stack[j], "")
  }

  ghost predicate IsEndless(chain: Step<string>) { !CanFinish(chain, "") && !CanFail(chain, "") }

  /** Of the first k chains none is endless, if it is reached: the k-th comes first. */
  ghost predicate NoneEndless(stack: Stack, k: nat)
    requires k <= |stack|
  {
    forall i: nat :: i < k && FinishAbove(stack, i, k) ==> !IsEndless(stack[i])
  }

  lemma BelowFinished(stack: Stack, i: nat, k: nat)
    requires 0 < k <= |stack| && i < k - 1 && CanFinish(stack[k - 1], "")
    ensures FinishAbove(stack, i, k) <==> FinishAbove(stack, i, k - 1)
  {
  }

  /** What decides about the first k chains is the k-th of them, and if it finishes those below it. */
  lemma TopDecides(stack: Stack, k: nat)
    requires 0 < k <= |stack|
    ensures NoneEndless(stack, k) <==>
            !IsEndless(stack[k - 1]) && (k > 1 && CanFinish(stack[k - 1], "") ==> NoneEndless(stack, k - 1))
  {
    assert FinishAbove(stack, k - 1, k);
    if CanFinish(stack[k - 1], "") {
      forall i: nat | i < k - 1 ensures FinishAbove(stack, i, k) <==> FinishAbove(stack, i, k - 1) {
        BelowFinished(stack, i, k);
      }
    } else {
      forall i: nat | i < k - 1 ensures !FinishAbove(stack, i, k) {
        assert !CanFinish(stack[k - 1], "");
      }
    }
  }

  /** A reached chain that never finishes decides about all of them. */
  lemma ReachedDecides(stack: Stack, i: nat)
    requires i < |stack| && FinishAbove(stack, i, |stack|) && !CanFinish(stack[i], "")
    ensures NoneEndless(stack, |stack|) <==> CanFail(stack[i], "")
  {
    forall j: nat | j < i ensures !FinishAbove(stack, j, |stack|) { assert !CanFinish(stack[i], ""); }
  }

  /** A chain that fails ends the reading, */
  lemma {:induction false} EndsWithFailure<T(!new)>(step: Step<T>, stack: Stack, stands: Place<T>, token: T, k: nat,
                                                    cursor: string, n: nat)
    requires Reads(step, stack, stands) && stands(token, k, cursor)
    requires 0 < k <= |stack| && Fails(stack[k - 1], cursor, n)
    ensures Ends(step, token, n)
    decreases n
  {
    OneStep(step, stack, stands, token, k, cursor);
    var turn := stack[k - 1](cursor);
    if turn.Going? { EndsWithFailure(step, stack, stands, step(token).next, k, turn.next, n - 1); }
  }

  /** so does the lowest chain when it finishes, */
  lemma {:induction false} EndsWithLast<T(!new)>(step: Step<T>, stack: Stack, stands: Place<T>, token: T,
                                                 cursor: string, n: nat)
    requires Reads(step, stack, stands) && stands(token, 1, cursor)
    requires |stack| >= 1 && Finishes(stack[0], cursor, n)
    ensures Ends(step, token, n)
    decreases n
  {
    OneStep(step, stack, stands, token, 1, cursor);
    var turn := stack[0](cursor);
    if turn.Going? { EndsWithLast(step, stack, stands, step(token).next, turn.next, n - 1); }
  }

  /** and any other one then leads to the start of the one below. */
  lemma {:induction false} LeadsBelow<T(!new)>(step: Step<T>, stack: Stack, stands: Place<T>, token: T, k: nat,
                                               cursor: string, n: nat)
    returns (token': T, n': nat)
    requires Reads(step, stack, stands) && stands(token, k, cursor)
    requires 1 < k <= |stack| && Finishes(stack[k - 1], cursor, n)
    ensures Leads(step, token, token', n') && stands(token', k - 1, "")
    decreases n
  {
    OneStep(step, stack, stands, token, k, cursor);
    var turn, next := stack[k - 1](cursor), step(token).next;
    if turn.Going? {
      token', n' := LeadsBelow(step, stack, stands, next, k, turn.next, n - 1);
      n' := n' + 1;
    } else {
      token', n' := next, 1;
      assert Leads(step, token', token', 0);
    }
  }

  lemma TopEnds(stack: Stack, k: nat) returns (fails: bool, n: nat)
    requires 0 < k <= |stack| && NoneEndless(stack, k)
    ensures fails ==> Fails(stack[k - 1], "", n)
    ensures !fails ==> Finishes(stack[k - 1], "", n) && (k > 1 ==> NoneEndless(stack, k - 1))
  {
    TopDecides(stack, k);
    fails := CanFail(stack[k - 1], "");
    if fails {
      n :| Fails(stack[k - 1], "", n);
    } else {
      n :| Finishes(stack[k - 1], "", n);
    }
  }

  lemma {:induction false} EndsIf<T(!new)>(step: Step<T>, stack: Stack, stands: Place<T>, token: T, k: nat)
    returns (n: nat)
    requires Reads(step, stack, stands) && stands(token, k, "") && 0 < k <= |stack| && NoneEndless(stack, k)
    ensures Ends(step, token, n)
    decreases k
  {
    var fails;
    fails, n := TopEnds(stack, k);
    if fails {
      EndsWithFailure(step, stack, stands, token, k, "", n);
    } else if k == 1 {
      EndsWithLast(step, stack, stands, token, "", n);
    } else {
      var token', n' := LeadsBelow(step, stack, stands, token, k, "", n);
      var m := EndsIf(step, stack, stands, token', k - 1);
      LeadsToEnd(step, token, token', n', m);
      n := n' + m;
    }
  }

  /** Reading that ends comes past the chain it stands at, unless that fails. */
  lemma {:induction false} EndsBelow<T(!new)>(step: Step<T>, stack: Stack, stands: Place<T>, token: T, k: nat,
                                              cursor: string, n: nat)
    returns (token': T, n': nat)
    requires Reads(step, stack, stands) && stands(token, k, cursor) && 0 < k <= |stack| && Ends(step, token, n)
    ensures Fails(stack[k - 1], cursor, n)
            || (Finishes(stack[k - 1], cursor, n) && (k > 1 ==> stands(token', k - 1, "") && Ends(step, token', n')))
    decreases n
  {
    token', n' := token, n - 1;
    OneStep(step, stack, stands, token, k, cursor);
    var turn := step(token);
    match stack[k - 1](cursor)
    case Failed =>
    case Finished => if k > 1 { token' := turn.next; }
    case Going(next) => token', n' := EndsBelow(step, stack, stands, turn.next, k, next, n - 1);
  }

  lemma {:induction false} EndsOnlyIf<T(!new)>(step: Step<T>, stack: Stack, stands: Place<T>, token: T, k: nat, n: nat)
    requires Reads(step, stack, stands) && stands(token, k, "") && 0 < k <= |stack| && Ends(step, token, n)
    ensures NoneEndless(stack, k)
    decreases k
  {
    var token', n' := EndsBelow(step, stack, stands, token, k, "", n);
    TopDecides(stack, k);
    if CanFinish(stack[k - 1], "") && k > 1 {
      var m: nat :| Finishes(stack[k - 1], "", m);
      NotBoth(stack[k - 1], "", m, n);
      EndsOnlyIf(step, stack, stands, token', k - 1, n');
    }
  }

  /** Reading a stack of chains comes to an end if and only if none of the chains it reaches is endless. */
  lemma EndsExactly<T(!new)>(step: Step<T>, stack: Stack, stands: Place<T>, token: T, k: nat)
    requires Reads(step, stack, stands) && stands(token, k, "") && 0 < k <= |stack|
    ensures CanEnd(step, token) <==> NoneEndless(stack, k)
  {
    if CanEnd(step, token) {
      var n: nat :| Ends(step, token, n);
      EndsOnlyIf(step, stack, stands, token, k, n);
    }
    if NoneEndless(stack, k) {
      var n := EndsIf(step, stack, stands, token, k);
    }
  }
}
