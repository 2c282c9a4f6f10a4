/** The SDK's bag of page states: a stack that travels between calls as a page token. */
module PageBag {
  import opened Wrappers

  datatype PageState = PageState(token: string, resourceTypeId: string, resourceId: string)

  /** A serialised bag: the empty token, JSON of the states, or text that is no bag at all. */
  datatype BagToken = NoToken | Corrupt | Encoded(states: seq<PageState>, current: Option<PageState>)

  /** The stack of a bag, the current state being its top. */
  function StackOf(states: seq<PageState>, current: Option<PageState>): seq<PageState> {
    if current.Some? then states + [current.value] else states
  }

  /** The token of a stack; only the empty stack has the empty token. */
  function Encode(stack: seq<PageState>): (token: BagToken)
    ensures token == NoToken <==> stack == []
    ensures token.Encoded? ==> StackOf(token.states, token.current) == stack && token.current.Some?
  {
    if stack == [] then NoToken
    else
      var n := |stack| - 1;
      assert stack[..n] + [stack[n]] == stack;
      Encoded(stack[..n], Some(stack[n]))
  }

  class Bag {
    var states: seq<PageState>
    var current: Option<PageState>

    ghost function Stack(): seq<PageState>
      reads this
    {
      StackOf(states, current)
    }

    constructor ()
      ensures states == [] && current == None
    {
      states, current := [], None;
    }

    method Unmarshal(input: BagToken) returns (ok: bool)
      modifies this
      ensures ok == !input.Corrupt?
      ensures input.NoToken? ==> states == [] && current == None
      ensures input.Encoded? ==> states == input.states && current == input.current
      ensures !ok ==> states == old(states) && current == old(current)
    {
      match input
      case NoToken => states, current := [], None; ok := true;
      case Encoded(s, c) => states, current := s, c; ok := true;
      case Corrupt => ok := false;
    }

    method Push(state: PageState)
      modifies this
      ensures current == Some(state) && Stack() == old(Stack()) + [state]
    {
      if current.Some? {
        states := states + [current.value];
      }
      current := Some(state);
    }

    method Pop() returns (top: Option<PageState>)
      modifies this
      ensures top == old(current)
      ensures top.None? ==> states == old(states) && current == None
      ensures top.Some? ==> old(Stack()) == Stack() + [top.value] && (current == None <==> Stack() == [])
    {
      top := current;
      if current.None? {
        return;
      }
      if |states| > 0 {
        current := Some(states[|states| - 1]);
        states := states[..|states| - 1];
      } else {
        current := None;
      }
    }

    /** Drops the current state, or replaces its token by a non-empty one. */
    method Next(token: string) returns (ok: bool)
      modifies this
      ensures ok == old(current).Some?
      ensures !ok ==> states == old(states) && current == None
      ensures ok ==>
                var below := old(Stack())[..|old(Stack())| - 1];
                Stack() == (if token == "" then below else below + [old(current).value.(token := token)])
                && (current == None <==> Stack() == [])
    {
      var top := Pop();
      if top.None? {
        return false;
      }
      if token != "" {
        Push(top.value.(token := token));
      }
      return true;
    }

    method Marshal() returns (token: BagToken)
      ensures token == if current.None? then NoToken else Encode(Stack())
    {
      if current.None? {
        return NoToken;
      }
      assert Stack()[..|Stack()| - 1] == states;
      return Encoded(states, current);
    }
  }
}
