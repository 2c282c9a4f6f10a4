/** How a database reads a rewritten statement back, and when that is the statement that was meant. */
module TemplateReading {
  import opened Wrappers
  import opened Decimal
  import opened Template
  import opened SqlValues

  /** What stands at the front of a statement text. `Numbered` carries its number and its length. */
  datatype Front = Plain | Positional | Numbered(number: nat, length: nat)

  /** Whether the engine numbers its placeholders; the others use `?`. */
  predicate IsNumbered(engine: Engine) { engine.PostgreSQL? || engine.MSSQL? || engine.Oracle? }

  /** What a numbered placeholder starts with. */
  function Sigil(engine: Engine): string {
    match engine
    case PostgreSQL => "$"
    case MSSQL => "@p"
    case Oracle => ":"
    case _ => ""
  }

  /** The length of the sigil at the front of `s`; 0 if there is none. */
  function SigilAt(engine: Engine, s: string): (n: nat)
    ensures n <= |s|
  {
    if s == "" then 0 else
    match engine
    case PostgreSQL => if s[0] == '$' then 1 else 0
    case MSSQL => if s[0] == '@' && |s| > 1 && s[1] == 'p' then 2 else 0
    case Oracle => if s[0] == ':' then 1 else 0
    case _ => 0
  }

  function DigitRun(s: string): (k: nat)
    ensures k <= |s| && AllDigits(s[..k]) && (k < |s| ==> !IsDigit(s[k]))
  {
    if s != "" && IsDigit(s[0]) then
      var k := 1 + DigitRun(s[1..]);
      assert s[..k] == [s[0]] + s[1..][..k - 1];
      k
    else 0
  }

  function FrontOf(engine: Engine, s: string): (f: Front)
    requires s != ""
    ensures f.Numbered? ==> 0 < f.length <= |s| && (f.length < |s| ==> !IsDigit(s[f.length]))
  {
    if !IsNumbered(engine) then if s[0] == '?' then Positional else Plain
    else
      var n := SigilAt(engine, s);
      var k := DigitRun(s[n..]);
      if n == 0 || k == 0 then Plain else Numbered(Number(s[n..][..k]), n + k)
  }

  /** The statement denoted by text `s` and arguments `args` when `k` positional ones are already used. */
  function Read(engine: Engine, s: string, args: seq<Value>, k: nat): Option<seq<Item>>
    decreases |s|
  {
    if s == "" then Some([]) else
    match FrontOf(engine, s)
    case Plain => Prefix(Ch(s[0]), Read(engine, s[1..], args, k))
    case Positional =>
      if k < |args| then Prefix(Val(args[k]), Read(engine, s[1..], args, k + 1)) else None
    case Numbered(n, length) =>
      if 1 <= n <= |args| then Prefix(Val(args[n - 1]), Read(engine, s[length..], args, k)) else None
  }

  function Prefix(item: Item, rest: Option<seq<Item>>): Option<seq<Item>> {
    if rest.Some? then Some([item] + rest.value) else None
  }

  predicate DigitAt(items: seq<Item>, i: nat) { i < |items| && items[i].Ch? && IsDigit(items[i].c) }

  /**
   * The item at the front cannot be mistaken: with `?` it is not a literal question mark; with numbers it is
   * not a literal sigil followed by a digit, nor a value followed by a digit.
   */
  predicate Clear(engine: Engine, items: seq<Item>)
    requires items != []
  {
    if !IsNumbered(engine) then items[0] != Ch('?')
    else if items[0].Val? then !DigitAt(items, 1)
    else
      match engine
      case MSSQL => !(items[0].c == '@' && |items| > 1 && items[1] == Ch('p') && DigitAt(items, 2))
      case PostgreSQL => !(items[0].c == '$' && DigitAt(items, 1))
      case _ => !(items[0].c == ':' && DigitAt(items, 1))
  }

  predicate AllClear(engine: Engine, items: seq<Item>) {
    forall i :: 0 <= i < |items| ==> Clear(engine, items[i..])
  }

  lemma RenderFront(engine: Engine, items: seq<Item>, n: nat)
    ensures items == [] ==> Render(engine, items, n) == ""
    ensures items != [] ==>
              var r := Render(engine, items, n);
              r != "" && r[0] == (if items[0].Ch? then items[0].c else Placeholder(engine, 0)[0])
  {
  }

  lemma {:induction false} DigitRunIs(d: string, rest: string)
    requires AllDigits(d) && (rest == "" || !IsDigit(rest[0]))
    ensures DigitRun(d + rest) == |d|
  {
    if d == "" {
      assert d + rest == rest;
    } else {
      assert (d + rest)[1..] == d[1..] + rest;
      DigitRunIs(d[1..], rest);
    }
  }

  /** The text starts with a digit just when its first item is one. */
  lemma DigitFront(engine: Engine, items: seq<Item>, n: nat)
    ensures DigitAt(items, 0) <==> DigitRun(Render(engine, items, n)) > 0
  {
    RenderFront(engine, items, n);
  }

  lemma RenderChar(engine: Engine, items: seq<Item>, n: nat)
    requires items != [] && items[0].Ch?
    ensures var r := Render(engine, items, n);
            r != "" && r[0] == items[0].c && r[1..] == Render(engine, items[1..], n)
  {
    var rest := Render(engine, items[1..], n);
    assert ([items[0].c] + rest)[1..] == rest;
  }

  /** With the longest sigil, of two characters, a literal is read as itself exactly when it is clear. */
  lemma LongSigilFront(items: seq<Item>, n: nat)
    requires items != [] && items[0].Ch?
    ensures FrontOf(MSSQL, Render(MSSQL, items, n)).Plain? <==> Clear(MSSQL, items)
  {
    var r, rest := Render(MSSQL, items, n), Render(MSSQL, items[1..], n);
    RenderChar(MSSQL, items, n);
    RenderFront(MSSQL, items[1..], n);
    if |items| > 1 && items[1].Ch? {
      RenderChar(MSSQL, items[1..], n);
      assert items[1..][1..] == items[2..] && r[2..] == rest[1..];
      DigitFront(MSSQL, items[2..], n);
    }
  }

  /** A literal is read as itself exactly when it is clear. */
  lemma LiteralFront(engine: Engine, items: seq<Item>, n: nat)
    requires items != [] && items[0].Ch?
    ensures FrontOf(engine, Render(engine, items, n)).Plain? <==> Clear(engine, items)
  {
    if engine.MSSQL? {
      LongSigilFront(items, n);
    } else {
      RenderChar(engine, items, n);
      DigitFront(engine, items[1..], n);
    }
  }

  /** Where a sigil and digits stand, a numbered placeholder is read; its number ends where the digits end. */
  lemma NumberFront(engine: Engine, d: string, rest: string)
    requires IsNumbered(engine) && d != "" && AllDigits(d)
    ensures FrontOf(engine, Sigil(engine) + (d + rest)).Numbered?
    ensures rest == "" || !IsDigit(rest[0]) ==>
              FrontOf(engine, Sigil(engine) + (d + rest)) == Numbered(Number(d), |Sigil(engine) + d|)
  {
    var sigil := Sigil(engine);
    var s := sigil + (d + rest);
    assert SigilAt(engine, s) == |sigil| && s[|sigil|..] == d + rest;
    if rest == "" || !IsDigit(rest[0]) {
      DigitRunIs(d, rest);
      assert (d + rest)[..|d|] == d;
    }
  }

  lemma RenderValue(engine: Engine, items: seq<Item>, n: nat)
    requires items != [] && items[0].Val?
    ensures Render(engine, items, n) == Placeholder(engine, n + 1) + Render(engine, items[1..], n + 1)
    ensures IsNumbered(engine) ==> Placeholder(engine, n + 1) == Sigil(engine) + Digits(n + 1)
    ensures !IsNumbered(engine) ==> Placeholder(engine, n + 1) == "?"
  {
  }

  lemma ClearValue(engine: Engine, items: seq<Item>)
    requires items != [] && items[0].Val?
    ensures Clear(engine, items) <==> !IsNumbered(engine) || !DigitAt(items, 1)
  {
  }

  lemma RenderNumbered(engine: Engine, items: seq<Item>, n: nat)
    requires items != [] && items[0].Val? && IsNumbered(engine)
    ensures Render(engine, items, n) == Sigil(engine) + (Digits(n + 1) + Render(engine, items[1..], n + 1))
    ensures |Placeholder(engine, n + 1)| == |Sigil(engine) + Digits(n + 1)|
  {
    RenderValue(engine, items, n);
    Associative(Sigil(engine), Digits(n + 1), Render(engine, items[1..], n + 1));
  }

  /** A digit follows the first item in the text just when the second item is one. */
  lemma DigitFollows(engine: Engine, items: seq<Item>, n: nat)
    requires items != []
    ensures var rest := Render(engine, items[1..], n); DigitAt(items, 1) <==> rest != "" && IsDigit(rest[0])
  {
    RenderFront(engine, items[1..], n);
  }

  /** A numbered placeholder is read with its own number when no digit follows it. */
  lemma ValueFront(engine: Engine, items: seq<Item>, n: nat)
    requires items != [] && items[0].Val? && IsNumbered(engine)
    ensures FrontOf(engine, Render(engine, items, n)).Numbered?
    ensures !DigitAt(items, 1) ==>
              FrontOf(engine, Render(engine, items, n)) == Numbered(n + 1, |Placeholder(engine, n + 1)|)
  {
    var d, rest := Digits(n + 1), Render(engine, items[1..], n + 1);
    NumberDigits(n + 1);
    RenderNumbered(engine, items, n);
    DigitFollows(engine, items, n + 1);
    NumberFront(engine, d, rest);
  }

  /** What is read starts with the first character of the text, if it starts with a character at all. */
  lemma ReadFront(engine: Engine, s: string, args: seq<Value>, k: nat, items: seq<Item>)
    requires Read(engine, s, args, k) == Some(items) && items != [] && items[0].Ch?
    ensures s != "" && items[0].c == s[0]
  {
  }

  lemma PrefixIs(item: Item, rest: Option<seq<Item>>, items: seq<Item>)
    requires items != []
    ensures Prefix(item, rest) == Some(items) <==> item == items[0] && rest == Some(items[1..])
  {
    assert [items[0]] + items[1..] == items;
    if rest.Some? {
      assert ([item] + rest.value)[1..] == rest.value;
    }
  }

  /** Reading starts with the item that the front of the text denotes: a character, */
  lemma ReadPlain(engine: Engine, s: string, args: seq<Value>, k: nat, items: seq<Item>)
    requires s != "" && items != [] && FrontOf(engine, s).Plain?
    ensures Read(engine, s, args, k) == Some(items) <==>
            items[0] == Ch(s[0]) && Read(engine, s[1..], args, k) == Some(items[1..])
  {
    PrefixIs(Ch(s[0]), Read(engine, s[1..], args, k), items);
  }

  /** the next argument, */
  lemma ReadNext(engine: Engine, s: string, args: seq<Value>, k: nat, items: seq<Item>)
    requires s != "" && items != [] && FrontOf(engine, s).Positional?
    ensures Read(engine, s, args, k) == Some(items) <==>
            k < |args| && items[0] == Val(args[k]) && Read(engine, s[1..], args, k + 1) == Some(items[1..])
  {
    if k < |args| { PrefixIs(Val(args[k]), Read(engine, s[1..], args, k + 1), items); }
  }

  lemma NumberRead(engine: Engine, s: string, args: seq<Value>, k: nat)
    requires s != "" && FrontOf(engine, s).Numbered?
    ensures var Numbered(n, length) := FrontOf(engine, s);
            Read(engine, s, args, k) ==
            if 1 <= n <= |args| then Prefix(Val(args[n - 1]), Read(engine, s[length..], args, k)) else None
  {
  }

  /** or the argument of its number. */
  lemma ReadNumber(engine: Engine, s: string, args: seq<Value>, k: nat, items: seq<Item>)
    requires s != "" && items != [] && FrontOf(engine, s).Numbered?
    ensures var Numbered(n, length) := FrontOf(engine, s);
            Read(engine, s, args, k) == Some(items) <==>
            1 <= n <= |args| && items[0] == Val(args[n - 1]) && Read(engine, s[length..], args, k) == Some(items[1..])
  {
    var Numbered(n, length) := FrontOf(engine, s);
    NumberRead(engine, s, args, k);
    if 1 <= n <= |args| { PrefixIs(Val(args[n - 1]), Read(engine, s[length..], args, k), items); }
  }

  /** Where a placeholder stands no character is read. */
  lemma NotRead(engine: Engine, s: string, args: seq<Value>, k: nat, items: seq<Item>)
    requires s != "" && items != [] && items[0].Ch? && !FrontOf(engine, s).Plain?
    ensures Read(engine, s, args, k) != Some(items)
  {
    if FrontOf(engine, s).Positional? {
      ReadNext(engine, s, args, k, items);
    } else {
      ReadNumber(engine, s, args, k, items);
    }
  }

  lemma ClearCons(engine: Engine, items: seq<Item>)
    requires items != []
    ensures AllClear(engine, items) <==> Clear(engine, items) && AllClear(engine, items[1..])
  {
    assert items[0..] == items;
    forall i | 0 <= i < |items| - 1 ensures items[1..][i..] == items[i + 1..] {}
    if Clear(engine, items) && AllClear(engine, items[1..]) {
      forall i | 0 <= i < |items| ensures Clear(engine, items[i..]) {
        if i > 0 { assert items[1..][i - 1..] == items[i..]; }
      }
    }
  }

  lemma ReadPositional(engine: Engine, items: seq<Item>, args: seq<Value>, k: nat)
    requires items != [] && items[0].Val? && k < |args| && args[k] == items[0].v && !IsNumbered(engine)
    ensures Read(engine, Render(engine, items, k), args, k) == Some(items) <==>
            Read(engine, Render(engine, items[1..], k + 1), args, k + 1) == Some(items[1..])
  {
    var r, rest := Render(engine, items, k), Render(engine, items[1..], k + 1);
    RenderValue(engine, items, k);
    assert r[0] == '?' && r[1..] == rest;
    ReadNext(engine, r, args, k, items);
  }

  lemma ReadClearNumber(engine: Engine, items: seq<Item>, args: seq<Value>, k: nat)
    requires items != [] && items[0].Val? && k < |args| && args[k] == items[0].v && IsNumbered(engine)
    requires !DigitAt(items, 1)
    ensures Read(engine, Render(engine, items, k), args, k) == Some(items) <==>
            Read(engine, Render(engine, items[1..], k + 1), args, k + 1) == Some(items[1..])
  {
    var r, rest, ph := Render(engine, items, k), Render(engine, items[1..], k + 1), Placeholder(engine, k + 1);
    RenderValue(engine, items, k);
    ValueFront(engine, items, k);
    assert r == ph + rest && r[|ph|..] == rest;
    ReadNumber(engine, r, args, k, items);
    ReadNumbered(engine, rest, args, k, k + 1);
  }

  lemma ReadBlurredNumber(engine: Engine, items: seq<Item>, args: seq<Value>, k: nat)
    requires items != [] && items[0].Val? && IsNumbered(engine) && DigitAt(items, 1)
    ensures Read(engine, Render(engine, items, k), args, k) != Some(items)
  {
    var r := Render(engine, items, k);
    RenderFront(engine, items, k);
    ValueFront(engine, items, k);
    ReadNumber(engine, r, args, k, items);
    var tail := r[FrontOf(engine, r).length..];
    if Read(engine, tail, args, k) == Some(items[1..]) {
      ReadFront(engine, tail, args, k, items[1..]);
    }
  }

  lemma ReadValue(engine: Engine, items: seq<Item>, args: seq<Value>, k: nat)
    requires items != [] && items[0].Val? && k < |args| && args[k] == items[0].v
    ensures Read(engine, Render(engine, items, k), args, k) == Some(items) <==>
            Clear(engine, items) && Read(engine, Render(engine, items[1..], k + 1), args, k + 1) == Some(items[1..])
  {
    ClearValue(engine, items);
    if !IsNumbered(engine) {
      ReadPositional(engine, items, args, k);
    } else if DigitAt(items, 1) {
      ReadBlurredNumber(engine, items, args, k);
    } else {
      ReadClearNumber(engine, items, args, k);
    }
  }

  /** Numbered placeholders say themselves which argument they take. */
  lemma {:induction false} ReadNumbered(engine: Engine, s: string, args: seq<Value>, j: nat, k: nat)
    requires IsNumbered(engine)
    ensures Read(engine, s, args, j) == Read(engine, s, args, k)
    decreases |s|
  {
    if s != "" {
      match FrontOf(engine, s)
      case Plain => ReadNumbered(engine, s[1..], args, j, k);
      case Positional =>
      case Numbered(n, length) => ReadNumbered(engine, s[length..], args, j, k);
    }
  }

  lemma ReadChar(engine: Engine, items: seq<Item>, args: seq<Value>, k: nat)
    requires items != [] && items[0].Ch?
    ensures Read(engine, Render(engine, items, k), args, k) == Some(items) <==>
            Clear(engine, items) && Read(engine, Render(engine, items[1..], k), args, k) == Some(items[1..])
  {
    var r := Render(engine, items, k);
    RenderFront(engine, items, k);
    LiteralFront(engine, items, k);
    assert r[1..] == Render(engine, items[1..], k);
    if FrontOf(engine, r).Plain? {
      ReadPlain(engine, r, args, k, items);
    } else {
      NotRead(engine, r, args, k, items);
    }
  }

  lemma ArgsAfter(items: seq<Item>, args: seq<Value>, k: nat)
    requires items != [] && k <= |args| && args[k..] == Values(items)
    ensures var n := |ItemValues(items[0])|; k + n <= |args| && args[k + n..] == Values(items[1..])
    ensures items[0].Val? ==> k < |args| && args[k] == items[0].v
  {
    var n := |ItemValues(items[0])|;
    assert args[k..][n..] == args[k + n..];
    assert items[0].Val? ==> args[k..][0] == items[0].v;
  }

  /**
   * The statement text and arguments of any instantiated statement read back as that statement if and only if
   * no item in it can be mistaken. `args[k..]` are the arguments of `items`.
   */
  lemma {:induction false} ReadRender(engine: Engine, items: seq<Item>, args: seq<Value>, k: nat)
    requires k <= |args| && args[k..] == Values(items)
    ensures Read(engine, Render(engine, items, k), args, k) == Some(items) <==> AllClear(engine, items)
    decreases |items|
  {
    if items != [] {
      ArgsAfter(items, args, k);
      ReadRender(engine, items[1..], args, k + |ItemValues(items[0])|);
      ClearCons(engine, items);
      if items[0].Ch? { ReadChar(engine, items, args, k); } else { ReadValue(engine, items, args, k); }
    }
  }

  /**
   * Rewriting preserves meaning: the database reads the rewritten text and arguments as the statement obtained
   * by substituting each token's value directly, exactly when no literal or value in it can be mistaken.
   */
  lemma RewritePreservesMeaning(engine: Engine, query: string, vars: map<string, Value>)
    requires AllKnown(Lex(query), vars)
    ensures Rewrite(engine, query, vars).Ok?
    ensures var Statement(text, args) := Rewrite(engine, query, vars).value;
            var meant := Meaning(Lex(query), vars);
            Read(engine, text, args, 0) == Some(meant) <==> AllClear(engine, meant)
  {
    var meant := Meaning(Lex(query), vars);
    assert Values(meant)[0..] == Values(meant);
    ReadRender(engine, meant, Values(meant), 0);
  }

  /** One template means the same statement to any two engines for which it is clear. */
  lemma EnginesAgree(e1: Engine, e2: Engine, query: string, vars: map<string, Value>)
    requires AllKnown(Lex(query), vars)
    requires AllClear(e1, Meaning(Lex(query), vars)) && AllClear(e2, Meaning(Lex(query), vars))
    ensures var s1, s2 := Rewrite(e1, query, vars).value, Rewrite(e2, query, vars).value;
            Read(e1, s1.text, s1.args, 0) == Read(e2, s2.text, s2.args, 0) && s1.args == s2.args
  {
    RewritePreservesMeaning(e1, query, vars);
    RewritePreservesMeaning(e2, query, vars);
  }

  /** A digit right after a quoted token is swallowed by every numbered placeholder, and by no `?`. */
  lemma DigitAfterToken(engine: Engine, key: string, d: char, vars: map<string, Value>)
    requires IsToken(key, "") && Lower(key) in vars && IsDigit(d)
    ensures var query := TokenText(key, "") + [d];
            AllKnown(Lex(query), vars)
            && var Statement(text, args) := Rewrite(engine, query, vars).value;
               Read(engine, text, args, 0) == Some(Meaning(Lex(query), vars)) <==> !IsNumbered(engine)
  {
    var query, tok := TokenText(key, "") + [d], Tok(key, "");
    TokenMatches(key, "", [d]);
    assert query[|PieceText(tok)|..] == [d] && Lex([d]) == [Lit(d)];
    assert Lex(query) == [tok, Lit(d)];
    var items := [Val(vars[Lower(key)]), Ch(d)];
    TwoPieces(tok, d, vars);
    RewritePreservesMeaning(engine, query, vars);
    ClearCons(engine, items);
    ClearCons(engine, items[1..]);
    ClearValue(engine, items);
  }

  lemma TwoPieces(tok: Piece, d: char, vars: map<string, Value>)
    requires tok.Tok? && tok.opt == "" && Lower(tok.key) in vars
    ensures AllKnown([tok, Lit(d)], vars) && Meaning([tok, Lit(d)], vars) == [Val(vars[Lower(tok.key)]), Ch(d)]
  {
    var pieces := [tok, Lit(d)];
    assert pieces[1..] == [Lit(d)] && [Lit(d)][1..] == [];
    assert Meaning([Lit(d)], vars) == [Ch(d)] + [];
  }
}
