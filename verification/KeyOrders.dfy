/** The two orders of keys a cursor query meets: text keys and integer keys. */
module KeyOrders {
  import opened Wrappers
  import opened Decimal
  import opened CursorRuns

  /** Lexicographic order; the empty cursor comes before every other text. */
  predicate TextBelow(a: string, b: string) {
    b != "" && (a == "" || a[0] < b[0] || (a[0] == b[0] && TextBelow(a[1..], b[1..])))
  }

  lemma {:induction false} TextTransitive(a: string, b: string, c: string)
    requires TextBelow(a, b) && TextBelow(b, c)
    ensures TextBelow(a, c)
  {
    if a != "" && a[0] == b[0] && b[0] == c[0] { TextTransitive(a[1..], b[1..], c[1..]); }
  }

  lemma {:induction false} TextIrreflexive(a: string)
    ensures !TextBelow(a, a)
  {
    if a != "" { TextIrreflexive(a[1..]); }
  }

  lemma TextOrder()
    ensures IsOrder(TextBelow)
    ensures forall k: string :: TextBelow("", k) <==> k != ""
  {
    forall a, b, c | TextBelow(a, b) && TextBelow(b, c) ensures TextBelow(a, c) { TextTransitive(a, b, c); }
    forall a ensures !TextBelow(a, a) { TextIrreflexive(a); }
  }

  /** The first characters that differ decide, and a text comes before those it is the beginning of. */
  lemma {:induction false} TextCompared(same: string, c: char, a: string, d: char, b: string)
    requires c != d
    ensures TextBelow(same + [c] + a, same + [d] + b) <==> c < d
    ensures TextBelow(same, same + [c] + a) && !TextBelow(same + [c] + a, same)
  {
    var s, t := same + [c] + a, same + [d] + b;
    if same != "" {
      assert s[1..] == same[1..] + [c] + a && t[1..] == same[1..] + [d] + b;
      TextCompared(same[1..], c, a, d, b);
    }
  }

  /** The number a cursor prints, of any integer type. */
  function Printed(s: string): Option<int> {
    if s == "" then None
    else if s[0] == '-' then if AllDigits(s[1..]) then Some(0 - Number(s[1..])) else None
    else if AllDigits(s) then Some(Number(s)) else None
  }

  /** Numeric order of printed integers; the empty cursor comes before all of them. */
  predicate NumberBelow(a: string, b: string) {
    Printed(b).Some? && (a == "" || (Printed(a).Some? && Printed(a).value < Printed(b).value))
  }

  lemma NumberOrder()
    ensures IsOrder(NumberBelow)
  {
    assert Printed("") == None;
    forall a, b, c | NumberBelow(a, b) && NumberBelow(b, c) ensures NumberBelow(a, c) {}
    forall a ensures !NumberBelow(a, a) {}
  }

  /** Printing keeps the order of integer keys, and no key prints as the empty cursor, so no run ends early. */
  lemma PrintedOrder(m: int, n: int)
    ensures NumberBelow(Itoa(m), Itoa(n)) <==> m < n
    ensures NumberBelow("", Itoa(n))
  {
    ItoaShape(m);
    ItoaShape(n);
  }
}
