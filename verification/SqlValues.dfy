/** The Go values that pass through a query. */
module SqlValues {
  import opened Decimal

  /** What a Go `any` can be here: a scanned column, a page position or a provisioning variable. */
  datatype Value =
    | Null
    | Text(text: string)
    | Bytes(bytes: string)
    | Int(n: int)
    | Other(shown: string)   // any other type, with what `%v` prints for it

  function ShowBytes(b: string): string {
    if b == "" then "" else if |b| == 1 then Itoa(b[0] as int)
    else Itoa(b[0] as int) + " " + ShowBytes(b[1..])
  }

  /** `fmt.Sprintf("%v", v)`. */
  function Show(v: Value): string {
    match v
    case Null => "<nil>"
    case Text(t) => t
    case Bytes(b) => "[" + ShowBytes(b) + "]"
    case Int(n) => Itoa(n)
    case Other(t) => t
  }

  /**
   * Text is shown as it is and integers in decimal; nil and byte slices are shown the way Go prints them: the bytes as
   * decimal numbers with single spaces between them, in brackets.
   */
  lemma {:induction false} ShownAs(t: string, n: int, b: char, bytes: string)
    ensures Show(Text(t)) == t && Show(Int(n)) == Itoa(n) && Show(Null) == "<nil>"
    ensures Show(Bytes("")) == "[]" && Show(Bytes([b])) == "[" + Itoa(b as int) + "]"
    ensures bytes != "" ==> Show(Bytes([b] + bytes)) == "[" + Itoa(b as int) + " " + Show(Bytes(bytes))[1..]
  {
    var all := [b] + bytes;
    assert all[1..] == bytes;
    var inner := ShowBytes(bytes);
    assert ("[" + inner + "]")[1..] == inner + "]";
    assert "[" + (Itoa(b as int) + " " + inner) + "]" == "[" + Itoa(b as int) + " " + (inner + "]");
  }

  /** A row as handed to a callback: column names to values. */
  type RowMap = map<string, Value>
}
