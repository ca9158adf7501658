/** JSON values, their compact text, and the comparison `sort_by` uses. */
module Json {
  import opened Order

  datatype Option<+T> = None | Some(value: T) {
    function GetOr(default: T): T {
      if Some? then value else default
    }
  }

  predicate NumberChar(c: char) {
    '0' <= c <= '9' || c == '-' || c == '+' || c == '.' || c == 'e' || c == 'E'
  }

  /** The text of a JSON number starts with a minus sign or a digit, and has no other
      characters than section 6 of RFC 8259 allows. */
  type NumberText = t: string | t != "" && (t[0] == '-' || '0' <= t[0] <= '9') && forall c :: c in t ==> NumberChar(c)
    witness "0"

  /** A number is its rendered text and the finite double it denotes. */
  datatype Number = Number(text: NumberText, value: real)

  type Fields = map<string, Json>

  datatype Json =
    | Null
    | Bool(b: bool)
    | Num(n: Number)
    | Str(s: string)
    | Arr(items: seq<Json>)
    | Obj(fields: Fields)

  /** `Value::get`: a member of an object; any other value has no members. */
  function Get(v: Json, name: string): Option<Json> {
    if v.Obj? && name in v.fields then Some(v.fields[name]) else None
  }

  /** `new` written over `prior`, column by column, when both are objects. */
  function Merge(prior: Json, new': Json): Json {
    if prior.Obj? && new'.Obj? then Obj(prior.fields + new'.fields) else new'
  }

  // ---- compact text ------------------------------------------------------

  const HEX := "0123456789abcdef"

  /** One character inside a JSON string literal, per section 7 of RFC 8259. */
  function EscapeChar(c: char): (r: string)
    ensures r != ""
  {
    if c == '\"' then "\\\""
    else if c == '\\' then "\\\\"
    else if c == 8 as char then "\\b"
    else if c == 9 as char then "\\t"
    else if c == 10 as char then "\\n"
    else if c == 12 as char then "\\f"
    else if c == 13 as char then "\\r"
    else if c < ' ' then "\\u00" + [HEX[c as int / 16]] + [HEX[c as int % 16]]
    else [c]
  }

  function Escape(s: string): string {
    if s == "" then "" else EscapeChar(s[0]) + Escape(s[1..])
  }

  function Quote(s: string): string {
    "\"" + Escape(s) + "\""
  }

  function Text(v: Json): string
    decreases v, 0
  {
    match v
    case Null => "null"
    case Bool(b) => if b then "true" else "false"
    case Num(n) => n.text
    case Str(s) => Quote(s)
    case Arr(items) => "[" + TextItems(items) + "]"
    case Obj(fields) =>
      StrStrictTotal();
      "{" + TextMembers(v, Ascending(StrLt, fields.Keys)) + "}"
  }

  function TextItems(items: seq<Json>): string
    decreases items, 0
  {
    if items == [] then ""
    else if |items| == 1 then Text(items[0])
    else Text(items[0]) + "," + TextItems(items[1..])
  }

  function TextMembers(v: Json, names: seq<string>): string
    requires v.Obj? && forall k :: k in names ==> k in v.fields
    decreases v, 0, |names|
  {
    if names == [] then ""
    else
      var member := Quote(names[0]) + ":" + Text(v.fields[names[0]]);
      if |names| == 1 then member else member + "," + TextMembers(v, names[1..])
  }

  // ---- comparison --------------------------------------------------------

  datatype Ordering = Less | Equal | Greater {
    function Reverse(): Ordering {
      match this
      case Less => Greater
      case Equal => Equal
      case Greater => Less
    }
  }

  function CompareReal(x: real, y: real): Ordering {
    if x < y then Less else if x == y then Equal else Greater
  }

  function CompareText(x: string, y: string): Ordering {
    if StrLt(x, y) then Less else if x == y then Equal else Greater
  }

  function CompareBool(x: bool, y: bool): Ordering {
    if x == y then Equal else if y then Less else Greater
  }

  /** Nulls first, then numbers by value, strings lexicographically, booleans
      false first; every other pair is compared by its text. */
  function JsonCompare(a: Json, b: Json): Ordering {
    match (a, b)
    case (Null, Null) => Equal
    case (Null, _) => Less
    case (_, Null) => Greater
    case (Num(x), Num(y)) => CompareReal(x.value, y.value)
    case (Str(x), Str(y)) => CompareText(x, y)
    case (Bool(x), Bool(y)) => CompareBool(x, y)
    case (_, _) => CompareText(Text(a), Text(b))
  }

  /** The band each kind of value sorts into. */
  function Band(v: Json): nat {
    match v
    case Null => 0
    case Str(_) => 1
    case Num(_) => 2
    case Arr(_) => 3
    case Bool(_) => 4
    case Obj(_) => 5
  }

  /** The first character of a value's text already decides its band. */
  lemma TextStartsInBand(a: Json, b: Json)
    requires 0 < Band(a) < Band(b)
    ensures StrLt(Text(a), Text(b))
  {
    assert Text(a) != "" && Text(b) != "";
    assert Text(a)[0] < Text(b)[0];
  }

  /** Values of different kinds are ordered by kind alone: null, string, number,
      array, boolean, object. */
  lemma {:induction false} CompareAcrossKinds(a: Json, b: Json)
    requires Band(a) != Band(b)
    ensures JsonCompare(a, b) == if Band(a) < Band(b) then Less else Greater
  {
    StrStrictTotal();
    if Band(a) == 0 || Band(b) == 0 {
    } else if Band(a) < Band(b) {
      TextStartsInBand(a, b);
    } else {
      TextStartsInBand(b, a);
    }
  }

  /** Within one kind: numbers by value, strings by their first difference, false before
      true, arrays and objects by the first difference of their text. */
  lemma {:induction false} CompareWithinKind(a: Json, b: Json)
    requires Band(a) == Band(b)
    ensures JsonCompare(a, b) == Less <==>
      || (a.Num? && a.n.value < b.n.value)
      || (a.Bool? && !a.b && b.b)
      || (a.Str? && exists i :: Before(a.s, b.s, i))
      || ((a.Arr? || a.Obj?) && exists i :: Before(Text(a), Text(b), i))
    ensures JsonCompare(a, b) == Equal <==>
      match a
      case Null => true
      case Num(n) => n.value == b.n.value
      case Bool(x) => x == b.b
      case Str(s) => s == b.s
      case _ => Text(a) == Text(b)
  {
    hide Before, Text, CompareText;
    if a.Str? { CompareTextIff(a.s, b.s); }
    if a.Arr? || a.Obj? {
      CompareTextIff(Text(a), Text(b));
      assert JsonCompare(a, b) == CompareText(Text(a), Text(b));
    }
  }

  lemma {:induction false} CompareTextIff(x: string, y: string)
    ensures CompareText(x, y) == Less <==> exists i :: Before(x, y, i)
    ensures CompareText(x, y) == Equal <==> x == y
  {
    hide Before;
    StrLtIff(x, y);
    StrIrreflexive(x);
  }

  predicate JsonLe(a: Json, b: Json) {
    JsonCompare(a, b) != Greater
  }

  /** Swapping the arguments reverses the answer, so any two values are
      comparable and every value equals itself. */
  lemma {:induction false} CompareReverses(a: Json, b: Json)
    ensures JsonCompare(b, a) == JsonCompare(a, b).Reverse()
    ensures JsonCompare(a, a) == Equal
    ensures JsonLe(a, b) || JsonLe(b, a)
  {
    if Band(a) != Band(b) {
      CompareAcrossKinds(a, b);
      CompareAcrossKinds(b, a);
    } else if a.Str? {
      CompareTextReverses(a.s, b.s);
    } else {
      CompareTextReverses(Text(a), Text(b));
    }
    if a.Str? { CompareTextReverses(a.s, a.s); } else { CompareTextReverses(Text(a), Text(a)); }
  }

  lemma CompareTextReverses(x: string, y: string)
    ensures CompareText(y, x) == CompareText(x, y).Reverse()
    ensures CompareText(x, x) == CompareText(y, y) == Equal
  {
    StrIrreflexive(x);
    StrIrreflexive(y);
    StrConnected(x, y);
    if StrLt(x, y) && StrLt(y, x) { StrTransitive(x, y, x); }
  }

  /** `json_compare` is transitive on all JSON values, mixed kinds included. */
  lemma {:induction false} CompareTransitive(a: Json, b: Json, c: Json)
    requires JsonLe(a, b) && JsonLe(b, c)
    ensures JsonLe(a, c)
    ensures JsonCompare(a, c) == Equal ==> JsonCompare(a, b) == Equal && JsonCompare(b, c) == Equal
  {
    StrStrictTotal();
    if Band(a) != Band(b) { CompareAcrossKinds(a, b); }
    if Band(b) != Band(c) { CompareAcrossKinds(b, c); }
    if Band(a) != Band(c) { CompareAcrossKinds(a, c); }
  }

  // ---- sort_by -----------------------------------------------------------

  function SortKey(row: Json, column: string): Json {
    Get(row, column).GetOr(Null)
  }

  predicate RowLe(column: string, a: Json, b: Json) {
    JsonLe(SortKey(a, column), SortKey(b, column))
  }

  ghost predicate SortedBy(column: string, rows: seq<Json>) {
    forall i, j :: 0 <= i < j < |rows| ==> RowLe(column, rows[i], rows[j])
  }

  /** The rows whose sort key compares equal to `key`, in order. */
  function Ties(column: string, rows: seq<Json>, key: Json): seq<Json> {
    if rows == [] then []
    else (if JsonCompare(SortKey(rows[0], column), key) == Equal then [rows[0]] else [])
         + Ties(column, rows[1..], key)
  }

  function InsertRow(column: string, row: Json, sorted: seq<Json>): (r: seq<Json>) {
    if sorted == [] || RowLe(column, row, sorted[0]) then [row] + sorted
    else [sorted[0]] + InsertRow(column, row, sorted[1..])
  }

  /** The stable sort of `rows` on one column. */
  function SortRows(column: string, rows: seq<Json>): (r: seq<Json>) {
    if rows == [] then [] else InsertRow(column, rows[0], SortRows(column, rows[1..]))
  }

  lemma {:induction false} InsertRowPermutes(column: string, row: Json, sorted: seq<Json>)
    ensures multiset(InsertRow(column, row, sorted)) == multiset{row} + multiset(sorted)
  {
    if sorted != [] && !RowLe(column, row, sorted[0]) {
      InsertRowPermutes(column, row, sorted[1..]);
      assert sorted == [sorted[0]] + sorted[1..];
    }
  }

  lemma {:induction false} InsertRowSorts(column: string, row: Json, sorted: seq<Json>)
    requires SortedBy(column, sorted)
    ensures SortedBy(column, InsertRow(column, row, sorted))
  {
    if sorted == [] {
    } else if RowLe(column, row, sorted[0]) {
      forall j | 0 < j < |sorted| ensures RowLe(column, row, sorted[j]) {
        CompareTransitive(SortKey(row, column), SortKey(sorted[0], column), SortKey(sorted[j], column));
      }
    } else {
      var tail := InsertRow(column, row, sorted[1..]);
      InsertRowSorts(column, row, sorted[1..]);
      InsertRowPermutes(column, row, sorted[1..]);
      CompareReverses(SortKey(row, column), SortKey(sorted[0], column));
      forall x | x in tail ensures RowLe(column, sorted[0], x) {
        assert x in multiset(tail);
        assert x == row || x in sorted[1..];
      }
    }
  }

  lemma {:induction false} InsertRowTies(column: string, row: Json, sorted: seq<Json>, key: Json)
    ensures Ties(column, InsertRow(column, row, sorted), key) == Ties(column, [row] + sorted, key)
  {
    if sorted != [] && !RowLe(column, row, sorted[0]) {
      var first, rest := sorted[0], sorted[1..];
      InsertRowTies(column, row, rest, key);
      TiesSwap(column, row, first, rest, key);
      assert sorted == [first] + rest;
      assert ([first] + ([row] + rest))[1..] == [row] + rest;
      assert InsertRow(column, row, sorted)[1..] == InsertRow(column, row, rest);
    }
  }

  lemma TiesCons(column: string, row: Json, rest: seq<Json>, key: Json)
    ensures Ties(column, [row] + rest, key) ==
      (if JsonCompare(SortKey(row, column), key) == Equal then [row] else []) + Ties(column, rest, key)
  {
    assert ([row] + rest)[1..] == rest;
  }

  /** Two rows with different keys are never tied to the same key. */
  lemma TiesSwap(column: string, a: Json, b: Json, rest: seq<Json>, key: Json)
    requires !RowLe(column, a, b)
    ensures Ties(column, [a] + ([b] + rest), key) == Ties(column, [b] + ([a] + rest), key)
  {
    hide Ties, JsonCompare;
    var ka, kb := SortKey(a, column), SortKey(b, column);
    CompareReverses(kb, key);
    if JsonCompare(ka, key) == Equal && JsonCompare(kb, key) == Equal {
      CompareTransitive(ka, key, kb);
    }
    TiesCons(column, a, [b] + rest, key);
    TiesCons(column, b, [a] + rest, key);
    TiesCons(column, a, rest, key);
    TiesCons(column, b, rest, key);
  }

  /** Sorting rearranges the rows, leaves them ascending, and keeps rows with
      equal keys in their original order. */
  lemma {:induction false} SortRowsStable(column: string, rows: seq<Json>, key: Json)
    ensures var r := SortRows(column, rows);
      && SortedBy(column, r)
      && multiset(r) == multiset(rows)
      && Ties(column, r, key) == Ties(column, rows, key)
  {
    if rows != [] {
      var rest := SortRows(column, rows[1..]);
      SortRowsStable(column, rows[1..], key);
      InsertRowSorts(column, rows[0], rest);
      InsertRowPermutes(column, rows[0], rest);
      InsertRowTies(column, rows[0], rest, key);
      assert rows == [rows[0]] + rows[1..];
      assert ([rows[0]] + rest)[1..] == rest;
    }
  }
}
