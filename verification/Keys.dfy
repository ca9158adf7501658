/** Composite keys and document ids.

    A `PkValue` is the compact JSON text of a row's key columns, each scalar
    first turned into its text so that both sides of a join agree. */
module Keys {
  import opened Order
  import opened Json

  /** The canonical JSON text of the key components. */
  datatype PkValue = PkValue(text: string) {
    /** The null sentinel is the empty buffer. */
    predicate IsNull() {
      text == ""
    }
  }

  /** `(table, key)`. */
  type RowKey = (string, PkValue)

  /** Scalars collapse to their text; null, arrays and objects stay as they are. */
  function NormalizeComponent(v: Json): Json {
    match v
    case Bool(_) => Str(Text(v))
    case Num(_) => Str(Text(v))
    case _ => v
  }

  function NormalizeAll(values: seq<Json>): (r: seq<Json>)
    ensures |r| == |values|
    ensures forall i :: 0 <= i < |values| ==> r[i] == NormalizeComponent(values[i])
  {
    seq(|values|, i requires 0 <= i < |values| => NormalizeComponent(values[i]))
  }

  /** Never the null sentinel: even no components encode to the text `[]`. */
  function FromValues(values: seq<Json>): (k: PkValue)
    ensures !k.IsNull()
  {
    PkValue(Text(Arr(NormalizeAll(values))))
  }

  /** The key of a row with no usable key columns. */
  const EMPTY_KEY: PkValue := FromValues([])

  function Columns(fields: Fields, columns: seq<string>): (r: seq<Json>)
    ensures |r| == |columns|
  {
    seq(|columns|, i requires 0 <= i < |columns| =>
      if columns[i] in fields then fields[columns[i]] else Null)
  }

  /** Missing columns count as null; only an object has a key. */
  function ExtractPk(payload: Json, columns: seq<string>): Option<PkValue> {
    if payload.Obj? then Some(FromValues(Columns(payload.fields, columns))) else None
  }

  /** The join key of a row, or the empty key when it has none. */
  function KeyOf(row: Json, columns: seq<string>): PkValue {
    ExtractPk(row, columns).GetOr(EMPTY_KEY)
  }

  /** The source fills a list column by column. */
  method ExtractKey(payload: Json, columns: seq<string>) returns (key: Option<PkValue>)
    ensures key == ExtractPk(payload, columns)
  {
    if !payload.Obj? { return None; }
    var values: seq<Json> := [];
    for i := 0 to |columns|
      invariant values == Columns(payload.fields, columns)[..i]
    {
      values := values + [Get(payload, columns[i]).GetOr(Null)];
    }
    assert values == Columns(payload.fields, columns);
    key := Some(FromValues(values));
  }

  // ---- order on row keys -------------------------------------------------

  predicate RowLt(a: RowKey, b: RowKey) {
    StrLt(a.0, b.0) || (a.0 == b.0 && StrLt(a.1.text, b.1.text))
  }

  lemma RowStrictTotal()
    ensures StrictTotal(RowLt)
  {
    StrStrictTotal();
  }

  /** Row keys go by table, then by the text of the key. */
  lemma {:induction false} RowLtIff(a: RowKey, b: RowKey)
    ensures RowLt(a, b) <==>
      (exists i :: Before(a.0, b.0, i)) || (a.0 == b.0 && exists i :: Before(a.1.text, b.1.text, i))
  {
    hide Before;
    StrLtIff(a.0, b.0);
    StrLtIff(a.1.text, b.1.text);
  }

  // ---- reading a key back ------------------------------------------------

  function HexDigit(c: char): Option<nat> {
    if '0' <= c <= '9' then Some(c as int - '0' as int)
    else if 'a' <= c <= 'f' then Some(c as int - 'a' as int + 10)
    else if 'A' <= c <= 'F' then Some(c as int - 'A' as int + 10)
    else None
  }

  /** A `\uXXXX` escape outside the surrogate range. */
  function UnescapeHex(s: string): Option<char>
    requires |s| >= 4
  {
    match (HexDigit(s[0]), HexDigit(s[1]), HexDigit(s[2]), HexDigit(s[3]))
    case (Some(a), Some(b), Some(c), Some(d)) =>
      var code := ((a * 16 + b) * 16 + c) * 16 + d;
      if code < 0xD800 || 0xE000 <= code < 0x10000 then Some(code as char) else None
    case _ => None
  }

  /** One character of a string literal, and what follows it. */
  function UnescapeChar(s: string): (r: Option<(char, string)>)
    ensures r.Some? ==> |r.value.1| < |s|
  {
    if s == "" || s[0] < ' ' || s[0] == '\"' then None
    else if s[0] != '\\' then Some((s[0], s[1..]))
    else if |s| < 2 then None
    else if s[1] == '\"' || s[1] == '\\' || s[1] == '/' then Some((s[1], s[2..]))
    else if s[1] == 'b' then Some((8 as char, s[2..]))
    else if s[1] == 't' then Some((9 as char, s[2..]))
    else if s[1] == 'n' then Some((10 as char, s[2..]))
    else if s[1] == 'f' then Some((12 as char, s[2..]))
    else if s[1] == 'r' then Some((13 as char, s[2..]))
    else if s[1] == 'u' && |s| >= 6 && UnescapeHex(s[2..]).Some? then
      Some((UnescapeHex(s[2..]).value, s[6..]))
    else None
  }

  /** The rest of a string literal up to its closing quote. */
  function ParseString(s: string): (r: Option<(string, string)>)
    ensures r.Some? ==> |r.value.1| < |s|
    decreases |s|
  {
    if s != "" && s[0] == '\"' then Some(("", s[1..]))
    else match UnescapeChar(s)
      case None => None
      case Some((c, rest)) =>
        match ParseString(rest)
        case None => None
        case Some((tail, after)) => Some(([c] + tail, after))
  }

  /** One string or null component. */
  function ParseComponent(s: string): (r: Option<(Json, string)>)
    ensures r.Some? ==> |r.value.1| < |s|
  {
    if "null" <= s then Some((Null, s[4..]))
    else if s != "" && s[0] == '\"' then
      match ParseString(s[1..])
      case None => None
      case Some((text, after)) => Some((Str(text), after))
    else None
  }

  function ParseRest(s: string): Option<seq<Json>>
    decreases |s|
  {
    match ParseComponent(s)
    case None => None
    case Some((v, after)) =>
      if after == "]" then Some([v])
      else if after != "" && after[0] == ',' then
        match ParseRest(after[1..])
        case None => None
        case Some(tail) => Some([v] + tail)
      else None
  }

  /** Decode a compact array of strings and nulls. */
  function ParseComponents(s: string): Option<seq<Json>> {
    if s == "[]" then Some([])
    else if s != "" && s[0] == '[' then ParseRest(s[1..])
    else None
  }

  // ---- document ids ------------------------------------------------------

  function ComponentText(v: Json): string {
    if v.Str? then v.s else Text(v)
  }

  function ComponentTexts(values: seq<Json>): (r: seq<Json>)
    ensures |r| == |values|
  {
    seq(|values|, i requires 0 <= i < |values| => Str(ComponentText(values[i])))
  }

  /** `{table}:["c1",...]`; a key that does not decode yields no components. */
  function DocIdValue(table: string, pk: PkValue): string {
    table + ":" + Text(Arr(ComponentTexts(ParseComponents(pk.text).GetOr([]))))
  }

  /** Everything after the first colon. */
  function AfterColon(s: string): Option<string> {
    if s == "" then None else if s[0] == ':' then Some(s[1..]) else AfterColon(s[1..])
  }

  /** Recover a key from a document id, when the component count matches. */
  function PkFromDocId(docId: string, expectedColumns: nat): Option<PkValue> {
    match AfterColon(docId)
    case None => None
    case Some(suffix) =>
      match ParseComponents(suffix)
      case None => None
      case Some(components) =>
        if |components| == expectedColumns then Some(FromValues(components)) else None
  }

  // ---- the two undo each other -------------------------------------------

  predicate Scalar(v: Json) {
    v.Bool? || v.Num? || v.Str?
  }

  ghost predicate ScalarOrNull(values: seq<Json>) {
    forall v :: v in values ==> Scalar(v) || v.Null?
  }

  ghost predicate Scalars(values: seq<Json>) {
    forall v :: v in values ==> Scalar(v)
  }

  ghost predicate StringsOrNulls(values: seq<Json>) {
    forall v :: v in values ==> v.Str? || v.Null?
  }

  lemma {:induction false} HexRead(c: char, rest: string)
    requires c < ' '
    ensures UnescapeHex("00" + [HEX[c as int / 16]] + [HEX[c as int % 16]] + rest) == Some(c)
  {
    assert c as int / 16 < 2;
  }

  /** Reading one escaped character gives it back. */
  lemma {:induction false} UnescapeEscaped(c: char, rest: string)
    ensures UnescapeChar(EscapeChar(c) + rest) == Some((c, rest)) && EscapeChar(c)[0] != '\"'
  {
    hide UnescapeHex;
    var s := EscapeChar(c) + rest;
    if c < ' ' && |EscapeChar(c)| == 6 {
      HexRead(c, rest);
      assert s[2..] == "00" + [HEX[c as int / 16]] + [HEX[c as int % 16]] + rest;
      assert s[6..] == rest;
    } else if |EscapeChar(c)| == 2 {
      assert s[2..] == rest;
    } else {
      assert s[1..] == rest;
    }
  }

  lemma {:induction false} ParseEscaped(s: string, rest: string)
    ensures ParseString(Escape(s) + "\"" + rest) == Some((s, rest))
  {
    hide EscapeChar, UnescapeChar;
    var text := Escape(s) + "\"" + rest;
    if s == "" {
      assert text == "\"" + rest && text[1..] == rest;
    } else {
      var tail := Escape(s[1..]) + "\"" + rest;
      assert text == EscapeChar(s[0]) + tail;
      UnescapeEscaped(s[0], tail);
      ParseEscaped(s[1..], rest);
      assert [s[0]] + s[1..] == s;
    }
  }

  lemma ParseQuoted(v: Json, rest: string)
    requires v.Str? || v.Null?
    ensures ParseComponent(Text(v) + rest) == Some((v, rest))
  {
    hide ParseString;
    var text := Text(v) + rest;
    if v.Str? {
      assert text[0] == '\"';
      ParseEscaped(v.s, rest);
      assert text[1..] == Escape(v.s) + "\"" + rest;
    } else {
      assert text == "null" + rest && text[4..] == rest;
    }
  }

  lemma ParseOneThenRest(v: Json, tail: string)
    requires v.Str? || v.Null?
    ensures ParseRest(Text(v) + "]") == Some([v])
    ensures ParseRest(Text(v) + ("," + tail)) ==
      match ParseRest(tail) case None => None case Some(vs) => Some([v] + vs)
  {
    ParseQuoted(v, "]");
    ParseQuoted(v, "," + tail);
    assert ("," + tail)[1..] == tail && ("," + tail)[0] == ',';
  }

  lemma TextItemsCons(items: seq<Json>)
    requires |items| > 1
    ensures TextItems(items) + "]" == Text(items[0]) + ("," + (TextItems(items[1..]) + "]"))
  {
  }

  lemma {:induction false} ParseItems(items: seq<Json>)
    requires items != [] && StringsOrNulls(items)
    ensures ParseRest(TextItems(items) + "]") == Some(items)
  {
    assert items[0] in items;
    var tail := if |items| == 1 then "" else TextItems(items[1..]) + "]";
    ParseOneThenRest(items[0], tail);
    if |items| == 1 {
      assert items == [items[0]];
    } else {
      ParseItems(items[1..]);
      TextItemsCons(items);
      assert ParseRest(Text(items[0]) + ("," + tail)) == Some([items[0]] + items[1..]);
      assert items == [items[0]] + items[1..];
    }
  }

  /** Decoding undoes encoding on every array of strings and nulls. */
  lemma ParseText(items: seq<Json>)
    requires StringsOrNulls(items)
    ensures ParseComponents(Text(Arr(items))) == Some(items)
  {
    var text := Text(Arr(items));
    if items == [] {
      assert text == "[" + "" + "]" == "[]";
    } else {
      ParseItems(items);
      assert text[1..] == TextItems(items) + "]";
      assert items[0] in items;
      ParseQuoted(items[0], "");
      assert text[1] == Text(items[0])[0];
    }
  }

  lemma NormalizedComponents(values: seq<Json>)
    requires ScalarOrNull(values)
    ensures StringsOrNulls(NormalizeAll(values))
    ensures ParseComponents(FromValues(values).text) == Some(NormalizeAll(values))
  {
    var n := NormalizeAll(values);
    forall v | v in n ensures v.Str? || v.Null? {
      var i :| 0 <= i < |n| && n[i] == v;
      assert values[i] in values;
    }
    ParseText(n);
  }

  /** What a scalar reads as, whatever its JSON type. */
  function ScalarText(v: Json): string
    requires Scalar(v)
  {
    match v
    case Str(s) => s
    case Num(n) => n.text
    case Bool(b) => if b then "true" else "false"
  }

  /** Both null, or two scalars that read the same. */
  predicate SameComponent(a: Json, b: Json) {
    (a.Null? && b.Null?) || (Scalar(a) && Scalar(b) && ScalarText(a) == ScalarText(b))
  }

  /** A component as a key holds it: a scalar as the string it reads as, null as null. */
  function Held(v: Json): Json
    requires Scalar(v) || v.Null?
  {
    if v.Null? then Null else Str(ScalarText(v))
  }

  /** Read back, a key is its components in order, each scalar as a string. */
  lemma {:induction false} KeyReadsBack(values: seq<Json>)
    requires ScalarOrNull(values)
    ensures var read := ParseComponents(FromValues(values).text);
      read.Some? && |read.value| == |values| && forall i :: 0 <= i < |values| ==> read.value[i] == Held(values[i])
  {
    NormalizedComponents(values);
    forall i | 0 <= i < |values| ensures NormalizeAll(values)[i] == Held(values[i]) {
      assert values[i] in values;
    }
  }

  /** Two keys are equal exactly when they have as many components and each two are both
      null or read the same: the number 5 and the string "5" are one key, 12 and 17 are
      not. */
  lemma {:induction false} KeysEqualIff(a: seq<Json>, b: seq<Json>)
    requires ScalarOrNull(a) && ScalarOrNull(b)
    ensures FromValues(a) == FromValues(b) <==> |a| == |b| && forall i :: 0 <= i < |a| ==> SameComponent(a[i], b[i])
  {
    KeyReadsBack(a);
    KeyReadsBack(b);
    if |a| == |b| && forall i :: 0 <= i < |a| ==> SameComponent(a[i], b[i]) {
      forall i | 0 <= i < |a| ensures NormalizeAll(a)[i] == NormalizeAll(b)[i] { assert a[i] in a; }
      assert NormalizeAll(a) == NormalizeAll(b);
    }
    if FromValues(a) == FromValues(b) {
      forall i | 0 <= i < |a| ensures SameComponent(a[i], b[i]) { assert a[i] in a && b[i] in b; }
    }
  }

  lemma {:induction false} AfterTable(table: string, suffix: string)
    requires ':' !in table
    ensures AfterColon(table + ":" + suffix) == Some(suffix)
  {
    var s := table + ":" + suffix;
    if table == "" {
      assert s == ":" + suffix && s[1..] == suffix;
    } else {
      AfterTable(table[1..], suffix);
      assert s[1..] == table[1..] + ":" + suffix;
    }
  }

  /** For a key of scalars and nulls, the id is the table, a colon and the key's
      own bytes exactly when no component is null. */
  lemma DocIdIsKeyTextIff(table: string, values: seq<Json>)
    requires ScalarOrNull(values)
    ensures DocIdValue(table, FromValues(values)) == table + ":" + FromValues(values).text
       <==> Scalars(values)
  {
    NormalizedComponents(values);
    var n := NormalizeAll(values);
    var t := ComponentTexts(n);
    ParseText(t);
    if Scalars(values) {
      forall i | 0 <= i < |n| ensures t[i] == n[i] {
        assert values[i] in values;
      }
      assert t == n;
    } else {
      var v :| v in values && !Scalar(v);
      var i :| 0 <= i < |values| && values[i] == v;
      assert n[i] == Null && t[i] == Str("null");
      assert t != n;
      var a, b := table + ":" + Text(Arr(t)), table + ":" + Text(Arr(n));
      assert a[|table| + 1..] == Text(Arr(t));
      assert b[|table| + 1..] == Text(Arr(n));
    }
  }

  /** `pk_from_doc_id` gives back the key the id was built from exactly when no
      component is null. */
  lemma {:induction false} DocIdRoundTripIff(table: string, values: seq<Json>)
    requires ':' !in table && ScalarOrNull(values)
    ensures PkFromDocId(DocIdValue(table, FromValues(values)), |values|) == Some(FromValues(values))
       <==> Scalars(values)
  {
    hide ParseComponents, AfterColon;
    NormalizedComponents(values);
    var n := NormalizeAll(values);
    var t := ComponentTexts(n);
    ParseText(t);
    AfterTable(table, Text(Arr(t)));
    assert NormalizeAll(t) == t;
    ParseText(n);
    if Scalars(values) {
      forall i | 0 <= i < |n| ensures t[i] == n[i] {
        assert values[i] in values;
      }
      assert t == n;
    } else {
      var v :| v in values && !Scalar(v);
      var i :| 0 <= i < |values| && values[i] == v;
      assert n[i] == Null && t[i] == Str("null");
    }
  }

  /** A document id is the table, a colon and the array of what the components read as,
      a null reading as "null". */
  lemma {:induction false} DocIdSpellsKey(table: string, values: seq<Json>)
    requires ScalarOrNull(values)
    ensures var id := DocIdValue(table, FromValues(values));
      && |id| > |table| && id[..|table| + 1] == table + ":"
      && var read := ParseComponents(id[|table| + 1..]);
      && read.Some? && |read.value| == |values|
      && forall i :: 0 <= i < |values| ==>
        read.value[i] == Str(if values[i].Null? then "null" else ScalarText(values[i]))
  {
    KeyReadsBack(values);
    NormalizedComponents(values);
    var n := NormalizeAll(values);
    var t := ComponentTexts(n);
    ParseText(t);
    var id := DocIdValue(table, FromValues(values));
    assert id == table + ":" + Text(Arr(t));
    assert id[..|table| + 1] == table + ":" && id[|table| + 1..] == Text(Arr(t));
    forall i | 0 <= i < |values| ensures t[i] == Str(if values[i].Null? then "null" else ScalarText(values[i])) {
      assert values[i] in values;
    }
  }

  /** Two rows with non-null scalar keys have one document id exactly when they are of
      one table and their components read the same. */
  lemma {:induction false} DocIdInjective(table1: string, values1: seq<Json>, table2: string, values2: seq<Json>)
    requires ':' !in table1 && ':' !in table2 && Scalars(values1) && Scalars(values2)
    ensures DocIdValue(table1, FromValues(values1)) == DocIdValue(table2, FromValues(values2)) <==>
      && table1 == table2 && |values1| == |values2|
      && forall i :: 0 <= i < |values1| ==> ScalarText(values1[i]) == ScalarText(values2[i])
  {
    hide DocIdValue, FromValues;
    SameIdSameKey(table1, values1, table2, values2);
    KeysEqualIff(values1, values2);
    forall i | 0 <= i < |values1| && i < |values2|
      ensures SameComponent(values1[i], values2[i]) <==> ScalarText(values1[i]) == ScalarText(values2[i])
    {
      assert values1[i] in values1 && values2[i] in values2;
    }
  }

  lemma {:induction false} SameIdSameKey(table1: string, values1: seq<Json>, table2: string, values2: seq<Json>)
    requires ':' !in table1 && ':' !in table2 && Scalars(values1) && Scalars(values2)
    ensures DocIdValue(table1, FromValues(values1)) == DocIdValue(table2, FromValues(values2))
       <==> table1 == table2 && FromValues(values1) == FromValues(values2)
  {
    DocIdIsKeyTextIff(table1, values1);
    DocIdIsKeyTextIff(table2, values2);
    var k1, k2 := FromValues(values1).text, FromValues(values2).text;
    AfterTable(table1, k1);
    AfterTable(table2, k2);
    if table1 + ":" + k1 == table2 + ":" + k2 {
      assert k1 == k2;
      assert |table1| == |table2|;
      assert table1 == (table1 + ":" + k1)[..|table1|];
      assert table2 == (table2 + ":" + k2)[..|table2|];
    }
  }

  /** A document id yields a key only for a row with as many key columns. */
  lemma {:induction false} DocIdCountIff(table: string, values: seq<Json>, columns: nat)
    requires ':' !in table && ScalarOrNull(values)
    ensures PkFromDocId(DocIdValue(table, FromValues(values)), columns).Some? <==> columns == |values|
  {
    DocIdSpellsKey(table, values);
    var id := DocIdValue(table, FromValues(values));
    AfterTable(table, id[|table| + 1..]);
    assert id == table + ":" + id[|table| + 1..];
  }

  /** A null component and the string "null" make different keys but the same
      document id. */
  lemma NullComponentCollides(table: string)
    ensures FromValues([Null]) != FromValues([Str("null")])
    ensures DocIdValue(table, FromValues([Null])) == DocIdValue(table, FromValues([Str("null")]))
  {
    NormalizedComponents([Null]);
    NormalizedComponents([Str("null")]);
    assert NormalizeAll([Null])[0] != NormalizeAll([Str("null")])[0];
    assert ComponentTexts(NormalizeAll([Null])) == [Str("null")] == ComponentTexts(NormalizeAll([Str("null")]));
  }
}
