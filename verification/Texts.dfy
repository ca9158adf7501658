/** The compact text of a JSON value determines it, so keys are equal exactly when their
    components are, whatever they are. */
module Texts {
  import opened Order
  import opened Json
  import opened Keys

  /** The same value, numbers going by how they are written. */
  ghost predicate Alike(a: Json, b: Json) {
    match a
    case Null => b.Null?
    case Bool(x) => b.Bool? && b.b == x
    case Num(n) => b.Num? && b.n.text == n.text
    case Str(s) => b.Str? && b.s == s
    case Arr(items) => b.Arr? && |b.items| == |items| && forall i :: 0 <= i < |items| ==> Alike(items[i], b.items[i])
    case Obj(fields) =>
      b.Obj? && b.fields.Keys == fields.Keys && forall k :: k in fields ==> Alike(fields[k], b.fields[k])
  }

  /** What may follow a value inside a text. */
  ghost predicate Ends(rest: string) {
    rest == "" || rest[0] == ',' || rest[0] == ']' || rest[0] == '}'
  }

  // ---- where a value ends ----------------------------------------------------

  /** How many characters of a number a text starts with. */
  ghost function NumberRun(text: string): nat {
    if text == "" || !NumberChar(text[0]) then 0 else 1 + NumberRun(text[1..])
  }

  lemma {:induction false} NumberRunIs(x: string, r: string)
    requires Ends(r) && forall c :: c in x ==> NumberChar(c)
    ensures NumberRun(x + r) == |x|
  {
    if x == "" {
      assert x + r == r;
    } else {
      assert x[0] in x && (x + r)[1..] == x[1..] + r;
      NumberRunIs(x[1..], r);
    }
  }

  lemma {:induction false} NumbersEnd(x: string, y: string, r: string, s: string)
    requires x + r == y + s && Ends(r) && Ends(s)
    requires (forall c :: c in x ==> NumberChar(c)) && (forall c :: c in y ==> NumberChar(c))
    ensures x == y && r == s
  {
    hide NumberRun;
    NumberRunIs(x, r);
    NumberRunIs(y, s);
    assert x == (x + r)[..|x|] && y == (y + s)[..|x|];
    assert r == (x + r)[|x|..] && s == (y + s)[|y|..];
  }

  lemma {:induction false} QuotesEnd(a: string, b: string, r: string, s: string)
    requires Quote(a) + r == Quote(b) + s
    ensures a == b && r == s
  {
    hide Escape, ParseString;
    ParseEscaped(a, r);
    ParseEscaped(b, s);
    assert (Quote(a) + r)[1..] == Escape(a) + "\"" + r;
    assert (Quote(b) + s)[1..] == Escape(b) + "\"" + s;
  }

  /** The first character tells the kind, and is none a text can go on with. */
  lemma {:induction false} FirstTells(a: Json, b: Json, r: string, s: string)
    requires Text(a) + r == Text(b) + s
    ensures Text(a) != "" && Text(a)[0] == Text(b)[0] && (a.Null? <==> b.Null?) && (a.Bool? <==> b.Bool?)
    ensures (a.Num? <==> b.Num?) && (a.Str? <==> b.Str?) && (a.Arr? <==> b.Arr?) && (a.Obj? <==> b.Obj?)
  {
    Opens(a);
    Opens(b);
    assert Text(a)[0] == (Text(a) + r)[0] == (Text(b) + s)[0] == Text(b)[0];
  }

  lemma {:induction false} Opens(a: Json)
    ensures Text(a) != "" && !Ends(Text(a))
    ensures Text(a)[0] == 'n' <==> a.Null?
    ensures Text(a)[0] == 't' || Text(a)[0] == 'f' <==> a.Bool?
    ensures Text(a)[0] == '\"' <==> a.Str?
    ensures Text(a)[0] == '[' <==> a.Arr?
    ensures Text(a)[0] == '{' <==> a.Obj?
  {
    hide TextItems, TextMembers, Escape, Ascending;
  }

  // ---- one value after another -----------------------------------------------

  lemma {:induction false} TextsEnd(a: Json, b: Json, r: string, s: string)
    requires Text(a) + r == Text(b) + s && Ends(r) && Ends(s)
    ensures Alike(a, b) && r == s
    decreases a, 0
  {
    hide TextItems, TextMembers, Escape, Ascending, NumberChar, Ends;
    FirstTells(a, b, r, s);
    match a {
      case Null => assert r == (Text(a) + r)[4..] == (Text(b) + s)[4..] == s;
      case Bool(x) => BoolsEnd(x, b.b, r, s);
      case Num(n) => NumbersEnd(n.text, b.n.text, r, s);
      case Str(t) => QuotesEnd(t, b.s, r, s);
      case Arr(items) =>
        ArrayOpens(items, r);
        ArrayOpens(b.items, s);
        ItemsEnd(items, b.items, r, s);
      case Obj(fields) =>
        StrStrictTotal();
        var names, names' := Ascending(StrLt, fields.Keys), Ascending(StrLt, b.fields.Keys);
        ObjectOpens(a, r);
        ObjectOpens(b, s);
        MembersEnd(a, names, b, names', r, s);
        assert fields.Keys == b.fields.Keys;
    }
  }

  lemma {:induction false} ArrayOpens(items: seq<Json>, r: string)
    ensures Text(Arr(items)) + r == "[" + (TextItems(items) + ("]" + r))
    ensures (Text(Arr(items)) + r)[1..] == TextItems(items) + ("]" + r)
  {
    hide TextItems;
  }

  lemma {:induction false} ObjectOpens(v: Json, r: string)
    requires v.Obj? && StrictTotal(StrLt)
    ensures (Text(v) + r) == "{" + (TextMembers(v, Ascending(StrLt, v.fields.Keys)) + ("}" + r))
    ensures (Text(v) + r)[1..] == TextMembers(v, Ascending(StrLt, v.fields.Keys)) + ("}" + r)
  {
    hide TextMembers, Ascending;
  }

  lemma {:induction false} BoolsEnd(x: bool, y: bool, r: string, s: string)
    requires Text(Bool(x)) + r == Text(Bool(y)) + s
    ensures x == y && r == s
  {
    assert (Text(Bool(x)) + r)[0] == if x then 't' else 'f';
    assert (Text(Bool(y)) + s)[0] == if y then 't' else 'f';
    assert r == (Text(Bool(x)) + r)[|Text(Bool(x))|..];
    assert s == (Text(Bool(y)) + s)[|Text(Bool(y))|..];
  }

  /** What follows the first item of a list. */
  ghost function AfterItem(items: seq<Json>, r: string): string
    requires items != []
  {
    if |items| == 1 then "]" + r else "," + (TextItems(items[1..]) + ("]" + r))
  }

  lemma {:induction false} ItemThen(items: seq<Json>, r: string)
    requires items != []
    ensures TextItems(items) + ("]" + r) == Text(items[0]) + AfterItem(items, r) && Ends(AfterItem(items, r))
  {
    hide Text;
  }

  lemma {:induction false} ItemsEnd(xs: seq<Json>, ys: seq<Json>, r: string, s: string)
    requires TextItems(xs) + ("]" + r) == TextItems(ys) + ("]" + s)
    ensures |xs| == |ys| && r == s && forall i :: 0 <= i < |xs| ==> Alike(xs[i], ys[i])
    decreases xs, 0
  {
    hide Text, Alike, Ends, TextItems;
    ItemsOpen(xs, r);
    ItemsOpen(ys, s);
    if xs == [] {
      assert r == (TextItems(xs) + ("]" + r))[1..] && s == (TextItems(ys) + ("]" + s))[1..] by { NoItems(); }
    } else {
      ItemThen(xs, r);
      ItemThen(ys, s);
      TextsEnd(xs[0], ys[0], AfterItem(xs, r), AfterItem(ys, s));
      assert AfterItem(xs, r)[1..] == AfterItem(ys, s)[1..] && AfterItem(xs, r)[0] == AfterItem(ys, s)[0];
      if |xs| == 1 {
        assert AfterItem(xs, r)[1..] == r && AfterItem(ys, s)[1..] == s;
      } else {
        assert AfterItem(xs, r)[1..] == TextItems(xs[1..]) + ("]" + r);
        assert AfterItem(ys, s)[1..] == TextItems(ys[1..]) + ("]" + s);
        ItemsEnd(xs[1..], ys[1..], r, s);
        forall i | 0 <= i < |xs| ensures Alike(xs[i], ys[i]) {
          if i > 0 { assert xs[i] == xs[1..][i - 1] && ys[i] == ys[1..][i - 1]; }
        }
      }
    }
  }

  lemma {:induction false} ItemsOpen(xs: seq<Json>, r: string)
    ensures TextItems(xs) + ("]" + r) != "" && ((TextItems(xs) + ("]" + r))[0] == ']' <==> xs == [])
  {
    hide Text;
    if xs == [] {
      assert TextItems(xs) + ("]" + r) == "]" + r;
    } else {
      ItemThen(xs, r);
      Opens(xs[0]);
    }
  }

  lemma NoItems()
    ensures TextItems([]) == ""
  {
  }

  lemma NoMembers(v: Json)
    requires v.Obj?
    ensures TextMembers(v, []) == ""
  {
  }

  ghost function AfterMember(v: Json, names: seq<string>, r: string): string
    requires names != [] && v.Obj? && forall k :: k in names ==> k in v.fields
  {
    if |names| == 1 then "}" + r else "," + (TextMembers(v, names[1..]) + ("}" + r))
  }

  lemma {:induction false} MemberThen(v: Json, names: seq<string>, r: string)
    requires names != [] && v.Obj? && forall k :: k in names ==> k in v.fields
    ensures TextMembers(v, names) + ("}" + r) ==
      Quote(names[0]) + (":" + (Text(v.fields[names[0]]) + AfterMember(v, names, r)))
    ensures Ends(AfterMember(v, names, r))
  {
    hide Text, Quote;
  }

  lemma {:induction false} MembersEnd(v: Json, names: seq<string>, w: Json, names': seq<string>, r: string, s: string)
    requires v.Obj? && (forall k :: k in names ==> k in v.fields)
    requires w.Obj? && (forall k :: k in names' ==> k in w.fields)
    requires TextMembers(v, names) + ("}" + r) == TextMembers(w, names') + ("}" + s)
    ensures names == names' && r == s && forall k :: k in names ==> Alike(v.fields[k], w.fields[k])
    decreases v, 0, |names|
  {
    hide Text, Alike, Ends, TextMembers, Quote;
    MembersOpen(v, names, r);
    MembersOpen(w, names', s);
    if names == [] {
      assert r == (TextMembers(v, names) + ("}" + r))[1..] && s == (TextMembers(w, names') + ("}" + s))[1..] by {
        NoMembers(v);
        NoMembers(w);
      }
    } else {
      MemberThen(v, names, r);
      MemberThen(w, names', s);
      var x, y := AfterMember(v, names, r), AfterMember(w, names', s);
      var tx, ty := Text(v.fields[names[0]]) + x, Text(w.fields[names'[0]]) + y;
      QuotesEnd(names[0], names'[0], ":" + tx, ":" + ty);
      assert tx == (":" + tx)[1..] == (":" + ty)[1..] == ty;
      TextsEnd(v.fields[names[0]], w.fields[names'[0]], x, y);
      assert x[0] == y[0] && x[1..] == y[1..];
      if |names| == 1 {
        assert x[1..] == r && y[1..] == s;
      } else {
        assert x[1..] == TextMembers(v, names[1..]) + ("}" + r);
        assert y[1..] == TextMembers(w, names'[1..]) + ("}" + s);
        MembersEnd(v, names[1..], w, names'[1..], r, s);
      }
      assert names == [names[0]] + names[1..] && names' == [names'[0]] + names'[1..];
    }
  }

  lemma {:induction false} MembersOpen(v: Json, names: seq<string>, r: string)
    requires v.Obj? && forall k :: k in names ==> k in v.fields
    ensures TextMembers(v, names) + ("}" + r) != "" && ((TextMembers(v, names) + ("}" + r))[0] == '}' <==> names == [])
  {
    hide Text, Escape;
    if names == [] {
      assert TextMembers(v, names) + ("}" + r) == "}" + r;
    } else {
      MemberThen(v, names, r);
    }
  }

  // ---- alike is the same text --------------------------------------------------

  lemma {:induction false} AlikeTexts(a: Json, b: Json)
    requires Alike(a, b)
    ensures Text(a) == Text(b)
    decreases a, 0
  {
    match a {
      case Arr(items) => AlikeItems(items, b.items);
      case Obj(fields) =>
        StrStrictTotal();
        AlikeMembers(a, b, Ascending(StrLt, fields.Keys));
      case _ =>
    }
  }

  lemma {:induction false} AlikeItems(xs: seq<Json>, ys: seq<Json>)
    requires |xs| == |ys| && forall i :: 0 <= i < |xs| ==> Alike(xs[i], ys[i])
    ensures TextItems(xs) == TextItems(ys)
    decreases xs, 0
  {
    hide Text, Alike;
    if xs != [] {
      AlikeTexts(xs[0], ys[0]);
      if |xs| > 1 { AlikeItems(xs[1..], ys[1..]); }
    }
  }

  lemma {:induction false} AlikeMembers(a: Json, b: Json, names: seq<string>)
    requires Alike(a, b) && a.Obj? && forall k :: k in names ==> k in a.fields
    ensures TextMembers(a, names) == TextMembers(b, names)
    decreases a, 0, |names|
  {
    hide Text;
    if names != [] {
      AlikeTexts(a.fields[names[0]], b.fields[names[0]]);
      if |names| > 1 { AlikeMembers(a, b, names[1..]); }
    }
  }

  /** Two values are written the same exactly when they are the same. */
  lemma {:induction false} TextsEqualIff(a: Json, b: Json)
    ensures Text(a) == Text(b) <==> Alike(a, b)
  {
    hide Text, Alike;
    if Text(a) == Text(b) { TextsEnd(a, b, "", ""); }
    if Alike(a, b) { AlikeTexts(a, b); }
  }

  // ---- keys ----------------------------------------------------------------------

  /** Two components a key does not tell apart: scalars that read the same, nulls, and
      arrays or objects that are the same. */
  ghost predicate OneComponent(a: Json, b: Json) {
    SameComponent(a, b) || (!Scalar(a) && !Scalar(b) && Alike(a, b))
  }

  lemma {:induction false} NormalizedAlikeIff(a: Json, b: Json)
    ensures Alike(NormalizeComponent(a), NormalizeComponent(b)) <==> OneComponent(a, b)
  {
  }

  /** Two keys are equal exactly when they have as many components and a key tells no two
      of them apart, whatever values they are. */
  lemma {:induction false} AnyKeysEqualIff(a: seq<Json>, b: seq<Json>)
    ensures FromValues(a) == FromValues(b) <==> |a| == |b| && forall i :: 0 <= i < |a| ==> OneComponent(a[i], b[i])
  {
    hide Text, NormalizeComponent, OneComponent;
    var x, y := NormalizeAll(a), NormalizeAll(b);
    TextsEqualIff(Arr(x), Arr(y));
    forall i | 0 <= i < |a| && i < |b| ensures Alike(x[i], y[i]) <==> OneComponent(a[i], b[i]) {
      NormalizedAlikeIff(a[i], b[i]);
    }
    if Alike(Arr(x), Arr(y)) {
      forall i | 0 <= i < |a| ensures OneComponent(a[i], b[i]) { assert Alike(x[i], y[i]); }
    }
    if |a| == |b| && forall i :: 0 <= i < |a| ==> OneComponent(a[i], b[i]) {
      forall i | 0 <= i < |x| ensures Alike(x[i], y[i]) { assert OneComponent(a[i], b[i]); }
    }
  }
}
