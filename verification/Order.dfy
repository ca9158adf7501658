/** Strict total orders, and the ascending listing of a finite set that an
    ordered set (`BTreeSet`, `BTreeMap`) iterates in. */
module Order {

  ghost predicate StrictTotal<T(!new)>(lt: (T, T) -> bool) {
    && (forall x :: !lt(x, x))
    && (forall x, y :: lt(x, y) || x == y || lt(y, x))
    && (forall x, y, z :: lt(x, y) && lt(y, z) ==> lt(x, z))
  }

  predicate IsLeast<T(!new,==)>(lt: (T, T) -> bool, s: set<T>, x: T) {
    x in s && forall y | y in s :: x == y || lt(x, y)
  }

  lemma {:induction false} LeastExists<T(!new)>(lt: (T, T) -> bool, s: set<T>)
    requires StrictTotal(lt) && s != {}
    ensures exists x :: IsLeast(lt, s, x)
  {
    var a :| a in s;
    if s == {a} {
      assert IsLeast(lt, s, a);
    } else {
      var rest := s - {a};
      LeastExists(lt, rest);
      var b :| IsLeast(lt, rest, b);
      var x := if lt(a, b) then a else b;
      forall y | y in s ensures x == y || lt(x, y) {
        assert y == a || y in rest;
      }
      assert IsLeast(lt, s, x);
    }
  }

  /** `r` is in strictly ascending order. */
  ghost predicate Ascends<T(!new)>(lt: (T, T) -> bool, r: seq<T>) {
    forall i, j :: 0 <= i < j < |r| ==> lt(r[i], r[j])
  }

  /** The elements of `s` in ascending order. */
  function Ascending<T(!new,==)>(lt: (T, T) -> bool, s: set<T>): (r: seq<T>)
    requires StrictTotal(lt)
    ensures Ascends(lt, r)
    ensures forall x :: x in r <==> x in s
    ensures |r| == |s|
    decreases |s|
  {
    if s == {} then [] else
      LeastExists(lt, s);
      var x :| x in s && IsLeast(lt, s, x);
      var rest := Ascending(lt, s - {x});
      [x] + rest
  }

  // ---- text ------------------------------------------------------------

  /** Lexicographic order on strings. Comparing code points and comparing UTF-8
      bytes give the same order. */
  predicate StrLt(a: string, b: string)
    decreases |a|
  {
    |b| > 0 && (|a| == 0 || a[0] < b[0] || (a[0] == b[0] && StrLt(a[1..], b[1..])))
  }

  /** `a` is a proper prefix of `b`, or is smaller at the first place they differ. */
  ghost predicate Before(a: string, b: string, i: int) {
    && 0 <= i <= |a| && i < |b| && a[..i] == b[..i]
    && (i == |a| || a[i] < b[i])
  }

  lemma {:induction false} StrLtIff(a: string, b: string)
    ensures StrLt(a, b) <==> exists i :: Before(a, b, i)
    decreases |a|
  {
    if |a| > 0 && |b| > 0 && a[0] == b[0] {
      StrLtIff(a[1..], b[1..]);
      if i :| Before(a[1..], b[1..], i) {
        assert a[..i + 1] == [a[0]] + a[1..][..i] && b[..i + 1] == [b[0]] + b[1..][..i];
        assert Before(a, b, i + 1);
      }
      if i :| Before(a, b, i) {
        if i > 0 {
          assert a[1..][..i - 1] == a[..i][1..] && b[1..][..i - 1] == b[..i][1..];
          assert Before(a[1..], b[1..], i - 1);
        }
      }
    } else if StrLt(a, b) {
      assert Before(a, b, 0);
    }
  }

  lemma {:induction false} StrIrreflexive(a: string)
    ensures !StrLt(a, a)
    decreases |a|
  {
    if |a| > 0 { StrIrreflexive(a[1..]); }
  }

  lemma {:induction false} StrConnected(a: string, b: string)
    ensures StrLt(a, b) || a == b || StrLt(b, a)
    decreases |a|
  {
    if |a| > 0 && |b| > 0 && a[0] == b[0] {
      StrConnected(a[1..], b[1..]);
      assert a == [a[0]] + a[1..] && b == [b[0]] + b[1..];
    }
  }

  lemma {:induction false} StrTransitive(a: string, b: string, c: string)
    requires StrLt(a, b) && StrLt(b, c)
    ensures StrLt(a, c)
    decreases |a|
  {
    if |a| > 0 && a[0] == b[0] && b[0] == c[0] { StrTransitive(a[1..], b[1..], c[1..]); }
  }

  lemma StrStrictTotal()
    ensures StrictTotal(StrLt)
  {
    forall a ensures !StrLt(a, a) { StrIrreflexive(a); }
    forall a, b ensures StrLt(a, b) || a == b || StrLt(b, a) { StrConnected(a, b); }
    forall a, b, c | StrLt(a, b) && StrLt(b, c) ensures StrLt(a, c) { StrTransitive(a, b, c); }
  }
}
