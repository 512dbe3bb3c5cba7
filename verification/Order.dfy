/** Lexicographic order on sequences of codes, and on strings through their codes:
    the order of database keys, of strings.Compare and of coin denominations. */
module Order {

  predicate Below(a: seq<int>, b: seq<int>) {
    b != [] && (a == [] || a[0] < b[0] || (a[0] == b[0] && Below(a[1..], b[1..])))
  }

  lemma {:induction false} BelowIrreflexive(a: seq<int>)
    ensures !Below(a, a)
  {
    if a != [] { BelowIrreflexive(a[1..]); }
  }

  lemma {:induction false} BelowTransitive(a: seq<int>, b: seq<int>, c: seq<int>)
    requires Below(a, b) && Below(b, c)
    ensures Below(a, c)
  {
    if a != [] && a[0] == b[0] && b[0] == c[0] { BelowTransitive(a[1..], b[1..], c[1..]); }
  }

  lemma {:induction false} BelowTotal(a: seq<int>, b: seq<int>)
    ensures Below(a, b) || a == b || Below(b, a)
  {
    if a != [] && b != [] && a[0] == b[0] {
      BelowTotal(a[1..], b[1..]);
      if a[1..] == b[1..] { assert a == [a[0]] + a[1..] == b; }
    }
  }

  /** With equally long fronts, the fronts decide and the backs break the tie. */
  lemma {:induction false} BelowConcat(a: seq<int>, b: seq<int>, x: seq<int>, y: seq<int>)
    requires |a| == |b|
    ensures Below(a + x, b + y) <==> Below(a, b) || (a == b && Below(x, y))
  {
    if a == [] {
      assert a + x == x && b + y == y;
    } else {
      assert (a + x)[1..] == a[1..] + x && (b + y)[1..] == b[1..] + y;
      BelowConcat(a[1..], b[1..], x, y);
      assert a == b <==> a[0] == b[0] && a[1..] == b[1..] by {
        assert a == [a[0]] + a[1..] && b == [b[0]] + b[1..];
      }
    }
  }

  function Codes(s: string): seq<int> {
    seq(|s|, i requires 0 <= i < |s| => s[i] as int)
  }

  predicate StrLess(a: string, b: string) {
    Below(Codes(a), Codes(b))
  }

  lemma {:induction false} CodesInjective(a: string, b: string)
    requires Codes(a) == Codes(b)
    ensures a == b
  {
    assert |a| == |b|;
    forall i | 0 <= i < |a| ensures a[i] == b[i] {
      assert Codes(a)[i] == Codes(b)[i];
    }
  }

  /** StrLess is a strict total order. */
  lemma {:induction false} StrOrder(a: string, b: string, c: string)
    ensures !StrLess(a, a)
    ensures StrLess(a, b) && StrLess(b, c) ==> StrLess(a, c)
    ensures StrLess(a, b) ==> !StrLess(b, a)
    ensures StrLess(a, b) || a == b || StrLess(b, a)
  {
    hide Below;
    BelowIrreflexive(Codes(a));
    if StrLess(a, b) && StrLess(b, c) { BelowTransitive(Codes(a), Codes(b), Codes(c)); }
    if StrLess(a, b) && StrLess(b, a) { BelowTransitive(Codes(a), Codes(b), Codes(a)); }
    BelowTotal(Codes(a), Codes(b));
    if Codes(a) == Codes(b) { CodesInjective(a, b); }
  }
}
