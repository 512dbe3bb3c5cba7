/** JSON documents as gjson presents them to the EIP-712 code: objects are finite
    maps, their keys plain identifiers, so that a key is never read as a path. */
module Json {
  import opened Order

  predicate IsKeyChar(c: char) {
    'a' <= c <= 'z' || 'A' <= c <= 'Z' || '0' <= c <= '9' || c == '_'
  }

  predicate IsKey(s: string) {
    |s| > 0 && forall i :: 0 <= i < |s| ==> IsKeyChar(s[i])
  }

  type Key = s: string | IsKey(s) witness "_"

  datatype Json =
    | Null
    | Bool(b: bool)
    | Number(text: string)
    | Str(s: string)
    | Arr(items: seq<Json>)
    | Obj(fields: map<Key, Json>)

  // --------------------------------------------------------------- sorted keys

  predicate Descending(ks: seq<string>) {
    forall i, j :: 0 <= i < j < |ks| ==> StrLess(ks[j], ks[i])
  }

  lemma {:induction false} GreatestKey(s: set<Key>) returns (m: Key)
    requires s != {}
    ensures m in s && forall k :: k in s ==> k == m || StrLess(k, m)
    decreases |s|
  {
    hide StrLess;
    m :| m in s;
    if s != {m} {
      var n := GreatestKey(s - {m});
      StrOrder(m, n, n);
      if StrLess(m, n) {
        m := n;
      } else {
        forall k | k in s ensures k == m || StrLess(k, m) {
          if k != m { StrOrder(k, n, m); StrOrder(n, m, k); }
        }
      }
    }
  }

  lemma {:induction false} DescendingCons(m: string, ks: seq<string>)
    requires Descending(ks) && forall k :: k in ks ==> StrLess(k, m)
    ensures Descending([m] + ks)
  {
    hide StrLess;
    var r := [m] + ks;
    forall i, j | 0 <= i < j < |r| ensures StrLess(r[j], r[i]) {
      assert r[j] == ks[j - 1];
      if i > 0 { assert r[i] == ks[i - 1]; }
    }
  }

  /** The keys of an object in descending order. */
  ghost function SortedDesc(s: set<Key>): (ks: seq<Key>)
    ensures Descending(ks)
    ensures forall k :: k in ks <==> k in s
    decreases |s|
  {
    if s == {} then []
    else
      assert exists m :: m in s && forall k :: k in s ==> k == m || StrLess(k, m) by { var m := GreatestKey(s); }
      var m :| m in s && forall k :: k in s ==> k == m || StrLess(k, m);
      DescendingCons(m, SortedDesc(s - {m}));
      [m] + SortedDesc(s - {m})
  }

  /** There is only one way to list a set of keys in descending order. */
  lemma {:induction false} DescendingUnique(a: seq<string>, b: seq<string>)
    requires Descending(a) && Descending(b) && forall k :: k in a <==> k in b
    ensures a == b
  {
    hide StrLess;
    assert (a != [] ==> a[0] in a) && (b != [] ==> b[0] in b);
    if a != [] {
      assert b != [];
      HeadGreatest(a, b[0]);
      HeadGreatest(b, a[0]);
      StrOrder(a[0], b[0], a[0]);
      HeadOnce(a);
      HeadOnce(b);
      assert a == [a[0]] + a[1..] && b == [b[0]] + b[1..];
      forall k ensures k in a[1..] <==> k in b[1..] {
        assert k in a <==> k == a[0] || k in a[1..];
        assert k in b <==> k == b[0] || k in b[1..];
      }
      DescendingUnique(a[1..], b[1..]);
    }
  }

  lemma {:induction false} HeadGreatest(a: seq<string>, k: string)
    requires Descending(a) && k in a
    ensures k == a[0] || StrLess(k, a[0])
  {
  }

  lemma {:induction false} HeadOnce(a: seq<string>)
    requires Descending(a) && a != []
    ensures a[0] !in a[1..]
  {
    hide StrLess;
    if a[0] in a[1..] {
      var j :| 0 <= j < |a[1..]| && a[1..][j] == a[0];
      assert StrLess(a[j + 1], a[0]);
      StrOrder(a[0], a[0], a[0]);
    }
  }

  /** Position of `k` in a descending list: everything before is above it. */
  method InsertionPoint(ks: seq<Key>, k: Key) returns (p: nat)
    requires Descending(ks) && k !in ks
    ensures p <= |ks|
    ensures forall i :: 0 <= i < p ==> StrLess(k, ks[i])
    ensures forall i :: p <= i < |ks| ==> StrLess(ks[i], k)
  {
    p := 0;
    while p < |ks| && StrLess(k, ks[p])
      invariant p <= |ks|
      invariant forall i :: 0 <= i < p ==> StrLess(k, ks[i])
    {
      p := p + 1;
    }
    hide StrLess;
    forall i | p <= i < |ks| ensures StrLess(ks[i], k) {
      StrOrder(k, ks[p], ks[p]);
      StrOrder(ks[i], ks[p], k);
    }
  }

  lemma {:induction false} InsertDescending(ks: seq<string>, k: string, p: nat)
    requires Descending(ks) && p <= |ks|
    requires forall i :: 0 <= i < p ==> StrLess(k, ks[i])
    requires forall i :: p <= i < |ks| ==> StrLess(ks[i], k)
    ensures var r := ks[..p] + [k] + ks[p..];
            Descending(r) && forall x :: x in r <==> x in ks || x == k
  {
    hide StrLess;
    var r := ks[..p] + [k] + ks[p..];
    assert ks == ks[..p] + ks[p..];
    forall x ensures x in r <==> x in ks || x == k {
      assert x in ks <==> x in ks[..p] || x in ks[p..];
    }
    forall i, j | 0 <= i < j < |r| ensures StrLess(r[j], r[i]) {
      assert r[i] == if i < p then ks[i] else if i == p then k else ks[i - 1];
      assert r[j] == if j < p then ks[j] else if j == p then k else ks[j - 1];
    }
  }

  /** sortedJSONKeys: the keys come out of the map in any order and are sorted. */
  method SortedJSONKeys(fields: map<Key, Json>) returns (keys: seq<Key>)
    ensures keys == SortedDesc(fields.Keys)
  {
    hide StrLess, Descending;
    assert Descending([]) by { DescendingEmpty(); }
    keys := [];
    var rest := fields.Keys;
    while rest != {}
      invariant Descending(keys) && rest <= fields.Keys
      invariant forall k :: k in keys <==> k in fields.Keys - rest
      decreases |rest|
    {
      var k :| k in rest;
      var p := InsertionPoint(keys, k);
      InsertDescending(keys, k, p);
      keys := keys[..p] + [k] + keys[p..];
      rest := rest - {k};
    }
    DescendingUnique(keys, SortedDesc(fields.Keys));
  }

  lemma {:induction false} DescendingEmpty()
    ensures Descending([])
  {
  }
}
