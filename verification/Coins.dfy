/** Coin lists as the Cosmos SDK keeps them: sorted by denomination, one positive coin
    each. Find, AmountOfNoDenomValidation, Add and SafeSub of that library appear here
    as functions on such lists. */
module Coins {
  import opened Order
  import opened Options

  datatype Coin = Coin(denom: string, amount: nat)

  type Limit = seq<Coin>

  const TWO_256: int := 0x1_0000000000000000_0000000000000000_0000000000000000_0000000000000000

  ghost predicate Sorted(cs: Limit) {
    forall i, j :: 0 <= i < j < |cs| ==> StrLess(cs[i].denom, cs[j].denom)
  }

  predicate Positive(cs: Limit) {
    forall i :: 0 <= i < |cs| ==> cs[i].amount > 0
  }

  /** Find. */
  function Find(cs: Limit, denom: string): Option<Coin> {
    if cs == [] then None
    else if cs[0].denom == denom then Some(cs[0])
    else Find(cs[1..], denom)
  }

  /** AmountOfNoDenomValidation. */
  function AmountOf(cs: Limit, denom: string): nat {
    match Find(cs, denom)
    case None => 0
    case Some(c) => c.amount
  }

  /** Add, of one coin. */
  function Add(cs: Limit, c: Coin): Limit {
    if c.amount == 0 then cs
    else if cs == [] then [c]
    else if cs[0].denom == c.denom then [Coin(c.denom, cs[0].amount + c.amount)] + cs[1..]
    else if StrLess(c.denom, cs[0].denom) then [c] + cs
    else [cs[0]] + Add(cs[1..], c)
  }

  /** SafeSub of the whole coin of a denomination. */
  function Without(cs: Limit, denom: string): Limit {
    if cs == [] then []
    else if cs[0].denom == denom then cs[1..]
    else [cs[0]] + Without(cs[1..], denom)
  }

  /** A list with the coin of this denomination overwritten, if there is one. */
  function With(cs: Limit, c: Coin): Limit {
    if cs == [] then []
    else if cs[0].denom == c.denom then [c] + cs[1..]
    else [cs[0]] + With(cs[1..], c)
  }

  // ---------------------------------------------------------------- order is kept

  /** Every coin of the list comes after `denom`. */
  ghost predicate After(denom: string, cs: Limit) {
    forall i :: 0 <= i < |cs| ==> StrLess(denom, cs[i].denom)
  }

  lemma {:induction false} SortedCons(c: Coin, cs: Limit)
    ensures Sorted([c] + cs) <==> After(c.denom, cs) && Sorted(cs)
  {
    hide StrLess;
    var all := [c] + cs;
    if Sorted(all) {
      forall i | 0 <= i < |cs| ensures StrLess(c.denom, cs[i].denom) { assert all[i + 1] == cs[i] && all[0] == c; }
      forall i, j | 0 <= i < j < |cs| ensures StrLess(cs[i].denom, cs[j].denom) {
        assert all[i + 1] == cs[i] && all[j + 1] == cs[j];
      }
    }
    if After(c.denom, cs) && Sorted(cs) {
      forall i, j | 0 <= i < j < |all| ensures StrLess(all[i].denom, all[j].denom) {
        assert all[j] == cs[j - 1];
        if i > 0 { assert all[i] == cs[i - 1]; }
      }
    }
  }

  lemma {:induction false} SortedSplit(cs: Limit)
    requires cs != []
    ensures Sorted(cs) <==> After(cs[0].denom, cs[1..]) && Sorted(cs[1..])
  {
    assert cs == [cs[0]] + cs[1..];
    SortedCons(cs[0], cs[1..]);
  }

  lemma {:induction false} FindAfter(cs: Limit, denom: string, d: string)
    requires After(denom, cs) && (d == denom || StrLess(d, denom))
    ensures Find(cs, d) == None
  {
    hide StrLess;
    if cs != [] {
      StrOrder(d, denom, cs[0].denom);
      assert After(denom, cs[1..]);
      FindAfter(cs[1..], denom, d);
    }
  }

  lemma {:induction false} FindFirst(cs: Limit, d: string)
    requires Sorted(cs) && cs != [] && StrLess(d, cs[0].denom)
    ensures Find(cs, d) == None
  {
    hide StrLess;
    SortedSplit(cs);
    StrOrder(d, cs[0].denom, d);
    FindAfter(cs[1..], cs[0].denom, d);
  }

  /** What Add does: order and positive amounts stay, one amount grows. */
  lemma {:induction false} AddSpec(cs: Limit, c: Coin)
    requires Sorted(cs) && Positive(cs)
    ensures Sorted(Add(cs, c)) && Positive(Add(cs, c)) && |Add(cs, c)| >= |cs|
    ensures forall denom :: After(denom, cs) && StrLess(denom, c.denom) ==> After(denom, Add(cs, c))
  {
    hide StrLess;
    if c.amount > 0 && cs != [] {
      var d := cs[0].denom;
      SortedSplit(cs);
      StrOrder(d, c.denom, d);
      if d == c.denom {
        SortedCons(Coin(d, cs[0].amount + c.amount), cs[1..]);
      } else if StrLess(c.denom, d) {
        forall i | 0 <= i < |cs| ensures StrLess(c.denom, cs[i].denom) { StrOrder(c.denom, d, cs[i].denom); }
        SortedCons(c, cs);
      } else {
        AddSpec(cs[1..], c);
        SortedCons(cs[0], Add(cs[1..], c));
        forall denom | After(denom, cs) && StrLess(denom, c.denom) ensures After(denom, Add(cs, c)) {
          assert After(denom, cs[1..]);
        }
      }
    }
  }

  lemma {:induction false} AddAmount(cs: Limit, c: Coin, d: string)
    requires Sorted(cs) && Positive(cs)
    ensures AmountOf(Add(cs, c), d) == AmountOf(cs, d) + if d == c.denom then c.amount else 0
  {
    hide StrLess;
    assert [c][1..] == [];
    if c.amount > 0 && cs != [] {
      SortedSplit(cs);
      StrOrder(c.denom, cs[0].denom, c.denom);
      if cs[0].denom == c.denom {
        assert Add(cs, c)[1..] == cs[1..];
      } else if StrLess(c.denom, cs[0].denom) {
        FindFirst(cs, c.denom);
        assert Add(cs, c)[1..] == cs;
      } else {
        AddAmount(cs[1..], c, d);
        assert Add(cs, c)[1..] == Add(cs[1..], c);
      }
    }
  }

  lemma {:induction false} WithSpec(cs: Limit, c: Coin)
    requires Sorted(cs) && Positive(cs) && c.amount > 0
    ensures Sorted(With(cs, c)) && Positive(With(cs, c)) && |With(cs, c)| == |cs|
    ensures forall denom :: After(denom, cs) ==> After(denom, With(cs, c))
  {
    hide StrLess;
    if cs != [] {
      SortedSplit(cs);
      if cs[0].denom == c.denom {
        SortedCons(c, cs[1..]);
      } else {
        WithSpec(cs[1..], c);
        SortedCons(cs[0], With(cs[1..], c));
        forall denom | After(denom, cs) ensures After(denom, With(cs, c)) { assert After(denom, cs[1..]); }
      }
    }
  }

  lemma {:induction false} WithAmount(cs: Limit, c: Coin, d: string)
    ensures AmountOf(With(cs, c), d) == if d == c.denom && Find(cs, d).Some? then c.amount else AmountOf(cs, d)
  {
    if cs != [] { WithAmount(cs[1..], c, d); }
  }

  lemma {:induction false} WithoutSpec(cs: Limit, denom: string)
    requires Sorted(cs) && Positive(cs)
    ensures Sorted(Without(cs, denom)) && Positive(Without(cs, denom))
    ensures forall d :: After(d, cs) ==> After(d, Without(cs, denom))
  {
    hide StrLess;
    if cs != [] {
      SortedSplit(cs);
      if cs[0].denom != denom {
        WithoutSpec(cs[1..], denom);
        SortedCons(cs[0], Without(cs[1..], denom));
        forall d | After(d, cs) ensures After(d, Without(cs, denom)) { assert After(d, cs[1..]); }
      }
    }
  }

  lemma {:induction false} WithoutAmount(cs: Limit, denom: string, d: string)
    requires Sorted(cs)
    ensures AmountOf(Without(cs, denom), d) == if d == denom then 0 else AmountOf(cs, d)
  {
    hide StrLess;
    if cs != [] {
      SortedSplit(cs);
      if cs[0].denom == denom {
        FindAfter(cs[1..], denom, denom);
      } else {
        WithoutAmount(cs[1..], denom, d);
      }
    }
  }

  lemma {:induction false} FindPositive(cs: Limit, denom: string)
    requires Positive(cs)
    ensures Find(cs, denom).Some? <==> AmountOf(cs, denom) > 0
    ensures Find(cs, denom).Some? ==> Find(cs, denom).value.denom == denom
  {
    if cs != [] { FindPositive(cs[1..], denom); }
  }

  // -------------------------------------------------------------- by position

  /** `i` is the first position that holds the denomination, or the end. */
  predicate FirstAt(cs: Limit, denom: string, i: nat) {
    && i <= |cs| && (i < |cs| ==> cs[i].denom == denom)
    && forall j :: 0 <= j < i ==> cs[j].denom != denom
  }

  lemma {:induction false} FirstAtTail(cs: Limit, denom: string, i: nat)
    requires FirstAt(cs, denom, i) && i > 0
    ensures FirstAt(cs[1..], denom, i - 1)
  {
    assert forall j :: 0 <= j < i - 1 ==> cs[1..][j] == cs[j + 1];
  }

  lemma {:induction false} FirstIndex(cs: Limit, denom: string) returns (i: nat)
    ensures FirstAt(cs, denom, i)
  {
    i := 0;
    while i < |cs| && cs[i].denom != denom
      invariant i <= |cs| && forall j :: 0 <= j < i ==> cs[j].denom != denom
    {
      i := i + 1;
    }
  }

  lemma {:induction false} FindAt(cs: Limit, denom: string, i: nat)
    requires FirstAt(cs, denom, i)
    ensures Find(cs, denom) == if i < |cs| then Some(cs[i]) else None
  {
    if i > 0 {
      FirstAtTail(cs, denom, i);
      FindAt(cs[1..], denom, i - 1);
    }
  }

  lemma {:induction false} WithAt(cs: Limit, c: Coin, i: nat)
    requires FirstAt(cs, c.denom, i) && i < |cs|
    ensures With(cs, c) == cs[i := c]
  {
    if i > 0 {
      FirstAtTail(cs, c.denom, i);
      WithAt(cs[1..], c, i - 1);
      assert [cs[0]] + cs[1..][i - 1 := c] == cs[i := c];
    }
  }

  lemma {:induction false} WithoutAt(cs: Limit, denom: string, i: nat)
    requires FirstAt(cs, denom, i) && i < |cs|
    ensures Without(cs, denom) == cs[..i] + cs[i + 1..]
  {
    if i > 0 {
      FirstAtTail(cs, denom, i);
      WithoutAt(cs[1..], denom, i - 1);
      assert [cs[0]] + cs[1..][..i - 1] == cs[..i] && cs[1..][i..] == cs[i + 1..];
    }
  }
}
