/** Transfer allowances of the ics20 precompile (precompiles/ics20/approve_common.go and
    types.go): a grant holds one coin list for each port and channel. Decreasing edits
    the list in place, deleting from it while the loop still ranges over the old slice. */
module Ics20Allowance {
  import opened Order
  import opened Options
  import opened Coins
  import opened Authz

  datatype Allocation = Allocation(port: string, channel: string, limit: Limit, allowList: seq<string>)

  type Store = Keeper<seq<Allocation>>

  // -------------------------------------------------------------- finding the coin

  predicate Matches(al: Allocation, port: string, channel: string) {
    al.port == port && al.channel == channel
  }

  /** checkAllocationExists: the first allocation of the port and channel decides. */
  method CheckAllocationExists(als: seq<Allocation>, port: string, channel: string, denom: string)
    returns (r: Option<(Coin, nat)>)
    ensures r == Check(als, port, channel, denom)
  {
    for i := 0 to |als|
      invariant FirstMatch(als, port, channel, 0) == FirstMatch(als, port, channel, i)
    {
      if !Matches(als[i], port, channel) { continue; }
      var found := Find(als[i].limit, denom);
      if found == None { return None; }
      return Some((found.value, i));
    }
    r := None;
  }

  function FirstMatch(als: seq<Allocation>, port: string, channel: string, i: nat): (r: nat)
    requires i <= |als|
    ensures i <= r <= |als| && (r < |als| ==> Matches(als[r], port, channel))
    ensures forall j :: i <= j < r ==> !Matches(als[j], port, channel)
    decreases |als| - i
  {
    if i == |als| || Matches(als[i], port, channel) then i else FirstMatch(als, port, channel, i + 1)
  }

  function Check(als: seq<Allocation>, port: string, channel: string, denom: string): (r: Option<(Coin, nat)>)
    ensures r.Some? ==> r.value.1 < |als| && Find(als[r.value.1].limit, denom) == Some(r.value.0)
  {
    var i := FirstMatch(als, port, channel, 0);
    if i == |als| then None
    else
      match Find(als[i].limit, denom)
      case None => None
      case Some(c) => Some((c, i))
  }

  // -------------------------------------------------------------- the in-place loop

  /** The loop on its array: `n` is the length of the slice it edits, `i` the position in
      the slice it ranges over, which keeps its old length. None stands for a panic. */
  function LowerFrom(a: Limit, n: nat, i: nat, denom: string, x: nat): Option<(Limit, nat)>
    requires n <= |a| && i <= |a|
    decreases |a| - i
  {
    if i == |a| then Some((a, n))
    else if a[i].denom != denom then LowerFrom(a, n, i + 1, denom, x)
    else if a[i].amount <= x then
      if i + 1 > n then None else LowerFrom(a[..i] + a[i + 1..n] + a[n - 1..], n - 1, i + 1, denom, x)
    else if i >= n then None
    else LowerFrom(a[i := Coin(denom, a[i].amount - x)], n, i + 1, denom, x)
  }

  /** append(s[:i], s[i+1:]...) on the shared array. */
  method DeleteAt(a: array<Coin>, n: nat, i: nat)
    requires i + 1 <= n <= a.Length
    modifies a
    ensures a[..] == old(a[..i] + a[i + 1..n] + a[n - 1..])
  {
    var k := i;
    while k + 1 < n
      invariant i <= k <= n - 1
      invariant forall j :: 0 <= j < i ==> a[j] == old(a[j])
      invariant forall j :: i <= j < k ==> a[j] == old(a[j + 1])
      invariant forall j :: k <= j < a.Length ==> a[j] == old(a[j])
    {
      a[k] := a[k + 1];
      k := k + 1;
    }
  }

  method LowerInPlace(a: array<Coin>, denom: string, x: nat) returns (ok: bool, n: nat)
    modifies a
    ensures var r := LowerFrom(old(a[..]), a.Length, 0, denom, x);
            ok == r.Some? && (ok ==> n <= a.Length && (a[..], n) == r.value)
  {
    n := a.Length;
    for i := 0 to a.Length
      invariant n <= a.Length
      invariant LowerFrom(a[..], n, i, denom, x) == LowerFrom(old(a[..]), a.Length, 0, denom, x)
    {
      var coin := a[i];
      if coin.denom != denom { continue; }
      ghost var before := a[..];
      if coin.amount <= x {
        if i + 1 > n { return false, n; }
        DeleteAt(a, n, i);
        assert a[..] == before[..i] + before[i + 1..n] + before[n - 1..];
        n := n - 1;
      } else {
        if i >= n { return false, n; }
        a[i] := Coin(denom, coin.amount - x);
        assert a[..] == before[i := Coin(denom, coin.amount - x)];
      }
    }
    ok := true;
  }

  /** What the loop is for: the coin lowered, or dropped when nothing is left of it. */
  function Lowered(cs: Limit, denom: string, x: nat): Limit {
    var amount := AmountOf(cs, denom);
    if amount > x then With(cs, Coin(denom, amount - x)) else Without(cs, denom)
  }

  predicate Once(cs: Limit, denom: string) {
    forall i, j :: 0 <= i < j < |cs| ==> cs[i].denom != denom || cs[j].denom != denom
  }

  /** Positions that do not hold the denomination are left alone. */
  lemma {:induction false} LowerSkips(a: Limit, n: nat, i: nat, j: nat, denom: string, x: nat)
    requires n <= |a| && i <= j <= |a| && forall k :: i <= k < j ==> a[k].denom != denom
    ensures LowerFrom(a, n, i, denom, x) == LowerFrom(a, n, j, denom, x)
    decreases j - i
  {
    if i < j { LowerSkips(a, n, i + 1, j, denom, x); }
  }

  // ------------------------------------------------------------------ when it panics

  /** Whether a coin of the denomination that `x` uses up stands before the last place,
      from `i` on. */
  ghost predicate UsedUpBeforeLast(a: Limit, i: nat, denom: string, x: nat) {
    exists j :: i <= j < |a| - 1 && a[j].denom == denom && a[j].amount <= x
  }

  /** Beyond the shortened slice the array repeats its old last element. */
  ghost predicate StaleTail(a: Limit, n: nat, i: nat, last: Coin) {
    n <= |a| && i <= |a| && forall j :: i <= j < |a| && n - 1 <= j ==> a[j] == last
  }

  lemma {:induction false} StaleShift(a: Limit, n: nat, i: nat, last: Coin)
    requires StaleTail(a, n, i, last) && i + 1 <= n
    ensures var b := a[..i] + a[i + 1..n] + a[n - 1..];
            |b| == |a| && StaleTail(b, n - 1, i + 1, last)
  {
    var b := a[..i] + a[i + 1..n] + a[n - 1..];
    forall j | i + 1 <= j < |b| && n - 2 <= j ensures b[j] == last {
      if j >= n - 1 {
        assert b[j] == a[j];
      } else {
        assert b[j] == a[n - 1];
      }
    }
  }

  /** Once something was deleted, the loop comes to the stale last element, and panics
      there exactly when that has the denomination. */
  lemma {:induction false} StalePanics(a: Limit, n: nat, i: nat, denom: string, x: nat, last: Coin)
    requires StaleTail(a, n, i, last) && (last.denom == denom ==> n < |a| && i < |a|)
    ensures LowerFrom(a, n, i, denom, x) == None <==> last.denom == denom
    decreases |a| - i
  {
    if i < |a| {
      assert i >= n - 1 ==> a[i] == last;
      if a[i].denom != denom {
        StalePanics(a, n, i + 1, denom, x, last);
      } else if a[i].amount <= x {
        if i + 1 <= n {
          StaleShift(a, n, i, last);
          StalePanics(a[..i] + a[i + 1..n] + a[n - 1..], n - 1, i + 1, denom, x, last);
        }
      } else if i < n {
        StalePanics(a[i := Coin(denom, a[i].amount - x)], n, i + 1, denom, x, last);
      }
    }
  }

  lemma {:induction false} PanicsFrom(a: Limit, i: nat, denom: string, x: nat)
    requires i <= |a| && a != []
    ensures LowerFrom(a, |a|, i, denom, x) == None <==>
              i < |a| && a[|a| - 1].denom == denom && UsedUpBeforeLast(a, i, denom, x)
    decreases |a| - i
  {
    var n, last := |a|, a[|a| - 1];
    if i < n {
      var lower := a[i := Coin(denom, if a[i].amount > x then a[i].amount - x else 0)];
      if a[i].denom != denom {
        PanicsFrom(a, i + 1, denom, x);
      } else if a[i].amount <= x {
        var b := a[..i] + a[i + 1..n] + a[n - 1..];
        StaleShift(a, n, i, last);
        if i < n - 1 {
          StalePanics(b, n - 1, i + 1, denom, x, last);
        }
      } else {
        PanicsFrom(lower, i + 1, denom, x);
        assert forall j :: i + 1 <= j < n ==> lower[j] == a[j];
      }
    }
  }

  /** The loop panics exactly when the last coin has the denomination and an earlier coin
      of it is used up. A denomination listed once can therefore never make it panic. */
  lemma {:induction false} PanicsExactly(cs: Limit, denom: string, x: nat)
    ensures LowerFrom(cs, |cs|, 0, denom, x) == None <==>
              cs != [] && cs[|cs| - 1].denom == denom && UsedUpBeforeLast(cs, 0, denom, x)
    ensures Once(cs, denom) ==> LowerFrom(cs, |cs|, 0, denom, x).Some?
  {
    hide LowerFrom;
    if cs == [] {
      EmptyLowers(denom, x);
    } else {
      PanicsFrom(cs, 0, denom, x);
    }
  }

  lemma {:induction false} EmptyLowers(denom: string, x: nat)
    ensures LowerFrom([], 0, 0, denom, x) == Some(([], 0))
  {
  }

  /** What the loop makes of a list it does not panic on: every coin of the denomination is
      lowered or, when it is used up, dropped, except that the coin behind a dropped one is
      never looked at. */
  function Walked(cs: Limit, denom: string, x: nat): Limit {
    if cs == [] then []
    else if cs[0].denom != denom then [cs[0]] + Walked(cs[1..], denom, x)
    else if cs[0].amount > x then [Coin(denom, cs[0].amount - x)] + Walked(cs[1..], denom, x)
    else if |cs| == 1 then []
    else [cs[1]] + Walked(cs[2..], denom, x)
  }

  /** The slice the loop is going to leave, at position `i`. */
  function Outcome(a: Limit, n: nat, i: nat, denom: string, x: nat): Limit
    requires n <= |a| && i <= |a|
  {
    if i <= n then a[..i] + Walked(a[i..n], denom, x) else a[..n]
  }

  lemma {:induction false} OutcomeKeeps(a: Limit, n: nat, i: nat, denom: string, x: nat)
    requires i < |a| && n <= |a| && (a[i].denom != denom || (a[i].amount > x && i < n))
    ensures var b := if a[i].denom != denom then a else a[i := Coin(denom, a[i].amount - x)];
            Outcome(b, n, i + 1, denom, x) == Outcome(a, n, i, denom, x)
  {
    var b := if a[i].denom != denom then a else a[i := Coin(denom, a[i].amount - x)];
    if i < n {
      var rest := a[i..n];
      assert rest[1..] == a[i + 1..n] == b[i + 1..n];
      assert b[..i + 1] == a[..i] + [b[i]];
    }
  }

  lemma {:induction false} OutcomeDeletes(a: Limit, n: nat, i: nat, denom: string, x: nat)
    requires i + 1 <= n <= |a| && a[i].denom == denom && a[i].amount <= x
    ensures Outcome(a[..i] + a[i + 1..n] + a[n - 1..], n - 1, i + 1, denom, x) == Outcome(a, n, i, denom, x)
  {
    var b, rest := a[..i] + a[i + 1..n] + a[n - 1..], a[i..n];
    if i + 1 < n {
      assert rest[2..] == a[i + 2..n] == b[i + 1..n - 1];
      assert b[..i + 1] == a[..i] + [a[i + 1]];
    } else {
      assert b[..n - 1] == a[..i];
    }
  }

  lemma {:induction false} LowersTo(a: Limit, n: nat, i: nat, denom: string, x: nat)
    requires n <= |a| && i <= |a| && LowerFrom(a, n, i, denom, x).Some?
    ensures var (b, m) := LowerFrom(a, n, i, denom, x).value;
            m <= |b| && b[..m] == Outcome(a, n, i, denom, x)
    decreases |a| - i
  {
    hide Outcome;
    if i == |a| {
      OutcomeAtEnd(a, n, denom, x);
    } else if a[i].denom == denom && a[i].amount <= x {
      OutcomeDeletes(a, n, i, denom, x);
      LowersTo(a[..i] + a[i + 1..n] + a[n - 1..], n - 1, i + 1, denom, x);
    } else {
      OutcomeKeeps(a, n, i, denom, x);
      LowersTo(if a[i].denom != denom then a else a[i := Coin(denom, a[i].amount - x)], n, i + 1, denom, x);
    }
  }

  lemma {:induction false} OutcomeAtEnd(a: Limit, n: nat, denom: string, x: nat)
    requires n <= |a|
    ensures Outcome(a, n, |a|, denom, x) == a[..n]
  {
  }

  /** On every coin list the loop either panics, exactly when PanicsExactly says, or leaves
      this list. */
  lemma {:induction false} LoopLeaves(cs: Limit, denom: string, x: nat)
    requires LowerFrom(cs, |cs|, 0, denom, x).Some?
    ensures var (a, n) := LowerFrom(cs, |cs|, 0, denom, x).value;
            n <= |a| && a[..n] == Walked(cs, denom, x)
  {
    hide LowerFrom, Walked;
    LowersTo(cs, |cs|, 0, denom, x);
    assert cs[..0] == [] && cs[0..|cs|] == cs;
  }

  /** With the denomination listed once, the loop lowers its coin, or drops it exactly
      when nothing is left, keeps the order of the rest and never panics. */
  lemma {:induction false} LoopLowers(cs: Limit, denom: string, x: nat)
    requires Once(cs, denom) && Find(cs, denom).Some?
    ensures var r := LowerFrom(cs, |cs|, 0, denom, x);
            r.Some? && r.value.1 <= |r.value.0| && r.value.0[..r.value.1] == Lowered(cs, denom, x)
  {
    hide Find, With, Without;
    PanicsExactly(cs, denom, x);
    var n, amount := |cs|, AmountOf(cs, denom);
    var f := FirstIndex(cs, denom);
    FindAt(cs, denom, f);
    LowerSkips(cs, n, 0, f, denom, x);
    if amount > x {
      var a := cs[f := Coin(denom, amount - x)];
      WithAt(cs, Coin(denom, amount - x), f);
      LowerSkips(a, n, f + 1, n, denom, x);
    } else {
      var a := cs[..f] + cs[f + 1..n] + cs[n - 1..];
      forall k | f + 1 <= k < n ensures a[k].denom != denom {
        if k < n - 1 { assert a[k] == cs[k + 1]; } else { assert a[k] == cs[n - 1]; }
      }
      WithoutAt(cs, denom, f);
      LowerSkips(a, n - 1, f + 1, n, denom, x);
      assert a[..n - 1] == cs[..f] + cs[f + 1..];
    }
  }

  // -------------------------------------------------------------------- operations

  function WithLimit(als: seq<Allocation>, i: nat, limit: Limit): seq<Allocation>
    requires i < |als|
  {
    als[i := als[i].(limit := limit)]
  }

  function IncreaseAllowance(
      k: Store, grantee: Addr, granter: Addr, port: string, channel: string, c: Coin): Option<Store> {
    match GetAuthorization(k, grantee, granter)
    case None => None
    case Some(g) =>
      var found := Check(g.auth, port, channel, c.denom);
      if found == None || found.value.0.amount + c.amount >= TWO_256 then None
      else
        var i := found.value.1;
        SaveGrant(k, grantee, granter, WithLimit(g.auth, i, Add(g.auth[i].limit, c)), g.expiration)
  }

  /** None also stands for a panic of the loop. */
  function DecreaseAllowance(
      k: Store, grantee: Addr, granter: Addr, port: string, channel: string, c: Coin): Option<Store> {
    match GetAuthorization(k, grantee, granter)
    case None => None
    case Some(g) =>
      var found := Check(g.auth, port, channel, c.denom);
      if found == None || found.value.0.amount < c.amount then None
      else
        var i := found.value.1;
        var limit := g.auth[i].limit;
        var r := LowerFrom(limit, |limit|, 0, c.denom, c.amount);
        if r == None || r.value.1 > |r.value.0| then None
        else SaveGrant(k, grantee, granter, WithLimit(g.auth, i, r.value.0[..r.value.1]), g.expiration)
  }

  ghost predicate ValidAllocations(als: seq<Allocation>) {
    forall i :: 0 <= i < |als| ==> Sorted(als[i].limit) && Positive(als[i].limit)
  }

  ghost predicate ValidStore(k: Store) {
    forall p :: p in k.grants ==> ValidAllocations(k.grants[p].auth)
  }

  /** What a grantee may still send over a port and channel: the coin of the first
      matching allocation. */
  function Remaining(als: seq<Allocation>, port: string, channel: string, denom: string): nat {
    var i := FirstMatch(als, port, channel, 0);
    if i == |als| then 0 else AmountOf(als[i].limit, denom)
  }

  function RemainingOf(k: Store, grantee: Addr, granter: Addr, port: string, channel: string, denom: string): nat {
    match GetAuthorization(k, grantee, granter)
    case None => 0
    case Some(g) => Remaining(g.auth, port, channel, denom)
  }

  // ------------------------------------------------------------- one entry changes

  lemma {:induction false} FirstMatchWith(
      als: seq<Allocation>, i: nat, limit: Limit, port: string, channel: string, j: nat)
    requires i < |als| && j <= |als|
    ensures FirstMatch(WithLimit(als, i, limit), port, channel, j) == FirstMatch(als, port, channel, j)
    decreases |als| - j
  {
    if j < |als| { FirstMatchWith(als, i, limit, port, channel, j + 1); }
  }

  /** Allocations `als'` are valid and differ from `als` in what remains of one coin on
      one port and channel. */
  ghost predicate OneChanges(
      als: seq<Allocation>, als': seq<Allocation>, port: string, channel: string, denom: string, amount: nat) {
    && ValidAllocations(als')
    && forall p, ch, d :: Remaining(als', p, ch, d)
                          == if (p, ch, d) == (port, channel, denom) then amount else Remaining(als, p, ch, d)
  }

  lemma {:induction false} LimitChanges(
      als: seq<Allocation>, port: string, channel: string, denom: string, limit: Limit, amount: nat)
    requires ValidAllocations(als) && Check(als, port, channel, denom).Some? && Sorted(limit) && Positive(limit)
    requires var i := FirstMatch(als, port, channel, 0);
             forall d :: AmountOf(limit, d) == if d == denom then amount else AmountOf(als[i].limit, d)
    ensures OneChanges(als, WithLimit(als, FirstMatch(als, port, channel, 0), limit), port, channel, denom, amount)
  {
    hide AmountOf, FirstMatch, Sorted;
    var i := FirstMatch(als, port, channel, 0);
    var als' := WithLimit(als, i, limit);
    forall p, ch, d
      ensures Remaining(als', p, ch, d)
              == if (p, ch, d) == (port, channel, denom) then amount else Remaining(als, p, ch, d)
    {
      FirstMatchWith(als, i, limit, p, ch, 0);
    }
  }

  lemma {:induction false} CheckFinds(als: seq<Allocation>, port: string, channel: string, denom: string)
    requires ValidAllocations(als)
    ensures var r := Check(als, port, channel, denom);
            && (r.Some? <==> Remaining(als, port, channel, denom) > 0)
            && (r.Some? ==> r.value.0.amount == Remaining(als, port, channel, denom)
                            && r.value.1 == FirstMatch(als, port, channel, 0))
  {
    hide FirstMatch, Find, Sorted;
    var i := FirstMatch(als, port, channel, 0);
    if i < |als| { FindPositive(als[i].limit, denom); }
  }

  lemma {:induction false} SortedOnce(cs: Limit, denom: string)
    requires Sorted(cs)
    ensures Once(cs, denom)
  {
    hide StrLess;
    forall i, j | 0 <= i < j < |cs| ensures cs[i].denom != denom || cs[j].denom != denom {
      StrOrder(denom, denom, denom);
    }
  }

  lemma {:induction false} LoweredSpec(cs: Limit, denom: string, x: nat)
    requires Sorted(cs) && Positive(cs) && Find(cs, denom).Some? && x <= AmountOf(cs, denom)
    ensures Sorted(Lowered(cs, denom, x)) && Positive(Lowered(cs, denom, x))
    ensures forall d ::
              AmountOf(Lowered(cs, denom, x), d) == if d == denom then AmountOf(cs, denom) - x else AmountOf(cs, d)
  {
    hide Sorted, With, Without, Find;
    var amount := AmountOf(cs, denom);
    FindPositive(cs, denom);
    if amount > x {
      WithSpec(cs, Coin(denom, amount - x));
      forall d ensures AmountOf(Lowered(cs, denom, x), d) == if d == denom then amount - x else AmountOf(cs, d) {
        WithAmount(cs, Coin(denom, amount - x), d);
      }
    } else {
      WithoutSpec(cs, denom);
      forall d ensures AmountOf(Lowered(cs, denom, x), d) == if d == denom then amount - x else AmountOf(cs, d) {
        WithoutAmount(cs, denom, d);
      }
    }
  }

  /** The grant of the pair becomes one that differs in a single remaining amount. */
  ghost predicate Changes(
      k: Store, k': Store, grantee: Addr, granter: Addr, port: string, channel: string, denom: string, amount: nat) {
    && GetAuthorization(k, grantee, granter).Some? && GetAuthorization(k', grantee, granter).Some?
    && OneChanges(GetAuthorization(k, grantee, granter).value.auth, GetAuthorization(k', grantee, granter).value.auth,
                  port, channel, denom, amount)
    && var g := k.grants[(grantee, granter)].(auth := GetAuthorization(k', grantee, granter).value.auth);
       k' == k.(grants := k.grants[(grantee, granter) := g])
  }

  /** Increasing succeeds exactly when the coin is there, the sum fits 256 bits and the
      grant is not just expiring; then it adds to that coin and changes nothing else. */
  lemma {:induction false} IncreaseSpec(k: Store, grantee: Addr, granter: Addr, port: string, channel: string, c: Coin)
    requires ValidStore(k)
    ensures var r := IncreaseAllowance(k, grantee, granter, port, channel, c);
            var was := RemainingOf(k, grantee, granter, port, channel, c.denom);
            && (r.Some? <==> was > 0 && was + c.amount < TWO_256 && !Expiring(k, grantee, granter))
            && (r.Some? ==> Changes(k, r.value, grantee, granter, port, channel, c.denom, was + c.amount))
  {
    hide OneChanges, Check, Sorted, FirstMatch, Find, Add, Remaining;
    var g := GetAuthorization(k, grantee, granter);
    if g.Some? {
      var als := g.value.auth;
      assert ValidAllocations(als);
      CheckFinds(als, port, channel, c.denom);
      var found := Check(als, port, channel, c.denom);
      if found.Some? {
        var limit := als[found.value.1].limit;
        AddSpec(limit, c);
        forall d ensures AmountOf(Add(limit, c), d) == AmountOf(limit, d) + if d == c.denom then c.amount else 0 {
          AddAmount(limit, c, d);
        }
        LimitChanges(als, port, channel, c.denom, Add(limit, c), found.value.0.amount + c.amount);
      }
    }
  }

  /** Decreasing succeeds exactly when the coin is there, holds at least the amount and
      the grant is not just expiring; then it takes from that coin, dropping it at zero,
      and changes nothing else. */
  lemma {:induction false} DecreaseSpec(k: Store, grantee: Addr, granter: Addr, port: string, channel: string, c: Coin)
    requires ValidStore(k)
    ensures var r := DecreaseAllowance(k, grantee, granter, port, channel, c);
            var was := RemainingOf(k, grantee, granter, port, channel, c.denom);
            && (r.Some? <==> was > 0 && c.amount <= was && !Expiring(k, grantee, granter))
            && (r.Some? ==> Changes(k, r.value, grantee, granter, port, channel, c.denom, was - c.amount))
  {
    hide OneChanges, Check, Sorted, FirstMatch, Find, LowerFrom, Lowered, Remaining, Once;
    var g := GetAuthorization(k, grantee, granter);
    if g.Some? {
      var als := g.value.auth;
      assert ValidAllocations(als);
      CheckFinds(als, port, channel, c.denom);
      var found := Check(als, port, channel, c.denom);
      if found.Some? && c.amount <= found.value.0.amount {
        var limit := als[found.value.1].limit;
        SortedOnce(limit, c.denom);
        LoopLowers(limit, c.denom, c.amount);
        LoweredSpec(limit, c.denom, c.amount);
        LimitChanges(als, port, channel, c.denom, Lowered(limit, c.denom, c.amount), found.value.0.amount - c.amount);
      }
    }
  }

  // ------------------------------------------------------------------------- undo

  lemma {:induction false} AddSame(cs: Limit, c: Coin, i: nat)
    requires Sorted(cs) && FirstAt(cs, c.denom, i) && i < |cs|
    ensures Add(cs, c) == cs[i := Coin(c.denom, cs[i].amount + c.amount)]
  {
    hide StrLess;
    if c.amount == 0 {
      assert cs[i := cs[i]] == cs;
    } else if i > 0 {
      StrOrder(cs[0].denom, c.denom, c.denom);
      assert StrLess(cs[0].denom, cs[i].denom);
      FirstAtTail(cs, c.denom, i);
      SortedSplit(cs);
      AddSame(cs[1..], c, i - 1);
      var sum := Coin(c.denom, cs[i].amount + c.amount);
      assert [cs[0]] + cs[1..][i - 1 := sum] == cs[i := sum];
    }
  }

  /** On the list itself, lowering by what was added gives the list back. */
  lemma {:induction false} LoweredUndoesAdd(cs: Limit, c: Coin)
    requires Sorted(cs) && Positive(cs) && Find(cs, c.denom).Some?
    ensures Lowered(Add(cs, c), c.denom, c.amount) == cs
  {
    hide Sorted, Add, With, Without, Find;
    var i := FirstIndex(cs, c.denom);
    FindAt(cs, c.denom, i);
    AddSame(cs, c, i);
    var more := Add(cs, c);
    FindAt(more, c.denom, i);
    WithAt(more, cs[i], i);
    assert more[i := cs[i]] == cs;
  }

  /** Taking away what was just added restores the whole store. */
  lemma {:induction false} DecreaseUndoesIncrease(
      k: Store, grantee: Addr, granter: Addr, port: string, channel: string, c: Coin)
    requires ValidStore(k) && IncreaseAllowance(k, grantee, granter, port, channel, c).Some?
    ensures var k' := IncreaseAllowance(k, grantee, granter, port, channel, c).value;
            DecreaseAllowance(k', grantee, granter, port, channel, c) == Some(k)
  {
    hide Sorted, FirstMatch, Find, Add, LowerFrom, Lowered, Once, Positive, With, Without, AmountOf;
    var g := GetAuthorization(k, grantee, granter).value;
    var als := g.auth;
    assert ValidAllocations(als);
    var i := FirstMatch(als, port, channel, 0);
    var limit := als[i].limit;
    var more := Add(limit, c);
    AddSpec(limit, c);
    IncreasedFound(limit, c);
    FirstMatchWith(als, i, more, port, channel, 0);
    SortedOnce(more, c.denom);
    LoopLowers(more, c.denom, c.amount);
    LoweredUndoesAdd(limit, c);
    var als', k' := WithLimit(als, i, more), IncreaseAllowance(k, grantee, granter, port, channel, c).value;
    assert GetAuthorization(k', grantee, granter) == Some(Grant(als', g.expiration));
    assert Check(als', port, channel, c.denom) == Some((Coin(c.denom, AmountOf(limit, c.denom) + c.amount), i));
    assert WithLimit(als', i, limit) == als;
    assert k'.grants[(grantee, granter) := Grant(als, g.expiration)] == k.grants;
  }

  lemma {:induction false} IncreasedFound(limit: Limit, c: Coin)
    requires Sorted(limit) && Positive(limit) && Find(limit, c.denom).Some?
    ensures Find(Add(limit, c), c.denom) == Some(Coin(c.denom, AmountOf(limit, c.denom) + c.amount))
  {
    hide Sorted, Add, Find;
    var i := FirstIndex(limit, c.denom);
    FindAt(limit, c.denom, i);
    AddSame(limit, c, i);
    FindAt(Add(limit, c), c.denom, i);
  }

  // ---------------------------------------------------------------- as it runs

  class TransferGrants {
    var store: Store

    constructor (store: Store)
      ensures this.store == store
    {
      this.store := store;
    }

    method Save(grantee: Addr, granter: Addr, als: seq<Allocation>, expiration: Option<int>) returns (ok: bool)
      modifies this
      ensures var r := SaveGrant(old(store), grantee, granter, als, expiration);
              ok == r.Some? && store == if ok then r.value else old(store)
    {
      var r := SaveGrant(store, grantee, granter, als, expiration);
      ok := r.Some?;
      if ok { store := r.value; }
    }

    method Increase(grantee: Addr, granter: Addr, port: string, channel: string, c: Coin) returns (ok: bool)
      modifies this
      ensures var r := IncreaseAllowance(old(store), grantee, granter, port, channel, c);
              ok == r.Some? && store == if ok then r.value else old(store)
    {
      hide Check;
      var g := GetAuthorization(store, grantee, granter);
      if g == None { return false; }
      var found := CheckAllocationExists(g.value.auth, port, channel, c.denom);
      if found == None || found.value.0.amount + c.amount >= TWO_256 { return false; }
      var i := found.value.1;
      ok := Save(grantee, granter, WithLimit(g.value.auth, i, Add(g.value.auth[i].limit, c)), g.value.expiration);
    }

    /** The spend limit is edited in an array of its own, the decoded grant's. */
    method Decrease(grantee: Addr, granter: Addr, port: string, channel: string, c: Coin) returns (ok: bool)
      modifies this
      ensures var r := DecreaseAllowance(old(store), grantee, granter, port, channel, c);
              ok == r.Some? && store == if ok then r.value else old(store)
    {
      hide Check, LowerFrom;
      var g := GetAuthorization(store, grantee, granter);
      if g == None { return false; }
      var found := CheckAllocationExists(g.value.auth, port, channel, c.denom);
      if found == None || found.value.0.amount < c.amount { return false; }
      var i := found.value.1;
      var limit := g.value.auth[i].limit;
      var a := new Coin[|limit|](j requires 0 <= j < |limit| => limit[j]);
      assert a[..] == limit;
      var done, n := LowerInPlace(a, c.denom, c.amount);
      if !done { return false; }
      ok := Save(grantee, granter, WithLimit(g.value.auth, i, a[..n]), g.value.expiration);
    }
  }
}
