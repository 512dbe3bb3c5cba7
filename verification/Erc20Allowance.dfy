/** ERC-20 allowances of the erc20 precompile (precompiles/erc20/approve.go): one authz
    grant of a pair of accounts holds the allowances of all tokens, as a sorted coin
    list. */
module Erc20Allowance {
  import opened Options
  import opened Coins
  import opened Authz

  type Store = Keeper<Limit>

  /** A token's precompile: its denomination and how long its new grants live. */
  datatype Token = Token(denom: string, lifetime: nat)

  type uint256 = x: int | 0 <= x < TWO_256

  // ------------------------------------------------------------------ operations

  /** updateOrAddCoin. */
  function UpdateOrAdd(cs: Limit, c: Coin): Limit {
    if Find(cs, c.denom).Some? then With(cs, c) else Add(cs, c)
  }

  /** SendAuthorization.ValidateBasic. */
  predicate ValidateBasic(cs: Limit) {
    cs != [] && Positive(cs)
  }

  function Create(k: Store, t: Token, owner: Addr, spender: Addr, amount: nat): Option<Store> {
    if amount >= TWO_256 then None
    else
      var cs := [Coin(t.denom, amount)];
      if !ValidateBasic(cs) then None else SaveGrant(k, spender, owner, cs, Some(k.now + t.lifetime))
  }

  function Update(k: Store, t: Token, owner: Addr, spender: Addr, amount: nat, g: Grant<Limit>): Option<Store> {
    var cs := UpdateOrAdd(g.auth, Coin(t.denom, amount));
    if !ValidateBasic(cs) then None else SaveGrant(k, spender, owner, cs, g.expiration)
  }

  function RemoveOrDelete(k: Store, t: Token, owner: Addr, spender: Addr, g: Grant<Limit>): Option<Store> {
    if Find(g.auth, t.denom) == None then None
    else
      var cs := Without(g.auth, t.denom);
      if cs == [] then DeleteGrant(k, spender, owner) else SaveGrant(k, spender, owner, cs, g.expiration)
  }

  function Approve(k: Store, t: Token, owner: Addr, spender: Addr, amount: uint256): Option<Store> {
    if spender == owner then None
    else
      match GetAuthorization(k, spender, owner)
      case None => if amount > 0 then Create(k, t, owner, spender, amount) else Some(k)
      case Some(g) =>
        if amount > 0 then Update(k, t, owner, spender, amount, g) else RemoveOrDelete(k, t, owner, spender, g)
  }

  function IncreaseAllowance(k: Store, t: Token, owner: Addr, spender: Addr, added: uint256): Option<Store> {
    if spender == owner || added == 0 then None
    else
      match GetAuthorization(k, spender, owner)
      case None => Create(k, t, owner, spender, added)
      case Some(g) =>
        var sum := AmountOf(g.auth, t.denom) + added;
        if sum >= TWO_256 then None else Update(k, t, owner, spender, sum, g)
  }

  function DecreaseAllowance(k: Store, t: Token, owner: Addr, spender: Addr, subtracted: uint256): Option<Store> {
    if spender == owner || subtracted == 0 then None
    else
      match GetAuthorization(k, spender, owner)
      case None => None
      case Some(g) =>
        var allowance := AmountOf(g.auth, t.denom);
        if subtracted < allowance then Update(k, t, owner, spender, allowance - subtracted, g)
        else if subtracted == allowance then RemoveOrDelete(k, t, owner, spender, g)
        else None
  }

  /** The allowance query; the owner's own allowance is without limit. */
  function Allowance(k: Store, owner: Addr, spender: Addr, denom: string): nat {
    if owner == spender then TWO_256 - 1
    else
      match GetAuthorization(k, spender, owner)
      case None => 0
      case Some(g) => AmountOf(g.auth, denom)
  }

  // ------------------------------------------------------------------- invariant

  ghost predicate ValidLimit(cs: Limit) {
    cs != [] && Sorted(cs) && Positive(cs)
  }

  /** Every stored spend limit is non-empty, strictly sorted and positive. */
  ghost predicate ValidStore(k: Store) {
    forall p :: p in k.grants ==> ValidLimit(k.grants[p].auth)
  }

  /** Whether anything at all is approved between the two. */
  ghost predicate AnyAllowance(k: Store, owner: Addr, spender: Addr) {
    exists d :: Allowance(k, owner, spender, d) > 0
  }

  /** Whether this is the only token approved between the two. */
  ghost predicate OnlyAllowance(k: Store, owner: Addr, spender: Addr, denom: string) {
    forall d :: d != denom ==> Allowance(k, owner, spender, d) == 0
  }

  /** When the allowances of the two expire, if there are any. */
  function Expiration(k: Store, owner: Addr, spender: Addr): Option<Option<int>> {
    match GetAuthorization(k, spender, owner)
    case None => None
    case Some(g) => Some(g.expiration)
  }

  /** `k'` differs from `k` in one allowance, which is `amount`, and in the expiration of
      that pair, which is `until`. */
  ghost predicate Changes(
      k: Store, k': Store, owner: Addr, spender: Addr, denom: string, amount: nat, until: Option<Option<int>>)
  {
    && k'.now == k.now && ValidStore(k')
    && (forall o: Addr, s: Addr, d ::
          Allowance(k', o, s, d) == if (o, s, d) == (owner, spender, denom) then amount else Allowance(k, o, s, d))
    && (forall o: Addr, s: Addr ::
          Expiration(k', o, s) == if (o, s) == (owner, spender) then until else Expiration(k, o, s))
  }

  /** The pair's expiration once the token's allowance is `amount`: a first allowance
      lives for the token's lifetime, the last one takes the grant with it, and in
      between the expiration stays. */
  ghost function NextExpiration(k: Store, t: Token, owner: Addr, spender: Addr, amount: nat): Option<Option<int>> {
    if !AnyAllowance(k, owner, spender) then if amount > 0 then Some(Some(k.now + t.lifetime)) else None
    else if amount == 0 && OnlyAllowance(k, owner, spender, t.denom) then None
    else Expiration(k, owner, spender)
  }

  ghost predicate Sets(k: Store, k': Store, t: Token, owner: Addr, spender: Addr, amount: nat) {
    Changes(k, k', owner, spender, t.denom, amount, NextExpiration(k, t, owner, spender, amount))
  }

  // ------------------------------------------------- what the shared helpers change

  /** Saving a valid limit: the pair's allowances are read off it. */
  lemma {:induction false} SaveChanges(
      k: Store, owner: Addr, spender: Addr, cs: Limit, exp: Option<int>, denom: string, amount: nat)
    requires ValidStore(k) && ValidLimit(cs) && owner != spender && SaveGrant(k, spender, owner, cs, exp).Some?
    requires forall d :: AmountOf(cs, d) == if d == denom then amount else Allowance(k, owner, spender, d)
    ensures Changes(k, SaveGrant(k, spender, owner, cs, exp).value, owner, spender, denom, amount, Some(exp))
  {
    hide AmountOf, ValidLimit;
  }

  /** A grant that is found holds a valid limit with some allowance. */
  lemma {:induction false} Visible(k: Store, owner: Addr, spender: Addr)
    requires ValidStore(k) && owner != spender
    ensures var g := GetAuthorization(k, spender, owner);
            && (g.Some? <==> AnyAllowance(k, owner, spender))
            && (g.Some? ==> ValidLimit(g.value.auth))
  {
    var g := GetAuthorization(k, spender, owner);
    if g.Some? {
      var cs := g.value.auth;
      assert ValidLimit(cs);
      assert AmountOf(cs, cs[0].denom) == cs[0].amount;
      assert Allowance(k, owner, spender, cs[0].denom) > 0;
    }
  }

  lemma {:induction false} CreateChanges(k: Store, t: Token, owner: Addr, spender: Addr, amount: uint256)
    requires ValidStore(k) && owner != spender && t.lifetime > 0 && amount > 0
    requires GetAuthorization(k, spender, owner) == None
    ensures var r := Create(k, t, owner, spender, amount);
            r.Some? && Changes(k, r.value, owner, spender, t.denom, amount, Some(Some(k.now + t.lifetime)))
  {
    hide Changes;
    var c := Coin(t.denom, amount);
    forall d ensures AmountOf([c], d) == if d == t.denom then amount else Allowance(k, owner, spender, d) {
      assert [c][1..] == [] && Find([], d) == None;
      assert Find([c], d) == if d == t.denom then Some(c) else None;
    }
    SaveChanges(k, owner, spender, [c], Some(k.now + t.lifetime), t.denom, amount);
  }

  lemma {:induction false} UpdateOrAddSpec(cs: Limit, c: Coin)
    requires ValidLimit(cs) && c.amount > 0
    ensures ValidLimit(UpdateOrAdd(cs, c))
    ensures forall d :: AmountOf(UpdateOrAdd(cs, c), d) == if d == c.denom then c.amount else AmountOf(cs, d)
  {
    hide Sorted, Find, With, Add, Positive;
    FindPositive(cs, c.denom);
    if Find(cs, c.denom).Some? {
      WithSpec(cs, c);
      forall d ensures AmountOf(With(cs, c), d) == if d == c.denom then c.amount else AmountOf(cs, d) {
        WithAmount(cs, c, d);
      }
    } else {
      AddSpec(cs, c);
      forall d ensures AmountOf(Add(cs, c), d) == if d == c.denom then c.amount else AmountOf(cs, d) {
        AddAmount(cs, c, d);
      }
    }
  }

  /** An update to a positive amount fails exactly for a grant that is just expiring. */
  lemma {:induction false} UpdateChanges(k: Store, t: Token, owner: Addr, spender: Addr, amount: nat)
    requires ValidStore(k) && owner != spender && amount > 0 && GetAuthorization(k, spender, owner).Some?
    ensures var r := Update(k, t, owner, spender, amount, GetAuthorization(k, spender, owner).value);
            && (r.Some? <==> !Expiring(k, spender, owner))
            && (r.Some? ==> Changes(k, r.value, owner, spender, t.denom, amount, Expiration(k, owner, spender)))
  {
    hide Changes, UpdateOrAdd, AmountOf;
    Visible(k, owner, spender);
    var g := GetAuthorization(k, spender, owner).value;
    var c := Coin(t.denom, amount);
    UpdateOrAddSpec(g.auth, c);
    if !Expiring(k, spender, owner) {
      SaveChanges(k, owner, spender, UpdateOrAdd(g.auth, c), g.expiration, t.denom, amount);
    }
  }

  lemma {:induction false} DeleteChanges(k: Store, owner: Addr, spender: Addr, denom: string)
    requires ValidStore(k) && owner != spender && (spender, owner) in k.grants
    requires OnlyAllowance(k, owner, spender, denom)
    ensures Changes(k, DeleteGrant(k, spender, owner).value, owner, spender, denom, 0, None)
  {
    hide AmountOf, ValidLimit;
  }

  lemma {:induction false} SoleCoin(cs: Limit, denom: string)
    requires ValidLimit(cs) && Find(cs, denom).Some?
    ensures Without(cs, denom) == [] <==> forall d :: d != denom ==> AmountOf(cs, d) == 0
    ensures Without(cs, denom) != [] ==> ValidLimit(Without(cs, denom))
    ensures forall d :: AmountOf(Without(cs, denom), d) == if d == denom then 0 else AmountOf(cs, d)
  {
    hide Sorted;
    WithoutSpec(cs, denom);
    forall d ensures AmountOf(Without(cs, denom), d) == if d == denom then 0 else AmountOf(cs, d) {
      WithoutAmount(cs, denom, d);
    }
    var rest := Without(cs, denom);
    if rest != [] { assert AmountOf(rest, rest[0].denom) == rest[0].amount > 0; }
  }

  /** Removal succeeds exactly when there is an allowance, and either it is the last one
      of the pair or the grant is not just expiring. */
  lemma {:induction false} RemoveChanges(k: Store, t: Token, owner: Addr, spender: Addr)
    requires ValidStore(k) && owner != spender && GetAuthorization(k, spender, owner).Some?
    ensures var r := RemoveOrDelete(k, t, owner, spender, GetAuthorization(k, spender, owner).value);
            && (r.Some? <==> && Allowance(k, owner, spender, t.denom) > 0
                             && (OnlyAllowance(k, owner, spender, t.denom) || !Expiring(k, spender, owner)))
            && (r.Some? ==>
                  Changes(k, r.value, owner, spender, t.denom, 0,
                          if OnlyAllowance(k, owner, spender, t.denom) then None else Expiration(k, owner, spender)))
  {
    hide Changes, Without, AmountOf, Find;
    Visible(k, owner, spender);
    var g := GetAuthorization(k, spender, owner).value;
    FoundAmount(g.auth, t.denom);
    if Find(g.auth, t.denom).Some? {
      SoleCoin(g.auth, t.denom);
      var cs := Without(g.auth, t.denom);
      assert forall d :: Allowance(k, owner, spender, d) == AmountOf(g.auth, d);
      assert OnlyAllowance(k, owner, spender, t.denom) <==> cs == [];
      if cs == [] {
        DeleteChanges(k, owner, spender, t.denom);
      } else if !Expiring(k, spender, owner) {
        SaveChanges(k, owner, spender, cs, g.expiration, t.denom, 0);
      }
    }
  }

  lemma {:induction false} FoundAmount(cs: Limit, denom: string)
    requires ValidLimit(cs)
    ensures Find(cs, denom).Some? <==> AmountOf(cs, denom) > 0
  {
    FindPositive(cs, denom);
  }

  // --------------------------------------------------------- the three operations

  /** Approve sets one allowance. It is refused for the owner, for a grant that is just
      expiring, and for 0 when the pair has allowances but none in this token. */
  lemma {:induction false} ApproveSpec(k: Store, t: Token, owner: Addr, spender: Addr, amount: uint256)
    requires ValidStore(k) && t.lifetime > 0
    ensures var r := Approve(k, t, owner, spender, amount);
            && (r.Some? <==>
                && owner != spender
                && (|| !AnyAllowance(k, owner, spender)
                    || (amount > 0 && !Expiring(k, spender, owner))
                    || (&& amount == 0 && Allowance(k, owner, spender, t.denom) > 0
                        && (OnlyAllowance(k, owner, spender, t.denom) || !Expiring(k, spender, owner)))))
            && (r.Some? ==> Sets(k, r.value, t, owner, spender, amount))
  {
    hide AnyAllowance, OnlyAllowance, Create, Update, RemoveOrDelete, Expiring;
    if owner != spender {
      Visible(k, owner, spender);
      if GetAuthorization(k, spender, owner) == None {
        if amount > 0 { CreateChanges(k, t, owner, spender, amount); }
      } else if amount > 0 {
        UpdateChanges(k, t, owner, spender, amount);
      } else {
        RemoveChanges(k, t, owner, spender);
      }
    }
  }

  /** EIP-20 would let an owner approve 0 at any time. Here, with only token `a` approved,
      approving 0 of token `b` is refused. */
  lemma {:induction false} ApproveZeroRefused(a: Token, b: Token, owner: Addr, spender: Addr, now: int)
    requires owner != spender && a.denom != b.denom && a.lifetime > 0 && b.lifetime > 0
    ensures var k := Approve(Keeper(map[], now), a, owner, spender, 1);
            k.Some? && Approve(k.value, b, owner, spender, 0) == None
  {
    var k0: Store := Keeper(map[], now);
    assert Allowance(k0, owner, spender, b.denom) == 0;
    assert !AnyAllowance(k0, owner, spender);
    ApproveSpec(k0, a, owner, spender, 1);
    var k := Approve(k0, a, owner, spender, 1).value;
    hide Approve, OnlyAllowance, Expiring, Allowance, ValidStore;
    assert Allowance(k, owner, spender, a.denom) == 1;
    assert Allowance(k, owner, spender, b.denom) == 0;
    ApproveSpec(k, b, owner, spender, 0);
  }

  /** IncreaseAllowance adds to one allowance: it succeeds exactly for a positive value
      whose sum fits 256 bits, unless the grant is just expiring. */
  lemma {:induction false} IncreaseSpec(k: Store, t: Token, owner: Addr, spender: Addr, added: uint256)
    requires ValidStore(k) && t.lifetime > 0
    ensures var r := IncreaseAllowance(k, t, owner, spender, added);
            var sum := Allowance(k, owner, spender, t.denom) + added;
            && (r.Some? <==> owner != spender && added > 0 && sum < TWO_256 && !Expiring(k, spender, owner))
            && (r.Some? ==> Sets(k, r.value, t, owner, spender, sum))
  {
    hide Changes, Create, Update, AnyAllowance, OnlyAllowance;
    if owner != spender { Visible(k, owner, spender); }
    if owner != spender && added > 0 {
      if GetAuthorization(k, spender, owner) == None {
        CreateChanges(k, t, owner, spender, added);
      } else if Allowance(k, owner, spender, t.denom) + added < TWO_256 {
        UpdateChanges(k, t, owner, spender, Allowance(k, owner, spender, t.denom) + added);
      }
    }
  }

  /** DecreaseAllowance takes from one allowance: it succeeds exactly for a positive value
      up to the allowance, unless the grant is just expiring and would have to be kept. */
  lemma {:induction false} DecreaseSpec(k: Store, t: Token, owner: Addr, spender: Addr, subtracted: uint256)
    requires ValidStore(k)
    ensures var r := DecreaseAllowance(k, t, owner, spender, subtracted);
            var allowance := Allowance(k, owner, spender, t.denom);
            && (r.Some? <==>
                && owner != spender && 0 < subtracted <= allowance
                && (|| (subtracted == allowance && OnlyAllowance(k, owner, spender, t.denom))
                    || !Expiring(k, spender, owner)))
            && (r.Some? ==> Sets(k, r.value, t, owner, spender, allowance - subtracted))
  {
    hide Changes, Update, RemoveOrDelete, AnyAllowance, OnlyAllowance, Expiring;
    if owner != spender { Visible(k, owner, spender); }
    if owner != spender && 0 < subtracted && GetAuthorization(k, spender, owner).Some? {
      var allowance := Allowance(k, owner, spender, t.denom);
      if subtracted < allowance {
        UpdateChanges(k, t, owner, spender, allowance - subtracted);
      } else if subtracted == allowance {
        RemoveChanges(k, t, owner, spender);
      }
    }
  }

  // --------------------------------------------------------------- runs of calls

  datatype Op = Approving | Increasing | Decreasing

  datatype Call = Call(op: Op, token: Token, owner: Addr, spender: Addr, amount: uint256)

  function Do(k: Store, c: Call): Option<Store> {
    match c.op
    case Approving => Approve(k, c.token, c.owner, c.spender, c.amount)
    case Increasing => IncreaseAllowance(k, c.token, c.owner, c.spender, c.amount)
    case Decreasing => DecreaseAllowance(k, c.token, c.owner, c.spender, c.amount)
  }

  /** A failing call changes nothing. */
  function Try(k: Store, c: Call): Store {
    var r := Do(k, c);
    if r.Some? then r.value else k
  }

  /** Calls of any accounts on any tokens, and time passing between them. */
  datatype Event = Called(call: Call) | Passes(seconds: nat)

  function AfterEvent(k: Store, e: Event): Store {
    match e
    case Called(c) => Try(k, c)
    case Passes(n) => k.(now := k.now + n)
  }

  function Run(k: Store, events: seq<Event>): Store {
    if events == [] then k else AfterEvent(Run(k, events[..|events| - 1]), events[|events| - 1])
  }

  predicate LivingTokens(events: seq<Event>) {
    forall i :: 0 <= i < |events| && events[i].Called? ==> events[i].call.token.lifetime > 0
  }

  lemma {:induction false} TryValid(k: Store, c: Call)
    requires ValidStore(k) && c.token.lifetime > 0
    ensures ValidStore(Try(k, c)) && Try(k, c).now == k.now
  {
    hide ValidStore, Approve, IncreaseAllowance, DecreaseAllowance, AnyAllowance, OnlyAllowance, Allowance;
    match c.op
    case Approving => ApproveSpec(k, c.token, c.owner, c.spender, c.amount);
    case Increasing => IncreaseSpec(k, c.token, c.owner, c.spender, c.amount);
    case Decreasing => DecreaseSpec(k, c.token, c.owner, c.spender, c.amount);
  }

  /** Whatever is called in whatever order and time, every spend limit stays non-empty,
      strictly sorted and positive. */
  lemma {:induction false} RunValid(k: Store, events: seq<Event>)
    requires ValidStore(k) && LivingTokens(events)
    ensures ValidStore(Run(k, events))
  {
    hide ValidStore, Do;
    if events != [] {
      var n := |events| - 1;
      RunValid(k, events[..n]);
      match events[n]
      case Called(c) => TryValid(Run(k, events[..n]), c);
      case Passes(m) => TimePasses(Run(k, events[..n]), m);
    }
  }

  /** Time only takes whole grants away; an account's own allowance is always the greatest
      256-bit number. */
  lemma {:induction false} TimePasses(k: Store, n: nat)
    requires ValidStore(k)
    ensures var k' := k.(now := k.now + n);
            && ValidStore(k')
            && forall o: Addr, s: Addr, d :: Allowance(k', o, s, d) == Allowance(k, o, s, d) ||
                                             (Allowance(k', o, s, d) == 0 && !AnyAllowance(k', o, s))
    ensures forall o: Addr, d :: Allowance(k, o, o, d) == TWO_256 - 1
  {
    hide AmountOf;
  }
}
