/** The reference for ERC-20 allowances: a ledger of plain numbers with its own expiry per
    pair of accounts and its own clock. The grant store of the precompile
    (precompiles/erc20/approve.go) refines it over any run. */
module Erc20Ledger {
  import opened Options
  import opened Coins
  import opened Authz
  import opened Erc20Allowance

  /** Allowances by owner, spender and denomination; pairs with allowances and when these
      expire, if ever; the time. */
  datatype Ledger = Ledger(
    amounts: map<(Addr, Addr, string), nat>, until: map<(Addr, Addr), Option<int>>, now: int)

  predicate Live(m: Ledger, owner: Addr, spender: Addr) {
    && (owner, spender) in m.until
    && (m.until[(owner, spender)].Some? ==> m.until[(owner, spender)].value >= m.now)
  }

  /** Live for the last time. */
  predicate Due(m: Ledger, owner: Addr, spender: Addr) {
    Live(m, owner, spender) && m.until[(owner, spender)] == Some(m.now)
  }

  function Entry(m: Ledger, owner: Addr, spender: Addr, denom: string): nat {
    if Live(m, owner, spender) && (owner, spender, denom) in m.amounts then m.amounts[(owner, spender, denom)] else 0
  }

  ghost predicate NoOther(m: Ledger, owner: Addr, spender: Addr, denom: string) {
    forall d :: d != denom ==> Entry(m, owner, spender, d) == 0
  }

  /** Everything but the allowances of one pair. */
  function Forget(m: Ledger, owner: Addr, spender: Addr): map<(Addr, Addr, string), nat> {
    map key | key in m.amounts && (key.0, key.1) != (owner, spender) :: m.amounts[key]
  }

  /** Sets an allowance. The first of a pair lives for the token's lifetime, the last one
      ends the pair, and in between the expiry stays. */
  ghost function Put(m: Ledger, t: Token, owner: Addr, spender: Addr, n: nat): Ledger {
    var pair, key := (owner, spender), (owner, spender, t.denom);
    if !Live(m, owner, spender) then
      if n == 0 then m
      else m.(amounts := Forget(m, owner, spender)[key := n], until := m.until[pair := Some(m.now + t.lifetime)])
    else if n == 0 && NoOther(m, owner, spender, t.denom) then
      m.(amounts := Forget(m, owner, spender), until := m.until - {pair})
    else m.(amounts := m.amounts[key := n])
  }

  /** The calls. They follow EIP-20, except that an owner cannot approve himself, that
      approving 0 is refused while only other tokens are approved, and that a pair that is
      due can be ended but no longer changed. */
  ghost function LedgerDo(m: Ledger, c: Call): Option<Ledger> {
    var o, s, t := c.owner, c.spender, c.token;
    var was, due, sole := Entry(m, o, s, t.denom), Due(m, o, s), NoOther(m, o, s, t.denom);
    if o == s then None
    else
      match c.op
      case Approving =>
        if !Live(m, o, s) || (if c.amount > 0 then !due else was > 0 && (sole || !due))
        then Some(Put(m, t, o, s, c.amount)) else None
      case Increasing =>
        if 0 < c.amount && was + c.amount < TWO_256 && !due then Some(Put(m, t, o, s, was + c.amount)) else None
      case Decreasing =>
        if 0 < c.amount <= was && ((c.amount == was && sole) || !due)
        then Some(Put(m, t, o, s, was - c.amount)) else None
  }

  ghost function LedgerAfter(m: Ledger, e: Event): Ledger {
    match e
    case Called(c) => (var r := LedgerDo(m, c); if r == None then m else r.value)
    case Passes(n) => m.(now := m.now + n)
  }

  ghost function LedgerRun(m: Ledger, events: seq<Event>): Ledger {
    if events == [] then m else LedgerAfter(LedgerRun(m, events[..|events| - 1]), events[|events| - 1])
  }

  // ------------------------------------------------------------------ refinement

  /** The store shows the ledger's numbers and expiries at the ledger's time. A pair is live
      only while something is approved. */
  ghost predicate Refines(k: Store, m: Ledger) {
    && k.now == m.now
    && (forall o: Addr, s: Addr, d :: o != s ==> Allowance(k, o, s, d) == Entry(m, o, s, d))
    && (forall o: Addr, s: Addr :: o != s ==>
          Expiration(k, o, s) == if Live(m, o, s) then Some(m.until[(o, s)]) else None)
  }

  lemma {:induction false} PutEntry(
      m: Ledger, t: Token, owner: Addr, spender: Addr, n: nat, o: Addr, s: Addr, d: string)
    requires t.lifetime > 0
    ensures Entry(Put(m, t, owner, spender, n), o, s, d)
            == if (o, s, d) == (owner, spender, t.denom) then n else Entry(m, o, s, d)
  {
  }

  lemma {:induction false} PutUntil(m: Ledger, t: Token, owner: Addr, spender: Addr, n: nat, o: Addr, s: Addr)
    requires t.lifetime > 0
    ensures var m' := Put(m, t, owner, spender, n);
            && m'.now == m.now
            && (if (o, s) != (owner, spender) then
                  Live(m', o, s) == Live(m, o, s) && (Live(m, o, s) ==> m'.until[(o, s)] == m.until[(o, s)])
                else if !Live(m, o, s) then
                  Live(m', o, s) == (n > 0) && (n > 0 ==> m'.until[(o, s)] == Some(m.now + t.lifetime))
                else if n == 0 && NoOther(m, o, s, t.denom) then !Live(m', o, s)
                else Live(m', o, s) && m'.until[(o, s)] == m.until[(o, s)])
  {
    hide NoOther, Forget;
  }

  /** The store and the ledger agree on what the conditions speak of. */
  lemma {:induction false} SameConditions(k: Store, m: Ledger, owner: Addr, spender: Addr, denom: string)
    requires ValidStore(k) && Refines(k, m) && owner != spender
    ensures AnyAllowance(k, owner, spender) <==> Live(m, owner, spender)
    ensures OnlyAllowance(k, owner, spender, denom) <==> NoOther(m, owner, spender, denom)
    ensures Expiring(k, spender, owner) <==> Due(m, owner, spender)
    ensures Allowance(k, owner, spender, denom) == Entry(m, owner, spender, denom)
  {
    Visible(k, owner, spender);
    assert Expiration(k, owner, spender) == if Live(m, owner, spender) then Some(m.until[(owner, spender)]) else None;
    hide Allowance, Entry, AnyAllowance, Live, ValidStore;
    assert forall d :: Allowance(k, owner, spender, d) == Entry(m, owner, spender, d);
  }

  /** Setting an allowance in the store is setting it in the ledger. */
  lemma {:induction false} SetsRefine(k: Store, k': Store, m: Ledger, t: Token, owner: Addr, spender: Addr, n: nat)
    requires ValidStore(k) && Refines(k, m) && Sets(k, k', t, owner, spender, n) && owner != spender && t.lifetime > 0
    ensures Refines(k', Put(m, t, owner, spender, n))
  {
    SameConditions(k, m, owner, spender, t.denom);
    hide Allowance, Entry, AnyAllowance, OnlyAllowance, NoOther, Live, ValidStore, Put, Expiration;
    var m' := Put(m, t, owner, spender, n);
    forall o: Addr, s: Addr, d | o != s ensures Allowance(k', o, s, d) == Entry(m', o, s, d) {
      PutEntry(m, t, owner, spender, n, o, s, d);
      assert Allowance(k, o, s, d) == Entry(m, o, s, d);
    }
    forall o: Addr, s: Addr | o != s
      ensures Expiration(k', o, s) == if Live(m', o, s) then Some(m'.until[(o, s)]) else None
    {
      PutUntil(m, t, owner, spender, n, o, s);
      assert Expiration(k, o, s) == if Live(m, o, s) then Some(m.until[(o, s)]) else None;
    }
    PutUntil(m, t, owner, spender, n, owner, spender);
  }

  /** What the token's allowance is after a call that succeeds. */
  function Target(was: nat, c: Call): nat {
    match c.op
    case Approving => c.amount
    case Increasing => was + c.amount
    case Decreasing => if c.amount <= was then was - c.amount else 0
  }

  lemma {:induction false} DoSets(k: Store, c: Call)
    requires ValidStore(k) && c.token.lifetime > 0 && Do(k, c).Some?
    ensures c.owner != c.spender
    ensures var n := Target(Allowance(k, c.owner, c.spender, c.token.denom), c);
            Sets(k, Do(k, c).value, c.token, c.owner, c.spender, n)
  {
    hide Sets, ValidStore, Approve, IncreaseAllowance, DecreaseAllowance, Expiring;
    hide AnyAllowance, OnlyAllowance, Allowance;
    var t, o, s := c.token, c.owner, c.spender;
    match c.op
    case Approving => ApproveSpec(k, t, o, s, c.amount);
    case Increasing => IncreaseSpec(k, t, o, s, c.amount);
    case Decreasing => DecreaseSpec(k, t, o, s, c.amount);
  }

  lemma {:induction false} SameSuccess(k: Store, m: Ledger, c: Call)
    requires ValidStore(k) && Refines(k, m) && c.token.lifetime > 0
    ensures Do(k, c).Some? <==> LedgerDo(m, c).Some?
    ensures var was := Entry(m, c.owner, c.spender, c.token.denom);
            LedgerDo(m, c).Some? ==> LedgerDo(m, c) == Some(Put(m, c.token, c.owner, c.spender, Target(was, c)))
  {
    var t, o, s := c.token, c.owner, c.spender;
    if o != s { SameConditions(k, m, o, s, t.denom); }
    hide Sets, Refines, ValidStore, Approve, IncreaseAllowance, DecreaseAllowance, Expiring, Put;
    hide AnyAllowance, OnlyAllowance, NoOther, Live, Due, Allowance, Entry;
    match c.op
    case Approving => ApproveSpec(k, t, o, s, c.amount);
    case Increasing => IncreaseSpec(k, t, o, s, c.amount);
    case Decreasing => DecreaseSpec(k, t, o, s, c.amount);
  }

  /** A call succeeds on the grant store exactly when it does on the ledger, and then has
      the same effect. */
  lemma {:induction false} CallRefines(k: Store, m: Ledger, c: Call)
    requires ValidStore(k) && Refines(k, m) && c.token.lifetime > 0
    ensures Do(k, c).Some? <==> LedgerDo(m, c).Some?
    ensures Do(k, c).Some? ==> Refines(Do(k, c).value, LedgerDo(m, c).value)
  {
    hide Sets, Refines, ValidStore, Do, LedgerDo, Put, Allowance, Entry, Target;
    SameSuccess(k, m, c);
    if Do(k, c).Some? {
      DoSets(k, c);
      SameConditions(k, m, c.owner, c.spender, c.token.denom);
      var n := Target(Allowance(k, c.owner, c.spender, c.token.denom), c);
      SetsRefine(k, Do(k, c).value, m, c.token, c.owner, c.spender, n);
    }
  }

  /** As time passes the store forgets a pair exactly when the ledger's expiry is over. */
  lemma {:induction false} PassesRefine(k: Store, m: Ledger, n: nat)
    requires Refines(k, m)
    ensures Refines(k.(now := k.now + n), m.(now := m.now + n))
  {
    hide AmountOf;
    var k', m' := k.(now := k.now + n), m.(now := m.now + n);
    forall o: Addr, s: Addr, d | o != s
      ensures Allowance(k', o, s, d) == Entry(m', o, s, d)
      ensures Expiration(k', o, s) == if Live(m', o, s) then Some(m'.until[(o, s)]) else None
    {
      assert Allowance(k, o, s, d) == Entry(m, o, s, d);
      assert Expiration(k, o, s) == if Live(m, o, s) then Some(m.until[(o, s)]) else None;
    }
    assert forall o: Addr, s: Addr :: o != s ==>
      Allowance(k', o, s, "") == Entry(m', o, s, "")
      && Expiration(k', o, s) == if Live(m', o, s) then Some(m'.until[(o, s)]) else None;
  }

  lemma {:induction false} EventRefines(k: Store, m: Ledger, e: Event)
    requires ValidStore(k) && Refines(k, m) && (e.Called? ==> e.call.token.lifetime > 0)
    ensures Refines(AfterEvent(k, e), LedgerAfter(m, e))
  {
    hide ValidStore, Refines, LedgerDo, Do;
    match e
    case Called(c) => CallRefines(k, m, c);
    case Passes(t) =>
      RefinesTime(k, m);
      PassesRefine(k, m, t);
  }

  /** Over any sequence of calls by any accounts on any tokens, with any time between
      them, the grant store refines the ledger, which is run on its own. */
  lemma {:induction false} StoreRefinesLedger(k: Store, m: Ledger, events: seq<Event>)
    requires ValidStore(k) && Refines(k, m) && LivingTokens(events)
    ensures ValidStore(Run(k, events)) && Refines(Run(k, events), LedgerRun(m, events))
  {
    RunValid(k, events);
    hide ValidStore, Refines, AfterEvent, LedgerAfter;
    if events != [] {
      var n := |events| - 1;
      StoreRefinesLedger(k, m, events[..n]);
      EventRefines(Run(k, events[..n]), LedgerRun(m, events[..n]), events[n]);
    }
  }

  lemma {:induction false} RefinesTime(k: Store, m: Ledger)
    requires Refines(k, m)
    ensures k.now == m.now
  {
  }

  lemma {:induction false} FreshStore(now: int)
    ensures var k := Keeper(map[], now); ValidStore(k) && Refines(k, Ledger(map[], map[], now))
  {
  }
}
