/** The erc20 precompile's methods as they run, case by case, against a shared authz
    keeper (precompiles/erc20/approve.go, types.go and query.go). */
module Erc20Precompile {
  import opened Options
  import opened Coins
  import opened Authz
  import A = Erc20Allowance

  /** updateOrAddCoin: overwrites the first coin of the denomination, or adds the coin. */
  method UpdateOrAddCoin(coins: Limit, coin: Coin) returns (r: Limit)
    ensures r == A.UpdateOrAdd(coins, coin)
  {
    for idx := 0 to |coins|
      invariant forall j :: 0 <= j < idx ==> coins[j].denom != coin.denom
    {
      if coins[idx].denom == coin.denom {
        FindAt(coins, coin.denom, idx);
        WithAt(coins, coin, idx);
        return coins[idx := coin];
      }
    }
    FindAt(coins, coin.denom, |coins|);
    r := Add(coins, coin);
  }

  class AuthzKeeper {
    var store: A.Store

    constructor (store: A.Store)
      ensures this.store == store
    {
      this.store := store;
    }

    /** Replaces the store when the operation it stands for succeeded. */
    method Commit(r: Option<A.Store>) returns (ok: bool)
      modifies this
      ensures ok == r.Some? && store == if ok then r.value else old(store)
    {
      ok := r.Some?;
      if ok { store := r.value; }
    }
  }

  class Precompile {
    const token: A.Token
    const keeper: AuthzKeeper

    constructor (token: A.Token, keeper: AuthzKeeper)
      ensures this.token == token && this.keeper == keeper
    {
      this.token, this.keeper := token, keeper;
    }

    method CreateAuthorization(owner: Addr, spender: Addr, amount: nat) returns (ok: bool)
      modifies keeper
      ensures var r := A.Create(old(keeper.store), token, owner, spender, amount);
              ok == r.Some? && keeper.store == if ok then r.value else old(keeper.store)
    {
      if amount >= TWO_256 { return false; }
      var coins := [Coin(token.denom, amount)];
      var expiration := keeper.store.now + token.lifetime;
      if !A.ValidateBasic(coins) { return false; }
      ok := keeper.Commit(SaveGrant(keeper.store, spender, owner, coins, Some(expiration)));
    }

    method UpdateAuthorization(owner: Addr, spender: Addr, amount: nat, authorization: Limit, expiration: Option<int>)
      returns (ok: bool)
      modifies keeper
      ensures var r := A.Update(old(keeper.store), token, owner, spender, amount, Grant(authorization, expiration));
              ok == r.Some? && keeper.store == if ok then r.value else old(keeper.store)
    {
      var limit := UpdateOrAddCoin(authorization, Coin(token.denom, amount));
      if !A.ValidateBasic(limit) { return false; }
      ok := keeper.Commit(SaveGrant(keeper.store, spender, owner, limit, expiration));
    }

    method RemoveSpendLimitOrDeleteAuthorization(
        owner: Addr, spender: Addr, authorization: Limit, expiration: Option<int>)
      returns (ok: bool)
      modifies keeper
      ensures var r := A.RemoveOrDelete(old(keeper.store), token, owner, spender, Grant(authorization, expiration));
              ok == r.Some? && keeper.store == if ok then r.value else old(keeper.store)
    {
      var found := Find(authorization, token.denom);
      if found == None { return false; }
      var limit := Without(authorization, token.denom);
      if limit == [] {
        ok := keeper.Commit(DeleteGrant(keeper.store, spender, owner));
        return;
      }
      ok := keeper.Commit(SaveGrant(keeper.store, spender, owner, limit, expiration));
    }

    method Approve(caller: Addr, spender: Addr, amount: A.uint256) returns (ok: bool)
      modifies keeper
      ensures var r := A.Approve(old(keeper.store), token, caller, spender, amount);
              ok == r.Some? && keeper.store == if ok then r.value else old(keeper.store)
    {
      hide A.Create, A.Update, A.RemoveOrDelete;
      if spender == caller { return false; }
      var g := GetAuthorization(keeper.store, spender, caller);
      if g == None {
        if amount > 0 {
          ok := CreateAuthorization(caller, spender, amount);
        } else {
          ok := true;
        }
      } else if amount <= 0 {
        ok := RemoveSpendLimitOrDeleteAuthorization(caller, spender, g.value.auth, g.value.expiration);
      } else {
        ok := UpdateAuthorization(caller, spender, amount, g.value.auth, g.value.expiration);
      }
    }

    method IncreaseAllowance(caller: Addr, spender: Addr, added: A.uint256) returns (ok: bool)
      modifies keeper
      ensures var r := A.IncreaseAllowance(old(keeper.store), token, caller, spender, added);
              ok == r.Some? && keeper.store == if ok then r.value else old(keeper.store)
    {
      hide A.Create, A.Update;
      if spender == caller { return false; }
      var g := GetAuthorization(keeper.store, spender, caller);
      if added <= 0 { return false; }
      if g == None {
        ok := CreateAuthorization(caller, spender, added);
      } else {
        var amount := AmountOf(g.value.auth, token.denom) + added;
        if amount >= TWO_256 { return false; }
        ok := UpdateAuthorization(caller, spender, amount, g.value.auth, g.value.expiration);
      }
    }

    method DecreaseAllowance(caller: Addr, spender: Addr, subtracted: A.uint256) returns (ok: bool)
      modifies keeper
      ensures var r := A.DecreaseAllowance(old(keeper.store), token, caller, spender, subtracted);
              ok == r.Some? && keeper.store == if ok then r.value else old(keeper.store)
    {
      hide A.Update, A.RemoveOrDelete;
      if spender == caller { return false; }
      var g := GetAuthorization(keeper.store, spender, caller);
      if subtracted <= 0 || g == None { return false; }
      var allowance := AmountOf(g.value.auth, token.denom);
      if subtracted < allowance {
        ok := UpdateAuthorization(caller, spender, allowance - subtracted, g.value.auth, g.value.expiration);
      } else if subtracted == allowance {
        ok := RemoveSpendLimitOrDeleteAuthorization(caller, spender, g.value.auth, g.value.expiration);
      } else {
        ok := false;
      }
    }
  }
}
