/** The authz keeper the allowance precompiles store their grants in, as a map with the
    block time: expired grants are not found, and a grant is only saved with an
    expiration in the future. */
module Authz {
  import opened Options

  type Addr = nat

  datatype Grant<A> = Grant(auth: A, expiration: Option<int>)

  /** Grants by grantee and granter. */
  datatype Keeper<A> = Keeper(grants: map<(Addr, Addr), Grant<A>>, now: int)

  function GetAuthorization<A>(k: Keeper<A>, grantee: Addr, granter: Addr): Option<Grant<A>> {
    if (grantee, granter) !in k.grants then None
    else
      var g := k.grants[(grantee, granter)];
      if g.expiration.Some? && g.expiration.value < k.now then None else Some(g)
  }

  function SaveGrant<A>(
      k: Keeper<A>, grantee: Addr, granter: Addr, auth: A, expiration: Option<int>): Option<Keeper<A>> {
    if expiration.Some? && expiration.value <= k.now then None
    else Some(k.(grants := k.grants[(grantee, granter) := Grant(auth, expiration)]))
  }

  function DeleteGrant<A>(k: Keeper<A>, grantee: Addr, granter: Addr): Option<Keeper<A>> {
    if (grantee, granter) !in k.grants then None else Some(k.(grants := k.grants - {(grantee, granter)}))
  }

  /** A grant that is still found but can no longer be saved. */
  predicate Expiring<A>(k: Keeper<A>, grantee: Addr, granter: Addr) {
    var g := GetAuthorization(k, grantee, granter);
    g.Some? && g.value.expiration == Some(k.now)
  }
}
