/** Bank movements of the liquid precompile, mirrored into the EVM's journal
    (precompiles/liquid/tx.go and liquid.go, precompiles/common/precompile.go). The EVM
    keeps its own balances; they must end up equal to the bank's. */
module BalanceMirror {
  import opened Options

  type Addr = nat

  type Balances = map<Addr, int>

  function BalanceOf(b: Balances, a: Addr): int {
    if a in b then b[a] else 0
  }

  /** An account with its bank balance sampled before the call. */
  datatype Snapshot = Snapshot(addr: Addr, before: int)

  datatype Op = Sub | Add

  datatype Entry = Entry(account: Addr, amount: int, op: Op)

  // ---------------------------------------------------------------------- replaying

  function Signed(e: Entry): int {
    if e.op == Add then e.amount else -e.amount
  }

  function Replay(b: Balances, es: seq<Entry>): Balances {
    if es == [] then b
    else
      var m, e := Replay(b, es[..|es| - 1]), es[|es| - 1];
      m[e.account := BalanceOf(m, e.account) + Signed(e)]
  }

  /** What entries do to one account in total. */
  function Net(es: seq<Entry>, a: Addr): int {
    if es == [] then 0
    else Net(es[..|es| - 1], a) + if es[|es| - 1].account == a then Signed(es[|es| - 1]) else 0
  }

  lemma {:induction false} ReplayNet(b: Balances, es: seq<Entry>, a: Addr)
    ensures BalanceOf(Replay(b, es), a) == BalanceOf(b, a) + Net(es, a)
  {
    if es != [] { ReplayNet(b, es[..|es| - 1], a); }
  }

  lemma {:induction false} NetCons(e: Entry, es: seq<Entry>, a: Addr)
    ensures Net([e] + es, a) == (if e.account == a then Signed(e) else 0) + Net(es, a)
  {
    var all := [e] + es;
    if es == [] {
      assert all[..|all| - 1] == [];
    } else {
      NetCons(e, es[..|es| - 1], a);
      assert all[..|all| - 1] == [e] + es[..|es| - 1];
    }
  }

  ghost predicate DistinctAccounts(es: seq<Entry>) {
    forall i, j :: 0 <= i < j < |es| ==> es[i].account != es[j].account
  }

  lemma {:induction false} NetAbsent(es: seq<Entry>, a: Addr)
    requires forall i :: 0 <= i < |es| ==> es[i].account != a
    ensures Net(es, a) == 0
  {
    if es != [] { NetAbsent(es[..|es| - 1], a); }
  }

  /** With one entry an account, every prefix has done all of it or nothing. */
  lemma {:induction false} NetPrefix(es: seq<Entry>, j: nat, a: Addr)
    requires j <= |es| && DistinctAccounts(es)
    ensures Net(es[..j], a) == 0 || Net(es[..j], a) == Net(es, a)
  {
    if j == |es| {
      assert es[..j] == es;
    } else {
      var n := |es| - 1;
      NetPrefix(es[..n], j, a);
      assert es[..n][..j] == es[..j];
      if es[n].account == a { NetAbsent(es[..j], a); }
    }
  }

  // ---------------------------------------------------------------------- mirroring

  /** The entry for a balance that went from `before` to `now`. */
  function Delta(a: Addr, before: int, now: int): seq<Entry> {
    if before == now then []
    else if before < now then [Entry(a, now - before, Add)]
    else [Entry(a, before - now, Sub)]
  }

  /** The entries for the snapshots from `i` on, passing over accounts already seen. */
  function MirrorFrom(bank: Balances, snaps: seq<Snapshot>, i: nat, seen: set<Addr>): seq<Entry>
    requires i <= |snaps|
    decreases |snaps| - i
  {
    if i == |snaps| then []
    else
      var s := snaps[i];
      if s.addr in seen then MirrorFrom(bank, snaps, i + 1, seen)
      else Delta(s.addr, s.before, BalanceOf(bank, s.addr)) + MirrorFrom(bank, snaps, i + 1, seen + {s.addr})
  }

  function Mirror(bank: Balances, isCallerOrigin: bool, snaps: seq<Snapshot>): seq<Entry> {
    if isCallerOrigin then [] else MirrorFrom(bank, snaps, 0, {})
  }

  /** The first snapshot of an account from `i` on. */
  ghost predicate SampledFrom(snaps: seq<Snapshot>, i: nat, a: Addr) {
    exists j :: i <= j < |snaps| && snaps[j].addr == a
  }

  /** Repeated accounts carry the same sampled balance: the one in `before`. */
  ghost predicate Samples(snaps: seq<Snapshot>, before: Balances) {
    forall j :: 0 <= j < |snaps| ==> snaps[j].before == BalanceOf(before, snaps[j].addr)
  }

  lemma {:induction false} DeltaNet(a: Addr, before: int, now: int, b: Addr, rest: seq<Entry>)
    ensures Net(Delta(a, before, now) + rest, b) == (if a == b then now - before else 0) + Net(rest, b)
  {
    hide Net;
    if before == now {
      assert Delta(a, before, now) + rest == rest;
    } else {
      NetCons(Delta(a, before, now)[0], rest, b);
    }
  }

  lemma {:induction false} MirrorNet(
      before: Balances, bank: Balances, snaps: seq<Snapshot>, i: nat, seen: set<Addr>, a: Addr)
    requires i <= |snaps| && Samples(snaps, before)
    ensures Net(MirrorFrom(bank, snaps, i, seen), a)
            == if a !in seen && SampledFrom(snaps, i, a) then BalanceOf(bank, a) - BalanceOf(before, a) else 0
    decreases |snaps| - i
  {
    hide BalanceOf, Delta, Net;
    if i < |snaps| {
      var s := snaps[i];
      var seen' := seen + {s.addr};
      MirrorNet(before, bank, snaps, i + 1, seen', a);
      if s.addr !in seen {
        DeltaNet(s.addr, s.before, BalanceOf(bank, s.addr), a, MirrorFrom(bank, snaps, i + 1, seen'));
      } else {
        assert seen' == seen;
      }
      assert SampledFrom(snaps, i, a) <==> s.addr == a || SampledFrom(snaps, i + 1, a);
    } else {
      EmptyNet(a);
    }
  }

  lemma {:induction false} EmptyNet(a: Addr)
    ensures Net([], a) == 0
  {
  }

  /** Entries are positive, for sampled accounts not seen before, and one an account. */
  /** Entries with positive amounts, one an account, for accounts sampled from `i` on and
      not seen before. */
  ghost predicate Shaped(es: seq<Entry>, snaps: seq<Snapshot>, i: nat, seen: set<Addr>) {
    && DistinctAccounts(es)
    && forall k :: 0 <= k < |es| ==>
         es[k].amount > 0 && es[k].account !in seen && SampledFrom(snaps, i, es[k].account)
  }

  lemma {:induction false} SampledEarlier(snaps: seq<Snapshot>, i: nat, a: Addr)
    requires SampledFrom(snaps, i + 1, a)
    ensures SampledFrom(snaps, i, a)
  {
  }

  lemma {:induction false} ShapedEarlier(es: seq<Entry>, snaps: seq<Snapshot>, i: nat, seen: set<Addr>, more: set<Addr>)
    requires Shaped(es, snaps, i + 1, seen + more)
    ensures Shaped(es, snaps, i, seen)
  {
    hide SampledFrom;
    forall k | 0 <= k < |es| ensures SampledFrom(snaps, i, es[k].account) { SampledEarlier(snaps, i, es[k].account); }
  }

  lemma {:induction false} ShapedCons(e: Entry, es: seq<Entry>, snaps: seq<Snapshot>, i: nat, seen: set<Addr>)
    requires i < |snaps| && Shaped(es, snaps, i + 1, seen + {e.account})
    requires e.account == snaps[i].addr && e.account !in seen && e.amount > 0
    ensures Shaped([e] + es, snaps, i, seen)
  {
    ShapedEarlier(es, snaps, i, seen, {e.account});
    assert SampledFrom(snaps, i, e.account);
    hide SampledFrom;
    assert forall k :: 0 <= k < |es| ==> es[k].account != e.account;
  }

  lemma {:induction false} MirrorShape(bank: Balances, snaps: seq<Snapshot>, i: nat, seen: set<Addr>)
    requires i <= |snaps|
    ensures Shaped(MirrorFrom(bank, snaps, i, seen), snaps, i, seen)
    decreases |snaps| - i
  {
    hide BalanceOf, Shaped;
    if i == |snaps| {
      ShapedNone(snaps, i, seen);
    } else {
      var s := snaps[i];
      if s.addr in seen {
        MirrorShape(bank, snaps, i + 1, seen);
        assert seen + {} == seen;
        ShapedEarlier(MirrorFrom(bank, snaps, i + 1, seen), snaps, i, seen, {});
      } else {
        var delta := Delta(s.addr, s.before, BalanceOf(bank, s.addr));
        var rest := MirrorFrom(bank, snaps, i + 1, seen + {s.addr});
        MirrorShape(bank, snaps, i + 1, seen + {s.addr});
        if delta == [] {
          assert delta + rest == rest;
          ShapedEarlier(rest, snaps, i, seen, {s.addr});
        } else {
          assert delta == [delta[0]];
          ShapedCons(delta[0], rest, snaps, i, seen);
        }
      }
    }
  }

  lemma {:induction false} ShapedNone(snaps: seq<Snapshot>, i: nat, seen: set<Addr>)
    ensures Shaped([], snaps, i, seen)
  {
  }

  // ---------------------------------------------------------------- what it achieves

  /** Replaying the mirrored entries over the pre-call balances gives every sampled
      account its post-call bank balance, with at most one entry each, and leaves all
      other accounts alone. */
  lemma {:induction false} MirrorExact(before: Balances, bank: Balances, snaps: seq<Snapshot>, a: Addr)
    requires Samples(snaps, before)
    ensures var es := Mirror(bank, false, snaps);
            && DistinctAccounts(es)
            && BalanceOf(Replay(before, es), a)
               == if SampledFrom(snaps, 0, a) then BalanceOf(bank, a) else BalanceOf(before, a)
  {
    hide BalanceOf, Net, Replay;
    var es := Mirror(bank, false, snaps);
    MirrorShape(bank, snaps, 0, {});
    MirrorNet(before, bank, snaps, 0, {}, a);
    ReplayNet(before, es, a);
  }

  /** On the way no balance becomes negative. */
  lemma {:induction false} MirrorNeverNegative(before: Balances, bank: Balances, snaps: seq<Snapshot>, a: Addr, j: nat)
    requires Samples(snaps, before) && BalanceOf(before, a) >= 0 && BalanceOf(bank, a) >= 0
    requires j <= |Mirror(bank, false, snaps)|
    ensures BalanceOf(Replay(before, Mirror(bank, false, snaps)[..j]), a) >= 0
  {
    hide BalanceOf, Net, Replay;
    var es := Mirror(bank, false, snaps);
    MirrorShape(bank, snaps, 0, {});
    MirrorNet(before, bank, snaps, 0, {}, a);
    NetPrefix(es, j, a);
    ReplayNet(before, es[..j], a);
  }

  // --------------------------------------------------------------------- whole calls

  /** The bank, and the balances the EVM works with. */
  datatype World = World(bank: Balances, evm: Balances)

  /** One call: who calls, the accounts it samples, and the bank after its message, or
      None when the message or the gas accounting fails. */
  datatype Call = Call(caller: Addr, origin: Addr, sampled: seq<Addr>, outcome: Option<Balances>)

  function Sample(b: Balances, addrs: seq<Addr>): (s: seq<Snapshot>)
    ensures |s| == |addrs|
  {
    seq(|addrs|, i requires 0 <= i < |addrs| => Snapshot(addrs[i], BalanceOf(b, addrs[i])))
  }

  /** Run: a failing call reverts the bank and leaves no journal entry. */
  function After(w: World, c: Call): World {
    if c.outcome == None then w
    else World(c.outcome.value, Replay(w.evm, Mirror(c.outcome.value, c.caller == c.origin, Sample(w.bank, c.sampled))))
  }

  function AfterAll(w: World, calls: seq<Call>): World {
    if calls == [] then w else After(AfterAll(w, calls[..|calls| - 1]), calls[|calls| - 1])
  }

  /** How far the EVM's balance of an account is from the bank's. */
  function Drift(w: World, a: Addr): int {
    BalanceOf(w.evm, a) - BalanceOf(w.bank, a)
  }

  /** What a call moves on an account in the bank. */
  function Moved(w: World, c: Call, a: Addr): int {
    if c.outcome == None then 0 else BalanceOf(c.outcome.value, a) - BalanceOf(w.bank, a)
  }

  /** Whether the call mirrors what it moves on the account. */
  predicate Mirrored(c: Call, a: Addr) {
    c.caller != c.origin && a in c.sampled
  }

  lemma {:induction false} SampleSpec(b: Balances, addrs: seq<Addr>, a: Addr)
    ensures Samples(Sample(b, addrs), b)
    ensures SampledFrom(Sample(b, addrs), 0, a) <==> a in addrs
  {
    hide BalanceOf;
    var s := Sample(b, addrs);
    if a in addrs {
      var j :| 0 <= j < |addrs| && addrs[j] == a;
      assert s[j].addr == a;
    }
  }

  /** Every call, whatever it does to the bank, changes the EVM's balance of an account by
      exactly what it moved there if the account is mirrored, and not at all otherwise. */
  lemma {:induction false} CallMirrors(w: World, c: Call, a: Addr)
    ensures BalanceOf(After(w, c).evm, a) == BalanceOf(w.evm, a) + if Mirrored(c, a) then Moved(w, c, a) else 0
  {
    hide BalanceOf, Replay, MirrorFrom, Net;
    if c.outcome.Some? {
      var snaps, bank := Sample(w.bank, c.sampled), c.outcome.value;
      SampleSpec(w.bank, c.sampled, a);
      MirrorNet(w.bank, bank, snaps, 0, {}, a);
      ReplayNet(w.evm, Mirror(bank, c.caller == c.origin, snaps), a);
      EmptyNet(a);
    }
  }

  /** What a sequence of calls moves on an account without mirroring it. */
  function Unmirrored(w: World, calls: seq<Call>, a: Addr): int {
    if calls == [] then 0
    else
      var before, c := calls[..|calls| - 1], calls[|calls| - 1];
      Unmirrored(w, before, a) + if Mirrored(c, a) then 0 else Moved(AfterAll(w, before), c, a)
  }

  /** Over any sequence of calls, failing ones included, EVM and bank drift apart on an
      account by exactly what was moved on it unmirrored: nothing else is lost, doubled or
      carried over to a later call. */
  lemma {:induction false} DriftOfRun(w: World, calls: seq<Call>, a: Addr)
    ensures Drift(AfterAll(w, calls), a) == Drift(w, a) - Unmirrored(w, calls, a)
  {
    hide BalanceOf, After, Mirrored;
    if calls != [] {
      var n := |calls| - 1;
      DriftOfRun(w, calls[..n], a);
      CallMirrors(AfterAll(w, calls[..n]), calls[n], a);
      AfterBank(AfterAll(w, calls[..n]), calls[n]);
    }
  }

  lemma {:induction false} AfterBank(w: World, c: Call)
    ensures After(w, c).bank == if c.outcome == None then w.bank else c.outcome.value
  {
  }

  /** So an account on which the two agree stays that way while every call mirrors it or
      leaves it alone in the bank. */
  lemma {:induction false} StaysSynced(w: World, calls: seq<Call>, a: Addr)
    requires Drift(w, a) == 0
    requires forall i :: 0 <= i < |calls| ==> Mirrored(calls[i], a) || Moved(AfterAll(w, calls[..i]), calls[i], a) == 0
    ensures Drift(AfterAll(w, calls), a) == 0
  {
    hide Drift, Moved, Mirrored, AfterAll;
    DriftOfRun(w, calls, a);
    NothingUnmirrored(w, calls, a);
  }

  lemma {:induction false} NothingUnmirrored(w: World, calls: seq<Call>, a: Addr)
    requires forall i :: 0 <= i < |calls| ==> Mirrored(calls[i], a) || Moved(AfterAll(w, calls[..i]), calls[i], a) == 0
    ensures Unmirrored(w, calls, a) == 0
  {
    hide Moved, Mirrored, AfterAll;
    if calls != [] {
      var n := |calls| - 1;
      forall i | 0 <= i < n
        ensures Mirrored(calls[..n][i], a) || Moved(AfterAll(w, calls[..n][..i]), calls[..n][i], a) == 0
      {
        assert calls[..n][..i] == calls[..i];
      }
      NothingUnmirrored(w, calls[..n], a);
    }
  }

  // ----------------------------------------------------------- Liquidate and Redeem

  /** A bank transfer; it fails when the payer has too little. */
  function Transfer(bank: Balances, from: Addr, to: Addr, x: nat): Option<Balances> {
    if BalanceOf(bank, from) < x then None
    else
      var paid := bank[from := BalanceOf(bank, from) - x];
      Some(paid[to := BalanceOf(paid, to) + x])
  }

  /** The two messages: Liquidate pays `x` of the base coin from the account to the
      liquid vesting module's account, Redeem pays it from there; `ok` says whether
      everything else succeeds. */
  datatype Message =
    | Liquidate(caller: Addr, origin: Addr, from: Addr, x: nat, ok: bool)
    | Redeem(caller: Addr, origin: Addr, from: Addr, to: Addr, x: nat, ok: bool)

  /** The call a message leads to on a bank. Liquidate samples the payer, Redeem both
      named accounts; the module's account is only sampled if it is named. */
  function CallOf(bank: Balances, vault: Addr, m: Message): Call {
    match m
    case Liquidate(caller, origin, from, x, ok) =>
      Call(caller, origin, [from], if ok then Transfer(bank, from, vault, x) else None)
    case Redeem(caller, origin, from, to, x, ok) =>
      Call(caller, origin, [from, to], if ok then Transfer(bank, vault, to, x) else None)
  }

  function Process(w: World, vault: Addr, m: Message): World {
    After(w, CallOf(w.bank, vault, m))
  }

  function ProcessAll(w: World, vault: Addr, ms: seq<Message>): World {
    if ms == [] then w else Process(ProcessAll(w, vault, ms[..|ms| - 1]), vault, ms[|ms| - 1])
  }

  /** Whether an account is named in the message, so that its balance is sampled. */
  predicate Names(m: Message, a: Addr) {
    m.from == a || (m.Redeem? && m.to == a)
  }

  /** What a message pays into the module's account unsampled, if it succeeds. */
  function PaidIn(w: World, vault: Addr, m: Message): int {
    var x: int := m.x;
    if CallOf(w.bank, vault, m).outcome == None || Names(m, vault) then 0 else if m.Liquidate? then x else -x
  }

  function PaidInAll(w: World, vault: Addr, ms: seq<Message>): int {
    if ms == [] then 0
    else
      var before := ms[..|ms| - 1];
      PaidInAll(w, vault, before) + PaidIn(ProcessAll(w, vault, before), vault, ms[|ms| - 1])
  }

  /** Who pays and who is paid. */
  function Payer(vault: Addr, m: Message): Addr {
    if m.Liquidate? then m.from else vault
  }

  function Payee(vault: Addr, m: Message): Addr {
    if m.Liquidate? then vault else m.to
  }

  /** What a message moves on an account when it goes through. */
  function NetOf(vault: Addr, m: Message, a: Addr): int {
    (if a == Payee(vault, m) then m.x as int else 0) - (if a == Payer(vault, m) then m.x as int else 0)
  }

  /** A message goes through exactly when the payer has the coins and nothing else fails.
      Liquidate then takes them from the named account to the module's, Redeem from the
      module's account to the receiver, and no other account is touched in the bank; from a
      contract, the EVM follows on the named accounts and stays on all others. */
  lemma {:induction false} MessageMoves(w: World, vault: Addr, m: Message, a: Addr)
    ensures CallOf(w.bank, vault, m).outcome.Some? <==> m.ok && BalanceOf(w.bank, Payer(vault, m)) >= m.x
    ensures var w' := Process(w, vault, m);
            var net := if CallOf(w.bank, vault, m).outcome.Some? then NetOf(vault, m, a) else 0;
            && BalanceOf(w'.bank, a) == BalanceOf(w.bank, a) + net
            && BalanceOf(w'.evm, a)
               == BalanceOf(w.evm, a) + if m.caller != m.origin && Names(m, a) then net else 0
  {
    hide After;
    var c := CallOf(w.bank, vault, m);
    CallMirrors(w, c, a);
    AfterBank(w, c);
  }

  predicate FromContracts(ms: seq<Message>) {
    forall i :: 0 <= i < |ms| ==> ms[i].caller != ms[i].origin
  }

  lemma {:induction false} MessageDrift(w: World, vault: Addr, m: Message, a: Addr)
    requires m.caller != m.origin
    ensures Drift(Process(w, vault, m), a) == Drift(w, a) - if a == vault then PaidIn(w, vault, m) else 0
  {
    hide After;
    var c := CallOf(w.bank, vault, m);
    CallMirrors(w, c, a);
    AfterBank(w, c);
  }

  /** Over any sequence of Liquidate and Redeem calls from contracts, successful or not,
      EVM and bank keep agreeing on every account except the module's own, which is not
      sampled; there the bank moves ahead by exactly what was liquidated and not redeemed,
      messages that name this account themselves not counted. */
  lemma {:induction false} MessagesMirrored(w: World, vault: Addr, ms: seq<Message>, a: Addr)
    requires FromContracts(ms)
    ensures Drift(ProcessAll(w, vault, ms), a) == Drift(w, a) - if a == vault then PaidInAll(w, vault, ms) else 0
  {
    hide Drift, Process, PaidIn;
    if ms != [] {
      var n := |ms| - 1;
      MessagesMirrored(w, vault, ms[..n], a);
      MessageDrift(ProcessAll(w, vault, ms[..n]), vault, ms[n], a);
    }
  }

  /** A self-redeem samples one account twice and leads to a single entry, not to two. */
  lemma {:induction false} SelfRedeemOnce(w: World, vault: Addr, m: Message)
    requires m.Redeem? && m.from == m.to && m.caller != m.origin && m.ok && m.from != vault && m.x > 0
    requires BalanceOf(w.bank, vault) >= m.x
    ensures var c := CallOf(w.bank, vault, m);
            c.outcome.Some? && Mirror(c.outcome.value, false, Sample(w.bank, c.sampled)) == [Entry(m.to, m.x, Add)]
  {
    var c := CallOf(w.bank, vault, m);
    var snaps, bank := Sample(w.bank, c.sampled), c.outcome.value;
    assert snaps[0].addr == m.to && snaps[1].addr == m.to;
    assert BalanceOf(bank, m.to) == BalanceOf(w.bank, m.to) + m.x;
    assert MirrorFrom(bank, snaps, 2, {m.to}) == [];
    assert MirrorFrom(bank, snaps, 1, {} + {m.to}) == [];
  }

  // ------------------------------------------------------------------- as it runs

  class StateDB {
    var balances: Balances

    constructor (b: Balances)
      ensures balances == b
    {
      balances := b;
    }

    method ChangeBalance(account: Addr, amount: int)
      modifies this
      ensures balances == old(balances)[account := BalanceOf(old(balances), account) + amount]
    {
      balances := balances[account := BalanceOf(balances, account) + amount];
    }
  }

  class Precompile {
    var journalEntries: seq<Entry>

    constructor (journalEntries: seq<Entry>)
      ensures this.journalEntries == journalEntries
    {
      this.journalEntries := journalEntries;
    }

    method AddBalanceChangeEntries(e: Entry)
      modifies this
      ensures journalEntries == old(journalEntries) + [e]
    {
      journalEntries := journalEntries + [e];
    }

    method MirrorBankBaseDeltasIntoStateDB(bank: Balances, isCallerOrigin: bool, snapshots: seq<Snapshot>)
      modifies this
      ensures journalEntries == old(journalEntries) + Mirror(bank, isCallerOrigin, snapshots)
    {
      hide BalanceOf;
      if isCallerOrigin { return; }
      var seen: set<Addr> := {};
      for i := 0 to |snapshots|
        invariant journalEntries + MirrorFrom(bank, snapshots, i, seen)
                  == old(journalEntries) + MirrorFrom(bank, snapshots, 0, {})
      {
        var s := snapshots[i];
        if s.addr in seen { continue; }
        seen := seen + {s.addr};
        ghost var rest := MirrorFrom(bank, snapshots, i + 1, seen);
        ghost var was := journalEntries;
        var netBaseDelta := s.before - BalanceOf(bank, s.addr);
        if netBaseDelta == 0 {
          assert [] + rest == rest;
          continue;
        }
        if netBaseDelta < 0 {
          AddBalanceChangeEntries(Entry(s.addr, -netBaseDelta, Add));
        } else {
          AddBalanceChangeEntries(Entry(s.addr, netBaseDelta, Sub));
        }
        assert was + (Delta(s.addr, s.before, BalanceOf(bank, s.addr)) + rest) == journalEntries + rest;
      }
      assert journalEntries + [] == journalEntries;
    }

    method AddJournalEntries(stateDB: StateDB)
      modifies stateDB
      ensures stateDB.balances == Replay(old(stateDB.balances), journalEntries)
    {
      hide BalanceOf;
      for i := 0 to |journalEntries|
        invariant stateDB.balances == Replay(old(stateDB.balances), journalEntries[..i])
      {
        var entry := journalEntries[i];
        if entry.op == Sub {
          stateDB.ChangeBalance(entry.account, -entry.amount);
        } else {
          stateDB.ChangeBalance(entry.account, entry.amount);
        }
        assert journalEntries[..i + 1][..i] == journalEntries[..i];
      }
      assert journalEntries[..|journalEntries|] == journalEntries;
    }

    /** Run works on a copy of the precompile, so its entries end with the call. */
    method Run(stateDB: StateDB, bank: Balances, c: Call) returns (bank': Balances)
      requires journalEntries == []
      modifies stateDB
      ensures World(bank', stateDB.balances) == After(World(bank, old(stateDB.balances)), c)
    {
      hide Replay, Mirror;
      var p := new Precompile(journalEntries);
      var snapshots := Sample(bank, c.sampled);
      if c.outcome == None { return bank; }
      bank' := c.outcome.value;
      p.MirrorBankBaseDeltasIntoStateDB(bank', c.caller == c.origin, snapshots);
      assert [] + Mirror(bank', c.caller == c.origin, snapshots) == Mirror(bank', c.caller == c.origin, snapshots);
      p.AddJournalEntries(stateDB);
    }
  }
}
