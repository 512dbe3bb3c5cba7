/** The locks of the Ledger wallets at work: what every step of every thread keeps, and
    what follows for the device, the token and the hub's counter. */
module WalletLocks {
  import opened Options
  import opened WalletMachine

  // ------------------------------------------------------------------- invariants

  ghost predicate ReadersInv(s: State) {
    forall t: Tid, w: Wid :: t in WalletOf(s, w).readers <==> Reads(PcOf(s, t)) == Some(w)
  }

  ghost predicate WritersInv(s: State) {
    forall t: Tid, w: Wid :: WalletOf(s, w).writer == Some(t) <==> Writes(PcOf(s, t)) == Some(w)
  }

  ghost predicate WaitersInv(s: State) {
    forall t: Tid, w: Wid :: WalletOf(s, w).next == Some(t) <==> Waits(PcOf(s, t)) == Some(w)
  }

  ghost predicate LockInv(s: State) {
    forall w: Wid ::
      && (WalletOf(s, w).writer.Some? ==> WalletOf(s, w).readers == {})
      && (WalletOf(s, w).next.Some? ==> WalletOf(s, w).writer == None)
  }

  ghost predicate HubInv(s: State) {
    forall t: Tid :: s.hub == Some(t) <==> Hubs(PcOf(s, t))
  }

  /** A token that is out has exactly one holder. */
  ghost predicate TokenInv(s: State) {
    && (forall t: Tid, w: Wid :: Tokens(PcOf(s, t)) == Some(w) ==> !WalletOf(s, w).token)
    && (forall t: Tid, u: Tid :: Tokens(PcOf(s, t)).Some? && Tokens(PcOf(s, t)) == Tokens(PcOf(s, u)) ==> t == u)
    && (forall w: Wid :: WalletOf(s, w).device.Some? && !WalletOf(s, w).token ==>
          exists t: Tid :: Tokens(PcOf(s, t)) == Some(w))
  }

  ghost predicate DeviceInv(s: State) {
    forall t: Tid :: Needs(PcOf(s, t)).Some? ==> WalletOf(s, Needs(PcOf(s, t)).value).device.Some?
  }

  function PendingSet(s: State): set<Tid> {
    set t | t in s.pcs && Pending(s.pcs[t])
  }

  ghost predicate PendInv(s: State) {
    s.pend == |PendingSet(s)|
  }

  ghost predicate EnumInv(s: State) {
    forall t: Tid :: PcOf(s, t) == Enumerating ==> s.pend == 0
  }

  ghost predicate PlaceInv(s: State) {
    forall t: Tid :: WellPlaced(PcOf(s, t))
  }

  ghost predicate Inv(s: State) {
    && ReadersInv(s) && WritersInv(s) && WaitersInv(s) && LockInv(s) && HubInv(s) && TokenInv(s)
    && DeviceInv(s) && PendInv(s) && EnumInv(s) && PlaceInv(s)
  }

  // ------------------------------------------------------- every step keeps them

  /** What one thread's point and one wallet are after a step. */
  lemma {:induction false} Frame(s: State, t: Tid, e: Effect, p': Pc, s': State, u: Tid, w: Wid)
    requires Change(s, t, e, p', s')
    ensures PcOf(s', u) == if u == t then p' else PcOf(s, u)
    ensures WalletOf(s', w) == if Target(e) == Some(w) then OnWallet(WalletOf(s, w), t, e, s.spare) else WalletOf(s, w)
  {
    hide OnWallet;
  }

  lemma {:induction false} StepReaders(s: State, t: Tid, e: Effect, p': Pc, s': State)
    requires Change(s, t, e, p', s') && ReadersInv(s)
    ensures ReadersInv(s')
  {
    hide PcOf, WalletOf, Apply, Reads, Writes, Waits, Tokens, Hubs, Pending, Needs;
    forall u: Tid, w: Wid ensures u in WalletOf(s', w).readers <==> Reads(PcOf(s', u)) == Some(w) {
      Frame(s, t, e, p', s', u, w);
      Current(s, t);
    }
  }

  lemma {:induction false} Current(s: State, t: Tid)
    ensures t in s.pcs ==> PcOf(s, t) == s.pcs[t]
  {
  }

  lemma {:induction false} StepWriters(s: State, t: Tid, e: Effect, p': Pc, s': State)
    requires Change(s, t, e, p', s') && WritersInv(s)
    ensures WritersInv(s')
  {
    hide PcOf, WalletOf, Apply, Reads, Writes, Waits, Tokens, Hubs, Pending, Needs;
    Current(s, t);
    forall u: Tid, w: Wid ensures WalletOf(s', w).writer == Some(u) <==> Writes(PcOf(s', u)) == Some(w) {
      Frame(s, t, e, p', s', u, w);
      assert WalletOf(s, w).writer == Some(t) <==> Writes(PcOf(s, t)) == Some(w);
    }
  }

  lemma {:induction false} StepWaiters(s: State, t: Tid, e: Effect, p': Pc, s': State)
    requires Change(s, t, e, p', s') && WaitersInv(s)
    ensures WaitersInv(s')
  {
    hide PcOf, WalletOf, Apply, Reads, Writes, Waits, Tokens, Hubs, Pending, Needs;
    Current(s, t);
    forall u: Tid, w: Wid ensures WalletOf(s', w).next == Some(u) <==> Waits(PcOf(s', u)) == Some(w) {
      Frame(s, t, e, p', s', u, w);
      assert WalletOf(s, w).next == Some(t) <==> Waits(PcOf(s, t)) == Some(w);
    }
  }

  lemma {:induction false} StepLock(s: State, t: Tid, e: Effect, p': Pc, s': State)
    requires Change(s, t, e, p', s') && LockInv(s)
    ensures LockInv(s')
  {
    hide PcOf, WalletOf, Apply;
    forall w: Wid
      ensures WalletOf(s', w).writer.Some? ==> WalletOf(s', w).readers == {}
      ensures WalletOf(s', w).next.Some? ==> WalletOf(s', w).writer == None
    {
      Frame(s, t, e, p', s', t, w);
    }
  }

  lemma {:induction false} StepHub(s: State, t: Tid, e: Effect, p': Pc, s': State)
    requires Change(s, t, e, p', s') && HubInv(s)
    ensures HubInv(s')
  {
    hide PcOf, WalletOf, OnWallet, Reads, Writes, Waits, Tokens, Hubs, Pending;
    Current(s, t);
    assert s.hub == Some(t) <==> Hubs(PcOf(s, t));
    forall u: Tid ensures s'.hub == Some(u) <==> Hubs(PcOf(s', u)) {
      Frame(s, t, e, p', s', u, 0);
    }
  }

  lemma {:induction false} PendingAfter(s: State, t: Tid, e: Effect, p': Pc, s': State)
    requires Change(s, t, e, p', s')
    ensures t in PendingSet(s) <==> Pending(s.pcs[t])
    ensures PendingSet(s') == if Pending(p') then PendingSet(s) + {t} else PendingSet(s) - {t}
  {
    hide Apply, Pending;
  }

  lemma {:induction false} StepPend(s: State, t: Tid, e: Effect, p': Pc, s': State)
    requires Change(s, t, e, p', s') && PendInv(s)
    ensures PendInv(s')
  {
    hide WalletOf, OnWallet, Reads, Writes, Waits, Tokens, Hubs, Pending, PendingSet;
    PendingAfter(s, t, e, p', s');
  }

  /** The counter only moves under the hub mutex, which an enumeration holds. */
  lemma {:induction false} StepEnum(s: State, t: Tid, e: Effect, p': Pc, s': State)
    requires Change(s, t, e, p', s') && EnumInv(s) && HubInv(s) && s.pend >= 0
    ensures EnumInv(s')
  {
    hide PcOf, WalletOf, OnWallet, Reads, Writes, Waits, Tokens, Needs;
    Current(s, t);
    forall u: Tid ensures PcOf(s', u) == Enumerating ==> s'.pend == 0 {
      Frame(s, t, e, p', s', u, 0);
      assert PcOf(s, u) == Enumerating ==> Hubs(PcOf(s, u));
      assert u != t && Hubs(PcOf(s, u)) && Hubs(PcOf(s, t)) ==> s.hub == Some(u) && s.hub == Some(t);
    }
  }

  /** Tokens and the device are only used under a lock on the wallet. */
  lemma {:induction false} UnderLock(p: Pc)
    ensures Tokens(p).Some? ==> Reads(p) == Tokens(p) && Needs(p) == Tokens(p)
    ensures Needs(p).Some? ==> Reads(p) == Needs(p) || Writes(p) == Needs(p)
    ensures Reads(p) == None || Writes(p) == None
    ensures Talks(p).Some? ==> Needs(p) == Talks(p) && (Tokens(p) == Talks(p) || Writes(p) == Talks(p))
  {
  }

  /** While a thread writes a wallet, no other thread uses its token or its device. */
  lemma {:induction false} WriterAlone(s: State, t: Tid, u: Tid, w: Wid)
    requires ReadersInv(s) && WritersInv(s) && LockInv(s)
    requires Writes(PcOf(s, t)) == Some(w) && u != t
    ensures Tokens(PcOf(s, u)) != Some(w) && Needs(PcOf(s, u)) != Some(w)
  {
    hide PcOf, WalletOf, Reads, Writes, Waits, Tokens, Needs;
    UnderLock(PcOf(s, u));
    assert WalletOf(s, w).writer == Some(t);
    assert u in WalletOf(s, w).readers <==> Reads(PcOf(s, u)) == Some(w);
    assert WalletOf(s, w).writer == Some(u) <==> Writes(PcOf(s, u)) == Some(w);
  }

  lemma {:induction false} TokenOut(s: State, t: Tid, e: Effect, p': Pc, s': State, u: Tid, w: Wid)
    requires Change(s, t, e, p', s') && TokenInv(s)
    requires ReadersInv(s) && WritersInv(s) && LockInv(s) && Tokens(PcOf(s', u)) == Some(w)
    ensures !WalletOf(s', w).token
  {
    hide PcOf, WalletOf, Apply, Reads, Writes, Waits, Tokens, Hubs, Pending, Needs, ReadersInv, WritersInv, LockInv;
    Current(s, t);
    Frame(s, t, e, p', s', u, w);
    UnderLock(PcOf(s, t));
    if Writes(PcOf(s, t)) == Some(w) && u != t { WriterAlone(s, t, u, w); }
  }

  lemma {:induction false} TokenUnique(s: State, t: Tid, e: Effect, p': Pc, s': State, u: Tid, v: Tid)
    requires Change(s, t, e, p', s') && TokenInv(s)
    requires Tokens(PcOf(s', u)).Some? && Tokens(PcOf(s', u)) == Tokens(PcOf(s', v))
    ensures u == v
  {
    hide PcOf, WalletOf, Apply, Reads, Writes, Waits, Tokens, Hubs, Pending, Needs;
    Current(s, t);
    var w := Tokens(PcOf(s', u)).value;
    Frame(s, t, e, p', s', u, w);
    Frame(s, t, e, p', s', v, w);
  }

  lemma {:induction false} TokenHeld(s: State, t: Tid, e: Effect, p': Pc, s': State, w: Wid)
    requires Change(s, t, e, p', s') && TokenInv(s)
    requires WalletOf(s', w).device.Some? && !WalletOf(s', w).token
    ensures exists u: Tid :: Tokens(PcOf(s', u)) == Some(w)
  {
    hide PcOf, WalletOf, Apply, Reads, Writes, Waits, Tokens, Hubs, Pending, Needs;
    Current(s, t);
    Frame(s, t, e, p', s', t, w);
    if e == TakeToken(w) {
      assert Tokens(PcOf(s', t)) == Some(w);
    } else {
      var u: Tid :| Tokens(PcOf(s, u)) == Some(w);
      Frame(s, t, e, p', s', u, w);
      assert Tokens(PcOf(s', u)) == Some(w);
    }
  }

  lemma {:induction false} StepToken(s: State, t: Tid, e: Effect, p': Pc, s': State)
    requires Change(s, t, e, p', s') && TokenInv(s)
    requires ReadersInv(s) && WritersInv(s) && LockInv(s)
    ensures TokenInv(s')
  {
    hide Step, Tracks, PcOf, WalletOf, Tokens, ReadersInv, WritersInv, LockInv;
    forall u: Tid, w: Wid | Tokens(PcOf(s', u)) == Some(w) ensures !WalletOf(s', w).token {
      TokenOut(s, t, e, p', s', u, w);
    }
    forall u: Tid, v: Tid | Tokens(PcOf(s', u)).Some? && Tokens(PcOf(s', u)) == Tokens(PcOf(s', v)) ensures u == v {
      TokenUnique(s, t, e, p', s', u, v);
    }
    forall w: Wid | WalletOf(s', w).device.Some? && !WalletOf(s', w).token
      ensures exists u: Tid :: Tokens(PcOf(s', u)) == Some(w)
    {
      TokenHeld(s, t, e, p', s', w);
    }
  }

  lemma {:induction false} StepDevice(s: State, t: Tid, e: Effect, p': Pc, s': State)
    requires Change(s, t, e, p', s') && DeviceInv(s)
    requires ReadersInv(s) && WritersInv(s) && LockInv(s)
    ensures DeviceInv(s')
  {
    hide PcOf, WalletOf, Apply, Reads, Writes, Waits, Tokens, Hubs, Pending, Needs, ReadersInv, WritersInv, LockInv;
    Current(s, t);
    forall u: Tid | Needs(PcOf(s', u)).Some? ensures WalletOf(s', Needs(PcOf(s', u)).value).device.Some? {
      var w := Needs(PcOf(s', u)).value;
      Frame(s, t, e, p', s', u, w);
      if u != t && Writes(PcOf(s, t)) == Some(w) { WriterAlone(s, t, u, w); }
    }
  }

  lemma {:induction false} StepPlace(s: State, t: Tid, e: Effect, p': Pc, s': State)
    requires Change(s, t, e, p', s') && PlaceInv(s)
    ensures PlaceInv(s')
  {
    hide PcOf, WalletOf, Apply, WellPlaced, Tracks, Needs;
    forall u: Tid ensures WellPlaced(PcOf(s', u)) { Frame(s, t, e, p', s', u, 0); }
  }

  lemma {:induction false} ChangeKeeps(s: State, t: Tid, e: Effect, p': Pc, s': State)
    requires Change(s, t, e, p', s') && Inv(s)
    ensures Inv(s')
  {
    hide Change, ReadersInv, WritersInv, WaitersInv, LockInv, HubInv, TokenInv, DeviceInv, EnumInv, PlaceInv, PcOf;
    StepReaders(s, t, e, p', s');
    StepWriters(s, t, e, p', s');
    StepWaiters(s, t, e, p', s');
    StepLock(s, t, e, p', s');
    StepHub(s, t, e, p', s');
    StepToken(s, t, e, p', s');
    StepDevice(s, t, e, p', s');
    StepPend(s, t, e, p', s');
    StepEnum(s, t, e, p', s');
    StepPlace(s, t, e, p', s');
  }

  /** What moving a thread that holds nothing leaves as it was. */
  lemma {:induction false} BareFrame(s: State, u: Tid, q': Pc)
    requires Bare(PcOf(s, u)) && Bare(q')
    ensures var s' := s.(pcs := s.pcs[u := q']);
            && (forall w: Wid :: WalletOf(s', w) == WalletOf(s, w))
            && (forall t: Tid :: Reads(PcOf(s', t)) == Reads(PcOf(s, t)) && Writes(PcOf(s', t)) == Writes(PcOf(s, t)))
            && (forall t: Tid :: Waits(PcOf(s', t)) == Waits(PcOf(s, t)))
            && (forall t: Tid :: Tokens(PcOf(s', t)) == Tokens(PcOf(s, t)) && Needs(PcOf(s', t)) == Needs(PcOf(s, t)))
            && (forall t: Tid :: Hubs(PcOf(s', t)) == Hubs(PcOf(s, t)))
            && PendingSet(s') == PendingSet(s)
  {
    hide Reads, Writes, Waits, Tokens, Needs, Hubs, Pending, WellPlaced;
    var s' := s.(pcs := s.pcs[u := q']);
    forall t: Tid ensures PcOf(s', t) == if t == u then q' else PcOf(s, t) {}
    assert forall t: Tid :: t in PendingSet(s) ==> Pending(PcOf(s, t));
    assert u !in PendingSet(s);
  }

  /** A thread that holds nothing may change its place without touching an invariant. */
  lemma {:induction false} BareKeeps(s: State, u: Tid, q': Pc)
    requires Inv(s) && Bare(PcOf(s, u)) && Bare(q')
    ensures Inv(s.(pcs := s.pcs[u := q']))
  {
    var s' := s.(pcs := s.pcs[u := q']);
    BareFrame(s, u, q');
    BarePlaces(s, u, q');
    BareTokens(s, s');
    hide WalletOf, PcOf, Reads, Writes, Waits, Tokens, Needs, Hubs, PendingSet, Bare, TokenInv, EnumInv, PlaceInv;
  }

  lemma {:induction false} BarePlaces(s: State, u: Tid, q': Pc)
    requires EnumInv(s) && PlaceInv(s) && Bare(q')
    ensures var s' := s.(pcs := s.pcs[u := q']);
            EnumInv(s') && PlaceInv(s')
  {
    hide WellPlaced;
    var s' := s.(pcs := s.pcs[u := q']);
    forall t: Tid ensures PcOf(s', t) == if t == u then q' else PcOf(s, t) {}
  }

  lemma {:induction false} BareTokens(s: State, s': State)
    requires TokenInv(s)
    requires forall w: Wid :: WalletOf(s', w) == WalletOf(s, w)
    requires forall t: Tid :: Tokens(PcOf(s', t)) == Tokens(PcOf(s, t)) && Needs(PcOf(s', t)) == Needs(PcOf(s, t))
    ensures TokenInv(s')
  {
    hide WalletOf, PcOf, Tokens, Needs;
    forall w: Wid | WalletOf(s', w).device.Some? && !WalletOf(s', w).token
      ensures exists t: Tid :: Tokens(PcOf(s', t)) == Some(w)
    {
      var t: Tid :| Tokens(PcOf(s, t)) == Some(w);
      assert Tokens(PcOf(s', t)) == Some(w);
    }
  }

  /** Every step of every thread, and every step two of them make together, keeps all
      invariants. */
  lemma {:induction false} NextKeeps(s: State, s': State)
    requires Next(s, s') && Inv(s)
    ensures Inv(s')
  {
    hide Inv, Moves, Meets, Fits, Bare, Unblocked, Apply;
    if t, e, p' :| Step(s, t, e, p', s') {
      Current(s, t);
      Placed(s, t);
      MovesFit(s, s.pcs[t], e, p');
      ChangeKeeps(s, t, e, p', s');
    } else {
      var t, u, e, p', q' :| Joint(s, t, u, e, p', q', s');
      var s1 := s.(pcs := s.pcs[u := q']);
      MeetsFit(s1, t, s.pcs[t], PcOf(s, u), e, p', q');
      BareKeeps(s, u, q');
      ApplyPcs(s, s1.pcs, t, e);
      ChangeKeeps(s1, t, e, p', s');
    }
  }

  lemma {:induction false} Placed(s: State, t: Tid)
    requires Inv(s)
    ensures WellPlaced(PcOf(s, t))
  {
  }

  lemma {:induction false} ApplyPcs(s: State, pcs: map<Tid, Pc>, t: Tid, e: Effect)
    ensures Apply(s.(pcs := pcs), t, e) == Apply(s, t, e).(pcs := pcs)
  {
  }

  lemma {:induction false} InitialInv(s: State)
    requires Initial(s)
    ensures Inv(s)
  {
    assert PendingSet(s) == {};
    assert forall t: Tid :: PcOf(s, t) == Idle;
  }

  /** The invariants hold in every state of every run. */
  lemma {:induction false} RunInv(run: seq<State>, i: nat)
    requires IsRun(run) && i < |run|
    ensures Inv(run[i])
  {
    hide Inv, Next, Initial;
    if i == 0 {
      InitialInv(run[0]);
    } else {
      RunInv(run, i - 1);
      assert Next(run[i - 1], run[i - 1 + 1]);
      NextKeeps(run[i - 1], run[i]);
    }
  }

  // -------------------------------------------------------------------- guarantees

  /** At most one thread is in a driver exchange with a wallet. */
  lemma {:induction false} OneExchange(run: seq<State>, i: nat, t: Tid, u: Tid)
    requires IsRun(run) && i < |run|
    requires Talks(PcOf(run[i], t)).Some? && Talks(PcOf(run[i], t)) == Talks(PcOf(run[i], u))
    ensures t == u
  {
    hide IsRun, PcOf, WalletOf, Reads, Writes, Waits, Tokens, Needs, Talks, PendInv;
    RunInv(run, i);
    var s := run[i];
    var w := Talks(PcOf(s, t)).value;
    UnderLock(PcOf(s, t));
    UnderLock(PcOf(s, u));
    if t != u {
      if Writes(PcOf(s, t)) == Some(w) { WriterAlone(s, t, u, w); }
      if Writes(PcOf(s, u)) == Some(w) { WriterAlone(s, u, t, w); }
    }
  }

  /** Only a thread that writes a wallet changes its device. */
  lemma {:induction false} ChangeDevice(s: State, u: Tid, e: Effect, p': Pc, s': State, w: Wid)
    requires Change(s, u, e, p', s')
    ensures WalletOf(s', w).device == WalletOf(s, w).device || Writes(PcOf(s, u)) == Some(w)
    ensures WalletOf(s', w).device != WalletOf(s, w).device ==> e.Connect? || e.Disconnect?
  {
    hide PcOf, WalletOf, Reads, Writes, Waits, Tokens, Needs, Apply, Hubs, Pending;
    Current(s, u);
    Frame(s, u, e, p', s', u, w);
  }

  lemma {:induction false} TalkingMoves(s: State, p: Pc, e: Effect, p': Pc)
    requires Moves(s, p, e, p') && Talks(p).Some?
    ensures !e.Connect? && !e.Disconnect?
  {
  }

  lemma {:induction false} StepDeviceStays(s: State, s': State, t: Tid)
    requires Next(s, s') && Inv(s) && Talks(PcOf(s, t)).Some?
    ensures var w := Talks(PcOf(s, t)).value;
            WalletOf(s', w).device == WalletOf(s, w).device
  {
    hide Moves, Meets, Fits, Unblocked, Apply, WalletOf, Talks, Writes, Waits, Needs, PcOf;
    hide PendInv, TokenInv, PlaceInv, WellPlaced;
    var w := Talks(PcOf(s, t)).value;
    UnderLock(PcOf(s, t));
    if u, e, p' :| Step(s, u, e, p', s') {
      Current(s, u);
      Placed(s, u);
      MovesFit(s, s.pcs[u], e, p');
      ChangeDevice(s, u, e, p', s', w);
      if u == t {
        TalkingMoves(s, s.pcs[t], e, p');
      } else if Writes(PcOf(s, u)) == Some(w) {
        WriterAlone(s, u, t, w);
      }
    } else {
      var u, v, e, p', q' :| Joint(s, u, v, e, p', q', s');
      JointDevice(s, u, v, e, p', q', s', w);
    }
  }

  /** Steps made together leave the devices alone. */
  lemma {:induction false} JointDevice(s: State, t: Tid, u: Tid, e: Effect, p': Pc, q': Pc, s': State, w: Wid)
    requires Joint(s, t, u, e, p', q', s')
    ensures WalletOf(s', w).device == WalletOf(s, w).device
  {
    hide Fits;
    var s1 := s.(pcs := s.pcs[u := q']);
    MeetsFit(s1, t, s.pcs[t], PcOf(s, u), e, p', q');
    MeetsDevice(t, s.pcs[t], PcOf(s, u), e, p', q');
    ApplyPcs(s, s1.pcs, t, e);
    hide Meets, Apply, PcOf, Unblocked, Bare, WalletOf;
    ChangeDevice(s1, t, e, p', s', w);
    SameWallets(s, s1, w);
  }

  lemma {:induction false} MeetsDevice(t: Tid, p: Pc, q: Pc, e: Effect, p': Pc, q': Pc)
    requires Meets(t, p, q, e, p', q')
    ensures !e.Connect? && !e.Disconnect?
  {
  }

  lemma {:induction false} SameWallets(s: State, s1: State, w: Wid)
    requires s.wallets == s1.wallets
    ensures WalletOf(s, w) == WalletOf(s1, w)
  {
  }

  /** The device is there during an exchange, and no step of any thread closes it or
      exchanges it for another handle. */
  lemma {:induction false} DeviceStays(run: seq<State>, i: nat, t: Tid)
    requires IsRun(run) && i + 1 < |run| && Talks(PcOf(run[i], t)).Some?
    ensures var w := Talks(PcOf(run[i], t)).value;
            WalletOf(run[i], w).device.Some? && WalletOf(run[i + 1], w).device == WalletOf(run[i], w).device
  {
    hide Next, PcOf, WalletOf, Needs, Talks, PendInv, TokenInv;
    RunInv(run, i);
    UnderLock(PcOf(run[i], t));
    StepDeviceStays(run[i], run[i + 1], t);
  }

  /** The counter is the number of pending signatures, and an enumeration never overlaps
      one; in particular it never overlaps the exchange of a signature. */
  lemma {:induction false} NoEnumerationDuringSignature(run: seq<State>, i: nat, t: Tid, u: Tid)
    requires IsRun(run) && i < |run|
    ensures run[i].pend == |PendingSet(run[i])|
    ensures PcOf(run[i], u) == Enumerating ==> !Pending(PcOf(run[i], t))
    ensures PcOf(run[i], u) == Enumerating ==> forall w :: PcOf(run[i], t) != Using(w, Sign, Talking)
  {
    hide IsRun, WalletOf;
    RunInv(run, i);
    var s := run[i];
    if PcOf(s, u) == Enumerating {
      assert PendingSet(s) == {};
      assert t in PendingSet(s) <==> Pending(PcOf(s, t));
    }
  }

  /** Giving the token back never waits: the channel is always empty then. */
  lemma {:induction false} GiveBackNeverWaits(run: seq<State>, i: nat, t: Tid, w: Wid, op: Op)
    requires IsRun(run) && i < |run| && PcOf(run[i], t) == Using(w, op, Settled)
    ensures Unblocked(run[i], GiveToken(w))
  {
    hide IsRun, WalletOf, PcOf, ReadersInv, WritersInv, LockInv, HubInv, DeviceInv, PendInv, EnumInv, PlaceInv;
    RunInv(run, i);
    assert Tokens(PcOf(run[i], t)) == Some(w);
  }
}
