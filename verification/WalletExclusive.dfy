/** When no Close of a Ledger wallet is lost (Open, heartbeat and Close in
    ledger/usbwallet/wallet.go): it is enough that callers keep a Close of a wallet apart
    from every other Close and Open of it. */
module WalletExclusive {
  import opened Options
  import opened WalletMachine
  import opened WalletProgress

  // ------------------------------------------------------- what callers see to

  /** In Close, with the message handed to the health check or nobody to hand it to. */
  predicate Handed(p: Pc, w: Wid) {
    p == AwaitingReply(w) || p == BeforeTeardown(w, false) || p == Draining(w, false) || p == Clearing(w)
  }

  /** In Close, from looking up the health channel to forgetting it. */
  predicate Closes(p: Pc, w: Wid) {
    p == ReadingQuit(w) || (p.Sending? && p.w == w) || Handed(p, w)
  }

  predicate Opens(p: Pc, w: Wid) {
    p.Opening? && p.w == w
  }

  ghost predicate OneClose(s: State, w: Wid) {
    forall t: Tid, u: Tid :: Closes(PcOf(s, t), w) && Closes(PcOf(s, u), w) ==> t == u
  }

  ghost predicate NoOpenDuringClose(s: State, w: Wid) {
    forall t: Tid, u: Tid :: Closes(PcOf(s, t), w) ==> !Opens(PcOf(s, u), w)
  }

  /** While a thread is in Close of the wallet, no other is in Open or Close of it. */
  ghost predicate Exclusive(s: State, w: Wid) {
    OneClose(s, w) && NoOpenDuringClose(s, w)
  }

  // ------------------------------------------------------------- what that gives

  ghost predicate HasBeat(s: State, w: Wid) {
    exists u: Tid :: Beats(PcOf(s, u), w)
  }

  ghost predicate HasHanded(s: State, w: Wid) {
    exists t: Tid :: Handed(PcOf(s, t), w)
  }

  /** A wallet with a health channel has a health check, unless a Close has just ended it;
      and a Close sends on the current channel, to a health check that runs. */
  ghost predicate ServedInv(s: State, w: Wid) {
    && (WalletOf(s, w).quit.Some? ==> HasBeat(s, w) || HasHanded(s, w))
    && (forall t: Tid :: PcOf(s, t).Sending? && PcOf(s, t).w == w ==>
          WalletOf(s, w).quit == Some(PcOf(s, t).ch) && HasBeat(s, w))
  }

  /** What a step made alone does to the parties of a Close. */
  lemma {:induction false} StepParties(s: State, p: Pc, e: Effect, p': Pc, w: Wid)
    requires Moves(s, p, e, p')
    ensures Handed(p, w) && e != ClearQuit(w) ==> Handed(p', w)
    ensures e == ClearQuit(w) ==> Closes(p, w)
    ensures p'.Sending? ==> p == ReadingQuit(p'.w) && WalletOf(s, p'.w).quit == Some(p'.ch)
  {
    hide WalletOf, UsingMoves, OpeningMoves;
    if p.Using? || p.Opening? { StepElsewhere(s, p, e, p', w); }
  }

  lemma {:induction false} StepElsewhere(s: State, p: Pc, e: Effect, p': Pc, w: Wid)
    requires Moves(s, p, e, p') && (p.Using? || p.Opening?)
    ensures !Handed(p, w) && e != ClearQuit(w) && !p'.Sending?
  {
    hide WalletOf;
  }

  lemma {:induction false} SendingAlone(s: State, u: Tid, t: Tid, w: Wid)
    requires Exclusive(s, w) && PcOf(s, u).Sending? && PcOf(s, u).w == w && t != u
    ensures !Closes(PcOf(s, t), w) && !Opens(PcOf(s, t), w)
  {
    hide PcOf;
    assert Closes(PcOf(s, u), w);
  }

  lemma {:induction false} OnlyReading(s: State, t: Tid, w: Wid)
    requires Exclusive(s, w) && PcOf(s, t) == ReadingQuit(w)
    ensures !HasHanded(s, w)
  {
    hide PcOf;
    forall u: Tid ensures !Handed(PcOf(s, u), w) {
      assert Handed(PcOf(s, u), w) ==> Closes(PcOf(s, u), w) && Closes(PcOf(s, t), w);
    }
  }

  lemma {:induction false} StepBeatStays(s: State, t: Tid, e: Effect, p': Pc, s': State, w: Wid)
    requires Step(s, t, e, p', s')
    ensures HasBeat(s, w) ==> HasBeat(s', w)
    ensures HasHanded(s, w) && e != ClearQuit(w) ==> HasHanded(s', w)
  {
    StepParties(s, s.pcs[t], e, p', w);
    StepBeats(s, s.pcs[t], e, p', w);
    StepView(s, t, e, p', s', t, w);
    hide PcOf, WalletOf, Step, Moves, Beats, Handed;
    if u: Tid :| Beats(PcOf(s, u), w) {
      StepView(s, t, e, p', s', u, w);
      assert Beats(PcOf(s', u), w);
    }
    if u: Tid :| Handed(PcOf(s, u), w) && e != ClearQuit(w) {
      StepView(s, t, e, p', s', u, w);
      assert Handed(PcOf(s', u), w);
    }
  }

  lemma {:induction false} StepServed(s: State, t: Tid, e: Effect, p': Pc, s': State, w: Wid)
    requires Step(s, t, e, p', s') && Exclusive(s, w) && ServedInv(s, w)
    ensures ServedInv(s', w)
  {
    StepBeatStays(s, t, e, p', s', w);
    StepParties(s, s.pcs[t], e, p', w);
    StepAlone(s, s.pcs[t], e, p');
    StepView(s, t, e, p', s', t, w);
    hide PcOf, WalletOf, Step, Moves, Closes, Exclusive, HasBeat, HasHanded;
    forall u: Tid | PcOf(s', u).Sending? && PcOf(s', u).w == w
      ensures WalletOf(s', w).quit == Some(PcOf(s', u).ch) && HasBeat(s', w)
    {
      StepView(s, t, e, p', s', u, w);
      if u == t { OnlyReading(s, t, w); } else { SendingAlone(s, u, t, w); }
    }
  }

  lemma {:induction false} MeetsParties(t: Tid, p: Pc, q: Pc, e: Effect, p': Pc, q': Pc, w: Wid)
    requires Meets(t, p, q, e, p', q')
    ensures e == NewQuit(w) ==> Opens(p, w) && Beats(q', w)
    ensures Beats(q, w) ==> Beats(q', w) || (Closes(p, w) && Handed(p', w))
    ensures (Handed(p, w) ==> Handed(p', w)) && !Handed(q, w) && !Beats(p, w)
    ensures e != ClearQuit(w) && !p'.Sending? && !q'.Sending?
  {
  }

  lemma {:induction false} JointBeatStays(s: State, t: Tid, v: Tid, e: Effect, p': Pc, q': Pc, s': State, w: Wid)
    requires Joint(s, t, v, e, p', q', s')
    ensures HasBeat(s, w) ==> HasBeat(s', w) || (Closes(PcOf(s, t), w) && HasHanded(s', w))
    ensures HasHanded(s, w) ==> HasHanded(s', w)
    ensures e == NewQuit(w) ==> HasBeat(s', w)
  {
    JointView(s, t, v, e, p', q', s', t, w);
    JointView(s, t, v, e, p', q', s', v, w);
    MeetsParties(t, PcOf(s, t), PcOf(s, v), e, p', q', w);
    hide PcOf, WalletOf, Joint, Meets, Beats, Handed, Closes;
    if u: Tid :| Beats(PcOf(s, u), w) {
      JointView(s, t, v, e, p', q', s', u, w);
      assert Beats(PcOf(s', u), w) || Handed(PcOf(s', t), w);
    }
    if u: Tid :| Handed(PcOf(s, u), w) {
      JointView(s, t, v, e, p', q', s', u, w);
      assert Handed(PcOf(s', u), w);
    }
    if e == NewQuit(w) { assert Beats(PcOf(s', v), w); }
  }

  lemma {:induction false} JointServed(s: State, t: Tid, v: Tid, e: Effect, p': Pc, q': Pc, s': State, w: Wid)
    requires Joint(s, t, v, e, p', q', s') && Exclusive(s, w) && ServedInv(s, w)
    ensures ServedInv(s', w)
  {
    JointBeatStays(s, t, v, e, p', q', s', w);
    MeetsParties(t, PcOf(s, t), PcOf(s, v), e, p', q', w);
    JointView(s, t, v, e, p', q', s', t, w);
    hide PcOf, WalletOf, Joint, Meets, Closes, Exclusive, HasBeat, HasHanded;
    forall u: Tid | PcOf(s', u).Sending? && PcOf(s', u).w == w
      ensures WalletOf(s', w).quit == Some(PcOf(s', u).ch) && HasBeat(s', w)
    {
      JointView(s, t, v, e, p', q', s', u, w);
      SendingAlone(s, u, t, w);
    }
  }

  lemma {:induction false} RunServed(run: seq<State>, i: nat, w: Wid)
    requires IsRun(run) && i < |run| && forall k :: 0 <= k < i ==> Exclusive(run[k], w)
    ensures ServedInv(run[i], w)
  {
    if i == 0 {
      assert forall t: Tid :: PcOf(run[0], t) == Idle;
    }
    hide ServedInv, Exclusive, Step, Joint, PcOf, Initial;
    if i > 0 {
      RunServed(run, i - 1, w);
      var s, s' := run[i - 1], run[i];
      assert Next(run[i - 1], run[i - 1 + 1]);
      if t, e, p' :| Step(s, t, e, p', s') {
        StepServed(s, t, e, p', s', w);
      } else {
        var t, v, e, p', q' :| Joint(s, t, v, e, p', q', s');
        JointServed(s, t, v, e, p', q', s', w);
      }
    }
  }

  /** While callers keep to Exclusive, every Close that sends can be served, so none is
      ever lost. Either overlap alone loses one: see SecondCloseIsLost and OnlyCloseIsLost. */
  lemma {:induction false} NoCloseIsLost(run: seq<State>, i: nat, t: Tid, w: Wid, ch: nat)
    requires IsRun(run) && i < |run| && forall k :: 0 <= k < i ==> Exclusive(run[k], w)
    requires PcOf(run[i], t) == Sending(w, ch)
    ensures Servable(run[i], w, ch)
  {
    hide IsRun, Exclusive, WalletOf, PcOf;
    RunServed(run, i, w);
  }
}
