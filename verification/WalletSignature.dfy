/** A signature on a Ledger wallet, step by step, with an enumeration that backs off while
    it is pending and goes through afterwards (ledger/usbwallet/wallet.go and hub.go). */
module WalletSignature {
  import opened Options
  import opened WalletMachine
  import opened WalletLostClose

  /** The state after a step of one thread. */
  function Stepped(s: State, t: Tid, e: Effect, p': Pc): State {
    Apply(s, t, e).(pcs := s.pcs[t := p'])
  }

  ghost predicate EndsIn(run: seq<State>, s: State) {
    IsRun(run) && run[|run| - 1] == s
  }

  /** What the steps leave alone or change: the wallet's part, the hub's and the points. */
  ghost predicate Looks(s: State, signer: Pc, other: Pc, x: Wallet, hub: Option<Tid>, pend: int) {
    && 2 in s.pcs && 4 in s.pcs && s.pcs[2] == signer && s.pcs[4] == other
    && WalletOf(s, 0) == x && s.hub == hub && s.pend == pend
  }

  lemma {:induction false} Extended(run: seq<State>, s: State, t: Tid, e: Effect, p': Pc)
    requires EndsIn(run, s) && t in s.pcs && Moves(s, s.pcs[t], e, p') && Unblocked(s, e)
    ensures EndsIn(run + [Stepped(s, t, e, p')], Stepped(s, t, e, p'))
  {
    var s' := Stepped(s, t, e, p');
    assert Step(s, t, e, p', s');
    assert Next(s, s');
    hide Next, Initial, Moves, Unblocked, Apply;
    var more := run + [s'];
    forall i | 0 <= i < |more| - 1 ensures Next(more[i], more[i + 1]) {
      if i < |run| - 1 { assert Next(run[i], run[i + 1]); }
    }
  }

  /** The signer makes a step on the wallet. */
  lemma {:induction false} OnWalletStep(
      run: seq<State>, s: State, p: Pc, q: Pc, x: Wallet, hub: Option<Tid>, pend: int, e: Effect, p': Pc)
    returns (more: seq<State>, s': State)
    requires EndsIn(run, s) && Looks(s, p, q, x, hub, pend) && Moves(s, p, e, p') && Unblocked(s, e)
    requires e == Nothing || Target(e) == Some(0)
    ensures EndsIn(more, s') && run <= more && |more| == |run| + 1
    ensures Looks(s', p', q, if e == Nothing then x else OnWallet(x, 2, e, s.spare), hub, pend)
  {
    hide EndsIn, Moves, Unblocked, OnWallet;
    s' := Stepped(s, 2, e, p');
    Extended(run, s, 2, e, p');
    more := run + [s'];
  }

  /** The signer, or the other thread, makes a step on the hub. */
  lemma {:induction false} OnHubStep(
      run: seq<State>, s: State, p: Pc, q: Pc, x: Wallet, hub: Option<Tid>, pend: int, t: Tid, e: Effect, p': Pc)
    returns (more: seq<State>, s': State)
    requires EndsIn(run, s) && Looks(s, p, q, x, hub, pend) && (t == 2 || t == 4)
    requires Moves(s, s.pcs[t], e, p') && Unblocked(s, e) && Target(e) == None
    ensures EndsIn(more, s') && run <= more && |more| == |run| + 1
    ensures Looks(s', if t == 2 then p' else p, if t == 4 then p' else q, x,
                  if e.HubLock? then Some(t) else if e.HubUnlock? then None else hub,
                  if e.Raise? then pend + 1 else if e.Lower? then pend - 1 else pend)
  {
    hide EndsIn, Moves, Unblocked, OnWallet;
    s' := Stepped(s, t, e, p');
    Extended(run, s, t, e, p');
    more := run + [s'];
  }

  lemma {:induction false} Prefix(a: seq<State>, b: seq<State>, c: seq<State>)
    requires a <= b <= c
    ensures a <= c
  {
  }

  function Signing(at: At): Pc {
    Using(0, Sign, at)
  }

  const TAKEN := OPEN_WALLET.(readers := {2}, token := false)

  /** Up to the token ... */
  lemma {:induction false} TakesToken() returns (run: seq<State>, s: State)
    ensures EndsIn(run, s) && Looks(s, Signing(Taken), Idle, TAKEN, None, 0)
  {
    run := OpenedRun(true);
    s := run[|run| - 1];
    assert Looks(s, Idle, Idle, OPEN_WALLET, None, 0);
    hide EndsIn, IsRun, Reaches;
    var x := OPEN_WALLET.(readers := {2});
    assert OPEN_WALLET.readers + {2} == {2};
    run, s := OnWalletStep(run, s, Idle, Idle, OPEN_WALLET, None, 0, RLock(0), Signing(Locked));
    run, s := OnWalletStep(run, s, Signing(Locked), Idle, x, None, 0, Nothing, Signing(Checked));
    run, s := OnWalletStep(run, s, Signing(Checked), Idle, x, None, 0, TakeToken(0), Signing(Taken));
  }

  /** ... through the hub's counter into the exchange ... */
  lemma {:induction false} EntersExchange(run: seq<State>, s: State) returns (more: seq<State>, s': State)
    requires EndsIn(run, s) && Looks(s, Signing(Taken), Idle, TAKEN, None, 0)
    ensures EndsIn(more, s') && Looks(s', Signing(Talking), Idle, TAKEN, None, 1)
  {
    hide EndsIn;
    more, s' := OnHubStep(run, s, Signing(Taken), Idle, TAKEN, None, 0, 2, HubLock, Signing(Entering));
    more, s' := OnHubStep(more, s', Signing(Entering), Idle, TAKEN, Some(2), 0, 2, Raise, Signing(Counted));
    more, s' := OnHubStep(more, s', Signing(Counted), Idle, TAKEN, Some(2), 1, 2, HubUnlock, Signing(Ready));
    more, s' := OnWalletStep(more, s', Signing(Ready), Idle, TAKEN, None, 1, Nothing, Signing(Talking));
  }

  /** ... while an enumeration comes and backs off ... */
  lemma {:induction false} BacksOff(run: seq<State>, s: State) returns (more: seq<State>, s': State)
    requires EndsIn(run, s) && Looks(s, Signing(Talking), Idle, TAKEN, None, 1)
    ensures EndsIn(more, s') && Looks(s', Signing(Talking), Idle, TAKEN, None, 1)
    ensures |more| == |run| + 2 && Looks(more[|run|], Signing(Talking), Guarding, TAKEN, Some(4), 1)
  {
    hide EndsIn;
    more, s' := OnHubStep(run, s, Signing(Talking), Idle, TAKEN, None, 1, 4, HubLock, Guarding);
    LastOf(more, s');
    var m := more;
    more, s' := OnHubStep(more, s', Signing(Talking), Guarding, TAKEN, Some(4), 1, 4, HubUnlock, Idle);
    assert more[|run|] == m[|run|];
  }

  lemma {:induction false} LastOf(run: seq<State>, s: State)
    requires EndsIn(run, s)
    ensures run != [] && run[|run| - 1] == s
  {
  }

  /** ... to the end of the signature ... */
  lemma {:induction false} Ends(run: seq<State>, s: State) returns (more: seq<State>, s': State)
    requires EndsIn(run, s) && Looks(s, Signing(Talking), Idle, TAKEN, None, 1)
    ensures EndsIn(more, s') && Looks(s', Signing(Settled), Idle, TAKEN, None, 0) && run <= more
  {
    hide EndsIn;
    more, s' := OnWalletStep(run, s, Signing(Talking), Idle, TAKEN, None, 1, Nothing, Signing(Talked));
    var m2 := more;
    more, s' := OnHubStep(more, s', Signing(Talked), Idle, TAKEN, None, 1, 2, HubLock, Signing(Leaving));
    Prefix(run, m2, more);
    var m3 := more;
    more, s' := OnHubStep(more, s', Signing(Leaving), Idle, TAKEN, Some(2), 1, 2, Lower, Signing(Uncounted));
    Prefix(run, m3, more);
    var m4 := more;
    more, s' := OnHubStep(more, s', Signing(Uncounted), Idle, TAKEN, Some(2), 0, 2, HubUnlock, Signing(Settled));
    Prefix(run, m4, more);
  }

  /** ... after which it goes through. */
  lemma {:induction false} Returns(run: seq<State>, s: State) returns (more: seq<State>, s': State)
    requires EndsIn(run, s) && Looks(s, Signing(Settled), Idle, TAKEN, None, 0)
    ensures EndsIn(more, s') && Looks(s', Idle, Enumerating, OPEN_WALLET, Some(4), 0) && run <= more
  {
    hide EndsIn;
    var x := OPEN_WALLET.(readers := {2});
    assert {2} - {2} == {};
    more, s' := OnWalletStep(run, s, Signing(Settled), Idle, TAKEN, None, 0, GiveToken(0), Signing(GivenBack));
    var m2 := more;
    more, s' := OnWalletStep(more, s', Signing(GivenBack), Idle, x, None, 0, RUnlock(0), Idle);
    Prefix(run, m2, more);
    var m3 := more;
    more, s' := OnHubStep(more, s', Idle, Idle, OPEN_WALLET, None, 0, 4, HubLock, Guarding);
    Prefix(run, m3, more);
    var m4 := more;
    more, s' := OnHubStep(more, s', Idle, Guarding, OPEN_WALLET, Some(4), 0, 4, Nothing, Enumerating);
    Prefix(run, m4, more);
  }

  /** A run in which a signature talks to the device while an enumeration holds the hub's
      mutex and finds the counter raised; it backs off, the signature returns the token, the
      lock and the counter, and the enumeration then goes through. */
  lemma {:induction false} SignatureRun() returns (run: seq<State>, i: nat)
    ensures IsRun(run) && i < |run| - 1
    ensures PcOf(run[i], 2) == Signing(Talking) && PcOf(run[i], 4) == Guarding && run[i].pend == 1
    ensures PcOf(run[i + 1], 2) == Signing(Talking) && PcOf(run[i + 1], 4) == Idle
    ensures var s := run[|run| - 1];
            && PcOf(s, 2) == Idle && PcOf(s, 4) == Enumerating && s.pend == 0
            && WalletOf(s, 0).token && WalletOf(s, 0).readers == {}
  {
    var s;
    run, s := TakesToken();
    run, s := EntersExchange(run, s);
    i := |run|;
    run, s := BacksOff(run, s);
    LastOf(run, s);
    var m := run;
    run, s := Ends(run, s);
    var m2 := run;
    run, s := Returns(run, s);
    LastOf(run, s);
    Prefix(m, m2, run);
    assert m[i] == run[i] && m[i + 1] == run[i + 1];
    assert IsRun(run);
    hide IsRun;
  }
}
