/** What Open and Close of a Ledger wallet leave behind (ledger/usbwallet/wallet.go): the
    driver is opened on closed wallets only, an open wallet has its device and a health
    channel, and a Close that returns leaves none of them. */
module WalletStates {
  import opened Options
  import opened WalletMachine
  import opened WalletLocks

  // --------------------------------------------------------------------- one wallet

  /** What a thread at a point that writes wallet `w` knows of it. */
  predicate Knows(p: Pc, w: Wid, x: Wallet) {
    match p
    case Opening(v, stage) =>
      v == w ==> && (stage == Connected || stage == Greeting ==> x.device.Some? && !x.live)
                 && (stage == Marked ==> x.live)
    case TearingDown(v, beat) => v == w && !beat ==> x.quit == None
    case TornDown(v, beat) => v == w ==> x.device == None && !x.live && (!beat ==> x.quit == None)
    case _ => true
  }

  /** An open wallet without a health channel is between two steps of an Open or a Close. */
  predicate Between(p: Pc, w: Wid) {
    p == Opening(w, Marked) || p == TearingDown(w, false)
  }

  /** The state of a wallet as it is between operations, `writer` being the point of the
      thread that writes it, if there is one. */
  predicate Coherent(x: Wallet, w: Wid, writer: Option<Pc>) {
    && (x.live ==> x.device.Some?)
    && (x.live && x.quit == None ==> writer.Some? && Between(writer.value, w))
    && (writer.Some? ==> Knows(writer.value, w, x))
  }

  /** The point of the thread that writes the wallet. */
  function WriterPc(s: State, w: Wid): Option<Pc> {
    match WalletOf(s, w).writer
    case None => None
    case Some(t) => Some(PcOf(s, t))
  }

  // ----------------------------------------------------------------- every step keeps it

  /** A step of the thread that writes the wallet, or comes to write it, or stops to. */
  lemma {:induction false} WriterKeeps(s: State, w: Wid, t: Tid, p: Pc, e: Effect, p': Pc)
    requires Moves(s, p, e, p') && Unblocked(s, e)
    requires Writes(p) == Some(w) || e == Lock(w)
    requires Coherent(WalletOf(s, w), w, if Writes(p) == Some(w) then Some(p) else None)
    ensures var x := WalletOf(s, w);
            var x' := if Target(e) == Some(w) then OnWallet(x, t, e, s.spare) else x;
            Coherent(x', w, if Writes(p') == Some(w) then Some(p') else None)
  {
    hide WalletOf, UsingMoves;
    if p.Using? { UsingWrites(s, p, e, p'); }
  }

  lemma {:induction false} UsingWrites(s: State, p: Pc, e: Effect, p': Pc)
    requires p.Using? && Moves(s, p, e, p')
    ensures Writes(p) == None && !e.Lock?
  {
    hide WalletOf;
  }

  /** Whoever neither writes the wallet nor comes to changes nothing of this. */
  lemma {:induction false} OtherKeeps(s: State, w: Wid, t: Tid, p: Pc, e: Effect, p': Pc)
    requires Moves(s, p, e, p') && WellPlaced(p) && Writes(p) != Some(w) && e != Lock(w)
    ensures var x := WalletOf(s, w);
            var x' := if Target(e) == Some(w) then OnWallet(x, t, e, s.spare) else x;
            x'.device == x.device && x'.live == x.live && x'.quit == x.quit && x'.writer == x.writer
    ensures Writes(p') != Some(w)
  {
    MovesTrack(s, p, e, p');
    EffectsByWriters(s, p, e, p');
    hide WalletOf, Moves, Writes, WellPlaced;
  }

  lemma {:induction false} EffectsByWriters(s: State, p: Pc, e: Effect, p': Pc)
    requires Moves(s, p, e, p')
    ensures !e.NewQuit?
    ensures e.MarkOpen? || e.ClearQuit? || e.Connect? || e.Disconnect? ==> Writes(p) == Some(e.w)
  {
    hide WalletOf;
  }

  lemma {:induction false} CoherentSame(x: Wallet, x': Wallet, w: Wid, writer: Option<Pc>)
    requires Coherent(x, w, writer) && x'.device == x.device && x'.live == x.live && x'.quit == x.quit
    ensures Coherent(x', w, writer)
  {
  }

  /** Who writes the wallet before and after a step. */
  lemma {:induction false} StepWriter(s: State, t: Tid, e: Effect, p': Pc, s': State, w: Wid)
    requires Change(s, t, e, p', s') && WritersInv(s)
    ensures WriterPc(s', w)
            == if Writes(p') == Some(w) then Some(p')
               else if Writes(s.pcs[t]) == Some(w) then None else WriterPc(s, w)
    ensures Writes(s.pcs[t]) == Some(w) ==> WriterPc(s, w) == Some(s.pcs[t])
    ensures e == Lock(w) ==> WriterPc(s, w) == None
  {
    hide PcOf, WalletOf, Apply, Reads, Writes, Waits, Tokens, Hubs, Pending, Needs, WellPlaced;
    StepWriters(s, t, e, p', s');
    Current(s, t);
    Frame(s, t, e, p', s', t, w);
    var x := WalletOf(s, w);
    assert x.writer == Some(t) <==> Writes(PcOf(s, t)) == Some(w);
    assert WalletOf(s', w).writer == Some(t) <==> Writes(PcOf(s', t)) == Some(w);
    if x.writer.Some? && x.writer.value != t { Frame(s, t, e, p', s', x.writer.value, w); }
  }

  lemma {:induction false} StepStates(s: State, t: Tid, e: Effect, p': Pc, s': State, w: Wid)
    requires Step(s, t, e, p', s') && Inv(s) && Coherent(WalletOf(s, w), w, WriterPc(s, w))
    ensures Coherent(WalletOf(s', w), w, WriterPc(s', w))
  {
    var p := s.pcs[t];
    Current(s, t);
    Placed(s, t);
    MovesFit(s, p, e, p');
    hide Moves, Unblocked, Apply, WalletOf, PcOf, Coherent, WriterPc, Fits, Target, OnWallet, Writes, WellPlaced;
    Frame(s, t, e, p', s', t, w);
    StepWriter(s, t, e, p', s', w);
    if Writes(p) == Some(w) || e == Lock(w) {
      if e == Lock(w) { LockTakes(s, p, e, p', w); }
      WriterKeeps(s, w, t, p, e, p');
    } else {
      OtherKeeps(s, w, t, p, e, p');
      CoherentSame(WalletOf(s, w), WalletOf(s', w), w, WriterPc(s, w));
    }
  }

  lemma {:induction false} LockTakes(s: State, p: Pc, e: Effect, p': Pc, w: Wid)
    requires Fits(s, p, e, p') && e == Lock(w)
    ensures Writes(p) == None && Writes(p') == Some(w)
  {
    hide Reads, Writes, Waits, Tokens, Hubs, Pending, Needs, WellPlaced;
  }

  /** Steps made together: only an Open that starts its health check writes a wallet. */
  lemma {:induction false} JointWallet(s: State, t: Tid, u: Tid, e: Effect, p': Pc, q': Pc, s': State, w: Wid)
    requires Joint(s, t, u, e, p', q', s')
    ensures var x, x' := WalletOf(s, w), WalletOf(s', w);
            && x'.writer == x.writer && x'.device == x.device && x'.live == x.live
            && x'.quit == if e == NewQuit(w) then Some(s.spare) else x.quit
    ensures PcOf(s, t) == s.pcs[t] && PcOf(s', t) == p' && PcOf(s', u) == q'
    ensures Meets(t, PcOf(s, t), PcOf(s, u), e, p', q')
    ensures forall v: Tid :: v != t && v != u ==> PcOf(s', v) == PcOf(s, v)
  {
    JointEffect(t, s.pcs[t], PcOf(s, u), e, p', q');
    hide Meets;
  }

  lemma {:induction false} JointEffect(t: Tid, p: Pc, q: Pc, e: Effect, p': Pc, q': Pc)
    requires Meets(t, p, q, e, p', q')
    ensures e == Nothing || e.NewQuit?
    ensures Writes(q) == None
    ensures if e.NewQuit? then p == Opening(e.w, Marked) && p' == Opening(e.w, Over) else Writes(p) == None
  {
  }

  lemma {:induction false} JointStates(s: State, t: Tid, u: Tid, e: Effect, p': Pc, q': Pc, s': State, w: Wid)
    requires Joint(s, t, u, e, p', q', s') && WritersInv(s) && Coherent(WalletOf(s, w), w, WriterPc(s, w))
    ensures Coherent(WalletOf(s', w), w, WriterPc(s', w))
  {
    JointWallet(s, t, u, e, p', q', s', w);
    JointEffect(t, PcOf(s, t), PcOf(s, u), e, p', q');
    hide Joint, PcOf, WalletOf, Meets;
    var x := WalletOf(s, w);
    if x.writer.Some? {
      var v := x.writer.value;
      assert Writes(PcOf(s, v)) == Some(w);
    }
    assert x.writer == Some(t) <==> Writes(PcOf(s, t)) == Some(w);
  }

  lemma {:induction false} RunStates(run: seq<State>, i: nat, w: Wid)
    requires IsRun(run) && i < |run|
    ensures Coherent(WalletOf(run[i], w), w, WriterPc(run[i], w))
  {
    hide Coherent, Step, Joint, PcOf, Inv, Next, WriterPc, WalletOf;
    if i == 0 {
      InitialStates(run[0], w);
    } else {
      RunStates(run, i - 1, w);
      RunInv(run, i - 1);
      assert Next(run[i - 1], run[i - 1 + 1]);
      NextStates(run[i - 1], run[i], w);
    }
  }

  lemma {:induction false} InitialStates(s: State, w: Wid)
    requires Initial(s)
    ensures Coherent(WalletOf(s, w), w, WriterPc(s, w))
  {
  }

  lemma {:induction false} NextStates(s: State, s': State, w: Wid)
    requires Next(s, s') && Inv(s) && Coherent(WalletOf(s, w), w, WriterPc(s, w))
    ensures Coherent(WalletOf(s', w), w, WriterPc(s', w))
  {
    hide Coherent, Step, Joint, PcOf, WriterPc, WalletOf, PendInv, TokenInv, DeviceInv, EnumInv, PlaceInv;
    if t, e, p' :| Step(s, t, e, p', s') {
      StepStates(s, t, e, p', s', w);
    } else {
      var t, u, e, p', q' :| Joint(s, t, u, e, p', q', s');
      JointStates(s, t, u, e, p', q', s', w);
    }
  }

  // -------------------------------------------------------------------- guarantees

  /** The driver is opened on a wallet that is connected and not open yet, never again on
      one that is open; and an open wallet that nobody is changing has its device and the
      channel to end its health check. */
  lemma {:induction false} OpenWallet(run: seq<State>, i: nat, t: Tid, w: Wid)
    requires IsRun(run) && i < |run|
    ensures var x := WalletOf(run[i], w);
            && (PcOf(run[i], t) == Opening(w, Greeting) ==> x.device.Some? && !x.live)
            && (x.live && x.writer == None ==> x.device.Some? && x.quit.Some?)
  {
    hide IsRun, PcOf, WalletOf, ReadersInv, LockInv, WaitersInv, HubInv, TokenInv, DeviceInv, PendInv, EnumInv;
    RunInv(run, i);
    RunStates(run, i, w);
    var s := run[i];
    assert WalletOf(s, w).writer == Some(t) <==> Writes(PcOf(s, t)) == Some(w);
  }

  /** When Close, or a health check that failed, is about to give back the lock, the wallet
      has no device and is not open; after a Close it has no health channel either. */
  lemma {:induction false} ClosedWallet(run: seq<State>, i: nat, t: Tid, w: Wid, beat: bool)
    requires IsRun(run) && i < |run| && PcOf(run[i], t) == TornDown(w, beat)
    ensures var x := WalletOf(run[i], w);
            x.device == None && !x.live && (!beat ==> x.quit == None)
  {
    hide IsRun, PcOf, WalletOf, ReadersInv, LockInv, WaitersInv, HubInv, TokenInv, DeviceInv, PendInv, EnumInv;
    RunInv(run, i);
    RunStates(run, i, w);
    var s := run[i];
    assert WalletOf(s, w).writer == Some(t) <==> Writes(PcOf(s, t)) == Some(w);
  }
}
