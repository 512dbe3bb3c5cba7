/** When the operations of the Ledger wallets can go on (ledger/usbwallet/wallet.go). The
    locks and the token never stall them. A Close can stall: it hands a message to the
    wallet's health check over the channel it looked up, and waits for good when no health
    check is left to take it, as may happen when another Close or an Open overlaps it. */
module WalletProgress {
  import opened Options
  import opened WalletMachine
  import opened WalletLocks

  // ------------------------------------------------------- who can serve a Close

  /** A thread that runs the wallet's health check. */
  predicate Beats(p: Pc, w: Wid) {
    || p == Looping(w) || (p.Listening? && p.w == w) || p == Timed(w) || (p.Using? && p.w == w && p.op == Heartbeat)
    || p == BeforeTeardown(w, true) || p == Draining(w, true) || p == TearingDown(w, true) || p == TornDown(w, true)
  }

  ghost predicate ListensOn(s: State, w: Wid, ch: nat) {
    exists u: Tid :: PcOf(s, u) == Listening(w, Some(ch))
  }

  /** A health check listens on the channel, or one is running and will look the channel
      up when it next comes to the top of its loop. */
  ghost predicate Servable(s: State, w: Wid, ch: nat) {
    ListensOn(s, w, ch) || (WalletOf(s, w).quit == Some(ch) && exists u: Tid :: Beats(PcOf(s, u), w))
  }

  /** An operation under way: not a health check at rest on the current channel, and not a
      Close that nobody is left to serve. */
  ghost predicate Busy(s: State, t: Tid) {
    var p := PcOf(s, t);
    && p != Idle
    && !(p.Listening? && p.on == WalletOf(s, p.w).quit)
    && !(p.Sending? && !Servable(s, p.w, p.ch))
  }

  ghost predicate CanStep(s: State, t: Tid) {
    || (exists e, p' :: Moves(s, PcOf(s, t), e, p') && Unblocked(s, e))
    || (exists u: Tid, e, p', q' :: u != t && Meets(t, PcOf(s, t), PcOf(s, u), e, p', q'))
  }

  // --------------------------------------------------------------- the rendezvous

  /** A health check that was told to end answers a Close that waits for it, one to one. */
  ghost predicate ReplyInv(s: State) {
    && (forall u: Tid :: PcOf(s, u).Replying? ==> PcOf(s, PcOf(s, u).to) == AwaitingReply(PcOf(s, u).w))
    && (forall u: Tid, v: Tid ::
          PcOf(s, u).Replying? && PcOf(s, v).Replying? && PcOf(s, u).to == PcOf(s, v).to ==> u == v)
    && (forall t: Tid :: PcOf(s, t).AwaitingReply? ==> Answered(s, t))
  }

  ghost predicate Answered(s: State, t: Tid) {
    exists u: Tid :: PcOf(s, u).Replying? && PcOf(s, u).to == t
  }

  /** Channels in use have been made. */
  ghost predicate ChannelInv(s: State) {
    && (forall w: Wid :: WalletOf(s, w).quit.Some? ==> WalletOf(s, w).quit.value < s.spare)
    && (forall t: Tid :: PcOf(s, t).Sending? ==> PcOf(s, t).ch < s.spare)
    && (forall t: Tid :: PcOf(s, t).Listening? && PcOf(s, t).on.Some? ==> PcOf(s, t).on.value < s.spare)
  }

  /** What a step alone does to one thread's point and one wallet's channel. */
  lemma {:induction false} StepView(s: State, t: Tid, e: Effect, p': Pc, s': State, u: Tid, w: Wid)
    requires Step(s, t, e, p', s')
    ensures PcOf(s', u) == if u == t then p' else PcOf(s, u)
    ensures PcOf(s, t) == s.pcs[t]
    ensures WalletOf(s', w).quit == if e == NewQuit(w) then Some(s.spare)
                                    else if e == ClearQuit(w) then None else WalletOf(s, w).quit
    ensures s'.spare >= s.spare && (e.NewQuit? ==> s'.spare > s.spare)
  {
    hide Moves;
  }

  lemma {:induction false} JointView(s: State, t: Tid, v: Tid, e: Effect, p': Pc, q': Pc, s': State, u: Tid, w: Wid)
    requires Joint(s, t, v, e, p', q', s')
    ensures PcOf(s', u) == if u == t then p' else if u == v then q' else PcOf(s, u)
    ensures PcOf(s, t) == s.pcs[t]
    ensures WalletOf(s', w).quit == if e == NewQuit(w) then Some(s.spare)
                                    else if e == ClearQuit(w) then None else WalletOf(s, w).quit
    ensures s'.spare >= s.spare && (e.NewQuit? ==> s'.spare > s.spare)
  {
    hide Meets;
  }

  /** A step made alone neither starts nor ends a rendezvous, and reads a channel only
      from the wallet. */
  lemma {:induction false} StepAlone(s: State, p: Pc, e: Effect, p': Pc)
    requires Moves(s, p, e, p')
    ensures !p.Replying? && !p.AwaitingReply? && !p.Sending? && !p'.Replying? && !p'.AwaitingReply? && !e.NewQuit?
    ensures p'.Sending? ==> WalletOf(s, p'.w).quit == Some(p'.ch)
    ensures p'.Listening? ==> p == Looping(p'.w) && p'.on == WalletOf(s, p'.w).quit
  {
    hide WalletOf;
  }

  /** Only a rendezvous starts or ends a health check. */
  lemma {:induction false} StepBeats(s: State, p: Pc, e: Effect, p': Pc, w: Wid)
    requires Moves(s, p, e, p')
    ensures Beats(p, w) <==> Beats(p', w)
  {
    hide WalletOf, UsingMoves, OpeningMoves;
    if p.Using? || p.Opening? { StepBeatsHolding(s, p, e, p', w); }
  }

  lemma {:induction false} StepBeatsHolding(s: State, p: Pc, e: Effect, p': Pc, w: Wid)
    requires Moves(s, p, e, p') && (p.Using? || p.Opening?)
    ensures Beats(p, w) <==> Beats(p', w)
  {
    hide WalletOf, EndingMoves;
  }

  lemma {:induction false} StepReply(s: State, t: Tid, e: Effect, p': Pc, s': State)
    requires Step(s, t, e, p', s') && ReplyInv(s)
    ensures ReplyInv(s')
  {
    StepAlone(s, s.pcs[t], e, p');
    forall u: Tid ensures PcOf(s', u) == if u == t then p' else PcOf(s, u) { StepView(s, t, e, p', s', u, 0); }
    StepView(s, t, e, p', s', t, 0);
    hide PcOf, Step;
    forall v: Tid | PcOf(s', v).AwaitingReply? ensures Answered(s', v) {
      assert Answered(s, v);
      var u: Tid :| PcOf(s, u).Replying? && PcOf(s, u).to == v;
      assert PcOf(s', u).Replying? && PcOf(s', u).to == v;
    }
  }

  lemma {:induction false} JointReply(s: State, t: Tid, v: Tid, e: Effect, p': Pc, q': Pc, s': State)
    requires Joint(s, t, v, e, p', q', s') && ReplyInv(s)
    ensures ReplyInv(s')
  {
    forall u: Tid ensures PcOf(s', u) == if u == t then p' else if u == v then q' else PcOf(s, u) {
      JointView(s, t, v, e, p', q', s', u, 0);
    }
    JointView(s, t, v, e, p', q', s', t, 0);
    var p, q := PcOf(s, t), PcOf(s, v);
    assert Meets(t, p, q, e, p', q');
    hide PcOf, Joint;
    forall x: Tid | PcOf(s', x).AwaitingReply? ensures Answered(s', x) {
      if x == t {
        assert PcOf(s', v).Replying? && PcOf(s', v).to == t;
      } else {
        assert Answered(s, x);
        var u: Tid :| PcOf(s, u).Replying? && PcOf(s, u).to == x;
        assert PcOf(s', u).Replying? && PcOf(s', u).to == x;
      }
    }
  }

  lemma {:induction false} StepChannels(s: State, t: Tid, e: Effect, p': Pc, s': State)
    requires Step(s, t, e, p', s') && ChannelInv(s)
    ensures ChannelInv(s')
  {
    StepAlone(s, s.pcs[t], e, p');
    hide PcOf, Step, WalletOf;
    forall w: Wid | WalletOf(s', w).quit.Some? ensures WalletOf(s', w).quit.value < s'.spare {
      StepView(s, t, e, p', s', t, w);
    }
    forall u: Tid
      ensures PcOf(s', u).Sending? ==> PcOf(s', u).ch < s'.spare
      ensures PcOf(s', u).Listening? && PcOf(s', u).on.Some? ==> PcOf(s', u).on.value < s'.spare
    {
      StepView(s, t, e, p', s', u, 0);
    }
  }

  lemma {:induction false} JointChannels(s: State, t: Tid, v: Tid, e: Effect, p': Pc, q': Pc, s': State)
    requires Joint(s, t, v, e, p', q', s') && ChannelInv(s)
    ensures ChannelInv(s')
  {
    assert Meets(t, s.pcs[t], PcOf(s, v), e, p', q');
    hide PcOf, Joint, WalletOf;
    forall w: Wid | WalletOf(s', w).quit.Some? ensures WalletOf(s', w).quit.value < s'.spare {
      JointView(s, t, v, e, p', q', s', t, w);
    }
    forall u: Tid
      ensures PcOf(s', u).Sending? ==> PcOf(s', u).ch < s'.spare
      ensures PcOf(s', u).Listening? && PcOf(s', u).on.Some? ==> PcOf(s', u).on.value < s'.spare
    {
      JointView(s, t, v, e, p', q', s', u, 0);
    }
  }

  lemma {:induction false} RunQuit(run: seq<State>, i: nat)
    requires IsRun(run) && i < |run|
    ensures ReplyInv(run[i]) && ChannelInv(run[i])
  {
    if i == 0 {
      assert forall t: Tid :: PcOf(run[0], t) == Idle;
    }
    hide ReplyInv, ChannelInv, Step, Joint, PcOf, Initial;
    if i > 0 {
      RunQuit(run, i - 1);
      var s, s' := run[i - 1], run[i];
      assert Next(run[i - 1], run[i - 1 + 1]);
      if t, e, p' :| Step(s, t, e, p', s') {
        StepReply(s, t, e, p', s');
        StepChannels(s, t, e, p', s');
      } else {
        var t, v, e, p', q' :| Joint(s, t, v, e, p', q', s');
        JointReply(s, t, v, e, p', q', s');
        JointChannels(s, t, v, e, p', q', s');
      }
    }
  }

  // ------------------------------------------------------- when a Close can go on

  /** A Close that sends can go on exactly when a health check listens on the channel it
      looked up; once its message is taken, the answer is always on its way. */
  lemma {:induction false} CloseGoesOn(run: seq<State>, i: nat, t: Tid)
    requires IsRun(run) && i < |run|
    ensures PcOf(run[i], t).Sending? ==>
              (CanStep(run[i], t) <==> ListensOn(run[i], PcOf(run[i], t).w, PcOf(run[i], t).ch))
    ensures PcOf(run[i], t).AwaitingReply? ==> CanStep(run[i], t)
  {
    var s, p := run[i], PcOf(run[i], t);
    RunQuit(run, i);
    hide IsRun, PcOf, ChannelInv;
    if p.Sending? && ListensOn(s, p.w, p.ch) {
      var u: Tid :| PcOf(s, u) == Listening(p.w, Some(p.ch));
      assert Meets(t, p, PcOf(s, u), Nothing, AwaitingReply(p.w), Replying(p.w, t));
    }
    if p.AwaitingReply? {
      assert Answered(s, t);
      var u: Tid :| PcOf(s, u).Replying? && PcOf(s, u).to == t;
      assert Meets(t, p, PcOf(s, u), Nothing, BeforeTeardown(p.w, false), Idle);
    }
  }

  lemma {:induction false} StepUnservable(s: State, t: Tid, e: Effect, p': Pc, s': State, w: Wid, ch: nat)
    requires Step(s, t, e, p', s') && !Servable(s, w, ch)
    ensures !Servable(s', w, ch)
  {
    StepAlone(s, s.pcs[t], e, p');
    StepView(s, t, e, p', s', t, w);
    StepBeats(s, s.pcs[t], e, p', w);
    hide PcOf, Moves, WalletOf, Apply, Beats;
    forall u: Tid
      ensures PcOf(s', u) != Listening(w, Some(ch))
      ensures WalletOf(s', w).quit == Some(ch) ==> !Beats(PcOf(s', u), w)
    {
      StepView(s, t, e, p', s', u, w);
      assert PcOf(s, u) != Listening(w, Some(ch));
      LoopingBeats(w);
      assert WalletOf(s, w).quit == Some(ch) ==> !Beats(PcOf(s, u), w) && !Beats(PcOf(s, t), w);
    }
  }

  lemma {:induction false} LoopingBeats(w: Wid)
    ensures Beats(Looping(w), w)
  {
  }

  lemma {:induction false} JointUnservable(
      s: State, t: Tid, v: Tid, e: Effect, p': Pc, q': Pc, s': State, w: Wid, ch: nat)
    requires Joint(s, t, v, e, p', q', s') && !Servable(s, w, ch) && ch < s.spare
    ensures !Servable(s', w, ch)
  {
    assert Meets(t, s.pcs[t], PcOf(s, v), e, p', q');
    assert !Beats(p', w) && (Beats(q', w) ==> e == NewQuit(w));
    JointView(s, t, v, e, p', q', s', t, w);
    hide PcOf, Joint, WalletOf, Beats;
    forall u: Tid
      ensures PcOf(s', u) != Listening(w, Some(ch))
      ensures WalletOf(s', w).quit == Some(ch) ==> !Beats(PcOf(s', u), w)
    {
      JointView(s, t, v, e, p', q', s', u, w);
      assert PcOf(s, u) != Listening(w, Some(ch));
      assert WalletOf(s, w).quit == Some(ch) ==> !Beats(PcOf(s, u), w);
    }
  }

  /** A Close that sends stays where it is unless its message is taken. */
  lemma {:induction false} SendingStays(s: State, s': State, t: Tid)
    requires Next(s, s') && PcOf(s, t).Sending? && !ListensOn(s, PcOf(s, t).w, PcOf(s, t).ch)
    ensures PcOf(s', t) == PcOf(s, t)
  {
    var p := PcOf(s, t);
    if u, e, p' :| Step(s, u, e, p', s') {
      StepAlone(s, s.pcs[u], e, p');
      StepView(s, u, e, p', s', t, 0);
    } else {
      var u, v, e, p', q' :| Joint(s, u, v, e, p', q', s');
      JointView(s, u, v, e, p', q', s', t, 0);
      assert Meets(u, s.pcs[u], PcOf(s, v), e, p', q');
    }
  }

  lemma {:induction false} LostNext(s: State, s': State, t: Tid, w: Wid, ch: nat)
    requires Next(s, s') && ChannelInv(s) && PcOf(s, t) == Sending(w, ch) && !Servable(s, w, ch)
    ensures PcOf(s', t) == Sending(w, ch) && !Servable(s', w, ch)
  {
    assert ch < s.spare;
    hide PcOf, Step, Joint, ChannelInv, Servable, ListensOn;
    UnservableUnheard(s, w, ch);
    SendingStays(s, s', t);
    if u, e, p' :| Step(s, u, e, p', s') {
      StepUnservable(s, u, e, p', s', w, ch);
    } else {
      var u, v, e, p', q' :| Joint(s, u, v, e, p', q', s');
      JointUnservable(s, u, v, e, p', q', s', w, ch);
    }
  }

  /** A Close that nobody can serve any more waits for good: in no later state of the run
      has it moved. */
  lemma {:induction false} LostForever(run: seq<State>, i: nat, j: nat, t: Tid, w: Wid, ch: nat)
    requires IsRun(run) && i <= j < |run| && PcOf(run[i], t) == Sending(w, ch) && !Servable(run[i], w, ch)
    ensures PcOf(run[j], t) == Sending(w, ch) && !Servable(run[j], w, ch)
    decreases j
  {
    hide PcOf, Servable, Next, ReplyInv, ChannelInv, Initial;
    if i < j {
      LostForever(run, i, j - 1, t, w, ch);
      RunQuit(run, j - 1);
      assert Next(run[j - 1], run[j - 1 + 1]);
      LostNext(run[j - 1], run[j], t, w, ch);
    }
  }

  lemma {:induction false} UnservableUnheard(s: State, w: Wid, ch: nat)
    ensures ListensOn(s, w, ch) ==> Servable(s, w, ch)
  {
  }

  // --------------------------------------------------------------- no lock deadlock

  /** A thread that is neither idle nor waiting for somebody else's message. */
  predicate Engaged(p: Pc) {
    p != Idle && !p.Listening? && !p.Sending?
  }

  ghost predicate Steps(s: State, t: Tid) {
    Busy(s, t) && CanStep(s, t)
  }

  lemma {:induction false} StepsBy(s: State, t: Tid, e: Effect, p': Pc)
    requires Engaged(PcOf(s, t)) && Moves(s, PcOf(s, t), e, p') && Unblocked(s, e)
    ensures Steps(s, t)
  {
    hide PcOf, Moves, Unblocked;
  }

  lemma {:induction false} HubHolderSteps(s: State, t: Tid)
    requires Hubs(PcOf(s, t))
    ensures Steps(s, t)
  {
    hide PcOf, WalletOf, Steps;
    var p := PcOf(s, t);
    match p
    case Using(w, op, at) =>
      var (e, at') := match at
                      case Entering => (Raise, Counted)
                      case Counted => (HubUnlock, Ready)
                      case Leaving => (Lower, Uncounted)
                      case _ => (HubUnlock, Settled);
      StepsBy(s, t, e, Using(w, op, at'));
    case Guarding =>
      if s.pend > 0 { StepsBy(s, t, HubUnlock, Idle); } else { StepsBy(s, t, Nothing, Enumerating); }
    case Enumerating => StepsBy(s, t, Nothing, Enumerated);
    case Enumerated => StepsBy(s, t, HubUnlock, Idle);
  }

  /** The next step of a thread that has the token. */
  function TokenHolderMove(op: Op, at: At, w: Wid): (Effect, At) {
    match at
    case Taken => if op == Sign then (HubLock, Entering) else (Nothing, Talking)
    case Ready => (Nothing, Talking)
    case Talking => (Nothing, if op == Sign then Talked else Settled)
    case Talked => (HubLock, Leaving)
    case _ => (GiveToken(w), GivenBack)
  }

  lemma {:induction false} TokenHolderSteps(s: State, t: Tid) returns (u: Tid)
    requires HubInv(s) && TokenInv(s) && Tokens(PcOf(s, t)).Some?
    ensures Steps(s, u)
  {
    hide PcOf, WalletOf, Steps;
    if s.hub.Some? {
      u := s.hub.value;
      assert Hubs(PcOf(s, u));
      HubHolderSteps(s, u);
    } else {
      u := t;
      var p := PcOf(s, t);
      assert !Hubs(p);
      var (e, at) := TokenHolderMove(p.op, p.at, p.w);
      StepsBy(s, t, e, Using(p.w, p.op, at));
    }
  }

  lemma {:induction false} MissingTokenHolder(s: State, t: Tid) returns (u: Tid)
    requires DeviceInv(s) && TokenInv(s)
    requires Needs(PcOf(s, t)).Some? && !WalletOf(s, Needs(PcOf(s, t)).value).token
    ensures Tokens(PcOf(s, u)).Some?
  {
    hide PcOf, WalletOf;
    var w := Needs(PcOf(s, t)).value;
    u :| Tokens(PcOf(s, u)) == Some(w);
  }

  lemma {:induction false} ReaderSteps(s: State, t: Tid) returns (u: Tid)
    requires HubInv(s) && TokenInv(s) && DeviceInv(s) && Reads(PcOf(s, t)).Some?
    ensures Steps(s, u)
  {
    hide PcOf, WalletOf, Steps, HubInv, TokenInv, DeviceInv;
    var p := PcOf(s, t);
    u := t;
    if p.ReadingQuit? {
      var p' := match WalletOf(s, p.w).quit case None => BeforeTeardown(p.w, false) case Some(ch) => Sending(p.w, ch);
      StepsBy(s, t, RUnlock(p.w), p');
    } else if p.at.GivenBack? {
      StepsBy(s, t, RUnlock(p.w), Home(p.w, p.op == Heartbeat));
    } else if p.at.Locked? {
      if WalletOf(s, p.w).device == None {
        StepsBy(s, t, RUnlock(p.w), Home(p.w, p.op == Heartbeat));
      } else {
        StepsBy(s, t, Nothing, Using(p.w, p.op, Checked));
      }
    } else if p.at.Checked? {
      if WalletOf(s, p.w).token {
        StepsBy(s, t, TakeToken(p.w), Using(p.w, p.op, Taken));
      } else {
        var v := MissingTokenHolder(s, t);
        u := TokenHolderSteps(s, v);
      }
    } else {
      u := TokenHolderSteps(s, t);
    }
  }

  /** There is always a thread number that is not in use. */
  lemma {:induction false} SpareThread(s: State) returns (u: Tid)
    ensures u !in s.pcs
  {
    u := AboveAll(s.pcs.Keys);
  }

  lemma {:induction false} AboveAll(ts: set<Tid>) returns (u: Tid)
    ensures forall t :: t in ts ==> t < u
    decreases |ts|
  {
    if ts == {} {
      u := 0;
    } else {
      var t :| t in ts;
      var v := AboveAll(ts - {t});
      u := if v > t then v else t + 1;
      assert forall x :: x in ts ==> x == t || x in ts - {t};
    }
  }

  lemma {:induction false} WriterSteps(s: State, t: Tid)
    requires Writes(PcOf(s, t)).Some?
    ensures Steps(s, t)
  {
    hide WalletOf, Steps;
    var p := PcOf(s, t);
    match p
    case TornDown(w, beat) => StepsBy(s, t, Unlock(w), Home(w, beat));
    case Clearing(w) => StepsBy(s, t, ClearQuit(w), TearingDown(w, false));
    case TearingDown(w, beat) =>
      StepsBy(s, t, if WalletOf(s, w).device == None then Nothing else Disconnect(w), TornDown(w, beat));
    case Opening(w, stage) =>
      if stage == Marked {
        OpenerSteps(s, t, w);
      } else {
        var (e, p') := match stage
                       case Fresh =>
                         if WalletOf(s, w).live || WalletOf(s, w).device == None then (Unlock(w), Idle)
                         else (Nothing, Opening(w, Connected))
                       case Connected => (Nothing, Opening(w, Greeting))
                       case Greeting => (Nothing, Opening(w, Over))
                       case _ => (Unlock(w), Idle);
        StepsBy(s, t, e, p');
      }
  }

  lemma {:induction false} OpenerSteps(s: State, t: Tid, w: Wid)
    requires PcOf(s, t) == Opening(w, Marked)
    ensures Steps(s, t)
  {
    var u := SpareThread(s);
    assert Meets(t, PcOf(s, t), PcOf(s, u), NewQuit(w), Opening(w, Over), Looping(w));
  }

  /** A thread that waits for the readers of a wallet to leave: one of them can go on, or
      it takes the lock. */
  lemma {:induction false} AnnouncedSteps(s: State, t: Tid) returns (u: Tid)
    requires Inv(s) && Waits(PcOf(s, t)).Some?
    ensures Steps(s, u)
  {
    var p := PcOf(s, t);
    var x := WalletOf(s, p.w);
    hide PcOf, WalletOf, Steps, PendInv, EnumInv, PlaceInv, HubInv, TokenInv, DeviceInv;
    assert x.next == Some(t) && x.writer == None;
    if x.readers != {} {
      var v :| v in x.readers;
      assert Reads(PcOf(s, v)) == Some(p.w);
      u := ReaderSteps(s, v);
    } else {
      u := t;
      var p' := if p.Opening? then Opening(p.w, Fresh) else if p.beat then TearingDown(p.w, true) else Clearing(p.w);
      StepsBy(s, t, Lock(p.w), p');
    }
  }

  /** A thread that waits to announce itself as a writer of a wallet, or a health check that
      waits to read it: somebody on that wallet can go on. */
  lemma {:induction false} LockWaiterSteps(s: State, t: Tid) returns (u: Tid)
    requires Inv(s) && (PcOf(s, t).BeforeTeardown? || PcOf(s, t).Timed?)
    ensures Steps(s, u)
  {
    var p := PcOf(s, t);
    var x := WalletOf(s, p.w);
    hide PcOf, WalletOf, Steps, PendInv, EnumInv, PlaceInv, HubInv, TokenInv, DeviceInv;
    if x.writer.Some? {
      u := x.writer.value;
      assert Writes(PcOf(s, u)) == Some(p.w);
      WriterSteps(s, u);
    } else if x.next.Some? {
      assert Waits(PcOf(s, x.next.value)) == Some(p.w);
      u := AnnouncedSteps(s, x.next.value);
    } else {
      u := t;
      if p.Timed? { StepsBy(s, t, RLock(p.w), Using(p.w, Heartbeat, Locked)); }
      else { StepsBy(s, t, Announce(p.w), Draining(p.w, p.beat)); }
    }
  }

  /** The timer of a health check can always fire. */
  lemma {:induction false} ListenerSteps(s: State, t: Tid)
    requires Busy(s, t) && PcOf(s, t).Listening?
    ensures Steps(s, t)
  {
    hide PcOf, WalletOf, Busy;
    var p := PcOf(s, t);
    assert Moves(s, p, Nothing, Timed(p.w)) && Unblocked(s, Nothing);
  }

  /** Everything but a Close that sends. */
  lemma {:induction false} OtherSteps(run: seq<State>, i: nat, t: Tid) returns (u: Tid)
    requires IsRun(run) && i < |run| && Busy(run[i], t) && !PcOf(run[i], t).Sending?
    ensures Steps(run[i], u)
  {
    RunInv(run, i);
    RunQuit(run, i);
    CloseGoesOn(run, i, t);
    var s, p := run[i], PcOf(run[i], t);
    assert p != Idle;
    u := t;
    if p.AwaitingReply? {
      AwaiterSteps(s, t);
    } else if p.Replying? {
      u := p.to;
      assert PcOf(s, u).AwaitingReply?;
      CloseGoesOn(run, i, u);
      AwaiterSteps(s, u);
    }
    hide IsRun, PcOf, WalletOf, Steps, ReplyInv, ChannelInv, CanStep, Busy;
    if p.Guarding? || p.Enumerating? || p.Enumerated? {
      HubHolderSteps(s, t);
    } else if Writes(p).Some? {
      WriterSteps(s, t);
    } else if Reads(p).Some? {
      u := ReaderSteps(s, t);
    } else if p.Looping? {
      StepsBy(s, t, Nothing, Listening(p.w, WalletOf(s, p.w).quit));
    } else if p.Listening? {
      ListenerSteps(s, t);
    } else if Waits(p).Some? {
      u := AnnouncedSteps(s, t);
    } else if p.BeforeTeardown? || p.Timed? {
      u := LockWaiterSteps(s, t);
    }
  }

  lemma {:induction false} AwaiterSteps(s: State, t: Tid)
    requires PcOf(s, t).AwaitingReply? && CanStep(s, t)
    ensures Steps(s, t)
  {
  }

  /** In no reachable state do the locks, the token or the rendezvous stall everything:
      while an operation is under way, other than a Close nobody is left to serve, some
      operation under way can take its next step. */
  lemma {:induction false} NoDeadlock(run: seq<State>, i: nat, t: Tid) returns (u: Tid)
    requires IsRun(run) && i < |run| && Busy(run[i], t)
    ensures Steps(run[i], u)
  {
    var s, p := run[i], PcOf(run[i], t);
    if !p.Sending? {
      u := OtherSteps(run, i, t);
    } else if ListensOn(s, p.w, p.ch) {
      CloseGoesOn(run, i, t);
      u := t;
    } else {
      var v: Tid :| Beats(PcOf(s, v), p.w);
      assert PcOf(s, v) != Listening(p.w, Some(p.ch));
      u := OtherSteps(run, i, v);
    }
  }
}
