/** How a Close of a Ledger wallet is lost (ledger/usbwallet/wallet.go): two runs, step by
    step. In one, two Close calls overlap and no Open does; in the other, an Open overlaps
    the only Close. */
module WalletLostClose {
  import opened Options
  import opened WalletMachine
  import opened WalletProgress
  import opened WalletExclusive

  // ------------------------------------------------------------ four threads, one wallet

  datatype Cast = Cast(one: Pc, two: Pc, three: Pc, four: Pc)

  function Play(c: Cast, t: Tid): Pc {
    if t == 1 then c.one else if t == 2 then c.two else if t == 3 then c.three else if t == 4 then c.four else Idle
  }

  function Turn(c: Cast, t: Tid, p: Pc): Cast {
    if t == 1 then c.(one := p) else if t == 2 then c.(two := p) else if t == 3 then c.(three := p) else c.(four := p)
  }

  function Scene(c: Cast, x: Wallet, spare: nat): State {
    State(map[1 := c.one, 2 := c.two, 3 := c.three, 4 := c.four], map[0 := x], None, 0, spare)
  }

  /** The half of Exclusive that a run keeps to. */
  ghost predicate Keeps(s: State, oneClose: bool) {
    if oneClose then OneClose(s, 0) else NoOpenDuringClose(s, 0)
  }

  predicate MayClose(p: Pc) {
    || p.ReadingQuit? || p.Sending? || p.AwaitingReply? || p.Clearing?
    || ((p.BeforeTeardown? || p.Draining?) && !p.beat)
  }

  /** A cast that keeps to it: only the second closes, or nobody closes, or nobody opens. */
  predicate Fair(c: Cast, oneClose: bool) {
    if oneClose || c.one.Opening? then
      !MayClose(c.one) && !MayClose(c.three) && !MayClose(c.four) && (oneClose || !MayClose(c.two))
    else
      !c.two.Opening? && !c.three.Opening? && !c.four.Opening?
  }

  lemma {:induction false} FairKeeps(c: Cast, x: Wallet, n: nat, oneClose: bool)
    requires Fair(c, oneClose)
    ensures Keeps(Scene(c, x, n), oneClose)
  {
    forall t: Tid
      ensures PcOf(Scene(c, x, n), t) == Play(c, t)
      ensures Closes(Play(c, t), 0) ==> MayClose(Play(c, t))
      ensures Opens(Play(c, t), 0) ==> Play(c, t).Opening?
    {
    }
    hide Closes, Opens, MayClose, PcOf;
    assert !MayClose(Idle);
  }

  ghost predicate Reaches(run: seq<State>, s: State, oneClose: bool) {
    IsRun(run) && run[|run| - 1] == s && forall k :: 0 <= k < |run| ==> Keeps(run[k], oneClose)
  }

  lemma {:induction false} Extend(run: seq<State>, s: State, s': State, oneClose: bool)
    requires Reaches(run, s, oneClose) && Next(s, s') && Keeps(s', oneClose)
    ensures Reaches(run + [s'], s', oneClose)
  {
    hide Next, Initial, Keeps;
    var more := run + [s'];
    forall i | 0 <= i < |more| - 1 ensures Next(more[i], more[i + 1]) {
      if i < |run| - 1 { assert Next(run[i], run[i + 1]); }
    }
  }

  function Touched(x: Wallet, t: Tid, e: Effect, spare: nat): Wallet {
    if e == Nothing then x else OnWallet(x, t, e, spare)
  }

  function SpareAfter(e: Effect, n: nat): nat {
    if e.Connect? || e.NewQuit? then n + 1 else n
  }

  lemma {:induction false} SceneApply(c: Cast, x: Wallet, n: nat, t: Tid, e: Effect)
    requires e == Nothing || Target(e) == Some(0)
    ensures Apply(Scene(c, x, n), t, e) == Scene(c, Touched(x, t, e, n), SpareAfter(e, n))
  {
    hide OnWallet;
  }

  lemma {:induction false} SceneWallet(c: Cast, x: Wallet, n: nat)
    ensures WalletOf(Scene(c, x, n), 0) == x
  {
  }

  lemma {:induction false} SceneTurn(c: Cast, x: Wallet, n: nat, t: Tid, p: Pc)
    requires 1 <= t <= 4
    ensures Scene(c, x, n).(pcs := Scene(c, x, n).pcs[t := p]) == Scene(Turn(c, t, p), x, n)
    ensures t in Scene(c, x, n).pcs && Scene(c, x, n).pcs[t] == Play(c, t)
  {
    assert Scene(c, x, n).pcs[t := p] == Scene(Turn(c, t, p), x, n).pcs;
  }

  lemma {:induction false} ApplyKeepsPcs(s: State, t: Tid, e: Effect)
    ensures Apply(s, t, e).pcs == s.pcs
  {
  }

  /** One thread makes a step. */
  lemma {:induction false} Alone(
      run: seq<State>, c: Cast, x: Wallet, n: nat, t: Tid, e: Effect, p': Pc, oneClose: bool)
    returns (more: seq<State>, c': Cast, x': Wallet)
    requires Reaches(run, Scene(c, x, n), oneClose) && 1 <= t <= 4 && Fair(Turn(c, t, p'), oneClose)
    requires Moves(Scene(c, x, n), Play(c, t), e, p') && Unblocked(Scene(c, x, n), e)
    requires e == Nothing || Target(e) == Some(0)
    ensures c' == Turn(c, t, p') && x' == Touched(x, t, e, n)
    ensures Reaches(more, Scene(c', x', SpareAfter(e, n)), oneClose)
    ensures WalletOf(Scene(c', x', SpareAfter(e, n)), 0) == x'
  {
    hide Reaches, Moves, Unblocked, Touched, Apply, Scene, Keeps, Closes, Opens, WalletOf;
    c', x' := Turn(c, t, p'), Touched(x, t, e, n);
    var s, s' := Scene(c, x, n), Scene(c', x', SpareAfter(e, n));
    SceneApply(c, x, n, t, e);
    SceneTurn(c, x, n, t, p');
    SceneTurn(c, x', SpareAfter(e, n), t, p');
    ApplyKeepsPcs(s, t, e);
    assert Step(s, t, e, p', s');
    FairKeeps(c', x', SpareAfter(e, n), oneClose);
    SceneWallet(c', x', SpareAfter(e, n));
    Extend(run, s, s', oneClose);
    more := run + [s'];
  }

  /** Two threads make a step together. */
  lemma {:induction false} Together(
      run: seq<State>, c: Cast, x: Wallet, n: nat, t: Tid, u: Tid, e: Effect, p': Pc, q': Pc, oneClose: bool)
    returns (more: seq<State>, c': Cast, x': Wallet)
    requires Reaches(run, Scene(c, x, n), oneClose) && 1 <= t <= 4 && 1 <= u <= 4 && t != u
    requires Meets(t, Play(c, t), Play(c, u), e, p', q') && Fair(Turn(Turn(c, u, q'), t, p'), oneClose)
    requires e == Nothing || Target(e) == Some(0)
    ensures c' == Turn(Turn(c, u, q'), t, p') && x' == Touched(x, t, e, n)
    ensures Reaches(more, Scene(c', x', SpareAfter(e, n)), oneClose)
    ensures WalletOf(Scene(c', x', SpareAfter(e, n)), 0) == x'
  {
    hide Reaches, Meets, Touched, Apply, Scene, Keeps, Closes, Opens, WalletOf;
    c', x' := Turn(Turn(c, u, q'), t, p'), Touched(x, t, e, n);
    var s, s' := Scene(c, x, n), Scene(c', x', SpareAfter(e, n));
    SceneApply(c, x, n, t, e);
    SceneTurn(c, x, n, t, p');
    SceneTurn(c, x, n, u, q');
    SceneTurn(c, x', SpareAfter(e, n), u, q');
    SceneTurn(Turn(c, u, q'), x', SpareAfter(e, n), t, p');
    ApplyKeepsPcs(s, t, e);
    assert PcOf(s, u) == Play(c, u);
    assert Joint(s, t, u, e, p', q', s');
    FairKeeps(c', x', SpareAfter(e, n), oneClose);
    SceneWallet(c', x', SpareAfter(e, n));
    Extend(run, s, s', oneClose);
    more := run + [s'];
  }

  // ------------------------------------------------------------------- the wallet is open

  const OPEN_WALLET := Wallet({}, None, None, true, Some(0), true, Some(1))
  const REOPENED := OPEN_WALLET.(device := Some(2))
  const HEARD := Listening(0, Some(1))
  const SENT := Sending(0, 1)


  lemma {:induction false} OpenMoves(s: State)
    ensures Moves(s, Idle, Announce(0), Opening(0, Waiting))
    ensures Moves(s, Opening(0, Waiting), Lock(0), Opening(0, Fresh))
    ensures WalletOf(s, 0).device == None && !WalletOf(s, 0).live ==>
              Moves(s, Opening(0, Fresh), Connect(0), Opening(0, Connected))
    ensures Moves(s, Opening(0, Connected), Nothing, Opening(0, Greeting))
    ensures Moves(s, Opening(0, Greeting), MarkOpen(0), Opening(0, Marked))
    ensures Moves(s, Opening(0, Over), Unlock(0), Idle)
    ensures WalletOf(s, 0).quit == Some(1) ==> Moves(s, Looping(0), Nothing, HEARD)
  {
    hide WalletOf;
  }

  /** What the others may be doing while thread 1 opens. */
  predicate Bystanders(two: Pc, three: Pc, oneClose: bool) {
    !MayClose(three) && !three.Opening? && !two.Opening? && (MayClose(two) ==> oneClose)
  }

  lemma {:induction false} OpenFair(two: Pc, three: Pc, oneClose: bool)
    requires Bystanders(two, three, oneClose)
    ensures forall stage :: Fair(Cast(Opening(0, stage), two, three, Idle), oneClose)
    ensures Fair(Cast(Idle, two, three, Idle), oneClose)
  {
  }

  /** Thread 1, announced as a writer, opens a wallet that is not connected ... */
  lemma {:induction false} Connects(run: seq<State>, two: Pc, three: Pc, x: Wallet, n: nat, oneClose: bool)
    returns (more: seq<State>)
    requires Reaches(run, Scene(Cast(Opening(0, Waiting), two, three, Idle), x, n), oneClose)
    requires x.readers == {} && x.writer == None && x.device == None && !x.live
    requires Bystanders(two, three, oneClose)
    ensures var x' := x.(writer := Some(1), next := None, token := true, device := Some(n));
            Reaches(more, Scene(Cast(Opening(0, Connected), two, three, Idle), x', n + 1), oneClose)
  {
    hide Reaches, Moves, Fair, Bystanders;
    forall s: State { OpenMoves(s); }
    OpenFair(two, three, oneClose);
    var c, y := Cast(Opening(0, Waiting), two, three, Idle), x;
    more, c, y := Alone(run, c, y, n, 1, Lock(0), Opening(0, Fresh), oneClose);
    more, c, y := Alone(more, c, y, n, 1, Connect(0), Opening(0, Connected), oneClose);
  }

  /** ... up to its success ... */
  lemma {:induction false} Succeeds(run: seq<State>, two: Pc, three: Pc, x: Wallet, n: nat, oneClose: bool)
    returns (more: seq<State>)
    requires Reaches(run, Scene(Cast(Opening(0, Connected), two, three, Idle), x, n), oneClose)
    requires Bystanders(two, three, oneClose)
    ensures Reaches(more, Scene(Cast(Opening(0, Marked), two, three, Idle), x.(live := true), n), oneClose)
  {
    hide Reaches, Moves, Fair, Bystanders;
    forall s: State { OpenMoves(s); }
    OpenFair(two, three, oneClose);
    var c, y := Cast(Opening(0, Connected), two, three, Idle), x;
    more, c, y := Alone(run, c, y, n, 1, Nothing, Opening(0, Greeting), oneClose);
    more, c, y := Alone(more, c, y, n, 1, MarkOpen(0), Opening(0, Marked), oneClose);
  }

  /** ... from a state in which nothing has happened yet ... */
  lemma {:induction false} Begin(oneClose: bool) returns (run: seq<State>)
    ensures Reaches(
      run, Scene(Cast(Opening(0, Waiting), Idle, Idle, Idle), CLOSED_WALLET.(next := Some(1)), 0), oneClose)
  {
    var s0 := State(map[1 := Idle, 2 := Idle, 3 := Idle, 4 := Idle], map[], None, 0, 0);
    var c, x := Cast(Opening(0, Waiting), Idle, Idle, Idle), CLOSED_WALLET.(next := Some(1));
    var s1 := Scene(c, x, 0);
    assert forall t: Tid :: PcOf(s0, t) == Idle;
    assert Reaches([s0], s0, oneClose);
    assert s0.pcs[1 := Opening(0, Waiting)] == s1.pcs;
    assert Step(s0, 1, Announce(0), Opening(0, Waiting), s1);
    FairKeeps(c, x, 0, oneClose);
    hide Reaches, Step, Keeps;
    Extend([s0], s0, s1, oneClose);
    run := [s0] + [s1];
  }

  lemma {:induction false} OpenRun(oneClose: bool) returns (run: seq<State>)
    ensures var x := OPEN_WALLET.(writer := Some(1), quit := None);
            Reaches(run, Scene(Cast(Opening(0, Marked), Idle, Idle, Idle), x, 1), oneClose)
  {
    hide Reaches;
    run := Begin(oneClose);
    run := Connects(run, Idle, Idle, CLOSED_WALLET.(next := Some(1)), 0, oneClose);
    run := Succeeds(run, Idle, Idle, OPEN_WALLET.(writer := Some(1), live := false, quit := None), 1, oneClose);
  }

  lemma {:induction false} StartFair(oneClose: bool)
    ensures Fair(Cast(Opening(0, Over), Idle, Looping(0), Idle), oneClose)
    ensures Fair(Cast(Idle, Idle, Looping(0), Idle), oneClose) && Fair(Cast(Idle, Idle, HEARD, Idle), oneClose)
  {
  }

  /** ... and starts thread 3 as its health check. */
  lemma {:induction false} OpenedRun(oneClose: bool) returns (run: seq<State>)
    ensures Reaches(run, Scene(Cast(Idle, Idle, HEARD, Idle), OPEN_WALLET, 2), oneClose)
  {
    hide Reaches, Moves, Fair;
    StartFair(oneClose);
    run := OpenRun(oneClose);
    forall s: State { OpenMoves(s); }
    var c, x := Cast(Opening(0, Marked), Idle, Idle, Idle), OPEN_WALLET.(writer := Some(1), quit := None);
    run, c, x := Together(run, c, x, 1, 1, 3, NewQuit(0), Opening(0, Over), Looping(0), oneClose);
    run, c, x := Alone(run, c, x, 2, 1, Unlock(0), Idle, oneClose);
    run, c, x := Alone(run, c, x, 2, 3, Nothing, HEARD, oneClose);
  }

  // ------------------------------------------------------------------ two Close calls

  lemma {:induction false} CloseMoves(s: State)
    ensures Moves(s, Idle, RLock(0), ReadingQuit(0))
    ensures WalletOf(s, 0).quit == Some(1) ==> Moves(s, ReadingQuit(0), RUnlock(0), SENT)
    ensures Moves(s, BeforeTeardown(0, false), Announce(0), Draining(0, false))
    ensures Moves(s, Draining(0, false), Lock(0), Clearing(0))
    ensures Moves(s, Clearing(0), ClearQuit(0), TearingDown(0, false))
    ensures WalletOf(s, 0).device.Some? ==> Moves(s, TearingDown(0, false), Disconnect(0), TornDown(0, false))
    ensures Moves(s, TornDown(0, false), Unlock(0), Idle)
  {
    hide WalletOf;
  }

  lemma {:induction false} CloseFair()
    ensures forall one: Pc, two: Pc, three: Pc ::
              !one.Opening? && !two.Opening? && !three.Opening? ==> Fair(Cast(one, two, three, Idle), false)
  {
  }

  /** Threads 1 and 2 both begin to close it and look up the same channel ... */
  lemma {:induction false} BothSend(run: seq<State>) returns (more: seq<State>)
    requires Reaches(run, Scene(Cast(Idle, Idle, HEARD, Idle), OPEN_WALLET, 2), false)
    ensures Reaches(more, Scene(Cast(SENT, SENT, HEARD, Idle), OPEN_WALLET, 2), false)
  {
    forall s: State { CloseMoves(s); }
    CloseFair();
    hide Reaches, Moves, Fair;
    var c, x := Cast(Idle, Idle, HEARD, Idle), OPEN_WALLET;
    more, c, x := Alone(run, c, x, 2, 1, RLock(0), ReadingQuit(0), false);
    more, c, x := Alone(more, c, x, 2, 1, RUnlock(0), SENT, false);
    assert x == OPEN_WALLET;
    more, c, x := Alone(more, c, x, 2, 2, RLock(0), ReadingQuit(0), false);
    more, c, x := Alone(more, c, x, 2, 2, RUnlock(0), SENT, false);
    assert x == OPEN_WALLET;
  }

  /** ... the health check serves the first of them and ends ... */
  lemma {:induction false} FirstServed(run: seq<State>) returns (more: seq<State>)
    requires Reaches(run, Scene(Cast(SENT, SENT, HEARD, Idle), OPEN_WALLET, 2), false)
    ensures Reaches(more, Scene(Cast(BeforeTeardown(0, false), SENT, Idle, Idle), OPEN_WALLET, 2), false)
  {
    CloseFair();
    hide Reaches, Fair;
    var c, x := Cast(SENT, SENT, HEARD, Idle), OPEN_WALLET;
    more, c, x := Together(run, c, x, 2, 1, 3, Nothing, AwaitingReply(0), Replying(0, 1), false);
    more, c, x := Together(more, c, x, 2, 1, 3, Nothing, BeforeTeardown(0, false), Idle, false);
  }

  /** ... and the first completes. */
  lemma {:induction false} FirstCloses(run: seq<State>) returns (more: seq<State>)
    requires Reaches(run, Scene(Cast(BeforeTeardown(0, false), SENT, Idle, Idle), OPEN_WALLET, 2), false)
    ensures Reaches(more, Scene(Cast(Idle, SENT, Idle, Idle), CLOSED_WALLET.(token := true), 2), false)
  {
    forall s: State { CloseMoves(s); }
    CloseFair();
    hide Reaches, Moves, Fair;
    var c, x := Cast(BeforeTeardown(0, false), SENT, Idle, Idle), OPEN_WALLET;
    more, c, x := Alone(run, c, x, 2, 1, Announce(0), Draining(0, false), false);
    more, c, x := Alone(more, c, x, 2, 1, Lock(0), Clearing(0), false);
    more, c, x := Alone(more, c, x, 2, 1, ClearQuit(0), TearingDown(0, false), false);
    more, c, x := Alone(more, c, x, 2, 1, Disconnect(0), TornDown(0, false), false);
    more, c, x := Alone(more, c, x, 2, 1, Unlock(0), Idle, false);
  }

  /** A run in which two threads close an open wallet at the same time, and nobody opens it
      meanwhile. It ends with the second of them still sending, nobody left to serve it and
      no other operation under way; by LostForever it never returns. */
  lemma {:induction false} SecondCloseIsLost() returns (run: seq<State>)
    ensures IsRun(run) && forall k :: 0 <= k < |run| ==> NoOpenDuringClose(run[k], 0)
    ensures var s := run[|run| - 1];
            && PcOf(s, 2) == Sending(0, 1) && !Servable(s, 0, 1)
            && forall t: Tid :: t != 2 ==> PcOf(s, t) == Idle
  {
    run := OpenedRun(false);
    run := BothSend(run);
    run := FirstServed(run);
    run := FirstCloses(run);
    var s := run[|run| - 1];
    hide IsRun, NoOpenDuringClose;
    assert forall t: Tid :: t != 2 ==> PcOf(s, t) == Idle;
    assert forall t: Tid :: !Beats(PcOf(s, t), 0);
  }

  // --------------------------------------------------------------------- a single Close

  lemma {:induction false} BeatMoves(s: State)
    ensures Moves(s, HEARD, Nothing, Timed(0))
    ensures Moves(s, Timed(0), RLock(0), Using(0, Heartbeat, Locked))
    ensures WalletOf(s, 0).device.Some? ==>
              Moves(s, Using(0, Heartbeat, Locked), Nothing, Using(0, Heartbeat, Checked))
    ensures Moves(s, Using(0, Heartbeat, Checked), TakeToken(0), Using(0, Heartbeat, Taken))
    ensures Moves(s, Using(0, Heartbeat, Taken), Nothing, Using(0, Heartbeat, Talking))
    ensures Moves(s, Using(0, Heartbeat, Talking), Nothing, Using(0, Heartbeat, Settled))
    ensures Moves(s, Using(0, Heartbeat, Settled), GiveToken(0), Using(0, Heartbeat, GivenBack))
    ensures Moves(s, Using(0, Heartbeat, GivenBack), RUnlock(0), BeforeTeardown(0, true))
  {
    hide WalletOf;
  }

  lemma {:induction false} FailMoves(s: State)
    ensures Moves(s, BeforeTeardown(0, true), Announce(0), Draining(0, true))
    ensures Moves(s, Draining(0, true), Lock(0), TearingDown(0, true))
    ensures WalletOf(s, 0).device.Some? ==> Moves(s, TearingDown(0, true), Disconnect(0), TornDown(0, true))
    ensures Moves(s, TornDown(0, true), Unlock(0), Looping(0))
  {
    hide WalletOf;
  }

  lemma {:induction false} BeatFair()
    ensures forall at :: Fair(Cast(Idle, SENT, Using(0, Heartbeat, at), Idle), true)
    ensures Fair(Cast(Idle, SENT, Timed(0), Idle), true) && Fair(Cast(Idle, SENT, BeforeTeardown(0, true), Idle), true)
    ensures Fair(Cast(Idle, SENT, Draining(0, true), Idle), true)
    ensures Fair(Cast(Idle, SENT, TearingDown(0, true), Idle), true)
    ensures Fair(Cast(Idle, SENT, TornDown(0, true), Idle), true) && Fair(Cast(Idle, SENT, Looping(0), Idle), true)
  {
  }

  /** Thread 2 begins to close the wallet. */
  lemma {:induction false} OneSends(run: seq<State>) returns (more: seq<State>)
    requires Reaches(run, Scene(Cast(Idle, Idle, HEARD, Idle), OPEN_WALLET, 2), true)
    ensures Reaches(more, Scene(Cast(Idle, SENT, HEARD, Idle), OPEN_WALLET, 2), true)
  {
    forall s: State { CloseMoves(s); }
    hide Reaches, Moves;
    var c, x := Cast(Idle, Idle, HEARD, Idle), OPEN_WALLET;
    more, c, x := Alone(run, c, x, 2, 2, RLock(0), ReadingQuit(0), true);
    more, c, x := Alone(more, c, x, 2, 2, RUnlock(0), SENT, true);
    assert x == OPEN_WALLET;
  }

  /** Its health check, whose timer has just fired, finds the device gone ... */
  lemma {:induction false} BeatFails(run: seq<State>) returns (more: seq<State>)
    requires Reaches(run, Scene(Cast(Idle, SENT, HEARD, Idle), OPEN_WALLET, 2), true)
    ensures Reaches(more, Scene(Cast(Idle, SENT, BeforeTeardown(0, true), Idle), OPEN_WALLET, 2), true)
  {
    forall s: State { BeatMoves(s); }
    BeatFair();
    hide Reaches, Moves, Fair;
    var c, x := Cast(Idle, SENT, HEARD, Idle), OPEN_WALLET;
    more, c, x := Alone(run, c, x, 2, 3, Nothing, Timed(0), true);
    more, c, x := Alone(more, c, x, 2, 3, RLock(0), Using(0, Heartbeat, Locked), true);
    more, c, x := Alone(more, c, x, 2, 3, Nothing, Using(0, Heartbeat, Checked), true);
    more, c, x := Alone(more, c, x, 2, 3, TakeToken(0), Using(0, Heartbeat, Taken), true);
    more, c, x := Alone(more, c, x, 2, 3, Nothing, Using(0, Heartbeat, Talking), true);
    more, c, x := Alone(more, c, x, 2, 3, Nothing, Using(0, Heartbeat, Settled), true);
    more, c, x := Alone(more, c, x, 2, 3, GiveToken(0), Using(0, Heartbeat, GivenBack), true);
    more, c, x := Alone(more, c, x, 2, 3, RUnlock(0), BeforeTeardown(0, true), true);
    assert x == OPEN_WALLET;
  }

  /** ... and tears the wallet down. */
  lemma {:induction false} BeatTearsDown(run: seq<State>) returns (more: seq<State>)
    requires Reaches(run, Scene(Cast(Idle, SENT, BeforeTeardown(0, true), Idle), OPEN_WALLET, 2), true)
    ensures Reaches(
      more, Scene(Cast(Idle, SENT, Looping(0), Idle), OPEN_WALLET.(device := None, live := false), 2), true)
  {
    forall s: State { FailMoves(s); }
    BeatFair();
    hide Reaches, Moves, Fair;
    var c, x := Cast(Idle, SENT, BeforeTeardown(0, true), Idle), OPEN_WALLET;
    more, c, x := Alone(run, c, x, 2, 3, Announce(0), Draining(0, true), true);
    more, c, x := Alone(more, c, x, 2, 3, Lock(0), TearingDown(0, true), true);
    more, c, x := Alone(more, c, x, 2, 3, Disconnect(0), TornDown(0, true), true);
    more, c, x := Alone(more, c, x, 2, 3, Unlock(0), Looping(0), true);
  }

  lemma {:induction false} WaitingBystanders()
    ensures Bystanders(SENT, Looping(0), true)
  {
  }

  /** Before it comes to look up the channel again, thread 1 opens the wallet anew. */
  lemma {:induction false} OpenedAgain(run: seq<State>) returns (more: seq<State>)
    requires Reaches(
      run, Scene(Cast(Idle, SENT, Looping(0), Idle), OPEN_WALLET.(device := None, live := false), 2), true)
    ensures Reaches(
      more, Scene(Cast(Opening(0, Marked), SENT, Looping(0), Idle), REOPENED.(writer := Some(1)), 3), true)
  {
    hide Reaches, Moves, Fair, Bystanders;
    forall s: State { OpenMoves(s); }
    WaitingBystanders();
    OpenFair(SENT, Looping(0), true);
    var c, x := Cast(Idle, SENT, Looping(0), Idle), OPEN_WALLET.(device := None, live := false);
    more, c, x := Alone(run, c, x, 2, 1, Announce(0), Opening(0, Waiting), true);
    more := Connects(more, SENT, Looping(0), x, 2, true);
    x := REOPENED.(writer := Some(1), live := false);
    more := Succeeds(more, SENT, Looping(0), x, 3, true);
  }

  lemma {:induction false} ChannelReplaced(run: seq<State>) returns (more: seq<State>)
    requires Reaches(
      run, Scene(Cast(Opening(0, Marked), SENT, Looping(0), Idle), REOPENED.(writer := Some(1)), 3), true)
    ensures Reaches(more, Scene(Cast(Idle, SENT, Looping(0), Looping(0)), REOPENED.(quit := Some(3)), 4), true)
  {
    forall s: State { OpenMoves(s); }
    hide Reaches, Moves;
    var c, x := Cast(Opening(0, Marked), SENT, Looping(0), Idle), REOPENED.(writer := Some(1));
    more, c, x := Together(run, c, x, 3, 1, 4, NewQuit(0), Opening(0, Over), Looping(0), true);
    more, c, x := Alone(more, c, x, 4, 1, Unlock(0), Idle, true);
  }

  /** A run with a single Close, which an Open overlaps after a failed health check. It
      ends with the Close still sending, on a channel that the Open has replaced: health
      checks run, but none can serve it, and by LostForever it never returns. */
  lemma {:induction false} OnlyCloseIsLost() returns (run: seq<State>)
    ensures IsRun(run) && forall k :: 0 <= k < |run| ==> OneClose(run[k], 0)
    ensures var s := run[|run| - 1];
            PcOf(s, 2) == Sending(0, 1) && !Servable(s, 0, 1) && WalletOf(s, 0).quit == Some(3) && HasBeat(s, 0)
  {
    run := OpenedRun(true);
    run := OneSends(run);
    run := BeatFails(run);
    run := BeatTearsDown(run);
    run := OpenedAgain(run);
    run := ChannelReplaced(run);
    var s := run[|run| - 1];
    assert Beats(PcOf(s, 3), 0);
    hide IsRun, OneClose;
  }
}
