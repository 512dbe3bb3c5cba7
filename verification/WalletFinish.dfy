/** That operations on the Ledger wallets finish (ledger/usbwallet/wallet.go): once nothing
    new begins, every schedule ends, and it ends with all operations returned, except for
    a Close that was lost. */
module WalletFinish {
  import opened Options
  import opened WalletMachine
  import opened WalletProgress
  import opened WalletExclusive

  /** A health check that listens on the wallet's current channel. */
  predicate AtRest(s: State, p: Pc) {
    p.Listening? && p.on == WalletOf(s, p.w).quit
  }

  /** A step of an operation under way: no call begins, and no timer of a health check at
      rest fires. */
  ghost predicate Quiet(s: State, s': State) {
    || (exists t, e, p' :: Step(s, t, e, p', s') && s.pcs[t] != Idle && !AtRest(s, s.pcs[t]))
    || (exists t, u: Tid, e, p', q' :: Joint(s, t, u, e, p', q', s'))
  }

  /** Nothing can happen any more without something new beginning. */
  ghost predicate Still(s: State) {
    forall s' :: !Quiet(s, s')
  }

  // -------------------------------------------------------------- what is left to do

  /** Whether the thread may still make or forget a health channel. */
  function Changes(p: Pc): nat {
    match p
    case Opening(_, stage) => if stage == Over then 0 else 1
    case ReadingQuit(_) => 1
    case Sending(_, _) => 1
    case AwaitingReply(_) => 1
    case BeforeTeardown(_, beat) => if beat then 0 else 1
    case Draining(_, beat) => if beat then 0 else 1
    case Clearing(_) => 1
    case _ => 0
  }

  function UsingRank(at: At): nat {
    match at
    case Locked => 21
    case Checked => 20
    case Taken => 19
    case Entering => 18
    case Counted => 17
    case Ready => 16
    case Talking => 15
    case Talked => 14
    case Leaving => 13
    case Uncounted => 12
    case Settled => 11
    case GivenBack => 10
  }

  /** How far the thread is from idling or resting while the health channels stay. */
  function Rank(s: State, p: Pc): nat {
    match p
    case Idle => 0
    case Using(_, _, at) => UsingRank(at)
    case Opening(_, stage) =>
      (match stage
       case Waiting => 6
       case Fresh => 5
       case Connected => 4
       case Greeting => 3
       case Marked => 2
       case Over => 1)
    case ReadingQuit(_) => 15
    case Sending(_, _) => 13
    case AwaitingReply(_) => 10
    case BeforeTeardown(_, _) => 9
    case Draining(_, _) => 8
    case Clearing(_) => 7
    case TearingDown(_, _) => 6
    case TornDown(_, _) => 5
    case Looping(_) => 1
    case Listening(_, _) => if AtRest(s, p) then 0 else 23
    case Timed(_) => 22
    case Replying(_, _) => 1
    case Guarding => 3
    case Enumerating => 2
    case Enumerated => 1
  }

  function Sum(f: Tid -> nat, n: nat): nat {
    if n == 0 then 0 else Sum(f, n - 1) + f(n - 1)
  }

  ghost function ChangesLeft(s: State, n: nat): nat {
    Sum(t => Changes(PcOf(s, t)), n)
  }

  ghost function RankLeft(s: State, n: nat): nat {
    Sum(t => Rank(s, PcOf(s, t)), n)
  }

  ghost predicate Below(s: State, n: nat) {
    forall t :: t in s.pcs ==> t < n
  }

  /** Less is left to do: fewer channel changes, or as many and less in between. */
  ghost predicate Less(s: State, n: nat, s': State, n': nat) {
    || ChangesLeft(s', n') < ChangesLeft(s, n)
    || (ChangesLeft(s', n') == ChangesLeft(s, n) && RankLeft(s', n') < RankLeft(s, n))
  }

  // ------------------------------------------------------------------------- sums

  lemma {:induction false} SumSame(f: Tid -> nat, g: Tid -> nat, n: nat)
    requires forall i: Tid :: i < n ==> f(i) == g(i)
    ensures Sum(f, n) == Sum(g, n)
  {
    if n > 0 { SumSame(f, g, n - 1); }
  }

  lemma {:induction false} SumOne(f: Tid -> nat, g: Tid -> nat, n: nat, t: Tid)
    requires t < n && forall i: Tid :: i < n && i != t ==> f(i) == g(i)
    ensures Sum(g, n) + f(t) == Sum(f, n) + g(t)
  {
    if t == n - 1 { SumSame(f, g, n - 1); } else { SumOne(f, g, n - 1, t); }
  }

  lemma {:induction false} SumTwo(f: Tid -> nat, g: Tid -> nat, n: nat, t: Tid, u: Tid)
    requires t < n && u < n && t != u && forall i: Tid :: i < n && i != t && i != u ==> f(i) == g(i)
    ensures Sum(g, n) + f(t) + f(u) == Sum(f, n) + g(t) + g(u)
  {
    var h := (i: Tid) => if i == t then g(t) else f(i);
    SumOne(f, h, n, t);
    SumOne(h, g, n, u);
  }

  /** Threads beyond all that are listed are idle and count for nothing. */
  lemma {:induction false} SumBeyond(s: State, n: nat, m: nat)
    requires Below(s, n) && n <= m
    ensures ChangesLeft(s, m) == ChangesLeft(s, n) && RankLeft(s, m) == RankLeft(s, n)
    decreases m
  {
    if n < m {
      SumBeyond(s, n, m - 1);
      assert PcOf(s, m - 1) == Idle;
    }
  }

  // ------------------------------------------------------------- every step is progress

  lemma {:induction false} EndingLess(s: State, p: Pc, e: Effect, p': Pc)
    requires EndingMoves(s, p, e, p') && !AtRest(s, p)
    ensures Changes(p') <= Changes(p) && (e.ClearQuit? ==> Changes(p') < Changes(p))
    ensures Rank(s, p') < Rank(s, p)
  {
    hide WalletOf;
  }

  lemma {:induction false} UsingLess(s: State, w: Wid, op: Op, at: At, e: Effect, p': Pc)
    requires UsingMoves(s, w, op, at, e, p')
    ensures Changes(p') == 0 && !e.ClearQuit? && Rank(s, p') < UsingRank(at)
  {
    hide WalletOf;
  }

  lemma {:induction false} MoveLess(s: State, p: Pc, e: Effect, p': Pc)
    requires Moves(s, p, e, p') && p != Idle && !AtRest(s, p)
    ensures Changes(p') <= Changes(p) && (e.ClearQuit? ==> Changes(p') < Changes(p))
    ensures Rank(s, p') < Rank(s, p)
  {
    hide WalletOf, UsingMoves, EndingMoves, AtRest, UsingRank;
    match p
    case Using(w, op, at) => UsingLess(s, w, op, at, e, p');
    case Opening(_, _) =>
    case Guarding =>
    case Enumerating =>
    case Enumerated =>
    case _ => EndingLess(s, p, e, p');
  }

  lemma {:induction false} MeetLess(s: State, t: Tid, p: Pc, q: Pc, e: Effect, p': Pc, q': Pc)
    requires Meets(t, p, q, e, p', q')
    ensures Changes(p') + Changes(q') <= Changes(p) + Changes(q) && !e.ClearQuit?
    ensures e.NewQuit? ==> Changes(p') + Changes(q') < Changes(p) + Changes(q)
    ensures !e.NewQuit? ==> Rank(s, p') + Rank(s, q') < Rank(s, p) + Rank(s, q)
  {
    hide WalletOf;
  }

  /** A thread's distance only depends on the wallet's channel. */
  lemma {:induction false} RankKept(s: State, s': State, p: Pc)
    requires p.Listening? ==> WalletOf(s', p.w).quit == WalletOf(s, p.w).quit
    ensures Rank(s', p) == Rank(s, p)
  {
  }

  lemma {:induction false} StepLess(s: State, t: Tid, e: Effect, p': Pc, s': State, n: nat)
    requires Step(s, t, e, p', s') && s.pcs[t] != Idle && !AtRest(s, s.pcs[t]) && Below(s, n)
    ensures Below(s', n) && Less(s, n, s', n)
  {
    MoveLess(s, s.pcs[t], e, p');
    StepAlone(s, s.pcs[t], e, p');
    StepView(s, t, e, p', s', t, 0);
    hide Moves, Changes, Rank, AtRest, Sum, Apply, WalletOf, Unblocked, PcOf;
    var f, f' := (u: Tid) => Changes(PcOf(s, u)), (u: Tid) => Changes(PcOf(s', u));
    forall u: Tid ensures PcOf(s', u) == if u == t then p' else PcOf(s, u) { StepView(s, t, e, p', s', u, 0); }
    SumOne(f, f', n, t);
    if !e.ClearQuit? {
      var g, g' := (u: Tid) => Rank(s, PcOf(s, u)), (u: Tid) => Rank(s', PcOf(s', u));
      forall u: Tid ensures g'(u) == Rank(s, PcOf(s', u)) {
        var p := PcOf(s', u);
        if p.Listening? { StepView(s, t, e, p', s', u, p.w); }
        RankKept(s, s', p);
      }
      SumOne(g, g', n, t);
    }
  }

  lemma {:induction false} JointLess(s: State, t: Tid, v: Tid, e: Effect, p': Pc, q': Pc, s': State, n: nat)
    requires Joint(s, t, v, e, p', q', s') && Below(s', n) && Below(s, n)
    ensures Less(s, n, s', n)
  {
    assert Meets(t, PcOf(s, t), PcOf(s, v), e, p', q');
    MeetLess(s, t, PcOf(s, t), PcOf(s, v), e, p', q');
    assert t in s'.pcs && v in s'.pcs;
    JointView(s, t, v, e, p', q', s', t, 0);
    hide Meets, Changes, Rank, Sum, Joint, WalletOf, PcOf;
    var f, f' := (u: Tid) => Changes(PcOf(s, u)), (u: Tid) => Changes(PcOf(s', u));
    forall u: Tid ensures PcOf(s', u) == if u == t then p' else if u == v then q' else PcOf(s, u) {
      JointView(s, t, v, e, p', q', s', u, 0);
    }
    SumTwo(f, f', n, t, v);
    if !e.NewQuit? {
      var g, g' := (u: Tid) => Rank(s, PcOf(s, u)), (u: Tid) => Rank(s', PcOf(s', u));
      forall u: Tid ensures g'(u) == Rank(s, PcOf(s', u)) {
        var p := PcOf(s', u);
        if p.Listening? { JointView(s, t, v, e, p', q', s', u, p.w); }
        RankKept(s, s', p);
      }
      SumTwo(g, g', n, t, v);
    }
  }

  lemma {:induction false} QuietLess(s: State, s': State, n: nat) returns (n': nat)
    requires Quiet(s, s') && Below(s, n)
    ensures Below(s', n') && Less(s, n, s', n')
  {
    if t, e, p' :| Step(s, t, e, p', s') && s.pcs[t] != Idle && !AtRest(s, s.pcs[t]) {
      n' := n;
      StepLess(s, t, e, p', s', n);
    } else {
      var t, v: Tid, e, p', q' :| Joint(s, t, v, e, p', q', s');
      n' := if v < n then n else v + 1;
      assert s'.pcs == s.pcs[v := q'][t := p'];
      SumBeyond(s, n, n');
      JointLess(s, t, v, e, p', q', s', n');
    }
    hide Step, Joint, AtRest, ChangesLeft, RankLeft;
  }

  // ----------------------------------------------------------------- schedules end

  lemma {:induction false} StopsFrom(f: nat -> State, i: nat, n: nat) returns (j: nat)
    requires Below(f(i), n)
    ensures !Quiet(f(j), f(j + 1))
    decreases ChangesLeft(f(i), n), RankLeft(f(i), n)
  {
    hide Below, Quiet, ChangesLeft, RankLeft;
    j := i;
    if Quiet(f(i), f(i + 1)) {
      var n' := QuietLess(f(i), f(i + 1), n);
      j := StopsFrom(f, i + 1, n');
    }
  }

  /** No schedule goes on for ever without beginning something new: operations under way
      need finitely many steps, in whatever order the threads take them. */
  lemma {:induction false} SchedulesEnd(f: nat -> State)
    ensures exists j: nat :: !Quiet(f(j), f(j + 1))
  {
    hide Quiet;
    var n := AboveAll(f(0).pcs.Keys);
    var j := StopsFrom(f, 0, n);
  }

  /** `more` is `run` with steps that begin nothing. */
  ghost predicate Continues(run: seq<State>, more: seq<State>) {
    && IsRun(more) && 0 < |run| <= |more| && more[..|run|] == run
    && forall k :: |run| - 1 <= k < |more| - 1 ==> Quiet(more[k], more[k + 1])
  }

  /** So every run can be continued to where nothing more can happen. */
  lemma {:induction false} WindsDown(run: seq<State>) returns (more: seq<State>)
    requires IsRun(run)
    ensures Continues(run, more) && Still(more[|more| - 1])
  {
    var s := run[|run| - 1];
    hide IsRun, Still, Quiet;
    var n := AboveAll(s.pcs.Keys);
    more := WindsDownFrom(run, s, n);
  }

  lemma {:induction false} WindsDownFrom(run: seq<State>, s: State, n: nat) returns (more: seq<State>)
    requires IsRun(run) && run[|run| - 1] == s && Below(s, n)
    ensures Continues(run, more) && Still(more[|more| - 1])
    decreases ChangesLeft(s, n), RankLeft(s, n)
  {
    hide Below, Quiet, Still, ChangesLeft, RankLeft, Continues, Next, Initial;
    if Still(s) {
      more := run;
      Same(run);
    } else {
      var s' := Stirs(s);
      var n' := QuietLess(s, s', n);
      RunOn(run, s');
      more := WindsDownFrom(run + [s'], s', n');
      Longer(run, s', more);
    }
  }

  lemma {:induction false} Stirs(s: State) returns (s': State)
    requires !Still(s)
    ensures Quiet(s, s')
  {
    hide Quiet;
    s' :| Quiet(s, s');
  }

  lemma {:induction false} Same(run: seq<State>)
    requires IsRun(run)
    ensures Continues(run, run) && run != []
  {
    hide Next;
  }

  lemma {:induction false} Longer(run: seq<State>, s': State, more: seq<State>)
    requires run != [] && Continues(run + [s'], more) && Quiet(run[|run| - 1], s')
    ensures Continues(run, more) && more != []
  {
    hide Quiet, IsRun;
    var m := |run|;
    assert more[..m] == more[..m + 1][..m];
    assert more[m] == more[..m + 1][m] && more[m - 1] == more[..m + 1][m - 1];
  }

  lemma {:induction false} RunOn(run: seq<State>, s': State)
    requires IsRun(run) && Quiet(run[|run| - 1], s')
    ensures IsRun(run + [s'])
  {
    hide Step, Joint, Initial, AtRest;
    var more := run + [s'];
    assert Next(run[|run| - 1], s');
    hide Next;
    forall i | 0 <= i < |more| - 1 ensures Next(more[i], more[i + 1]) {
      if i < |run| - 1 { assert Next(run[i], run[i + 1]); }
    }
  }

  // ---------------------------------------------------------- with everything returned

  /** A Close that nobody is left to serve. */
  ghost predicate Lost(s: State, p: Pc) {
    p.Sending? && !Servable(s, p.w, p.ch)
  }

  lemma {:induction false} StepsQuietly(s: State, t: Tid)
    requires Steps(s, t)
    ensures !Still(s)
  {
    var p := PcOf(s, t);
    assert p == s.pcs[t];
    hide PcOf, Servable, WalletOf;
    if e, p' :| Moves(s, p, e, p') && Unblocked(s, e) {
      var s' := Apply(s, t, e).(pcs := s.pcs[t := p']);
      assert Step(s, t, e, p', s');
      assert Quiet(s, s');
    } else {
      var u: Tid, e, p', q' :| u != t && Meets(t, p, PcOf(s, u), e, p', q');
      var s' := Apply(s, t, e).(pcs := s.pcs[u := q'][t := p']);
      assert Joint(s, t, u, e, p', q', s');
      assert Quiet(s, s');
    }
  }

  /** Where a schedule cannot go on without beginning something new, every operation has
      returned and every health check is at rest, but for Close calls that are lost. */
  lemma {:induction false} EndIsSettled(run: seq<State>, i: nat, t: Tid)
    requires IsRun(run) && i < |run| && Still(run[i])
    ensures var p := PcOf(run[i], t);
            p == Idle || AtRest(run[i], p) || Lost(run[i], p)
  {
    hide IsRun, Still, Servable, WalletOf, PcOf, CanStep;
    if Busy(run[i], t) {
      var u := NoDeadlock(run, i, t);
      StepsQuietly(run[i], u);
    }
  }

  /** Nobody enters Open or Close of a wallet in a step that begins nothing. */
  lemma {:induction false} MovesLeave(s: State, p: Pc, e: Effect, p': Pc, w: Wid)
    requires Moves(s, p, e, p') && p != Idle
    ensures Closes(p', w) ==> Closes(p, w)
    ensures Opens(p', w) ==> Opens(p, w)
  {
    hide WalletOf;
  }

  lemma {:induction false} MeetsLeave(t: Tid, p: Pc, q: Pc, e: Effect, p': Pc, q': Pc, w: Wid)
    requires Meets(t, p, q, e, p', q')
    ensures (Closes(p', w) ==> Closes(p, w)) && (Opens(p', w) ==> Opens(p, w))
    ensures !Closes(q', w) && !Opens(q', w)
  {
  }

  lemma {:induction false} QuietLeaves(s: State, s': State, u: Tid, w: Wid)
    requires Quiet(s, s')
    ensures Closes(PcOf(s', u), w) ==> Closes(PcOf(s, u), w)
    ensures Opens(PcOf(s', u), w) ==> Opens(PcOf(s, u), w)
  {
    if t, e, p' :| Step(s, t, e, p', s') && s.pcs[t] != Idle && !AtRest(s, s.pcs[t]) {
      MovesLeave(s, s.pcs[t], e, p', w);
      StepView(s, t, e, p', s', u, w);
      StepView(s, t, e, p', s', t, w);
    } else {
      var t, v: Tid, e, p', q' :| Joint(s, t, v, e, p', q', s');
      MeetsLeave(t, PcOf(s, t), PcOf(s, v), e, p', q', w);
      JointView(s, t, v, e, p', q', s', u, w);
      JointView(s, t, v, e, p', q', s', t, w);
    }
    hide Step, Joint, Closes, Opens, PcOf;
  }

  lemma {:induction false} StaysExclusive(run: seq<State>, i: nat, k: nat, w: Wid)
    requires i <= k < |run| && Exclusive(run[i], w)
    requires forall j :: i <= j < k ==> Quiet(run[j], run[j + 1])
    ensures Exclusive(run[k], w)
    decreases k
  {
    hide Closes, Opens, PcOf, Quiet;
    if i < k {
      StaysExclusive(run, i, k - 1, w);
      var s, s' := run[k - 1], run[k];
      assert Quiet(run[k - 1], run[k - 1 + 1]);
      forall t: Tid, u: Tid | Closes(PcOf(s', t), w)
        ensures (Closes(PcOf(s', u), w) ==> t == u) && !Opens(PcOf(s', u), w)
      {
        QuietLeaves(s, s', t, w);
        QuietLeaves(s, s', u, w);
      }
    }
  }

  /** So when callers kept to Exclusive up to some state and begin nothing after it, every
      schedule ends with all operations, each Close included, returned. */
  lemma {:induction false} EveryOperationReturns(run: seq<State>, i: nat, t: Tid)
    requires IsRun(run) && i < |run|
    requires forall k, w :: 0 <= k <= i ==> Exclusive(run[k], w)
    requires forall k :: i <= k < |run| - 1 ==> Quiet(run[k], run[k + 1])
    requires Still(run[|run| - 1])
    ensures var s := run[|run| - 1];
            PcOf(s, t) == Idle || AtRest(s, PcOf(s, t))
  {
    hide IsRun, Quiet, Still, Exclusive, PcOf, Servable, AtRest;
    var n := |run| - 1;
    EndIsSettled(run, n, t);
    var p := PcOf(run[n], t);
    if p.Sending? {
      forall k | 0 <= k < n ensures Exclusive(run[k], p.w) {
        if i < k { StaysExclusive(run, i, k, p.w); }
      }
      NoCloseIsLost(run, n, t, p.w, p.ch);
    }
  }
}
