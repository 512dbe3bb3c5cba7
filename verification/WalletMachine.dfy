/** The locking protocol of the Ledger wallets (ledger/usbwallet/wallet.go and the
    enumeration guard in hub.go) as interleaved steps of any number of threads on any
    number of wallets. Each wallet has a read/write state lock, a one-token communication
    channel, which is made anew whenever the device is connected, and a channel to end its
    health check, made anew by every Open; the hub has a mutex around the counter of
    pending signatures. */
module WalletMachine {
  import opened Options

  type Tid = nat
  type Wid = nat

  // ------------------------------------------------------------------------ state

  /** The state lock (`next` is the writer that has announced itself and waits for the
      readers to leave), the communication channel (`token` says whether its one token is
      in it), the device handle, whether the wallet counts as opened (`paths` is not nil),
      and the channel that ends the health check. */
  datatype Wallet = Wallet(
    readers: set<Tid>, writer: Option<Tid>, next: Option<Tid>,
    token: bool, device: Option<nat>, live: bool, quit: Option<nat>)

  const CLOSED_WALLET := Wallet({}, None, None, false, None, false, None)

  /** The three operations that talk to the device under the read lock. */
  datatype Op = Heartbeat | Derive | Sign

  /** Where such an operation stands. */
  datatype At =
    | Locked      // read lock taken
    | Checked     // the device is there
    | Taken       // token taken
    | Entering    // Sign: hub mutex taken
    | Counted     // Sign: counter raised
    | Ready       // Sign: hub mutex released
    | Talking     // in the driver exchange
    | Talked      // Sign: the exchange is over
    | Leaving     // Sign: hub mutex taken again
    | Uncounted   // Sign: counter lowered
    | Settled     // only the token and the read lock are left to give back
    | GivenBack   // token given back

  datatype OpenAt = Waiting | Fresh | Connected | Greeting | Marked | Over

  datatype Pc =
    | Idle
    | Using(w: Wid, op: Op, at: At)
    | Opening(w: Wid, stage: OpenAt)
    | ReadingQuit(w: Wid)                   // Close, looking up the health channel
    | Sending(w: Wid, ch: nat)              // Close, sending on the channel it looked up
    | AwaitingReply(w: Wid)                 // Close, waiting for the health check's answer
    | BeforeTeardown(w: Wid, beat: bool)    // Close, or a heartbeat that failed
    | Draining(w: Wid, beat: bool)          // waiting for the readers to leave
    | Clearing(w: Wid)                      // Close, about to forget the health channel
    | TearingDown(w: Wid, beat: bool)
    | TornDown(w: Wid, beat: bool)
    | Looping(w: Wid)                       // a heartbeat at the top of its loop
    | Listening(w: Wid, on: Option<nat>)    // in its select, until the timer or a message
    | Timed(w: Wid)                         // its timer fired, waiting for the read lock
    | Replying(w: Wid, to: Tid)             // told to end, about to answer
    | Guarding                              // refreshWallets, before the check of the counter
    | Enumerating
    | Enumerated

  /** `spare` is the next unused handle or channel. */
  datatype State = State(pcs: map<Tid, Pc>, wallets: map<Wid, Wallet>, hub: Option<Tid>, pend: int, spare: nat)

  function WalletOf(s: State, w: Wid): Wallet {
    if w in s.wallets then s.wallets[w] else CLOSED_WALLET
  }

  // ------------------------------------------------------------------------ steps

  /** What a step does to the shared state. */
  datatype Effect =
    | Nothing
    | RLock(w: Wid) | RUnlock(w: Wid)
    | Announce(w: Wid)    // the first half of taking the write lock: new readers now wait
    | Lock(w: Wid) | Unlock(w: Wid)
    | TakeToken(w: Wid) | GiveToken(w: Wid)
    | HubLock | HubUnlock
    | Raise | Lower
    | Connect(w: Wid)     // a new handle and a new channel with its token
    | MarkOpen(w: Wid)
    | Disconnect(w: Wid)
    | NewQuit(w: Wid)     // a new health channel
    | ClearQuit(w: Wid)

  /** Whether the step can be taken now; a lock, or a channel, may make it wait. */
  predicate Unblocked(s: State, e: Effect) {
    match e
    case RLock(w) => WalletOf(s, w).writer == None && WalletOf(s, w).next == None
    case Announce(w) => WalletOf(s, w).writer == None && WalletOf(s, w).next == None
    case Lock(w) => WalletOf(s, w).writer == None && WalletOf(s, w).readers == {}
    case TakeToken(w) => WalletOf(s, w).token
    case GiveToken(w) => !WalletOf(s, w).token
    case HubLock => s.hub == None
    case _ => true
  }

  /** The effect on the wallet it names. */
  function OnWallet(x: Wallet, t: Tid, e: Effect, spare: nat): Wallet {
    match e
    case RLock(_) => x.(readers := x.readers + {t})
    case RUnlock(_) => x.(readers := x.readers - {t})
    case Announce(_) => x.(next := Some(t))
    case Lock(_) => x.(writer := Some(t), next := None)
    case Unlock(_) => x.(writer := None)
    case TakeToken(_) => x.(token := false)
    case GiveToken(_) => x.(token := true)
    case Connect(_) => x.(device := Some(spare), token := true)
    case MarkOpen(_) => x.(live := true)
    case Disconnect(_) => x.(device := None, live := false)
    case NewQuit(_) => x.(quit := Some(spare))
    case ClearQuit(_) => x.(quit := None)
    case _ => x
  }

  function Target(e: Effect): Option<Wid> {
    if e.Nothing? || e.HubLock? || e.HubUnlock? || e.Raise? || e.Lower? then None else Some(e.w)
  }

  function Apply(s: State, t: Tid, e: Effect): State {
    var target := Target(e);
    if target.Some? then
      s.(wallets := s.wallets[target.value := OnWallet(WalletOf(s, target.value), t, e, s.spare)],
         spare := if e.Connect? || e.NewQuit? then s.spare + 1 else s.spare)
    else if e.HubLock? then s.(hub := Some(t))
    else if e.HubUnlock? then s.(hub := None)
    else if e.Raise? then s.(pend := s.pend + 1)
    else if e.Lower? then s.(pend := s.pend - 1)
    else s
  }

  /** The program text: from which point, with which effect, to which point. */
  predicate Moves(s: State, p: Pc, e: Effect, p': Pc) {
    match p
    case Idle =>
      || (p'.Using? && p'.op != Heartbeat && p'.at == Locked && e == RLock(p'.w))
      || (p'.Opening? && p'.stage == Waiting && e == Announce(p'.w))
      || (p'.ReadingQuit? && e == RLock(p'.w))
      || (p' == Guarding && e == HubLock)
    case Using(w, op, at) => UsingMoves(s, w, op, at, e, p')
    case Opening(w, stage) => OpeningMoves(s, w, stage, e, p')
    case Guarding => if s.pend > 0 then e == HubUnlock && p' == Idle else e == Nothing && p' == Enumerating
    case Enumerating => e == Nothing && p' == Enumerated
    case Enumerated => e == HubUnlock && p' == Idle
    case _ => EndingMoves(s, p, e, p')
  }

  /** Where an operation goes when it is over: a heartbeat goes on with its loop. */
  function Home(w: Wid, beat: bool): Pc {
    if beat then Looping(w) else Idle
  }

  predicate UsingMoves(s: State, w: Wid, op: Op, at: At, e: Effect, p': Pc) {
    match at
    case Locked =>
      // a signature is also given up here when its account is not known
      || ((WalletOf(s, w).device == None || op == Sign) && e == RUnlock(w) && p' == Home(w, op == Heartbeat))
      || (WalletOf(s, w).device != None && e == Nothing && p' == Using(w, op, Checked))
    case Checked => e == TakeToken(w) && p' == Using(w, op, Taken)
    case Taken =>
      if op == Sign then e == HubLock && p' == Using(w, op, Entering) else e == Nothing && p' == Using(w, op, Talking)
    case Entering => e == Raise && p' == Using(w, op, Counted)
    case Counted => e == HubUnlock && p' == Using(w, op, Ready)
    case Ready => e == Nothing && p' == Using(w, op, Talking)
    case Talking => e == Nothing && p' == Using(w, op, if op == Sign then Talked else Settled)
    case Talked => e == HubLock && p' == Using(w, op, Leaving)
    case Leaving => e == Lower && p' == Using(w, op, Uncounted)
    case Uncounted => e == HubUnlock && p' == Using(w, op, Settled)
    case Settled => e == GiveToken(w) && p' == Using(w, op, GivenBack)
    case GivenBack =>
      e == RUnlock(w) && (p' == Home(w, op == Heartbeat) || (op == Heartbeat && p' == BeforeTeardown(w, true)))
  }

  predicate OpeningMoves(s: State, w: Wid, stage: OpenAt, e: Effect, p': Pc) {
    match stage
    case Waiting => e == Lock(w) && p' == Opening(w, Fresh)
    case Fresh =>
      if WalletOf(s, w).live then e == Unlock(w) && p' == Idle
      else if WalletOf(s, w).device == None then
        (e == Unlock(w) && p' == Idle) || (e == Connect(w) && p' == Opening(w, Connected))
      else e == Nothing && p' == Opening(w, Connected)
    case Connected => e == Nothing && p' == Opening(w, Greeting)
    case Greeting => (e == Nothing && p' == Opening(w, Over)) || (e == MarkOpen(w) && p' == Opening(w, Marked))
    case Marked => false  // goes on together with the heartbeat it starts
    case Over => e == Unlock(w) && p' == Idle
  }

  /** Close, the teardown it shares with the health check, and the latter's loop. */
  predicate EndingMoves(s: State, p: Pc, e: Effect, p': Pc) {
    match p
    case ReadingQuit(w) =>
      && e == RUnlock(w)
      && p' == (match WalletOf(s, w).quit case None => BeforeTeardown(w, false) case Some(ch) => Sending(w, ch))
    case BeforeTeardown(w, beat) => e == Announce(w) && p' == Draining(w, beat)
    case Draining(w, beat) => e == Lock(w) && p' == if beat then TearingDown(w, true) else Clearing(w)
    case Clearing(w) => e == ClearQuit(w) && p' == TearingDown(w, false)
    case TearingDown(w, beat) =>
      p' == TornDown(w, beat) && e == if WalletOf(s, w).device == None then Nothing else Disconnect(w)
    case TornDown(w, beat) => e == Unlock(w) && p' == Home(w, beat)
    case Looping(w) => e == Nothing && p' == Listening(w, WalletOf(s, w).quit)
    case Listening(w, _) => e == Nothing && p' == Timed(w)
    case Timed(w) => e == RLock(w) && p' == Using(w, Heartbeat, Locked)
    case _ => false  // a rendezvous
  }

  /** The steps two threads make together: a successful Open starts a health check; a
      Close hands its channel to a health check that listens; that one answers and ends. */
  predicate Meets(t: Tid, p: Pc, q: Pc, e: Effect, p': Pc, q': Pc) {
    match p
    case Opening(w, stage) =>
      stage == Marked && q == Idle && e == NewQuit(w) && p' == Opening(w, Over) && q' == Looping(w)
    case Sending(w, ch) =>
      q == Listening(w, Some(ch)) && e == Nothing && p' == AwaitingReply(w) && q' == Replying(w, t)
    case AwaitingReply(w) =>
      q == Replying(w, t) && e == Nothing && p' == BeforeTeardown(w, false) && q' == Idle
    case _ => false
  }

  /** Points between the counter's two updates only occur in signatures. */
  predicate WellPlaced(p: Pc) {
    p.Using? && (p.at.Entering? || p.at.Counted? || p.at.Ready? || p.at.Talked? || p.at.Leaving? || p.at.Uncounted?)
    ==> p.op == Sign
  }

  predicate Step(s: State, t: Tid, e: Effect, p': Pc, s': State) {
    && t in s.pcs && Moves(s, s.pcs[t], e, p') && Unblocked(s, e)
    && s' == Apply(s, t, e).(pcs := s.pcs[t := p'])
  }

  predicate Joint(s: State, t: Tid, u: Tid, e: Effect, p': Pc, q': Pc, s': State) {
    && t in s.pcs && u != t && Meets(t, s.pcs[t], PcOf(s, u), e, p', q')
    && s' == Apply(s, t, e).(pcs := s.pcs[u := q'][t := p'])
  }

  ghost predicate Next(s: State, s': State) {
    || (exists t, e, p' :: Step(s, t, e, p', s'))
    || (exists t, u, e, p', q' :: Joint(s, t, u, e, p', q', s'))
  }

  /** Threads not listed are idle. */
  function PcOf(s: State, t: Tid): Pc {
    if t in s.pcs then s.pcs[t] else Idle
  }

  predicate Initial(s: State) {
    s.wallets == map[] && s.hub == None && s.pend == 0 && forall t :: t in s.pcs ==> s.pcs[t] == Idle
  }

  ghost predicate IsRun(run: seq<State>) {
    && run != [] && Initial(run[0])
    && forall i :: 0 <= i < |run| - 1 ==> Next(run[i], run[i + 1])
  }

  // ----------------------------------------------------- what a program point holds

  function Reads(p: Pc): Option<Wid> {
    if p.Using? || p.ReadingQuit? then Some(p.w) else None
  }

  function Writes(p: Pc): Option<Wid> {
    if (p.Opening? && p.stage != Waiting) || p.Clearing? || p.TearingDown? || p.TornDown? then Some(p.w) else None
  }

  /** Announced as the next writer. */
  function Waits(p: Pc): Option<Wid> {
    if (p.Opening? && p.stage == Waiting) || p.Draining? then Some(p.w) else None
  }

  function Tokens(p: Pc): Option<Wid> {
    if p.Using? && !p.at.Locked? && !p.at.Checked? && !p.at.GivenBack? then Some(p.w) else None
  }

  predicate Hubs(p: Pc) {
    || p.Guarding? || p.Enumerating? || p.Enumerated?
    || (p.Using? && (p.at.Entering? || p.at.Counted? || p.at.Leaving? || p.at.Uncounted?))
  }

  /** A pending signature: between the counter's two updates. */
  predicate Pending(p: Pc) {
    p.Using? && p.op == Sign && (p.at.Counted? || p.at.Ready? || p.at.Talking? || p.at.Talked? || p.at.Leaving?)
  }

  /** Where the device must be there. */
  function Needs(p: Pc): Option<Wid> {
    if p.Using? && !p.at.Locked? && !p.at.GivenBack? then Some(p.w)
    else if p.Opening? && (p.stage.Connected? || p.stage.Greeting?) then Some(p.w)
    else None
  }

  /** In a driver exchange. */
  function Talks(p: Pc): Option<Wid> {
    if p.Using? && p.at == Talking then Some(p.w)
    else if p.Opening? && p.stage == Greeting then Some(p.w)
    else None
  }

  // ------------------------------------------------- effects and program points agree

  /** A step changes what the thread holds exactly as its effect says. */
  predicate Tracks(p: Pc, e: Effect, p': Pc) {
    && (match e
        case RLock(w) => Reads(p) == None && Reads(p') == Some(w)
        case RUnlock(w) => Reads(p) == Some(w) && Reads(p') == None
        case _ => Reads(p') == Reads(p))
    && (match e
        case Lock(w) => Writes(p) == None && Writes(p') == Some(w)
        case Unlock(w) => Writes(p) == Some(w) && Writes(p') == None
        case _ => Writes(p') == Writes(p))
    && (match e
        case Announce(w) => Waits(p) == None && Waits(p') == Some(w)
        case Lock(w) => Waits(p) == Some(w) && Waits(p') == None
        case _ => Waits(p') == Waits(p))
    && (match e
        case TakeToken(w) => Tokens(p) == None && Tokens(p') == Some(w)
        case GiveToken(w) => Tokens(p) == Some(w) && Tokens(p') == None
        case _ => Tokens(p') == Tokens(p))
    && (match e
        case HubLock => !Hubs(p) && Hubs(p')
        case HubUnlock => Hubs(p) && !Hubs(p')
        case _ => Hubs(p') == Hubs(p))
    && (match e
        case Raise => !Pending(p) && Pending(p')
        case Lower => Pending(p) && !Pending(p')
        case _ => Pending(p') == Pending(p))
    && (e.Connect? || e.Disconnect? ==> Writes(p) == Some(e.w))
    && (e.Raise? || e.Lower? ==> Hubs(p))
  }

  /** The step keeps to what the invariants need: holdings follow the effect, the device
      is checked or connected before it comes to be needed, and an enumeration starts only
      while no signature is pending. */
  predicate Fits(s: State, p: Pc, e: Effect, p': Pc) {
    && Tracks(p, e, p') && WellPlaced(p')
    && (p' == Enumerating ==> p == Guarding && s.pend <= 0)
    && (Needs(p').Some? ==>
          && !e.Disconnect?
          && (Needs(p') == Needs(p) || WalletOf(s, Needs(p').value).device.Some? || e == Connect(Needs(p').value)))
  }

  /** A step that fits, whether made alone or, after the partner's change, together. */
  predicate Change(s: State, t: Tid, e: Effect, p': Pc, s': State) {
    && t in s.pcs && Fits(s, s.pcs[t], e, p') && Unblocked(s, e)
    && s' == Apply(s, t, e).(pcs := s.pcs[t := p'])
  }

  lemma {:induction false} SignTrack(s: State, w: Wid, at: At, e: Effect, p': Pc)
    requires UsingMoves(s, w, Sign, at, e, p')
    ensures Tracks(Using(w, Sign, at), e, p') && WellPlaced(p') && p' != Enumerating
  {
    hide WalletOf;
  }

  lemma {:induction false} PlainTrack(s: State, w: Wid, op: Op, at: At, e: Effect, p': Pc)
    requires op != Sign && UsingMoves(s, w, op, at, e, p') && WellPlaced(Using(w, op, at))
    ensures Tracks(Using(w, op, at), e, p') && WellPlaced(p') && p' != Enumerating
  {
    hide WalletOf;
  }

  lemma {:induction false} OpeningTrack(s: State, w: Wid, stage: OpenAt, e: Effect, p': Pc)
    requires OpeningMoves(s, w, stage, e, p')
    ensures Tracks(Opening(w, stage), e, p') && WellPlaced(p') && p' != Enumerating
  {
    hide WalletOf;
  }

  lemma {:induction false} EndingTrack(s: State, p: Pc, e: Effect, p': Pc)
    requires EndingMoves(s, p, e, p')
    ensures Tracks(p, e, p') && WellPlaced(p') && p' != Enumerating
  {
    hide WalletOf;
  }

  lemma {:induction false} MovesTrack(s: State, p: Pc, e: Effect, p': Pc)
    requires Moves(s, p, e, p') && WellPlaced(p)
    ensures Tracks(p, e, p') && WellPlaced(p')
    ensures p' == Enumerating ==> p == Guarding && s.pend <= 0
  {
    hide UsingMoves, OpeningMoves, EndingMoves;
    match p
    case Using(w, op, at) =>
      if op == Sign { SignTrack(s, w, at, e, p'); } else { PlainTrack(s, w, op, at, e, p'); }
    case Opening(w, stage) => OpeningTrack(s, w, stage, e, p');
    case Idle =>
    case Guarding =>
    case Enumerating =>
    case Enumerated =>
    case _ => EndingTrack(s, p, e, p');
  }

  /** The device is checked, or connected, before a thread comes to need it. */
  lemma {:induction false} MovesNeed(s: State, p: Pc, e: Effect, p': Pc)
    requires Moves(s, p, e, p') && Needs(p').Some?
    ensures Needs(p') == Needs(p) || WalletOf(s, Needs(p').value).device.Some? || e == Connect(Needs(p').value)
    ensures !e.Disconnect?
  {
  }

  lemma {:induction false} MovesFit(s: State, p: Pc, e: Effect, p': Pc)
    requires Moves(s, p, e, p') && WellPlaced(p)
    ensures Fits(s, p, e, p')
  {
    MovesTrack(s, p, e, p');
    var need := Needs(p');
    if need.Some? { MovesNeed(s, p, e, p'); }
    hide Moves, Tracks, WellPlaced, Needs, WalletOf;
  }

  /** Points at which a thread holds and needs nothing. */
  predicate Bare(p: Pc) {
    && Reads(p) == None && Writes(p) == None && Waits(p) == None && Tokens(p) == None && Needs(p) == None
    && !Hubs(p) && !Pending(p) && WellPlaced(p)
  }

  lemma {:induction false} MeetsFit(s: State, t: Tid, p: Pc, q: Pc, e: Effect, p': Pc, q': Pc)
    requires Meets(t, p, q, e, p', q')
    ensures Fits(s, p, e, p') && Unblocked(s, e) && Bare(q) && Bare(q')
  {
    hide WalletOf;
  }
}
