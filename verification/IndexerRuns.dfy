/** Everything that ever writes the transaction index: sessions of the indexing service
    (server/indexer_service.go) and runs of the two-direction index command
    (server/indexer_cmd.go), in any order and cut short anywhere. Heights with no
    Ethereum transaction leave no trace in the store, so none of these can see where
    another one stopped; still no height inside the indexed range is ever skipped. */
module IndexerRuns {
  import opened Bits
  import opened Options
  import opened KvIndexer
  import opened KvScan
  import opened KvStore

  /** The history behind a store: the heights handed to IndexBlock, and those whose
      batch was written, in order. */
  datatype History = History(handed: set<nat>, written: seq<nat>)

  const EMPTY := History({}, [])

  /** What an attempt at a height meets: no block or result, or a block whose batch is
      written or refused. */
  datatype Outcome = Missing | Fetched(writeOk: bool)

  ghost function Store(c: Chain, x: History): Db {
    PutAll(map[], LogOf(c, x.written))
  }

  function Hand(x: History, h: nat, writeOk: bool): History {
    History(x.handed + {h}, if writeOk then x.written + [h] else x.written)
  }

  /** The heights that hold a saved transaction. */
  ghost predicate Stored(c: Chain, x: History, h: nat) {
    h in x.written && Saves(c(h)) != []
  }

  // ------------------------------------------------------------------- activities

  /** The backward loop, at height `i`. */
  function BackwardFrom(x: History, i: int, env: nat -> Outcome): History
    decreases i
  {
    if i <= 0 then x
    else
      match env(i)
      case Missing => x
      case Fetched(ok) => if ok then BackwardFrom(Hand(x, i, true), i - 1, env) else Hand(x, i, false)
  }

  /** The forward loop, at height `i`, up to the block store's height. */
  function ForwardFrom(x: History, i: nat, height: nat, env: nat -> Outcome): History
    decreases height - i
  {
    if i > height then x
    else
      match env(i)
      case Missing => x
      case Fetched(ok) => if ok then ForwardFrom(Hand(x, i, true), i + 1, height, env) else Hand(x, i, false)
  }

  /** One step of a session: a header arrives at the notification goroutine, or the main
      loop makes one attempt. The two interleave freely. */
  datatype Event = Header(height: nat) | Attempt(outcome: Outcome)

  /** A running service: the shared latest height and the main loop's last height. */
  datatype Session = Session(x: History, latest: nat, last: nat)

  /** The inner loop's counter is always `last + 1`: a failed fetch leaves the loop and
      comes back to the same height, a refused batch is only logged. */
  function SessionStep(s: Session, e: Event): Session {
    match e
    case Header(h) => if h > s.latest then s.(latest := h) else s
    case Attempt(o) =>
      if s.latest <= s.last || o.Missing? then s
      else s.(x := Hand(s.x, s.last + 1, o.writeOk), last := s.last + 1)
  }

  function SessionFrom(s: Session, events: seq<Event>): Session {
    if events == [] then s else SessionStep(SessionFrom(s, events[..|events| - 1]), events[|events| - 1])
  }

  datatype Activity =
    | Service(latest: nat, events: seq<Event>)
    | Backward(height: nat, env: nat -> Outcome)
    | Forward(height: nat, env: nat -> Outcome)

  /** Heights on the wire and in the stores are int64. */
  predicate Bounded(a: Activity) {
    match a
    case Service(latest, events) =>
      && latest < TWO_63
      && forall i :: 0 <= i < |events| && events[i].Header? ==> events[i].height < TWO_63
    case Backward(height, _) => height < TWO_63
    case Forward(height, _) => height < TWO_63
  }

  ghost function Last(c: Chain, x: History): Option<int64> {
    LastBlock(Store(c, x))
  }

  ghost function First(c: Chain, x: History): Option<int64> {
    FirstBlock(Store(c, x))
  }

  /** Where each activity starts, given what it reads from the index. */
  function ServiceStart(last: int, latest: nat): nat
    requires last >= -1
  {
    if last == -1 then latest else last
  }

  function BackwardStart(first: int, height: nat): nat
    requires first >= -1
  {
    if first == -1 then height else first
  }

  function ForwardStart(last: int): nat
    requires last >= -1
  {
    if last == -1 then 0 else last
  }

  ghost predicate Proper(c: Chain, x: History) {
    IsChain(c) && Heights(x.written)
  }

  ghost function After(c: Chain, x: History, a: Activity): History
    requires Proper(c, x)
  {
    EndsSpec(c, x);
    match a
    case Service(latest, events) => SessionFrom(Session(x, latest, ServiceStart(Last(c, x).value, latest)), events).x
    case Backward(height, env) => BackwardFrom(x, BackwardStart(First(c, x).value, height) - 1, env)
    case Forward(height, env) => ForwardFrom(x, ForwardStart(Last(c, x).value) + 1, height, env)
  }

  // --------------------------------------------------------- the ends of the index

  lemma {:induction false} LogOrdinary(c: Chain, x: History)
    requires Proper(c, x)
    ensures Ordinary(LogOf(c, x.written))
  {
    hide Saves, LogOf;
    var log := LogOf(c, x.written);
    forall j | 0 <= j < |log| ensures log[j].rec.height >= 0 && log[j].rec.ethTxIndex >= 0 {
      var h, i := LogOrigin(c, x.written, j);
      SavesShape(c(h));
      assert SavedAt(Saves(c(h))[i], h, i);
    }
  }

  /** A height is stored exactly when the log holds a save at it. */
  lemma {:induction false} StoredInLog(c: Chain, x: History, h: nat)
    requires Proper(c, x)
    ensures Stored(c, x, h) <==> exists j :: 0 <= j < |LogOf(c, x.written)| && LogOf(c, x.written)[j].rec.height == h
  {
    hide Saves, LogOf;
    var log := LogOf(c, x.written);
    if Stored(c, x, h) {
      SavesShape(c(h));
      assert SavedAt(Saves(c(h))[0], h, 0);
      var j := LogHolds(c, x.written, h, 0);
      assert log[j].rec.height == h;
    }
    forall j | 0 <= j < |log| && log[j].rec.height == h ensures Stored(c, x, h) {
      var h', i := LogOrigin(c, x.written, j);
      SavesShape(c(h'));
      assert SavedAt(Saves(c(h'))[i], h', i);
    }
  }

  /** When the log is not empty, its heights are the stored ones. */
  lemma {:induction false} StoredHeights(c: Chain, x: History, h: int)
    requires Proper(c, x)
    ensures var log := LogOf(c, x.written);
            (exists j :: 0 <= j < |log| && log[j].rec.height == h) <==> h >= 1 && Stored(c, x, h)
  {
    hide Saves, LogOf;
    var log := LogOf(c, x.written);
    LogOrdinary(c, x);
    if h >= 0 {
      StoredInLog(c, x, h);
    }
  }

  lemma {:induction false} LastSpec(c: Chain, x: History)
    requires Proper(c, x)
    ensures Last(c, x).Some? && (Last(c, x).value == -1 || Last(c, x).value >= 1)
    ensures var last := Last(c, x).value;
            if last == -1 then forall h: nat :: !Stored(c, x, h)
            else Stored(c, x, last) && forall h: nat :: Stored(c, x, h) ==> h <= last
  {
    var log := LogOf(c, x.written);
    LogOrdinary(c, x);
    LastBlockSpec(log);
    hide PutAll, LastBlock, LogOf, Ordinary, Stored, IsChain;
    if log != [] { StoredHeights(c, x, Last(c, x).value); }
    forall h: nat | Stored(c, x, h) ensures log != [] && h <= Last(c, x).value {
      StoredInLog(c, x, h);
    }
  }

  lemma {:induction false} FirstSpec(c: Chain, x: History)
    requires Proper(c, x)
    ensures First(c, x).Some? && (First(c, x).value == -1 || First(c, x).value >= 1)
    ensures var first := First(c, x).value;
            if first == -1 then forall h: nat :: !Stored(c, x, h)
            else Stored(c, x, first) && forall h: nat :: Stored(c, x, h) ==> first <= h
  {
    var log := LogOf(c, x.written);
    LogOrdinary(c, x);
    FirstBlockSpec(log);
    hide PutAll, FirstBlock, LogOf, Ordinary, Stored, IsChain;
    if log != [] { StoredHeights(c, x, First(c, x).value); }
    forall h: nat | Stored(c, x, h) ensures log != [] && h >= First(c, x).value {
      StoredInLog(c, x, h);
    }
  }

  /** LastIndexedBlock and FirstIndexedBlock are the greatest and the least stored
      height, or -1 when no height is stored. */
  lemma {:induction false} EndsSpec(c: Chain, x: History)
    requires Proper(c, x)
    ensures Last(c, x).Some? && First(c, x).Some?
    ensures var last, first := Last(c, x).value, First(c, x).value;
            || (last == first == -1 && forall h: nat :: !Stored(c, x, h))
            || (&& 1 <= first && 1 <= last && Stored(c, x, last) && Stored(c, x, first)
                && forall h: nat :: Stored(c, x, h) ==> first <= h <= last)
  {
    hide Last, First, Stored, Proper;
    LastSpec(c, x);
    FirstSpec(c, x);
  }

  // ------------------------------------------------------------------- invariants

  /** Every height between two stored heights has been handed over. */
  ghost predicate NoGap(c: Chain, x: History) {
    forall a: nat, h: nat, b: nat :: Stored(c, x, a) && Stored(c, x, b) && a <= h <= b ==> h in x.handed
  }

  /** Nothing is stored above `last`, and everything from a stored height up to it was
      handed over. */
  ghost predicate DoneUpTo(c: Chain, x: History, last: nat) {
    forall a: nat :: Stored(c, x, a) ==> a <= last && forall h: nat :: a <= h <= last ==> h in x.handed
  }

  /** Nothing is stored below `first`, and everything from it up to a stored height was
      handed over. */
  ghost predicate DoneDownTo(c: Chain, x: History, first: nat) {
    forall b: nat :: Stored(c, x, b) ==> first <= b && forall h: nat :: first <= h <= b ==> h in x.handed
  }

  lemma {:induction false} HandStored(c: Chain, x: History, h: nat, ok: bool, a: nat)
    ensures Stored(c, Hand(x, h, ok), a) ==> Stored(c, x, a) || a == h
  {
  }

  lemma {:induction false} HandUp(c: Chain, x: History, last: nat, ok: bool)
    requires DoneUpTo(c, x, last)
    ensures DoneUpTo(c, Hand(x, last + 1, ok), last + 1)
  {
    hide Stored;
    var x' := Hand(x, last + 1, ok);
    forall a: nat | Stored(c, x', a) ensures a <= last + 1 && forall h: nat :: a <= h <= last + 1 ==> h in x'.handed {
      HandStored(c, x, last + 1, ok, a);
    }
  }

  lemma {:induction false} HandDown(c: Chain, x: History, first: nat, ok: bool)
    requires DoneDownTo(c, x, first) && first > 0
    ensures DoneDownTo(c, Hand(x, first - 1, ok), first - 1)
  {
    hide Stored;
    var x' := Hand(x, first - 1, ok);
    forall b: nat | Stored(c, x', b) ensures first - 1 <= b && forall h: nat :: first - 1 <= h <= b ==> h in x'.handed {
      HandStored(c, x, first - 1, ok, b);
    }
  }

  lemma {:induction false} UpNoGap(c: Chain, x: History, last: nat)
    requires DoneUpTo(c, x, last)
    ensures NoGap(c, x)
  {
    hide Stored;
  }

  lemma {:induction false} DownNoGap(c: Chain, x: History, first: nat)
    requires DoneDownTo(c, x, first)
    ensures NoGap(c, x)
  {
    hide Stored;
  }

  // -------------------------------------------------------- every activity keeps them

  lemma {:induction false} HandProper(c: Chain, x: History, h: nat, ok: bool)
    requires Proper(c, x) && 1 <= h < TWO_63
    ensures Proper(c, Hand(x, h, ok))
  {
    hide IsChain;
  }

  lemma {:induction false} BackwardKeeps(c: Chain, x: History, first: nat, env: nat -> Outcome)
    requires Proper(c, x) && DoneDownTo(c, x, first) && first < TWO_63
    ensures var x' := BackwardFrom(x, first - 1, env); Proper(c, x') && NoGap(c, x')
    decreases first
  {
    hide DoneDownTo, NoGap, Proper;
    DownNoGap(c, x, first);
    if first > 1 && env(first - 1).Fetched? {
      var ok := env(first - 1).writeOk;
      HandProper(c, x, first - 1, ok);
      HandDown(c, x, first, ok);
      if ok {
        BackwardKeeps(c, Hand(x, first - 1, ok), first - 1, env);
      } else {
        DownNoGap(c, Hand(x, first - 1, ok), first - 1);
      }
    }
  }

  lemma {:induction false} ForwardKeeps(c: Chain, x: History, last: nat, height: nat, env: nat -> Outcome)
    requires Proper(c, x) && DoneUpTo(c, x, last) && height < TWO_63
    ensures var x' := ForwardFrom(x, last + 1, height, env); Proper(c, x') && NoGap(c, x')
    decreases height - last
  {
    hide DoneUpTo, NoGap, Proper;
    UpNoGap(c, x, last);
    if last < height && env(last + 1).Fetched? {
      var ok := env(last + 1).writeOk;
      HandProper(c, x, last + 1, ok);
      HandUp(c, x, last, ok);
      if ok {
        ForwardKeeps(c, Hand(x, last + 1, ok), last + 1, height, env);
      } else {
        UpNoGap(c, Hand(x, last + 1, ok), last + 1);
      }
    }
  }

  ghost predicate SessionInv(c: Chain, s: Session) {
    Proper(c, s.x) && DoneUpTo(c, s.x, s.last) && s.latest < TWO_63
  }

  lemma {:induction false} SessionStepKeeps(c: Chain, s: Session, e: Event)
    requires SessionInv(c, s) && (e.Header? ==> e.height < TWO_63)
    ensures SessionInv(c, SessionStep(s, e))
  {
    hide DoneUpTo, Proper;
    if e.Attempt? && s.last < s.latest && e.outcome.Fetched? {
      HandProper(c, s.x, s.last + 1, e.outcome.writeOk);
      HandUp(c, s.x, s.last, e.outcome.writeOk);
    }
  }

  lemma {:induction false} SessionKeeps(c: Chain, s: Session, events: seq<Event>)
    requires SessionInv(c, s)
    requires forall i :: 0 <= i < |events| && events[i].Header? ==> events[i].height < TWO_63
    ensures SessionInv(c, SessionFrom(s, events))
  {
    hide SessionInv, SessionStep;
    if events != [] {
      SessionKeeps(c, s, events[..|events| - 1]);
      SessionStepKeeps(c, SessionFrom(s, events[..|events| - 1]), events[|events| - 1]);
    }
  }

  /** Starting at the last stored height, or anywhere in an empty index. */
  lemma {:induction false} StartUp(c: Chain, x: History, last: nat)
    requires NoGap(c, x)
    requires Stored(c, x, last) || forall h: nat :: !Stored(c, x, h)
    requires forall h: nat :: Stored(c, x, h) ==> h <= last
    ensures DoneUpTo(c, x, last)
  {
    hide Stored;
  }

  lemma {:induction false} StartDown(c: Chain, x: History, first: nat)
    requires NoGap(c, x)
    requires Stored(c, x, first) || forall h: nat :: !Stored(c, x, h)
    requires forall h: nat :: Stored(c, x, h) ==> first <= h
    ensures DoneDownTo(c, x, first)
  {
    hide Stored;
  }

  /** Every activity, however it ends, keeps the index free of gaps. */
  lemma {:induction false} ActivityKeeps(c: Chain, x: History, a: Activity)
    requires Proper(c, x) && NoGap(c, x) && Bounded(a)
    ensures Proper(c, After(c, x, a)) && NoGap(c, After(c, x, a))
  {
    hide Last, First, Stored, Proper, NoGap, DoneUpTo, DoneDownTo, BackwardFrom, ForwardFrom, SessionFrom;
    EndsSpec(c, x);
    var last, first := Last(c, x).value, First(c, x).value;
    match a
    case Service(latest, events) =>
      var s := Session(x, latest, ServiceStart(last, latest));
      StartUp(c, x, s.last);
      SessionKeeps(c, s, events);
      UpNoGap(c, SessionFrom(s, events).x, SessionFrom(s, events).last);
    case Backward(height, env) =>
      StartDown(c, x, BackwardStart(first, height));
      BackwardKeeps(c, x, BackwardStart(first, height), env);
    case Forward(height, env) =>
      StartUp(c, x, ForwardStart(last));
      ForwardKeeps(c, x, ForwardStart(last), height, env);
  }

  // ------------------------------------------------------------------- whole runs

  predicate AllBounded(run: seq<Activity>) {
    forall i :: 0 <= i < |run| ==> Bounded(run[i])
  }

  /** The history after a run of activities on a fresh index. */
  ghost function RunOf(c: Chain, run: seq<Activity>): (x: History)
    requires IsChain(c) && AllBounded(run)
    ensures Proper(c, x) && NoGap(c, x)
  {
    if run == [] then EMPTY
    else
      var x := RunOf(c, run[..|run| - 1]);
      ActivityKeeps(c, x, run[|run| - 1]);
      After(c, x, run[|run| - 1])
  }

  ghost predicate InRange(c: Chain, x: History, h: nat) {
    && First(c, x).Some? && Last(c, x).Some?
    && First(c, x).value != -1 && First(c, x).value <= h <= Last(c, x).value
  }

  lemma {:induction false} RunSnoc(c: Chain, run: seq<Activity>, a: Activity)
    requires IsChain(c) && AllBounded(run) && Bounded(a)
    ensures AllBounded(run + [a]) && RunOf(c, run + [a]) == After(c, RunOf(c, run), a)
  {
    hide After, Bounded;
    assert (run + [a])[..|run|] == run;
  }

  /** After any run, every height from FirstIndexedBlock to LastIndexedBlock has been
      handed to IndexBlock. */
  lemma {:induction false} NoGapInAnyRun(c: Chain, run: seq<Activity>, h: nat)
    requires IsChain(c) && AllBounded(run)
    ensures var x := RunOf(c, run);
            First(c, x).Some? && Last(c, x).Some? && (InRange(c, x, h) ==> h in x.handed)
  {
    hide First, Last, Stored, RunOf, Proper;
    EndsSpec(c, RunOf(c, run));
  }

  // ---------------------------------------------------------------- the three loops

  lemma {:induction false} HandStore(c: Chain, x: History, h: nat, ok: bool)
    ensures Store(c, Hand(x, h, ok)) == if ok then PutAll(Store(c, x), Saves(c(h))) else Store(c, x)
  {
    hide Saves, PutAll;
    if ok {
      assert (x.written + [h])[..|x.written|] == x.written;
      PutAllAppend(map[], LogOf(c, x.written), Saves(c(h)));
    }
  }

  /** The command's indexBlock: no block, no call of IndexBlock. */
  method IndexHeight(
      kv: KVIndexer, c: Chain, ghost x: History, h: nat, o: Outcome)
    returns (ok: bool, ghost x': History)
    requires kv.db == Store(c, x)
    modifies kv
    ensures kv.db == Store(c, x')
    ensures ok == (o == Fetched(true))
    ensures x' == if o.Missing? then x else Hand(x, h, o.writeOk)
  {
    hide Saves, Store, PutAll;
    if o.Missing? { return false, x; }
    HandStore(c, x, h, o.writeOk);
    ok := kv.IndexBlock(c(h), o.writeOk);
    x' := Hand(x, h, o.writeOk);
  }

  method RunBackward(kv: KVIndexer, c: Chain, ghost x: History, height: nat, env: nat -> Outcome)
    returns (ok: bool, ghost x': History)
    requires Proper(c, x) && kv.db == Store(c, x)
    modifies kv
    ensures x' == After(c, x, Backward(height, env)) && kv.db == Store(c, x')
  {
    hide Store, FirstBlock, LastBlock;
    EndsSpec(c, x);
    var first := kv.FirstIndexedBlock();
    var i := BackwardStart(first.value, height) - 1;
    x' := x;
    while i > 0
      invariant kv.db == Store(c, x')
      invariant BackwardFrom(x', i, env) == BackwardFrom(x, BackwardStart(first.value, height) - 1, env)
      decreases i
    {
      ok, x' := IndexHeight(kv, c, x', i, env(i));
      if !ok { return; }
      i := i - 1;
    }
    ok := true;
  }

  method RunForward(kv: KVIndexer, c: Chain, ghost x: History, height: nat, env: nat -> Outcome)
    returns (ok: bool, ghost x': History)
    requires Proper(c, x) && kv.db == Store(c, x)
    modifies kv
    ensures x' == After(c, x, Forward(height, env)) && kv.db == Store(c, x')
  {
    hide Store, FirstBlock, LastBlock;
    EndsSpec(c, x);
    var last := kv.LastIndexedBlock();
    var i := ForwardStart(last.value) + 1;
    x' := x;
    while i <= height
      invariant kv.db == Store(c, x')
      invariant ForwardFrom(x', i, height, env) == ForwardFrom(x, ForwardStart(last.value) + 1, height, env)
      decreases height - i
    {
      ok, x' := IndexHeight(kv, c, x', i, env(i));
      if !ok { return; }
      i := i + 1;
    }
    ok := true;
  }

  /** The service, with the steps of its two goroutines in the order `events` gives. */
  method RunService(kv: KVIndexer, c: Chain, ghost x: History, latest: nat, events: seq<Event>)
    returns (ghost x': History)
    requires Proper(c, x) && kv.db == Store(c, x)
    modifies kv
    ensures x' == After(c, x, Service(latest, events)) && kv.db == Store(c, x')
  {
    hide Store, FirstBlock, LastBlock;
    EndsSpec(c, x);
    var last := kv.LastIndexedBlock();
    var latestBlock, lastBlock := latest, ServiceStart(last.value, latest);
    ghost var start := Session(x, latest, lastBlock);
    x' := x;
    for e := 0 to |events|
      invariant kv.db == Store(c, x')
      invariant Session(x', latestBlock, lastBlock) == SessionFrom(start, events[..e])
    {
      assert events[..e + 1][..e] == events[..e];
      match events[e]
      case Header(h) =>
        if h > latestBlock { latestBlock := h; }
      case Attempt(o) =>
        if lastBlock < latestBlock && o.Fetched? {
          var ok;
          ok, x' := IndexHeight(kv, c, x', lastBlock + 1, o);
          lastBlock := lastBlock + 1;
        }
    }
    assert events[..|events|] == events;
  }
}
