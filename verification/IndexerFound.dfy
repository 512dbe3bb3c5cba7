/** What the transaction index holds after any run of its activities
    (server/indexer_service.go, server/indexer_cmd.go): which blocks were accepted, which
    messages are found, and when the index is complete over its range. */
module IndexerFound {
  import opened Bits
  import opened Options
  import opened KvIndexer
  import opened IndexerRuns

  /** Whether the database accepts every batch. */
  ghost predicate NeverRefuses(a: Activity) {
    match a
    case Service(_, events) => forall i :: 0 <= i < |events| ==> events[i] != Attempt(Fetched(false))
    case Backward(_, env) => forall h :: env(h) != Fetched(false)
    case Forward(_, env) => forall h :: env(h) != Fetched(false)
  }

  ghost predicate AllWritten(x: History) {
    forall h: nat :: h in x.handed ==> h in x.written
  }

  lemma {:induction false} BackwardWrites(x: History, i: int, env: nat -> Outcome)
    requires AllWritten(x) && forall h :: env(h) != Fetched(false)
    ensures AllWritten(BackwardFrom(x, i, env))
    decreases i
  {
    if i > 0 && env(i).Fetched? { BackwardWrites(Hand(x, i, true), i - 1, env); }
  }

  lemma {:induction false} ForwardWrites(x: History, i: nat, height: nat, env: nat -> Outcome)
    requires AllWritten(x) && forall h :: env(h) != Fetched(false)
    ensures AllWritten(ForwardFrom(x, i, height, env))
    decreases height - i
  {
    if i <= height && env(i).Fetched? { ForwardWrites(Hand(x, i, true), i + 1, height, env); }
  }

  lemma {:induction false} SessionWrites(s: Session, events: seq<Event>)
    requires AllWritten(s.x) && forall i :: 0 <= i < |events| ==> events[i] != Attempt(Fetched(false))
    ensures AllWritten(SessionFrom(s, events).x)
  {
    if events != [] { SessionWrites(s, events[..|events| - 1]); }
  }

  lemma {:induction false} RunWrites(c: Chain, run: seq<Activity>)
    requires IsChain(c) && AllBounded(run) && forall i :: 0 <= i < |run| ==> NeverRefuses(run[i])
    ensures AllWritten(RunOf(c, run))
  {
    hide First, Last, BackwardFrom, ForwardFrom, SessionFrom, AllWritten, NoGap, IsChain;
    if run != [] {
      var n := |run| - 1;
      RunWrites(c, run[..n]);
      var x := RunOf(c, run[..n]);
      EndsSpec(c, x);
      match run[n]
      case Service(latest, events) => SessionWrites(Session(x, latest, ServiceStart(Last(c, x).value, latest)), events);
      case Backward(height, env) => BackwardWrites(x, BackwardStart(First(c, x).value, height) - 1, env);
      case Forward(height, env) => ForwardWrites(x, ForwardStart(Last(c, x).value) + 1, height, env);
    } else {
      assert AllWritten(EMPTY) by { EmptyWritten(); }
    }
  }

  lemma {:induction false} EmptyWritten()
    ensures AllWritten(EMPTY)
  {
  }

  // ------------------------------------------------------- which blocks are accepted

  /** The session's state before its `j`-th event. */
  function SessionAt(s: Session, events: seq<Event>, j: nat): Session
    requires j <= |events|
  {
    SessionFrom(s, events[..j])
  }

  /** Whether an activity that starts on a history comes to a height and has its batch
      accepted: the loops of the command must have met nothing but accepted batches on
      their way, the service stops at nothing but missing blocks. */
  ghost predicate Accepts(c: Chain, x: History, a: Activity, h: nat)
    requires Proper(c, x)
  {
    EndsSpec(c, x);
    match a
    case Service(latest, events) =>
      var s := Session(x, latest, ServiceStart(Last(c, x).value, latest));
      exists j :: && 0 <= j < |events| && events[j] == Attempt(Fetched(true))
                  && SessionAt(s, events, j).last + 1 == h <= SessionAt(s, events, j).latest
    case Backward(height, env) =>
      0 < h < BackwardStart(First(c, x).value, height)
      && forall g :: h <= g < BackwardStart(First(c, x).value, height) ==> env(g) == Fetched(true)
    case Forward(height, env) =>
      ForwardStart(Last(c, x).value) < h <= height
      && forall g :: ForwardStart(Last(c, x).value) < g <= h ==> env(g) == Fetched(true)
  }

  lemma {:induction false} BackwardAccepts(x: History, i: int, env: nat -> Outcome, h: nat)
    ensures h in BackwardFrom(x, i, env).written <==>
              h in x.written || (0 < h <= i && forall g :: h <= g <= i ==> env(g) == Fetched(true))
    decreases i
  {
    if i > 0 && env(i) == Fetched(true) {
      BackwardAccepts(Hand(x, i, true), i - 1, env, h);
    }
  }

  lemma {:induction false} ForwardAccepts(x: History, i: nat, height: nat, env: nat -> Outcome, h: nat)
    ensures h in ForwardFrom(x, i, height, env).written <==>
              h in x.written || (i <= h <= height && forall g :: i <= g <= h ==> env(g) == Fetched(true))
    decreases height - i
  {
    if i <= height && env(i) == Fetched(true) {
      ForwardAccepts(Hand(x, i, true), i + 1, height, env, h);
    }
  }

  lemma {:induction false} SessionAccepts(s: Session, events: seq<Event>, h: nat)
    ensures h in SessionFrom(s, events).x.written <==>
              || h in s.x.written
              || exists j :: && 0 <= j < |events| && events[j] == Attempt(Fetched(true))
                             && SessionAt(s, events, j).last + 1 == h <= SessionAt(s, events, j).latest
  {
    if events != [] {
      var n := |events| - 1;
      SessionAccepts(s, events[..n], h);
      assert forall j :: 0 <= j <= n ==> events[..n][..j] == events[..j];
      assert forall j :: 0 <= j < n ==> events[..n][j] == events[j];
      assert forall j :: 0 <= j < n ==> SessionAt(s, events[..n], j) == SessionAt(s, events, j);
      assert SessionAt(s, events, n) == SessionFrom(s, events[..n]);
    }
  }

  lemma {:induction false} ActivityAccepts(c: Chain, x: History, a: Activity, h: nat)
    requires Proper(c, x)
    ensures h in After(c, x, a).written <==> h in x.written || Accepts(c, x, a, h)
  {
    hide Last, First, BackwardFrom, ForwardFrom, SessionFrom, Stored;
    EndsSpec(c, x);
    var last, first := Last(c, x).value, First(c, x).value;
    match a
    case Service(latest, events) => SessionAccepts(Session(x, latest, ServiceStart(last, latest)), events, h);
    case Backward(height, env) => BackwardAccepts(x, BackwardStart(first, height) - 1, env, h);
    case Forward(height, env) => ForwardAccepts(x, ForwardStart(last) + 1, height, env, h);
  }

  /** Whether some activity of the run has the block at a height accepted. */
  ghost predicate Accepted(c: Chain, run: seq<Activity>, h: nat)
    requires IsChain(c) && AllBounded(run)
  {
    exists i :: 0 <= i < |run| && Accepts(c, RunOf(c, run[..i]), run[i], h)
  }

  lemma {:induction false} WrittenIffAccepted(c: Chain, run: seq<Activity>, h: nat)
    requires IsChain(c) && AllBounded(run)
    ensures h in RunOf(c, run).written <==> Accepted(c, run, h)
  {
    hide Accepts, Proper, NoGap, IsChain, Bounded, After;
    if run != [] {
      var n := |run| - 1;
      WrittenIffAccepted(c, run[..n], h);
      ActivityAccepts(c, RunOf(c, run[..n]), run[n], h);
      AcceptedSplit(c, run, h);
    }
  }

  lemma {:induction false} AcceptedSplit(c: Chain, run: seq<Activity>, h: nat)
    requires IsChain(c) && AllBounded(run) && run != []
    ensures var n := |run| - 1;
            Accepted(c, run, h) <==> Accepted(c, run[..n], h) || Accepts(c, RunOf(c, run[..n]), run[n], h)
  {
    hide Accepts, RunOf, IsChain, Bounded, Proper, NoGap;
    var n := |run| - 1;
    assert forall i :: 0 <= i <= n ==> run[..n][..i] == run[..i];
    assert forall i :: 0 <= i < n ==> run[..n][i] == run[i];
    if Accepted(c, run[..n], h) {
      var i :| 0 <= i < n && Accepts(c, RunOf(c, run[..n][..i]), run[..n][i], h);
      assert Accepts(c, RunOf(c, run[..i]), run[i], h);
    }
    if Accepted(c, run, h) {
      var i :| 0 <= i < |run| && Accepts(c, RunOf(c, run[..i]), run[i], h);
      if i < n { assert Accepts(c, RunOf(c, run[..n][..i]), run[..n][i], h); }
    }
  }

  /** The lookup at this height and index returns the record of that very message. */
  ghost predicate Found(c: Chain, x: History, h: nat, i: nat) {
    && h < TWO_63 && i < TWO_31 && i < |Saves(c(h))|
    && LookupIndex(Store(c, x), h, i) == Some(Saves(c(h))[i].rec)
  }

  /** After any run, a message is found at its height and index, as the record of that very
      message, exactly when some activity had its block accepted; otherwise nothing is. */
  lemma {:induction false} FoundIffAccepted(c: Chain, run: seq<Activity>, h: nat, i: nat)
    requires IsChain(c) && AllBounded(run) && DistinctHashes(c)
    requires 1 <= h < TWO_63 && i < |Saves(c(h))|
    ensures LookupIndex(Store(c, RunOf(c, run)), h, i)
            == if Accepted(c, run, h) then Some(Saves(c(h))[i].rec) else None
  {
    hide Saves, LogOf, PutAll, LookupIndex, RunOf, Accepted;
    WrittenIffAccepted(c, run, h);
    LookupComplete(c, RunOf(c, run).written, h, i);
  }

  /** The index has every message of every block in its range. */
  ghost predicate Complete(c: Chain, x: History) {
    forall h: nat, i: nat :: InRange(c, x, h) && i < |Saves(c(h))| ==> Found(c, x, h, i)
  }

  lemma {:induction false} RangeHeights(c: Chain, x: History, h: nat)
    requires Proper(c, x) && InRange(c, x, h)
    ensures 1 <= h < TWO_63
  {
    hide First, Last, Stored, Proper;
    EndsSpec(c, x);
  }

  /** So the index is complete over its range exactly when every block of the range that
      holds an Ethereum transaction was accepted by some activity. */
  lemma {:induction false} CompleteIffAccepted(c: Chain, run: seq<Activity>)
    requires IsChain(c) && AllBounded(run) && DistinctHashes(c)
    ensures Complete(c, RunOf(c, run)) <==>
              forall h: nat :: InRange(c, RunOf(c, run), h) && Saves(c(h)) != [] ==> Accepted(c, run, h)
  {
    var x := RunOf(c, run);
    assert forall h: nat :: 1 <= h < TWO_63 ==> |Saves(c(h))| <= TWO_31;
    hide Saves, Store, LookupIndex, RunOf, InRange, IsChain, DistinctHashes, Accepted, Proper, NoGap;
    if Complete(c, x) {
      forall h: nat | InRange(c, x, h) && Saves(c(h)) != [] ensures Accepted(c, run, h) {
        RangeHeights(c, x, h);
        assert Found(c, x, h, 0);
        FoundIffAccepted(c, run, h, 0);
      }
    }
    if forall h: nat :: InRange(c, x, h) && Saves(c(h)) != [] ==> Accepted(c, run, h) {
      forall h: nat, i: nat | InRange(c, x, h) && i < |Saves(c(h))| ensures Found(c, x, h, i) {
        RangeHeights(c, x, h);
        FoundIffAccepted(c, run, h, i);
      }
    }
  }

  /** While the database accepts every batch, the index is complete over its range. */
  lemma {:induction false} CompleteUnlessRefused(c: Chain, run: seq<Activity>)
    requires IsChain(c) && AllBounded(run) && DistinctHashes(c)
    requires forall j :: 0 <= j < |run| ==> NeverRefuses(run[j])
    ensures Complete(c, RunOf(c, run))
  {
    var x := RunOf(c, run);
    RunWrites(c, run);
    hide Saves, RunOf, InRange, IsChain, DistinctHashes, Complete, Accepted, NeverRefuses;
    forall h: nat | InRange(c, x, h) && Saves(c(h)) != [] ensures Accepted(c, run, h) {
      NoGapInAnyRun(c, run, h);
      assert h in x.written;
      WrittenIffAccepted(c, run, h);
    }
    CompleteIffAccepted(c, run);
  }

  lemma {:induction false} ForwardToOne(c: Chain, env: nat -> Outcome)
    requires IsChain(c) && env(1) == Fetched(true)
    ensures After(c, EMPTY, Forward(1, env)) == History({1}, [1])
  {
    hide Last, First;
    EndsSpec(c, EMPTY);
    assert ForwardFrom(History({1}, [1]), 2, 1, env) == History({1}, [1]);
    assert Hand(EMPTY, 1, true) == History({1}, [1]);
  }

  lemma {:induction false} RefuseTwo(c: Chain)
    requires IsChain(c) && Saves(c(1)) != []
    ensures After(c, History({1}, [1]), Service(3, [Attempt(Fetched(false)), Attempt(Fetched(true))]))
            == History({1, 2, 3}, [1, 3])
  {
    hide Last, First, Saves;
    var x := History({1}, [1]);
    var e1, e2 := Attempt(Fetched(false)), Attempt(Fetched(true));
    EndsSpec(c, x);
    assert Stored(c, x, 1);
    var s := Session(x, 3, 1);
    assert [e1, e2][..1] == [e1] && [e1][..0] == [];
    assert SessionFrom(s, [e1]) == SessionStep(s, e1) == Session(History({1, 2}, [1]), 3, 2);
    assert SessionFrom(s, [e1, e2]) == SessionStep(SessionFrom(s, [e1]), e2);
    assert Hand(History({1, 2}, [1]), 3, true) == History({1, 2, 3}, [1, 3]);
  }

  /** Block 1 is indexed, then the service meets a refused batch at 2 and goes on to 3. */
  function RefusingRun(env: nat -> Outcome): (run: seq<Activity>)
    ensures AllBounded(run)
  {
    [Forward(1, env), Service(3, [Attempt(Fetched(false)), Attempt(Fetched(true))])]
  }

  lemma {:induction false} RefusingHistory(c: Chain, env: nat -> Outcome)
    requires IsChain(c) && env(1) == Fetched(true) && Saves(c(1)) != []
    ensures RunOf(c, RefusingRun(env)) == History({1, 2, 3}, [1, 3])
  {
    var run := RefusingRun(env);
    assert RunOf(c, []) == EMPTY && Bounded(run[0]) && Bounded(run[1]);
    hide Saves, RunOf, IsChain, After, Bounded;
    RunSnoc(c, [], run[0]);
    RunSnoc(c, [] + [run[0]], run[1]);
    assert [] + [run[0]] + [run[1]] == run;
    ForwardToOne(c, env);
    RefuseTwo(c);
  }

  /** The service only logs a refused batch and moves on: the messages of block 2 stay
      unfound between two indexed blocks. */
  lemma {:induction false} RefusedBatchIsLost(c: Chain, env: nat -> Outcome)
    requires IsChain(c) && DistinctHashes(c) && env(1) == Fetched(true)
    requires Saves(c(1)) != [] && Saves(c(2)) != [] && Saves(c(3)) != []
    ensures var x := RunOf(c, RefusingRun(env));
            && First(c, x) == Some(1) && Last(c, x) == Some(3) && 2 in x.handed
            && LookupIndex(Store(c, x), 2, 0) == None
  {
    hide Saves, Store, LookupIndex, RunOf, IsChain, DistinctHashes, RefusingRun, First, Last, Accepted;
    RefusingHistory(c, env);
    var x := RunOf(c, RefusingRun(env));
    EndsSpec(c, x);
    assert Stored(c, x, 1) && Stored(c, x, 3);
    assert forall h: nat :: Stored(c, x, h) ==> h == 1 || h == 3;
    WrittenIffAccepted(c, RefusingRun(env), 2);
    FoundIffAccepted(c, RefusingRun(env), 2, 0);
  }
}
