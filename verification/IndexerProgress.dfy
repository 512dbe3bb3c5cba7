/** How far the activities get that write the transaction index
    (server/indexer_service.go, server/indexer_cmd.go): exactly which heights a session of
    the service hands over, whatever headers arrive and whichever fetches fail, and where
    each activity starts on an index that holds nothing yet. */
module IndexerProgress {
  import opened Options
  import opened KvIndexer
  import opened IndexerRuns
  import opened IndexerFound

  // --------------------------------------------------------------- the shared height

  /** The service knows of height `top`: nothing higher was seen, and it was seen. */
  ghost predicate HighestSeen(latest: nat, events: seq<Event>, top: nat) {
    && latest <= top
    && (forall i :: 0 <= i < |events| && events[i].Header? ==> events[i].height <= top)
    && (top == latest || exists i :: 0 <= i < |events| && events[i] == Header(top))
  }

  /** The latest height is the greatest among the one at the start and those of the
      headers that arrived. */
  lemma {:induction false} LatestSpec(s: Session, events: seq<Event>)
    ensures HighestSeen(s.latest, events, SessionFrom(s, events).latest)
  {
    if events != [] {
      var n := |events| - 1;
      var e, before, top := events[n], SessionFrom(s, events[..n]).latest, SessionFrom(s, events).latest;
      LatestSpec(s, events[..n]);
      if top == before {
        assert forall i :: 0 <= i < n ==> events[..n][i] == events[i];
        if top != s.latest {
          var i :| 0 <= i < n && events[..n][i] == Header(top);
          assert events[i] == Header(top);
        }
      } else {
        assert events[n] == Header(top);
        assert forall i :: 0 <= i < n && events[i].Header? ==> events[..n][i] == events[i];
      }
    }
  }

  // --------------------------------------------------------------- the service's height

  /** The number of attempts that get their block and its results. */
  function Fetches(events: seq<Event>): nat {
    if events == [] then 0
    else
      var e := events[|events| - 1];
      Fetches(events[..|events| - 1]) + if e.Attempt? && e.outcome.Fetched? then 1 else 0
  }

  function Max(a: nat, b: nat): nat {
    if a < b then b else a
  }

  /** Height `h` can be reached from `last`: there are enough fetches in all, and at every
      moment enough of them are still to come to go on from the highest block known then. */
  ghost predicate Reachable(s: Session, events: seq<Event>, h: int) {
    && s.last + Fetches(events) >= h
    && forall k :: 0 <= k <= |events| ==>
         Max(s.last, SessionFrom(s, events[..k]).latest) + Fetches(events[k..]) >= h
  }

  lemma {:induction false} FetchesSnoc(events: seq<Event>, k: nat)
    requires events != [] && k < |events|
    ensures var n := |events| - 1;
            && events[k..] != [] && events[k..][..|events| - k - 1] == events[..n][k..]
            && Fetches(events[k..]) == Fetches(events[..n][k..]) + Fetches([events[n]])
  {
    var n, tail := |events| - 1, events[k..];
    assert tail[..|tail| - 1] == events[..n][k..] && tail[|tail| - 1] == events[n];
    assert [events[n]][..0] == [] && Fetches([]) == 0;
  }

  /** One more event: what is reachable grows by its fetch, up to the highest block known. */
  lemma {:induction false} ReachableNext(s: Session, events: seq<Event>, h: int)
    requires events != []
    ensures var n := |events| - 1;
            Reachable(s, events, h) <==>
              && Reachable(s, events[..n], h - Fetches([events[n]]))
              && Max(s.last, SessionFrom(s, events).latest) >= h
  {
    hide SessionFrom, Max;
    var n := |events| - 1;
    var f := Fetches([events[n]]);
    assert events[..n + 1] == events && events[n + 1..] == [] && Fetches([]) == 0;
    assert events[0..] == events && events[..n][0..] == events[..n];
    FetchesSnoc(events, 0);
    forall k | 0 <= k <= n
      ensures events[..n][..k] == events[..k] && Fetches(events[k..]) == Fetches(events[..n][k..]) + f
    {
      FetchesSnoc(events, k);
    }
    if Reachable(s, events, h) {
      forall k | 0 <= k <= n
        ensures Max(s.last, SessionFrom(s, events[..n][..k]).latest) + Fetches(events[..n][k..]) >= h - f
      {
        assert Max(s.last, SessionFrom(s, events[..k]).latest) + Fetches(events[k..]) >= h;
      }
      assert Max(s.last, SessionFrom(s, events[..n + 1]).latest) + Fetches(events[n + 1..]) >= h;
    }
    if Reachable(s, events[..n], h - f) && Max(s.last, SessionFrom(s, events).latest) >= h {
      forall k | 0 <= k <= n + 1 ensures Max(s.last, SessionFrom(s, events[..k]).latest) + Fetches(events[k..]) >= h {
        if k <= n {
          assert Max(s.last, SessionFrom(s, events[..n][..k]).latest) + Fetches(events[..n][k..]) >= h - f;
        }
      }
    }
  }

  lemma {:induction false} ReachableStart(s: Session, h: int)
    ensures Reachable(s, [], h) <==> h <= s.last
  {
    var none: seq<Event> := [];
    assert none[..0] == [] && none[0..] == [] && Fetches(none) == 0;
    assert forall k :: 0 <= k <= |none| ==> none[..k] == [] && none[k..] == [];
  }

  /** The last height of a session is the greatest that is reachable: the service waits for
      nothing but blocks that are not known yet and fetches that fail. */
  lemma {:induction false} LastExactly(s: Session, events: seq<Event>, h: int)
    ensures SessionFrom(s, events).last >= h <==> Reachable(s, events, h)
  {
    if events == [] {
      ReachableStart(s, h);
    } else {
      var n := |events| - 1;
      LastNext(s, events);
      LastExactly(s, events[..n], h);
      LastExactly(s, events[..n], h - 1);
      LastBound(s, events[..n]);
      ReachableNext(s, events, h);
      hide Reachable, SessionFrom, Fetches;
    }
  }

  /** What one more event does to the two heights. */
  lemma {:induction false} LastNext(s: Session, events: seq<Event>)
    requires events != []
    ensures var was, now := SessionFrom(s, events[..|events| - 1]), SessionFrom(s, events);
            var f := Fetches([events[|events| - 1]]);
            && f <= 1 && now.latest >= was.latest && (f == 1 ==> now.latest == was.latest)
            && now.last == if f == 1 && was.last < was.latest then was.last + 1 else was.last
  {
    var e := events[|events| - 1];
    assert [e][..0] == [] && Fetches([]) == 0;
  }

  /** It never passes the highest block known, unless it began above it. */
  lemma {:induction false} LastBound(s: Session, events: seq<Event>)
    ensures s.last <= SessionFrom(s, events).last <= Max(s.last, SessionFrom(s, events).latest)
    ensures SessionFrom(s, events).last <= s.last + Fetches(events)
  {
    if events != [] { LastBound(s, events[..|events| - 1]); }
  }

  /** What a session hands over is exactly what lies between its two heights. */
  lemma {:induction false} HandedExactly(s: Session, events: seq<Event>, h: nat)
    ensures h in SessionFrom(s, events).x.handed <==> h in s.x.handed || s.last < h <= SessionFrom(s, events).last
  {
    if events != [] {
      HandedExactly(s, events[..|events| - 1], h);
      LastBound(s, events[..|events| - 1]);
    }
  }

  lemma {:induction false} FetchesSplit(a: seq<Event>, b: seq<Event>)
    ensures Fetches(a + b) == Fetches(a) + Fetches(b)
  {
    if b == [] {
      assert a + b == a;
    } else {
      FetchesSplit(a, b[..|b| - 1]);
      assert (a + b)[..|a + b| - 1] == a + b[..|b| - 1];
    }
  }

  lemma {:induction false} SessionSplit(s: Session, a: seq<Event>, b: seq<Event>)
    ensures SessionFrom(s, a + b) == SessionFrom(SessionFrom(s, a), b)
  {
    hide SessionStep;
    if b == [] {
      assert a + b == a;
    } else {
      SessionSplit(s, a, b[..|b| - 1]);
      assert (a + b)[..|a + b| - 1] == a + b[..|b| - 1];
    }
  }

  lemma {:induction false} LatestGrows(s: Session, events: seq<Event>)
    ensures SessionFrom(s, events).latest >= s.latest
  {
    if events != [] { LatestGrows(s, events[..|events| - 1]); }
  }

  /** Once a block is known, as many fetches as it is ahead, with failures, headers and
      refused batches among them in any order, get it handed over. */
  lemma {:induction false} KnownBlockIsHanded(s: Session, events: seq<Event>, h: nat)
    requires s.last < h <= s.latest && Fetches(events) >= h - s.last
    ensures SessionFrom(s, events).last >= h && h in SessionFrom(s, events).x.handed
  {
    KnownBlockReached(s, events, h);
    HandedExactly(s, events, h);
  }

  lemma {:induction false} KnownBlockReached(s: Session, events: seq<Event>, h: nat)
    requires h <= s.latest
    ensures SessionFrom(s, events).last >= h || SessionFrom(s, events).last >= s.last + Fetches(events)
  {
    if events != [] {
      KnownBlockReached(s, events[..|events| - 1], h);
      LatestGrows(s, events[..|events| - 1]);
    }
  }

  /** So a new block is handed over after its header and enough fetches, whatever else
      happens before, between and after. */
  lemma {:induction false} HeaderIsHanded(s: Session, before: seq<Event>, h: nat, after: seq<Event>)
    requires s.last < h && Fetches(after) >= h - s.last
    ensures h in SessionFrom(s, before + [Header(h)] + after).x.handed
  {
    hide SessionStep;
    var s1 := SessionFrom(s, before + [Header(h)]);
    LatestSpec(s, before + [Header(h)]);
    assert (before + [Header(h)])[|before|] == Header(h);
    LastBound(s, before + [Header(h)]);
    SessionSplit(s, before + [Header(h)], after);
    HandedExactly(s, before + [Header(h)] + after, h);
    if s1.last < h { KnownBlockIsHanded(s1, after, h); } else { LastBound(s1, after); }
  }

  // ----------------------------------------------------------- where activities start

  ghost predicate NothingStored(c: Chain, x: History) {
    forall h: nat :: !Stored(c, x, h)
  }

  lemma {:induction false} EmptyStarts(c: Chain, x: History)
    requires Proper(c, x) && NothingStored(c, x)
    ensures First(c, x) == Some(-1) && Last(c, x) == Some(-1)
  {
    hide First, Last, Stored, Proper;
    EndsSpec(c, x);
  }

  /** On an empty index the backward run writes from below the block store's height down,
      as far as it meets accepted batches; with none refused or missing, 1 to height - 1. */
  lemma {:induction false} BackwardOnEmpty(c: Chain, x: History, height: nat, env: nat -> Outcome, h: nat)
    requires Proper(c, x) && NothingStored(c, x)
    ensures h in After(c, x, Backward(height, env)).written <==>
              h in x.written || (1 <= h <= height - 1 && forall g :: h <= g <= height - 1 ==> env(g) == Fetched(true))
  {
    hide First, Last, Stored, Proper, After;
    EmptyStarts(c, x);
    ActivityAccepts(c, x, Backward(height, env), h);
  }

  /** On an empty index the forward run starts at block 1. */
  lemma {:induction false} ForwardOnEmpty(c: Chain, x: History, height: nat, env: nat -> Outcome, h: nat)
    requires Proper(c, x) && NothingStored(c, x)
    ensures h in After(c, x, Forward(height, env)).written <==>
              h in x.written || (1 <= h <= height && forall g :: 1 <= g <= h ==> env(g) == Fetched(true))
  {
    hide First, Last, Stored, Proper, After;
    EmptyStarts(c, x);
    ActivityAccepts(c, x, Forward(height, env), h);
  }

  /** On an empty index the service starts behind the latest block: it hands over nothing up
      to that one, however long it runs. */
  lemma {:induction false} ServiceOnEmpty(c: Chain, x: History, latest: nat, events: seq<Event>, h: nat)
    requires Proper(c, x) && NothingStored(c, x)
    ensures h in After(c, x, Service(latest, events)).handed ==> h in x.handed || h > latest
  {
    hide First, Last, Stored, Proper, SessionFrom;
    EmptyStarts(c, x);
    HandedExactly(Session(x, latest, latest), events, h);
  }

  /** On an index that holds something, the runs go on from its ends: backward from below
      the least stored height, forward from above the greatest. */
  lemma {:induction false} GoesOnFromEnds(
      c: Chain, x: History, first: nat, last: nat, height: nat, env: nat -> Outcome, h: nat)
    requires Proper(c, x) && Stored(c, x, first) && Stored(c, x, last)
    requires forall g: nat :: Stored(c, x, g) ==> first <= g <= last
    ensures h in After(c, x, Backward(height, env)).written <==>
              h in x.written || (1 <= h < first && forall g :: h <= g < first ==> env(g) == Fetched(true))
    ensures h in After(c, x, Forward(height, env)).written <==>
              h in x.written || (last < h <= height && forall g :: last < g <= h ==> env(g) == Fetched(true))
  {
    hide First, Last, Stored, Proper, After;
    EndsSpec(c, x);
    assert First(c, x) == Some(first) && Last(c, x) == Some(last);
    ActivityAccepts(c, x, Backward(height, env), h);
    ActivityAccepts(c, x, Forward(height, env), h);
  }

  /** And the service hands over exactly what follows the greatest stored height. */
  lemma {:induction false} ServiceGoesOn(c: Chain, x: History, last: nat, latest: nat, events: seq<Event>, h: nat)
    requires Proper(c, x) && Stored(c, x, last) && forall g: nat :: Stored(c, x, g) ==> g <= last
    ensures h in After(c, x, Service(latest, events)).handed <==>
              h in x.handed || (last < h && Reachable(Session(x, latest, last), events, h))
  {
    hide First, Last, Stored, Proper, SessionFrom, Reachable;
    EndsSpec(c, x);
    HandedExactly(Session(x, latest, last), events, h);
    LastExactly(Session(x, latest, last), events, h);
  }
}
