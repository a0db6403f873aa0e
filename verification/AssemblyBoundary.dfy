/** What the boundary of a sample is over a whole run, and when the moment its reference line came shows
    in it. */
module AssemblyBoundary {
  import opened Common
  import opened AssemblySpec
  import opened AssemblyRuns

  // ---------- the log of a run ----------

  function ItemsOf(turn: Turn): seq<WireItem> {
    if turn.Wire? then turn.items else []
  }

  /** Everything that came in over the wire, in order. */
  function Log(turns: seq<Turn>): seq<WireItem>
    decreases |turns|
  {
    if turns == [] then [] else Log(turns[..|turns| - 1]) + ItemsOf(turns[|turns| - 1])
  }

  /** The first copy of a round's ordering. */
  function OrderingCopy(items: seq<WireItem>, r: nat): Option<Arrival>
    decreases |items|
  {
    if items == [] then None
    else
      var last, before := items[|items| - 1], OrderingCopy(items[..|items| - 1], r);
      if before.Some? then before else if last.OrderingOf? && last.round == r then Some(last.a) else None
  }

  /** The first copy of a bundle, and when it was recorded. */
  function BundleCopy(items: seq<WireItem>, sig: Sig): Option<Bundle>
    decreases |items|
  {
    if items == [] then None
    else
      var last, before := items[|items| - 1], BundleCopy(items[..|items| - 1], sig);
      if before.Some? then before
      else if last.BundleOf? && last.sig == sig then Some(Bundle(last.a, last.seen))
      else None
  }

  /** The newest round the feed has named. */
  function Newest(turns: seq<Turn>): nat
    decreases |turns|
  {
    if turns == [] then 0
    else
      var last, before := turns[|turns| - 1], Newest(turns[..|turns| - 1]);
      if last.Feed? then Max(before, last.round) else before
  }

  predicate Anchors(newest: nat, r: nat) {
    newest != 0 && Max(r, newest) - Min(r, newest) <= ROUND_WINDOW
  }

  /** The first ordering copy that arrived while the feed had the round in the window. */
  function FirstOrdering(turns: seq<Turn>, r: nat): Option<Arrival>
    decreases |turns|
  {
    if turns == [] then None
    else
      var init, last := turns[..|turns| - 1], turns[|turns| - 1];
      var before := FirstOrdering(init, r);
      if before.Some? then before else if Anchors(Newest(init), r) then OrderingCopy(ItemsOf(last), r) else None
  }

  /** What the feed last said about a round. */
  function LastFeed(turns: seq<Turn>, r: nat): Option<seq<Sig>>
    decreases |turns|
  {
    if turns == [] then None
    else
      var last := turns[|turns| - 1];
      if last.Feed? && last.round == r then Some(last.sigs) else LastFeed(turns[..|turns| - 1], r)
  }

  /** The record of a bundle when the last turn is judged: the first copy since it was last dropped. */
  function Recorded(turns: seq<Turn>, sig: Sig): Option<Bundle>
    decreases |turns|, 0
  {
    if turns == [] then None
    else
      var was := Surviving(turns[..|turns| - 1], sig);
      if was.Some? then was else BundleCopy(ItemsOf(turns[|turns| - 1]), sig)
  }

  /** And what the retention leaves of it after the last turn. */
  function Surviving(turns: seq<Turn>, sig: Sig): Option<Bundle>
    decreases |turns|, 1
  {
    if turns == [] then None
    else
      var b := Recorded(turns, sig);
      if b.Some? && Since(turns[|turns| - 1].drainAt, b.value.seen) < BUNDLE_RETAIN then b else None
  }

  // ---------- the desk is the log ----------

  /** What the last turn's drain judges. */
  ghost function Judging(scoreFrom: nat, turns: seq<Turn>, times: Times): Desk
    requires turns != []
  {
    Input(RunAll(scoreFrom, turns[..|turns| - 1], times).d, turns[|turns| - 1], times)
  }

  ghost function VerdictOf(scoreFrom: nat, turns: seq<Turn>, times: Times, r: nat): Verdict
    requires turns != []
  {
    var d := Judging(scoreFrom, turns, times);
    if r in d.rounds then VerdictOn(d, r, turns[|turns| - 1].drainAt) else Waiting
  }

  lemma {:induction false} TakenOrdering(d: Desk, items: seq<WireItem>, r: nat)
    ensures var e := TakeAll(d, items);
            && e.maxRef == d.maxRef
            && TrackedAt(e, r).reference == TrackedAt(d, r).reference
            && TrackedAt(e, r).ordering
               == (if TrackedAt(d, r).ordering.Some? then TrackedAt(d, r).ordering
                   else if InWindow(d, r) then OrderingCopy(items, r) else None)
    decreases |items|
  {
    if items != [] {
      TakenOrdering(d, items[..|items| - 1], r);
    }
  }

  lemma {:induction false} TakenBundle(d: Desk, items: seq<WireItem>, sig: Sig)
    ensures var e := TakeAll(d, items);
            RecordIn(e, sig) == if RecordIn(d, sig).Some? then RecordIn(d, sig) else BundleCopy(items, sig)
    decreases |items|
  {
    if items != [] {
      TakenBundle(d, items[..|items| - 1], sig);
    }
  }

  function RecordIn(d: Desk, sig: Sig): Option<Bundle> {
    if sig in d.bundles then Some(d.bundles[sig]) else None
  }

  lemma {:induction false} NewestIs(scoreFrom: nat, turns: seq<Turn>, times: Times)
    ensures RunAll(scoreFrom, turns, times).d.maxRef == Newest(turns)
    decreases |turns|
  {
    if turns != [] {
      var n := |turns| - 1;
      NewestIs(scoreFrom, turns[..n], times);
      InputNewest(RunAll(scoreFrom, turns[..n], times).d, turns[n], times);
      DrainAt(Judging(scoreFrom, turns, times), turns[n].drainAt, 0);
    }
  }

  lemma InputNewest(d: Desk, turn: Turn, times: Times)
    ensures Input(d, turn, times).maxRef == if turn.Feed? then Max(d.maxRef, turn.round) else d.maxRef
  {
    if turn.Wire? {
      TakenOrdering(d, turn.items, 0);
    }
  }

  /** The bundles of the desk are what the log and the retention leave. */
  lemma {:induction false} BundlesAre(scoreFrom: nat, turns: seq<Turn>, times: Times, sig: Sig)
    ensures RecordIn(RunAll(scoreFrom, turns, times).d, sig) == Surviving(turns, sig)
    ensures turns != [] ==> RecordIn(Judging(scoreFrom, turns, times), sig) == Recorded(turns, sig)
    decreases |turns|
  {
    hide Drain, Input;
    if turns != [] {
      var n := |turns| - 1;
      BundlesAre(scoreFrom, turns[..n], times, sig);
      InputBundle(RunAll(scoreFrom, turns[..n], times).d, turns[n], times, sig);
      DrainBundle(Judging(scoreFrom, turns, times), turns[n].drainAt, sig);
    }
  }

  lemma InputBundle(d: Desk, turn: Turn, times: Times, sig: Sig)
    ensures RecordIn(Input(d, turn, times), sig)
            == if RecordIn(d, sig).Some? then RecordIn(d, sig) else BundleCopy(ItemsOf(turn), sig)
  {
    if turn.Wire? {
      TakenBundle(d, turn.items, sig);
    }
  }

  lemma DrainBundle(d: Desk, now: Time, sig: Sig)
    ensures RecordIn(Drain(d, now), sig)
            == var b := RecordIn(d, sig); if b.Some? && Since(now, b.value.seen) < BUNDLE_RETAIN then b else None
  {
    hide Judge;
  }

  /** `t` is what the log says about a scored round that is not behind the horizon. */
  ghost predicate IsLogged(t: Tracked, ordering: Option<Arrival>, feed: Option<seq<Sig>>, timeMs: nat) {
    && t.ordering == ordering
    && t.reference == if feed.Some? then Some(Reference(timeMs, feed.value)) else None
  }

  lemma InputLogged(d: Desk, turn: Turn, times: Times, r: nat, ordering: Option<Arrival>, feed: Option<seq<Sig>>)
    requires IsLogged(TrackedAt(d, r), ordering, feed, times(r)) && times(r) >= d.scoreFrom
    ensures IsLogged(TrackedAt(Input(d, turn, times), r),
                     if ordering.Some? then ordering
                     else if Anchors(d.maxRef, r) then OrderingCopy(ItemsOf(turn), r) else None,
                     if turn.Feed? && turn.round == r then Some(turn.sigs) else feed, times(r))
  {
    if turn.Wire? {
      TakenOrdering(d, turn.items, r);
    }
  }

  /** The desk's entry of a scored round is the log's, as long as the horizon has not passed it. */
  lemma {:induction false} TrackedIs(scoreFrom: nat, turns: seq<Turn>, times: Times, r: nat)
    requires r >= Floor(Newest(turns)) && times(r) >= scoreFrom
    ensures IsLogged(TrackedAt(RunAll(scoreFrom, turns, times).d, r), FirstOrdering(turns, r), LastFeed(turns, r),
                     times(r))
    decreases |turns|
  {
    hide Drain, Input, IsLogged;
    if turns == [] {
      NothingLogged(times(r));
    } else {
      var n := |turns| - 1;
      var d := RunAll(scoreFrom, turns[..n], times).d;
      TrackedIs(scoreFrom, turns[..n], times, r);
      NewestIs(scoreFrom, turns[..n], times);
      RunKeeps(scoreFrom, turns[..n], times, r);
      InputLogged(d, turns[n], times, r, FirstOrdering(turns[..n], r), LastFeed(turns[..n], r));
      InputNewest(d, turns[n], times);
      DrainLogged(Judging(scoreFrom, turns, times), turns[n].drainAt, r, FirstOrdering(turns, r), LastFeed(turns, r),
                  times(r));
    }
  }

  lemma NothingLogged(timeMs: nat)
    ensures IsLogged(UNTRACKED, None, None, timeMs)
  {
  }

  lemma DrainLogged(d: Desk, now: Time, r: nat, ordering: Option<Arrival>, feed: Option<seq<Sig>>, timeMs: nat)
    requires IsLogged(TrackedAt(d, r), ordering, feed, timeMs) && r >= Floor(d.maxRef)
    ensures IsLogged(TrackedAt(Drain(d, now), r), ordering, feed, timeMs)
  {
    hide Drain;
    DrainAt(d, now, r);
  }

  // ---------- the boundary over a run ----------

  ghost predicate Sampled(scoreFrom: nat, turns: seq<Turn>, times: Times, r: nat) {
    turns != [] && VerdictOf(scoreFrom, turns, times, r).Sample?
  }

  /** A round that is sampled has never been behind the horizon. */
  lemma SampledAhead(scoreFrom: nat, turns: seq<Turn>, times: Times, r: nat)
    requires Sampled(scoreFrom, turns, times, r)
    ensures times(r) >= scoreFrom && r >= Floor(Newest(turns[..|turns| - 1]))
    ensures var t := TrackedAt(Judging(scoreFrom, turns, times), r); t.ordering.Some? && t.reference.Some?
  {
    hide RunAll, Input;
    var n := |turns| - 1;
    RunKeeps(scoreFrom, turns[..n], times, r);
    NewestIs(scoreFrom, turns[..n], times);
    InputKeeps(RunAll(scoreFrom, turns[..n], times).d, turns[n], times, r);
  }

  /** The judged round is the log's: its ordering, its bundles, and their records. */
  lemma SampleIsLogged(scoreFrom: nat, turns: seq<Turn>, times: Times, r: nat)
    requires Sampled(scoreFrom, turns, times, r)
    ensures var o, feed, d := FirstOrdering(turns, r), LastFeed(turns, r), Judging(scoreFrom, turns, times);
            && o.Some? && feed.Some? && AllHere(feed.value, d.bundles)
            && (forall s <- feed.value :: Recorded(turns, s) == Some(d.bundles[s]))
            && VerdictOf(scoreFrom, turns, times, r) == Sample(Boundary(o.value, feed.value, d.bundles), times(r))
  {
    hide RunAll, Input, Boundary, Recorded, Surviving;
    var n := |turns| - 1;
    var d := RunAll(scoreFrom, turns[..n], times).d;
    SampledAhead(scoreFrom, turns, times, r);
    RunKeeps(scoreFrom, turns[..n], times, r);
    NewestIs(scoreFrom, turns[..n], times);
    TrackedIs(scoreFrom, turns[..n], times, r);
    InputLogged(d, turns[n], times, r, FirstOrdering(turns[..n], r), LastFeed(turns[..n], r));
    forall s <- LastFeed(turns, r).value
      ensures Recorded(turns, s) == Some(Judging(scoreFrom, turns, times).bundles[s])
    {
      BundlesAre(scoreFrom, turns, times, s);
    }
  }

  /** `a` is the latest of the ordering and the recorded bundles, and is one of them. */
  ghost predicate Latest(a: Arrival, ordering: Arrival, sigs: seq<Sig>, record: Sig -> Option<Bundle>) {
    && ordering.at <= a.at
    && (forall s <- sigs :: record(s).Some? && record(s).value.first.at <= a.at)
    && (a == ordering || exists s <- sigs :: record(s).Some? && record(s).value.first == a)
  }

  /** Over every run, through any drains, pruning and retention: a sample's receipt is the latest of the
      run's first ordering arrival in the window and of the first recorded arrival of each bundle the
      feed names, whenever the feed named it, and is one of them. */
  lemma SampleIsLatest(scoreFrom: nat, turns: seq<Turn>, times: Times, r: nat)
    requires Sampled(scoreFrom, turns, times, r)
    ensures FirstOrdering(turns, r).Some? && LastFeed(turns, r).Some?
    ensures var v := VerdictOf(scoreFrom, turns, times, r);
            && v.timeMs == times(r)
            && Latest(v.a, FirstOrdering(turns, r).value, LastFeed(turns, r).value, s => Recorded(turns, s))
  {
    hide VerdictOf, Judging, Recorded, Boundary, FirstOrdering, LastFeed;
    SampleIsLogged(scoreFrom, turns, times, r);
    var o, sigs, d := FirstOrdering(turns, r).value, LastFeed(turns, r).value, Judging(scoreFrom, turns, times);
    BoundaryIsLatest(o, sigs, d.bundles);
    var a := Boundary(o, sigs, d.bundles);
    if a != o {
      var k :| FirstAt(sigs, d.bundles, k, a);
      assert sigs[k] in sigs;
    }
  }

  // ---------- first copies ----------

  lemma {:induction false} OrderingCopyJoins(a: seq<WireItem>, b: seq<WireItem>, r: nat)
    ensures OrderingCopy(a + b, r) == if OrderingCopy(a, r).Some? then OrderingCopy(a, r) else OrderingCopy(b, r)
    decreases |b|
  {
    if b == [] {
      assert a + b == a;
    } else {
      assert (a + b)[..|a + b| - 1] == a + b[..|b| - 1];
      OrderingCopyJoins(a, b[..|b| - 1], r);
    }
  }

  lemma {:induction false} BundleCopyJoins(a: seq<WireItem>, b: seq<WireItem>, sig: Sig)
    ensures BundleCopy(a + b, sig) == if BundleCopy(a, sig).Some? then BundleCopy(a, sig) else BundleCopy(b, sig)
    decreases |b|
  {
    if b == [] {
      assert a + b == a;
    } else {
      assert (a + b)[..|a + b| - 1] == a + b[..|b| - 1];
      BundleCopyJoins(a, b[..|b| - 1], sig);
    }
  }

  /** No drain before the last turn was 120 s or more after the bundle's first copy was recorded. */
  predicate InTime(turns: seq<Turn>, sig: Sig) {
    BundleCopy(Log(turns), sig).Some? ==>
      forall k :: 0 <= k < |turns| - 1 ==>
        Since(turns[k].drainAt, BundleCopy(Log(turns), sig).value.seen) < BUNDLE_RETAIN
  }

  lemma {:induction false} CopySurvives(turns: seq<Turn>, sig: Sig, b: Bundle)
    requires BundleCopy(Log(turns), sig).Some? ==> BundleCopy(Log(turns), sig) == Some(b)
    requires forall k :: 0 <= k < |turns| ==> Since(turns[k].drainAt, b.seen) < BUNDLE_RETAIN
    ensures Surviving(turns, sig) == BundleCopy(Log(turns), sig)
    decreases |turns|
  {
    if turns != [] {
      var n := |turns| - 1;
      BundleCopyJoins(Log(turns[..n]), ItemsOf(turns[n]), sig);
      CopySurvives(turns[..n], sig, b);
    }
  }

  /** Then the record is the run's first copy. */
  lemma RecordedIsFirst(turns: seq<Turn>, sig: Sig)
    requires InTime(turns, sig) && BundleCopy(Log(turns), sig).Some?
    ensures Recorded(turns, sig) == BundleCopy(Log(turns), sig)
  {
    hide OrderingCopy;
    if turns != [] {
      var n := |turns| - 1;
      BundleCopyJoins(Log(turns[..n]), ItemsOf(turns[n]), sig);
      CopySurvives(turns[..n], sig, BundleCopy(Log(turns), sig).value);
    }
  }

  /** Clocks do not run backwards: drains come in order, and what a turn records it records between the
      drain before it and its own. */
  predicate Clocked(turns: seq<Turn>) {
    && (forall i, j :: 0 <= i < j < |turns| ==> turns[i].drainAt <= turns[j].drainAt)
    && (forall k, x :: 0 < k < |turns| && x in ItemsOf(turns[k]) && x.BundleOf? ==> turns[k - 1].drainAt <= x.seen)
  }

  lemma {:induction false} CopySeen(items: seq<WireItem>, sig: Sig)
    requires BundleCopy(items, sig).Some?
    ensures BundleOf(sig, BundleCopy(items, sig).value.first, BundleCopy(items, sig).value.seen) in items
    decreases |items|
  {
    var n := |items| - 1;
    assert items == items[..n] + [items[n]];
    if BundleCopy(items[..n], sig).Some? {
      CopySeen(items[..n], sig);
    }
  }

  /** The exact condition: when a turn is judged, the record of a bundle is the run's first copy if and
      only if the drain before that turn came less than 120 s after that copy was recorded. */
  lemma RecordedIsFirstIff(turns: seq<Turn>, sig: Sig)
    requires Clocked(turns) && |turns| > 1 && BundleCopy(Log(turns), sig).Some?
    ensures Recorded(turns, sig) == BundleCopy(Log(turns), sig)
            <==> Since(turns[|turns| - 2].drainAt, BundleCopy(Log(turns), sig).value.seen) < BUNDLE_RETAIN
  {
    hide Log, OrderingCopy;
    var n := |turns| - 1;
    var b := BundleCopy(Log(turns), sig).value;
    if Since(turns[n - 1].drainAt, b.seen) < BUNDLE_RETAIN {
      assert forall k :: 0 <= k < n ==> turns[k].drainAt <= turns[n - 1].drainAt;
      RecordedIsFirst(turns, sig);
    } else if BundleCopy(ItemsOf(turns[n]), sig).Some? {
      CopySeen(ItemsOf(turns[n]), sig);
    }
  }

  // ---------- feed lag ----------

  /** The round is sampled from its first arrivals: its first ordering copy came while the feed had it in
      the window, and no bundle it names was dropped before. */
  predicate FromFirstArrivals(turns: seq<Turn>, r: nat) {
    && FirstOrdering(turns, r) == OrderingCopy(Log(turns), r)
    && (LastFeed(turns, r).Some? ==> forall s <- LastFeed(turns, r).value :: InTime(turns, s))
  }

  function WithoutFeed(turns: seq<Turn>, r: nat): seq<Turn>
    decreases |turns|
  {
    if turns == [] then []
    else
      var last := turns[|turns| - 1];
      WithoutFeed(turns[..|turns| - 1], r) + if last.Feed? && last.round == r then [] else [last]
  }

  /** A feed line puts nothing on the wire. */
  lemma {:induction false} LogWithoutFeed(turns: seq<Turn>, r: nat)
    ensures Log(WithoutFeed(turns, r)) == Log(turns)
    decreases |turns|
  {
    if turns != [] {
      var n := |turns| - 1;
      LogWithoutFeed(turns[..n], r);
      var rest := WithoutFeed(turns[..n], r);
      if turns[n].Feed? && turns[n].round == r {
        assert rest + [] == rest;
      } else {
        assert (rest + [turns[n]])[..|rest|] == rest;
      }
    }
  }

  lemma {:induction false} LogPrefix(a: seq<Turn>, b: seq<Turn>)
    requires a <= b
    ensures Log(a) <= Log(b)
    decreases |b|
  {
    if a != b {
      LogPrefix(a, b[..|b| - 1]);
    }
  }

  lemma CopiesExtend(a: seq<WireItem>, b: seq<WireItem>, r: nat, sig: Sig)
    requires a <= b
    ensures OrderingCopy(a, r).Some? ==> OrderingCopy(b, r) == OrderingCopy(a, r)
    ensures BundleCopy(a, sig).Some? ==> BundleCopy(b, sig) == BundleCopy(a, sig)
  {
    assert b == a + b[|a|..];
    OrderingCopyJoins(a, b[|a|..], r);
    BundleCopyJoins(a, b[|a|..], sig);
  }

  lemma {:induction false} BoundaryReads(o: Arrival, sigs: seq<Sig>, m: map<Sig, Bundle>, n: map<Sig, Bundle>)
    requires AllHere(sigs, m) && AllHere(sigs, n) && forall s <- sigs :: m[s] == n[s]
    ensures Boundary(o, sigs, m) == Boundary(o, sigs, n)
    decreases |sigs|
  {
    if sigs != [] {
      BoundaryReads(o, sigs[..|sigs| - 1], m, n);
    }
  }

  /** What a sample from first arrivals is made of. */
  lemma FirstParts(scoreFrom: nat, turns: seq<Turn>, times: Times, r: nat, s: Sig)
    requires Sampled(scoreFrom, turns, times, r) && FromFirstArrivals(turns, r)
    ensures LastFeed(turns, r).Some? && OrderingCopy(Log(turns), r).Some?
    ensures s in LastFeed(turns, r).value ==>
              BundleCopy(Log(turns), s).Some? && Recorded(turns, s) == BundleCopy(Log(turns), s)
  {
    hide VerdictOf, Judging, Recorded, FirstOrdering, LastFeed, InTime, BundleCopy, OrderingCopy, Log;
    SampleIsLogged(scoreFrom, turns, times, r);
    if s in LastFeed(turns, r).value {
      RecordedHasCopy(turns, s);
      RecordedIsFirst(turns, s);
    }
  }

  lemma {:induction false} RecordedHasCopy(turns: seq<Turn>, sig: Sig)
    ensures Recorded(turns, sig).Some? ==> BundleCopy(Log(turns), sig).Some?
    decreases |turns|
  {
    if turns != [] {
      var n := |turns| - 1;
      RecordedHasCopy(turns[..n], sig);
      assert Surviving(turns[..n], sig).Some? ==> Recorded(turns[..n], sig).Some?;
      BundleCopyJoins(Log(turns[..n]), ItemsOf(turns[n]), sig);
    }
  }

  /** Feed lag delays a sample and never changes it, as long as it is sampled from its first arrivals: two
      runs that agree once the feed lines for the round are taken out, and that both sample it, give it
      the same sample, whatever the drains, the other rounds and the pruning in between. */
  lemma FeedLagNeverDistorts(scoreFrom: nat, a: seq<Turn>, b: seq<Turn>, times: Times, r: nat)
    requires WithoutFeed(a, r) <= WithoutFeed(b, r) && LastFeed(a, r) == LastFeed(b, r)
    requires Sampled(scoreFrom, a, times, r) && Sampled(scoreFrom, b, times, r)
    requires FromFirstArrivals(a, r) && FromFirstArrivals(b, r)
    ensures VerdictOf(scoreFrom, a, times, r) == VerdictOf(scoreFrom, b, times, r)
  {
    hide VerdictOf, Judging, Recorded, LastFeed, InTime, BundleCopy, OrderingCopy, Log, WithoutFeed, Boundary,
      FirstOrdering;
    LogWithoutFeed(a, r);
    LogWithoutFeed(b, r);
    LogPrefix(WithoutFeed(a, r), WithoutFeed(b, r));
    SampleIsLogged(scoreFrom, a, times, r);
    SampleIsLogged(scoreFrom, b, times, r);
    CopiesExtend(Log(a), Log(b), r, "");
    var sigs := LastFeed(a, r).value;
    var m, n := Judging(scoreFrom, a, times).bundles, Judging(scoreFrom, b, times).bundles;
    forall s <- sigs
      ensures m[s] == n[s]
    {
      FirstParts(scoreFrom, a, times, r, s);
      FirstParts(scoreFrom, b, times, r, s);
      CopiesExtend(Log(a), Log(b), r, s);
    }
    BoundaryReads(FirstOrdering(a, r).value, sigs, m, n);
  }

  // ---------- exactly when ----------

  /** Arrivals on the wire come in order. */
  predicate InArrivalOrder(items: seq<WireItem>) {
    forall i, j :: 0 <= i < j < |items| ==> items[i].a.at <= items[j].a.at
  }

  /** A first copy is the earliest. */
  lemma {:induction false} FirstIsEarliest(items: seq<WireItem>, x: WireItem)
    requires InArrivalOrder(items) && x in items
    ensures x.OrderingOf? ==> OrderingCopy(items, x.round).Some? && OrderingCopy(items, x.round).value.at <= x.a.at
    ensures x.BundleOf? ==> BundleCopy(items, x.sig).Some? && BundleCopy(items, x.sig).value.first.at <= x.a.at
    decreases |items|
  {
    var n := |items| - 1;
    assert items == items[..n] + [items[n]];
    if x in items[..n] {
      FirstIsEarliest(items[..n], x);
    } else if x.BundleOf? && BundleCopy(items[..n], x.sig).Some? {
      CopySeen(items[..n], x.sig);
    } else if x.OrderingOf? && OrderingCopy(items[..n], x.round).Some? {
      OrderingSeen(items[..n], x.round);
    }
  }

  lemma {:induction false} OrderingSeen(items: seq<WireItem>, r: nat)
    requires OrderingCopy(items, r).Some?
    ensures OrderingOf(r, OrderingCopy(items, r).value) in items
    decreases |items|
  {
    var n := |items| - 1;
    assert items == items[..n] + [items[n]];
    if OrderingCopy(items[..n], r).Some? {
      OrderingSeen(items[..n], r);
    }
  }

  /** Whatever a run used, it is in its log. */
  lemma {:induction false} UsedIsLogged(turns: seq<Turn>, r: nat, sig: Sig)
    ensures FirstOrdering(turns, r).Some? ==> OrderingOf(r, FirstOrdering(turns, r).value) in Log(turns)
    ensures Recorded(turns, sig).Some? ==>
              BundleOf(sig, Recorded(turns, sig).value.first, Recorded(turns, sig).value.seen) in Log(turns)
    decreases |turns|
  {
    hide BundleCopy, OrderingCopy, Anchors;
    if turns != [] {
      var n := |turns| - 1;
      UsedIsLogged(turns[..n], r, sig);
      if BundleCopy(ItemsOf(turns[n]), sig).Some? {
        CopySeen(ItemsOf(turns[n]), sig);
      }
      if OrderingCopy(ItemsOf(turns[n]), r).Some? {
        OrderingSeen(ItemsOf(turns[n]), r);
      }
    }
  }

  /** The run's arrivals for a part are no earlier than the first copies. */
  lemma NoEarlier(turns: seq<Turn>, r: nat, sig: Sig)
    requires InArrivalOrder(Log(turns))
    ensures FirstOrdering(turns, r).Some? ==>
              OrderingCopy(Log(turns), r).Some?
                  && OrderingCopy(Log(turns), r).value.at <= FirstOrdering(turns, r).value.at
    ensures Recorded(turns, sig).Some? ==>
              && BundleCopy(Log(turns), sig).Some?
              && BundleCopy(Log(turns), sig).value.first.at <= Recorded(turns, sig).value.first.at
  {
    hide Log, OrderingCopy, BundleCopy, InArrivalOrder, FirstOrdering, Recorded;
    UsedIsLogged(turns, r, sig);
    if FirstOrdering(turns, r).Some? {
      FirstIsEarliest(Log(turns), OrderingOf(r, FirstOrdering(turns, r).value));
    }
    if Recorded(turns, sig).Some? {
      FirstIsEarliest(Log(turns), BundleOf(sig, Recorded(turns, sig).value.first, Recorded(turns, sig).value.seen));
    }
  }

  /** Nothing the run used instead of a first arrival came after `at`. */
  ghost predicate NothingLater(turns: seq<Turn>, r: nat, sigs: seq<Sig>, at: Time) {
    && (FirstOrdering(turns, r) == OrderingCopy(Log(turns), r)
        || (FirstOrdering(turns, r).Some? && FirstOrdering(turns, r).value.at <= at))
    && forall s <- sigs :: InTime(turns, s) || (Recorded(turns, s).Some? && Recorded(turns, s).value.first.at <= at)
  }

  /** And exactly then is the receipt the same: against a sample from first arrivals, a run over the same
      wire arrivals with other feed times gives the same receipt if and only if what it had to use
      instead of a first arrival, because the round was out of the window or a bundle had been dropped
      and was recorded again, arrived no later than that receipt. */
  lemma FeedLagShowsIff(scoreFrom: nat, a: seq<Turn>, b: seq<Turn>, times: Times, r: nat)
    requires WithoutFeed(a, r) <= WithoutFeed(b, r) && LastFeed(a, r) == LastFeed(b, r)
    requires Sampled(scoreFrom, a, times, r) && Sampled(scoreFrom, b, times, r)
    requires FromFirstArrivals(a, r) && InArrivalOrder(Log(b))
    ensures LastFeed(b, r).Some?
    ensures var x, y := VerdictOf(scoreFrom, a, times, r).a.at, VerdictOf(scoreFrom, b, times, r).a.at;
            y == x <==> NothingLater(b, r, LastFeed(b, r).value, x)
  {
    hide VerdictOf, Judging, Recorded, LastFeed, InTime, BundleCopy, OrderingCopy, Log, WithoutFeed,
      FirstOrdering, InArrivalOrder, FromFirstArrivals, Latest, NothingLater;
    LogWithoutFeed(a, r);
    LogWithoutFeed(b, r);
    LogPrefix(WithoutFeed(a, r), WithoutFeed(b, r));
    SampleIsLatest(scoreFrom, a, times, r);
    SampleIsLatest(scoreFrom, b, times, r);
    var v, w := VerdictOf(scoreFrom, a, times, r).a, VerdictOf(scoreFrom, b, times, r).a;
    PartsGrow(scoreFrom, a, b, times, r, "");
    forall s
      ensures s in LastFeed(a, r).value ==> PartGrows(a, b, s)
    {
      PartsGrow(scoreFrom, a, b, times, r, s);
    }
    NoSooner(a, b, r, LastFeed(a, r).value, v, w);
    LaterIff(a, b, r, LastFeed(a, r).value, v, w);
  }

  /** Every part of the second sample is no earlier than the same part of the first, and is the same when
      it is a first arrival too. */
  ghost predicate PartGrows(a: seq<Turn>, b: seq<Turn>, s: Sig) {
    && Recorded(a, s).Some? && Recorded(b, s).Some?
    && Recorded(a, s).value.first.at <= Recorded(b, s).value.first.at
    && (InTime(b, s) ==> Recorded(b, s) == Recorded(a, s))
  }

  ghost predicate OrderingGrows(a: seq<Turn>, b: seq<Turn>, r: nat) {
    && FirstOrdering(a, r).Some? && FirstOrdering(b, r).Some?
    && FirstOrdering(a, r).value.at <= FirstOrdering(b, r).value.at
    && (FirstOrdering(b, r) == OrderingCopy(Log(b), r) ==> FirstOrdering(b, r) == FirstOrdering(a, r))
  }

  lemma PartsGrow(scoreFrom: nat, a: seq<Turn>, b: seq<Turn>, times: Times, r: nat, s: Sig)
    requires Log(a) <= Log(b) && LastFeed(a, r) == LastFeed(b, r)
    requires Sampled(scoreFrom, a, times, r) && Sampled(scoreFrom, b, times, r)
    requires FromFirstArrivals(a, r) && InArrivalOrder(Log(b))
    ensures LastFeed(a, r).Some? && OrderingGrows(a, b, r)
    ensures s in LastFeed(a, r).value ==> PartGrows(a, b, s)
  {
    hide VerdictOf, Judging, Recorded, LastFeed, InTime, BundleCopy, OrderingCopy, Log, FirstOrdering,
      InArrivalOrder;
    SampleIsLogged(scoreFrom, a, times, r);
    SampleIsLogged(scoreFrom, b, times, r);
    FirstParts(scoreFrom, a, times, r, s);
    NoEarlier(b, r, s);
    CopiesExtend(Log(a), Log(b), r, s);
    if s in LastFeed(a, r).value && InTime(b, s) {
      RecordedIsFirst(b, s);
    }
  }

  lemma NoSooner(a: seq<Turn>, b: seq<Turn>, r: nat, sigs: seq<Sig>, v: Arrival, w: Arrival)
    requires OrderingGrows(a, b, r) && forall s <- sigs :: PartGrows(a, b, s)
    requires Latest(v, FirstOrdering(a, r).value, sigs, s => Recorded(a, s))
    requires Latest(w, FirstOrdering(b, r).value, sigs, s => Recorded(b, s))
    ensures v.at <= w.at
  {
    hide Recorded, FirstOrdering, InTime, Log, OrderingCopy;
    if v != FirstOrdering(a, r).value {
      var s :| s in sigs && Recorded(a, s).Some? && Recorded(a, s).value.first == v;
      assert PartGrows(a, b, s);
    }
  }

  lemma LaterIff(a: seq<Turn>, b: seq<Turn>, r: nat, sigs: seq<Sig>, v: Arrival, w: Arrival)
    requires OrderingGrows(a, b, r) && (forall s <- sigs :: PartGrows(a, b, s)) && v.at <= w.at
    requires Latest(v, FirstOrdering(a, r).value, sigs, s => Recorded(a, s))
    requires Latest(w, FirstOrdering(b, r).value, sigs, s => Recorded(b, s))
    ensures w.at == v.at <==> NothingLater(b, r, sigs, v.at)
  {
    hide Recorded, FirstOrdering, InTime, Log, OrderingCopy;
    if NothingLater(b, r, sigs, v.at) {
      if w != FirstOrdering(b, r).value {
        var s :| s in sigs && Recorded(b, s).Some? && Recorded(b, s).value.first == w;
        assert PartGrows(a, b, s);
      }
    }
  }

  // ---------- a feed line that shows ----------

  const ANCHOR: Tracked := Tracked(None, Some(Reference(1, [])), Some(0), false)
  const EXPIRED: Tracked := Tracked(None, Some(Reference(1, [])), Some(0), true)
  const ORDERED: Tracked := Tracked(Some(Arrival(118000, 118000)), None, Some(118000), false)
  const EARLY: Bundle := Bundle(Arrival(0, 0), 0)
  const AGAIN: Bundle := Bundle(Arrival(120500, 120500), 120500)

  const NAMED: Turn := Feed(1, [], 0, 0)
  const SERVED: Turn := Wire([BundleOf("x", Arrival(0, 0), 0)], 0)
  const ORDERING: Turn := Wire([OrderingOf(2, Arrival(118000, 118000))], 118000)
  const WAIT: Turn := Quiet(120400)
  const RESERVED: Turn := Wire([BundleOf("x", Arrival(120500, 120500), 120500)], 120500)

  const DESK1: Desk := Desk(map[1 := ANCHOR], map[], 1, 0)
  const DESK2: Desk := Desk(map[1 := ANCHOR], map["x" := EARLY], 1, 0)
  const DESK3: Desk := Desk(map[1 := EXPIRED, 2 := ORDERED], map["x" := EARLY], 1, 0)
  const DESK4: Desk := Desk(map[1 := EXPIRED, 2 := ORDERED], map[], 1, 0)
  const DESK5: Desk := Desk(map[1 := EXPIRED, 2 := ORDERED], map["x" := AGAIN], 1, 0)

  function Turned(d: Desk, turn: Turn, times: Times): Desk {
    Drain(Input(d, turn, times), turn.drainAt)
  }

  lemma NextDesk(turns: seq<Turn>, x: Turn, times: Times)
    ensures RunAll(0, turns + [x], times).d == Turned(RunAll(0, turns, times).d, x, times)
    ensures Judging(0, turns + [x], times) == Input(RunAll(0, turns, times).d, x, times)
  {
    hide Drain, Input;
    assert (turns + [x])[..|turns|] == turns;
  }

  lemma Anchored(times: Times)
    requires times(1) == 1
    ensures Turned(Desk(map[], map[], 0, 0), NAMED, times) == DESK1
  {
    var d := Input(Desk(map[], map[], 0, 0), NAMED, times);
    assert d == DESK1;
    assert VerdictOn(d, 1, 0).Waiting?;
    assert Drain(d, 0).rounds == DESK1.rounds && Drain(d, 0).bundles == map[];
  }

  lemma Taken1(d: Desk, item: WireItem)
    ensures TakeAll(d, [item]) == Take(d, item)
  {
    assert [item][..0] == [];
    assert TakeAll(d, [item][..0]) == d;
  }

  lemma Served(times: Times)
    ensures Turned(DESK1, SERVED, times) == DESK2
  {
    Taken1(DESK1, SERVED.items[0]);
    var d := Input(DESK1, SERVED, times);
    assert d == DESK2;
    assert VerdictOn(d, 1, 0).Waiting?;
    assert Drain(d, 0).rounds == DESK2.rounds && Drain(d, 0).bundles == DESK2.bundles;
  }

  lemma Ordered(times: Times)
    ensures Turned(DESK2, ORDERING, times) == DESK3
  {
    Taken1(DESK2, ORDERING.items[0]);
    var d := Input(DESK2, ORDERING, times);
    assert d.rounds == map[1 := ANCHOR, 2 := ORDERED] && d.bundles == DESK2.bundles;
    assert VerdictOn(d, 1, 118000).NoOrdering? && VerdictOn(d, 2, 118000).Waiting?;
    assert Drain(d, 118000).rounds == DESK3.rounds && Drain(d, 118000).bundles == DESK3.bundles;
  }

  lemma Dropped(times: Times)
    ensures Turned(DESK3, WAIT, times) == DESK4
  {
    assert VerdictOn(DESK3, 1, 120400).Waiting? && VerdictOn(DESK3, 2, 120400).Waiting?;
    assert Drain(DESK3, 120400).rounds == DESK4.rounds && Drain(DESK3, 120400).bundles == map[];
  }

  lemma ServedAgain(times: Times)
    ensures Turned(DESK4, RESERVED, times) == DESK5
  {
    Taken1(DESK4, RESERVED.items[0]);
    var d := Input(DESK4, RESERVED, times);
    assert d == DESK5;
    assert VerdictOn(d, 1, 120500).Waiting? && VerdictOn(d, 2, 120500).Waiting?;
    assert Drain(d, 120500).rounds == DESK5.rounds && Drain(d, 120500).bundles == DESK5.bundles;
  }

  /** The sample of round 2 when its feed line comes at `now`, on a desk where only the bundle's record may
      differ. */
  lemma JudgedWith(d: Desk, b: Bundle, now: Time, times: Times)
    requires d == Desk(map[1 := EXPIRED, 2 := ORDERED], map["x" := b], 1, 0) && times(2) == 1
    ensures var e := Input(d, Feed(2, ["x"], now, now), times);
            2 in e.rounds && VerdictOn(e, 2, now) == Sample(Later(Arrival(118000, 118000), b.first), 1)
  {
    var e := Input(d, Feed(2, ["x"], now, now), times);
    assert e.rounds[2] == Tracked(Some(Arrival(118000, 118000)), Some(Reference(1, ["x"])), Some(118000), false);
    assert ["x"][..0] == [];
    assert Boundary(Arrival(118000, 118000), ["x"][..0], e.bundles) == Arrival(118000, 118000);
    assert Boundary(Arrival(118000, 118000), ["x"], e.bundles) == Later(Arrival(118000, 118000), b.first);
  }

  /** The condition is needed: the ordering of round 2 arrives at 118000, long after its bundle; named at
      once, the round is sampled there; named three seconds later, when the bundle has been dropped and
      served again, it is sampled at 120500. */
  lemma DroppedBundleShows()
    ensures var times: Times := r => 1;
            var early := [NAMED, SERVED, ORDERING, Feed(2, ["x"], 118000, 118000)];
            var late := [NAMED, SERVED, ORDERING, WAIT, RESERVED, Feed(2, ["x"], 121000, 121000)];
            && VerdictOf(0, early, times, 2) == Sample(Arrival(118000, 118000), 1)
            && VerdictOf(0, late, times, 2) == Sample(Arrival(120500, 120500), 1)
  {
    hide Input, Drain, Turned, Judging, RunAll;
    var times: Times := r => 1;
    assert RunAll(0, [], times).d == Desk(map[], map[], 0, 0) by { StartDesk(times); }
    Anchored(times);
    Served(times);
    Ordered(times);
    Dropped(times);
    ServedAgain(times);
    NextDesk([], NAMED, times);
    NextDesk([NAMED], SERVED, times);
    NextDesk([NAMED, SERVED], ORDERING, times);
    NextDesk([NAMED, SERVED, ORDERING], WAIT, times);
    NextDesk([NAMED, SERVED, ORDERING, WAIT], RESERVED, times);
    NextDesk([NAMED, SERVED, ORDERING], Feed(2, ["x"], 118000, 118000), times);
    NextDesk([NAMED, SERVED, ORDERING, WAIT, RESERVED], Feed(2, ["x"], 121000, 121000), times);
    assert [] + [NAMED] == [NAMED] && [NAMED] + [SERVED] == [NAMED, SERVED];
    assert [NAMED, SERVED] + [ORDERING] == [NAMED, SERVED, ORDERING];
    assert [NAMED, SERVED, ORDERING] + [WAIT] == [NAMED, SERVED, ORDERING, WAIT];
    assert [NAMED, SERVED, ORDERING, WAIT] + [RESERVED] == [NAMED, SERVED, ORDERING, WAIT, RESERVED];
    JudgedWith(DESK3, EARLY, 118000, times);
    JudgedWith(DESK5, AGAIN, 121000, times);
    var early := [NAMED, SERVED, ORDERING] + [Feed(2, ["x"], 118000, 118000)];
    var late := [NAMED, SERVED, ORDERING, WAIT, RESERVED] + [Feed(2, ["x"], 121000, 121000)];
    assert early == [NAMED, SERVED, ORDERING, Feed(2, ["x"], 118000, 118000)];
    assert late == [NAMED, SERVED, ORDERING, WAIT, RESERVED, Feed(2, ["x"], 121000, 121000)];
    assert early[|early| - 1].drainAt == 118000 && late[|late| - 1].drainAt == 121000;
  }

  lemma StartDesk(times: Times)
    ensures RunAll(0, [], times).d == Desk(map[], map[], 0, 0)
  {
  }
}
