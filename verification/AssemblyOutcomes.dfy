/** Over a whole run, a round the feed names is not passed over: once its deadline is past it has been
    sampled or counted, unless it was dropped unnamed before. */
module AssemblyOutcomes {
  import opened Common
  import opened AssemblySpec
  import opened AssemblyRuns
  import opened AssemblyBoundary

  /** The desk that the drain of turn `n` judges. */
  ghost function Before(scoreFrom: nat, turns: seq<Turn>, times: Times, n: nat): Desk
    requires n < |turns|
  {
    Input(RunAll(scoreFrom, turns[..n], times).d, turns[n], times)
  }

  /** The drain of turn `n` dropped the round: past its deadline, not decided, not named. */
  ghost predicate DroppedAt(scoreFrom: nat, turns: seq<Turn>, times: Times, r: nat, n: int) {
    && 0 <= n < |turns|
    && var d := Before(scoreFrom, turns, times, n);
       r in d.rounds && Unnamed(d, r, turns[n].drainAt)
  }

  ghost predicate Dropped(scoreFrom: nat, turns: seq<Turn>, times: Times, r: nat) {
    exists n :: DroppedAt(scoreFrom, turns, times, r, n)
  }

  lemma DroppedLater(scoreFrom: nat, turns: seq<Turn>, times: Times, r: nat)
    requires turns != []
    ensures var n := |turns| - 1;
            Dropped(scoreFrom, turns, times, r)
            <==> Dropped(scoreFrom, turns[..n], times, r) || DroppedAt(scoreFrom, turns, times, r, n)
  {
    hide Unnamed, RunAll, Input;
    var last := |turns| - 1;
    forall n
      ensures DroppedAt(scoreFrom, turns, times, r, n)
              <==> DroppedAt(scoreFrom, turns[..last], times, r, n)
                   || (n == last && DroppedAt(scoreFrom, turns, times, r, n))
    {
      if 0 <= n < last {
        assert turns[..last][..n] == turns[..n] && turns[..last][n] == turns[n];
      }
    }
  }

  /** While a round the feed can name is not behind the horizon, it is marked as reported just when it
      has had its one outcome or has been dropped, and not both. */
  ghost predicate Accounted(t: Tally, dropped: bool, r: nat) {
    && t.outcomes[r] <= 1 && !(dropped && t.outcomes[r] == 1)
    && (t.outcomes[r] == 1 || dropped <==> r in t.d.rounds && t.d.rounds[r].reported)
  }

  /** An input before the drain leaves the mark of a round as it is. */
  lemma InputMarks(d: Desk, turn: Turn, times: Times, r: nat)
    requires times(r) >= d.scoreFrom
    ensures var after := Input(d, turn, times);
            && after.scoreFrom == d.scoreFrom && after.maxRef >= d.maxRef
            && (r in d.rounds ==> r in after.rounds)
            && (r in after.rounds ==> after.rounds[r].reported == (r in d.rounds && d.rounds[r].reported))
  {
    if turn.Wire? {
      TakeAllOk(d, turn.items, r);
    }
  }

  lemma StepAccounts(t: Tally, turn: Turn, times: Times, r: nat, dropped: bool)
    requires times(r) >= t.d.scoreFrom && RoundOk(t, times, r)
    requires r >= Floor(t.d.maxRef) ==> Accounted(t, dropped, r)
    ensures var after, d := Step(t, turn, times), Input(t.d, turn, times);
            r >= Floor(after.d.maxRef) ==>
              Accounted(after, dropped || (r in d.rounds && Unnamed(d, r, turn.drainAt)), r)
  {
    hide Input, Drain, VerdictOn, Unnamed, Whole, OrderingLost, BundleLost;
    var d := Input(t.d, turn, times);
    InputMarks(t.d, turn, times, r);
    DrainAt(d, turn.drainAt, r);
    var decided := Decided(d, turn.drainAt);
    var more: multiset<nat> := multiset(decided);
    assert more[r] == if r in decided then 1 else 0;
    if r in d.rounds {
      VerdictIff(d, r, turn.drainAt);
      MarkedWaits(d, r, turn.drainAt);
    }
  }

  lemma MarkedWaits(d: Desk, r: nat, now: Time)
    requires r in d.rounds
    ensures d.rounds[r].reported ==> VerdictOn(d, r, now).Waiting?
    ensures !VerdictOn(d, r, now).Waiting? <==> IsOutcome(VerdictOn(d, r, now)) || VerdictOn(d, r, now).Lapsed?
  {
  }

  lemma {:induction false} RunAccounts(scoreFrom: nat, turns: seq<Turn>, times: Times, r: nat)
    requires times(r) >= scoreFrom
    ensures var t := RunAll(scoreFrom, turns, times);
            r >= Floor(t.d.maxRef) ==> Accounted(t, Dropped(scoreFrom, turns, times, r), r)
    decreases |turns|
  {
    hide Step, RoundOk, Accounted, Dropped, DroppedAt, Unnamed, Input;
    if turns == [] {
      NothingAccounted(scoreFrom, times, r);
    } else {
      var n := |turns| - 1;
      var t := RunAll(scoreFrom, turns[..n], times);
      RunAccounts(scoreFrom, turns[..n], times, r);
      RunKeeps(scoreFrom, turns[..n], times, r);
      StepAccounts(t, turns[n], times, r, Dropped(scoreFrom, turns[..n], times, r));
      DroppedLater(scoreFrom, turns, times, r);
      LastDropped(scoreFrom, turns, times, r);
    }
  }

  lemma LastDropped(scoreFrom: nat, turns: seq<Turn>, times: Times, r: nat)
    requires turns != []
    ensures var n := |turns| - 1;
            var d := Input(RunAll(scoreFrom, turns[..n], times).d, turns[n], times);
            DroppedAt(scoreFrom, turns, times, r, n) <==> r in d.rounds && Unnamed(d, r, turns[n].drainAt)
  {
  }

  lemma NothingAccounted(scoreFrom: nat, times: Times, r: nat)
    ensures Accounted(RunAll(scoreFrom, [], times), Dropped(scoreFrom, [], times, r), r)
  {
  }

  /** A round that the feed has named and that is still tracked after a drain past its deadline has had
      exactly one outcome, a sample or a gap, if and only if no drain dropped it before the feed named
      it; if one did, it has none. */
  lemma NamedHasItsOutcome(scoreFrom: nat, turns: seq<Turn>, times: Times, r: nat)
    requires turns != [] && r in RunAll(scoreFrom, turns, times).d.rounds
    requires var t := RunAll(scoreFrom, turns, times).d.rounds[r];
             t.reference.Some? && PastDeadline(t, turns[|turns| - 1].drainAt)
    ensures RunAll(scoreFrom, turns, times).outcomes[r]
            == if Dropped(scoreFrom, turns, times, r) then 0 else 1
  {
    hide RunAll, Dropped, PastDeadline, Step, RoundOk;
    RunKeeps(scoreFrom, turns, times, r);
    TrackedIsNamed(RunAll(scoreFrom, turns, times), times, r);
    RunAccounts(scoreFrom, turns, times, r);
    NamedIsMarked(scoreFrom, turns, times, r);
  }

  lemma TrackedIsNamed(t: Tally, times: Times, r: nat)
    requires RoundOk(t, times, r) && r in t.d.rounds && t.d.rounds[r].reference.Some?
    ensures times(r) >= t.d.scoreFrom && r >= Floor(t.d.maxRef)
  {
  }

  lemma NamedIsMarked(scoreFrom: nat, turns: seq<Turn>, times: Times, r: nat)
    requires turns != [] && r in RunAll(scoreFrom, turns, times).d.rounds
    requires var t := RunAll(scoreFrom, turns, times).d.rounds[r];
             t.reference.Some? && PastDeadline(t, turns[|turns| - 1].drainAt)
    ensures RunAll(scoreFrom, turns, times).d.rounds[r].reported
  {
    hide Input, VerdictOn;
    var n := |turns| - 1;
    var d, now := Input(RunAll(scoreFrom, turns[..n], times).d, turns[n], times), turns[n].drainAt;
    DrainAt(d, now, r);
    VerdictIff(d, r, now);
  }

  // ---------- the verdict, told from the turns of the run ----------

  /** When the run first heard of `r`, from an ordering in the window or from the feed. */
  function FirstHeard(turns: seq<Turn>, r: nat): Option<Time>
    decreases |turns|
  {
    if turns == [] then None
    else
      var init, last := turns[..|turns| - 1], turns[|turns| - 1];
      var before := FirstHeard(init, r);
      if before.Some? then before
      else if last.Feed? && last.round == r then Some(last.now)
      else if Anchors(Newest(init), r) && OrderingCopy(ItemsOf(last), r).Some? then
        Some(OrderingCopy(ItemsOf(last), r).value.at)
      else None
  }

  /** The desk tracks `r` since `heard`. */
  predicate TracksSince(d: Desk, r: nat, heard: Option<Time>) {
    (r in d.rounds <==> heard.Some?) && TrackedAt(d, r).firstSeen == heard
  }

  lemma {:induction false} TakenHeard(d: Desk, items: seq<WireItem>, r: nat, heard: Option<Time>)
    requires TracksSince(d, r, heard)
    ensures var e := TakeAll(d, items);
            && e.maxRef == d.maxRef
            && TracksSince(e, r, if heard.Some? then heard
                                 else if Anchors(d.maxRef, r) && OrderingCopy(items, r).Some? then
                                   Some(OrderingCopy(items, r).value.at)
                                 else None)
    decreases |items|
  {
    if items != [] {
      TakenHeard(d, items[..|items| - 1], r, heard);
    }
  }

  lemma InputHeard(d: Desk, turn: Turn, times: Times, r: nat, heard: Option<Time>)
    requires TracksSince(d, r, heard) && times(r) >= d.scoreFrom
    ensures TracksSince(Input(d, turn, times), r,
                        if heard.Some? then heard
                        else if turn.Feed? && turn.round == r then Some(turn.now)
                        else if Anchors(d.maxRef, r) && OrderingCopy(ItemsOf(turn), r).Some? then
                          Some(OrderingCopy(ItemsOf(turn), r).value.at)
                        else None)
  {
    if turn.Wire? {
      TakenHeard(d, turn.items, r, heard);
    }
  }

  lemma DrainHeard(d: Desk, now: Time, r: nat, heard: Option<Time>)
    requires TracksSince(d, r, heard) && r + ROUND_RETAIN >= d.maxRef
    ensures TracksSince(Drain(d, now), r, heard)
  {
    hide Judge;
  }

  lemma {:induction false} TracksSinceHeard(scoreFrom: nat, turns: seq<Turn>, times: Times, r: nat)
    requires r + ROUND_RETAIN >= Newest(turns) && times(r) >= scoreFrom
    ensures TracksSince(RunAll(scoreFrom, turns, times).d, r, FirstHeard(turns, r))
    decreases |turns|
  {
    hide Drain, Input, TracksSince;
    if turns == [] {
      NothingHeard(scoreFrom, times, r);
    } else {
      var n := |turns| - 1;
      var d := RunAll(scoreFrom, turns[..n], times).d;
      TracksSinceHeard(scoreFrom, turns[..n], times, r);
      NewestIs(scoreFrom, turns[..n], times);
      RunKeeps(scoreFrom, turns[..n], times, r);
      InputHeard(d, turns[n], times, r, FirstHeard(turns[..n], r));
      InputNewest(d, turns[n], times);
      DrainHeard(Judging(scoreFrom, turns, times), turns[n].drainAt, r, FirstHeard(turns, r));
    }
  }

  lemma NothingHeard(scoreFrom: nat, times: Times, r: nat)
    ensures TracksSince(RunAll(scoreFrom, [], times).d, r, None)
  {
  }

  /** The round has had no outcome before the last turn, and none dropped it. */
  ghost predicate Undecided(scoreFrom: nat, turns: seq<Turn>, times: Times, r: nat)
    requires turns != []
  {
    var before := turns[..|turns| - 1];
    RunAll(scoreFrom, before, times).outcomes[r] == 0 && !Dropped(scoreFrom, before, times, r)
  }

  /** The run first heard of the round more than INCOMPLETE_DEADLINE before the last drain. */
  predicate HeardLate(turns: seq<Turn>, r: nat)
    requires turns != []
  {
    FirstHeard(turns, r).Some? && turns[|turns| - 1].drainAt > FirstHeard(turns, r).value + INCOMPLETE_DEADLINE
  }

  /** Every bundle the feed last named for the round is on record. */
  predicate AllRecorded(turns: seq<Turn>, r: nat)
    requires LastFeed(turns, r).Some?
  {
    forall s <- LastFeed(turns, r).value :: Recorded(turns, s).Some?
  }

  /** What the last drain says of a scored round that is not behind the horizon, from the turns of the run
      alone. */
  lemma JudgedAsTold(scoreFrom: nat, turns: seq<Turn>, times: Times, r: nat)
    requires turns != [] && r + ROUND_RETAIN >= Newest(turns) && times(r) >= scoreFrom
    ensures var v, ordering, feed := VerdictOf(scoreFrom, turns, times, r), FirstOrdering(turns, r), LastFeed(turns, r);
            var open, late := Undecided(scoreFrom, turns, times, r), HeardLate(turns, r);
            && (v.Sample? <==> open && ordering.Some? && feed.Some? && AllRecorded(turns, r))
            && (v.NoOrdering? <==> open && late && ordering.None? && feed.Some?)
            && (v.MissingBundle? <==> open && late && ordering.Some? && feed.Some? && !AllRecorded(turns, r))
            && (v.Lapsed? <==> open && late && feed.None?)
  {
    hide RunAll, Input, VerdictOn, Recorded, Surviving, FirstOrdering, LastFeed, FirstHeard, Dropped, Newest, RoundOk,
      Unnamed, Whole, OrderingLost, BundleLost;
    var d := Judging(scoreFrom, turns, times);
    JudgingIsTold(scoreFrom, turns, times, r);
    if LastFeed(turns, r).Some? {
      forall s <- LastFeed(turns, r).value
        ensures s in d.bundles <==> Recorded(turns, s).Some?
      {
        BundlesAre(scoreFrom, turns, times, s);
      }
    }
    if r in d.rounds {
      VerdictIff(d, r, turns[|turns| - 1].drainAt);
      DeskSays(d, r, turns[|turns| - 1].drainAt);
    }
  }

  lemma DeskSays(d: Desk, r: nat, now: Time)
    requires r in d.rounds
    ensures var t := d.rounds[r];
            var late := t.firstSeen.Some? && now > t.firstSeen.value + INCOMPLETE_DEADLINE;
            && (Whole(d, r) <==> !t.reported && t.ordering.Some? && t.reference.Some?
                                 && forall s <- t.reference.value.sigs :: s in d.bundles)
            && (OrderingLost(d, r, now) <==> !t.reported && late && t.ordering.None? && t.reference.Some?)
            && (BundleLost(d, r, now) <==> !t.reported && late && t.ordering.Some? && t.reference.Some?
                                           && exists s <- t.reference.value.sigs :: s !in d.bundles)
            && (Unnamed(d, r, now) <==> !t.reported && late && t.reference.None?)
  {
  }

  /** The entry the last drain judges is what the turns say of the round. */
  lemma JudgingIsTold(scoreFrom: nat, turns: seq<Turn>, times: Times, r: nat)
    requires turns != [] && r + ROUND_RETAIN >= Newest(turns) && times(r) >= scoreFrom
    ensures var d := Judging(scoreFrom, turns, times);
            && TracksSince(d, r, FirstHeard(turns, r))
            && IsLogged(TrackedAt(d, r), FirstOrdering(turns, r), LastFeed(turns, r), times(r))
            && (TrackedAt(d, r).reported <==> !Undecided(scoreFrom, turns, times, r))
  {
    hide Input, Step, TracksSince, IsLogged, Dropped, RoundOk, Accounted;
    var n := |turns| - 1;
    var t := RunAll(scoreFrom, turns[..n], times);
    NewestIs(scoreFrom, turns[..n], times);
    RunKeeps(scoreFrom, turns[..n], times, r);
    TracksSinceHeard(scoreFrom, turns[..n], times, r);
    InputHeard(t.d, turns[n], times, r, FirstHeard(turns[..n], r));
    TrackedIs(scoreFrom, turns[..n], times, r);
    InputLogged(t.d, turns[n], times, r, FirstOrdering(turns[..n], r), LastFeed(turns[..n], r));
    RunAccounts(scoreFrom, turns[..n], times, r);
    InputMarks(t.d, turns[n], times, r);
    MarkedIff(t, Dropped(scoreFrom, turns[..n], times, r), r);
  }

  lemma MarkedIff(t: Tally, dropped: bool, r: nat)
    requires Accounted(t, dropped, r)
    ensures r in t.d.rounds && t.d.rounds[r].reported <==> t.outcomes[r] != 0 || dropped
  {
  }
}
