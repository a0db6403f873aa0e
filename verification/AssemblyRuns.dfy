/** Over a whole run each round has at most one outcome: one sample, or one gap, never both. */
module AssemblyRuns {
  import opened Common
  import opened AssemblySpec

  datatype WireItem =
    | OrderingOf(round: nat, a: Arrival)
    | BundleOf(sig: Sig, a: Arrival, seen: Time)

  /** One pass of the reader's loop: what came in, and the clock of the drain that follows it. The feed
      gives each round one time, `times`. */
  datatype Turn =
    | Wire(items: seq<WireItem>, drainAt: Time)
    | Feed(round: nat, sigs: seq<Sig>, now: Time, drainAt: Time)
    | Quiet(drainAt: Time)

  type Times = nat -> nat

  function Take(d: Desk, item: WireItem): Desk {
    match item
    case OrderingOf(round, a) => TrackOrdering(d, round, a)
    case BundleOf(sig, a, seen) => TrackBundle(d, sig, a, seen)
  }

  function TakeAll(d: Desk, items: seq<WireItem>): Desk
    decreases |items|
  {
    if items == [] then d else Take(TakeAll(d, items[..|items| - 1]), items[|items| - 1])
  }

  function Input(d: Desk, turn: Turn, times: Times): Desk {
    match turn
    case Wire(items, _) => TakeAll(d, items)
    case Feed(round, sigs, now, _) => TrackReference(d, round, Reference(times(round), sigs), now)
    case Quiet(_) => d
  }

  /** The feed names a round already behind the horizon again, and the drain after it comes only when
      that line's own deadline is over. */
  predicate StallsOn(d: Desk, turn: Turn, r: nat) {
    && turn.Feed? && turn.round == r && r < Floor(d.maxRef)
    && Since(turn.drainAt, turn.now) > INCOMPLETE_DEADLINE
  }

  /** The desk, and the rounds of all outcomes so far, each as often as it had one. */
  datatype Tally = Tally(d: Desk, outcomes: multiset<nat>)

  ghost function Decided(d: Desk, now: Time): set<nat> {
    set r | r in d.rounds && IsOutcome(VerdictOn(d, r, now))
  }

  ghost function Step(t: Tally, turn: Turn, times: Times): Tally {
    var d := Input(t.d, turn, times);
    Tally(Drain(d, turn.drainAt), t.outcomes + multiset(Decided(d, turn.drainAt)))
  }

  ghost function RunAll(scoreFrom: nat, turns: seq<Turn>, times: Times): Tally
    decreases |turns|
  {
    if turns == [] then Tally(Desk(map[], map[], 0, scoreFrom), multiset{})
    else Step(RunAll(scoreFrom, turns[..|turns| - 1], times), turns[|turns| - 1], times)
  }

  /** Some turn stalled on `r` after `r` had its outcome. */
  ghost predicate StalledAgain(scoreFrom: nat, turns: seq<Turn>, times: Times, r: nat) {
    exists n :: StallsAt(scoreFrom, turns, times, r, n)
  }

  ghost predicate StallsAt(scoreFrom: nat, turns: seq<Turn>, times: Times, r: nat, n: int) {
    && 0 <= n < |turns|
    && var t := RunAll(scoreFrom, turns[..n], times);
       t.outcomes[r] >= 1 && StallsOn(t.d, turns[n], r)
  }

  // ---------- the invariant of one round ----------

  /** What is tracked has a score-worthy reference if any; a decided round is still tracked as such, or
      has fallen behind the horizon for good. */
  ghost predicate RoundOk(t: Tally, times: Times, r: nat) {
    && (r in t.d.rounds ==> r >= Floor(t.d.maxRef))
    && (r in t.d.rounds && t.d.rounds[r].reference.Some? ==> times(r) >= t.d.scoreFrom)
    && (t.outcomes[r] >= 1 ==>
          && times(r) >= t.d.scoreFrom
          && (r < Floor(t.d.maxRef) || (r in t.d.rounds && t.d.rounds[r].reported)))
  }

  /** What an input may do to one round before the drain. */
  ghost predicate InputOk(d: Desk, after: Desk, turn: Turn, times: Times, r: nat) {
    && after.scoreFrom == d.scoreFrom && after.maxRef >= d.maxRef
    && (r in after.rounds && r !in d.rounds ==>
          && !after.rounds[r].reported
          && (after.rounds[r].reference.None?
              || (turn.Feed? && turn.round == r && after.rounds[r].ordering.None?
                  && after.rounds[r].firstSeen == Some(turn.now))))
    && (r in d.rounds && r in after.rounds ==> after.rounds[r].reported == d.rounds[r].reported)
    && (r in d.rounds && r !in after.rounds ==> times(r) < d.scoreFrom)
    && (r in after.rounds && after.rounds[r].reference.Some? ==>
          times(r) >= d.scoreFrom || (r in d.rounds && d.rounds[r].reference.Some?))
  }

  lemma {:induction false} TakeAllOk(d: Desk, items: seq<WireItem>, r: nat)
    ensures var after := TakeAll(d, items);
            && after.scoreFrom == d.scoreFrom && after.maxRef == d.maxRef
            && (r in d.rounds ==> r in after.rounds)
            && (r in after.rounds ==>
                  && after.rounds[r].reported == (r in d.rounds && d.rounds[r].reported)
                  && after.rounds[r].reference == (if r in d.rounds then d.rounds[r].reference else None))
    decreases |items|
  {
    if items != [] {
      TakeAllOk(d, items[..|items| - 1], r);
      TakeOk(TakeAll(d, items[..|items| - 1]), items[|items| - 1], r);
    }
  }

  lemma TakeOk(d: Desk, item: WireItem, r: nat)
    ensures var after := Take(d, item);
            && after.scoreFrom == d.scoreFrom && after.maxRef == d.maxRef
            && (r in d.rounds ==> r in after.rounds)
            && (r in after.rounds ==>
                  && after.rounds[r].reported == (r in d.rounds && d.rounds[r].reported)
                  && after.rounds[r].reference == (if r in d.rounds then d.rounds[r].reference else None))
  {
  }

  lemma InputKeeps(d: Desk, turn: Turn, times: Times, r: nat)
    ensures InputOk(d, Input(d, turn, times), turn, times, r)
  {
    if turn.Wire? {
      TakeAllOk(d, turn.items, r);
    }
  }

  /** Below the horizon an input decides nothing of its own, unless the drain after it stalls. */
  lemma BelowUndecided(t: Tally, turn: Turn, times: Times, r: nat)
    requires RoundOk(t, times, r) && r < Floor(t.d.maxRef) && times(r) >= t.d.scoreFrom
    ensures var d := Input(t.d, turn, times);
            r in d.rounds && IsOutcome(VerdictOn(d, r, turn.drainAt)) <==> StallsOn(t.d, turn, r)
  {
    if turn.Wire? {
      TakeAllOk(t.d, turn.items, r);
    }
  }

  lemma DrainAt(d: Desk, now: Time, r: nat)
    ensures var after := Drain(d, now);
            && after.maxRef == d.maxRef && after.scoreFrom == d.scoreFrom
            && (r in after.rounds <==> r in d.rounds && r >= Floor(d.maxRef))
            && (r in after.rounds ==>
                  && after.rounds[r].reference == d.rounds[r].reference
                  && after.rounds[r].ordering == d.rounds[r].ordering
                  && after.rounds[r].reported == (d.rounds[r].reported || !VerdictOn(d, r, now).Waiting?))
  {
    hide Judge;
  }

  lemma StepKeepsRound(t: Tally, turn: Turn, times: Times, r: nat)
    requires RoundOk(t, times, r)
    ensures RoundOk(Step(t, turn, times), times, r)
    ensures Step(t, turn, times).d.scoreFrom == t.d.scoreFrom
    ensures t.outcomes[r] <= Step(t, turn, times).outcomes[r] <= t.outcomes[r] + 1
    ensures t.outcomes[r] >= 1 ==>
              (Step(t, turn, times).outcomes[r] == t.outcomes[r] + 1 <==> StallsOn(t.d, turn, r))
  {
    hide Input, Drain, Judge, StallsOn;
    var d := Input(t.d, turn, times);
    InputKeeps(t.d, turn, times, r);
    DrainAt(d, turn.drainAt, r);
    if r < Floor(t.d.maxRef) && times(r) >= t.d.scoreFrom {
      BelowUndecided(t, turn, times, r);
    }
    StallsBelow(t.d, turn, r);
    var decided := Decided(d, turn.drainAt);
    var more: multiset<nat> := multiset(decided);
    assert more[r] == if r in decided then 1 else 0;
    if r in decided {
      OutcomeHasReference(d, r, turn.drainAt);
    }
  }

  lemma StallsBelow(d: Desk, turn: Turn, r: nat)
    ensures StallsOn(d, turn, r) ==> r < Floor(d.maxRef)
  {
  }

  lemma OutcomeHasReference(d: Desk, r: nat, now: Time)
    requires r in d.rounds && IsOutcome(VerdictOn(d, r, now))
    ensures d.rounds[r].reference.Some? && !d.rounds[r].reported
  {
  }

  lemma {:induction false} RunKeeps(scoreFrom: nat, turns: seq<Turn>, times: Times, r: nat)
    ensures RoundOk(RunAll(scoreFrom, turns, times), times, r)
    ensures RunAll(scoreFrom, turns, times).d.scoreFrom == scoreFrom
    decreases |turns|
  {
    hide Step;
    if turns != [] {
      hide RoundOk;
      var n := |turns| - 1;
      RunKeeps(scoreFrom, turns[..n], times, r);
      StepKeepsRound(RunAll(scoreFrom, turns[..n], times), turns[n], times, r);
    }
  }

  /** After any run at all: a round that has had an outcome gets another one from a turn when, and only
      when, that turn stalls on it. */
  lemma SecondOutcomeIffStalled(scoreFrom: nat, turns: seq<Turn>, times: Times, turn: Turn, r: nat)
    requires RunAll(scoreFrom, turns, times).outcomes[r] >= 1
    ensures var before, after := RunAll(scoreFrom, turns, times), RunAll(scoreFrom, turns + [turn], times);
            after.outcomes[r] == before.outcomes[r] + if StallsOn(before.d, turn, r) then 1 else 0
  {
    hide Step, StallsOn, RoundOk;
    var t := RunAll(scoreFrom, turns, times);
    assert (turns + [turn])[..|turns|] == turns;
    assert RunAll(scoreFrom, turns + [turn], times) == Step(t, turn, times);
    RunKeeps(scoreFrom, turns, times, r);
    StepKeepsRound(t, turn, times, r);
  }

  /** Over every run, with any pruning and re-serving of old rounds: a round has at most one outcome,
      sample or gap, if and only if no turn stalled on it after it had its outcome, whatever happened
      to other rounds. */
  lemma {:induction false} AtMostOneOutcome(scoreFrom: nat, turns: seq<Turn>, times: Times, r: nat)
    ensures RunAll(scoreFrom, turns, times).outcomes[r] <= 1 <==> !StalledAgain(scoreFrom, turns, times, r)
    decreases |turns|
  {
    hide Step, StallsOn, RoundOk, StallsAt;
    if turns == [] {
      NoTurns(scoreFrom, times, r);
    } else {
      var n := |turns| - 1;
      AtMostOneOutcome(scoreFrom, turns[..n], times, r);
      RunKeeps(scoreFrom, turns[..n], times, r);
      StepKeepsRound(RunAll(scoreFrom, turns[..n], times), turns[n], times, r);
      StalledLater(scoreFrom, turns, times, r);
    }
  }

  lemma NoTurns(scoreFrom: nat, times: Times, r: nat)
    ensures !StalledAgain(scoreFrom, [], times, r)
  {
  }

  lemma StalledLater(scoreFrom: nat, turns: seq<Turn>, times: Times, r: nat)
    requires turns != []
    ensures var n := |turns| - 1;
            var t := RunAll(scoreFrom, turns[..n], times);
            StalledAgain(scoreFrom, turns, times, r)
            <==> StalledAgain(scoreFrom, turns[..n], times, r) || (t.outcomes[r] >= 1 && StallsOn(t.d, turns[n], r))
  {
    hide StallsOn, RunAll;
    var last := |turns| - 1;
    forall n
      ensures StallsAt(scoreFrom, turns, times, r, n)
              <==> StallsAt(scoreFrom, turns[..last], times, r, n)
                   || (n == last && StallsAt(scoreFrom, turns, times, r, n))
    {
      if 0 <= n < last {
        assert turns[..last][..n] == turns[..n] && turns[..last][n] == turns[n];
      }
    }
    assert StallsAt(scoreFrom, turns, times, r, last)
           <==> var t := RunAll(scoreFrom, turns[..last], times); t.outcomes[r] >= 1 && StallsOn(t.d, turns[last], r);
  }

  const FIRST: Tracked := Tracked(None, Some(Reference(1, [])), Some(0), false)
  const LATER: Tracked := Tracked(None, Some(Reference(1, [])), Some(6000), false)

  lemma NamedFirst(times: Times)
    requires times(10) == 1
    ensures Step(Tally(Desk(map[], map[], 0, 0), multiset{}), Feed(10, [], 0, 0), times)
            == Tally(Desk(map[10 := FIRST], map[], 10, 0), multiset{})
  {
    var d := Desk(map[10 := FIRST], map[], 10, 0);
    assert Input(Desk(map[], map[], 0, 0), Feed(10, [], 0, 0), times) == d;
    assert VerdictOn(d, 10, 0).Waiting?;
    assert Drain(d, 0).rounds == d.rounds && Drain(d, 0).bundles == map[];
    assert Decided(d, 0) == {};
  }

  lemma ThenAGap(times: Times)
    ensures Step(Tally(Desk(map[10 := FIRST], map[], 10, 0), multiset{}), Quiet(6000), times)
            == Tally(Desk(map[10 := FIRST.(reported := true)], map[], 10, 0), multiset{10})
  {
    var d := Desk(map[10 := FIRST], map[], 10, 0);
    assert VerdictOn(d, 10, 6000).NoOrdering?;
    assert Drain(d, 6000).rounds == map[10 := FIRST.(reported := true)] && Drain(d, 6000).bundles == map[];
    assert Decided(d, 6000) == {10};
  }

  lemma ThenBehind(times: Times)
    requires times(5000) == 1
    ensures Step(Tally(Desk(map[10 := FIRST.(reported := true)], map[], 10, 0), multiset{10}),
                 Feed(5000, [], 6000, 6000), times)
            == Tally(Desk(map[5000 := LATER], map[], 5000, 0), multiset{10})
  {
    var was := Desk(map[10 := FIRST.(reported := true)], map[], 10, 0);
    var d := Desk(map[10 := FIRST.(reported := true), 5000 := LATER], map[], 5000, 0);
    assert Input(was, Feed(5000, [], 6000, 6000), times) == d;
    assert VerdictOn(d, 10, 6000).Waiting? && VerdictOn(d, 5000, 6000).Waiting?;
    assert Drain(d, 6000).rounds == map[5000 := LATER] && Drain(d, 6000).bundles == map[];
    assert Decided(d, 6000) == {};
  }

  /** Such a turn can happen: round 10 is counted as a gap, falls behind the horizon, and is named again
      by a feed line whose drain comes six seconds later. */
  lemma StalledDrainCountsTwice()
    ensures exists turns, times :: RunAll(0, turns, times).outcomes[10] == 2
  {
    hide Step, Drain, Input;
    var times: Times := r => 1;
    var a, b, c := Feed(10, [], 0, 0), Quiet(6000), Feed(5000, [], 6000, 6000);
    assert [a, b, c][..2] == [a, b] && [a, b][..1] == [a] && [a][..0] == [];
    NamedFirst(times);
    ThenAGap(times);
    ThenBehind(times);
    assert RunAll(0, [], times) == Tally(Desk(map[], map[], 0, 0), multiset{});
    assert RunAll(0, [a], times) == Step(RunAll(0, [], times), a, times);
    assert RunAll(0, [a, b], times) == Step(RunAll(0, [a], times), b, times);
    assert RunAll(0, [a, b, c], times) == Step(RunAll(0, [a, b], times), c, times);
    SecondOutcomeIffStalled(0, [a, b, c], times, Feed(10, [], 7000, 13000), 10);
  }

  /** Over every run, a round whose time is before the scoring horizon has no outcome at all. */
  lemma WarmupHasNoOutcome(scoreFrom: nat, turns: seq<Turn>, times: Times, r: nat)
    requires times(r) < scoreFrom
    ensures RunAll(scoreFrom, turns, times).outcomes[r] == 0
  {
    hide RunAll;
    RunKeeps(scoreFrom, turns, times, r);
  }

  // ---------- first arrivals ----------

  /** While a round or a bundle stays tracked, its first arrival stays. */
  lemma FirstArrivalsStay(t: Tally, turn: Turn, times: Times, r: nat, sig: Sig)
    ensures var d := Step(t, turn, times).d;
            && (r in t.d.rounds && r in d.rounds && t.d.rounds[r].ordering.Some? ==>
                  d.rounds[r].ordering == t.d.rounds[r].ordering)
            && (sig in t.d.bundles && sig in d.bundles ==> d.bundles[sig] == t.d.bundles[sig])
  {
    hide VerdictOn;
    if turn.Wire? {
      TakenStay(t.d, turn.items, r, sig);
    }
  }

  lemma {:induction false} TakenStay(d: Desk, items: seq<WireItem>, r: nat, sig: Sig)
    ensures var e := TakeAll(d, items);
            && (r in d.rounds ==>
                  r in e.rounds && (d.rounds[r].ordering.Some? ==> e.rounds[r].ordering == d.rounds[r].ordering))
            && (sig in d.bundles ==> sig in e.bundles && e.bundles[sig] == d.bundles[sig])
    decreases |items|
  {
    if items != [] {
      TakenStay(d, items[..|items| - 1], r, sig);
    }
  }
}
