/** Which decoded rounds are sampled and which are gaps, told from the lines and feed turns of a run. */
module DecodedOutcomes {
  import opened Common
  import opened AssemblySpec
  import opened DecodedAssembly

  // ---------- what a run has said of a round ----------

  /** The highest round the feed has named. */
  function Horizon(turns: seq<Turn>): nat
    decreases |turns|
  {
    if turns == [] then 0
    else
      var h, last := Horizon(turns[..|turns| - 1]), turns[|turns| - 1];
      if last.FeedTurn? then Max(h, last.round) else h
  }

  /** A line for `r` is believed: the feed has named a round no more than ROUND_WINDOW away. */
  predicate Believed(turns: seq<Turn>, r: nat) {
    Horizon(turns) != 0 && r <= Horizon(turns) + ROUND_WINDOW && Horizon(turns) <= r + ROUND_WINDOW
  }

  /** When the run first heard of `r`, from a believed line or from the feed. */
  function FirstHeard(turns: seq<Turn>, r: nat): Option<Time>
    decreases |turns|
  {
    if turns == [] then None
    else
      var earlier, last := turns[..|turns| - 1], turns[|turns| - 1];
      match last
      case LineTurn(round, _, _, a, _) =>
        if round == r && Believed(earlier, r) then FirstOf(FirstHeard(earlier, r), a.at) else FirstHeard(earlier, r)
      case FeedTurn(round, _, now, _) =>
        if round == r then FirstOf(FirstHeard(earlier, r), now) else FirstHeard(earlier, r)
      case QuietTurn(_) => FirstHeard(earlier, r)
  }

  /** The first believed line that has the whole block of `r`. */
  function FirstBlock(turns: seq<Turn>, r: nat): Option<Line>
    decreases |turns|
  {
    if turns == [] then None
    else
      var earlier, last := turns[..|turns| - 1], turns[|turns| - 1];
      if last.LineTurn? && last.round == r && last.complete && last.hashes.Some? && Believed(earlier, r) then
        FirstOf(FirstBlock(earlier, r), Line(last.a, last.hashes.value))
      else FirstBlock(earlier, r)
  }

  /** What the feed last said of `r`. */
  function LastChain(turns: seq<Turn>, r: nat): Option<Chain>
    decreases |turns|
  {
    if turns == [] then None
    else
      var earlier, last := turns[..|turns| - 1], turns[|turns| - 1];
      if last.FeedTurn? && last.round == r then Some(last.chain) else LastChain(earlier, r)
  }

  // ---------- the assembly keeps just that ----------

  ghost predicate Mirrors(b: Board, turns: seq<Turn>, r: nat) {
    && b.maxRef == Horizon(turns)
    && (r >= Floor(b.maxRef) ==>
          && (r in b.rounds <==> FirstHeard(turns, r).Some?)
          && var t := DecodedAt(b, r);
             t.line == FirstBlock(turns, r) && t.reference == LastChain(turns, r)
             && t.firstSeen == FirstHeard(turns, r))
  }

  /** A round not behind the horizon is marked just when it has had its one outcome. */
  ghost predicate Marked(t: Tally, r: nat) {
    r >= Floor(t.b.maxRef) ==>
      t.outcomes[r] == if r in t.b.rounds && t.b.rounds[r].reported then 1 else 0
  }

  lemma InputMirrors(b: Board, turns: seq<Turn>, turn: Turn, r: nat)
    requires Mirrors(b, turns, r)
    ensures Mirrors(Input(b, turn), turns + [turn], r)
    ensures Input(b, turn).maxRef >= b.maxRef
    ensures r in b.rounds ==> r in Input(b, turn).rounds && Input(b, turn).rounds[r].reported == b.rounds[r].reported
    ensures r !in b.rounds && r in Input(b, turn).rounds ==> !Input(b, turn).rounds[r].reported
  {
    assert (turns + [turn])[..|turns|] == turns;
    assert Near(b, r) <==> Believed(turns, r);
  }

  lemma DrainMirrors(b: Board, turns: seq<Turn>, now: Time, r: nat)
    requires Mirrors(b, turns, r)
    ensures Mirrors(AfterDrain(b, now), turns, r)
  {
    hide Close, Horizon, FirstHeard, FirstBlock, LastChain;
  }

  lemma StepMarks(t: Tally, turn: Turn, r: nat)
    requires Marked(t, r) && RoundOk(t, r)
    requires r in t.b.rounds ==> r in Input(t.b, turn).rounds
                                 && Input(t.b, turn).rounds[r].reported == t.b.rounds[r].reported
    requires r !in t.b.rounds && r in Input(t.b, turn).rounds ==> !Input(t.b, turn).rounds[r].reported
    requires Input(t.b, turn).maxRef >= t.b.maxRef
    ensures Marked(Step(t, turn), r)
  {
    hide Input;
    var b := Input(t.b, turn);
    var decided: multiset<nat> := multiset(Outcomes(b, turn.drainAt));
    assert decided[r] == if r in b.rounds && !Close(b.rounds[r], turn.drainAt).Open? then 1 else 0;
  }

  lemma {:induction false} RunMirrors(turns: seq<Turn>, r: nat)
    ensures Mirrors(RunAll(turns).b, turns, r) && Marked(RunAll(turns), r)
    decreases |turns|
  {
    hide Mirrors, Marked, Step, RoundOk, Input;
    if turns == [] {
      NothingSaid(r);
    } else {
      var n := |turns| - 1;
      var t := RunAll(turns[..n]);
      RunMirrors(turns[..n], r);
      RunKeeps(turns[..n], r);
      InputMirrors(t.b, turns[..n], turns[n], r);
      assert turns[..n] + [turns[n]] == turns;
      StepMarks(t, turns[n], r);
      DrainMirrors(Input(t.b, turns[n]), turns, turns[n].drainAt, r);
      StepIs(t, turns[n]);
    }
  }

  lemma StepIs(t: Tally, turn: Turn)
    ensures Step(t, turn).b == AfterDrain(Input(t.b, turn), turn.drainAt)
  {
  }

  lemma NothingSaid(r: nat)
    ensures Mirrors(RunAll([]).b, [], r) && Marked(RunAll([]), r)
  {
  }

  // ---------- samples and gaps ----------

  /** What the drain of the last turn makes of `r`. */
  ghost function LastClosing(turns: seq<Turn>, r: nat): Closing
    requires turns != []
  {
    var n := |turns| - 1;
    var b := Input(RunAll(turns[..n]).b, turns[n]);
    if r in b.rounds then Close(b.rounds[r], turns[n].drainAt) else Open
  }

  /** A round not behind the horizon is sampled by a turn if and only if it had no outcome before and the
      first whole block the node sent is the one the feed named; its receipt is that block's arrival and
      its time the feed's. It is a gap if and only if it had none before and the two blocks differ, or one
      of them is missing and the run heard of the round more than INCOMPLETE_DEADLINE before the drain. */
  lemma ClosesAsTold(turns: seq<Turn>, r: nat)
    requires turns != [] && r + ROUND_RETAIN >= Horizon(turns)
    ensures var n := |turns| - 1;
            var line, chain, heard := FirstBlock(turns, r), LastChain(turns, r), FirstHeard(turns, r);
            var undecided := RunAll(turns[..n]).outcomes[r] == 0;
            var v := LastClosing(turns, r);
            && (v.Ready? <==> undecided && line.Some? && chain.Some? && line.value.hashes == chain.value.hashes)
            && (v.Ready? ==> v == Ready(line.value.arrival, chain.value.timeMs))
            && (v.Gap? <==> undecided && if line.Some? && chain.Some? then line.value.hashes != chain.value.hashes
                                         else heard.Some? && turns[n].drainAt > heard.value + INCOMPLETE_DEADLINE)
  {
    hide Input, RunAll, Horizon, FirstBlock, LastChain, FirstHeard, Close;
    var n := |turns| - 1;
    var t := RunAll(turns[..n]);
    RunMirrors(turns[..n], r);
    InputMirrors(t.b, turns[..n], turns[n], r);
    assert turns[..n] + [turns[n]] == turns;
    var b := Input(t.b, turns[n]);
    if r in b.rounds {
      CloseIff(b.rounds[r], turns[n].drainAt);
    } else {
      NotHeard(turns, r);
    }
  }

  lemma {:induction false} NotHeard(turns: seq<Turn>, r: nat)
    ensures FirstHeard(turns, r).None? ==> FirstBlock(turns, r).None? && LastChain(turns, r).None?
    decreases |turns|
  {
    if turns != [] {
      NotHeard(turns[..|turns| - 1], r);
    }
  }
}
