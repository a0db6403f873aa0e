/** The decoded-stream join of `src/peering.rs`: the co-located node's block lines against the reference
    feed. Two sorted hash lists are equal exactly when their multisets are, so hashes are multisets. */
module DecodedAssembly {
  import opened Common
  import opened AssemblySpec

  datatype Line = Line(arrival: Arrival, hashes: multiset<Sig>)

  datatype Chain = Chain(timeMs: nat, hashes: multiset<Sig>)

  datatype Decoded = Decoded(line: Option<Line>, reference: Option<Chain>, firstSeen: Option<Time>, reported: bool)

  const UNKNOWN: Decoded := Decoded(None, None, None, false)

  datatype Board = Board(rounds: map<nat, Decoded>, maxRef: nat)

  function DecodedAt(b: Board, round: nat): Decoded {
    if round in b.rounds then b.rounds[round] else UNKNOWN
  }

  predicate Near(b: Board, round: nat) {
    b.maxRef != 0 && Max(round, b.maxRef) - Min(round, b.maxRef) <= ROUND_WINDOW
  }

  /** A `block` or `block_patch` line; only the first complete one with readable hashes is kept. */
  function AfterLine(b: Board, round: nat, complete: bool, hashes: Option<multiset<Sig>>, a: Arrival): Board {
    if !Near(b, round) then b
    else
      var t := DecodedAt(b, round);
      var seen := t.(firstSeen := FirstOf(t.firstSeen, a.at));
      b.(rounds := b.rounds[round := if !complete || t.line.Some? || hashes.None? then seen
                                     else seen.(line := Some(Line(a, hashes.value)))])
  }

  function AfterReference(b: Board, round: nat, chain: Chain, now: Time): Board {
    var t := DecodedAt(b, round);
    Board(b.rounds[round := t.(firstSeen := FirstOf(t.firstSeen, now), reference := Some(chain))], Max(b.maxRef, round))
  }

  datatype Closing = Open | Ready(a: Arrival, timeMs: nat) | Gap

  predicate Late(t: Decoded, now: Time) {
    t.firstSeen.Some? && Since(now, t.firstSeen.value) > INCOMPLETE_DEADLINE
  }

  function Close(t: Decoded, now: Time): Closing {
    if t.reported then Open
    else if t.line.Some? && t.reference.Some? then
      if t.line.value.hashes == t.reference.value.hashes then Ready(t.line.value.arrival, t.reference.value.timeMs)
        else Gap
    else if Late(t, now) then Gap
    else Open
  }

  function AfterDrain(b: Board, now: Time): Board {
    b.(rounds := map r | r in b.rounds && r >= Floor(b.maxRef) ::
         Closed(b.rounds[r], now))
  }

  function Closed(t: Decoded, now: Time): Decoded {
    if Close(t, now).Open? then t else t.(reported := true)
  }

  ghost function Outcomes(b: Board, now: Time): set<nat> {
    set r | r in b.rounds && !Close(b.rounds[r], now).Open?
  }

  // ---------- runs ----------

  datatype Turn =
    | LineTurn(round: nat, complete: bool, hashes: Option<multiset<Sig>>, a: Arrival, drainAt: Time)
    | FeedTurn(round: nat, chain: Chain, now: Time, drainAt: Time)
    | QuietTurn(drainAt: Time)

  function Input(b: Board, turn: Turn): Board {
    match turn
    case LineTurn(round, complete, hashes, a, _) => AfterLine(b, round, complete, hashes, a)
    case FeedTurn(round, chain, now, _) => AfterReference(b, round, chain, now)
    case QuietTurn(_) => b
  }

  /** A turn names a round behind the horizon, and the drain after it comes only when its own deadline
      is over. */
  predicate StallsOn(b: Board, turn: Turn, r: nat) {
    match turn
    case LineTurn(round, _, _, a, drainAt) =>
      round == r && r < Floor(b.maxRef) && Near(b, r) && Since(drainAt, a.at) > INCOMPLETE_DEADLINE
    case FeedTurn(round, _, now, drainAt) => round == r && r < Floor(b.maxRef)
        && Since(drainAt, now) > INCOMPLETE_DEADLINE
    case QuietTurn(_) => false
  }

  datatype Tally = Tally(b: Board, outcomes: multiset<nat>)

  ghost function Step(t: Tally, turn: Turn): Tally {
    var b := Input(t.b, turn);
    Tally(AfterDrain(b, turn.drainAt), t.outcomes + multiset(Outcomes(b, turn.drainAt)))
  }

  ghost function RunAll(turns: seq<Turn>): Tally
    decreases |turns|
  {
    if turns == [] then Tally(Board(map[], 0), multiset{}) else Step(RunAll(turns[..|turns| - 1]), turns[|turns| - 1])
  }

  /** Some turn stalled on `r` after `r` had closed. */
  ghost predicate StalledAgain(turns: seq<Turn>, r: nat) {
    exists n :: StallsAt(turns, r, n)
  }

  ghost predicate StallsAt(turns: seq<Turn>, r: nat, n: int) {
    && 0 <= n < |turns|
    && var t := RunAll(turns[..n]);
       t.outcomes[r] >= 1 && StallsOn(t.b, turns[n], r)
  }

  /** A decided round is still tracked as reported, or is behind the horizon and no longer tracked. */
  ghost predicate RoundOk(t: Tally, r: nat) {
    && (r in t.b.rounds ==> r >= Floor(t.b.maxRef))
    && (t.outcomes[r] >= 1 ==> r < Floor(t.b.maxRef) || (r in t.b.rounds && t.b.rounds[r].reported))
  }

  lemma StepRound(t: Tally, turn: Turn, r: nat)
    requires RoundOk(t, r)
    ensures RoundOk(Step(t, turn), r)
    ensures t.outcomes[r] <= Step(t, turn).outcomes[r] <= t.outcomes[r] + 1
    ensures t.outcomes[r] >= 1 ==> (Step(t, turn).outcomes[r] == t.outcomes[r] + 1 <==> StallsOn(t.b, turn, r))
  {
    var b := Input(t.b, turn);
    var decided: multiset<nat> := multiset(Outcomes(b, turn.drainAt));
    assert decided[r] == if r in b.rounds && !Close(b.rounds[r], turn.drainAt).Open? then 1 else 0;
    if r in t.b.rounds {
      KeepsReported(t.b, turn, r);
    } else {
      NewlySeen(t.b, turn, r);
    }
  }

  lemma KeepsReported(b: Board, turn: Turn, r: nat)
    requires r in b.rounds
    ensures r in Input(b, turn).rounds && Input(b, turn).rounds[r].reported == b.rounds[r].reported
    ensures Input(b, turn).maxRef >= b.maxRef
  {
  }

  lemma NewlySeen(b: Board, turn: Turn, r: nat)
    requires r !in b.rounds
    ensures var after := Input(b, turn);
            && after.maxRef >= b.maxRef
            && (r in after.rounds ==>
                  && !after.rounds[r].reported && !(after.rounds[r].line.Some? && after.rounds[r].reference.Some?)
                  && (r < Floor(b.maxRef) ==> (Late(after.rounds[r], turn.drainAt) <==> StallsOn(b, turn, r))))
            && (StallsOn(b, turn, r) ==> r in after.rounds)
  {
  }

  lemma {:induction false} RunKeeps(turns: seq<Turn>, r: nat)
    ensures RoundOk(RunAll(turns), r)
    decreases |turns|
  {
    if turns != [] {
      hide RoundOk, Step, StallsOn;
      var n := |turns| - 1;
      RunKeeps(turns[..n], r);
      StepRound(RunAll(turns[..n]), turns[n], r);
    }
  }

  /** After any run at all, a round that has closed closes again exactly when a turn stalls on it. */
  lemma ClosesAgainIffStalled(turns: seq<Turn>, turn: Turn, r: nat)
    requires RunAll(turns).outcomes[r] >= 1
    ensures RunAll(turns + [turn]).outcomes[r]
            == RunAll(turns).outcomes[r] + if StallsOn(RunAll(turns).b, turn, r) then 1 else 0
  {
    hide Step, StallsOn, RoundOk;
    assert (turns + [turn])[..|turns|] == turns;
    assert RunAll(turns + [turn]) == Step(RunAll(turns), turn);
    RunKeeps(turns, r);
    StepRound(RunAll(turns), turn, r);
  }

  /** Over every run, a round closes at most once if and only if no turn stalled on it after it had
      closed, whatever happened to other rounds. */
  lemma {:induction false} ClosesOnce(turns: seq<Turn>, r: nat)
    ensures RunAll(turns).outcomes[r] <= 1 <==> !StalledAgain(turns, r)
    decreases |turns|
  {
    hide Step, StallsOn, RoundOk, StallsAt;
    if turns == [] {
      NoTurns(r);
    } else {
      var n := |turns| - 1;
      ClosesOnce(turns[..n], r);
      RunKeeps(turns[..n], r);
      StepRound(RunAll(turns[..n]), turns[n], r);
      StalledLater(turns, r);
    }
  }

  lemma NoTurns(r: nat)
    ensures !StalledAgain([], r)
  {
  }

  lemma StalledLater(turns: seq<Turn>, r: nat)
    requires turns != []
    ensures var n := |turns| - 1;
            var t := RunAll(turns[..n]);
            StalledAgain(turns, r)
            <==> StalledAgain(turns[..n], r) || (t.outcomes[r] >= 1 && StallsOn(t.b, turns[n], r))
  {
    hide StallsOn, RunAll;
    var last := |turns| - 1;
    forall n
      ensures StallsAt(turns, r, n) <==> StallsAt(turns[..last], r, n) || (n == last && StallsAt(turns, r, n))
    {
      if 0 <= n < last {
        assert turns[..last][..n] == turns[..n] && turns[..last][n] == turns[n];
      }
    }
    assert StallsAt(turns, r, last)
           <==> var t := RunAll(turns[..last]); t.outcomes[r] >= 1 && StallsOn(t.b, turns[last], r);
  }

  // ---------- the assembly as the source has it ----------

  /** The rounds of `order` that close with verdict `Gap`. */
  ghost function GapsIn(b: Board, now: Time, order: seq<nat>): set<nat>
    requires forall r <- order :: r in b.rounds
  {
    set r | r in order && Close(b.rounds[r], now).Gap?
  }

  // the rounds and the ready ones once those of `done` have been closed
  ghost function RoundsAfter(b: Board, now: Time, done: seq<nat>): map<nat, Decoded> {
    map r | r in b.rounds :: if r in done then Closed(b.rounds[r], now) else b.rounds[r]
  }

  ghost function ReadyAfter(b: Board, now: Time, done: seq<nat>): map<nat, Closing> {
    map r | r in b.rounds && r in done && Close(b.rounds[r], now).Ready? :: Close(b.rounds[r], now)
  }

  lemma NoneClosed(b: Board, now: Time, order: seq<nat>)
    requires forall r <- order :: r in b.rounds
    ensures order[..0] == [] && |GapsIn(b, now, order[..0])| == 0
    ensures RoundsAfter(b, now, order[..0]) == b.rounds && ReadyAfter(b, now, order[..0]) == map[]
  {
    assert GapsIn(b, now, order[..0]) == {};
  }

  lemma CloseStep(b: Board, now: Time, done: seq<nat>, r: nat)
    requires r in b.rounds && r !in done
    ensures r in RoundsAfter(b, now, done) && RoundsAfter(b, now, done)[r] == b.rounds[r]
    ensures RoundsAfter(b, now, done + [r]) == RoundsAfter(b, now, done)[r := Closed(b.rounds[r], now)]
    ensures ReadyAfter(b, now, done + [r])
            == if Close(b.rounds[r], now).Ready? then ReadyAfter(b, now, done)[r := Close(b.rounds[r], now)]
               else ReadyAfter(b, now, done)
  {
    hide Close, Closed;
  }

  lemma AllClosed(b: Board, now: Time, order: seq<nat>)
    requires forall r :: r in order <==> r in b.rounds
    ensures RoundsAfter(b, now, order) == map r | r in b.rounds :: Closed(b.rounds[r], now)
    ensures ReadyAfter(b, now, order) == map r | r in b.rounds && Close(b.rounds[r], now).Ready? ::
            Close(b.rounds[r], now)
  {
    hide Close, Closed;
  }

  lemma GapStep(b: Board, now: Time, order: seq<nat>, n: nat)
    requires n < |order| && (forall r <- order :: r in b.rounds)
    requires Distinct(order)
    ensures order[n] in order && order[n] !in order[..n] && order[..n + 1] == order[..n] + [order[n]]
    ensures |GapsIn(b, now, order[..n + 1])|
            == |GapsIn(b, now, order[..n])| + if Close(b.rounds[order[n]], now).Gap? then 1 else 0
  {
    hide Close;
    assert order[..n + 1] == order[..n] + [order[n]];
    var it: set<nat> := if Close(b.rounds[order[n]], now).Gap? then {order[n]} else {};
    assert GapsIn(b, now, order[..n + 1]) == GapsIn(b, now, order[..n]) + it;
  }

  /** Both blocks are here and are the same. */
  predicate Matches(t: Decoded) {
    !t.reported && t.line.Some? && t.reference.Some? && t.line.value.hashes == t.reference.value.hashes
  }

  /** Both are here and differ, or one is missing and the round was first heard of more than
      INCOMPLETE_DEADLINE ago. */
  predicate Fails(t: Decoded, now: Time) {
    && !t.reported
    && if t.line.Some? && t.reference.Some? then t.line.value.hashes != t.reference.value.hashes
       else t.firstSeen.Some? && now > t.firstSeen.value + INCOMPLETE_DEADLINE
  }

  lemma CloseIff(t: Decoded, now: Time)
    ensures Close(t, now).Ready? <==> Matches(t)
    ensures Matches(t) ==> Close(t, now) == Ready(t.line.value.arrival, t.reference.value.timeMs)
    ensures Close(t, now).Gap? <==> Fails(t, now)
  {
  }

  lemma AllClose(b: Board, now: Time)
    ensures forall r <- b.rounds :: Close(b.rounds[r], now).Ready? <==> Matches(b.rounds[r])
    ensures forall r <- b.rounds :: Matches(b.rounds[r]) ==>
              Close(b.rounds[r], now) == Ready(b.rounds[r].line.value.arrival, b.rounds[r].reference.value.timeMs)
    ensures (set r | r in b.rounds && Close(b.rounds[r], now).Gap?) == set r | r in b.rounds && Fails(b.rounds[r], now)
  {
    hide Close, Fails;
    forall r <- b.rounds
      ensures Close(b.rounds[r], now).Ready? <==> Matches(b.rounds[r])
      ensures Matches(b.rounds[r]) ==>
                Close(b.rounds[r], now) == Ready(b.rounds[r].line.value.arrival, b.rounds[r].reference.value.timeMs)
      ensures Close(b.rounds[r], now).Gap? <==> Fails(b.rounds[r], now)
    {
      CloseIff(b.rounds[r], now);
    }
  }

  class DecodedRounds {
    var rounds: map<nat, Decoded>
    var maxRef: nat

    ghost function State(): Board
      reads this
    {
      Board(rounds, maxRef)
    }

    constructor ()
      ensures State() == Board(map[], 0)
    {
      rounds, maxRef := map[], 0;
    }

    method TrackLine(round: nat, complete: bool, hashes: Option<multiset<Sig>>, a: Arrival)
      modifies `rounds
      ensures State() == AfterLine(old(State()), round, complete, hashes, a)
    {
      if maxRef == 0 || Max(round, maxRef) - Min(round, maxRef) > ROUND_WINDOW {
        return;
      }
      var entry := if round in rounds then rounds[round] else UNKNOWN;
      if entry.firstSeen.None? {
        entry := entry.(firstSeen := Some(a.at));
      }
      if complete && entry.line.None? && hashes.Some? {
        entry := entry.(line := Some(Line(a, hashes.value)));
      }
      rounds := rounds[round := entry];
    }

    method TrackReference(round: nat, chain: Chain, now: Time)
      modifies `rounds, `maxRef
      ensures State() == AfterReference(old(State()), round, chain, now)
    {
      maxRef := Max(maxRef, round);
      var entry := if round in rounds then rounds[round] else UNKNOWN;
      if entry.firstSeen.None? {
        entry := entry.(firstSeen := Some(now));
      }
      rounds := rounds[round := entry.(reference := Some(chain))];
    }

    /** Every undecided round whose block is here from both sides is sampled, with the node's arrival and
        the chain's time, if the bundles are the same, and is a gap if they are not; one that is not is a
        gap once its deadline is past. */
    method DrainReady(now: Time) returns (ready: map<nat, Closing>, gaps: nat)
      modifies `rounds
      ensures State() == AfterDrain(old(State()), now)
      ensures ready.Keys == set r | r in old(rounds) && Matches(old(rounds)[r])
      ensures forall r <- ready :: r in old(rounds) && Matches(old(rounds)[r])
                && ready[r] == Ready(old(rounds)[r].line.value.arrival, old(rounds)[r].reference.value.timeMs)
      ensures gaps == |set r | r in old(rounds) && Fails(old(rounds)[r], now)|
    {
      hide Close, Fails;
      ghost var b := State();
      var order := Listed(rounds.Keys);
      ready, gaps := CloseAll(order, now);
      assert GapsIn(b, now, order) == set r | r in b.rounds && Close(b.rounds[r], now).Gap?;
      AllClose(b, now);
      var floor := Since(maxRef, ROUND_RETAIN);
      rounds := map r | r in rounds && r >= floor :: rounds[r];
    }

    method CloseAll(order: seq<nat>, now: Time) returns (ready: map<nat, Closing>, gaps: nat)
      requires Distinct(order)
      requires forall r :: r in order <==> r in rounds
      modifies `rounds
      ensures rounds == map r | r in old(rounds) :: Closed(old(rounds)[r], now)
      ensures ready == map r | r in old(rounds) && Close(old(rounds)[r], now).Ready? :: Close(old(rounds)[r], now)
      ensures gaps == |GapsIn(old(State()), now, order)|
    {
      hide Close, GapsIn, Closed, RoundsAfter, ReadyAfter;
      ghost var b := State();
      ready, gaps := map[], 0;
      NoneClosed(b, now, order);
      for n := 0 to |order|
        invariant rounds == RoundsAfter(b, now, order[..n])
        invariant ready == ReadyAfter(b, now, order[..n])
        invariant gaps == |GapsIn(b, now, order[..n])|
      {
        var r := order[n];
        GapStep(b, now, order, n);
        CloseStep(b, now, order[..n], r);
        var v := CloseOne(r, now);
        if v.Ready? {
          ready := ready[r := v];
        }
        if v.Gap? {
          gaps := gaps + 1;
        }
      }
      assert order[..|order|] == order;
      AllClosed(b, now, order);
    }

    method CloseOne(r: nat, now: Time) returns (v: Closing)
      requires r in rounds
      modifies `rounds
      ensures v == Close(old(rounds)[r], now) && rounds == old(rounds)[r := Closed(old(rounds)[r], now)]
    {
      var tracked := rounds[r];
      v := Open;
      if !tracked.reported {
        if tracked.line.Some? && tracked.reference.Some? {
          v := if tracked.line.value.hashes == tracked.reference.value.hashes
               then Ready(tracked.line.value.arrival, tracked.reference.value.timeMs) else Gap;
        } else if Late(tracked, now) {
          v := Gap;
        }
      }
      rounds := rounds[r := if v.Open? then tracked else tracked.(reported := true)];
    }
  }
}
