/** Round assembly of `src/peering.rs` as functions: wire arrivals are joined with a reference feed that
    names each round and its bundles. */
module AssemblySpec {
  import opened Common

  const ROUND_WINDOW: nat := 5_000
  const ROUND_RETAIN: nat := 2_000
  const BUNDLE_RETAIN: nat := 120_000
  const INCOMPLETE_DEADLINE: nat := 5_000

  type Sig = string

  datatype Arrival = Arrival(at: Time, wall: nat)

  datatype Reference = Reference(timeMs: nat, sigs: seq<Sig>)

  datatype Tracked = Tracked(ordering: Option<Arrival>, reference: Option<Reference>, firstSeen: Option<Time>,
                             reported: bool)

  const UNTRACKED: Tracked := Tracked(None, None, None, false)

  /** A bundle's first recorded arrival, and when it was recorded. */
  datatype Bundle = Bundle(first: Arrival, seen: Time)

  datatype Desk = Desk(rounds: map<nat, Tracked>, bundles: map<Sig, Bundle>, maxRef: nat, scoreFrom: nat)

  function TrackedAt(d: Desk, round: nat): Tracked {
    if round in d.rounds then d.rounds[round] else UNTRACKED
  }

  function FirstOf<T>(o: Option<T>, x: T): Option<T> {
    if o.Some? then o else Some(x)
  }

  // ---------- inputs ----------

  predicate InWindow(d: Desk, round: nat) {
    d.maxRef != 0 && Max(round, d.maxRef) - Min(round, d.maxRef) <= ROUND_WINDOW
  }

  /** The first ordering copy wins. */
  function TrackOrdering(d: Desk, round: nat, a: Arrival): Desk {
    if !InWindow(d, round) then d
    else
      var t := TrackedAt(d, round);
      d.(rounds := d.rounds[round := t.(firstSeen := FirstOf(t.firstSeen, a.at), ordering := FirstOf(t.ordering, a))])
  }

  /** And the first copy of a bundle. */
  function TrackBundle(d: Desk, sig: Sig, a: Arrival, now: Time): Desk {
    if sig in d.bundles then d else d.(bundles := d.bundles[sig := Bundle(a, now)])
  }

  /** A reference line that names the round's time and every bundle. */
  function TrackReference(d: Desk, round: nat, reference: Reference, now: Time): Desk {
    var maxRef := Max(d.maxRef, round);
    if reference.timeMs < d.scoreFrom then d.(maxRef := maxRef, rounds := d.rounds - {round})
    else
      var t := TrackedAt(d, round);
      d.(maxRef := maxRef,
         rounds := d.rounds[round := t.(firstSeen := FirstOf(t.firstSeen, now), reference := Some(reference))])
  }

  // ---------- judging a round ----------

  predicate AllHere(sigs: seq<Sig>, bundles: map<Sig, Bundle>) {
    forall s <- sigs :: s in bundles
  }

  /** The later of the two; a tie keeps the first. */
  function Later(a: Arrival, b: Arrival): Arrival {
    if b.at > a.at then b else a
  }

  function Boundary(ordering: Arrival, sigs: seq<Sig>, bundles: map<Sig, Bundle>): Arrival
    requires AllHere(sigs, bundles)
    decreases |sigs|
  {
    if sigs == [] then ordering
    else Later(Boundary(ordering, sigs[..|sigs| - 1], bundles), bundles[sigs[|sigs| - 1]].first)
  }

  datatype Verdict = Waiting | Lapsed | Sample(a: Arrival, timeMs: nat) | NoOrdering | MissingBundle

  predicate Overdue(t: Tracked, now: Time) {
    t.firstSeen.Some? && Since(now, t.firstSeen.value) > INCOMPLETE_DEADLINE
  }

  /** What `drain_ready` decides about one round that has not been decided before. */
  function Judge(t: Tracked, bundles: map<Sig, Bundle>, now: Time): Verdict {
    if t.ordering.None? || t.reference.None? then
      if !Overdue(t, now) then Waiting else if t.reference.Some? then NoOrdering else Lapsed
    else if AllHere(t.reference.value.sigs, bundles) then
      Sample(Boundary(t.ordering.value, t.reference.value.sigs, bundles), t.reference.value.timeMs)
    else if Overdue(t, now) then MissingBundle
    else Waiting
  }

  function VerdictOn(d: Desk, round: nat, now: Time): Verdict
    requires round in d.rounds
  {
    if d.rounds[round].reported then Waiting else Judge(d.rounds[round], d.bundles, now)
  }

  predicate IsGap(v: Verdict) {
    v.NoOrdering? || v.MissingBundle?
  }

  predicate IsOutcome(v: Verdict) {
    v.Sample? || IsGap(v)
  }

  function Ready(d: Desk, now: Time): map<nat, Verdict> {
    map r | r in d.rounds && VerdictOn(d, r, now).Sample? :: VerdictOn(d, r, now)
  }

  function Gaps(d: Desk, now: Time): set<nat> {
    set r | r in d.rounds && IsGap(VerdictOn(d, r, now))
  }

  function Settled(t: Tracked, v: Verdict): Tracked {
    if v.Waiting? then t else t.(reported := true)
  }

  function Floor(maxRef: nat): nat {
    Since(maxRef, ROUND_RETAIN)
  }

  function Kept(d: Desk, now: Time): Desk {
    d.(rounds := map r | r in d.rounds && r >= Floor(d.maxRef) :: d.rounds[r],
       bundles := map s | s in d.bundles && Since(now, d.bundles[s].seen) < BUNDLE_RETAIN :: d.bundles[s])
  }

  function Judged(d: Desk, now: Time): Desk {
    d.(rounds := map r | r in d.rounds :: Settled(d.rounds[r], VerdictOn(d, r, now)))
  }

  function Drain(d: Desk, now: Time): Desk {
    Kept(Judged(d, now), now)
  }

  // ---------- what a drain decides, from the maps and the clock ----------

  /** The round was first heard of more than INCOMPLETE_DEADLINE ago. */
  predicate PastDeadline(t: Tracked, now: Time) {
    t.firstSeen.Some? && now > t.firstSeen.value + INCOMPLETE_DEADLINE
  }

  /** The chain produced the round and it has not been decided. */
  predicate Expected(t: Tracked) {
    t.reference.Some? && !t.reported
  }

  /** Everything the feed names is here. */
  predicate Whole(d: Desk, r: nat)
    requires r in d.rounds
  {
    var t := d.rounds[r];
    Expected(t) && t.ordering.Some? && forall s <- t.reference.value.sigs :: s in d.bundles
  }

  /** Past its deadline without an ordering. */
  predicate OrderingLost(d: Desk, r: nat, now: Time)
    requires r in d.rounds
  {
    var t := d.rounds[r];
    Expected(t) && PastDeadline(t, now) && t.ordering.None?
  }

  /** Past its deadline with an ordering but without some bundle the feed names. */
  predicate BundleLost(d: Desk, r: nat, now: Time)
    requires r in d.rounds
  {
    var t := d.rounds[r];
    Expected(t) && PastDeadline(t, now) && t.ordering.Some? && exists s <- t.reference.value.sigs :: s !in d.bundles
  }

  /** Past its deadline and never named: not a round the chain is known to have produced. */
  predicate Unnamed(d: Desk, r: nat, now: Time)
    requires r in d.rounds
  {
    var t := d.rounds[r];
    !t.reported && PastDeadline(t, now) && t.reference.None?
  }

  ghost function WholeRounds(d: Desk): set<nat> {
    set r | r in d.rounds && Whole(d, r)
  }

  ghost function OrderingLosses(d: Desk, now: Time): set<nat> {
    set r | r in d.rounds && OrderingLost(d, r, now)
  }

  ghost function BundleLosses(d: Desk, now: Time): set<nat> {
    set r | r in d.rounds && BundleLost(d, r, now)
  }

  /** A drain samples exactly the whole rounds, counts exactly the expected ones that are past their
      deadline and lack their ordering or a bundle, under the reason that holds, and drops exactly the
      unnamed ones that are past theirs. */
  lemma VerdictIff(d: Desk, r: nat, now: Time)
    requires r in d.rounds
    ensures var v := VerdictOn(d, r, now);
            && (v.Sample? <==> Whole(d, r))
            && (v.NoOrdering? <==> OrderingLost(d, r, now))
            && (v.MissingBundle? <==> BundleLost(d, r, now))
            && (v.Lapsed? <==> Unnamed(d, r, now))
  {
    hide Boundary;
    var t := d.rounds[r];
    assert Overdue(t, now) <==> PastDeadline(t, now);
  }

  lemma DrainCounts(d: Desk, now: Time)
    ensures Ready(d, now).Keys == WholeRounds(d)
    ensures Gaps(d, now) == OrderingLosses(d, now) + BundleLosses(d, now)
    ensures OrderingLosses(d, now) !! BundleLosses(d, now)
  {
    hide VerdictOn, Whole, OrderingLost, BundleLost, Unnamed;
    forall r | r in d.rounds
      ensures VerdictOn(d, r, now).Sample? <==> Whole(d, r)
      ensures VerdictOn(d, r, now).NoOrdering? <==> OrderingLost(d, r, now)
      ensures VerdictOn(d, r, now).MissingBundle? <==> BundleLost(d, r, now)
    {
      VerdictIff(d, r, now);
    }
  }

  // ---------- the boundary of a sample ----------

  /** A sample's receipt is the latest of the first ordering arrival and the first recorded arrival of
      each referenced bundle, and is one of them; among equals the earliest in that order gives the
      wall time. */
  lemma {:induction false} BoundaryIsLatest(ordering: Arrival, sigs: seq<Sig>, bundles: map<Sig, Bundle>)
    requires AllHere(sigs, bundles)
    ensures var b := Boundary(ordering, sigs, bundles);
            && ordering.at <= b.at
            && (forall s <- sigs :: bundles[s].first.at <= b.at)
            && (if ordering.at == b.at then b == ordering
                else exists k :: FirstAt(sigs, bundles, k, b))
    decreases |sigs|
  {
    if sigs != [] {
      var n := |sigs| - 1;
      BoundaryIsLatest(ordering, sigs[..n], bundles);
      var before, b := Boundary(ordering, sigs[..n], bundles), Boundary(ordering, sigs, bundles);
      assert sigs == sigs[..n] + [sigs[n]];
      if ordering.at != b.at {
        if b == before {
          var k :| FirstAt(sigs[..n], bundles, k, before);
          assert FirstAt(sigs, bundles, k, b);
        } else {
          assert forall j :: 0 <= j < n ==> sigs[j] in sigs[..n];
          assert FirstAt(sigs, bundles, n, b);
        }
      }
    }
  }

  /** The `k`-th bundle is the first of the list that arrived at `b`'s time, and `b` is its arrival. */
  predicate FirstAt(sigs: seq<Sig>, bundles: map<Sig, Bundle>, k: int, b: Arrival)
    requires AllHere(sigs, bundles)
  {
    && 0 <= k < |sigs| && bundles[sigs[k]].first == b
    && forall j :: 0 <= j < k ==> bundles[sigs[j]].first.at < b.at
  }
}
