/** `Assembly` of `src/peering.rs` as the source has it, tied to the functions. */
module PeeringAssembly {
  import opened Common
  import opened AssemblySpec

  /** A ready round: its boundary and the time the feed gave it. */
  datatype Completion = Completion(round: nat, a: Arrival, timeMs: nat)

  function RoundsOf(cs: seq<Completion>): seq<nat> {
    seq(|cs|, i requires 0 <= i < |cs| => cs[i].round)
  }

  ghost function NoOrderingAmong(d: Desk, now: Time, order: seq<nat>): set<nat>
    requires forall r <- order :: r in d.rounds
  {
    set r | r in order && VerdictOn(d, r, now).NoOrdering?
  }

  ghost function MissingAmong(d: Desk, now: Time, order: seq<nat>): set<nat>
    requires forall r <- order :: r in d.rounds
  {
    set r | r in order && VerdictOn(d, r, now).MissingBundle?
  }

  /** `cs` are exactly the ready rounds of `order`, each once. */
  ghost predicate Completes(d: Desk, now: Time, order: seq<nat>, cs: seq<Completion>)
    requires forall r <- order :: r in d.rounds
  {
    && Distinct(RoundsOf(cs))
    && (forall c <- cs :: c.round in order && VerdictOn(d, c.round, now) == Sample(c.a, c.timeMs))
    && (forall r <- order :: VerdictOn(d, r, now).Sample? ==> exists c <- cs :: c.round == r)
  }

  lemma NextOf(order: seq<nat>, n: nat)
    requires n < |order| && Distinct(order)
    ensures order[n] in order && order[n] !in order[..n] && order[..n + 1] == order[..n] + [order[n]]
    ensures forall r :: r in order[..n + 1] <==> r in order[..n] || r == order[n]
  {
    assert order[..n + 1] == order[..n] + [order[n]];
  }

  lemma AmongStep(d: Desk, now: Time, order: seq<nat>, n: nat)
    requires n < |order| && Distinct(order) && forall r <- order :: r in d.rounds
    ensures order[n] in order && order[n] !in order[..n] && order[..n + 1] == order[..n] + [order[n]]
    ensures |NoOrderingAmong(d, now, order[..n + 1])|
            == |NoOrderingAmong(d, now, order[..n])| + (if VerdictOn(d, order[n], now).NoOrdering? then 1 else 0)
    ensures |MissingAmong(d, now, order[..n + 1])|
            == |MissingAmong(d, now, order[..n])| + (if VerdictOn(d, order[n], now).MissingBundle? then 1 else 0)
  {
    hide VerdictOn, Distinct;
    NextOf(order, n);
    var r, before, after := order[n], order[..n], order[..n + 1];
    assert NoOrderingAmong(d, now, after)
           == NoOrderingAmong(d, now, before) + if VerdictOn(d, r, now).NoOrdering? then {r} else {};
    assert MissingAmong(d, now, after)
           == MissingAmong(d, now, before) + if VerdictOn(d, r, now).MissingBundle? then {r} else {};
  }

  lemma CompletesMore(d: Desk, now: Time, order: seq<nat>, n: nat, cs: seq<Completion>, c: Completion)
    requires n < |order| && Distinct(order) && forall r <- order :: r in d.rounds
    requires Completes(d, now, order[..n], cs)
    requires c.round == order[n] && VerdictOn(d, order[n], now) == Sample(c.a, c.timeMs)
    ensures Completes(d, now, order[..n + 1], cs + [c])
  {
    hide VerdictOn;
    assert order[..n + 1] == order[..n] + [order[n]];
    var more := cs + [c];
    forall i, j | 0 <= i < j < |more|
      ensures RoundsOf(more)[i] != RoundsOf(more)[j]
    {
      assert RoundsOf(more)[i] == more[i].round && RoundsOf(more)[j] == more[j].round;
      if j < |cs| {
        assert RoundsOf(cs)[i] != RoundsOf(cs)[j];
      } else {
        assert cs[i] in cs;
      }
    }
    assert c in more && forall x <- cs :: x in more;
  }

  lemma CompletesSame(d: Desk, now: Time, order: seq<nat>, n: nat, cs: seq<Completion>)
    requires n < |order| && Distinct(order) && forall r <- order :: r in d.rounds
    requires Completes(d, now, order[..n], cs) && !VerdictOn(d, order[n], now).Sample?
    ensures Completes(d, now, order[..n + 1], cs)
  {
    hide VerdictOn, RoundsOf;
    assert order[..n + 1] == order[..n] + [order[n]];
  }

  /** `a` is the latest of the ordering's arrival and those of the bundles, and is one of them. */
  predicate IsBoundary(a: Arrival, ordering: Arrival, sigs: seq<Sig>, bundles: map<Sig, Bundle>)
    requires AllHere(sigs, bundles)
  {
    && ordering.at <= a.at && (forall s <- sigs :: bundles[s].first.at <= a.at)
    && (a == ordering || exists s <- sigs :: bundles[s].first == a)
  }

  /** `cs` are the whole rounds, each once, with their boundary and the time the feed gave. */
  ghost predicate Returns(d: Desk, cs: seq<Completion>) {
    && Distinct(RoundsOf(cs))
    && (forall r <- d.rounds :: Whole(d, r) <==> exists c <- cs :: c.round == r)
    && forall c <- cs :: c.round in d.rounds && Whole(d, c.round) && CompletedBy(d, c)
  }

  predicate CompletedBy(d: Desk, c: Completion)
    requires c.round in d.rounds && Whole(d, c.round)
  {
    var t := d.rounds[c.round];
    c.timeMs == t.reference.value.timeMs && IsBoundary(c.a, t.ordering.value, t.reference.value.sigs, d.bundles)
  }

  lemma SampledIsCompleted(d: Desk, now: Time, c: Completion)
    requires c.round in d.rounds && VerdictOn(d, c.round, now) == Sample(c.a, c.timeMs)
    ensures Whole(d, c.round) && CompletedBy(d, c)
  {
    hide Boundary;
    VerdictIff(d, c.round, now);
    var t := d.rounds[c.round];
    BoundaryIsLatest(t.ordering.value, t.reference.value.sigs, d.bundles);
    if c.a.at != t.ordering.value.at {
      var k :| FirstAt(t.reference.value.sigs, d.bundles, k, c.a);
      assert t.reference.value.sigs[k] in t.reference.value.sigs;
    }
  }

  lemma CompletesReturns(d: Desk, now: Time, order: seq<nat>, cs: seq<Completion>)
    requires forall r :: r in order <==> r in d.rounds
    requires Completes(d, now, order, cs)
    ensures Returns(d, cs) && |cs| == |WholeRounds(d)|
  {
    hide VerdictOn, Whole, CompletedBy, RoundsOf, Distinct;
    forall r | r in d.rounds
      ensures VerdictOn(d, r, now).Sample? <==> Whole(d, r)
    {
      VerdictIff(d, r, now);
    }
    forall c <- cs
      ensures c.round in d.rounds && Whole(d, c.round) && CompletedBy(d, c)
    {
      SampledIsCompleted(d, now, c);
    }
    RoundsCount(cs, WholeRounds(d));
  }

  lemma RoundsCount(cs: seq<Completion>, rounds: set<nat>)
    requires Distinct(RoundsOf(cs)) && forall r :: r in rounds <==> exists c <- cs :: c.round == r
    ensures |cs| == |rounds|
  {
    var listed := RoundsOf(cs);
    forall r
      ensures r in listed <==> r in rounds
    {
      if r in rounds {
        var c :| c in cs && c.round == r;
        var i :| 0 <= i < |cs| && cs[i] == c;
        assert listed[i] == r;
      }
      if r in listed {
        var i :| 0 <= i < |listed| && listed[i] == r;
        assert cs[i] in cs;
      }
    }
    DistinctCount(listed, rounds);
  }

  lemma {:induction false} DistinctCount(listed: seq<nat>, members: set<nat>)
    requires Distinct(listed) && forall r :: r in listed <==> r in members
    ensures |listed| == |members|
    decreases |listed|
  {
    if listed != [] {
      var n := |listed| - 1;
      assert listed[n] in members;
      DistinctCount(listed[..n], members - {listed[n]});
    }
  }

  class Assembly {
    const scoreFrom: nat
    var rounds: map<nat, Tracked>
    var bundles: map<Sig, Bundle>
    var maxRef: nat
    var completed: nat
    var gapsNoOrdering: nat
    var gapsMissingBundle: nat

    ghost function State(): Desk
      reads this
    {
      Desk(rounds, bundles, maxRef, scoreFrom)
    }

    constructor (scoreFrom: nat)
      ensures State() == Desk(map[], map[], 0, scoreFrom)
      ensures completed == gapsNoOrdering == gapsMissingBundle == 0
    {
      this.scoreFrom := scoreFrom;
      rounds, bundles, maxRef, completed, gapsNoOrdering, gapsMissingBundle := map[], map[], 0, 0, 0, 0;
    }

    method TrackOrdering(round: nat, a: Arrival)
      modifies `rounds
      ensures State() == AssemblySpec.TrackOrdering(old(State()), round, a)
    {
      if maxRef == 0 || Max(round, maxRef) - Min(round, maxRef) > ROUND_WINDOW {
        return;
      }
      var entry := if round in rounds then rounds[round] else UNTRACKED;
      if entry.firstSeen.None? {
        entry := entry.(firstSeen := Some(a.at));
      }
      if entry.ordering.None? {
        entry := entry.(ordering := Some(a));
      }
      rounds := rounds[round := entry];
    }

    method TrackBundle(sig: Sig, a: Arrival, now: Time)
      modifies `bundles
      ensures State() == AssemblySpec.TrackBundle(old(State()), sig, a, now)
    {
      if sig !in bundles {
        bundles := bundles[sig := Bundle(a, now)];
      }
    }

    /** A line with no readable time, or a bundle without a signed action, changes nothing. */
    method TrackReference(round: nat, time: Option<nat>, listed: seq<Option<Sig>>, now: Time)
      modifies `rounds, `maxRef
      ensures var usable := time.Some? && forall o <- listed :: o.Some?;
              && (!usable ==> State() == old(State()))
              && (usable ==> State() == AssemblySpec.TrackReference(old(State()), round,
                                                                    Reference(time.value, Values(listed)), now))
              && (usable && time.value < scoreFrom ==> rounds == old(rounds) - {round})
    {
      if time.None? {
        return;
      }
      var sigs: seq<Sig> := [];
      for i := 0 to |listed|
        invariant forall o <- listed[..i] :: o.Some?
        invariant sigs == Values(listed[..i])
      {
        if listed[i].None? {
          assert listed[i] in listed;
          return;
        }
        assert listed[..i + 1] == listed[..i] + [listed[i]];
        sigs := sigs + [listed[i].value];
      }
      assert listed[..|listed|] == listed;
      maxRef := Max(maxRef, round);
      if time.value < scoreFrom {
        rounds := rounds - {round};
        return;
      }
      var entry := if round in rounds then rounds[round] else UNTRACKED;
      if entry.firstSeen.None? {
        entry := entry.(firstSeen := Some(now));
      }
      rounds := rounds[round := entry.(reference := Some(Reference(time.value, sigs)))];
    }

    /** The boundary of a round whose ordering and reference are known, if every bundle is here. */
    method FindBoundary(ordering: Arrival, sigs: seq<Sig>) returns (complete: bool, ready: Arrival)
      ensures complete == AllHere(sigs, bundles)
      ensures complete ==> ready == Boundary(ordering, sigs, bundles)
    {
      ready, complete := ordering, true;
      for i := 0 to |sigs|
        invariant complete && AllHere(sigs[..i], bundles)
        invariant ready == Boundary(ordering, sigs[..i], bundles)
      {
        assert sigs[i] in sigs && sigs[..i + 1] == sigs[..i] + [sigs[i]] && sigs[..i + 1][..i] == sigs[..i];
        if sigs[i] !in bundles {
          complete := false;
          return;
        }
        if bundles[sigs[i]].first.at > ready.at {
          ready := bundles[sigs[i]].first;
        }
      }
      assert sigs[..|sigs|] == sigs;
    }

    /** What to do about one round. */
    method Decide(t: Tracked, now: Time) returns (v: Verdict)
      ensures v == Judge(t, bundles, now)
    {
      hide AllHere, Boundary;
      var overdue := t.firstSeen.Some? && Since(now, t.firstSeen.value) > INCOMPLETE_DEADLINE;
      if t.ordering.None? || t.reference.None? {
        return if !overdue then Waiting else if t.reference.Some? then NoOrdering else Lapsed;
      }
      var complete, ready := FindBoundary(t.ordering.value, t.reference.value.sigs);
      if !complete {
        return if overdue then MissingBundle else Waiting;
      }
      v := Sample(ready, t.reference.value.timeMs);
    }

    /** Every whole round is returned once with its boundary and time, every expected one that is past
        its deadline is counted once under its reason, and neither is looked at again while it is
        tracked. */
    method DrainReady(now: Time) returns (ready: seq<Completion>, expired: nat)
      modifies this
      ensures State() == Drain(old(State()), now)
      ensures Returns(old(State()), ready)
      ensures completed == old(completed) + |ready| && |ready| == |WholeRounds(old(State()))|
      ensures gapsNoOrdering == old(gapsNoOrdering) + |OrderingLosses(old(State()), now)|
      ensures gapsMissingBundle == old(gapsMissingBundle) + |BundleLosses(old(State()), now)|
      ensures expired == |OrderingLosses(old(State()), now)| + |BundleLosses(old(State()), now)|
    {
      hide Completes, Returns, OrderingLosses, BundleLosses, WholeRounds;
      ghost var d := State();
      var order := Listed(rounds.Keys);
      ready, expired := JudgeAll(order, now);
      AmongAll(d, now, order);
      CompletesReturns(d, now, order, ready);
      Prune(now);
    }

    method JudgeAll(order: seq<nat>, now: Time) returns (ready: seq<Completion>, expired: nat)
      requires Distinct(order) && forall r :: r in order <==> r in rounds
      modifies `rounds, `completed, `gapsNoOrdering, `gapsMissingBundle
      ensures State() == Judged(old(State()), now)
      ensures Completes(old(State()), now, order, ready)
      ensures completed == old(completed) + |ready|
      ensures gapsNoOrdering == old(gapsNoOrdering) + |NoOrderingAmong(old(State()), now, order)|
      ensures gapsMissingBundle == old(gapsMissingBundle) + |MissingAmong(old(State()), now, order)|
      ensures expired == |NoOrderingAmong(old(State()), now, order)| + |MissingAmong(old(State()), now, order)|
    {
      hide Judge, Completes, NoOrderingAmong, MissingAmong, Distinct;
      ghost var d := State();
      ready, expired := [], 0;
      NothingJudged(d, now, order);
      for n := 0 to |order|
        invariant rounds.Keys == d.rounds.Keys
        invariant forall r <- rounds :: rounds[r] == if r in order[..n] then Settled(d.rounds[r], VerdictOn(d, r, now))
                  else d.rounds[r]
        invariant Completes(d, now, order[..n], ready) && completed == old(completed) + |ready|
        invariant gapsNoOrdering == old(gapsNoOrdering) + |NoOrderingAmong(d, now, order[..n])|
        invariant gapsMissingBundle == old(gapsMissingBundle) + |MissingAmong(d, now, order[..n])|
        invariant expired == |NoOrderingAmong(d, now, order[..n])| + |MissingAmong(d, now, order[..n])|
      {
        AmongStep(d, now, order, n);
        ghost var before := ready;
        var c;
        c, expired := JudgeOne(order[n], now, expired);
        if c.Some? {
          CompletesMore(d, now, order, n, ready, c.value);
          ready := ready + [c.value];
        } else {
          CompletesSame(d, now, order, n, ready);
        }
      }
      assert order[..|order|] == order;
      assert rounds == Judged(d, now).rounds;
    }

    /** The body of the drain's loop. */
    method JudgeOne(r: nat, now: Time, count: nat) returns (c: Option<Completion>, expired: nat)
      requires r in rounds
      modifies `rounds, `completed, `gapsNoOrdering, `gapsMissingBundle
      ensures var v := VerdictOn(old(State()), r, now);
              && rounds == old(rounds)[r := Settled(old(rounds)[r], v)]
              && c == (if v.Sample? then Some(Completion(r, v.a, v.timeMs)) else None)
              && expired == count + (if IsGap(v) then 1 else 0)
              && completed == old(completed) + (if v.Sample? then 1 else 0)
              && gapsNoOrdering == old(gapsNoOrdering) + (if v.NoOrdering? then 1 else 0)
              && gapsMissingBundle == old(gapsMissingBundle) + (if v.MissingBundle? then 1 else 0)
    {
      hide Judge;
      c, expired := None, count;
      var tracked := rounds[r];
      if tracked.reported {
        assert rounds == rounds[r := tracked];
        return;
      }
      var v := Decide(tracked, now);
      match v {
        case Waiting =>
          assert rounds == rounds[r := tracked];
          return;
        case Lapsed =>
        case NoOrdering =>
          expired, gapsNoOrdering := expired + 1, gapsNoOrdering + 1;
        case MissingBundle =>
          expired, gapsMissingBundle := expired + 1, gapsMissingBundle + 1;
        case Sample(a, timeMs) =>
          completed := completed + 1;
          c := Some(Completion(r, a, timeMs));
      }
      rounds := rounds[r := tracked.(reported := true)];
    }

    method Prune(now: Time)
      modifies `rounds, `bundles
      ensures State() == Kept(old(State()), now)
    {
      var floor := Since(maxRef, ROUND_RETAIN);
      rounds := map r | r in rounds && r >= floor :: rounds[r];
      bundles := map s | s in bundles && Since(now, bundles[s].seen) < BUNDLE_RETAIN :: bundles[s];
    }
  }

  function Values(os: seq<Option<Sig>>): seq<Sig>
    requires forall o <- os :: o.Some?
  {
    seq(|os|, i requires 0 <= i < |os| => assert os[i] in os; os[i].value)
  }

  lemma NothingJudged(d: Desk, now: Time, order: seq<nat>)
    requires forall r <- order :: r in d.rounds
    ensures Completes(d, now, order[..0], [])
    ensures |NoOrderingAmong(d, now, order[..0])| == 0 && |MissingAmong(d, now, order[..0])| == 0
  {
    assert NoOrderingAmong(d, now, order[..0]) == {} == MissingAmong(d, now, order[..0]);
  }

  lemma AmongAll(d: Desk, now: Time, order: seq<nat>)
    requires forall r :: r in order <==> r in d.rounds
    ensures NoOrderingAmong(d, now, order) == OrderingLosses(d, now)
    ensures MissingAmong(d, now, order) == BundleLosses(d, now)
  {
    hide VerdictOn, OrderingLost, BundleLost, Whole, Unnamed;
    forall r | r in d.rounds
      ensures VerdictOn(d, r, now).NoOrdering? <==> OrderingLost(d, r, now)
      ensures VerdictOn(d, r, now).MissingBundle? <==> BundleLost(d, r, now)
    {
      VerdictIff(d, r, now);
    }
  }
}
