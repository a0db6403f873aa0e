/** Observation conservation: every admitted observation of a provider is accounted for exactly once. */
module Conservation {
  import opened Common
  import opened Model
  import opened Windows
  import opened Cohorts
  import opened SettleLaws

  type Pendings = map<BaseKey, PendingBase>

  function ForCoin(k: BaseKey, coin: Coin, n: nat): nat {
    if k.coin == coin then n else 0
  }

  /** Arrivals of `p` for `coin` still waiting in open bases. */
  ghost function Waiting(m: Pendings, coin: Coin, p: Provider): nat
    decreases |m|
  {
    if m == map[] then 0
    else
      var k :| k in m;
      ForCoin(k, coin, ArrivalsOf(m[k], p)) + Waiting(m - {k}, coin, p)
  }

  lemma {:induction false} WaitingRemove(m: Pendings, k: BaseKey, coin: Coin, p: Provider)
    requires k in m
    ensures Waiting(m, coin, p) == ForCoin(k, coin, ArrivalsOf(m[k], p)) + Waiting(m - {k}, coin, p)
    decreases |m|
  {
    hide ForCoin, ArrivalsOf;
    var j :| j in m && Waiting(m, coin, p) == ForCoin(j, coin, ArrivalsOf(m[j], p)) + Waiting(m - {j}, coin, p);
    if j != k {
      WaitingRemove(m - {j}, k, coin, p);
      WaitingRemove(m - {k}, j, coin, p);
      assert m - {j} - {k} == m - {k} - {j};
    }
  }

  lemma WaitingSet(m: Pendings, k: BaseKey, pb: PendingBase, coin: Coin, p: Provider)
    ensures Waiting(m[k := pb], coin, p) == ForCoin(k, coin, ArrivalsOf(pb, p)) + Waiting(m - {k}, coin, p)
  {
    hide ForCoin, ArrivalsOf, Waiting;
    WaitingRemove(m[k := pb], k, coin, p);
    assert m[k := pb] - {k} == m - {k};
  }

  /** What `m` holds for one base; nothing when it does not have it. */
  ghost function Held(m: Pendings, k: BaseKey, p: Provider): nat {
    if k in m then ArrivalsOf(m[k], p) else 0
  }

  lemma WaitingHeld(m: Pendings, k: BaseKey, coin: Coin, p: Provider)
    ensures Waiting(m, coin, p) == ForCoin(k, coin, Held(m, k, p)) + Waiting(m - {k}, coin, p)
  {
    hide ArrivalsOf, Waiting;
    if k in m {
      WaitingRemove(m, k, coin, p);
    } else {
      assert m - {k} == m;
    }
  }

  // ---------- the account of one provider and coin ----------

  /** Observed minus accounted for minus waiting; the law is that it is zero between events. */
  ghost function Debt(b: Bench, coin: Coin, p: Provider): int {
    var t := BoardOf(b.counters, coin)[p];
    t.observed - Out(t) - Waiting(b.pending, coin, p)
  }

  lemma CreditAt(c: Counters, coin: Coin, q: Provider, t: Tally, at: Coin, p: Provider)
    ensures var before, after := BoardOf(c, at)[p], BoardOf(Credit(c, coin, q, t), at)[p];
            after == if at == coin && p == q then before.Plus(t) else before
  {
    hide BoardOf, CreditBoard;
    CreditBoardAt(c, coin, Marks({q}, t), at, p);
    PlusZero(BoardOf(c, coin)[p]);
  }

  lemma PlusZero(t: Tally)
    ensures t.Plus(ZERO) == t
  {
  }

  lemma PlusOut(a: Tally, b: Tally)
    ensures a.Plus(b).observed == a.observed + b.observed
    ensures Out(a.Plus(b)) == Out(a) + Out(b)
    ensures Scored(a.Plus(b)) == Scored(a) + Scored(b)
  {
  }

  /** Crediting one event changes one account by what the credit observes and accounts for. */
  lemma CreditDebt(b: Bench, e: MarketEvent, t: Tally, coin: Coin, p: Provider)
    ensures Debt(CreditEvent(b, e, t), coin, p)
            == Debt(b, coin, p) + if coin == e.key.coin && p == e.provider then t.observed - Out(t) else 0
  {
    hide BoardOf, Credit, Out, Waiting;
    CreditAt(b.counters, e.key.coin, e.provider, t, coin, p);
    PlusOut(BoardOf(b.counters, coin)[p], t);
  }

  lemma CreditAmounts(t: Tally)
    ensures t == OBSERVED ==> t.observed - Out(t) == 1
    ensures t == DUPLICATE || t == LATE || t == OVERFLOW ==> t.observed - Out(t) == -1
    ensures t == FUTURE || t == NEGATIVE ==> t.observed - Out(t) == 0
  {
  }

  lemma SettleDebt(cfg: Config, b: Bench, key: BaseKey, now: Time, evicted: bool, ch: Choice, coin: Coin, p: Provider)
    requires Usable(b, key, ch) && OnlyActive(cfg, b.pending[key])
    ensures Debt(Settle(cfg, b, key, now, evicted, ch), coin, p) == Debt(b, coin, p)
  {
    hide BoardOf, Out, Scored, Waiting, SettleCounters, SettleRings, ArrivalsOf, Enumerates, OnlyActive, CanonicalCount,
      SealBase;
    SettleTally(cfg, b.counters, key.coin, b.pending[key], ch.order, coin, p);
    WaitingRemove(b.pending, key, coin, p);
  }

  // ---------- placing an event ----------

  /** Contents other than `c` that `p` delivered. */
  ghost function Others(pb: PendingBase, c: ContentKey, p: Provider): set<ContentKey> {
    set x | x in pb.candidates && x != c && p in pb.candidates[x].arrivals
  }

  predicate Delivered(pb: PendingBase, c: ContentKey, p: Provider) {
    c in pb.candidates && p in pb.candidates[c].arrivals
  }

  lemma ArrivalsSplit(pb: PendingBase, c: ContentKey, p: Provider)
    ensures ArrivalsOf(pb, p) == |Others(pb, c, p)| + Bit(Delivered(pb, c, p))
  {
    var all := set x | x in pb.candidates && p in pb.candidates[x].arrivals;
    var here: set<ContentKey> := {c};
    assert all == Others(pb, c, p) + if Delivered(pb, c, p) then here else {};
  }

  lemma ArrivalsSet(pb: PendingBase, first: Time, c: ContentKey, cand: Candidate, p: Provider)
    ensures ArrivalsOf(PendingBase(first, pb.candidates[c := cand]), p) + Bit(Delivered(pb, c, p))
            == ArrivalsOf(pb, p) + Bit(p in cand.arrivals)
  {
    hide ArrivalsOf;
    var after := PendingBase(first, pb.candidates[c := cand]);
    ArrivalsSplit(pb, c, p);
    ArrivalsSplit(after, c, p);
    assert Others(after, c, p) == Others(pb, c, p);
  }

  /** The base after the event: one more arrival when it was placed. */
  lemma JoinedArrivals(b: Bench, e: MarketEvent, p: Provider)
    ensures e.key.Base() in Place(b, e).pending
    ensures ArrivalsOf(Place(b, e).pending[e.key.Base()], p)
            == Held(b.pending, e.key.Base(), p) + Bit(Placed(b, e) && p == e.provider)
  {
    hide ArrivalsOf, PlacedCounters, MarkLoss, JoinedBase, Held;
    var pb := JoinedBase(b, e);
    JoinedSame(b, e, p);
    if !TooManyContents(pb, e.key.content) {
      ArrivalsSet(pb, pb.first, e.key.content, PlacedBase(b, e).candidates[e.key.content], p);
    }
  }

  lemma NoArrivals(pb: PendingBase, p: Provider)
    requires pb.candidates == map[]
    ensures ArrivalsOf(pb, p) == 0
  {
    assert forall c :: c !in pb.candidates;
  }

  lemma JoinedSame(b: Bench, e: MarketEvent, p: Provider)
    ensures ArrivalsOf(JoinedBase(b, e), p) == Held(b.pending, e.key.Base(), p)
  {
    var pb := JoinedBase(b, e);
    if e.key.Base() !in b.pending {
      NoArrivals(pb, p);
    } else {
      var was := b.pending[e.key.Base()];
      assert pb.candidates == was.candidates;
    }
  }

  /** Placing an event takes it off its account: it is waiting, a duplicate, or one content too many. */
  lemma PlaceDebt(b: Bench, e: MarketEvent, coin: Coin, p: Provider)
    ensures Debt(Place(b, e), coin, p)
            == Debt(b, coin, p) - Bit(coin == e.key.coin && p == e.provider)
  {
    hide BoardOf, PlacedCounters, PlacedBase, Placed, Out, Waiting, ArrivalsOf, JoinedBase, TooManyContents, Held;
    var key := e.key.Base();
    JoinedArrivals(b, e, p);
    WaitingHeld(b.pending, key, coin, p);
    var q := Place(b, e).pending;
    WaitingSet(b.pending, key, q[key], coin, p);
    PlaceCredits(b, e, coin, p);
  }

  lemma PlaceCredits(b: Bench, e: MarketEvent, coin: Coin, p: Provider)
    ensures var t, u := BoardOf(b.counters, coin)[p], BoardOf(Place(b, e).counters, coin)[p];
            u.observed - Out(u)
            == t.observed - Out(t) - Bit(!Placed(b, e) && coin == e.key.coin && p == e.provider)
  {
    hide BoardOf, Credit, Out, JoinedBase, JoinedCandidate, TooManyContents, PlacedBase;
    var t := BoardOf(b.counters, coin)[p];
    if !Placed(b, e) {
      CreditAt(b.counters, e.key.coin, e.provider, OVERFLOW, coin, p);
      CreditAt(b.counters, e.key.coin, e.provider, DUPLICATE, coin, p);
      PlusOut(t, OVERFLOW);
      PlusOut(t, DUPLICATE);
      CreditAmounts(OVERFLOW);
      CreditAmounts(DUPLICATE);
    }
  }
}
