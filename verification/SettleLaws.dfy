/** What settling a base does to each provider's counters, whatever order its candidates are visited in. */
module SettleLaws {
  import opened Common
  import opened Model
  import opened Windows
  import opened Cohorts

  /** Observations a tally has accounted for. */
  function Out(t: Tally): nat {
    t.matched + t.orphaned + t.late + t.duplicate + t.overflow
  }

  /** Canonical cohorts a tally has been scored on. */
  function Scored(t: Tally): nat {
    t.matched + t.missing
  }

  ghost predicate OnlyActive(cfg: Config, pb: PendingBase) {
    forall c <- pb.candidates :: forall p <- pb.candidates[c].arrivals :: cfg.Active(p)
  }

  /** How many of the listed candidates `p` delivered. */
  function Arrived(pb: PendingBase, order: seq<ContentKey>, p: Provider): nat
    requires Among(order, pb)
    decreases |order|
  {
    if order == [] then 0
    else Arrived(pb, order[..|order| - 1], p)
         + Bit(p in pb.candidates[order[|order| - 1]].arrivals)
  }

  function CanonicalCount(cfg: Config, pb: PendingBase, order: seq<ContentKey>): nat
    requires Among(order, pb)
    decreases |order|
  {
    if order == [] then 0
    else CanonicalCount(cfg, pb, order[..|order| - 1])
         + Bit(Canonical(cfg, pb, order[|order| - 1]))
  }

  /** `p` decides what is canonical, so it cannot miss a canonical cohort. */
  predicate Decides(cfg: Config, p: Provider) {
    !cfg.CanonicalByAnyArrival() && p == cfg.Reference()
  }

  /** What the three phases of one candidate do to one provider. */
  ghost predicate SplitsOne(active: bool, decides: bool, l: Tally, o: Tally, f: Tally, arrived: nat, canonical: nat) {
    && l.observed == o.observed == f.observed == 0
    && Out(l) + Out(o) + Out(f) == arrived
    && Scored(l) == Scored(o) == 0
    && l.mismatch == o.mismatch == 0 && f.mismatch <= f.missing
    && Scored(f) == (if active then canonical else 0)
    && (decides ==> f.missing == 0)
  }

  /** One candidate, one provider: its arrival ends as late, orphaned or matched, exactly one of them. */
  lemma ShareSplits(cfg: Config, pb: PendingBase, s: set<Provider>, c: ContentKey, p: Provider)
    requires c in pb.candidates && OnlyActive(cfg, pb)
    ensures SplitsOne(cfg.Active(p), Decides(cfg, p), Share(cfg, pb, s, ClearLate, c)[p],
                      Share(cfg, pb, s, CountOrphans, c)[p], Share(cfg, pb, s, Finalize, c)[p],
                      Bit(p in pb.candidates[c].arrivals), Bit(Canonical(cfg, pb, c)))
  {
    hide *;
    ArrivalSplits(cfg, pb, c, p);
    LateShare(cfg, pb, s, c, p);
    OrphanShare(cfg, pb, s, c, p);
    MatchShare(cfg, pb, s, c, p);
    var canonical := Canonical(cfg, pb, c);
    if canonical && Decides(cfg, p) {
      ReferenceMatched(cfg, pb, c, p);
    }
    var late, kept := p in LateBy(cfg, pb, c), OnTime(cfg, pb, c);
    SixProviders(p);
    CasesSplit(cfg.Active(p), Decides(cfg, p), late, p in kept, canonical, p in s, Share(cfg, pb, s, ClearLate, c)[p],
               Share(cfg, pb, s, CountOrphans, c)[p], Share(cfg, pb, s, Finalize, c)[p]);
  }

  lemma SixProviders(p: Provider)
    ensures p < PROVIDERS
  {
  }

  function Bit(b: bool): (n: nat)
    ensures n <= 1
  {
    if b then 1 else 0
  }

  lemma FinalCases(cfg: Config, kept: Arrivals, s: set<Provider>, p: Provider)
    ensures var missed := cfg.Active(p) && p !in kept;
            FinalTally(cfg, kept, s, p)
            == Tally(0, Bit(cfg.Active(p) && p in kept), Bit(missed), Bit(missed && p in s), 0, 0, 0, 0, 0, 0)
  {
    hide Config.Active;
  }

  lemma CasesSplit(active: bool, decides: bool, late: bool, kept: bool, canonical: bool, stray: bool,
                   l: Tally, o: Tally, f: Tally)
    requires !(late && kept) && (kept ==> active)
    requires canonical && decides ==> kept
    requires l == Tally(0, 0, 0, 0, 0, Bit(late), 0, 0, 0, 0)
    requires o == Tally(0, 0, 0, 0, 0, 0, Bit(!canonical && kept), 0, 0, 0)
    requires f == Tally(0, Bit(canonical && active && kept), Bit(canonical && active && !kept),
                        Bit(canonical && active && !kept && stray), 0, 0, 0, 0, 0, 0)
    ensures SplitsOne(active, decides, l, o, f, Bit(late || kept), Bit(canonical))
  {
    hide SplitsOne;
    var n, m, s := Bit(late), Bit(canonical && active && kept), Bit(canonical && active && !kept);
    FieldsSplit(active, decides, l, o, f, n, Bit(!canonical && kept), m, s,
                Bit(canonical && active && !kept && stray), Bit(canonical));
  }

  lemma FieldsSplit(active: bool, decides: bool, l: Tally, o: Tally, f: Tally, late: nat, orphaned: nat, matched: nat,
                    missing: nat, mismatch: nat, canonical: nat)
    requires l == Tally(0, 0, 0, 0, 0, late, 0, 0, 0, 0)
    requires o == Tally(0, 0, 0, 0, 0, 0, orphaned, 0, 0, 0)
    requires f == Tally(0, matched, missing, mismatch, 0, 0, 0, 0, 0, 0)
    requires mismatch <= missing && (decides ==> missing == 0)
    requires matched + missing == if active then canonical else 0
    ensures SplitsOne(active, decides, l, o, f, late + orphaned + matched, canonical)
  {
  }

  lemma ArrivalSplits(cfg: Config, pb: PendingBase, c: ContentKey, p: Provider)
    requires c in pb.candidates && OnlyActive(cfg, pb)
    ensures p in pb.candidates[c].arrivals <==> p in LateBy(cfg, pb, c) || p in OnTime(cfg, pb, c)
    ensures !(p in LateBy(cfg, pb, c) && p in OnTime(cfg, pb, c))
    ensures p in OnTime(cfg, pb, c) ==> cfg.Active(p)
  {
    hide Config.Active, Late;
  }

  lemma LateShare(cfg: Config, pb: PendingBase, s: set<Provider>, c: ContentKey, p: Provider)
    requires c in pb.candidates
    ensures Share(cfg, pb, s, ClearLate, c)[p] == Tally(0, 0, 0, 0, 0, Bit(p in LateBy(cfg, pb, c)), 0, 0, 0, 0)
  {
    hide LateBy, OnTime, Canonical;
  }

  lemma OrphanShare(cfg: Config, pb: PendingBase, s: set<Provider>, c: ContentKey, p: Provider)
    requires c in pb.candidates
    ensures Share(cfg, pb, s, CountOrphans, c)[p]
            == Tally(0, 0, 0, 0, 0, 0, Bit(!Canonical(cfg, pb, c) && p in OnTime(cfg, pb, c) && cfg.Active(p)), 0, 0, 0)
  {
    hide LateBy, OnTime, Canonical, Config.Active;
  }

  lemma MatchShare(cfg: Config, pb: PendingBase, s: set<Provider>, c: ContentKey, p: Provider)
    requires c in pb.candidates
    ensures Share(cfg, pb, s, Finalize, c)[p]
            == var canonical, kept := Canonical(cfg, pb, c), p in OnTime(cfg, pb, c);
               Tally(0, Bit(canonical && cfg.Active(p) && kept), Bit(canonical && cfg.Active(p) && !kept),
                     Bit(canonical && cfg.Active(p) && !kept && p in s), 0, 0, 0, 0, 0, 0)
  {
    hide LateBy, OnTime, Canonical, FinalTally, Config.Active;
    FinalCases(cfg, OnTime(cfg, pb, c), s, p);
  }

  lemma ReferenceMatched(cfg: Config, pb: PendingBase, c: ContentKey, p: Provider)
    requires c in pb.candidates && Canonical(cfg, pb, c) && Decides(cfg, p)
    ensures p in OnTime(cfg, pb, c)
  {
  }

  /** Summed over an iteration order. */
  ghost predicate Splits(cfg: Config, pb: PendingBase, s: set<Provider>, order: seq<ContentKey>, p: Provider)
    requires Among(order, pb)
  {
    SplitsOne(cfg.Active(p), Decides(cfg, p), Shares(cfg, pb, s, ClearLate, order)[p],
              Shares(cfg, pb, s, CountOrphans, order)[p], Shares(cfg, pb, s, Finalize, order)[p], Arrived(pb, order, p),
              CanonicalCount(cfg, pb, order))
  }

  lemma {:induction false} SharesSplit(cfg: Config, pb: PendingBase, s: set<Provider>, order: seq<ContentKey>,
                                       p: Provider)
    requires Among(order, pb) && OnlyActive(cfg, pb)
    ensures Splits(cfg, pb, s, order, p)
    decreases |order|
  {
    hide Config.Active, Decides, Share, Canonical, OnlyActive;
    if order != [] {
      var n := |order| - 1;
      SharesSplit(cfg, pb, s, order[..n], p);
      ShareSplits(cfg, pb, s, order[n], p);
    }
  }

  // ---------- enumerating a base ----------

  /** Arrivals of `p` in a base. */
  ghost function ArrivalsOf(pb: PendingBase, p: Provider): nat {
    |set c | c in pb.candidates && p in pb.candidates[c].arrivals|
  }

  ghost function DeliveredIn(pb: PendingBase, order: seq<ContentKey>, p: Provider): set<ContentKey>
    requires Among(order, pb)
  {
    set c | c in order && p in pb.candidates[c].arrivals
  }

  lemma {:induction false} ArrivedCounts(pb: PendingBase, order: seq<ContentKey>, p: Provider)
    requires Among(order, pb) && Distinct(order)
    ensures Arrived(pb, order, p) == |DeliveredIn(pb, order, p)|
    decreases |order|
  {
    if order == [] {
      assert DeliveredIn(pb, order, p) == {};
    } else {
      var n := |order| - 1;
      ArrivedCounts(pb, order[..n], p);
      var c := order[n];
      assert c !in order[..n];
      assert DeliveredIn(pb, order, p)
             == DeliveredIn(pb, order[..n], p) + if p in pb.candidates[c].arrivals then {c} else {};
    }
  }

  /** Every enumeration of a base counts the same arrivals. */
  lemma EnumerationCounts(pb: PendingBase, order: seq<ContentKey>, p: Provider)
    requires Enumerates(order, pb)
    ensures Arrived(pb, order, p) == ArrivalsOf(pb, p)
  {
    ArrivedCounts(pb, order, p);
    assert DeliveredIn(pb, order, p) == set c | c in pb.candidates && p in pb.candidates[c].arrivals;
  }

  // ---------- the counters as a whole ----------

  lemma CreditBoardAt(c: Counters, coin: Coin, b: Board, at: Coin, p: Provider)
    ensures BoardOf(CreditBoard(c, coin, b), at)[p]
            == if at == coin then BoardOf(c, coin)[p].Plus(b[p]) else BoardOf(c, at)[p]
  {
  }

  /** Settling takes exactly `p`'s pending arrivals into account, and scores every active provider of
      the coin on the same number of canonical cohorts. */
  lemma SettleTally(cfg: Config, c: Counters, coin: Coin, pb: PendingBase, order: seq<ContentKey>, at: Coin,
                    p: Provider)
    requires Enumerates(order, pb) && OnlyActive(cfg, pb)
    ensures var before, after := BoardOf(c, at)[p], BoardOf(SettleCounters(cfg, c, coin, pb, order), at)[p];
            if at != coin then after == before
            else
              && after.observed == before.observed
              && Out(after) == Out(before) + ArrivalsOf(pb, p)
              && Scored(after) == Scored(before) + (if cfg.Active(p) then CanonicalCount(cfg, pb, order) else 0)
              && (before.mismatch <= before.missing ==> after.mismatch <= after.missing)
              && (Decides(cfg, p) ==> after.missing == before.missing)
  {
    hide Shares, CreditBoard, BoardOf, Config.Active, Decides, Distinct,
      Strays, Arrived, CanonicalCount, ArrivalsOf, OnlyActive;
    var s := Strays(cfg, pb);
    var l := Shares(cfg, pb, s, ClearLate, order);
    var o := Shares(cfg, pb, s, CountOrphans, order);
    var f := Shares(cfg, pb, s, Finalize, order);
    SharesSplit(cfg, pb, s, order, p);
    EnumerationCounts(pb, order, p);
    CreditBoardAt(c, coin, l, at, p);
    var c1 := CreditBoard(c, coin, l);
    CreditBoardAt(c1, coin, o, at, p);
    var c2 := CreditBoard(c1, coin, o);
    CreditBoardAt(c2, coin, f, at, p);
    if at == coin {
      CreditBoardAt(c, coin, l, coin, p);
      CreditBoardAt(c1, coin, o, coin, p);
    }
  }
}
