/** What may wait in an open base, and what follows for the cohorts it can commit. */
module Admission {
  import opened Common
  import opened Model
  import opened Windows
  import opened Cohorts
  import opened SettleLaws

  /** An arrival is from an active provider, not before its candidate, and not before its event. */
  predicate ArrivalOk(cfg: Config, k: BaseKey, first: Time, p: Provider, o: Obs) {
    cfg.Active(p) && first <= o.received && k.eventMs <= o.wall
  }

  predicate CandidateOk(cfg: Config, k: BaseKey, first: Time, c: Candidate) {
    first <= c.first && forall p <- c.arrivals :: ArrivalOk(cfg, k, c.first, p, c.arrivals[p])
  }

  predicate BaseOk(cfg: Config, k: BaseKey, pb: PendingBase) {
    && |pb.candidates| <= MAX_SIGNATURES_PER_BASE
    && forall c <- pb.candidates :: KeyOf(k, c).Base() == k && CandidateOk(cfg, k, pb.first, pb.candidates[c])
  }

  /** Open bases are well formed and none of them is sealed. */
  predicate WellFormed(cfg: Config, b: Bench) {
    forall k <- b.pending :: BaseOk(cfg, k, b.pending[k]) && k !in b.bases
  }

  /** With a single provider nothing waits between events. */
  predicate NothingWaits(cfg: Config, b: Bench) {
    |cfg.Providers()| == 1 ==> b.pending == map[]
  }

  lemma BaseOkActive(cfg: Config, k: BaseKey, pb: PendingBase)
    requires BaseOk(cfg, k, pb)
    ensures OnlyActive(cfg, pb)
  {
    hide Config.Active;
    forall c <- pb.candidates, p <- pb.candidates[c].arrivals
      ensures cfg.Active(p)
    {
      assert CandidateOk(cfg, k, pb.first, pb.candidates[c]);
    }
  }

  lemma SettleWellFormed(cfg: Config, b: Bench, key: BaseKey, now: Time, evicted: bool, ch: Choice)
    requires WellFormed(cfg, b) && Usable(b, key, ch)
    ensures var after := Settle(cfg, b, key, now, evicted, ch);
            WellFormed(cfg, after) && key in after.bases && after.pending == b.pending - {key}
  {
    hide BaseOk, SettleRings, SettleCounters, Enumerates, BasesFull;
  }

  lemma JoinedOk(cfg: Config, b: Bench, e: MarketEvent)
    requires e.key.Base() in b.pending ==> BaseOk(cfg, e.key.Base(), b.pending[e.key.Base()])
    ensures BaseOk(cfg, e.key.Base(), JoinedBase(b, e))
    ensures JoinedBase(b, e).first <= e.received
  {
    hide ArrivalOk;
  }

  lemma JoinedCandidateOk(cfg: Config, k: BaseKey, pb: PendingBase, e: MarketEvent)
    requires BaseOk(cfg, k, pb) && pb.first <= e.received
    ensures var c := JoinedCandidate(pb, e);
            CandidateOk(cfg, k, pb.first, c) && c.first <= e.received
  {
    hide Config.Active;
    var c := JoinedCandidate(pb, e);
    if e.key.content in pb.candidates {
      var was := pb.candidates[e.key.content];
      assert CandidateOk(cfg, k, pb.first, was);
      assert forall p <- was.arrivals :: ArrivalOk(cfg, k, was.first, p, was.arrivals[p]);
    }
  }

  lemma SetCandidateOk(cfg: Config, k: BaseKey, pb: PendingBase, c: ContentKey, cand: Candidate)
    requires BaseOk(cfg, k, pb) && CandidateOk(cfg, k, pb.first, cand)
    requires KeyOf(k, c).Base() == k && !TooManyContents(pb, c)
    ensures BaseOk(cfg, k, pb.(candidates := pb.candidates[c := cand]))
  {
    hide CandidateOk;
    var m := pb.candidates[c := cand];
    assert m.Keys == pb.candidates.Keys + {c};
  }

  lemma PlaceWellFormed(cfg: Config, b: Bench, e: MarketEvent)
    requires WellFormed(cfg, b) && cfg.Active(e.provider) && !Refused(e) && e.key.Base() !in b.bases
    ensures WellFormed(cfg, Place(b, e))
    ensures e.key.Base() in Place(b, e).pending
  {
    hide BaseOk, PlacedCounters, Config.Active, JoinedBase, JoinedCandidate, TooManyContents;
    var k := e.key.Base();
    JoinedOk(cfg, b, e);
    var pb := JoinedBase(b, e);
    if !TooManyContents(pb, e.key.content) {
      JoinedCandidateOk(cfg, k, pb, e);
      var c := JoinedCandidate(pb, e);
      ArrivedOk(cfg, k, pb.first, c, e);
      SetCandidateOk(cfg, k, pb, e.key.content, PlacedBase(b, e).candidates[e.key.content]);
    }
  }

  lemma ArrivedOk(cfg: Config, k: BaseKey, first: Time, c: Candidate, e: MarketEvent)
    requires CandidateOk(cfg, k, first, c) && c.first <= e.received
    requires cfg.Active(e.provider) && !Refused(e) && k == e.key.Base()
    ensures CandidateOk(cfg, k, first, Candidate(c.first, c.arrivals[e.provider := Obs(e.received, e.wall)]))
  {
    hide Config.Active;
  }

  // ---------- what a well-formed base commits ----------

  /** Every kept arrival was received before the base's deadline. */
  lemma KeptInTime(cfg: Config, k: BaseKey, pb: PendingBase, c: ContentKey, p: Provider)
    requires BaseOk(cfg, k, pb) && c in pb.candidates && p in OnTime(cfg, pb, c)
    ensures var o := OnTime(cfg, pb, c)[p];
            && pb.first <= pb.candidates[c].first <= o.received
            && o.received - pb.first < cfg.cohortTimeout
            && k.eventMs <= o.wall && cfg.Active(p)
  {
    hide Config.Active;
    assert CandidateOk(cfg, k, pb.first, pb.candidates[c]);
    assert ArrivalOk(cfg, k, pb.candidates[c].first, p, pb.candidates[c].arrivals[p]);
  }

  /** A complete cohort commits within the cohort timeout of its first sight, and at one of its
      own arrivals. */
  lemma CommitsInTime(cfg: Config, k: BaseKey, pb: PendingBase, c: ContentKey, now: Time)
    requires BaseOk(cfg, k, pb) && c in pb.candidates && Complete(cfg, OnTime(cfg, pb, c))
    ensures var at := SettledAt(cfg, OnTime(cfg, pb, c), now);
            && pb.candidates[c].first <= at
            && at - pb.first < cfg.cohortTimeout
            && Since(at, pb.candidates[c].first) < cfg.cohortTimeout
  {
    hide OnTime, BaseOk, Complete;
    var kept := OnTime(cfg, pb, c);
    ConfigIsSound(cfg);
    CompleteKept(cfg, kept);
    var t := Latest(kept, cfg.Providers());
    var p: Provider :| p in cfg.Providers() && kept[p].received == t;
    KeptInTime(cfg, k, pb, c, p);
  }

  lemma CompleteKept(cfg: Config, kept: Arrivals)
    requires Complete(cfg, kept)
    ensures forall p: Provider :: p in cfg.Providers() ==> p in kept
  {
    forall p: Provider | p in cfg.Providers()
      ensures p in kept
    {
      assert cfg.Active(p);
    }
  }

  /** A cohort's latency is exactly its receipt's wall time minus the event's, with no underflow. */
  lemma LatencyIsExact(cfg: Config, k: BaseKey, pb: PendingBase, c: ContentKey, p: Provider)
    requires BaseOk(cfg, k, pb) && c in pb.candidates && cfg.Active(p) && p in OnTime(cfg, pb, c)
    ensures LatenciesOf(cfg, KeyOf(k, c), OnTime(cfg, pb, c))[p] == OnTime(cfg, pb, c)[p].wall - k.eventMs
  {
    hide OnTime, BaseOk, Config.Active;
    KeptInTime(cfg, k, pb, c, p);
  }
}
