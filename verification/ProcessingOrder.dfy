/** Events of one base, processed in any order and settled by a late tick. */
module ProcessingOrder {
  import opened Common
  import opened Model
  import opened Windows
  import opened Cohorts
  import opened SettleLaws
  import opened Conservation
  import opened Admission
  import opened Bounds
  import opened Effects
  import opened OrderIndependence

  // ---------- what an open base holds ----------

  predicate Earliest(t: Time, s: set<MarketEvent>) {
    (forall e <- s :: t <= e.received) && exists e <- s :: e.received == t
  }

  function Of(s: set<MarketEvent>, c: ContentKey): set<MarketEvent> {
    set e | e in s && e.key.content == c
  }

  predicate GathersContent(c: Candidate, s: set<MarketEvent>) {
    && Earliest(c.first, s)
    && (forall e <- s :: e.provider in c.arrivals && c.arrivals[e.provider] == Obs(e.received, e.wall))
    && (forall p <- c.arrivals :: exists e <- s :: e.provider == p)
  }

  /** The base holds exactly the events of `s`: the earliest receipt, and per content the earliest
      receipt and each provider's arrival. */
  predicate Gathers(pb: PendingBase, s: set<MarketEvent>) {
    && Earliest(pb.first, s)
    && (forall e <- s :: e.key.content in pb.candidates)
    && (forall c <- pb.candidates :: GathersContent(pb.candidates[c], Of(s, c)))
  }

  /** So it does not depend on the order they came in. */
  lemma GatheredOnce(x: PendingBase, y: PendingBase, s: set<MarketEvent>)
    requires Gathers(x, s) && Gathers(y, s)
    ensures x == y
  {
    hide GathersContent, Of;
    forall c
      ensures c in x.candidates <==> c in y.candidates
    {
      if c in x.candidates {
        ContentSeen(x.candidates[c], s, c);
      }
      if c in y.candidates {
        ContentSeen(y.candidates[c], s, c);
      }
    }
    forall c <- x.candidates
      ensures x.candidates[c] == y.candidates[c]
    {
      SameCandidate(x.candidates[c], y.candidates[c], Of(s, c));
    }
  }

  lemma ContentSeen(c: Candidate, s: set<MarketEvent>, k: ContentKey)
    requires GathersContent(c, Of(s, k))
    ensures exists e <- s :: e.key.content == k
  {
    var e :| e in Of(s, k) && e.received == c.first;
  }

  lemma SameCandidate(x: Candidate, y: Candidate, s: set<MarketEvent>)
    requires GathersContent(x, s) && GathersContent(y, s)
    ensures x == y
  {
    forall p: Provider
      ensures p in x.arrivals <==> p in y.arrivals
      ensures p in x.arrivals ==> p in y.arrivals && x.arrivals[p] == y.arrivals[p]
    {
      if p in x.arrivals {
        var e :| e in s && e.provider == p;
      }
      if p in y.arrivals {
        var e :| e in s && e.provider == p;
      }
    }
    assert x.arrivals == y.arrivals;
  }

  // ---------- a burst of events for one base ----------

  function ContentsOf(s: set<MarketEvent>): set<ContentKey> {
    set e | e in s :: e.key.content
  }

  /** Valid events of one base, no provider twice with the same content, at most four contents, and
      received within less than the cohort timeout of each other. */
  predicate Burst(cfg: Config, k: BaseKey, s: set<MarketEvent>) {
    && (forall e <- s :: e.key.Base() == k && cfg.Active(e.provider) && !Refused(e))
    && (forall e, f :: e in s && f in s && e.provider == f.provider && e.key.content == f.key.content ==> e == f)
    && |ContentsOf(s)| <= MAX_SIGNATURES_PER_BASE
    && (forall e, f :: e in s && f in s ==> e.received - f.received < cfg.cohortTimeout)
  }

  lemma SmallerBurst(cfg: Config, k: BaseKey, s: set<MarketEvent>, r: set<MarketEvent>)
    requires Burst(cfg, k, s) && r <= s
    ensures Burst(cfg, k, r)
  {
    hide Config.Active, Refused;
    SmallerSet(ContentsOf(r), ContentsOf(s));
  }

  /** The base is open with `s`, or untouched while `s` is empty. */
  predicate Open(b0: Bench, b: Bench, k: BaseKey, s: set<MarketEvent>) {
    && b.bases == b0.bases && b.settled == b0.settled && b.windows == b0.windows
    && if s == {} then b.pending == b0.pending
       else k in b.pending && b.pending == b0.pending[k := b.pending[k]] && Gathers(b.pending[k], s)
  }

  ghost function SeenBy(s: set<MarketEvent>, at: Coin, p: Provider): set<MarketEvent> {
    set e | e in s && e.key.coin == at && e.provider == p
  }

  function Observations(n: nat): Tally {
    Tally(n, 0, 0, 0, 0, 0, 0, 0, 0, 0)
  }

  ghost predicate Observed(b0: Bench, b: Bench, s: set<MarketEvent>) {
    forall at, p: Provider ::
      BoardOf(b.counters, at)[p] == BoardOf(b0.counters, at)[p].Plus(Observations(|SeenBy(s, at, p)|))
  }

  // ---------- placing one more ----------

  lemma EarliestMin(t: Time, s: set<MarketEvent>, e: MarketEvent)
    requires Earliest(t, s)
    ensures Earliest(Min(t, e.received), s + {e})
  {
    var f :| f in s && f.received == t;
    assert f in s + {e} && e in s + {e};
  }

  lemma EarliestOne(e: MarketEvent)
    ensures Earliest(e.received, {e})
  {
    assert e in {e};
  }

  lemma JoinedFirst(b0: Bench, b: Bench, k: BaseKey, s: set<MarketEvent>, e: MarketEvent)
    requires Open(b0, b, k, s) && k !in b0.pending && e.key.Base() == k
    ensures Earliest(JoinedBase(b, e).first, s + {e})
    ensures s == {} ==> JoinedBase(b, e).candidates == map[]
    ensures s != {} ==> JoinedBase(b, e).candidates == b.pending[k].candidates
  {
    hide Earliest, GathersContent;
    if s == {} {
      EarliestOne(e);
      assert s + {e} == {e};
    } else {
      EarliestMin(b.pending[k].first, s, e);
    }
  }

  /** The candidate an unseen arrival joins holds the events of its content seen so far. */
  lemma JoinedGathers(b0: Bench, b: Bench, k: BaseKey, s: set<MarketEvent>, e: MarketEvent)
    requires Open(b0, b, k, s) && k !in b0.pending && e.key.Base() == k
    requires forall f <- s :: f.key.content == e.key.content ==> f.provider != e.provider
    ensures var c := JoinedCandidate(JoinedBase(b, e), e);
            && e.provider !in c.arrivals
            && GathersContent(Candidate(c.first, c.arrivals[e.provider := Obs(e.received, e.wall)]),
                              Of(s, e.key.content) + {e})
  {
    hide Earliest;
    JoinedFirst(b0, b, k, s, e);
    var pb := JoinedBase(b, e);
    var mine := Of(s, e.key.content);
    var c := JoinedCandidate(pb, e);
    if e.key.content in pb.candidates {
      assert GathersContent(pb.candidates[e.key.content], mine);
      EarliestMin(pb.candidates[e.key.content].first, mine, e);
      ArrivalJoins(pb.candidates[e.key.content], mine, e, c.first);
    } else {
      assert forall f <- mine :: f in s && f.key.content in pb.candidates;
      assert mine == {};
      EarliestOne(e);
      assert mine + {e} == {e};
    }
  }

  lemma ArrivalJoins(was: Candidate, s: set<MarketEvent>, e: MarketEvent, first: Time)
    requires GathersContent(was, s) && Earliest(first, s + {e})
    requires forall f <- s :: f.provider != e.provider
    ensures e.provider !in was.arrivals
    ensures GathersContent(Candidate(first, was.arrivals[e.provider := Obs(e.received, e.wall)]), s + {e})
  {
    hide Earliest;
    var arrivals := was.arrivals[e.provider := Obs(e.received, e.wall)];
    forall p <- arrivals
      ensures exists f <- s + {e} :: f.provider == p
    {
      if p == e.provider {
        assert e in s + {e};
      } else {
        var f :| f in s && f.provider == p;
        assert f in s + {e};
      }
    }
  }

  lemma FewContents(cfg: Config, b0: Bench, b: Bench, k: BaseKey, s: set<MarketEvent>, e: MarketEvent)
    requires Burst(cfg, k, s + {e}) && Open(b0, b, k, s) && k !in b0.pending
    ensures !TooManyContents(JoinedBase(b, e), e.key.content)
  {
    hide *;
    BurstOf(cfg, k, s, e);
    JoinedFirst(b0, b, k, s, e);
    var m := JoinedBase(b, e).candidates;
    assert m.Keys <= ContentsOf(s) by {
      if s != {} {
        OpenHolds(b0, b, k, s);
      }
    }
    NotTooMany(JoinedBase(b, e), s, e);
  }

  lemma NotTooMany(pb: PendingBase, s: set<MarketEvent>, e: MarketEvent)
    requires pb.candidates.Keys <= ContentsOf(s) && |ContentsOf(s + {e})| <= MAX_SIGNATURES_PER_BASE
    ensures !TooManyContents(pb, e.key.content)
  {
    var keys := pb.candidates.Keys;
    if e.key.content !in keys {
      assert e in s + {e};
      assert ContentsOf(s) <= ContentsOf(s + {e});
      SmallerSet(keys + {e.key.content}, ContentsOf(s + {e}));
    }
  }

  lemma BurstOf(cfg: Config, k: BaseKey, s: set<MarketEvent>, e: MarketEvent)
    requires Burst(cfg, k, s + {e})
    ensures e.key.Base() == k && cfg.Active(e.provider) && !Refused(e)
    ensures |ContentsOf(s + {e})| <= MAX_SIGNATURES_PER_BASE
    ensures e !in s ==> forall f <- s :: f.key.content == e.key.content ==> f.provider != e.provider
    ensures cfg.cohortTimeout > 0 && forall f <- s :: e.received - f.received < cfg.cohortTimeout
  {
    hide Config.Active, Refused;
    assert e in s + {e};
    assert forall f <- s :: f in s + {e};
  }

  /** An open base's contents are those of its events. */
  lemma OpenHolds(b0: Bench, b: Bench, k: BaseKey, s: set<MarketEvent>)
    requires Open(b0, b, k, s) && s != {}
    ensures k in b.pending && Gathers(b.pending[k], s) && b.pending.Keys == b0.pending.Keys + {k}
    ensures b.pending[k].candidates.Keys <= ContentsOf(s)
    ensures exists e <- s :: e.received == b.pending[k].first
  {
    hide GathersContent;
    var m := b.pending[k].candidates;
    forall c <- m
      ensures c in ContentsOf(s)
    {
      ContentSeen(m[c], s, c);
    }
  }

  lemma PlaceGathers(cfg: Config, b0: Bench, b: Bench, k: BaseKey, s: set<MarketEvent>, e: MarketEvent)
    requires Burst(cfg, k, s + {e}) && e !in s && Open(b0, b, k, s) && k !in b0.pending
    ensures Placed(b, e)
    ensures Gathers(PlacedBase(b, e), s + {e})
  {
    hide Earliest, GathersContent, TooManyContents, JoinedCandidate, Config.Active, Refused;
    assert e in s + {e};
    FewContents(cfg, b0, b, k, s, e);
    assert forall f <- s :: f in s + {e};
    JoinedGathers(b0, b, k, s, e);
    JoinedFirst(b0, b, k, s, e);
    var pb := PlacedBase(b, e);
    forall c <- pb.candidates
      ensures GathersContent(pb.candidates[c], Of(s + {e}, c))
    {
      if c == e.key.content {
        assert Of(s + {e}, c) == Of(s, c) + {e};
      } else {
        assert Of(s + {e}, c) == Of(s, c);
      }
    }
  }

  /** One event of the burst joins the others; nothing settles. */
  lemma EventJoins(cfg: Config, b0: Bench, b: Bench, k: BaseKey, s: set<MarketEvent>, e: MarketEvent, ch: EventChoice)
    requires Burst(cfg, k, s + {e}) && e !in s && Open(b0, b, k, s) && Untouched(cfg, b0, k)
    ensures EventUsable(cfg, b, e, ch)
    ensures Record(cfg, b, e, ch) == Place(CreditEvent(b, e, OBSERVED), e)
    ensures Open(b0, Record(cfg, b, e, ch), k, s + {e})
  {
    hide *;
    BurstOf(cfg, k, s, e);
    var seen := CreditEvent(b, e, OBSERVED);
    SeenSame(b0, b, k, s, e);
    RoomForIt(cfg, b0, seen, k, s, e);
    PlaceGathers(cfg, b0, seen, k, s, e);
    JustPlaced(cfg, b, e, ch);
    PlacedSame(seen, e);
    StillOpen(b0, seen, Place(seen, e), k, s, e);
  }

  /** The base is neither open nor sealed, there is room to open it, and its events have to wait for
      another provider. */
  predicate Untouched(cfg: Config, b0: Bench, k: BaseKey) {
    k !in b0.pending && k !in b0.bases && |b0.pending| < cfg.maxPending && |cfg.Providers()| > 1
  }

  lemma SeenSame(b0: Bench, b: Bench, k: BaseKey, s: set<MarketEvent>, e: MarketEvent)
    requires Open(b0, b, k, s)
    ensures Open(b0, CreditEvent(b, e, OBSERVED), k, s)
  {
    hide Gathers, Credit;
  }

  lemma RoomForIt(cfg: Config, b0: Bench, b: Bench, k: BaseKey, s: set<MarketEvent>, e: MarketEvent)
    requires Burst(cfg, k, s + {e}) && Open(b0, b, k, s) && Untouched(cfg, b0, k)
    ensures !Overdue(cfg, b, k, e.received) && !PendingFull(cfg, b, k)
    ensures k !in b.bases && k !in b0.pending && |cfg.Providers()| != 1
  {
    hide *;
    BurstOf(cfg, k, s, e);
    OpenSame(cfg, b0, b, k, s);
    if s == {} {
      NothingOpen(cfg, b0, b, k, e.received);
    } else {
      OpenHolds(b0, b, k, s);
      SoonAfter(cfg, b, k, e.received);
    }
  }

  lemma OpenSame(cfg: Config, b0: Bench, b: Bench, k: BaseKey, s: set<MarketEvent>)
    requires Open(b0, b, k, s) && Untouched(cfg, b0, k)
    ensures k !in b.bases && k !in b0.pending && |b0.pending| < cfg.maxPending && |cfg.Providers()| > 1
    ensures s == {} ==> b.pending == b0.pending
  {
    hide Gathers, Config.Providers;
  }

  lemma NothingOpen(cfg: Config, b0: Bench, b: Bench, k: BaseKey, now: Time)
    requires b.pending == b0.pending && k !in b0.pending && |b0.pending| < cfg.maxPending
    ensures !Overdue(cfg, b, k, now) && !PendingFull(cfg, b, k)
  {
  }

  lemma SoonAfter(cfg: Config, b: Bench, k: BaseKey, now: Time)
    requires k in b.pending && now - b.pending[k].first < cfg.cohortTimeout && cfg.cohortTimeout > 0
    ensures !Overdue(cfg, b, k, now) && !PendingFull(cfg, b, k)
  {
  }

  /** Nothing settles, so recording the event is placing it. */
  lemma JustPlaced(cfg: Config, b: Bench, e: MarketEvent, ch: EventChoice)
    requires cfg.Active(e.provider) && !Refused(e)
    requires var seen, k := CreditEvent(b, e, OBSERVED), e.key.Base();
             !Overdue(cfg, seen, k, e.received) && !PendingFull(cfg, seen, k) && k !in seen.bases
    requires |cfg.Providers()| != 1
    ensures EventUsable(cfg, b, e, ch)
    ensures Record(cfg, b, e, ch) == Place(CreditEvent(b, e, OBSERVED), e)
  {
    hide Config.Active, Config.Providers, Refused, Overdue, PendingFull, CreditEvent, Place, Settle, Usable, Oldest,
      Placed;
  }

  lemma StillOpen(b0: Bench, b: Bench, after: Bench, k: BaseKey, s: set<MarketEvent>, e: MarketEvent)
    requires Open(b0, b, k, s) && k !in b0.pending && k == e.key.Base() && Gathers(PlacedBase(b, e), s + {e})
    requires after.windows == b.windows && after.bases == b.bases && after.settled == b.settled
    requires after.pending == b.pending[k := PlacedBase(b, e)]
    ensures Open(b0, after, k, s + {e})
  {
    hide Gathers, PlacedBase;
    assert s + {e} != {};
  }

  lemma PlacedSame(b: Bench, e: MarketEvent)
    requires Placed(b, e)
    ensures var after := Place(b, e);
            && after.windows == b.windows && after.counters == b.counters && after.bases == b.bases
            && after.settled == b.settled && after.pending == b.pending[e.key.Base() := PlacedBase(b, e)]
  {
    hide PlacedBase, JoinedBase, JoinedCandidate, TooManyContents;
  }

  // ---------- a whole burst ----------

  lemma AnotherSeen(s: set<MarketEvent>, e: MarketEvent, at: Coin, p: Provider)
    requires e !in s
    ensures |SeenBy(s + {e}, at, p)| == |SeenBy(s, at, p)| + Bit(at == e.key.coin && p == e.provider)
  {
    if at == e.key.coin && p == e.provider {
      assert SeenBy(s + {e}, at, p) == SeenBy(s, at, p) + {e};
    } else {
      assert SeenBy(s + {e}, at, p) == SeenBy(s, at, p);
    }
  }

  lemma OneMore(t: Tally, n: nat)
    ensures t.Plus(Observations(n)).Plus(OBSERVED) == t.Plus(Observations(n + 1))
  {
  }

  lemma StillObserved(b0: Bench, b: Bench, after: Bench, s: set<MarketEvent>, e: MarketEvent)
    requires Observed(b0, b, s) && e !in s && after.counters == CreditEvent(b, e, OBSERVED).counters
    ensures Observed(b0, after, s + {e})
  {
    hide BoardOf, Credit, SeenBy, Tally.Plus, Observations;
    forall at, p: Provider
      ensures BoardOf(after.counters, at)[p] == BoardOf(b0.counters, at)[p].Plus(Observations(|SeenBy(s + {e}, at, p)|))
    {
      CreditAt(b.counters, e.key.coin, e.provider, OBSERVED, at, p);
      AnotherSeen(s, e, at, p);
      OneMore(BoardOf(b0.counters, at)[p], |SeenBy(s, at, p)|);
      assert BoardOf(b.counters, at)[p] == BoardOf(b0.counters, at)[p].Plus(Observations(|SeenBy(s, at, p)|));
    }
  }

  ghost predicate Recorded(cfg: Config, b: Bench, e: MarketEvent, after: Bench) {
    exists ch :: EventUsable(cfg, b, e, ch) && after == Record(cfg, b, e, ch)
  }

  /** The states of processing `es` in order, whatever the HashMap order. */
  ghost predicate Processes(cfg: Config, b0: Bench, es: seq<MarketEvent>, states: seq<Bench>) {
    && |states| == |es| + 1 && states[0] == b0
    && forall i :: 0 <= i < |es| ==> Recorded(cfg, states[i], es[i], states[i + 1])
  }

  /** What has been processed is gathered in the open base, each event observed once. */
  ghost predicate Progress(cfg: Config, b0: Bench, b: Bench, k: BaseKey, s: set<MarketEvent>) {
    Open(b0, b, k, s) && Observed(b0, b, s) && WellFormed(cfg, b)
  }

  lemma NoProgress(cfg: Config, b0: Bench, k: BaseKey)
    requires WellFormed(cfg, b0)
    ensures Progress(cfg, b0, b0, k, {})
  {
    hide Gathers, WellFormed, BoardOf, Tally.Plus;
    forall at, p: Provider
      ensures BoardOf(b0.counters, at)[p] == BoardOf(b0.counters, at)[p].Plus(Observations(|SeenBy({}, at, p)|))
    {
      PlusZero(BoardOf(b0.counters, at)[p]);
      assert SeenBy({}, at, p) == {};
    }
  }

  lemma OneStep(cfg: Config, b0: Bench, b: Bench, after: Bench, k: BaseKey, s: set<MarketEvent>, e: MarketEvent)
    requires Progress(cfg, b0, b, k, s) && Burst(cfg, k, s + {e}) && e !in s && Untouched(cfg, b0, k)
    requires Recorded(cfg, b, e, after)
    ensures Progress(cfg, b0, after, k, s + {e})
  {
    hide Open, Observed, WellFormed, Burst, Untouched, Record, EventUsable, CreditEvent, Place, Placed;
    var ch :| EventUsable(cfg, b, e, ch) && after == Record(cfg, b, e, ch);
    EventJoins(cfg, b0, b, k, s, e, ch);
    var seen := CreditEvent(b, e, OBSERVED);
    SeenSame(b0, b, k, s, e);
    BurstOf(cfg, k, s, e);
    RoomForIt(cfg, b0, seen, k, s, e);
    PlaceGathers(cfg, b0, seen, k, s, e);
    PlacedSame(seen, e);
    StillObserved(b0, b, after, s, e);
    CreditWellFormed(cfg, b, e);
    PlaceWellFormed(cfg, seen, e);
  }

  lemma CreditWellFormed(cfg: Config, b: Bench, e: MarketEvent)
    requires WellFormed(cfg, b)
    ensures WellFormed(cfg, CreditEvent(b, e, OBSERVED))
  {
    hide BaseOk, Credit;
  }

  function Set(es: seq<MarketEvent>): set<MarketEvent> {
    set e | e in es
  }

  lemma {:induction false} BurstGathers(cfg: Config, b0: Bench, k: BaseKey, es: seq<MarketEvent>, states: seq<Bench>,
                                        n: nat)
    requires Processes(cfg, b0, es, states) && Burst(cfg, k, Set(es)) && Distinct(es) && Untouched(cfg, b0, k)
    requires WellFormed(cfg, b0) && n <= |es|
    ensures Progress(cfg, b0, states[n], k, Set(es[..n]))
    decreases n
  {
    hide Progress, Burst, Untouched, WellFormed, Recorded;
    if n == 0 {
      assert Set(es[..0]) == {};
      NoProgress(cfg, b0, k);
    } else {
      BurstGathers(cfg, b0, k, es, states, n - 1);
      var s, e := Set(es[..n - 1]), es[n - 1];
      assert s + {e} == Set(es[..n]) <= Set(es);
      SmallerBurst(cfg, k, Set(es), s + {e});
      OneStep(cfg, b0, states[n - 1], states[n], k, s, e);
    }
  }

  /** Settling everything that is open and one base more reaches no cap. */
  ghost predicate RoomForOneMore(cfg: Config, b: Bench) {
    var n := |b.pending| + 1;
    && (forall coin :: RingRoom(cfg, WindowOf(b.windows, coin), MAX_SIGNATURES_PER_BASE * n))
    && |b.bases| + n <= cfg.maxSettled
    && |b.settled| + MAX_SIGNATURES_PER_BASE * n <= cfg.maxSettled
  }

  lemma OpenRoomy(cfg: Config, b0: Bench, b: Bench, k: BaseKey, s: set<MarketEvent>)
    requires Open(b0, b, k, s) && k !in b0.pending && RoomForOneMore(cfg, b0)
    ensures Roomy(cfg, b)
  {
    hide Gathers, RingRoom, WindowOf;
    if s != {} {
      SizeAfterSet(b0.pending, k, b.pending[k]);
    }
    forall coin
      ensures RingRoom(cfg, WindowOf(b.windows, coin), MAX_SIGNATURES_PER_BASE * |b.pending|)
    {
      RoomShrinks(cfg, WindowOf(b.windows, coin), MAX_SIGNATURES_PER_BASE * (|b0.pending| + 1),
                  MAX_SIGNATURES_PER_BASE * |b.pending|);
    }
  }

  lemma SameOpen(b0: Bench, b: Bench, c: Bench, k: BaseKey, s: set<MarketEvent>, at: Coin, p: Provider)
    requires Open(b0, b, k, s) && Open(b0, c, k, s) && Observed(b0, b, s) && Observed(b0, c, s)
    ensures b.pending == c.pending && View(b, at, p) == View(c, at, p)
  {
    hide Gathers, BoardOf, WindowOf, Contents, SeenBy, Tally.Plus;
    if s != {} {
      GatheredOnce(b.pending[k], c.pending[k], s);
    }
  }

  /** A burst of events for one base, processed in any two orders and then settled by a tick that may
      visit bases and candidates in any order, gives every provider and coin the same counters and
      the same cohorts and coverage in the rings. */
  lemma ProcessingOrderIsInvisible(cfg: Config, b0: Bench, k: BaseKey, es: seq<MarketEvent>, fs: seq<MarketEvent>,
                                   bs: seq<Bench>, cs: seq<Bench>, now: Time, xs: seq<BaseKey>, xch: seq<Choice>,
                                   ys: seq<BaseKey>, ych: seq<Choice>, at: Coin, p: Provider)
    requires Distinct(es) && Distinct(fs) && Set(es) == Set(fs) && Burst(cfg, k, Set(es))
    requires Processes(cfg, b0, es, bs) && Processes(cfg, b0, fs, cs)
    requires Untouched(cfg, b0, k) && RoomForOneMore(cfg, b0) && WellFormed(cfg, b0)
    requires var b := bs[|es|]; Expired(cfg, b, now, xs) && |xch| == |xs| && AllUsable(cfg, b, now, xs, xch)
    requires var c := cs[|fs|]; Expired(cfg, c, now, ys) && |ych| == |ys| && AllUsable(cfg, c, now, ys, ych)
    ensures View(Tick(cfg, bs[|es|], now, xs, xch), at, p) == View(Tick(cfg, cs[|fs|], now, ys, ych), at, p)
  {
    hide Burst, RoomForOneMore, WellFormed, Recorded, Open, Observed, View, Tick, AllUsable, Expired, Roomy, Set,
      Distinct, Config.Providers;
    var b, c, s := bs[|es|], cs[|fs|], Set(es);
    BurstGathers(cfg, b0, k, es, bs, |es|);
    BurstGathers(cfg, b0, k, fs, cs, |fs|);
    assert es[..|es|] == es && fs[..|fs|] == fs;
    OpenRoomy(cfg, b0, b, k, s);
    OpenRoomy(cfg, b0, c, k, s);
    SameOpen(b0, b, c, k, s, at, p);
    TickOrderIsInvisible(cfg, b, c, now, xs, xch, ys, ych, at, p);
  }
}
