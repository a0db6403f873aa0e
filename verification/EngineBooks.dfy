/** Every run of the engine is, for each coin, a run of the publication ledger. */
module EngineBooks {
  import opened Common
  import opened Model
  import opened Windows
  import opened Cohorts
  import opened EngineRuns
  import Ledger

  type Ops = seq<Ledger.Op>

  /** The part of a window that the ledger reads. */
  predicate SameBook(v: Window, w: Window) {
    v.cohorts == w.cohorts && v.complete == w.complete && v.rollingEvictions == w.rollingEvictions
  }

  function Play(cfg: Config, w: Window, ops: Ops): Window
    decreases |ops|
  {
    if ops == [] then w
    else Ledger.Step(Play(cfg, w, ops[..|ops| - 1]), ops[|ops| - 1], cfg.maxRolling, cfg.rollingWindow)
  }

  /** What a stretch of a coin's run reports and sheds: the cohorts due at each accepted publication, and
      those that were older than the rolling window at a prune. */
  datatype Notes = Notes(due: seq<set<nat>>, aged: set<nat>) {
    function Plus(more: Notes): Notes {
      Notes(due + more.due, aged + more.aged)
    }
  }

  const NONE: Notes := Notes([], {})

  lemma NothingMore(m: Notes)
    ensures m.Plus(NONE) == m && NONE.Plus(m) == m
  {
  }

  lemma PlusJoins(a: Notes, b: Notes, c: Notes)
    ensures a.Plus(b).Plus(c) == a.Plus(b.Plus(c))
  {
  }

  /** What one operation notes. */
  ghost function Noted(cfg: Config, w: Window, op: Ledger.Op): Notes {
    match op
    case Publish(now, accepted) => if accepted then Notes([Ledger.Due(w.cohorts, now)], {}) else NONE
    case Prune(now) => Notes([], Ledger.Aged(w.cohorts, now, cfg.rollingWindow))
    case Commit(_, _, _, _, _) => NONE
  }

  ghost function NotedBy(cfg: Config, w: Window, ops: Ops): Notes
    decreases |ops|
  {
    if ops == [] then NONE
    else NotedBy(cfg, w, ops[..|ops| - 1]).Plus(Noted(cfg, Play(cfg, w, ops[..|ops| - 1]), ops[|ops| - 1]))
  }

  /** `ops` take a coin's window from `v` to `w`, and note `n` on the way. */
  ghost predicate Plays(cfg: Config, v: Window, w: Window, ops: Ops, n: Notes) {
    SameBook(Play(cfg, v, ops), w) && NotedBy(cfg, v, ops) == n
  }

  ghost predicate Linked(cfg: Config, v: Window, w: Window, n: Notes) {
    exists ops: Ops :: Plays(cfg, v, w, ops, n)
  }

  lemma StepReads(cfg: Config, v: Window, w: Window, op: Ledger.Op)
    requires SameBook(v, w)
    ensures SameBook(Ledger.Step(v, op, cfg.maxRolling, cfg.rollingWindow),
                     Ledger.Step(w, op, cfg.maxRolling, cfg.rollingWindow))
    ensures Noted(cfg, v, op) == Noted(cfg, w, op)
  {
    hide Admit, Insert, Retain, Mark;
  }

  lemma {:induction false} PlayReads(cfg: Config, v: Window, w: Window, ops: Ops)
    requires SameBook(v, w)
    ensures SameBook(Play(cfg, v, ops), Play(cfg, w, ops))
    ensures NotedBy(cfg, v, ops) == NotedBy(cfg, w, ops)
    decreases |ops|
  {
    hide Ledger.Step, Noted;
    if ops != [] {
      PlayReads(cfg, v, w, ops[..|ops| - 1]);
      StepReads(cfg, Play(cfg, v, ops[..|ops| - 1]), Play(cfg, w, ops[..|ops| - 1]), ops[|ops| - 1]);
    }
  }

  lemma {:induction false} PlayJoins(cfg: Config, w: Window, a: Ops, b: Ops)
    ensures Play(cfg, w, a + b) == Play(cfg, Play(cfg, w, a), b)
    ensures NotedBy(cfg, w, a + b) == NotedBy(cfg, w, a).Plus(NotedBy(cfg, Play(cfg, w, a), b))
    decreases |b|
  {
    hide Ledger.Step, Noted;
    if b == [] {
      assert a + b == a;
      NothingMore(NotedBy(cfg, w, a));
    } else {
      assert (a + b)[..|a + b| - 1] == a + b[..|b| - 1];
      PlayJoins(cfg, w, a, b[..|b| - 1]);
      var v := Play(cfg, w, a);
      PlusJoins(NotedBy(cfg, w, a), NotedBy(cfg, v, b[..|b| - 1]), Noted(cfg, Play(cfg, v, b[..|b| - 1]), b[|b| - 1]));
    }
  }

  lemma LinkSame(cfg: Config, v: Window, w: Window)
    requires SameBook(v, w)
    ensures Linked(cfg, v, w, NONE)
  {
    assert Plays(cfg, v, w, [], NONE);
  }

  lemma LinkOne(cfg: Config, v: Window, w: Window, op: Ledger.Op)
    requires SameBook(Ledger.Step(v, op, cfg.maxRolling, cfg.rollingWindow), w)
    ensures Linked(cfg, v, w, Noted(cfg, v, op))
  {
    hide Ledger.Step, Noted;
    assert [op][..0] == [];
    assert Play(cfg, v, [op][..0]) == v && NotedBy(cfg, v, [op][..0]) == NONE;
    NothingMore(Noted(cfg, v, op));
    assert Plays(cfg, v, w, [op], Noted(cfg, v, op));
  }

  lemma LinkJoins(cfg: Config, u: Window, v: Window, w: Window, m: Notes, n: Notes)
    requires Linked(cfg, u, v, m) && Linked(cfg, v, w, n)
    ensures Linked(cfg, u, w, m.Plus(n))
    ensures n == NONE ==> Linked(cfg, u, w, m)
  {
    hide Play, NotedBy;
    NothingMore(m);
    var a: Ops :| Plays(cfg, u, v, a, m);
    var b: Ops :| Plays(cfg, v, w, b, n);
    PlayJoins(cfg, u, a, b);
    PlayReads(cfg, Play(cfg, u, a), v, b);
    assert Plays(cfg, u, w, a + b, m.Plus(n));
  }

  // ---------- the engine's steps ----------

  lemma FinalizeLinks(cfg: Config, w: Window, key: EventKey, first: Time, kept: Arrivals, strays: set<Provider>,
                      now: Time)
    ensures Linked(cfg, w, FinalizeWindow(cfg, w, key, first, kept, strays, now), NONE)
  {
    hide Linked, SettledAt, Complete, LatenciesOf, CoverageOf, Admit, Insert;
    var at := SettledAt(cfg, kept, now);
    var v := FinalizeWindow(cfg, w, key, first, kept, strays, now);
    if Complete(cfg, kept) {
      LinkOne(cfg, w, v, Ledger.Commit(at, key, LatenciesOf(cfg, key, kept), Since(at, first), now));
    } else {
      LinkSame(cfg, w, v);
    }
  }

  lemma FinalizeOneLinks(cfg: Config, r: Rings, key: EventKey, first: Time, kept: Arrivals, strays: set<Provider>,
                         now: Time, victim: EventKey, at: Coin)
    ensures Linked(cfg, WindowOf(r.windows, at),
                   WindowOf(FinalizeOne(cfg, r, key, first, kept, strays, now, victim).windows, at), NONE)
  {
    hide Linked, FinalizeWindow, SettledAt, ActiveIn, SettledFull;
    var w := WindowOf(r.windows, key.coin);
    var v := FinalizeWindow(cfg, w, key, first, kept, strays, now);
    var after := WindowOf(FinalizeOne(cfg, r, key, first, kept, strays, now, victim).windows, at);
    if at == key.coin {
      FinalizeLinks(cfg, w, key, first, kept, strays, now);
      LinkSame(cfg, v, after);
      LinkJoins(cfg, w, v, after, NONE, NONE);
    } else {
      LinkSame(cfg, WindowOf(r.windows, at), after);
    }
  }

  lemma {:induction false} FinalizeAllLinks(cfg: Config, r: Rings, base: BaseKey, pb: PendingBase,
                                            strays: set<Provider>, order: seq<ContentKey>, victims: seq<EventKey>,
                                            now: Time, at: Coin)
    requires Among(order, pb) && |victims| == |order|
    ensures Linked(cfg, WindowOf(r.windows, at),
                   WindowOf(FinalizeAll(cfg, r, base, pb, strays, order, victims, now).windows, at), NONE)
    decreases |order|
  {
    hide Linked, FinalizeOne, Canonical, OnTime, WindowOf;
    var u := WindowOf(r.windows, at);
    LinkSame(cfg, u, u);
    if order != [] {
      var n := |order| - 1;
      FinalizeAllLinks(cfg, r, base, pb, strays, order[..n], victims[..n], now, at);
      var before := FinalizeAll(cfg, r, base, pb, strays, order[..n], victims[..n], now);
      var c := order[n];
      if Canonical(cfg, pb, c) {
        FinalizeOneLinks(cfg, before, KeyOf(base, c), pb.candidates[c].first, OnTime(cfg, pb, c), strays, now,
                         victims[n], at);
        LinkJoins(cfg, u, WindowOf(before.windows, at),
                  WindowOf(FinalizeAll(cfg, r, base, pb, strays, order, victims, now).windows, at), NONE, NONE);
      }
    }
  }

  /** What one engine step does to a coin's window. */
  ghost predicate Follows(cfg: Config, b: Bench, after: Bench, at: Coin, n: Notes) {
    Linked(cfg, WindowOf(b.windows, at), WindowOf(after.windows, at), n)
  }

  lemma FollowsJoin(cfg: Config, a: Bench, b: Bench, c: Bench, at: Coin, m: Notes, n: Notes)
    requires Follows(cfg, a, b, at, m) && Follows(cfg, b, c, at, n)
    ensures Follows(cfg, a, c, at, m.Plus(n))
    ensures n == NONE ==> Follows(cfg, a, c, at, m)
  {
    hide Linked, WindowOf;
    LinkJoins(cfg, WindowOf(a.windows, at), WindowOf(b.windows, at), WindowOf(c.windows, at), m, n);
  }

  lemma Unmoved(cfg: Config, b: Bench, after: Bench, at: Coin)
    requires SameBook(WindowOf(b.windows, at), WindowOf(after.windows, at))
    ensures Follows(cfg, b, after, at, NONE)
  {
    hide Linked, WindowOf;
    LinkSame(cfg, WindowOf(b.windows, at), WindowOf(after.windows, at));
  }

  lemma SettleFollows(cfg: Config, b: Bench, key: BaseKey, now: Time, evicted: bool, ch: Choice, at: Coin)
    requires Usable(b, key, ch)
    ensures Follows(cfg, b, Settle(cfg, b, key, now, evicted, ch), at, NONE)
  {
    hide Linked, FinalizeAll, SettleCounters, Strays, Enumerates, SealBase, BasesFull;
    var sealed := SealBaseWindows(cfg, b.windows, b.bases, now, ch.baseVictim);
    var marked := if evicted then BumpEviction(sealed, key.coin, now) else sealed;
    LinkSame(cfg, WindowOf(b.windows, at), WindowOf(marked, at));
    EnumeratedAmong(b, key, ch);
    FinalizeAllLinks(cfg, Rings(marked, b.settled), key, b.pending[key], Strays(cfg, b.pending[key]), ch.order,
                     ch.victims, now, at);
    LinkJoins(cfg, WindowOf(b.windows, at), WindowOf(marked, at),
              WindowOf(Settle(cfg, b, key, now, evicted, ch).windows, at), NONE, NONE);
  }

  lemma EnumeratedAmong(b: Bench, key: BaseKey, ch: Choice)
    requires Usable(b, key, ch)
    ensures Among(ch.order, b.pending[key]) && |ch.victims| == |ch.order|
  {
  }

  lemma PlaceFollows(cfg: Config, b: Bench, e: MarketEvent, at: Coin)
    ensures Follows(cfg, b, Place(b, e), at, NONE)
  {
    hide Follows, PlacedBase, PlacedCounters, JoinedBase, TooManyContents;
    Unmoved(cfg, b, Place(b, e), at);
  }

  lemma RecordFollows(cfg: Config, b: Bench, e: MarketEvent, ch: EventChoice, at: Coin)
    requires EventUsable(cfg, b, e, ch)
    ensures Follows(cfg, b, Record(cfg, b, e, ch), at, NONE)
  {
    hide Follows, Usable, Oldest, Settle, Place, Placed, CreditEvent, Config.Active, Config.Providers, Refused, Overdue,
      PendingFull, Refuse, CountSealed, SettleOverdue, Evict, PlaceAndSettle, SettlesAtOnce;
    if !cfg.Active(e.provider) {
      Unmoved(cfg, b, b, at);
    } else if Refused(e) {
      RefuseFollows(cfg, b, e, at);
    } else {
      var seen := CreditEvent(b, e, OBSERVED);
      SeenFollows(cfg, b, e, at);
      OverdueFollows(cfg, seen, e, ch.overdue, at);
      var settled := SettleOverdue(cfg, seen, e, ch.overdue);
      FollowsJoin(cfg, b, seen, settled, at, NONE, NONE);
      if e.key.Base() in settled.bases {
        SealedFollows(cfg, settled, e, at);
        FollowsJoin(cfg, b, settled, CountSealed(settled, e), at, NONE, NONE);
      } else {
        EvictFollows(cfg, settled, e, ch, at);
        var room := Evict(cfg, settled, e, ch);
        FollowsJoin(cfg, b, settled, room, at, NONE, NONE);
        JoinFollows(cfg, room, e, ch.single, at);
        FollowsJoin(cfg, b, room, PlaceAndSettle(cfg, room, e, ch.single), at, NONE, NONE);
      }
    }
  }

  lemma RefuseFollows(cfg: Config, b: Bench, e: MarketEvent, at: Coin)
    requires Refused(e)
    ensures Follows(cfg, b, Refuse(b, e), at, NONE)
  {
    hide Follows, Credit;
    Unmoved(cfg, b, Refuse(b, e), at);
  }

  lemma SeenFollows(cfg: Config, b: Bench, e: MarketEvent, at: Coin)
    ensures Follows(cfg, b, CreditEvent(b, e, OBSERVED), at, NONE)
  {
    hide Follows, Credit;
    Unmoved(cfg, b, CreditEvent(b, e, OBSERVED), at);
  }

  lemma SealedFollows(cfg: Config, b: Bench, e: MarketEvent, at: Coin)
    ensures Follows(cfg, b, CountSealed(b, e), at, NONE)
  {
    hide Follows, Credit;
    Unmoved(cfg, b, CountSealed(b, e), at);
  }

  lemma OverdueFollows(cfg: Config, b: Bench, e: MarketEvent, ch: Choice, at: Coin)
    requires Overdue(cfg, b, e.key.Base(), e.received) ==> Usable(b, e.key.Base(), ch)
    ensures Follows(cfg, b, SettleOverdue(cfg, b, e, ch), at, NONE)
  {
    hide Follows, Usable, Settle, Overdue;
    if Overdue(cfg, b, e.key.Base(), e.received) {
      SettleFollows(cfg, b, e.key.Base(), e.received, false, ch, at);
    } else {
      Unmoved(cfg, b, b, at);
    }
  }

  lemma EvictFollows(cfg: Config, b: Bench, e: MarketEvent, ch: EventChoice, at: Coin)
    requires PendingFull(cfg, b, e.key.Base()) ==> Usable(b, ch.oldest, ch.evict)
    ensures Follows(cfg, b, Evict(cfg, b, e, ch), at, NONE)
  {
    hide Follows, Usable, Settle, PendingFull;
    if PendingFull(cfg, b, e.key.Base()) {
      SettleFollows(cfg, b, ch.oldest, e.received, true, ch.evict, at);
    } else {
      Unmoved(cfg, b, b, at);
    }
  }

  lemma JoinFollows(cfg: Config, b: Bench, e: MarketEvent, ch: Choice, at: Coin)
    requires SettlesAtOnce(cfg, b, e) ==> Usable(Place(b, e), e.key.Base(), ch)
    ensures Follows(cfg, b, PlaceAndSettle(cfg, b, e, ch), at, NONE)
  {
    hide Follows, Usable, Settle, Place, SettlesAtOnce;
    PlaceFollows(cfg, b, e, at);
    if SettlesAtOnce(cfg, b, e) {
      SettleFollows(cfg, Place(b, e), e.key.Base(), e.received, false, ch, at);
      FollowsJoin(cfg, b, Place(b, e), PlaceAndSettle(cfg, b, e, ch), at, NONE, NONE);
    }
  }

  lemma {:induction false} SettleEachFollows(cfg: Config, b: Bench, now: Time, keys: seq<BaseKey>, chs: seq<Choice>,
                                             at: Coin)
    requires |chs| == |keys| && AllUsable(cfg, b, now, keys, chs)
    ensures Follows(cfg, b, SettleEach(cfg, b, now, keys, chs), at, NONE)
    decreases |keys|
  {
    hide Follows, Usable, Oldest, Settle;
    if keys == [] {
      Unmoved(cfg, b, b, at);
    } else {
      var after := Settle(cfg, b, keys[0], now, false, chs[0]);
      SettleFollows(cfg, b, keys[0], now, false, chs[0], at);
      SettleEachFollows(cfg, after, now, keys[1..], chs[1..], at);
      FollowsJoin(cfg, b, after, SettleEach(cfg, b, now, keys, chs), at, NONE, NONE);
    }
  }

  lemma PruneFollows(cfg: Config, b: Bench, now: Time, at: Coin)
    ensures Follows(cfg, b, Prune(cfg, b, now), at,
                    Notes([], Ledger.Aged(WindowOf(b.windows, at).cohorts, now, cfg.rollingWindow)))
  {
    hide Linked, Retain, Ledger.Aged;
    LinkOne(cfg, WindowOf(b.windows, at), WindowOf(Prune(cfg, b, now).windows, at), Ledger.Prune(now));
  }

  lemma MarkFollows(cfg: Config, b: Bench, through: Time, at: Coin)
    ensures Follows(cfg, b, b.(windows := MarkAll(b.windows, through)), at,
                    Notes([Ledger.Due(WindowOf(b.windows, at).cohorts, through)], {}))
  {
    hide Linked, Mark, Ledger.Due;
    var w, v := WindowOf(b.windows, at), WindowOf(MarkAll(b.windows, through), at);
    MarkedWindow(b.windows, through, at);
    LinkOne(cfg, w, v, Ledger.Publish(through, true));
  }

  lemma MarkedWindow(ws: CoinWindows, through: Time, at: Coin)
    ensures WindowOf(MarkAll(ws, through), at).cohorts == Mark(WindowOf(ws, at).cohorts, through)
    ensures WindowOf(MarkAll(ws, through), at).complete == WindowOf(ws, at).complete
  {
    assert |Mark([], through)| == 0;
  }

  // ---------- runs ----------

  /** The cohorts of a coin that one input reports, or finds older than the rolling window once it has
      settled what was due. */
  ghost function InputNotes(cfg: Config, b: Bench, i: Input, at: Coin): Notes
    requires InputUsable(cfg, b, i)
  {
    match i
    case Published(through) => Notes([Ledger.Due(WindowOf(b.windows, at).cohorts, through)], {})
    case TickAt(now, keys, chs) =>
      Notes([], Ledger.Aged(WindowOf(SettleEach(cfg, b, now, keys, chs).windows, at).cohorts, now, cfg.rollingWindow))
    case Event(_, _) => NONE
  }

  /** The same over a run's first `n` inputs. */
  ghost function RunNotes(cfg: Config, inputs: seq<Input>, states: seq<Bench>, n: nat, at: Coin): Notes
    requires Run(cfg, inputs, states) && n <= |inputs|
  {
    if n == 0 then NONE
    else RunNotes(cfg, inputs, states, n - 1, at).Plus(InputNotes(cfg, states[n - 1], inputs[n - 1], at))
  }

  lemma StepFollows(cfg: Config, b: Bench, i: Input, at: Coin)
    requires InputUsable(cfg, b, i)
    ensures Follows(cfg, b, StepInput(cfg, b, i), at, InputNotes(cfg, b, i, at))
  {
    hide Follows, Record, SettleEach, Prune, AllUsable, EventUsable, Expired, MarkAll, WindowOf, Ledger.Due,
      Ledger.Aged;
    match i
    case Event(e, ch) => RecordFollows(cfg, b, e, ch, at);
    case TickAt(now, keys, chs) =>
      var settled := SettleEach(cfg, b, now, keys, chs);
      SettleEachFollows(cfg, b, now, keys, chs, at);
      PruneFollows(cfg, settled, now, at);
      var aged := Notes([], Ledger.Aged(WindowOf(settled.windows, at).cohorts, now, cfg.rollingWindow));
      FollowsJoin(cfg, b, settled, Tick(cfg, b, now, keys, chs), at, NONE, aged);
      NothingMore(aged);
    case Published(through) => MarkFollows(cfg, b, through, at);
  }

  lemma {:induction false} RunFollows(cfg: Config, inputs: seq<Input>, states: seq<Bench>, n: nat, at: Coin)
    requires Run(cfg, inputs, states) && n < |states|
    ensures Follows(cfg, states[0], states[n], at, RunNotes(cfg, inputs, states, n, at))
    decreases n
  {
    hide Follows, InputUsable, StepInput, InputNotes;
    if n == 0 {
      Unmoved(cfg, states[0], states[0], at);
    } else {
      RunFollows(cfg, inputs, states, n - 1, at);
      StepFollows(cfg, states[n - 1], inputs[n - 1], at);
      FollowsJoin(cfg, states[0], states[n - 1], states[n], at, RunNotes(cfg, inputs, states, n - 1, at),
                  InputNotes(cfg, states[n - 1], inputs[n - 1], at));
    }
  }

  lemma {:induction false} BookPlays(cfg: Config, ops: Ops)
    ensures var b, n := Ledger.RunBook(ops, cfg.maxRolling, cfg.rollingWindow), NotedBy(cfg, EMPTY_WINDOW, ops);
            b.w == Play(cfg, EMPTY_WINDOW, ops) && b.published == n.due && b.aged == n.aged
    decreases |ops|
  {
    hide Admit, Insert, Mark, Retain, Ledger.Serials, Ledger.Due, Ledger.Aged;
    if ops != [] {
      BookPlays(cfg, ops[..|ops| - 1]);
    }
  }

  /** Over every engine run the committed publications of a coin report pairwise disjoint sets of its
      cohorts, none of them still open in the ring. Every cohort it ever committed is in the ring, was
      older than the rolling window at some tick, or was evicted, and as many were evicted as the rolling
      eviction count says; so the running count is what was reported, what is open, and what left the
      ring unreported in one of these two ways. */
  lemma EngineKeepsBooks(cfg: Config, inputs: seq<Input>, states: seq<Bench>, n: nat, at: Coin)
    requires Run(cfg, inputs, states) && n < |states|
    ensures |states| == |inputs| + 1
    ensures var notes, w := RunNotes(cfg, inputs, states, n, at), WindowOf(states[n].windows, at);
            var reported, aged := Ledger.Reported(notes.due), notes.aged;
            var evicted := Ledger.Below(w.complete) - Ledger.Serials(w.cohorts) - aged;
            && (forall i, j :: 0 <= i < j < |notes.due| ==> notes.due[i] !! notes.due[j])
            && reported !! Ledger.Open(w.cohorts)
            && Ledger.Serials(w.cohorts) !! aged
            && |evicted| == w.rollingEvictions
            && w.complete == |w.cohorts| + w.rollingEvictions + |aged|
            && w.complete == |reported| + |Ledger.Open(w.cohorts)| + |evicted + aged - reported|
  {
    hide Run, Play, NotedBy, RunNotes, WindowOf, Ledger.RunBook, Ledger.Reported, Ledger.Open, Ledger.Serials,
      Ledger.DistinctSerials, Ledger.Below;
    NewWindow(cfg, inputs, states, at);
    RunFollows(cfg, inputs, states, n, at);
    var w, notes := WindowOf(states[n].windows, at), RunNotes(cfg, inputs, states, n, at);
    var ops: Ops :| Plays(cfg, EMPTY_WINDOW, w, ops, notes);
    BookPlays(cfg, ops);
    var book := Ledger.RunBook(ops, cfg.maxRolling, cfg.rollingWindow);
    Ledger.BooksBalance(ops, cfg.maxRolling, cfg.rollingWindow);
    Ledger.LifetimeCount(ops, cfg.maxRolling, cfg.rollingWindow);
    assert Ledger.Below(w.complete) - Ledger.Serials(w.cohorts) - notes.aged == book.evicted;
  }

  lemma NewWindow(cfg: Config, inputs: seq<Input>, states: seq<Bench>, at: Coin)
    requires Run(cfg, inputs, states)
    ensures |states| == |inputs| + 1 && WindowOf(states[0].windows, at) == EMPTY_WINDOW
  {
    hide InputUsable, StepInput;
  }
}
