/** One coin's rolling rings in `src/benchmark.rs`: sorted insertion, caps, pruning, and the outcome
    counts that each publication takes from them. */
module Windows {
  import opened Common
  import opened Model

  // ---------- sorted rings ----------

  datatype Stamped<+T> = Stamped(at: Time, it: T)

  predicate Sorted<T>(ring: seq<Stamped<T>>) {
    forall i, j :: 0 <= i < j < |ring| ==> ring[i].at <= ring[j].at
  }

  /** `position(|c| c.at > at).unwrap_or(len)`. */
  function Position<T>(ring: seq<Stamped<T>>, at: Time): (k: nat)
    ensures k <= |ring|
    ensures forall i :: 0 <= i < k ==> ring[i].at <= at
    ensures k < |ring| ==> ring[k].at > at
  {
    if ring == [] || ring[0].at > at then 0
    else
      var k := Position(ring[1..], at);
      assert forall i :: 0 < i < k + 1 ==> ring[i] == ring[1..][i - 1];
      k + 1
  }

  function Insert<T>(ring: seq<Stamped<T>>, x: Stamped<T>): seq<Stamped<T>> {
    var k := Position(ring, x.at);
    ring[..k] + [x] + ring[k..]
  }

  /** Insert in commit order, then drop the oldest if the ring is over its cap. */
  function Admit<T>(ring: seq<Stamped<T>>, x: Stamped<T>, cap: nat): seq<Stamped<T>> {
    var r := Insert(ring, x);
    if |r| > cap then r[1..] else r
  }

  /** What `Admit` drops. */
  function Dropped<T>(ring: seq<Stamped<T>>, x: Stamped<T>, cap: nat): seq<Stamped<T>> {
    var r := Insert(ring, x);
    if |r| > cap then r[..1] else []
  }

  lemma InsertAt<T>(ring: seq<Stamped<T>>, x: Stamped<T>)
    ensures var k, r := Position(ring, x.at), Insert(ring, x);
            && |r| == |ring| + 1 && r[k] == x
            && (forall i :: 0 <= i < k ==> r[i] == ring[i])
            && (forall i :: k < i < |r| ==> r[i] == ring[i - 1])
  {
  }

  lemma InsertSorted<T>(ring: seq<Stamped<T>>, x: Stamped<T>)
    requires Sorted(ring)
    ensures Sorted(Insert(ring, x))
  {
    hide Insert;
    InsertAt(ring, x);
    var k, r := Position(ring, x.at), Insert(ring, x);
    forall i, j | 0 <= i < j < |r|
      ensures r[i].at <= r[j].at
    {
      if j > k {
        assert r[j].at >= ring[k].at;
      }
    }
  }

  lemma InsertKeeps<T>(ring: seq<Stamped<T>>, x: Stamped<T>)
    requires Sorted(ring)
    ensures Sorted(Insert(ring, x))
    ensures multiset(Insert(ring, x)) == multiset(ring) + multiset{x}
    ensures |Insert(ring, x)| == |ring| + 1
  {
    hide Sorted;
    InsertSorted(ring, x);
    var k := Position(ring, x.at);
    assert ring == ring[..k] + ring[k..];
  }

  /** A ring stays sorted and within its cap, loses nothing but its oldest entries, and those only
      when it is full. */
  lemma AdmitKeeps<T>(ring: seq<Stamped<T>>, x: Stamped<T>, cap: nat)
    requires Sorted(ring) && |ring| <= cap
    ensures var r, gone := Admit(ring, x, cap), Dropped(ring, x, cap);
            && Sorted(r) && |r| <= cap
            && multiset(gone) + multiset(r) == multiset(ring) + multiset{x}
            && (gone != [] ==> |r| == cap)
            && (forall d, e :: d in gone && e in r ==> d.at <= e.at)
  {
    InsertKeeps(ring, x);
    var r := Insert(ring, x);
    if |r| > cap {
      assert r == r[..1] + r[1..];
    }
  }

  /** `retain(|c| now - c.at <= window)`. */
  function Retain<T(!new)>(ring: seq<Stamped<T>>, now: Time, window: nat): (r: seq<Stamped<T>>)
    ensures forall x :: x in r <==> x in ring && Since(now, x.at) <= window
    ensures |r| <= |ring|
    decreases |ring|
  {
    if ring == [] then []
    else
      assert forall x :: x in ring <==> x == ring[0] || x in ring[1..];
      (if Since(now, ring[0].at) <= window then [ring[0]] else []) + Retain(ring[1..], now, window)
  }

  lemma {:induction false} RetainKeepsSorted<T(!new)>(ring: seq<Stamped<T>>, now: Time, window: nat)
    requires Sorted(ring)
    ensures Sorted(Retain(ring, now, window))
    decreases |ring|
  {
    if ring != [] {
      RetainKeepsSorted(ring[1..], now, window);
      var tail := Retain(ring[1..], now, window);
      forall i | 0 <= i < |tail|
        ensures ring[0].at <= tail[i].at
      {
        assert tail[i] in ring[1..];
        var j :| 0 <= j < |ring[1..]| && ring[1..][j] == tail[i];
        assert ring[j + 1] == tail[i];
      }
    }
  }

  /** Pruning by age keeps every copy of an entry at most `window` old, and no other. */
  lemma {:induction false} RetainKeeps<T(!new)>(ring: seq<Stamped<T>>, now: Time, window: nat, x: Stamped<T>)
    ensures multiset(Retain(ring, now, window))[x] == if now <= x.at + window then multiset(ring)[x] else 0
    decreases |ring|
  {
    if ring != [] {
      RetainKeeps(ring[1..], now, window, x);
      assert ring == [ring[0]] + ring[1..];
      var tail := Retain(ring[1..], now, window);
      assert multiset([ring[0]] + tail) == multiset{ring[0]} + multiset(tail);
    }
  }

  // ---------- one coin's window ----------

  type Latencies = l: seq<nat> | |l| == PROVIDERS witness [0, 0, 0, 0, 0, 0]

  /** `CommittedCohort`; `key` and `serial` (how many cohorts the coin had committed before) identify
      it in specifications. */
  datatype Cohort = Cohort(key: EventKey, serial: nat, eventMs: nat, latency: Latencies, commitDelay: nat,
                           reported: bool)

  datatype CoverageOutcome = Matched | Missing | Mismatch

  datatype Coverage = Coverage(key: EventKey, outcomes: map<Provider, CoverageOutcome>)

  type Ring = seq<Stamped<Cohort>>
  type CoverageRing = seq<Stamped<Coverage>>

  datatype Window = Window(
    cohorts: Ring, coverage: CoverageRing, complete: nat,
    stateEvictions: nat, rollingEvictions: nat, coverageEvictions: nat, lastLoss: Option<Time>)

  const EMPTY_WINDOW: Window := Window([], [], 0, 0, 0, 0, None)

  /** The coverage half of `finalize_candidate`. */
  function AdmitCoverage(w: Window, x: Stamped<Coverage>, cap: nat, now: Time): Window {
    var over := |Insert(w.coverage, x)| > cap;
    w.(coverage := Admit(w.coverage, x, cap),
       coverageEvictions := w.coverageEvictions + if over then 1 else 0,
       lastLoss := if over then Some(now) else w.lastLoss)
  }

  /** The latency half of `finalize_candidate`; the new cohort's serial is the running count. */
  function AdmitCohort(w: Window, at: Time, key: EventKey, latency: Latencies, commitDelay: nat, cap: nat,
                       now: Time): Window
  {
    var x := Stamped(at, Cohort(key, w.complete, key.eventMs, latency, commitDelay, false));
    var over := |Insert(w.cohorts, x)| > cap;
    w.(cohorts := Admit(w.cohorts, x, cap),
       complete := w.complete + 1,
       rollingEvictions := w.rollingEvictions + if over then 1 else 0,
       lastLoss := if over then Some(now) else w.lastLoss)
  }

  function PruneWindow(w: Window, now: Time, window: nat): Window {
    w.(cohorts := Retain(w.cohorts, now, window), coverage := Retain(w.coverage, now, window))
  }

  /** A commit adds one entry to each ring it touches and counts an eviction, with the time of the loss,
      exactly when that ring was full. */
  lemma AdmitCounts(w: Window, c: Stamped<Coverage>, at: Time, key: EventKey, latency: Latencies, commitDelay: nat,
                    cap: nat, now: Time)
    ensures var v, full := AdmitCoverage(w, c, cap, now), |w.coverage| >= cap;
            && v.coverageEvictions == w.coverageEvictions + (if full then 1 else 0)
            && v.lastLoss == (if full then Some(now) else w.lastLoss)
            && |v.coverage| == |w.coverage| + (if full then 0 else 1)
            && v.(coverage := w.coverage, coverageEvictions := w.coverageEvictions, lastLoss := w.lastLoss) == w
    ensures var v, full := AdmitCohort(w, at, key, latency, commitDelay, cap, now), |w.cohorts| >= cap;
            && v.rollingEvictions == w.rollingEvictions + (if full then 1 else 0)
            && v.lastLoss == (if full then Some(now) else w.lastLoss)
            && |v.cohorts| == |w.cohorts| + (if full then 0 else 1) && v.complete == w.complete + 1
            && v.(cohorts := w.cohorts, rollingEvictions := w.rollingEvictions, lastLoss := w.lastLoss,
                  complete := w.complete) == w
  {
  }

  // ---------- outcome counts ----------

  type Counts = c: seq<nat> | |c| == PROVIDERS witness [0, 0, 0, 0, 0, 0]

  datatype OutcomeCounts = OutcomeCounts(complete: nat, strict: Counts, tied: Counts, ties: nat)

  const NO_OUTCOMES: OutcomeCounts := OutcomeCounts(0, [0, 0, 0, 0, 0, 0], [0, 0, 0, 0, 0, 0], 0)

  function Fastest(latency: Latencies, providers: seq<Provider>): (f: nat)
    requires providers != []
    ensures exists p: Provider :: p in providers && latency[p] == f
    ensures forall p: Provider :: p in providers ==> f <= latency[p]
  {
    if |providers| == 1 then
      assert providers[0] in providers; latency[providers[0]]
    else
      var f := Fastest(latency, providers[1..]);
      assert forall p :: p in providers <==> p == providers[0] || p in providers[1..];
      if latency[providers[0]] <= f then latency[providers[0]] else f
  }

  /** The providers that are fastest, in order. */
  function Winners(latency: Latencies, providers: seq<Provider>, f: nat): (w: seq<Provider>)
    ensures forall p :: p in w <==> p in providers && latency[p] == f
    decreases |providers|
  {
    if providers == [] then []
    else
      assert forall p :: p in providers <==> p == providers[0] || p in providers[1..];
      (if latency[providers[0]] == f then [providers[0]] else []) + Winners(latency, providers[1..], f)
  }

  function Bump(c: Counts, p: Provider): Counts {
    c[p := c[p] + 1]
  }

  function BumpAll(c: Counts, ps: seq<Provider>): Counts
    decreases |ps|
  {
    if ps == [] then c else BumpAll(Bump(c, ps[0]), ps[1..])
  }

  /** One cohort's outcome: a strict win, or a tie among all its fastest providers. */
  function Score(c: OutcomeCounts, latency: Latencies, providers: seq<Provider>): OutcomeCounts
    requires providers != []
  {
    var winners := Winners(latency, providers, Fastest(latency, providers));
    if |winners| == 1 then c.(complete := c.complete + 1, strict := Bump(c.strict, winners[0]))
    else c.(complete := c.complete + 1, ties := c.ties + 1, tied := BumpAll(c.tied, winners))
  }

  /** A cohort the next publication up to `now` counts. */
  predicate Pending(x: Stamped<Cohort>, now: Time) {
    !x.it.reported && x.at <= now
  }

  function Unreported(ring: Ring, now: Time, providers: seq<Provider>): OutcomeCounts
    requires providers != []
    decreases |ring|
  {
    if ring == [] then NO_OUTCOMES
    else
      var last := ring[|ring| - 1];
      var c := Unreported(ring[..|ring| - 1], now, providers);
      if Pending(last, now) then Score(c, last.it.latency, providers) else c
  }

  /** What a publication says of a coin: nothing where a provider has no one to race. */
  function Published(cfg: Config, ring: Ring, now: Time): OutcomeCounts {
    ConfigIsSound(cfg);
    if cfg.HasComparison() then Unreported(ring, now, cfg.Providers()) else NO_OUTCOMES
  }

  method UnreportedOutcomes(ring: Ring, now: Time, providers: seq<Provider>) returns (c: OutcomeCounts)
    requires providers != []
    ensures c == Unreported(ring, now, providers)
    ensures Distinct(providers) ==> c.complete == |set i | 0 <= i < |ring| && !ring[i].it.reported && ring[i].at <= now|
  {
    hide Score;
    if Distinct(providers) {
      OutcomesMean(ring, now, providers, providers[0]);
      DueAre(ring, now);
    }
    c := NO_OUTCOMES;
    for i := 0 to |ring|
      invariant c == Unreported(ring[..i], now, providers)
    {
      assert ring[..i + 1][..i] == ring[..i];
      if Pending(ring[i], now) {
        c := Score(c, ring[i].it.latency, providers);
      }
    }
    assert ring[..|ring|] == ring;
  }

  /** `mark_outcomes_reported`. */
  function Mark(ring: Ring, through: Time): (r: Ring)
    ensures |r| == |ring|
    ensures forall i :: 0 <= i < |ring| ==>
              r[i] == if Pending(ring[i], through) then ring[i].(it := ring[i].it.(reported := true)) else ring[i]
  {
    seq(|ring|, i requires 0 <= i < |ring| =>
      if Pending(ring[i], through) then ring[i].(it := ring[i].it.(reported := true)) else ring[i])
  }

  method MarkOutcomesReported(ring: Ring, through: Time) returns (r: Ring)
    ensures r == Mark(ring, through)
    ensures |r| == |ring|
    ensures forall i :: 0 <= i < |ring| ==>
              && r[i].at == ring[i].at && r[i].it.(reported := ring[i].it.reported) == ring[i].it
              && (r[i].it.reported <==> ring[i].it.reported || ring[i].at <= through)
  {
    r := ring;
    for i := 0 to |ring|
      invariant |r| == |ring|
      invariant forall j :: 0 <= j < i ==> r[j] == Mark(ring, through)[j]
      invariant forall j :: i <= j < |ring| ==> r[j] == ring[j]
    {
      if Pending(r[i], through) {
        r := r[i := r[i].(it := r[i].it.(reported := true))];
      }
    }
  }

  function Sum(c: Counts): nat {
    c[0] + c[1] + c[2] + c[3] + c[4] + c[5]
  }

  lemma BumpSum(c: Counts, p: Provider)
    ensures Sum(Bump(c, p)) == Sum(c) + 1
  {
  }

  lemma {:induction false} BumpAllSum(c: Counts, ps: seq<Provider>)
    ensures Sum(BumpAll(c, ps)) == Sum(c) + |ps|
    decreases |ps|
  {
    hide Sum, Bump;
    if ps != [] {
      BumpSum(c, ps[0]);
      BumpAllSum(Bump(c, ps[0]), ps[1..]);
    }
  }

  /** The published company columns of the strict counts. */
  function Families(c: Counts): nat {
    c[FOUNDATION_WS] + (c[HYDROMANCER_WS] + c[HYDROMANCER_PEERING]) + (c[QUICKNODE_GRPC] + c[QUICKNODE_PEERING])
    + c[QUICKNODE_VPC]
  }

  /** In every publication the company columns and the ties account for every complete cohort, and
      each tie is shared by at least two providers. */
  lemma {:induction false} OutcomesBalance(ring: Ring, now: Time, providers: seq<Provider>)
    requires providers != []
    ensures var c := Unreported(ring, now, providers);
            && Families(c.strict) + c.ties == c.complete
            && Families(c.tied) >= 2 * c.ties
    decreases |ring|
  {
    hide Fastest, Winners, BumpAll, Bump;
    if ring != [] {
      var last, init := ring[|ring| - 1], ring[..|ring| - 1];
      OutcomesBalance(init, now, providers);
      if Pending(last, now) {
        var c := Unreported(init, now, providers);
        var f := Fastest(last.it.latency, providers);
        var winners := Winners(last.it.latency, providers, f);
        SomeWinner(last.it.latency, providers);
        if |winners| == 1 {
          BumpSum(c.strict, winners[0]);
        } else {
          BumpAllSum(c.tied, winners);
        }
      }
    }
  }

  lemma SomeWinner(latency: Latencies, providers: seq<Provider>)
    requires providers != []
    ensures Winners(latency, providers, Fastest(latency, providers)) != []
  {
    var f := Fastest(latency, providers);
    var p: Provider :| p in providers && latency[p] == f;
    assert p in Winners(latency, providers, f);
  }

  // ---------- what the counts mean ----------

  /** `p` was strictly faster than every other provider of the cohort. */
  predicate Beats(latency: Latencies, providers: seq<Provider>, p: Provider) {
    p in providers && forall q: Provider :: q in providers && q != p ==> latency[p] < latency[q]
  }

  ghost function Wins(ring: Ring, now: Time, providers: seq<Provider>, p: Provider): set<nat> {
    set i | 0 <= i < |ring| && Pending(ring[i], now) && Beats(ring[i].it.latency, providers, p)
  }

  ghost function PendingIn(ring: Ring, now: Time): set<nat> {
    set i | 0 <= i < |ring| && Pending(ring[i], now)
  }

  lemma DueAre(ring: Ring, now: Time)
    ensures PendingIn(ring, now) == set i | 0 <= i < |ring| && !ring[i].it.reported && ring[i].at <= now
  {
  }

  /** The sole winner beats everyone, and whoever beats everyone is the sole winner. */
  lemma SoleWinner(latency: Latencies, providers: seq<Provider>, p: Provider)
    requires providers != [] && Distinct(providers)
    ensures Beats(latency, providers, p) <==> Winners(latency, providers, Fastest(latency, providers)) == [p]
  {
    hide Beats, Winners, Fastest, Distinct;
    var f := Fastest(latency, providers);
    var w := Winners(latency, providers, f);
    WinnersDistinct(latency, providers, f);
    SomeWinner(latency, providers);
    if w == [p] {
      SoleBeats(latency, providers, p);
    }
    if Beats(latency, providers, p) {
      BeatsAlone(latency, providers, p);
      OnlyOne(w, p);
    }
  }

  lemma SoleBeats(latency: Latencies, providers: seq<Provider>, p: Provider)
    requires providers != [] && Winners(latency, providers, Fastest(latency, providers)) == [p]
    ensures Beats(latency, providers, p)
  {
    hide Winners, Fastest;
    var f := Fastest(latency, providers);
    var w := Winners(latency, providers, f);
    assert p in w;
    forall q: Provider | q in providers && q != p
      ensures latency[p] < latency[q]
    {
      assert q !in w;
    }
  }

  lemma BeatsAlone(latency: Latencies, providers: seq<Provider>, p: Provider)
    requires providers != [] && Beats(latency, providers, p)
    ensures forall q: Provider :: q in Winners(latency, providers, Fastest(latency, providers)) ==> q == p
  {
    hide Winners, Fastest;
    var f := Fastest(latency, providers);
    assert f <= latency[p];
  }

  lemma OnlyOne(w: seq<Provider>, p: Provider)
    requires Distinct(w) && w != [] && forall q: Provider :: q in w ==> q == p
    ensures w == [p]
  {
    assert |w| > 1 ==> w[0] != w[1];
    forall i | 0 <= i < |w|
      ensures w[i] == p
    {
      assert w[i] in w;
    }
  }

  lemma {:induction false} WinnersDistinct(latency: Latencies, providers: seq<Provider>, f: nat)
    requires Distinct(providers)
    ensures Distinct(Winners(latency, providers, f))
    decreases |providers|
  {
    if providers != [] {
      WinnersDistinct(latency, providers[1..], f);
      assert providers[0] !in providers[1..];
    }
  }

  /** A publication counts exactly the cohorts due for it, and a strict win exactly where one
      provider was faster than all the others. */
  lemma {:induction false} OutcomesMean(ring: Ring, now: Time, providers: seq<Provider>, p: Provider)
    requires providers != [] && Distinct(providers)
    ensures var c := Unreported(ring, now, providers);
            c.complete == |PendingIn(ring, now)| && c.strict[p] == |Wins(ring, now, providers, p)|
    decreases |ring|
  {
    hide Fastest, Winners, BumpAll, Beats, Pending, Distinct;
    if ring == [] {
      assert PendingIn(ring, now) == {} && Wins(ring, now, providers, p) == {};
    } else {
      var n := |ring| - 1;
      var init := ring[..n];
      OutcomesMean(init, now, providers, p);
      SoleWinner(ring[n].it.latency, providers, p);
      PendingStep(ring, now, providers, p);
    }
  }

  lemma PendingStep(ring: Ring, now: Time, providers: seq<Provider>, p: Provider)
    requires ring != []
    ensures var n := |ring| - 1;
            && |PendingIn(ring, now)| == |PendingIn(ring[..n], now)| + (if Pending(ring[n], now) then 1 else 0)
            && |Wins(ring, now, providers, p)|
               == |Wins(ring[..n], now, providers, p)|
                  + (if Pending(ring[n], now) && Beats(ring[n].it.latency, providers, p) then 1 else 0)
  {
    hide Beats, Pending;
    var n := |ring| - 1;
    assert PendingIn(ring, now) == PendingIn(ring[..n], now) + if Pending(ring[n], now) then {n} else {};
    assert Wins(ring, now, providers, p) == Wins(ring[..n], now, providers, p)
           + if Pending(ring[n], now) && Beats(ring[n].it.latency, providers, p) then {n} else {};
  }

  /** `p` shares the least latency of the cohort with another provider. */
  predicate SharesLeast(latency: Latencies, providers: seq<Provider>, p: Provider) {
    && p in providers && (forall q: Provider :: q in providers ==> latency[p] <= latency[q])
    && exists q: Provider :: q in providers && q != p && latency[q] == latency[p]
  }

  /** Some two providers share the least latency of the cohort. */
  predicate Ties(latency: Latencies, providers: seq<Provider>) {
    exists p: Provider :: SharesLeast(latency, providers, p)
  }

  ghost function SharedBy(ring: Ring, now: Time, providers: seq<Provider>, p: Provider): set<nat> {
    set i | 0 <= i < |ring| && Pending(ring[i], now) && SharesLeast(ring[i].it.latency, providers, p)
  }

  ghost function TiesIn(ring: Ring, now: Time, providers: seq<Provider>): set<nat> {
    set i | 0 <= i < |ring| && Pending(ring[i], now) && Ties(ring[i].it.latency, providers)
  }

  lemma {:induction false} BumpAllAt(c: Counts, ps: seq<Provider>, p: Provider)
    requires Distinct(ps)
    ensures BumpAll(c, ps)[p] == c[p] + if p in ps then 1 else 0
    decreases |ps|
  {
    if ps != [] {
      assert ps == [ps[0]] + ps[1..];
      assert ps[0] !in ps[1..];
      BumpAllAt(Bump(c, ps[0]), ps[1..], p);
    }
  }

  /** The winners of a tie are exactly those who share the least latency. */
  lemma SharedWin(latency: Latencies, providers: seq<Provider>, p: Provider)
    requires providers != [] && Distinct(providers)
    ensures var w := Winners(latency, providers, Fastest(latency, providers));
            SharesLeast(latency, providers, p) <==> |w| != 1 && p in w
  {
    hide Winners, Fastest, Distinct;
    var f := Fastest(latency, providers);
    var w := Winners(latency, providers, f);
    WinnersDistinct(latency, providers, f);
    if SharesLeast(latency, providers, p) {
      var q: Provider :| q in providers && q != p && latency[q] == latency[p];
      var g: Provider :| g in providers && latency[g] == f;
      assert p in w && q in w;
    }
    if |w| != 1 && p in w {
      AnotherOne(w, p);
      var q: Provider :| q in w && q != p;
      assert q in providers && latency[q] == latency[p];
    }
  }

  lemma AnotherOne(w: seq<Provider>, p: Provider)
    requires Distinct(w) && p in w && |w| != 1
    ensures exists q: Provider :: q in w && q != p
  {
    assert w[0] != w[1];
    assert w[0] in w && w[1] in w;
  }

  lemma TiesIff(latency: Latencies, providers: seq<Provider>)
    requires providers != [] && Distinct(providers)
    ensures Ties(latency, providers) <==> |Winners(latency, providers, Fastest(latency, providers))| != 1
  {
    hide Winners, Fastest, Distinct, SharesLeast;
    var w := Winners(latency, providers, Fastest(latency, providers));
    SomeWinner(latency, providers);
    SharedWin(latency, providers, w[0]);
    assert w[0] in w;
    forall p: Provider
      ensures SharesLeast(latency, providers, p) ==> |w| != 1
    {
      SharedWin(latency, providers, p);
    }
  }

  lemma SharedStep(ring: Ring, now: Time, providers: seq<Provider>, p: Provider)
    requires ring != []
    ensures var n := |ring| - 1;
            && |SharedBy(ring, now, providers, p)|
               == |SharedBy(ring[..n], now, providers, p)|
                  + (if Pending(ring[n], now) && SharesLeast(ring[n].it.latency, providers, p) then 1 else 0)
            && |TiesIn(ring, now, providers)|
               == |TiesIn(ring[..n], now, providers)|
                  + (if Pending(ring[n], now) && Ties(ring[n].it.latency, providers) then 1 else 0)
  {
    hide SharesLeast, Ties, Pending;
    var n := |ring| - 1;
    assert SharedBy(ring, now, providers, p) == SharedBy(ring[..n], now, providers, p)
           + if Pending(ring[n], now) && SharesLeast(ring[n].it.latency, providers, p) then {n} else {};
    assert TiesIn(ring, now, providers) == TiesIn(ring[..n], now, providers)
           + if Pending(ring[n], now) && Ties(ring[n].it.latency, providers) then {n} else {};
  }

  /** A publication counts a tie exactly where two providers share the least latency, and credits it to
      exactly those who do. */
  lemma {:induction false} TiesMean(ring: Ring, now: Time, providers: seq<Provider>, p: Provider)
    requires providers != [] && Distinct(providers)
    ensures var c := Unreported(ring, now, providers);
            c.tied[p] == |SharedBy(ring, now, providers, p)| && c.ties == |TiesIn(ring, now, providers)|
    decreases |ring|
  {
    hide Fastest, Winners, BumpAll, SharesLeast, Ties, Pending, Distinct;
    if ring == [] {
      assert SharedBy(ring, now, providers, p) == {} && TiesIn(ring, now, providers) == {};
    } else {
      var n := |ring| - 1;
      var latency := ring[n].it.latency;
      TiesMean(ring[..n], now, providers, p);
      var w := Winners(latency, providers, Fastest(latency, providers));
      SharedWin(latency, providers, p);
      TiesIff(latency, providers);
      WinnersDistinct(latency, providers, Fastest(latency, providers));
      BumpAllAt(Unreported(ring[..n], now, providers).tied, w, p);
      SharedStep(ring, now, providers, p);
    }
  }

  // ---------- rolling coverage ----------

  datatype CoverageCounts = CoverageCounts(matched: nat, missing: nat, mismatch: nat)

  /** The first `n` cohorts with outcome `o` for `p`. */
  ghost function Having(ring: CoverageRing, p: Provider, o: CoverageOutcome, n: nat): set<nat>
    requires n <= |ring| && forall x <- ring :: p in x.it.outcomes
  {
    set i | 0 <= i < n && ring[i].it.outcomes[p] == o
  }

  lemma HavingStep(ring: CoverageRing, p: Provider, o: CoverageOutcome, n: nat)
    requires n < |ring| && forall x <- ring :: p in x.it.outcomes
    ensures |Having(ring, p, o, n + 1)|
            == |Having(ring, p, o, n)| + if ring[n].it.outcomes[p] == o then 1 else 0
  {
    assert ring[n] in ring;
    assert Having(ring, p, o, n + 1)
           == Having(ring, p, o, n) + if ring[n].it.outcomes[p] == o then {n} else {};
  }

  /** A mismatch is also a missing cohort. */
  method RollingCoverage(ring: CoverageRing, p: Provider) returns (c: CoverageCounts)
    requires forall x <- ring :: p in x.it.outcomes
    ensures c.matched + c.missing == |ring|
    ensures c.matched == |Having(ring, p, Matched, |ring|)|
    ensures c.mismatch == |Having(ring, p, Mismatch, |ring|)|
  {
    hide Having;
    c := CoverageCounts(0, 0, 0);
    NoneHaving(ring, p);
    for n := 0 to |ring|
      invariant c.matched + c.missing == n
      invariant c.matched == |Having(ring, p, Matched, n)|
      invariant c.mismatch == |Having(ring, p, Mismatch, n)|
    {
      HavingStep(ring, p, Matched, n);
      HavingStep(ring, p, Mismatch, n);
      assert ring[n] in ring;
      match ring[n].it.outcomes[p]
      case Matched => c := c.(matched := c.matched + 1);
      case Missing => c := c.(missing := c.missing + 1);
      case Mismatch => c := c.(missing := c.missing + 1, mismatch := c.mismatch + 1);
    }
  }

  lemma NoneHaving(ring: CoverageRing, p: Provider)
    requires forall x <- ring :: p in x.it.outcomes
    ensures Having(ring, p, Matched, 0) == {} == Having(ring, p, Mismatch, 0)
  {
  }
}
