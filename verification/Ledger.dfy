/** Publication accounting for one coin: every complete cohort is reported in at most one accepted
    publication, and none is lost track of. */
module Ledger {
  import opened Common
  import opened Model
  import opened Windows

  /** What happens to one coin's window between two observations. `Publish` is prepare, submit and
      commit or reject with no record in between, as `publish_window` runs them. */
  datatype Op =
    | Commit(at: Time, key: EventKey, latency: Latencies, commitDelay: nat, now: Time)
    | Prune(now: Time)
    | Publish(now: Time, accepted: bool)

  /** The window, and for the specification the serials each accepted publication counted, those a
      commit pushed out of the ring, and those a prune found older than the rolling window. */
  datatype Book = Book(w: Window, published: seq<set<nat>>, evicted: set<nat>, aged: set<nat>)

  const NEW_BOOK: Book := Book(EMPTY_WINDOW, [], {}, {})

  ghost function Serials(ring: Ring): set<nat> {
    set i | 0 <= i < |ring| :: ring[i].it.serial
  }

  /** Serials of the cohorts no accepted publication has counted. */
  ghost function Open(ring: Ring): set<nat> {
    set i | 0 <= i < |ring| && !ring[i].it.reported :: ring[i].it.serial
  }

  /** Serials of the cohorts a publication at `now` counts. */
  ghost function Due(ring: Ring, now: Time): set<nat> {
    set i | 0 <= i < |ring| && Pending(ring[i], now) :: ring[i].it.serial
  }

  /** Serials of the cohorts older than the rolling window. */
  ghost function Aged(ring: Ring, now: Time, window: nat): set<nat> {
    set i | 0 <= i < |ring| && now > ring[i].at + window :: ring[i].it.serial
  }

  function Step(w: Window, op: Op, cap: nat, window: nat): Window {
    match op
    case Commit(at, key, latency, delay, now) => AdmitCohort(w, at, key, latency, delay, cap, now)
    case Prune(now) => PruneWindow(w, now, window)
    case Publish(now, accepted) => if accepted then w.(cohorts := Mark(w.cohorts, now)) else w
  }

  ghost function StepBook(b: Book, op: Op, cap: nat, window: nat): Book {
    var w := Step(b.w, op, cap, window);
    match op
    case Commit(_, _, _, _, _) =>
      b.(w := w, evicted := b.evicted + (Serials(b.w.cohorts) + {b.w.complete} - Serials(w.cohorts)))
    case Prune(now) => b.(w := w, aged := b.aged + Aged(b.w.cohorts, now, window))
    case Publish(now, accepted) =>
      if accepted then b.(w := w, published := b.published + [Due(b.w.cohorts, now)]) else b
  }

  ghost function RunBook(ops: seq<Op>, cap: nat, window: nat): Book
    decreases |ops|
  {
    if ops == [] then NEW_BOOK
    else StepBook(RunBook(ops[..|ops| - 1], cap, window), ops[|ops| - 1], cap, window)
  }

  ghost function Reported(published: seq<set<nat>>): set<nat>
    decreases |published|
  {
    if published == [] then {} else Reported(published[..|published| - 1]) + published[|published| - 1]
  }

  predicate Disjoint(published: seq<set<nat>>) {
    forall i, j :: 0 <= i < j < |published| ==> published[i] !! published[j]
  }

  predicate DistinctSerials(ring: Ring) {
    forall i, j :: 0 <= i < j < |ring| ==> ring[i].it.serial != ring[j].it.serial
  }

  ghost function Below(n: nat): (s: set<nat>)
    ensures forall i: nat :: i in s <==> i < n
  {
    if n == 0 then {} else Below(n - 1) + {n - 1}
  }

  /** Every committed cohort is in the ring, was pushed out by a commit and counted as an eviction, or
      aged out, one of these only; and what is in the ring and not open has been published. */
  ghost predicate Balanced(b: Book) {
    && DistinctSerials(b.w.cohorts)
    && Disjoint(b.published)
    && Reported(b.published) !! Open(b.w.cohorts)
    && Serials(b.w.cohorts) - Open(b.w.cohorts) <= Reported(b.published) <= Below(b.w.complete)
    && Serials(b.w.cohorts) !! b.evicted
    && Serials(b.w.cohorts) !! b.aged
    && b.evicted !! b.aged
    && Serials(b.w.cohorts) + b.evicted + b.aged == Below(b.w.complete)
    && |b.evicted| == b.w.rollingEvictions
  }

  /** What left the ring without being published. */
  ghost function Lost(b: Book): set<nat> {
    b.evicted + b.aged - Reported(b.published)
  }

  lemma InReported(published: seq<set<nat>>, i: nat)
    requires i < |published|
    ensures published[i] <= Reported(published)
    decreases |published|
  {
    if i < |published| - 1 {
      InReported(published[..|published| - 1], i);
    }
  }

  lemma AppendDisjoint(published: seq<set<nat>>, s: set<nat>)
    requires Disjoint(published) && Reported(published) !! s
    ensures Disjoint(published + [s]) && Reported(published + [s]) == Reported(published) + s
  {
    var q := published + [s];
    assert q[..|q| - 1] == published;
    forall i | 0 <= i < |published|
      ensures published[i] !! s
    {
      InReported(published, i);
    }
  }

  // ---------- the three operations ----------

  lemma InsertSerials(ring: Ring, x: Stamped<Cohort>)
    requires x.it.serial !in Serials(ring) && DistinctSerials(ring)
    ensures var r := Insert(ring, x);
            && DistinctSerials(r)
            && Serials(r) == Serials(ring) + {x.it.serial}
            && Open(r) == Open(ring) + if x.it.reported then {} else {x.it.serial}
  {
    var k := Position(ring, x.at);
    var r := Insert(ring, x);
    assert r[k] == x;
    assert forall i :: 0 <= i < k ==> r[i] == ring[i];
    assert forall i :: k <= i < |ring| ==> r[i + 1] == ring[i];
    forall i, j | 0 <= i < j < |r|
      ensures r[i].it.serial != r[j].it.serial
    {
      assert i != k ==> r[i].it.serial in Serials(ring);
      assert j != k ==> r[j].it.serial in Serials(ring);
    }
    InsertSets(ring, x, k, r);
  }

  lemma InsertSets(ring: Ring, x: Stamped<Cohort>, k: nat, r: Ring)
    requires k <= |ring| && |r| == |ring| + 1 && r[k] == x
    requires forall i :: 0 <= i < k ==> r[i] == ring[i]
    requires forall i :: k <= i < |ring| ==> r[i + 1] == ring[i]
    ensures Serials(r) == Serials(ring) + {x.it.serial}
    ensures Open(r) == Open(ring) + if x.it.reported then {} else {x.it.serial}
  {
    forall s
      ensures s in Serials(r) <==> s in Serials(ring) + {x.it.serial}
      ensures s in Open(r) <==> s in Open(ring) + if x.it.reported then {} else {x.it.serial}
    {
      if s in Serials(r) {
        var i :| 0 <= i < |r| && r[i].it.serial == s;
        assert i < k || i == k || r[i] == ring[i - 1];
      }
      if s in Open(r) {
        var i :| 0 <= i < |r| && !r[i].it.reported && r[i].it.serial == s;
        assert i < k || i == k || r[i] == ring[i - 1];
      }
      if s in Serials(ring) {
        var i :| 0 <= i < |ring| && ring[i].it.serial == s;
        assert r[if i < k then i else i + 1] == ring[i];
      }
      if s in Open(ring) {
        var i :| 0 <= i < |ring| && !ring[i].it.reported && ring[i].it.serial == s;
        assert r[if i < k then i else i + 1] == ring[i];
      }
    }
  }

  /** Without its first entry a ring has one serial less. */
  lemma WithoutFirst(ring: Ring)
    requires DistinctSerials(ring) && ring != []
    ensures var r := ring[1..];
            && DistinctSerials(r)
            && Serials(r) == Serials(ring) - {ring[0].it.serial} && ring[0].it.serial in Serials(ring)
            && Open(r) == Open(ring) - {ring[0].it.serial}
  {
    var r := ring[1..];
    forall s
      ensures s in Serials(r) <==> s in Serials(ring) - {ring[0].it.serial}
      ensures s in Open(r) <==> s in Open(ring) - {ring[0].it.serial}
    {
      if s in Serials(ring) && s != ring[0].it.serial {
        var i :| 0 <= i < |ring| && ring[i].it.serial == s;
        assert r[i - 1] == ring[i];
      }
      if s in Open(ring) && s != ring[0].it.serial {
        var i :| 0 <= i < |ring| && !ring[i].it.reported && ring[i].it.serial == s;
        assert r[i - 1] == ring[i];
      }
    }
  }

  lemma OpenInSerials(ring: Ring)
    ensures Open(ring) <= Serials(ring)
  {
  }

  /** What a commit pushes out: one serial when the ring is over its cap, else none. */
  ghost function PushedOut(ring: Ring, x: Stamped<Cohort>, cap: nat): set<nat> {
    Serials(ring) + {x.it.serial} - Serials(Admit(ring, x, cap))
  }

  lemma AdmitSets(ring: Ring, x: Stamped<Cohort>, cap: nat)
    requires x.it.serial !in Serials(ring) && DistinctSerials(ring) && !x.it.reported
    ensures var r, gone := Admit(ring, x, cap), PushedOut(ring, x, cap);
            && DistinctSerials(r)
            && Serials(r) == Serials(ring) + {x.it.serial} - gone
            && gone <= Serials(ring) + {x.it.serial}
            && Open(r) == Open(ring) + {x.it.serial} - gone
            && |gone| == if |Insert(ring, x)| > cap then 1 else 0
  {
    hide Insert, Serials, Open, DistinctSerials;
    InsertSerials(ring, x);
    OpenInSerials(ring);
    var r := Insert(ring, x);
    if |r| > cap {
      WithoutFirst(r);
      assert PushedOut(ring, x, cap) == {r[0].it.serial};
    } else {
      assert PushedOut(ring, x, cap) == {};
    }
  }

  /** The same on sets: one more serial, and those gone have gone to the evicted ones. */
  lemma SetsMove(s: set<nat>, o: set<nat>, reported: set<nat>, evicted: set<nat>, aged: set<nat>, n: nat,
                 gone: set<nat>)
    requires o <= s && reported !! o && s - o <= reported <= Below(n) && gone <= s + {n}
    requires s !! evicted && s !! aged && evicted !! aged && s + evicted + aged == Below(n)
    ensures var t, p, e := s + {n} - gone, o + {n} - gone, evicted + gone;
            && reported !! p && t - p <= reported <= Below(n + 1)
            && t !! e && t !! aged && e !! aged && t + e + aged == Below(n + 1)
            && |e| == |evicted| + |gone|
  {
    assert Below(n + 1) == Below(n) + {n};
    assert n !in Below(n);
    assert evicted !! gone;
  }

  lemma CommitBalances(b: Book, op: Op, cap: nat, window: nat)
    requires Balanced(b) && op.Commit?
    ensures Balanced(StepBook(b, op, cap, window))
  {
    hide Insert, Admit, Serials, Open, Reported, Disjoint, DistinctSerials, Below;
    var x := Stamped(op.at, Cohort(op.key, b.w.complete, op.key.eventMs, op.latency, op.commitDelay, false));
    var s, o := Serials(b.w.cohorts), Open(b.w.cohorts);
    assert x.it.serial !in s by { assert x.it.serial !in Below(b.w.complete); }
    AdmitSets(b.w.cohorts, x, cap);
    OpenInSerials(b.w.cohorts);
    SetsMove(s, o, Reported(b.published), b.evicted, b.aged, b.w.complete, PushedOut(b.w.cohorts, x, cap));
  }

  lemma {:induction false} RetainDistinct(ring: Ring, now: Time, window: nat)
    requires DistinctSerials(ring)
    ensures DistinctSerials(Retain(ring, now, window))
    decreases |ring|
  {
    if ring != [] {
      RetainDistinct(ring[1..], now, window);
      var tail := Retain(ring[1..], now, window);
      forall i | 0 <= i < |tail|
        ensures tail[i].it.serial != ring[0].it.serial
      {
        assert tail[i] in ring[1..];
        var j :| 0 <= j < |ring[1..]| && ring[1..][j] == tail[i];
        assert ring[j + 1] == tail[i];
      }
    }
  }

  /** A prune takes from the ring exactly what is older than the rolling window. */
  lemma RetainSets(ring: Ring, now: Time, window: nat)
    requires DistinctSerials(ring)
    ensures var r := Retain(ring, now, window);
            && Serials(r) == Serials(ring) - Aged(ring, now, window)
            && Open(r) == Open(ring) - Aged(ring, now, window)
            && Aged(ring, now, window) <= Serials(ring)
  {
    hide DistinctSerials;
    var r := Retain(ring, now, window);
    forall s
      ensures s in Serials(r) <==> s in Serials(ring) - Aged(ring, now, window)
      ensures s in Open(r) <==> s in Open(ring) - Aged(ring, now, window)
    {
      if i :| 0 <= i < |r| && r[i].it.serial == s {
        KeptIsInside(ring, now, window, r[i]);
      }
      if i :| 0 <= i < |ring| && ring[i].it.serial == s && s !in Aged(ring, now, window) {
        assert ring[i] in r;
      }
      if i :| 0 <= i < |ring| && !ring[i].it.reported && ring[i].it.serial == s && s !in Aged(ring, now, window) {
        assert ring[i] in r;
      }
    }
  }

  lemma KeptIsInside(ring: Ring, now: Time, window: nat, x: Stamped<Cohort>)
    requires DistinctSerials(ring) && x in ring && Since(now, x.at) <= window
    ensures x.it.serial in Serials(ring) && x.it.serial !in Aged(ring, now, window)
    ensures !x.it.reported ==> x.it.serial in Open(ring)
  {
    var i :| 0 <= i < |ring| && ring[i] == x;
  }

  lemma PruneBalances(b: Book, op: Op, cap: nat, window: nat)
    requires Balanced(b) && op.Prune?
    ensures Balanced(StepBook(b, op, cap, window))
  {
    hide Serials, Open, Reported, Disjoint, Aged, DistinctSerials;
    RetainDistinct(b.w.cohorts, op.now, window);
    RetainSets(b.w.cohorts, op.now, window);
    OpenInSerials(b.w.cohorts);
  }

  lemma MarkSets(ring: Ring, now: Time)
    requires DistinctSerials(ring)
    ensures var r := Mark(ring, now);
            && DistinctSerials(r)
            && Serials(r) == Serials(ring)
            && Open(r) == Open(ring) - Due(ring, now)
            && Due(ring, now) <= Open(ring)
  {
    var r := Mark(ring, now);
    assert forall i :: 0 <= i < |r| ==> r[i].it.serial == ring[i].it.serial;
    assert Serials(r) == Serials(ring);
    forall s
      ensures s in Open(r) <==> s in Open(ring) - Due(ring, now)
    {
      if s in Open(ring) - Due(ring, now) {
        var i :| 0 <= i < |ring| && !ring[i].it.reported && ring[i].it.serial == s;
        assert !Pending(ring[i], now);
        assert r[i] == ring[i];
      }
      if s in Open(r) {
        var i :| 0 <= i < |r| && !r[i].it.reported && r[i].it.serial == s;
        assert ring[i].it.serial == s && !Pending(ring[i], now);
        assert forall j :: 0 <= j < |ring| && ring[j].it.serial == s ==> j == i;
      }
    }
  }

  lemma PublishBalances(b: Book, op: Op, cap: nat, window: nat)
    requires Balanced(b) && op.Publish?
    ensures Balanced(StepBook(b, op, cap, window))
  {
    hide Serials, Open, Reported, Disjoint, Due, Mark, DistinctSerials;
    if op.accepted {
      OpenInSerials(b.w.cohorts);
      MarkSets(b.w.cohorts, op.now);
      AppendDisjoint(b.published, Due(b.w.cohorts, op.now));
    }
  }

  /** Over every run of commits, prunes and publications: accepted publications count pairwise
      disjoint sets of cohorts, and every committed cohort is in the ring, where it is open or has been
      counted, or left it by a counted eviction or by being older than the rolling window. */
  lemma {:induction false} BooksBalance(ops: seq<Op>, cap: nat, window: nat)
    ensures Balanced(RunBook(ops, cap, window))
    decreases |ops|
  {
    hide Balanced, StepBook;
    if ops == [] {
      NewBalances();
    } else {
      var b := RunBook(ops[..|ops| - 1], cap, window);
      BooksBalance(ops[..|ops| - 1], cap, window);
      match ops[|ops| - 1]
      case Commit(_, _, _, _, _) => CommitBalances(b, ops[|ops| - 1], cap, window);
      case Prune(_) => PruneBalances(b, ops[|ops| - 1], cap, window);
      case Publish(_, _) => PublishBalances(b, ops[|ops| - 1], cap, window);
    }
  }

  lemma NewBalances()
    ensures Balanced(NEW_BOOK)
  {
  }

  // ---------- the published numbers ----------

  lemma {:induction false} DueSize(ring: Ring, now: Time)
    requires DistinctSerials(ring)
    ensures |Due(ring, now)| == |PendingIn(ring, now)|
    decreases |ring|
  {
    hide Pending;
    if ring == [] {
      assert Due(ring, now) == {} == PendingIn(ring, now);
    } else {
      DueSize(ring[..|ring| - 1], now);
      DueStep(ring, now);
      PendingStep(ring, now, [], 0);
    }
  }

  lemma DueStep(ring: Ring, now: Time)
    requires DistinctSerials(ring) && ring != []
    ensures |Due(ring, now)|
            == |Due(ring[..|ring| - 1], now)| + if Pending(ring[|ring| - 1], now) then 1 else 0
  {
    hide Pending;
    var n := |ring| - 1;
    var init, s := ring[..n], ring[n].it.serial;
    assert forall i :: 0 <= i < n ==> init[i] == ring[i] && ring[i].it.serial != s;
    var more := if Pending(ring[n], now) then {s} else {};
    forall x
      ensures x in Due(ring, now) <==> x in Due(init, now) + more
    {
      if x in Due(init, now) {
        var i :| 0 <= i < n && Pending(init[i], now) && init[i].it.serial == x;
        assert ring[i] == init[i];
      }
    }
    assert Due(ring, now) == Due(init, now) + more;
  }

  /** The complete-cohort column of a publication is the number of cohorts it newly reports, and zero in
      a process with one provider, which reports them without counting. */
  lemma PublishedCountIsNew(ops: seq<Op>, cap: nat, window: nat, now: Time, cfg: Config)
    ensures var ring := RunBook(ops, cap, window).w.cohorts;
            Published(cfg, ring, now).complete == if cfg.HasComparison() then |Due(ring, now)| else 0
  {
    hide RunBook, Published, Config.HasComparison, DistinctSerials;
    BooksBalance(ops, cap, window);
    PublishedCounts(cfg, RunBook(ops, cap, window).w.cohorts, now);
  }

  lemma PublishedCounts(cfg: Config, ring: Ring, now: Time)
    requires DistinctSerials(ring)
    ensures Published(cfg, ring, now).complete == if cfg.HasComparison() then |Due(ring, now)| else 0
  {
    hide Unreported, DistinctSerials, Config.HasComparison, Config.Providers, Distinct;
    ConfigIsSound(cfg);
    if cfg.HasComparison() {
      OutcomesMean(ring, now, cfg.Providers(), cfg.Providers()[0]);
      DueSize(ring, now);
    }
  }

  /** The running count of complete cohorts splits exactly, into what was published, what is open and
      what was evicted or aged out unpublished; and also into what is in the ring, what was evicted and
      what aged out. */
  lemma LifetimeCount(ops: seq<Op>, cap: nat, window: nat)
    ensures var b := RunBook(ops, cap, window);
            && b.w.complete == |Reported(b.published)| + |Open(b.w.cohorts)| + |Lost(b)|
            && b.w.complete == |b.w.cohorts| + b.w.rollingEvictions + |b.aged|
  {
    hide RunBook, Reported, Open, Serials;
    BooksBalance(ops, cap, window);
    var b := RunBook(ops, cap, window);
    var r, o, l := Reported(b.published), Open(b.w.cohorts), Lost(b);
    BelowSize(b.w.complete);
    OpenInSerials(b.w.cohorts);
    assert r + o + l == Below(b.w.complete);
    assert |r + o| == |r| + |o|;
    assert |r + o + l| == |r + o| + |l|;
    var s := Serials(b.w.cohorts);
    SerialsSize(b.w.cohorts);
    assert |s + b.evicted| == |s| + |b.evicted|;
    assert |s + b.evicted + b.aged| == |s + b.evicted| + |b.aged|;
  }

  lemma {:induction false} SerialsSize(ring: Ring)
    requires DistinctSerials(ring)
    ensures |Serials(ring)| == |ring|
    decreases |ring|
  {
    hide Serials, DistinctSerials;
    if ring == [] {
      NoSerials();
    } else {
      WithoutFirst(ring);
      SerialsSize(ring[1..]);
      assert Serials(ring) == Serials(ring[1..]) + {ring[0].it.serial};
    }
  }

  lemma NoSerials()
    ensures Serials([]) == {}
  {
  }

  lemma {:induction false} BelowSize(n: nat)
    ensures |Below(n)| == n
    decreases n
  {
    if n > 0 {
      BelowSize(n - 1);
    }
  }
}
