/** The outcome intervals of `src/benchmark.rs`: each publication is prepared, then committed or
    rejected, and the committed ones cover the run without gap or overlap. */
module Schedule {
  import opened Common

  datatype Prepared = Prepared(end: Time, endWall: nat)

  /** The outcome cursor of a run. */
  datatype Cursor = Cursor(at: Time, wall: nat, published: bool, prepared: Option<Prepared>)

  /** What the rows of one publication say about their interval. */
  datatype Interval = Interval(start: nat, end: nat, onSchedule: bool)

  /** `aligned_window_end_ms`. */
  function Aligned(wall: nat, interval: nat): (a: nat)
    requires interval > 0
    ensures a % interval == 0 && a <= wall < a + interval
  {
    IsMultiple(wall / interval, interval);
    wall - wall % interval
  }

  lemma IsMultiple(q: nat, m: nat)
    requires m > 0
    ensures (q * m) % m == 0
  {
    var k, r := q * m / m, q * m % m;
    assert q * m == k * m + r;
    SameQuotient(q, k, m, r);
  }

  lemma SameQuotient(q: nat, k: int, m: nat, r: nat)
    requires q * m == k * m + r && r < m
    ensures r == 0
  {
    assert (q - k) * m == r;
    NotBetween(q - k, m);
  }

  /** A multiple is nothing, or a whole `m` away from it. */
  lemma NotBetween(e: int, m: nat)
    ensures e * m == 0 || e * m >= m || e * m + m <= 0
  {
    if e > 0 {
      assert (e - 1) * m >= 0;
    } else if e < 0 {
      assert (-e - 1) * m >= 0;
    }
  }

  predicate Advances(c: Cursor, now: Time, wall: nat, interval: nat)
    requires interval > 0
  {
    Aligned(wall, interval) > c.wall && now > c.at
  }

  /** The interval part of `window_events`: whatever was prepared before is dropped first. */
  function Prepare(c: Cursor, now: Time, wall: nat, interval: nat): Cursor
    requires interval > 0
  {
    c.(prepared := if Advances(c, now, wall, interval) then Some(Prepared(now, Aligned(wall, interval))) else None)
  }

  function IntervalOf(c: Cursor, now: Time, wall: nat, interval: nat): Interval
    requires interval > 0 && Advances(c, now, wall, interval)
  {
    var end := Aligned(wall, interval);
    Interval(c.wall, end, c.published && end - c.wall == interval)
  }

  /** `commit_prepared_publication` succeeds. */
  predicate Commits(c: Cursor) {
    c.prepared.Some? && c.prepared.value.endWall > c.wall && c.prepared.value.end > c.at
  }

  function Commit(c: Cursor): Cursor {
    if Commits(c) then Cursor(c.prepared.value.end, c.prepared.value.endWall, true, None) else c.(prepared := None)
  }

  function Reject(c: Cursor): Cursor {
    c.(prepared := None)
  }

  // ---------- runs ----------

  datatype Act = PrepareAt(now: Time, wall: nat) | CommitIt | RejectIt

  /** The cursor, the interval last prepared, and the intervals committed so far. */
  datatype Trail = Trail(c: Cursor, offered: Option<Interval>, committed: seq<Interval>)

  function Step(t: Trail, act: Act, interval: nat): Trail
    requires interval > 0
  {
    match act
    case PrepareAt(now, wall) =>
      Trail(Prepare(t.c, now, wall, interval),
            if Advances(t.c, now, wall, interval) then Some(IntervalOf(t.c, now, wall, interval)) else None,
            t.committed)
    case CommitIt =>
      Trail(Commit(t.c), None, if Commits(t.c) && t.offered.Some? then t.committed + [t.offered.value] else t.committed)
    case RejectIt => Trail(Reject(t.c), None, t.committed)
  }

  function Follow(now: Time, wall: nat, acts: seq<Act>, interval: nat): Trail
    requires interval > 0
    decreases |acts|
  {
    if acts == [] then Trail(Cursor(now, wall, false, None), None, [])
    else Step(Follow(now, wall, acts[..|acts| - 1], interval), acts[|acts| - 1], interval)
  }

  /** Contiguous and strictly increasing from `start`, each ending on a multiple of the publish interval;
      on schedule exactly when it is not the first and spans one publish interval. */
  predicate Contiguous(s: seq<Interval>, start: nat, interval: nat)
    requires interval > 0
  {
    && (forall i :: 0 <= i < |s| ==> s[i].end % interval == 0)
    && (forall i :: 0 <= i < |s| ==> s[i].start < s[i].end)
    && (s != [] ==> s[0].start == start)
    && (forall i :: 0 < i < |s| ==> s[i].start == s[i - 1].end)
    && (forall i :: 0 <= i < |s| ==> (s[i].onSchedule <==> i > 0 && s[i].end - s[i].start == interval))
  }

  function EndOf(s: seq<Interval>, start: nat): nat {
    if s == [] then start else s[|s| - 1].end
  }

  /** The cursor stands at the end of the last committed interval, and an offered interval would
      extend it. */
  predicate OnTrail(t: Trail, start: nat, interval: nat)
    requires interval > 0
  {
    && Contiguous(t.committed, start, interval)
    && t.c.wall == EndOf(t.committed, start)
    && (t.c.published <==> t.committed != [])
    && (t.c.prepared.Some? <==> t.offered.Some?)
    && (t.offered.Some? ==>
          var o := t.offered.value;
          && o.start == t.c.wall < o.end == t.c.prepared.value.endWall
          && t.c.prepared.value.end > t.c.at && o.end % interval == 0
          && (o.onSchedule <==> t.c.published && o.end - o.start == interval))
  }

  lemma StepStays(t: Trail, act: Act, start: nat, interval: nat)
    requires interval > 0 && OnTrail(t, start, interval)
    ensures OnTrail(Step(t, act, interval), start, interval)
  {
    hide Aligned;
  }

  /** Over every run of publications the committed intervals are contiguous and strictly increasing,
      start where the run started, and end where the cursor is. */
  lemma {:induction false} IntervalsAreContiguous(now: Time, wall: nat, acts: seq<Act>, interval: nat)
    requires interval > 0
    ensures var t := Follow(now, wall, acts, interval);
            Contiguous(t.committed, wall, interval) && t.c.wall == EndOf(t.committed, wall)
                && OnTrail(t, wall, interval)
    decreases |acts|
  {
    hide Step, Contiguous;
    if acts == [] {
      NoneContiguous(wall, interval);
    } else {
      IntervalsAreContiguous(now, wall, acts[..|acts| - 1], interval);
      StepStays(Follow(now, wall, acts[..|acts| - 1], interval), acts[|acts| - 1], wall, interval);
    }
  }

  lemma NoneContiguous(start: nat, interval: nat)
    requires interval > 0
    ensures Contiguous([], start, interval)
  {
  }

  function Total(s: seq<Interval>): int
    decreases |s|
  {
    if s == [] then 0 else Total(s[..|s| - 1]) + (s[|s| - 1].end - s[|s| - 1].start)
  }

  lemma {:induction false} Telescopes(s: seq<Interval>, start: nat, interval: nat)
    requires interval > 0 && Contiguous(s, start, interval)
    ensures Total(s) == EndOf(s, start) - start
    decreases |s|
  {
    if s != [] {
      Telescopes(s[..|s| - 1], start, interval);
    }
  }

  /** The durations that are published add up to the time covered. */
  lemma DurationsAddUp(now: Time, wall: nat, acts: seq<Act>, interval: nat)
    requires interval > 0
    ensures var t := Follow(now, wall, acts, interval); Total(t.committed) == t.c.wall - wall
  {
    hide Follow, Contiguous, Total, OnTrail;
    IntervalsAreContiguous(now, wall, acts, interval);
    Telescopes(Follow(now, wall, acts, interval).committed, wall, interval);
  }
}
