/** Publication end to end: the engine's ledger for one coin, `publish_window` of `src/main.rs`, the
    outbox and its worker, and crashes and restarts anywhere. */
module Publication {
  import opened Common
  import opened Model
  import opened Windows
  import Ledger
  import Outbox

  /** What one durable window says about the coin: the run it came from, the cohorts it reports, and the
      complete-cohort column of its rows. */
  datatype Batch = Batch(run: nat, counted: set<nat>, complete: nat)

  /** Where `publish_window` is. The main task awaits it, so nothing is recorded in between. */
  datatype Phase =
    | Recording
    | Prepared(now: Time)
    | Submitting(now: Time)
    | Over

  /** `batches[i]` is the content of the i-th file ever renamed into the outbox. */
  datatype System = System(run: nat, book: Ledger.Book, phase: Phase, box: Outbox.System, batches: seq<Batch>)

  datatype Setup = Setup(caps: Outbox.Caps, cfg: Config)

  datatype Action =
    | Engine(op: Ledger.Op)
    | Prepare(now: Time)
    | Refused
    | Broken
    | Rename(nowMs: nat, id: string, bytes: nat, events: nat)
    | Sync(ok: bool)
    | Worker(act: Outbox.Action)
    | Crash(left: set<Outbox.File>, files: seq<Outbox.File>)

  ghost predicate Enabled(c: Setup, s: System, a: Action) {
    match a
    case Engine(op) => s.phase.Recording? && !op.Publish?
    case Prepare(_) => s.phase.Recording?
    case Refused => s.phase.Prepared?
    case Broken => s.phase.Prepared?
    case Rename(nowMs, id, bytes, events) =>
      s.phase.Prepared? && Outbox.Enabled(c.caps, s.box, Outbox.Write(nowMs, id, bytes, events))
    case Sync(ok) => s.phase.Submitting? && Outbox.Enabled(c.caps, s.box, Outbox.SyncWrite(ok))
    case Worker(act) => (act.Post? || act.Unlink? || act.SyncAck?) && Outbox.Enabled(c.caps, s.box, act)
    case Crash(left, files) => Outbox.Enabled(c.caps, s.box, Outbox.Restart(left, files))
  }

  ghost function BatchOf(c: Setup, s: System, now: Time): Batch {
    var ring := s.book.w.cohorts;
    Batch(s.run, Ledger.Due(ring, now), Published(c.cfg, ring, now).complete)
  }

  /** The complete-cohort column a window with these cohorts must show. */
  ghost function Shown(c: Setup, counted: set<nat>): nat {
    if c.cfg.HasComparison() then |counted| else 0
  }

  /** The outcome of the directory fsync: the publication is committed, or the process is over. */
  ghost function Synced(c: Setup, s: System, ok: bool): System
    requires s.phase.Submitting? && s.box.p.writer.Renamed?
  {
    if ok then s.(phase := Recording, box := Outbox.SyncWriteStep(s.box, true),
                  book := Ledger.StepBook(s.book, Ledger.Publish(s.phase.now, true), c.cfg.maxRolling,
                                          c.cfg.rollingWindow))
    else s.(phase := Over, box := Outbox.SyncWriteStep(s.box, false))
  }

  ghost function Next(c: Setup, s: System, a: Action): System
    requires Enabled(c, s, a)
  {
    match a
    case Engine(op) => s.(book := Ledger.StepBook(s.book, op, c.cfg.maxRolling, c.cfg.rollingWindow))
    case Prepare(now) => s.(phase := Prepared(now))
    case Refused => s.(phase := Recording)
    case Broken => s.(phase := Over)
    case Rename(nowMs, id, bytes, events) =>
      s.(phase := Submitting(s.phase.now), box := Outbox.WriteStep(s.box, nowMs, id, bytes, events),
         batches := s.batches + [BatchOf(c, s, s.phase.now)])
    case Sync(ok) => Synced(c, s, ok)
    case Worker(act) => s.(box := Outbox.Next(c.caps, s.box, act))
    case Crash(left, files) =>
      System(s.run + 1, Ledger.NEW_BOOK, Recording, Outbox.RestartStep(s.box, left, files), s.batches)
  }

  // ---------- the invariant ----------

  /** No two windows of one run count the same cohort. */
  ghost predicate Apart(batches: seq<Batch>) {
    forall i, j :: 0 <= i < j < |batches| && batches[i].run == batches[j].run
        ==> batches[i].counted !! batches[j].counted
  }

  /** The windows of this run before the `n`-th count only what the ledger has as reported. */
  ghost predicate Covered(s: System, n: nat) {
    forall i :: 0 <= i < n && i < |s.batches| && s.batches[i].run == s.run ==>
      s.batches[i].counted <= Ledger.Reported(s.book.published)
  }

  /** A cohort marked as reported is counted by an accepted window of this run. */
  ghost predicate Backs(s: System, i: nat, x: nat) {
    i < |s.batches| && s.batches[i].run == s.run && x in s.batches[i].counted
    && i < |s.box.h.log| && s.box.h.log[i] in s.box.h.accepted
  }

  ghost predicate Backed(s: System) {
    forall x :: x in Ledger.Reported(s.book.published) ==> exists i :: Backs(s, i, x)
  }

  ghost predicate InStep(c: Setup, s: System) {
    && |s.batches| == |s.box.h.log|
    && (forall i :: 0 <= i < |s.batches| ==>
          s.batches[i].run <= s.run && s.batches[i].complete == Shown(c, s.batches[i].counted))
    && (s.phase.Submitting? <==> s.box.p.writer.Renamed?)
    && (s.phase.Submitting? ==>
          && s.box.p.writer.file.ix == |s.batches| - 1 && |s.batches| > 0
          && s.box.h.log[|s.batches| - 1] == s.box.p.writer.file
          && s.batches[|s.batches| - 1].run == s.run
          && s.batches[|s.batches| - 1].counted == Ledger.Due(s.book.w.cohorts, s.phase.now))
    && (!s.phase.Over? ==> Covered(s, if s.phase.Submitting? then |s.batches| - 1 else |s.batches|))
  }

  ghost predicate Inv(c: Setup, s: System) {
    && Outbox.Inv(c.caps, s.box)
    && Ledger.Balanced(s.book)
    && Apart(s.batches) && InStep(c, s) && Backed(s)
  }

  // ---------- steps ----------

  lemma EngineKeeps(c: Setup, s: System, op: Ledger.Op)
    requires Inv(c, s) && s.phase.Recording? && !op.Publish?
    ensures Inv(c, s.(book := Ledger.StepBook(s.book, op, c.cfg.maxRolling, c.cfg.rollingWindow)))
  {
    hide Outbox.Inv, Ledger.Balanced, Apart, Ledger.Reported, Ledger.Open;
    if op.Commit? {
      Ledger.CommitBalances(s.book, op, c.cfg.maxRolling, c.cfg.rollingWindow);
    } else {
      Ledger.PruneBalances(s.book, op, c.cfg.maxRolling, c.cfg.rollingWindow);
    }
    var t := s.(book := Ledger.StepBook(s.book, op, c.cfg.maxRolling, c.cfg.rollingWindow));
    SamePublished(s, t, op, c);
  }

  lemma SamePublished(s: System, t: System, op: Ledger.Op, c: Setup)
    requires t == s.(book := Ledger.StepBook(s.book, op, c.cfg.maxRolling, c.cfg.rollingWindow)) && !op.Publish?
             && s.phase.Recording?
    requires InStep(c, s) && Backed(s)
    ensures InStep(c, t) && Backed(t)
  {
    hide Ledger.Reported, Ledger.Open, Ledger.Step;
    assert t.book.published == s.book.published;
    forall x | x in Ledger.Reported(t.book.published)
      ensures exists i :: Backs(t, i, x)
    {
      var i :| Backs(s, i, x);
      assert Backs(t, i, x);
    }
  }

  lemma MoveKeeps(c: Setup, s: System, phase: Phase)
    requires Inv(c, s) && (s.phase.Recording? || s.phase.Prepared?) && !phase.Submitting?
    ensures Inv(c, s.(phase := phase))
  {
    hide Outbox.Inv, Ledger.Balanced, Apart, Ledger.Reported;
    BackedReads(s, s.(phase := phase));
  }

  /** Windows stay backed while accepted files and published sets stay. */
  lemma BackedReads(s: System, t: System)
    requires Backed(s) && t.book.published == s.book.published && t.run == s.run
    requires s.batches <= t.batches && s.box.h.log <= t.box.h.log && s.box.h.accepted <= t.box.h.accepted
    ensures Backed(t)
  {
    hide Ledger.Reported;
    forall x | x in Ledger.Reported(t.book.published)
      ensures exists i :: Backs(t, i, x)
    {
      var i :| Backs(s, i, x);
      assert Backs(t, i, x);
    }
  }

  lemma CountsAreNew(c: Setup, book: Ledger.Book, now: Time)
    requires Ledger.Balanced(book)
    ensures Published(c.cfg, book.w.cohorts, now).complete == Shown(c, Ledger.Due(book.w.cohorts, now))
    ensures Ledger.Due(book.w.cohorts, now) !! Ledger.Reported(book.published)
  {
    hide Published, Ledger.Reported, Ledger.Open, Ledger.Due, Config.HasComparison, Ledger.DistinctSerials;
    Ledger.PublishedCounts(c.cfg, book.w.cohorts, now);
    Ledger.MarkSets(book.w.cohorts, now);
  }

  lemma RenameKeeps(c: Setup, s: System, nowMs: nat, id: string, bytes: nat, events: nat)
    requires Inv(c, s) && s.phase.Prepared?
    requires Outbox.Enabled(c.caps, s.box, Outbox.Write(nowMs, id, bytes, events))
    ensures Inv(c, Next(c, s, Rename(nowMs, id, bytes, events)))
  {
    hide Outbox.Inv, Ledger.Balanced, Ledger.Reported, Ledger.Due, Published, Shown, Outbox.Admits, Backed,
      Outbox.NextOrder;
    Outbox.WriteKeeps(c.caps, s.box, nowMs, id, bytes, events);
    CountsAreNew(c, s.book, s.phase.now);
    var t := Next(c, s, Rename(nowMs, id, bytes, events));
    BackedReads(s, t);
    forall i | 0 <= i < |s.batches| && s.batches[i].run == s.run
      ensures s.batches[i].counted !! BatchOf(c, s, s.phase.now).counted
    {
      assert s.batches[i].counted <= Ledger.Reported(s.book.published);
    }
  }

  lemma InvParts(c: Setup, s: System)
    requires Inv(c, s)
    ensures Outbox.Inv(c.caps, s.box) && Ledger.Balanced(s.book) && Apart(s.batches) && InStep(c, s) && Backed(s)
  {
    hide Outbox.Inv, Ledger.Balanced, Apart, InStep, Backed;
  }

  lemma SyncKeeps(c: Setup, s: System, ok: bool)
    requires s.phase.Submitting? && Outbox.Enabled(c.caps, s.box, Outbox.SyncWrite(ok)) && Inv(c, s)
    ensures Inv(c, Synced(c, s, ok))
  {
    hide Inv, Outbox.Inv, Ledger.Balanced, InStep, Ledger.StepBook, Outbox.SyncWriteStep, Outbox.Enabled;
    InvParts(c, s);
    WriterIsThere(c, s);
    Outbox.SyncWriteKeeps(c.caps, s.box, ok);
    SyncHistory(s, ok);
    var box := Outbox.SyncWriteStep(s.box, ok);
    if ok {
      Ledger.PublishBalances(s.book, Ledger.Publish(s.phase.now, true), c.cfg.maxRolling, c.cfg.rollingWindow);
      PublishedMore(c, s.book, s.phase.now);
      SyncedInv(c, s, box, Ledger.StepBook(s.book, Ledger.Publish(s.phase.now, true), c.cfg.maxRolling,
                                           c.cfg.rollingWindow));
    } else {
      BrokenInv(c, s, box);
    }
  }

  lemma SyncedInv(c: Setup, s: System, box: Outbox.System, book: Ledger.Book)
    requires Inv(c, s) && s.phase.Submitting? && s.box.p.writer.Renamed?
    requires Outbox.Inv(c.caps, box) && box.h.log == s.box.h.log && box.p.writer.Idle?
    requires box.h.accepted == s.box.h.accepted + {s.box.p.writer.file}
    requires Ledger.Balanced(book)
    requires Ledger.Reported(book.published)
             == Ledger.Reported(s.book.published) + Ledger.Due(s.book.w.cohorts, s.phase.now)
    ensures Inv(c, s.(phase := Recording, box := box, book := book))
  {
    hide Outbox.Inv, Ledger.Balanced, Ledger.Reported, Ledger.Due, Apart, InStep, Backed;
    var t := s.(phase := Recording, box := box, book := book);
    SyncBacked(c, s, t);
    SyncInStep(c, s, t);
  }

  lemma BrokenInv(c: Setup, s: System, box: Outbox.System)
    requires Inv(c, s) && s.phase.Submitting?
    requires Outbox.Inv(c.caps, box) && box.h.log == s.box.h.log && box.p.writer.Idle?
    requires box.h.accepted == s.box.h.accepted
    ensures Inv(c, s.(phase := Over, box := box))
  {
    hide Outbox.Inv, Ledger.Balanced, Ledger.Reported, Ledger.Due, Apart, InStep, Backed;
    var t := s.(phase := Over, box := box);
    BackedReads(s, t);
    SyncInStep(c, s, t);
  }

  lemma WriterIsThere(c: Setup, s: System)
    requires InStep(c, s) && s.phase.Submitting?
    ensures s.box.p.writer.Renamed?
  {
    hide Covered, Shown, Ledger.Due;
  }

  lemma SyncInStep(c: Setup, s: System, t: System)
    requires InStep(c, s) && s.phase.Submitting?
    requires t.run == s.run && t.batches == s.batches && t.box.h.log == s.box.h.log && t.box.p.writer.Idle?
    requires t.phase.Over? || (t.phase.Recording? && Ledger.Reported(t.book.published)
             == Ledger.Reported(s.book.published) + Ledger.Due(s.book.w.cohorts, s.phase.now))
    ensures InStep(c, t)
  {
    hide Ledger.Due, Ledger.Reported, Shown;
  }

  lemma SyncHistory(s: System, ok: bool)
    requires s.box.p.writer.Renamed?
    ensures var after := Outbox.SyncWriteStep(s.box, ok);
            && after.h.log == s.box.h.log && after.p.writer.Idle?
            && after.h.accepted == s.box.h.accepted + if ok then {s.box.p.writer.file} else {}
  {
  }

  lemma PublishedMore(c: Setup, book: Ledger.Book, now: Time)
    ensures var after := Ledger.StepBook(book, Ledger.Publish(now, true), c.cfg.maxRolling, c.cfg.rollingWindow);
            Ledger.Reported(after.published) == Ledger.Reported(book.published) + Ledger.Due(book.w.cohorts, now)
  {
    hide Ledger.Due, Mark;
    var after := Ledger.StepBook(book, Ledger.Publish(now, true), c.cfg.maxRolling, c.cfg.rollingWindow);
    assert after.published[..|after.published| - 1] == book.published;
  }

  lemma SyncBacked(c: Setup, s: System, t: System)
    requires Backed(s) && InStep(c, s) && s.phase.Submitting?
    requires t.run == s.run && t.batches == s.batches && t.box.h.log == s.box.h.log
    requires t.box.h.accepted == s.box.h.accepted + {s.box.p.writer.file}
    requires Ledger.Reported(t.book.published)
             == Ledger.Reported(s.book.published) + Ledger.Due(s.book.w.cohorts, s.phase.now)
    ensures Backed(t)
  {
    hide Ledger.Reported, Ledger.Due, Covered;
    forall x | x in Ledger.Reported(t.book.published)
      ensures exists i :: Backs(t, i, x)
    {
      if x in Ledger.Due(s.book.w.cohorts, s.phase.now) {
        assert Backs(t, |s.batches| - 1, x);
      } else {
        var i :| Backs(s, i, x);
        assert Backs(t, i, x);
      }
    }
  }

  lemma WorkerKeeps(c: Setup, s: System, act: Outbox.Action)
    requires Inv(c, s) && (act.Post? || act.Unlink? || act.SyncAck?) && Outbox.Enabled(c.caps, s.box, act)
    ensures Inv(c, s.(box := Outbox.Next(c.caps, s.box, act)))
  {
    hide Outbox.Inv, Ledger.Balanced, Ledger.Reported, Ledger.Due, Backed, Apart, Outbox.Next, Outbox.Enabled;
    Outbox.StepKeeps(c.caps, s.box, act);
    WorkerLeaves(c, s.box, act);
    BackedReads(s, s.(box := Outbox.Next(c.caps, s.box, act)));
  }

  lemma WorkerLeaves(c: Setup, box: Outbox.System, act: Outbox.Action)
    requires (act.Post? || act.Unlink? || act.SyncAck?) && Outbox.Enabled(c.caps, box, act)
    ensures var after := Outbox.Next(c.caps, box, act);
            after.p.writer == box.p.writer && after.h.log == box.h.log && after.h.accepted == box.h.accepted
  {
  }

  lemma CrashKeeps(c: Setup, s: System, left: set<Outbox.File>, files: seq<Outbox.File>)
    requires Inv(c, s) && Outbox.Enabled(c.caps, s.box, Outbox.Restart(left, files))
    ensures Inv(c, System(s.run + 1, Ledger.NEW_BOOK, Recording, Outbox.RestartStep(s.box, left, files), s.batches))
  {
    hide Inv, Outbox.Inv, Outbox.Survives, Outbox.Recovers, Outbox.RestartStep;
    InvParts(c, s);
    Outbox.RestartKeeps(c.caps, s.box, left, files);
    RestartLeaves(s.box, left, files);
    CrashInv(c, s, Outbox.RestartStep(s.box, left, files));
  }

  lemma CrashInv(c: Setup, s: System, box: Outbox.System)
    requires Inv(c, s) && Outbox.Inv(c.caps, box) && box.h == s.box.h && box.p.writer.Idle?
    ensures Inv(c, System(s.run + 1, Ledger.NEW_BOOK, Recording, box, s.batches))
  {
    hide Outbox.Inv, Ledger.Balanced, Apart, InStep, Backed;
    Ledger.NewBalances();
    CrashInStep(c, s, box);
  }

  lemma RestartLeaves(box: Outbox.System, left: set<Outbox.File>, files: seq<Outbox.File>)
    ensures Outbox.RestartStep(box, left, files).h == box.h && Outbox.RestartStep(box, left, files).p.writer.Idle?
  {
  }

  lemma CrashInStep(c: Setup, s: System, box: Outbox.System)
    requires InStep(c, s) && box.h == s.box.h && box.p.writer.Idle?
    ensures var t := System(s.run + 1, Ledger.NEW_BOOK, Recording, box, s.batches); InStep(c, t) && Backed(t)
  {
    hide Ledger.Due, Shown;
    assert Ledger.Reported(Ledger.NEW_BOOK.published) == {};
  }

  lemma StepKeeps(c: Setup, s: System, a: Action)
    requires Inv(c, s) && Enabled(c, s, a)
    ensures Inv(c, Next(c, s, a))
  {
    hide Inv, Outbox.Enabled, Ledger.StepBook, Outbox.WriteStep, Outbox.SyncWriteStep, Outbox.RestartStep, BatchOf,
      Outbox.Next;
    match a
    case Engine(op) => EngineKeeps(c, s, op);
    case Prepare(now) => MoveKeeps(c, s, Prepared(now));
    case Refused => MoveKeeps(c, s, Recording);
    case Broken => MoveKeeps(c, s, Over);
    case Rename(nowMs, id, bytes, events) => RenameKeeps(c, s, nowMs, id, bytes, events);
    case Sync(ok) => SyncKeeps(c, s, ok);
    case Worker(act) => WorkerKeeps(c, s, act);
    case Crash(left, files) => CrashKeeps(c, s, left, files);
  }

  // ---------- runs ----------

  const START: System := System(0, Ledger.NEW_BOOK, Recording, Outbox.FRESH, [])

  ghost predicate Run(c: Setup, actions: seq<Action>, states: seq<System>) {
    && |states| == |actions| + 1 && states[0] == START
    && forall i :: 0 <= i < |actions| ==>
         Enabled(c, states[i], actions[i]) && states[i + 1] == Next(c, states[i], actions[i])
  }

  lemma StartKeeps(c: Setup)
    ensures Inv(c, START)
  {
    hide Ledger.Balanced;
    Ledger.NewBalances();
    assert Ledger.Reported([]) == {};
  }

  lemma {:induction false} PublicationKeepsInvariant(c: Setup, actions: seq<Action>, states: seq<System>, n: nat)
    requires Run(c, actions, states) && n < |states|
    ensures Inv(c, states[n])
    decreases n
  {
    hide Inv, Next, Enabled;
    if n == 0 {
      StartKeeps(c);
    } else {
      PublicationKeepsInvariant(c, actions, states, n - 1);
      StepKeeps(c, states[n - 1], actions[n - 1]);
    }
  }

  /** A file that is in the directory, would be there after a crash, or has been acknowledged. */
  predicate Delivered(s: System, f: Outbox.File) {
    f in s.box.disk.visible || f in s.box.disk.durable || f in s.box.h.posted
  }

  /** Over every run of recording, publishing, delivery, and crashes anywhere: of two windows that
      were ever durable or delivered, no cohort is reported in both, and each window's complete column
      is the number of cohorts it reports, or zero where one provider has no one to race. */
  lemma NoCohortInTwoWindows(c: Setup, actions: seq<Action>, states: seq<System>, n: nat, f: Outbox.File,
                             g: Outbox.File)
    requires Run(c, actions, states) && n < |states|
    requires Delivered(states[n], f) && Delivered(states[n], g) && f != g
    ensures var s := states[n];
            && f.ix < |s.batches| && g.ix < |s.batches| && f.ix != g.ix
            && (s.batches[f.ix].run == s.batches[g.ix].run ==> s.batches[f.ix].counted !! s.batches[g.ix].counted)
            && s.batches[f.ix].complete == if c.cfg.HasComparison() then |s.batches[f.ix].counted| else 0
  {
    hide Run, Ledger.Balanced, Outbox.Inv, Backed;
    PublicationKeepsInvariant(c, actions, states, n);
    var s := states[n];
    DeliveredIsLogged(c, s, f);
    DeliveredIsLogged(c, s, g);
    assert f.ix < g.ix || g.ix < f.ix;
  }

  lemma DeliveredIsLogged(c: Setup, s: System, f: Outbox.File)
    requires Outbox.Inv(c.caps, s.box) && Delivered(s, f)
    ensures f.ix < |s.box.h.log| && s.box.h.log[f.ix] == f
  {
    hide Outbox.Bytes, Outbox.Queued;
    if f !in s.box.h.posted {
      assert f in s.box.disk.visible + s.box.disk.durable;
      Outbox.DiskAligned(c.caps, s.box);
    }
  }

  /** And a cohort that the running engine has marked as reported is in a window that has been
      delivered or would survive a crash. */
  lemma ReportedIsDurable(c: Setup, actions: seq<Action>, states: seq<System>, n: nat, x: nat)
    requires Run(c, actions, states) && n < |states|
    requires x in Ledger.Reported(states[n].book.published)
    ensures var s := states[n];
            exists f <- s.box.h.log ::
              && f.ix < |s.batches| && s.batches[f.ix].run == s.run && x in s.batches[f.ix].counted
              && (f in s.box.h.posted || (f in s.box.p.queue && f in s.box.disk.durable && f in s.box.disk.visible))
  {
    hide Run, Ledger.Balanced, Outbox.Inv, InStep, Apart, Ledger.Reported;
    PublicationKeepsInvariant(c, actions, states, n);
    var s := states[n];
    var i: nat :| i < |s.box.h.log| && Backs(s, i, x);
    AcceptedSurvives(c, s, s.box.h.log[i], i);
    assert s.box.h.log[i] in s.box.h.log;
  }

  lemma AcceptedSurvives(c: Setup, s: System, f: Outbox.File, i: nat)
    requires Outbox.Inv(c.caps, s.box) && i < |s.box.h.log| && f == s.box.h.log[i] && f in s.box.h.accepted
    ensures f.ix == i
    ensures f in s.box.h.posted || (f in s.box.p.queue && f in s.box.disk.durable && f in s.box.disk.visible)
  {
    hide Outbox.Bytes, Outbox.Queued;
  }
}
