/** `PersistentOutbox` of `src/axiom.rs` as the source has it, each operation tied to the steps of the
    outbox machine. What the file system answers is a parameter of each operation. */
module OutboxStore {
  import opened Common
  import opened Outbox
  import opened Sorting
  import FileNames

  const MAX_BATCH_BYTES: nat := 4 * 1024 * 1024

  function NameOf(f: File): string {
    FileNames.Name(f.order, f.id, f.events)
  }

  /** `Ok(true)`, `Ok(false)` or an error. */
  datatype Submitted = Accepted | Dropped | Failed

  /** Whether the temporary file was written, the rename went through, and the directory was synced. */
  datatype WriteIo = WriteIo(temp: bool, rename: bool, sync: bool)

  datatype Health = Health(pendingBatches: nat, pendingBytes: nat, batchesDropped: nat, eventsDropped: nat,
                           capRejections: nat, writeFailures: nat)

  // ---------- recovery ----------

  /** The key recovery sorts by. */
  function OrderOf(f: File): nat {
    f.order
  }

  /** Recovery cannot read this file back, or refuses its size. */
  predicate Unreadable(f: File) {
    f.events == 0 || f.events > FileNames.MAX_EVENTS || f.order > MAX_U64 || f.bytes > MAX_BATCH_BYTES
  }

  lemma Readable(f: File)
    requires f.order <= MAX_U64
    ensures FileNames.OrderFromName(NameOf(f)) == Some(f.order)
    ensures FileNames.EventsFromName(NameOf(f))
            == if 0 < f.events <= FileNames.MAX_EVENTS then Some(f.events) else None
  {
    hide FileNames.Name, FileNames.OrderFromName, FileNames.EventsFromName;
    FileNames.OrderReadsBack(f.order, f.id, f.events);
    FileNames.EventsReadBack(f.order, f.id, f.events);
  }

  lemma SameMembers(listing: seq<File>, files: seq<File>)
    requires multiset(files) == multiset(listing)
    requires forall i, j :: 0 <= i < j < |listing| ==> listing[i] != listing[j]
    ensures forall i, j :: 0 <= i < j < |files| ==> files[i] != files[j]
    ensures forall f :: f in files <==> f in listing
  {
    forall f
      ensures multiset(listing)[f] <= 1
    {
      AtMostOnce(listing, f);
    }
    forall i, j | 0 <= i < j < |files|
      ensures files[i] != files[j]
    {
      InTwoParts(files, i, j);
    }
    assert forall f :: f in files <==> f in multiset(files);
    assert forall f :: f in listing <==> f in multiset(listing);
  }

  lemma InTwoParts(files: seq<File>, i: nat, j: nat)
    requires i < j < |files|
    ensures files[i] == files[j] ==> multiset(files)[files[i]] >= 2
  {
    var a, b := files[..j], files[j..];
    assert files == a + b;
    assert a[i] in multiset(a) && b[0] in multiset(b);
  }

  lemma {:induction false} AtMostOnce(listing: seq<File>, f: File)
    requires forall i, j :: 0 <= i < j < |listing| ==> listing[i] != listing[j]
    ensures multiset(listing)[f] <= 1
    decreases |listing|
  {
    if listing != [] {
      var n := |listing| - 1;
      AtMostOnce(listing[..n], f);
      assert listing == listing[..n] + [listing[n]];
      assert listing[n] !in listing[..n];
    }
  }

  ghost function SetOf(listing: seq<File>): set<File> {
    set f | f in listing
  }

  ghost predicate Acceptable(caps: Caps, listing: seq<File>, files: seq<File>) {
    && (forall f <- listing :: !Unreadable(f))
    && |files| <= caps.maxFiles && Bytes(files) <= caps.maxBytes
  }

  /** `open`: read every name, sort by ordering key, check the caps. */
  method Recover(caps: Caps, listing: seq<File>) returns (r: Option<seq<File>>)
    requires forall i, j :: 0 <= i < j < |listing| ==> listing[i] != listing[j]
    requires forall f <- listing :: f.order <= MAX_U64
    ensures r.Some? ==> Recovers(SetOf(listing), r.value) && Acceptable(caps, listing, r.value)
    ensures r.None? ==> (exists f <- listing :: Unreadable(f))
                        || forall files :: Recovers(SetOf(listing), files) ==> !Acceptable(caps, listing, files)
  {
    hide FileNames.OrderFromName, FileNames.EventsFromName, FileNames.Name, Insert, Ascending, Recovers;
    var files: seq<File> := [];
    assert Ascending(files, OrderOf) by { NoneOrdered(); }
    for i := 0 to |listing|
      invariant Ascending(files, OrderOf) && multiset(files) == multiset(listing[..i])
      invariant forall f <- listing[..i] :: !Unreadable(f)
    {
      var f := listing[i];
      assert f in listing && listing[..i + 1] == listing[..i] + [f];
      Readable(f);
      var events, order := FileNames.EventsFromName(NameOf(f)), FileNames.OrderFromName(NameOf(f));
      if events.None? || order.None? || f.bytes > MAX_BATCH_BYTES {
        return None;
      }
      InsertKeeps(files, File(f.ix, order.value, f.id, f.bytes, events.value), OrderOf);
      files := Insert(files, File(f.ix, order.value, f.id, f.bytes, events.value), OrderOf);
    }
    assert listing[..|listing|] == listing;
    SortedRecovers(listing, files);
    var bytes := TotalBytes(files);
    if |files| > caps.maxFiles || bytes > caps.maxBytes {
      OnlyOneTotal(caps, listing, files);
      return None;
    }
    r := Some(files);
  }

  lemma NoneOrdered()
    ensures Ascending([], OrderOf)
  {
  }

  lemma SortedRecovers(listing: seq<File>, files: seq<File>)
    requires Ascending(files, OrderOf) && multiset(files) == multiset(listing)
    requires forall i, j :: 0 <= i < j < |listing| ==> listing[i] != listing[j]
    ensures Recovers(SetOf(listing), files)
  {
    SameMembers(listing, files);
    forall i, j | 0 <= i < j < |files|
      ensures files[i].order <= files[j].order
    {
      assert OrderOf(files[i]) <= OrderOf(files[j]);
    }
  }

  lemma OnlyOneTotal(caps: Caps, listing: seq<File>, files: seq<File>)
    requires Recovers(SetOf(listing), files)
    requires |files| > caps.maxFiles || Bytes(files) > caps.maxBytes
    ensures forall others :: Recovers(SetOf(listing), others) ==> !Acceptable(caps, listing, others)
  {
    hide Bytes;
    forall others | Recovers(SetOf(listing), others)
      ensures !Acceptable(caps, listing, others)
    {
      assert forall f <- files :: f in others by {
        forall f <- files
          ensures f in others
        {
          assert f in SetOf(listing);
        }
      }
      DrawnFits(files, others);
    }
  }

  method TotalBytes(files: seq<File>) returns (total: nat)
    ensures total == Bytes(files)
  {
    total := 0;
    for i := 0 to |files|
      invariant total == Bytes(files[..i])
    {
      assert files[..i + 1][..i] == files[..i];
      total := total + files[i].bytes;
    }
    assert files[..|files|] == files;
  }

  // ---------- the outbox ----------

  /** `acknowledge` on the machine: an unlink, unless the file is already gone, then the fsync. */
  function AcknowledgeStep(s: System, removed: bool, sync: bool): System
    requires s.p.sender.Acked?
  {
    var f := s.p.sender.file;
    if f in s.disk.visible && !removed then s
    else SyncAckStep(s.(disk := s.disk.(visible := s.disk.visible - {f})), sync)
  }

  /** `persist_body` on the machine, once its checks have passed. */
  function PersistStep(s: System, id: string, bytes: nat, events: nat, now: nat, io: WriteIo): System {
    if !io.temp || !io.rename then s
    else SyncWriteStep(WriteStep(s, now, id, bytes, events), io.sync)
  }

  lemma PersistKeeps(caps: Caps, s: System, id: string, bytes: nat, events: nat, now: nat, io: WriteIo)
    requires Inv(caps, s) && s.p.writer.Idle? && Admits(caps, s.p, now, bytes)
    ensures Inv(caps, PersistStep(s, id, bytes, events, now, io))
  {
    hide Inv, WriteStep, SyncWriteStep, Admits;
    if io.temp && io.rename {
      WriteKeeps(caps, s, now, id, bytes, events);
      WriterIsRenamed(s, now, id, bytes, events);
      SyncWriteKeeps(caps, WriteStep(s, now, id, bytes, events), io.sync);
    }
  }

  lemma WriterIsRenamed(s: System, now: nat, id: string, bytes: nat, events: nat)
    ensures WriteStep(s, now, id, bytes, events).p.writer.Renamed?
  {
  }

  lemma AcknowledgeKeeps(caps: Caps, s: System, removed: bool, sync: bool)
    requires Inv(caps, s) && s.p.sender.Acked?
    ensures Inv(caps, AcknowledgeStep(s, removed, sync))
  {
    hide Inv, SyncAckStep;
    var f := s.p.sender.file;
    if f !in s.disk.visible || removed {
      UnlinkKeeps(caps, s);
      SyncAckKeeps(caps, s.(disk := s.disk.(visible := s.disk.visible - {f})), sync);
    }
  }

  /** The name that is acknowledged is found at the head of the queue. */
  lemma HeadByName(caps: Caps, s: System, i: nat)
    requires Inv(caps, s) && s.p.sender.Acked? && (i == 0 || i < |s.p.queue|) &&
             forall f <- s.p.queue :: f.order <= MAX_U64
    ensures s.p.queue != [] && s.p.queue[0] == s.p.sender.file
    ensures NameOf(s.p.queue[i]) == NameOf(s.p.sender.file) <==> i == 0
    ensures s.p.sender.file.bytes <= s.p.bytes
  {
    hide DiskOk, LooseOk, HistoryOk, NameOf, Bytes;
    BytesTail(s.p.queue);
    if i > 0 {
      assert Before(s.p.queue[0], s.p.queue[i]);
      assert s.p.queue[0] in s.p.queue && s.p.queue[i] in s.p.queue;
      var f, g := s.p.queue[0], s.p.queue[i];
      NamesDiffer(f, g);
    }
  }

  lemma NamesDiffer(f: File, g: File)
    requires f.order <= MAX_U64 && g.order <= MAX_U64 && f.order != g.order
    ensures NameOf(f) != NameOf(g)
  {
    hide FileNames.Name;
    FileNames.NamesTellOrdersApart(f.order, g.order, f.id, g.id, f.events, g.events);
  }

  lemma WithoutHead(queue: seq<File>)
    requires queue != []
    ensures Without(queue, queue[0]) == queue[1..]
  {
  }

  /** Nothing was dropped in between. */
  predicate SameDrops(a: Health, b: Health) {
    a.batchesDropped == b.batchesDropped && a.eventsDropped == b.eventsDropped && a.capRejections == b.capRejections
  }

  class PersistentOutbox {
    const caps: Caps
    var files: seq<File>
    var bytes: nat
    var poisoned: bool
    var disk: Disk
    var sender: Sender
    var h: History
    var health: Health

    ghost function State(): System
      reads this
    {
      System(Process(files, bytes, poisoned, Idle, sender), disk, h)
    }

    ghost predicate Valid()
      reads this
    {
      && Inv(caps, State())
      && (forall f <- files :: f.order <= MAX_U64)
      && health.pendingBatches == |files| && health.pendingBytes == bytes
    }

    /** A process starting on what the last one left. */
    constructor (caps: Caps, left: System, survivors: set<File>, files: seq<File>)
      requires Inv(caps, left) && Survives(left.disk, survivors) && Recovers(survivors, files)
      requires forall f <- files :: f.order <= MAX_U64
      ensures Valid() && this.caps == caps && State() == RestartStep(left, survivors, files)
    {
      this.caps := caps;
      this.files, bytes, poisoned := files, Bytes(files), false;
      disk, sender, h := Disk(survivors, survivors), Resting, left.h;
      health := Health(|files|, Bytes(files), 0, 0, 0, 0);
      RestartKeeps(caps, left, survivors, files);
    }

    method RecordDrop(events: nat, capRejection: bool)
      modifies `health
      ensures health == old(health).(batchesDropped := old(health).batchesDropped + 1,
                                     eventsDropped := old(health).eventsDropped + events,
                                     capRejections := old(health).capRejections + if capRejection then 1 else 0)
    {
      health := health.(batchesDropped := health.batchesDropped + 1, eventsDropped := health.eventsDropped + events);
      if capRejection {
        health := health.(capRejections := health.capRejections + 1);
      }
    }

    method WriteFailure()
      modifies `health
      ensures health == old(health).(writeFailures := old(health).writeFailures + 1)
    {
      health := health.(writeFailures := health.writeFailures + 1);
    }

    /** Only a batch whose rename is known to survive is accepted; when that is unknown the outbox is
        poisoned; in every other case nothing has changed but the health counters. */
    method PersistBody(id: string, size: nat, events: nat, now: nat, io: WriteIo) returns (r: Submitted)
      requires Valid() && now <= MAX_U64
      modifies `files, `bytes, `poisoned, `disk, `h, `health
      ensures Valid()
      ensures var s := old(State());
              State() == if Admits(caps, s.p, now, size) then PersistStep(s, id, size, events, now, io) else s
      ensures r == if old(poisoned) then Failed
                   else if |old(files)| >= caps.maxFiles || old(bytes) + size > caps.maxBytes then Dropped
                   else if old(files) != [] && old(files)[|old(files)| - 1].order >= MAX_U64 then Failed
                   else if !io.temp || !io.rename then Dropped
                   else if io.sync then Accepted else Failed
      ensures r.Accepted? ==> exists f: File ::
                && files == old(files) + [f] && f.id == id && f.bytes == size && f.events == events
                && f.order == (if old(files) == [] then now else Max(now, old(files)[|old(files)| - 1].order + 1))
                && bytes == old(bytes) + size
      ensures !r.Accepted? ==> files == old(files) && bytes == old(bytes)
      ensures poisoned <==> old(poisoned) || (r.Failed? && Admits(caps, old(State()).p, now, size))
      ensures var p, was := old(State()).p, old(health);
              && health.batchesDropped == was.batchesDropped + (if r.Dropped? then 1 else 0)
              && health.eventsDropped == was.eventsDropped + (if r.Dropped? then events else 0)
              && health.capRejections
                 == was.capRejections + (if !p.poisoned && !HasRoom(caps, p, size) then 1 else 0)
              && health.writeFailures
                 == was.writeFailures + (if Admits(caps, p, now, size) && !r.Accepted? then 1 else 0)
    {
      hide Inv;
      if poisoned {
        return Failed;
      }
      if |files| >= caps.maxFiles || bytes + size > caps.maxBytes {
        RecordDrop(events, true);
        return Dropped;
      }
      if files != [] && files[|files| - 1].order >= MAX_U64 {
        return Failed;
      }
      PersistKeeps(caps, State(), id, size, events, now, io);
      if !io.temp || !io.rename {
        WriteFailure();
        RecordDrop(events, false);
        return Dropped;
      }
      r := RenameAndSync(id, size, events, now, io.sync);
    }

    method RenameAndSync(id: string, size: nat, events: nat, now: nat, sync: bool) returns (r: Submitted)
      requires Admits(caps, State().p, now, size) && (forall f <- files :: f.order <= MAX_U64)
      requires health.pendingBatches == |files| && health.pendingBytes == bytes
      modifies `files, `bytes, `poisoned, `disk, `h, `health
      ensures State() == SyncWriteStep(WriteStep(old(State()), now, id, size, events), sync)
      ensures r == if sync then Accepted else Failed
      ensures forall f <- files :: f.order <= MAX_U64
      ensures health.pendingBatches == |files| && health.pendingBytes == bytes
      ensures SameDrops(old(health), health)
      ensures health.writeFailures == old(health).writeFailures + if sync then 0 else 1
    {
      var order := if files == [] then now else Max(now, files[|files| - 1].order + 1);
      assert order <= MAX_U64 by {
        assert files != [] ==> files[|files| - 1] in files;
      }
      var file := File(|h.log|, order, id, size, events);
      disk := disk.(visible := disk.visible + {file});
      h := h.(log := h.log + [file]);
      if !sync {
        poisoned := true;
        WriteFailure();
        return Failed;
      }
      disk := Disk(disk.visible, disk.visible);
      h := h.(accepted := h.accepted + {file});
      files := files + [file];
      bytes := bytes + size;
      health := health.(pendingBatches := health.pendingBatches + 1, pendingBytes := health.pendingBytes + size);
      r := Accepted;
    }

    method Next() returns (head: Option<File>)
      ensures head == if files == [] then None else Some(files[0])
    {
      head := if files == [] then None else Some(files[0]);
    }

    /** The worker's post of the head succeeded. */
    method Posted()
      requires Valid() && files != [] && sender.Resting?
      modifies `sender, `h
      ensures Valid() && State() == PostStep(old(State()))
    {
      hide Inv;
      PostKeeps(caps, State());
      sender := Acked(files[0]);
      h := h.(posted := h.posted + [files[0]]);
    }

    /** One attempt at the local commit; the worker repeats it until it succeeds. */
    method Acknowledge(removed: bool, sync: bool) returns (ok: bool)
      requires Valid() && sender.Acked?
      modifies `files, `bytes, `disk, `sender, `health
      ensures Valid()
      ensures State() == AcknowledgeStep(old(State()), removed, sync)
      ensures ok <==> (old(sender).file !in old(disk).visible || removed) && sync
      ensures ok ==> files == old(files)[1..] && sender.Resting?
      ensures SameDrops(old(health), health) && health.writeFailures == old(health).writeFailures
    {
      hide Inv, Without;
      ghost var s := State();
      var file := sender.file;
      AcknowledgeKeeps(caps, s, removed, sync);
      HeadByName(caps, s, 0);
      WithoutHead(files);
      if file in disk.visible && !removed {
        return false;
      }
      ghost var gone := s.disk.visible - {file};
      if file in disk.visible {
        disk := disk.(visible := disk.visible - {file});
      }
      assert disk.visible == gone;
      if !sync {
        assert State() == AcknowledgeStep(s, removed, sync);
        return false;
      }
      var position := PositionOf(NameOf(file));
      assert position == 0;
      disk := Disk(disk.visible, disk.visible);
      Remove(position);
      sender := Resting;
      assert State() == AcknowledgeStep(s, removed, sync);
      ok := true;
    }

    method PositionOf(name: string) returns (i: nat)
      ensures i <= |files|
      ensures forall j :: 0 <= j < i ==> NameOf(files[j]) != name
      ensures i < |files| ==> NameOf(files[i]) == name
    {
      hide NameOf;
      i := 0;
      while i < |files| && NameOf(files[i]) != name
        invariant i <= |files|
        invariant forall j :: 0 <= j < i ==> NameOf(files[j]) != name
      {
        i := i + 1;
      }
    }

    /** Take a pending file off the queue; the byte total saturates. */
    method Remove(i: nat)
      requires i < |files| && health.pendingBatches == |files| && health.pendingBytes == bytes
      requires (forall f <- files :: f.order <= MAX_U64) && files[i].bytes <= bytes
      modifies `files, `bytes, `health
      ensures files == old(files)[..i] + old(files)[i + 1..]
      ensures bytes == Since(old(bytes), old(files)[i].bytes)
      ensures health.pendingBatches == |files| && health.pendingBytes == bytes
      ensures SameDrops(old(health), health) && health.writeFailures == old(health).writeFailures
      ensures forall f <- files :: f.order <= MAX_U64
    {
      var removed := files[i];
      files := files[..i] + files[i + 1..];
      bytes := Since(bytes, removed.bytes);
      health := health.(pendingBatches := health.pendingBatches - 1,
                        pendingBytes := health.pendingBytes - removed.bytes);
    }
  }
}
