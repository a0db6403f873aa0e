/** The persistent outbox of `src/axiom.rs` as a state machine over its file operations, with crashes
    between any two of them. */
module Outbox {
  import opened Common

  /** One batch file; `ix` is its place among all files ever renamed into the directory. */
  datatype File = File(ix: nat, order: nat, id: string, bytes: nat, events: nat)

  datatype Caps = Caps(maxFiles: nat, maxBytes: nat)

  /** `persist_body` between its rename and its directory fsync. */
  datatype Writer = Idle | Renamed(file: File)

  /** The worker between a full acknowledgement and its local commit. */
  datatype Sender = Resting | Acked(file: File)

  /** The process: the queue with its byte total, the poison flag, and where the two tasks are. */
  datatype Process = Process(queue: seq<File>, bytes: nat, poisoned: bool, writer: Writer, sender: Sender)

  /** The directory: what a lookup sees, and what is known to survive a crash. */
  datatype Disk = Disk(visible: set<File>, durable: set<File>)

  /** For the specification: every file renamed so far, those whose submission was accepted, and the
      files of the successful posts in order. */
  datatype History = History(log: seq<File>, accepted: set<File>, posted: seq<File>)

  datatype System = System(p: Process, disk: Disk, h: History)

  // ---------- steps ----------

  datatype Action =
    | Write(now: nat, id: string, bytes: nat, events: nat)
    | SyncWrite(ok: bool)
    | Post
    | Unlink
    | SyncAck(ok: bool)
    | Restart(left: set<File>, files: seq<File>)

  function Bytes(files: seq<File>): nat
    decreases |files|
  {
    if files == [] then 0 else Bytes(files[..|files| - 1]) + files[|files| - 1].bytes
  }

  /** The ordering key of the next file: the clock, but always after the last pending file. */
  function NextOrder(queue: seq<File>, now: nat): nat {
    if queue == [] then now else Max(now, queue[|queue| - 1].order + 1)
  }

  predicate HasRoom(caps: Caps, p: Process, bytes: nat) {
    |p.queue| < caps.maxFiles && p.bytes + bytes <= caps.maxBytes
  }

  /** The last pending file has the largest ordering key there is. */
  predicate Exhausted(queue: seq<File>) {
    queue != [] && queue[|queue| - 1].order >= MAX_U64
  }

  /** `persist_body` gets as far as its rename. */
  predicate Admits(caps: Caps, p: Process, now: nat, bytes: nat) {
    !p.poisoned && HasRoom(caps, p, bytes) && !Exhausted(p.queue) && now <= MAX_U64
  }

  function NextFile(s: System, now: nat, id: string, bytes: nat, events: nat): File {
    File(|s.h.log|, NextOrder(s.p.queue, now), id, bytes, events)
  }

  /** What recovery reads back: the surviving files sorted by ordering key. */
  ghost predicate Recovers(left: set<File>, files: seq<File>) {
    && (forall i, j :: 0 <= i < j < |files| ==> files[i] != files[j])
    && (forall f :: f in files <==> f in left)
    && (forall i, j :: 0 <= i < j < |files| ==> files[i].order <= files[j].order)
  }

  /** An update that was not followed by an fsync may or may not survive. */
  predicate Survives(disk: Disk, left: set<File>) {
    disk.visible * disk.durable <= left <= disk.visible + disk.durable
  }

  ghost predicate Enabled(caps: Caps, s: System, a: Action) {
    match a
    case Write(now, _, bytes, _) => s.p.writer.Idle? && Admits(caps, s.p, now, bytes)
    case SyncWrite(_) => s.p.writer.Renamed?
    case Post => s.p.sender.Resting? && s.p.queue != []
    case Unlink => s.p.sender.Acked?
    case SyncAck(_) => s.p.sender.Acked? && s.p.sender.file !in s.disk.visible
    case Restart(left, files) => Survives(s.disk, left) && Recovers(left, files)
  }

  function Without(queue: seq<File>, f: File): seq<File>
    decreases |queue|
  {
    if queue == [] then [] else if queue[0] == f then queue[1..] else [queue[0]] + Without(queue[1..], f)
  }

  function Synced(disk: Disk): Disk {
    Disk(disk.visible, disk.visible)
  }

  function WriteStep(s: System, now: nat, id: string, bytes: nat, events: nat): System {
    var f := NextFile(s, now, id, bytes, events);
    System(s.p.(writer := Renamed(f)), s.disk.(visible := s.disk.visible + {f}), s.h.(log := s.h.log + [f]))
  }

  function SyncWriteStep(s: System, ok: bool): System
    requires s.p.writer.Renamed?
  {
    var f := s.p.writer.file;
    if ok then
      System(s.p.(queue := s.p.queue + [f], bytes := s.p.bytes + f.bytes, writer := Idle), Synced(s.disk),
             s.h.(accepted := s.h.accepted + {f}))
    else s.(p := s.p.(poisoned := true, writer := Idle))
  }

  function PostStep(s: System): System
    requires s.p.queue != []
  {
    s.(p := s.p.(sender := Acked(s.p.queue[0])), h := s.h.(posted := s.h.posted + [s.p.queue[0]]))
  }

  function SyncAckStep(s: System, ok: bool): System
    requires s.p.sender.Acked?
  {
    if ok then
      var f := s.p.sender.file;
      s.(p := s.p.(queue := Without(s.p.queue, f), bytes := Since(s.p.bytes, f.bytes), sender := Resting),
         disk := Synced(s.disk))
    else s
  }

  function RestartStep(s: System, left: set<File>, files: seq<File>): System {
    System(Process(files, Bytes(files), false, Idle, Resting), Disk(left, left), s.h)
  }

  ghost function Next(caps: Caps, s: System, a: Action): System
    requires Enabled(caps, s, a)
  {
    match a
    case Write(now, id, bytes, events) => WriteStep(s, now, id, bytes, events)
    case SyncWrite(ok) => SyncWriteStep(s, ok)
    case Post => PostStep(s)
    case Unlink => s.(disk := s.disk.(visible := s.disk.visible - {s.p.sender.file}))
    case SyncAck(ok) => SyncAckStep(s, ok)
    case Restart(left, files) => RestartStep(s, left, files)
  }

  // ---------- the invariant ----------

  predicate Before(f: File, g: File) {
    f.ix < g.ix && f.order < g.order
  }

  predicate Queued(queue: seq<File>) {
    forall i, j :: 0 <= i < j < |queue| ==> Before(queue[i], queue[j])
  }

  /** The file that is in the directory but not in the queue: being written, or of unknown fate. */
  function Loose(s: System): set<File> {
    if s.p.writer.Renamed? then {s.p.writer.file}
    else if s.p.poisoned && s.h.log != [] then {s.h.log[|s.h.log| - 1]}
    else {}
  }

  predicate Logged(s: System, f: File) {
    f.ix < |s.h.log| && s.h.log[f.ix] == f
  }

  predicate QueueOk(caps: Caps, s: System) {
    && Queued(s.p.queue)
    && s.p.bytes == Bytes(s.p.queue) <= caps.maxBytes
    && |s.p.queue| <= caps.maxFiles
    && (forall f <- s.p.queue :: Logged(s, f))
  }

  predicate DiskOk(s: System) {
    && (forall f <- s.p.queue :: f in s.disk.visible * s.disk.durable || s.p.sender == Acked(f))
    && (s.p.writer.Renamed? ==> s.p.writer.file in s.disk.visible)
    && (forall f <- s.disk.visible + s.disk.durable :: f in s.p.queue || f in Loose(s))
  }

  predicate LooseOk(caps: Caps, s: System) {
    && (s.p.poisoned ==> s.p.writer.Idle? && s.h.log != [])
    && forall g <- Loose(s) ::
         && Logged(s, g) && g.ix == |s.h.log| - 1 && g !in s.h.accepted
         && (forall f <- s.p.queue :: Before(f, g))
         && |s.p.queue| < caps.maxFiles && s.p.bytes + g.bytes <= caps.maxBytes
  }

  predicate HistoryOk(s: System) {
    && (forall i :: 0 <= i < |s.h.log| ==> s.h.log[i].ix == i)
    && (forall f <- s.h.accepted :: Logged(s, f) && (f in s.p.queue || f in s.h.posted))
  }

  predicate PostedOk(s: System) {
    && (forall f <- s.h.posted :: Logged(s, f))
    && (forall i, j :: 0 <= i < j < |s.h.posted| ==> s.h.posted[i].ix <= s.h.posted[j].ix)
    && (forall f <- s.h.posted, g <- s.p.queue :: f.ix <= g.ix)
    && (forall f <- s.h.posted, g <- Loose(s) :: f.ix < g.ix)
    && (s.p.sender.Acked? ==> s.p.queue != [] && s.p.queue[0] == s.p.sender.file && s.p.sender.file in s.h.posted)
  }

  ghost predicate Inv(caps: Caps, s: System) {
    QueueOk(caps, s) && DiskOk(s) && LooseOk(caps, s) && HistoryOk(s) && PostedOk(s)
  }

  // ---------- what each step keeps ----------

  lemma WriteKeeps(caps: Caps, s: System, now: nat, id: string, bytes: nat, events: nat)
    requires Inv(caps, s) && s.p.writer.Idle? && Admits(caps, s.p, now, bytes)
    ensures Inv(caps, WriteStep(s, now, id, bytes, events))
  {
    var f := NextFile(s, now, id, bytes, events);
    var t := WriteStep(s, now, id, bytes, events);
    assert Loose(s) == {} && Loose(t) == {f};
    AfterAll(s.p.queue, now);
    assert forall g :: Logged(s, g) ==> Logged(t, g);
    WriteParts(caps, s, t, f);
  }

  lemma AfterAll(queue: seq<File>, now: nat)
    requires Queued(queue)
    ensures forall g <- queue :: g.order < NextOrder(queue, now)
  {
    forall g <- queue
      ensures g.order < NextOrder(queue, now)
    {
      var i :| 0 <= i < |queue| && queue[i] == g;
      assert i < |queue| - 1 ==> Before(queue[i], queue[|queue| - 1]);
    }
  }

  lemma WriteParts(caps: Caps, s: System, t: System, f: File)
    requires Inv(caps, s) && Loose(s) == {} && Loose(t) == {f} && !s.p.poisoned && f.ix == |s.h.log|
    requires t.p == s.p.(writer := Renamed(f)) && t.disk == s.disk.(visible := s.disk.visible + {f})
    requires t.h == s.h.(log := s.h.log + [f]) && |s.p.queue| < caps.maxFiles && s.p.bytes + f.bytes <= caps.maxBytes
    requires forall g <- s.p.queue :: g.order < f.order
    requires forall g :: Logged(s, g) ==> Logged(t, g)
    ensures Inv(caps, t)
  {
    hide Loose, Bytes, Queued;
    assert forall g <- s.h.accepted :: Logged(s, g);
    assert Logged(t, f);
  }

  lemma SyncWriteKeeps(caps: Caps, s: System, ok: bool)
    requires Inv(caps, s) && s.p.writer.Renamed?
    ensures Inv(caps, SyncWriteStep(s, ok))
  {
    var f := s.p.writer.file;
    var t := SyncWriteStep(s, ok);
    assert f in Loose(s) && !s.p.poisoned;
    if ok {
      AppendOk(caps, s, f);
      SyncedOk(caps, s, t, f);
    } else {
      assert Loose(t) == {f} == Loose(s);
      PoisonedOk(caps, s, t);
    }
  }

  lemma AppendOk(caps: Caps, s: System, f: File)
    requires Inv(caps, s) && f in Loose(s)
    ensures Queued(s.p.queue + [f]) && Bytes(s.p.queue + [f]) == s.p.bytes + f.bytes <= caps.maxBytes
    ensures |s.p.queue + [f]| <= caps.maxFiles
  {
    hide Loose, HistoryOk, PostedOk, DiskOk;
    var q := s.p.queue + [f];
    assert q[..|q| - 1] == s.p.queue;
    forall i, j | 0 <= i < j < |q|
      ensures Before(q[i], q[j])
    {
      assert q[i] in s.p.queue;
    }
  }

  lemma SyncedOk(caps: Caps, s: System, t: System, f: File)
    requires Inv(caps, s) && Loose(s) == {f} && !s.p.poisoned
    requires t.p == s.p.(queue := s.p.queue + [f], bytes := s.p.bytes + f.bytes, writer := Idle)
    requires t.disk == Synced(s.disk) && t.h == s.h.(accepted := s.h.accepted + {f}) && f in s.disk.visible
    requires Queued(t.p.queue) && Bytes(t.p.queue) == t.p.bytes <= caps.maxBytes && |t.p.queue| <= caps.maxFiles
    ensures Inv(caps, t)
  {
    hide Bytes, Queued;
    assert Loose(t) == {};
    assert forall g :: g in t.p.queue <==> g in s.p.queue || g == f;
    assert forall g :: Logged(s, g) <==> Logged(t, g);
  }

  lemma PoisonedOk(caps: Caps, s: System, t: System)
    requires Inv(caps, s) && s.p.writer.Renamed? && t == s.(p := s.p.(poisoned := true, writer := Idle))
    requires Loose(t) == Loose(s)
    ensures Inv(caps, t)
  {
    hide Loose, Bytes, Queued;
    assert forall g :: Logged(s, g) <==> Logged(t, g);
    LoggedSome(caps, s);
  }

  lemma LoggedSome(caps: Caps, s: System)
    requires Inv(caps, s) && s.p.writer.Renamed?
    ensures s.h.log != []
  {
    assert s.p.writer.file in Loose(s);
  }

  lemma PostKeeps(caps: Caps, s: System)
    requires Inv(caps, s) && s.p.sender.Resting? && s.p.queue != []
    ensures Inv(caps, PostStep(s))
  {
    var t := PostStep(s);
    assert Loose(t) == Loose(s);
    PostedMore(caps, s, t);
  }

  lemma PostedMore(caps: Caps, s: System, t: System)
    requires Inv(caps, s) && s.p.sender.Resting? && s.p.queue != [] && t == PostStep(s) && Loose(t) == Loose(s)
    ensures Inv(caps, t)
  {
    hide Loose, Bytes;
    var head := s.p.queue[0];
    assert head in s.p.queue;
    assert forall g :: Logged(s, g) <==> Logged(t, g);
    assert forall g :: g in t.h.posted <==> g in s.h.posted || g == head;
    forall g <- s.p.queue
      ensures head.ix <= g.ix
    {
      var i :| 0 <= i < |s.p.queue| && s.p.queue[i] == g;
      assert i > 0 ==> Before(s.p.queue[0], s.p.queue[i]);
    }
    assert forall g <- Loose(s) :: Before(head, g);
    assert forall i :: 0 <= i < |s.h.posted| ==> s.h.posted[i] in s.h.posted;
  }

  lemma UnlinkKeeps(caps: Caps, s: System)
    requires Inv(caps, s) && s.p.sender.Acked?
    ensures Inv(caps, s.(disk := s.disk.(visible := s.disk.visible - {s.p.sender.file})))
  {
    hide Loose, Bytes, Queued;
    var t := s.(disk := s.disk.(visible := s.disk.visible - {s.p.sender.file}));
    if s.p.writer.Renamed? {
      LooseApart(caps, s);
    }
    assert Loose(t) == Loose(s) by { LooseReads(s, t); }
    assert forall g :: Logged(s, g) <==> Logged(t, g);
  }

  lemma LooseApart(caps: Caps, s: System)
    requires Inv(caps, s) && s.p.sender.Acked? && s.p.writer.Renamed?
    ensures s.p.writer.file != s.p.sender.file
  {
    assert s.p.writer.file in Loose(s) && s.p.sender.file in s.p.queue;
  }

  lemma LooseReads(s: System, t: System)
    requires t.p.writer == s.p.writer && t.p.poisoned == s.p.poisoned && t.h.log == s.h.log
    ensures Loose(t) == Loose(s)
  {
  }

  lemma SyncAckKeeps(caps: Caps, s: System, ok: bool)
    requires Inv(caps, s) && s.p.sender.Acked? && s.p.sender.file !in s.disk.visible
    ensures Inv(caps, SyncAckStep(s, ok))
    ensures ok ==> SyncAckStep(s, ok).p.queue == s.p.queue[1..]
  {
    if ok {
      var t := SyncAckStep(s, ok);
      LooseReads(s, t);
      BytesTail(s.p.queue);
      PoppedOk(caps, s, t);
    }
  }

  lemma {:induction false} BytesTail(queue: seq<File>)
    requires queue != []
    ensures Bytes(queue) == queue[0].bytes + Bytes(queue[1..])
    decreases |queue|
  {
    if |queue| > 1 {
      var n := |queue| - 1;
      BytesTail(queue[..n]);
      assert queue[..n][1..] == queue[1..][..n - 1];
    }
  }

  lemma PoppedOk(caps: Caps, s: System, t: System)
    requires Inv(caps, s) && s.p.sender.Acked? && s.p.sender.file !in s.disk.visible && Loose(t) == Loose(s)
    requires var f := s.p.sender.file;
             && t.p == s.p.(queue := s.p.queue[1..], bytes := Since(s.p.bytes, f.bytes), sender := Resting)
             && t.disk == Synced(s.disk) && t.h == s.h
    requires Bytes(s.p.queue) == s.p.queue[0].bytes + Bytes(s.p.queue[1..])
    ensures Inv(caps, t)
  {
    hide Loose, Bytes;
    var head := s.p.queue[0];
    var tail := s.p.queue[1..];
    assert forall g :: g in s.p.queue <==> g == head || g in tail;
    assert forall g :: Logged(s, g) <==> Logged(t, g);
    forall g <- tail
      ensures g != head
    {
      var i :| 0 <= i < |tail| && tail[i] == g;
      assert Before(s.p.queue[0], s.p.queue[i + 1]);
    }
  }

  // ---------- recovery ----------

  /** In the directory, ordering keys and admission indices agree. */
  predicate Aligned(files: set<File>) {
    forall f, g :: f in files && g in files && f.ix < g.ix ==> f.order < g.order
  }

  lemma DiskAligned(caps: Caps, s: System)
    requires Inv(caps, s)
    ensures Aligned(s.disk.visible + s.disk.durable)
    ensures forall f, g ::
              f in s.disk.visible + s.disk.durable && g in s.disk.visible + s.disk.durable && f.ix == g.ix ==> f == g
    ensures forall f <- s.disk.visible + s.disk.durable :: Logged(s, f)
  {
    hide Bytes, PostedOk;
    var all := s.disk.visible + s.disk.durable;
    forall f, g | f in all && g in all
      ensures f.ix < g.ix ==> f.order < g.order
      ensures f.ix == g.ix ==> f == g
    {
      assert Logged(s, f) && Logged(s, g);
      if f in s.p.queue && g in s.p.queue {
        QueueAligned(s.p.queue, f, g);
      }
    }
  }

  lemma QueueAligned(queue: seq<File>, f: File, g: File)
    requires Queued(queue) && f in queue && g in queue
    ensures f.ix < g.ix ==> f.order < g.order
  {
    var i :| 0 <= i < |queue| && queue[i] == f;
    var j :| 0 <= j < |queue| && queue[j] == g;
    assert j < i ==> Before(queue[j], queue[i]);
    assert i < j ==> Before(queue[i], queue[j]);
  }

  lemma OrderDecides(all: set<File>, f: File, g: File)
    requires Aligned(all) && f in all && g in all && (f.ix == g.ix ==> f == g)
    requires f != g && f.order <= g.order
    ensures Before(f, g)
  {
  }

  /** Whatever a crash leaves behind, sorting it by ordering key rebuilds the admission order. */
  lemma RecoveryRebuildsTheQueue(caps: Caps, s: System, left: set<File>, files: seq<File>)
    requires Inv(caps, s) && Survives(s.disk, left) && Recovers(left, files)
    ensures Queued(files)
  {
    hide Inv;
    DiskAligned(caps, s);
    forall i, j | 0 <= i < j < |files|
      ensures Before(files[i], files[j])
    {
      assert files[i] in left && files[j] in left;
      OrderDecides(s.disk.visible + s.disk.durable, files[i], files[j]);
    }
  }

  lemma {:induction false} BytesRemove(b: seq<File>, i: nat)
    requires i < |b|
    ensures Bytes(b) == Bytes(b[..i] + b[i + 1..]) + b[i].bytes
    decreases |b|
  {
    var n := |b| - 1;
    if i == n {
      assert b[..i] + b[i + 1..] == b[..n];
    } else {
      BytesRemove(b[..n], i);
      var rest := b[..i] + b[i + 1..];
      assert rest[..|rest| - 1] == b[..n][..i] + b[..n][i + 1..] && rest[|rest| - 1] == b[n];
    }
  }

  /** Distinct files drawn from `b` are no more and no larger than `b`. */
  lemma {:induction false} DrawnFits(a: seq<File>, b: seq<File>)
    requires forall i, j :: 0 <= i < j < |a| ==> a[i] != a[j]
    requires forall f <- a :: f in b
    ensures |a| <= |b| && Bytes(a) <= Bytes(b)
    decreases |a|
  {
    if a != [] {
      var n := |a| - 1;
      assert a[n] in b;
      var i :| 0 <= i < |b| && b[i] == a[n];
      var rest := b[..i] + b[i + 1..];
      BytesRemove(b, i);
      assert b == b[..i] + [b[i]] + b[i + 1..];
      assert forall f <- a[..n] :: f in a && f != a[n];
      DrawnFits(a[..n], rest);
    }
  }

  /** Everything on the disk: the queue and what is loose. */
  function Everything(s: System): seq<File> {
    if s.p.writer.Renamed? then s.p.queue + [s.p.writer.file]
    else if s.p.poisoned && s.h.log != [] then s.p.queue + [s.h.log[|s.h.log| - 1]]
    else s.p.queue
  }

  lemma EverythingFits(caps: Caps, s: System)
    requires Inv(caps, s)
    ensures |Everything(s)| <= caps.maxFiles && Bytes(Everything(s)) <= caps.maxBytes
    ensures forall f :: f in Everything(s) <==> f in s.p.queue || f in Loose(s)
  {
    hide DiskOk, HistoryOk, PostedOk, Queued;
    var e := Everything(s);
    if e != s.p.queue {
      assert e[..|e| - 1] == s.p.queue;
      assert e[|e| - 1] in Loose(s);
    }
  }

  /** What a crash leaves behind is within the caps: the process can always start again. */
  lemma RestartFits(caps: Caps, s: System, left: set<File>, files: seq<File>)
    requires Inv(caps, s) && Survives(s.disk, left) && Recovers(left, files)
    ensures |files| <= caps.maxFiles && Bytes(files) <= caps.maxBytes
  {
    hide Bytes, Everything, QueueOk, LooseOk, HistoryOk, PostedOk, Loose;
    EverythingFits(caps, s);
    forall f <- files
      ensures f in Everything(s)
    {
      assert f in left;
    }
    DrawnFits(files, Everything(s));
  }

  lemma RestartKeeps(caps: Caps, s: System, left: set<File>, files: seq<File>)
    requires Inv(caps, s) && Survives(s.disk, left) && Recovers(left, files)
    ensures Inv(caps, RestartStep(s, left, files))
  {
    RestartFits(caps, s, left, files);
    RecoveryRebuildsTheQueue(caps, s, left, files);
    DiskAligned(caps, s);
    LeftOk(caps, s, left, files, RestartStep(s, left, files));
  }

  lemma LeftOk(caps: Caps, s: System, left: set<File>, files: seq<File>, t: System)
    requires Inv(caps, s) && Survives(s.disk, left) && (forall f :: f in files <==> f in left)
    requires t == RestartStep(s, left, files)
    requires Queued(files) && Bytes(files) <= caps.maxBytes && |files| <= caps.maxFiles
    requires forall f <- s.disk.visible + s.disk.durable :: Logged(s, f)
    ensures Inv(caps, t)
  {
    hide Bytes, Queued;
    assert Loose(t) == {};
    assert forall g :: Logged(s, g) <==> Logged(t, g);
    assert forall f <- left :: f in s.disk.visible + s.disk.durable;
    PostedBefore(caps, s, left);
    AcceptedLeft(caps, s, left);
  }

  lemma PostedBefore(caps: Caps, s: System, left: set<File>)
    requires Inv(caps, s) && left <= s.disk.visible + s.disk.durable
    ensures forall f <- s.h.posted, g <- left :: f.ix <= g.ix
  {
    hide Bytes, Queued, Loose;
    forall f <- s.h.posted, g <- left
      ensures f.ix <= g.ix
    {
      assert g in s.p.queue || g in Loose(s);
    }
  }

  lemma AcceptedLeft(caps: Caps, s: System, left: set<File>)
    requires Inv(caps, s) && s.disk.visible * s.disk.durable <= left
    ensures forall f <- s.h.accepted :: f in left || f in s.h.posted
  {
    hide Bytes, Queued, Loose;
  }

  lemma StepKeeps(caps: Caps, s: System, a: Action)
    requires Inv(caps, s) && Enabled(caps, s, a)
    ensures Inv(caps, Next(caps, s, a))
  {
    hide Inv, WriteStep, SyncWriteStep, PostStep, SyncAckStep, RestartStep, Survives, Recovers, Admits;
    match a
    case Write(now, id, bytes, events) => WriteKeeps(caps, s, now, id, bytes, events);
    case SyncWrite(ok) => SyncWriteKeeps(caps, s, ok);
    case Post => PostKeeps(caps, s);
    case Unlink => UnlinkKeeps(caps, s);
    case SyncAck(ok) => SyncAckKeeps(caps, s, ok);
    case Restart(left, files) => RestartKeeps(caps, s, left, files);
  }

  // ---------- runs ----------

  const FRESH: System := System(Process([], 0, false, Idle, Resting), Disk({}, {}), History([], {}, []))

  ghost predicate Run(caps: Caps, actions: seq<Action>, states: seq<System>) {
    && |states| == |actions| + 1 && states[0] == FRESH
    && forall i :: 0 <= i < |actions| ==>
         Enabled(caps, states[i], actions[i]) && states[i + 1] == Next(caps, states[i], actions[i])
  }

  lemma {:induction false} OutboxKeepsInvariant(caps: Caps, actions: seq<Action>, states: seq<System>, n: nat)
    requires Run(caps, actions, states) && n < |states|
    ensures Inv(caps, states[n])
    decreases n
  {
    hide Next, Enabled;
    if n > 0 {
      hide Inv;
      OutboxKeepsInvariant(caps, actions, states, n - 1);
      StepKeeps(caps, states[n - 1], actions[n - 1]);
    }
  }

  /** Over every run with crashes anywhere, every accepted batch has been acknowledged, or is queued
      and would survive a crash. */
  lemma AcceptedStaysDurable(caps: Caps, actions: seq<Action>, states: seq<System>, n: nat, f: File)
    requires Run(caps, actions, states) && n < |states| && f in states[n].h.accepted
    ensures var s := states[n];
            f in s.h.posted || (f in s.p.queue && f in s.disk.durable && f in s.disk.visible)
  {
    hide Run, QueueOk, LooseOk;
    OutboxKeepsInvariant(caps, actions, states, n);
  }

  /** Acknowledgements follow the admission order, only the head of the queue is ever acknowledged
      again, and no accepted batch is passed over. */
  lemma AcknowledgedInOrder(caps: Caps, actions: seq<Action>, states: seq<System>, n: nat)
    requires Run(caps, actions, states) && n < |states|
    ensures var s := states[n];
            && (forall i, j :: 0 <= i < j < |s.h.posted| ==> s.h.posted[i].ix <= s.h.posted[j].ix)
            && (forall f <- s.h.posted, g <- s.p.queue :: f.ix <= g.ix && (f.ix == g.ix ==> g == s.p.queue[0]))
            && (forall f <- s.h.accepted, g <- s.h.posted :: f.ix < g.ix ==> f in s.h.posted)
  {
    hide Run, LooseOk, DiskOk;
    OutboxKeepsInvariant(caps, actions, states, n);
    var s := states[n];
    forall f <- s.h.posted, g <- s.p.queue | f.ix == g.ix
      ensures g == s.p.queue[0]
    {
      var i :| 0 <= i < |s.p.queue| && s.p.queue[i] == g;
      assert s.p.queue[0] in s.p.queue;
      assert i > 0 ==> Before(s.p.queue[0], s.p.queue[i]);
    }
  }

  /** The queue has strictly increasing ordering keys and stays within both caps, and its byte total
      is the sum of its files. */
  lemma QueueStaysInBounds(caps: Caps, actions: seq<Action>, states: seq<System>, n: nat)
    requires Run(caps, actions, states) && n < |states|
    ensures var p := states[n].p;
            && (forall i, j :: 0 <= i < j < |p.queue| ==>
                  p.queue[i].order < p.queue[j].order && p.queue[i].ix < p.queue[j].ix)
            && p.bytes == Bytes(p.queue) <= caps.maxBytes && |p.queue| <= caps.maxFiles
  {
    hide Run, DiskOk, LooseOk, HistoryOk, PostedOk, Bytes;
    OutboxKeepsInvariant(caps, actions, states, n);
    var q := states[n].p.queue;
    forall i, j | 0 <= i < j < |q|
      ensures q[i].order < q[j].order && q[i].ix < q[j].ix
    {
      assert Before(q[i], q[j]);
    }
  }

  /** From a poisoned outbox nothing is admitted: only a restart lets the log grow again. */
  lemma PoisonedAdmitsNothing(caps: Caps, s: System, a: Action)
    requires Inv(caps, s) && s.p.poisoned && Enabled(caps, s, a) && !a.Restart?
    ensures Next(caps, s, a).p.poisoned && Next(caps, s, a).h.log == s.h.log
            && Next(caps, s, a).h.accepted == s.h.accepted
  {
    hide QueueOk, DiskOk, HistoryOk, PostedOk, HasRoom, Exhausted;
  }

  /** After a crash at any point the queue is rebuilt in admission order, whatever survived. */
  lemma CrashRebuildsTheQueue(caps: Caps, actions: seq<Action>, states: seq<System>, n: nat, left: set<File>,
                              files: seq<File>)
    requires Run(caps, actions, states) && n < |states|
    requires Survives(states[n].disk, left) && Recovers(left, files)
    ensures forall i, j :: 0 <= i < j < |files| ==> files[i].ix < files[j].ix && files[i].order < files[j].order
    ensures |files| <= caps.maxFiles && Bytes(files) <= caps.maxBytes
    ensures forall f <- states[n].h.accepted :: f in files || f in states[n].h.posted
  {
    hide Run, Inv, Bytes;
    OutboxKeepsInvariant(caps, actions, states, n);
    RestartFits(caps, states[n], left, files);
    RecoveryRebuildsTheQueue(caps, states[n], left, files);
    AcceptedLeft(caps, states[n], left);
    forall i, j | 0 <= i < j < |files|
      ensures files[i].ix < files[j].ix && files[i].order < files[j].order
    {
      assert Before(files[i], files[j]);
    }
  }
}
