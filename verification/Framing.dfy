/** The gossip frame reader of `src/peering.rs`: `[u32 BE body_len][u8 kind][body]`. */
module Framing {
  import opened Common

  const MAX_FRAME_BODY: nat := 8 * 1024 * 1024
  const HEADER: nat := 5
  /** Frames needed in a row before an offset is trusted as a boundary. */
  const RESYNC_FRAMES: nat := 4

  datatype Frame = Frame(kind: byte, body: seq<byte>)

  function BodyLen(buf: seq<byte>, at: nat): nat
    requires at + 4 <= |buf|
  {
    var a: nat, b: nat, c: nat, d: nat := buf[at], buf[at + 1], buf[at + 2], buf[at + 3];
    ((a * 256 + b) * 256 + c) * 256 + d
  }

  /** What the reader gets from a buffer: the complete frames, the bytes it leaves, and whether it
      stopped at a header no frame can have. */
  datatype Parsed = Parsed(frames: seq<Frame>, rest: seq<byte>, desync: bool)

  function Parse(buf: seq<byte>): (p: Parsed)
    decreases |buf|
  {
    if |buf| < HEADER then Parsed([], buf, false)
    else if BodyLen(buf, 0) > MAX_FRAME_BODY then Parsed([], buf, true)
    else if |buf| < HEADER + BodyLen(buf, 0) then Parsed([], buf, false)
    else Prefixed([FirstFrame(buf)], Parse(buf[HEADER + BodyLen(buf, 0)..]))
  }

  function FirstFrame(buf: seq<byte>): Frame
    requires |buf| >= HEADER && |buf| >= HEADER + BodyLen(buf, 0)
  {
    Frame(buf[4], buf[HEADER..HEADER + BodyLen(buf, 0)])
  }

  function Prefixed(frames: seq<Frame>, p: Parsed): Parsed {
    Parsed(frames + p.frames, p.rest, p.desync)
  }

  /** The whole frame at the front of `buf[at..]` is the next frame. */
  lemma FrameAt(buf: seq<byte>, at: nat, frames: seq<Frame>)
    requires at + HEADER <= |buf| && BodyLen(buf, at) <= MAX_FRAME_BODY
    requires at + HEADER + BodyLen(buf, at) <= |buf|
    ensures var end := at + HEADER + BodyLen(buf, at);
            Prefixed(frames, Parse(buf[at..]))
            == Prefixed(frames + [Frame(buf[at + 4], buf[at + HEADER..end])], Parse(buf[end..]))
  {
    var b := buf[at..];
    var end := HEADER + BodyLen(buf, at);
    assert BodyLen(b, 0) == BodyLen(buf, at);
    assert b[end..] == buf[at + end..];
    assert b[HEADER..end] == buf[at + HEADER..at + end];
    var f := Frame(b[4], b[HEADER..end]);
    assert Parse(b) == Prefixed([f], Parse(b[end..]));
    assert frames + ([f] + Parse(b[end..]).frames) == (frames + [f]) + Parse(b[end..]).frames;
  }

  /** No whole frame at the front of `buf[at..]`: the reader stops, at a bad header or for more bytes. */
  lemma StopsAt(buf: seq<byte>, at: nat)
    requires at <= |buf|
    requires at + HEADER <= |buf| ==>
               BodyLen(buf, at) > MAX_FRAME_BODY || |buf| < at + HEADER + BodyLen(buf, at)
    ensures Parse(buf[at..])
            == Parsed([], buf[at..], at + HEADER <= |buf| && BodyLen(buf, at) > MAX_FRAME_BODY)
  {
    if at + HEADER <= |buf| {
      assert BodyLen(buf[at..], 0) == BodyLen(buf, at);
    }
  }

  // ---------- the wire layout, `[u32 BE body_len][u8 kind][body]` ----------

  /** A frame the reader accepts: its body is no longer than MAX_FRAME_BODY. */
  predicate Fits(f: Frame) {
    |f.body| <= MAX_FRAME_BODY
  }

  predicate AllFit(fs: seq<Frame>) {
    forall f <- fs :: Fits(f)
  }

  /** The length, most significant byte first. */
  function BigEndian(n: nat): (r: seq<byte>)
    requires n < 0x1_0000_0000
    ensures |r| == 4
  {
    [n / 0x100_0000, n / 0x1_0000 % 0x100, n / 0x100 % 0x100, n % 0x100]
  }

  function Encode(f: Frame): (r: seq<byte>)
    requires Fits(f)
    ensures |r| == HEADER + |f.body|
  {
    BigEndian(|f.body|) + [f.kind] + f.body
  }

  function EncodeAll(fs: seq<Frame>): seq<byte>
    requires AllFit(fs)
    decreases |fs|
  {
    if fs == [] then [] else Encode(fs[0]) + EncodeAll(fs[1..])
  }

  lemma DigitsAddUp(n: nat)
    requires n < 0x1_0000_0000
    ensures ((n / 0x100_0000 * 256 + n / 0x1_0000 % 0x100) * 256 + n / 0x100 % 0x100) * 256 + n % 0x100 == n
  {
  }

  /** The header of a frame that stands at `at`. */
  lemma HeaderReads(buf: seq<byte>, at: nat, f: Frame)
    requires Fits(f) && at + |Encode(f)| <= |buf| && buf[at..at + |Encode(f)|] == Encode(f)
    ensures BodyLen(buf, at) == |f.body|
    ensures Frame(buf[at + 4], buf[at + HEADER..at + HEADER + |f.body|]) == f
  {
    var e := Encode(f);
    DigitsAddUp(|f.body|);
    var part := buf[at..at + |e|];
    assert part[0] == buf[at] && part[1] == buf[at + 1] && part[2] == buf[at + 2] && part[3] == buf[at + 3];
    assert part[4] == buf[at + 4];
    assert e[..4] == BigEndian(|f.body|) && e[4] == f.kind && e[HEADER..] == f.body;
    assert buf[at + HEADER..at + HEADER + |f.body|] == buf[at..at + |e|][HEADER..];
  }

  /** Encoded frames read back, in order and with nothing in between, whatever follows them. */
  lemma {:induction false} ReaderInvertsEncoder(fs: seq<Frame>, rest: seq<byte>)
    requires AllFit(fs)
    ensures Parse(EncodeAll(fs) + rest) == Prefixed(fs, Parse(rest))
    decreases |fs|
  {
    hide Parse, BodyLen, Encode;
    if fs == [] {
      assert EncodeAll(fs) + rest == rest;
      PrefixedJoins([], [], Parse(rest));
    } else {
      var f, tail := fs[0], EncodeAll(fs[1..]) + rest;
      var buf := EncodeAll(fs) + rest;
      assert buf == Encode(f) + tail;
      HeaderReads(buf, 0, f);
      FrameAt(buf, 0, []);
      assert buf[0..] == buf && buf[|Encode(f)|..] == tail;
      PrefixedJoins([], [], Parse(buf));
      ReaderInvertsEncoder(fs[1..], rest);
      assert [] + [f] == [f];
      PrefixedJoins([f], fs[1..], Parse(rest));
      assert [f] + fs[1..] == fs;
    }
  }

  /** A length over the cap, written the same way, stops the reader where it stands. */
  lemma OversizeStops(n: nat, kind: byte, rest: seq<byte>)
    requires MAX_FRAME_BODY < n < 0x1_0000_0000
    ensures var buf := BigEndian(n) + [kind] + rest; Parse(buf) == Parsed([], buf, true)
  {
    DigitsAddUp(n);
    var buf := BigEndian(n) + [kind] + rest;
    assert buf[..4] == BigEndian(n);
    assert BodyLen(buf, 0) == n;
  }

  lemma EncodedIsRead(buf: seq<byte>)
    ensures forall fs, rest :: AllFit(fs) && buf == EncodeAll(fs) + rest ==> fs <= Parse(buf).frames
  {
    forall fs, rest | AllFit(fs) && buf == EncodeAll(fs) + rest
      ensures fs <= Parse(buf).frames
    {
      ReaderInvertsEncoder(fs, rest);
    }
  }

  /** `consume_frames`: the frames it hands to the assembly, and the buffer drained of them. On a
      desync the buffer is left as it was, and the frames before the bad header were handed on. */
  method ConsumeFrames(buf: seq<byte>) returns (frames: seq<Frame>, left: seq<byte>, ok: bool)
    ensures frames == Parse(buf).frames
    ensures ok == !Parse(buf).desync
    ensures left == if ok then Parse(buf).rest else buf
    ensures forall fs, rest :: AllFit(fs) && buf == EncodeAll(fs) + rest ==> fs <= frames
  {
    hide Parse, BodyLen, EncodeAll, AllFit;
    EncodedIsRead(buf);
    frames, left, ok := [], buf, true;
    var offset := 0;
    assert buf[0..] == buf;
    while |buf| - offset >= HEADER
      invariant 0 <= offset <= |buf|
      invariant Parse(buf) == Prefixed(frames, Parse(buf[offset..]))
      invariant ok && left == buf
    {
      var len := BodyLen(buf, offset);
      if len > MAX_FRAME_BODY {
        StopsAt(buf, offset);
        ok := false;
        return;
      }
      if |buf| - offset < HEADER + len {
        break;
      }
      FrameAt(buf, offset, frames);
      frames := frames + [Frame(buf[offset + 4], buf[offset + HEADER..offset + HEADER + len])];
      offset := offset + HEADER + len;
    }
    StopsAt(buf, offset);
    left := buf[offset..];
  }

  // ---------- chunking ----------

  /** Parsing is a stream computation: what a longer buffer yields is what the shorter one yields,
      then what the bytes it left and the new bytes yield; a bad header stays where it is. */
  lemma {:induction false} ParseResumes(a: seq<byte>, b: seq<byte>)
    ensures var p := Parse(a);
            Parse(a + b) == if p.desync then p.(rest := p.rest + b)
                            else Prefixed(p.frames, Parse(p.rest + b))
    decreases |a|
  {
    hide Parse, BodyLen, FirstFrame;
    if Whole(a) {
      SameHeader(a, b);
      var end := HEADER + BodyLen(a, 0);
      assert (a + b)[end..] == a[end..] + b;
      ParseWhole(a);
      ParseWhole(a + b);
      ParseResumes(a[end..], b);
      var p := Parse(a[end..]);
      PrefixedJoins([FirstFrame(a)], p.frames, Parse(p.rest + b));
    } else {
      ParseStops(a, b);
    }
  }

  /** A whole, plausible frame is at the front. */
  predicate Whole(buf: seq<byte>) {
    |buf| >= HEADER && BodyLen(buf, 0) <= MAX_FRAME_BODY && HEADER + BodyLen(buf, 0) <= |buf|
  }

  lemma ParseWhole(buf: seq<byte>)
    requires Whole(buf)
    ensures Parse(buf) == Prefixed([FirstFrame(buf)], Parse(buf[HEADER + BodyLen(buf, 0)..]))
  {
  }

  lemma ParseStops(a: seq<byte>, b: seq<byte>)
    requires !Whole(a)
    ensures Parse(a).frames == [] && Parse(a).rest == a
    ensures Parse(a).desync ==> Parse(a + b) == Parsed([], a + b, true)
  {
    if |a| >= HEADER {
      SameHeader(a, b);
    }
  }

  lemma PrefixedJoins(f: seq<Frame>, g: seq<Frame>, p: Parsed)
    ensures Prefixed(f, Prefixed(g, p)) == Prefixed(f + g, p)
    ensures Prefixed([], p) == p
  {
    assert f + (g + p.frames) == (f + g) + p.frames;
  }

  lemma SameHeader(a: seq<byte>, b: seq<byte>)
    requires |a| >= HEADER
    ensures BodyLen(a + b, 0) == BodyLen(a, 0)
    ensures HEADER + BodyLen(a, 0) <= |a| ==> FirstFrame(a + b) == FirstFrame(a)
  {
    var len := BodyLen(a, 0);
    assert BodyLen(a + b, 0) == len;
    if HEADER + len <= |a| {
      assert (a + b)[HEADER..HEADER + len] == a[HEADER..HEADER + len];
    }
  }

  /** What is left over holds no whole frame. */
  lemma {:induction false} RestIsStuck(buf: seq<byte>)
    ensures var p := Parse(buf); Parse(p.rest) == Parsed([], p.rest, p.desync)
    decreases |buf|
  {
    if |buf| >= HEADER && BodyLen(buf, 0) <= MAX_FRAME_BODY && HEADER + BodyLen(buf, 0) <= |buf| {
      RestIsStuck(buf[HEADER + BodyLen(buf, 0)..]);
    }
  }

  /** A reader fed chunk by chunk: the frames handed on so far, the buffer, and whether it gave up. */
  function Feed(p: Parsed, chunk: seq<byte>): Parsed {
    if p.desync then p else Prefixed(p.frames, Parse(p.rest + chunk))
  }

  function FeedAll(p: Parsed, chunks: seq<seq<byte>>): Parsed
    decreases |chunks|
  {
    if chunks == [] then p else FeedAll(Feed(p, chunks[0]), chunks[1..])
  }

  function Concat(chunks: seq<seq<byte>>): seq<byte>
    decreases |chunks|
  {
    if chunks == [] then [] else chunks[0] + Concat(chunks[1..])
  }

  /** The frames, and whether and after which frame the reader gives up, depend only on the bytes
      and not on how they were cut into chunks. */
  lemma {:induction false} ChunkingIsInvisible(before: seq<byte>, chunks: seq<seq<byte>>)
    ensures var fed, whole := FeedAll(Parse(before), chunks), Parse(before + Concat(chunks));
            && fed.frames == whole.frames
            && fed.desync == whole.desync
            && (!fed.desync ==> fed.rest == whole.rest)
    decreases |chunks|
  {
    hide Parse;
    if chunks == [] {
      assert before + Concat(chunks) == before;
    } else {
      var p := Parse(before);
      var c, more := chunks[0], chunks[1..];
      ParseResumes(before, c);
      assert before + Concat(chunks) == (before + c) + Concat(more);
      if p.desync {
        ParseResumes(before, Concat(chunks));
        GivenUp(p, more);
      } else {
        assert Feed(p, c) == Parse(before + c);
        ChunkingIsInvisible(before + c, more);
      }
    }
  }

  lemma {:induction false} GivenUp(p: Parsed, chunks: seq<seq<byte>>)
    requires p.desync
    ensures FeedAll(p, chunks) == p
    decreases |chunks|
  {
    if chunks != [] {
      GivenUp(p, chunks[1..]);
    }
  }

  /** A stream of whole frames is consumed to the last byte, cut into chunks in any way. */
  lemma StreamReads(fs: seq<Frame>, chunks: seq<seq<byte>>)
    requires AllFit(fs)
    requires Concat(chunks) == EncodeAll(fs)
    ensures FeedAll(Parsed([], [], false), chunks) == Parsed(fs, [], false)
  {
    hide Parse, EncodeAll;
    NothingParsed();
    ReaderInvertsEncoder(fs, []);
    ChunkingIsInvisible([], chunks);
    assert EncodeAll(fs) + [] == EncodeAll(fs) == [] + Concat(chunks);
  }

  lemma NothingParsed()
    ensures Parse([]) == Parsed([], [], false)
  {
  }

  // ---------- resynchronisation ----------

  /** A frame the resynchroniser trusts at `at`: plausible length and kind, wholly buffered, and
      decompressible when it is data. `inflates` stands for `decompress_data_frame`. */
  predicate Trusted(inflates: seq<byte> -> bool, buf: seq<byte>, at: nat) {
    && at + HEADER <= |buf|
    && 0 < BodyLen(buf, at) <= MAX_FRAME_BODY
    && buf[at + 4] <= 1
    && at + HEADER + BodyLen(buf, at) <= |buf|
    && (buf[at + 4] == 1 ==> inflates(buf[at + HEADER..at + HEADER + BodyLen(buf, at)]))
  }

  /** `n` trusted frames in a row from `at`, at least one of them data unless `decoded` already. */
  predicate TrustedRun(inflates: seq<byte> -> bool, buf: seq<byte>, at: nat, n: nat, decoded: bool)
    decreases n
  {
    if n == 0 then decoded
    else Trusted(inflates, buf, at)
         && TrustedRun(inflates, buf, at + HEADER + BodyLen(buf, at), n - 1, decoded || buf[at + 4] == 1)
  }

  predicate Boundary(inflates: seq<byte> -> bool, buf: seq<byte>, at: nat) {
    TrustedRun(inflates, buf, at, RESYNC_FRAMES, false)
  }

  /** A frame the resynchroniser can trust. */
  predicate Credible(inflates: seq<byte> -> bool, f: Frame) {
    Fits(f) && f.body != [] && f.kind <= 1 && (f.kind == 1 ==> inflates(f.body))
  }

  predicate AllCredible(inflates: seq<byte> -> bool, fs: seq<Frame>): (all: bool)
    ensures all ==> AllFit(fs)
  {
    forall f <- fs :: Fits(f) && Credible(inflates, f)
  }

  lemma EncodedIsTrusted(inflates: seq<byte> -> bool, before: seq<byte>, f: Frame, rest: seq<byte>)
    requires Credible(inflates, f)
    ensures var buf := before + Encode(f) + rest;
            && Trusted(inflates, buf, |before|) && BodyLen(buf, |before|) == |f.body|
            && buf[|before| + 4] == f.kind
  {
    hide BodyLen, Encode;
    var buf := before + Encode(f) + rest;
    assert buf[|before|..|before| + |Encode(f)|] == Encode(f);
    HeaderReads(buf, |before|, f);
  }

  predicate HasData(fs: seq<Frame>) {
    exists f <- fs :: f.kind == 1
  }

  lemma HasDataSplits(fs: seq<Frame>)
    requires fs != []
    ensures HasData(fs) <==> fs[0].kind == 1 || HasData(fs[1..])
  {
    assert fs == [fs[0]] + fs[1..];
  }

  lemma {:induction false} EncodedRun(inflates: seq<byte> -> bool, before: seq<byte>, fs: seq<Frame>, rest: seq<byte>,
                                      decoded: bool)
    requires AllCredible(inflates, fs)
    ensures TrustedRun(inflates, before + EncodeAll(fs) + rest, |before|, |fs|, decoded) <==> decoded || HasData(fs)
    decreases |fs|
  {
    hide BodyLen, Encode, Trusted, Credible, HasData;
    if fs == [] {
      assert !HasData([]) by { NoData(); }
    } else {
      var f := fs[0];
      EncodedIsTrusted(inflates, before, f, EncodeAll(fs[1..]) + rest);
      assert before + EncodeAll(fs) + rest == before + Encode(f) + (EncodeAll(fs[1..]) + rest);
      assert before + EncodeAll(fs) + rest == (before + Encode(f)) + EncodeAll(fs[1..]) + rest;
      EncodedRun(inflates, before + Encode(f), fs[1..], rest, decoded || f.kind == 1);
      HasDataSplits(fs);
    }
  }

  lemma NoData()
    ensures !HasData([])
  {
  }

  /** What the search needs to see: four frames in a row, a data frame among them. */
  ghost predicate FourCredible(inflates: seq<byte> -> bool, fs: seq<Frame>): (ok: bool)
    ensures ok ==> AllFit(fs)
  {
    |fs| == RESYNC_FRAMES && AllCredible(inflates, fs) && HasData(fs)
  }

  /** Four credible frames in a row, a data frame among them, are a boundary wherever they stand; and
      four without a data frame are none. */
  lemma FourFramesAreABoundary(inflates: seq<byte> -> bool, before: seq<byte>, fs: seq<Frame>, rest: seq<byte>)
    requires |fs| == RESYNC_FRAMES && AllCredible(inflates, fs)
    ensures Boundary(inflates, before + EncodeAll(fs) + rest, |before|) <==> HasData(fs)
  {
    EncodedRun(inflates, before, fs, rest, false);
  }

  lemma EncodedIsFound(inflates: seq<byte> -> bool, buf: seq<byte>)
    ensures forall before, fs, rest :: FourCredible(inflates, fs) && buf == before + EncodeAll(fs) + rest ==>
              Boundary(inflates, buf, |before|)
  {
    forall before, fs, rest | FourCredible(inflates, fs) && buf == before + EncodeAll(fs) + rest
      ensures Boundary(inflates, buf, |before|)
    {
      FourFramesAreABoundary(inflates, before, fs, rest);
    }
  }

  /** The check at one start offset. */
  method CheckStart(inflates: seq<byte> -> bool, buf: seq<byte>, start: nat) returns (ok: bool)
    requires start <= |buf|
    ensures ok == Boundary(inflates, buf, start)
  {
    var offset := start;
    var decoded := false;
    for i := 0 to RESYNC_FRAMES
      invariant 0 <= offset <= |buf|
      invariant Boundary(inflates, buf, start)
                == TrustedRun(inflates, buf, offset, RESYNC_FRAMES - i, decoded)
    {
      if |buf| - offset < HEADER {
        return false;
      }
      var len := BodyLen(buf, offset);
      var kind := buf[offset + 4];
      if len == 0 || len > MAX_FRAME_BODY || kind > 1 || |buf| - offset < HEADER + len {
        return false;
      }
      if kind == 1 {
        if !inflates(buf[offset + HEADER..offset + HEADER + len]) {
          return false;
        }
        decoded := true;
      }
      offset := offset + HEADER + len;
    }
    return decoded;
  }

  /** `find_frame_boundary`: the first offset where a trusted run starts. */
  method FindFrameBoundary(inflates: seq<byte> -> bool, buf: seq<byte>) returns (r: Option<nat>)
    ensures match r
            case Some(at) => Boundary(inflates, buf, at) && forall e :: 0 <= e < at ==> !Boundary(inflates, buf, e)
            case None => forall e: nat :: !Boundary(inflates, buf, e)
    ensures forall before, fs, rest ::
              FourCredible(inflates, fs) && buf == before + EncodeAll(fs) + rest ==> r.Some? && r.value <= |before|
  {
    hide BodyLen, TrustedRun, EncodeAll, FourCredible;
    EncodedIsFound(inflates, buf);
    var limit := Max(0, |buf| - HEADER);
    for start := 0 to limit
      invariant forall e :: 0 <= e < start ==> !Boundary(inflates, buf, e)
    {
      var ok := CheckStart(inflates, buf, start);
      if ok {
        return Some(start);
      }
    }
    forall e: nat | e >= limit
      ensures !Boundary(inflates, buf, e)
    {
      NoRoom(inflates, buf, e);
    }
    return None;
  }

  lemma NoRoom(inflates: seq<byte> -> bool, buf: seq<byte>, at: nat)
    requires at + HEADER >= |buf|
    ensures !Boundary(inflates, buf, at)
  {
  }

  /** A trusted boundary is one the frame reader agrees with: from there it yields those frames. */
  lemma {:induction false} TrustedRunParses(inflates: seq<byte> -> bool, buf: seq<byte>, at: nat, n: nat, decoded: bool)
    requires at <= |buf| && TrustedRun(inflates, buf, at, n, decoded)
    ensures |Parse(buf[at..]).frames| >= n
    ensures decoded || exists i :: 0 <= i < n && Parse(buf[at..]).frames[i].kind == 1
    decreases n
  {
    hide Parse, BodyLen;
    if n > 0 {
      var end := at + HEADER + BodyLen(buf, at);
      var f := Frame(buf[at + 4], buf[at + HEADER..end]);
      FrameAt(buf, at, []);
      PrefixedJoins([], [], Parse(buf[at..]));
      assert [] + [f] == [f];
      TrustedRunParses(inflates, buf, end, n - 1, decoded || f.kind == 1);
      DataAmong(f, Parse(buf[end..]).frames, n, decoded);
    }
  }

  lemma DataAmong(f: Frame, rest: seq<Frame>, n: nat, decoded: bool)
    requires n > 0 && |rest| >= n - 1
    requires decoded || f.kind == 1 || exists i :: 0 <= i < n - 1 && rest[i].kind == 1
    ensures decoded || exists i :: 0 <= i < n && ([f] + rest)[i].kind == 1
  {
    var all := [f] + rest;
    if f.kind == 1 {
      assert all[0].kind == 1;
    } else if !decoded {
      var i :| 0 <= i < n - 1 && rest[i].kind == 1;
      assert all[i + 1].kind == 1;
    }
  }

  /** What a boundary is trusted for: from it the frame reader yields the frames the search counted,
      a data frame among them. */
  lemma BoundaryParses(inflates: seq<byte> -> bool, buf: seq<byte>, at: nat)
    requires at <= |buf| && Boundary(inflates, buf, at)
    ensures var frames := Parse(buf[at..]).frames;
            |frames| >= RESYNC_FRAMES && exists i :: 0 <= i < RESYNC_FRAMES && frames[i].kind == 1
  {
    TrustedRunParses(inflates, buf, at, RESYNC_FRAMES, false);
  }
}
