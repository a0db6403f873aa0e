/** One tapped connection of `run_peering_tap_once`: the reassembler feeding the frame reader. */
module TapFlow {
  import opened Common
  import opened SequenceSpace
  import R = ReassemblerSpec
  import L = ReassemblerLaws
  import Runs = ReassemblerRuns
  import opened Framing

  /** While not synced, only this much of the tail is kept: a boundary lies within one frame. */
  const KEEP: nat := (MAX_FRAME_BODY + HEADER) * 2

  /** The buffer behind one flow and whether its start is a trusted frame boundary. */
  class Flow {
    var buf: seq<byte>
    var synced: bool

    constructor ()
      ensures buf == [] && !synced
    {
      buf, synced := [], false;
    }

    /** The per-delivery step of `run_peering_tap_once`: the frames handed to the assembly. */
    method Deliver(inflates: seq<byte> -> bool, d: R.Delivery) returns (frames: seq<Frame>)
      modifies this
      ensures Stepped(inflates, old(buf), old(synced), d, frames, buf, synced)
    {
      hide Boundary, Parse, Consumed, Synced;
      frames := [];
      if d.Reset? {
        buf, synced := [], false;
        return;
      }
      buf := buf + d.data;
      if !synced {
        Synchronise(inflates);
      }
      if synced {
        frames := Consume();
      }
    }

    /** Look for a trusted boundary; without one keep only the tail. */
    method Synchronise(inflates: seq<byte> -> bool)
      requires !synced
      modifies this
      ensures Synced(inflates, old(buf), buf, synced)
    {
      hide Boundary, Parse;
      var at := FindFrameBoundary(inflates, buf);
      if at.Some? {
        BoundaryInside(inflates, buf, at.value);
        buf := buf[at.value..];
        synced := true;
      } else if |buf| > KEEP {
        buf := buf[|buf| - KEEP..];
      }
    }

    method Consume() returns (frames: seq<Frame>)
      modifies this
      requires synced
      ensures Consumed(old(buf), frames, buf, synced)
    {
      hide Parse;
      var left, ok;
      frames, left, ok := ConsumeFrames(buf);
      if ok {
        buf := left;
      } else {
        buf, synced := [], false;
      }
    }
  }

  lemma BoundaryInside(inflates: seq<byte> -> bool, buf: seq<byte>, at: nat)
    requires Boundary(inflates, buf, at)
    ensures at + HEADER <= |buf|
  {
  }

  /** The buffer starts at the first trusted boundary, or holds the tail while there is none. */
  ghost predicate Synced(inflates: seq<byte> -> bool, all: seq<byte>, buf': seq<byte>, synced': bool) {
    if synced' then
      exists at: nat :: at <= |all| && Boundary(inflates, all, at) && buf' == all[at..]
                        && forall e :: 0 <= e < at ==> !Boundary(inflates, all, e)
    else
      && (forall e: nat :: !Boundary(inflates, all, e))
      && buf' == all[Max(0, |all| - KEEP)..]
  }

  /** The frame reader ran over `all`; on a bad header the flow drops everything and resynchronises. */
  ghost predicate Consumed(all: seq<byte>, frames: seq<Frame>, buf': seq<byte>, synced': bool) {
    var p := Parse(all);
    frames == p.frames && synced' == !p.desync && buf' == if p.desync then [] else p.rest
  }

  /** One delivery, as a relation between the flow before and after. */
  ghost predicate Stepped(inflates: seq<byte> -> bool, buf: seq<byte>, synced: bool, d: R.Delivery,
                          frames: seq<Frame>, buf': seq<byte>, synced': bool)
  {
    match d
    case Reset(_) => frames == [] && buf' == [] && !synced'
    case Bytes(data, _) =>
      if synced then Consumed(buf + data, frames, buf', synced')
      else
        (frames == [] && !synced' && Synced(inflates, buf + data, buf', false))
        || exists from :: Synced(inflates, buf + data, from, true) && Consumed(from, frames, buf', synced')
  }

  // ---------- tap and dial ----------

  function Datas(out: seq<R.Delivery>): seq<seq<byte>>
    decreases |out|
  {
    if out == [] then []
    else (if out[0].Bytes? then [out[0].data] else []) + Datas(out[1..])
  }

  lemma {:induction false} TailIsConcat(out: seq<R.Delivery>)
    requires !L.Resets(out)
    ensures L.Tail(out) == Concat(Datas(out))
    decreases |out|
  {
    hide L.Tail, L.Resets;
    if out == [] {
      L.NothingOut();
    } else {
      assert out == [out[0]] + out[1..];
      Runs.ResetsJoins([out[0]], out[1..]);
      L.TailJoins([out[0]], out[1..]);
      OneDelivery(out[0]);
      TailIsConcat(out[1..]);
    }
  }

  lemma OneDelivery(d: R.Delivery)
    ensures L.Resets([d]) <==> d.Reset?
    ensures d.Bytes? ==> L.Tail([d]) == d.data
  {
    assert d in [d];
    if d.Bytes? {
      assert [d][..0] == [];
    }
  }

  /** A synced flow from delivery to delivery. */
  ghost predicate Trace(inflates: seq<byte> -> bool, out: seq<R.Delivery>, bufs: seq<seq<byte>>,
                        frames: seq<seq<Frame>>)
  {
    && |bufs| == |out| + 1 && |frames| == |out|
    && forall i :: 0 <= i < |out| ==>
         out[i].Bytes? && Stepped(inflates, bufs[i], true, out[i], frames[i], bufs[i + 1], true)
  }

  function Flat(frames: seq<seq<Frame>>): seq<Frame>
    decreases |frames|
  {
    if frames == [] then [] else frames[0] + Flat(frames[1..])
  }

  /** While it stays synced, a flow hands on exactly what the reader fed its data would. */
  lemma {:induction false} FlowIsReader(inflates: seq<byte> -> bool, out: seq<R.Delivery>, bufs: seq<seq<byte>>,
                                        frames: seq<seq<Frame>>, before: seq<Frame>)
    requires Trace(inflates, out, bufs, frames)
    ensures FeedAll(Parsed(before, bufs[0], false), Datas(out))
            == Parsed(before + Flat(frames), bufs[|out|], false)
    decreases |out|
  {
    hide Parse;
    if out == [] {
      assert before + Flat(frames) == before;
    } else {
      var p := Parsed(before, bufs[0], false);
      assert Stepped(inflates, bufs[0], true, out[0], frames[0], bufs[1], true);
      assert Feed(p, out[0].data) == Parsed(before + frames[0], bufs[1], false);
      TraceTail(inflates, out, bufs, frames);
      FlowIsReader(inflates, out[1..], bufs[1..], frames[1..], before + frames[0]);
      assert before + Flat(frames) == (before + frames[0]) + Flat(frames[1..]);
      assert Datas(out)[1..] == Datas(out[1..]);
    }
  }

  lemma TraceTail(inflates: seq<byte> -> bool, out: seq<R.Delivery>, bufs: seq<seq<byte>>, frames: seq<seq<Frame>>)
    requires Trace(inflates, out, bufs, frames) && out != []
    ensures Trace(inflates, out[1..], bufs[1..], frames[1..])
  {
    hide Stepped;
  }

  /** A flow from its constructor on: its buffer and its sync flag around each delivery. */
  ghost predicate FlowRun(inflates: seq<byte> -> bool, out: seq<R.Delivery>, bufs: seq<seq<byte>>,
                          syncs: seq<bool>, frames: seq<seq<Frame>>)
  {
    && |bufs| == |syncs| == |out| + 1 && |frames| == |out|
    && bufs[0] == [] && !syncs[0]
    && forall i :: 0 <= i < |out| ==>
         Stepped(inflates, bufs[i], syncs[i], out[i], frames[i], bufs[i + 1], syncs[i + 1])
  }

  predicate EndOf(whole: seq<byte>, part: seq<byte>) {
    |part| <= |whole| && part == whole[|whole| - |part|..]
  }

  lemma EndOfGrows(whole: seq<byte>, part: seq<byte>, more: seq<byte>)
    requires EndOf(whole, part)
    ensures EndOf(whole + more, part + more)
  {
  }

  lemma EndOfEnd(whole: seq<byte>, part: seq<byte>, n: nat)
    requires EndOf(whole, part) && n <= |part|
    ensures EndOf(whole, part[n..])
  {
  }

  lemma TailGrows(out: seq<R.Delivery>, i: nat)
    requires i < |out|
    ensures L.Tail(out[..i + 1]) == match out[i] case Reset(_) => [] case Bytes(data, _) => L.Tail(out[..i]) + data
  {
    assert out[..i + 1][..i] == out[..i];
  }

  /** Where one delivery of an unsynced flow leaves it. */
  lemma UnsyncedStep(inflates: seq<byte> -> bool, whole: seq<byte>, buf: seq<byte>, synced: bool, data: seq<byte>,
                     wall: Time, frames: seq<Frame>, buf': seq<byte>, synced': bool)
    requires Stepped(inflates, buf, synced, R.Bytes(data, wall), frames, buf', synced')
    requires !synced ==> EndOf(whole, buf)
    ensures !synced' ==> EndOf(whole + data, buf')
  {
    hide Boundary, Parse;
    if !synced {
      var all := buf + data;
      EndOfGrows(whole, buf, data);
      EndOfEnd(whole + data, all, Max(0, |all| - KEEP));
    }
  }

  /** While it is not synced, a flow holds the end of what came since the last `Reset`. */
  lemma {:induction false} UnsyncedHoldsTheEnd(inflates: seq<byte> -> bool, out: seq<R.Delivery>,
                                               bufs: seq<seq<byte>>, syncs: seq<bool>, frames: seq<seq<Frame>>,
                                               i: nat)
    requires FlowRun(inflates, out, bufs, syncs, frames) && i <= |out| && !syncs[i]
    ensures EndOf(L.Tail(out[..i]), bufs[i])
    decreases i
  {
    hide L.Tail;
    if i > 0 {
      TailGrows(out, i - 1);
      assert Stepped(inflates, bufs[i - 1], syncs[i - 1], out[i - 1], frames[i - 1], bufs[i], syncs[i]);
      if out[i - 1].Bytes? {
        if !syncs[i - 1] {
          UnsyncedHoldsTheEnd(inflates, out, bufs, syncs, frames, i - 1);
        }
        UnsyncedStep(inflates, L.Tail(out[..i - 1]), bufs[i - 1], syncs[i - 1], out[i - 1].data, out[i - 1].wall,
                     frames[i - 1], bufs[i], syncs[i]);
      }
    }
  }

  lemma SliceFromHere(buf: seq<byte>, at: nat, lo: nat, hi: nat)
    requires lo <= hi && at + hi <= |buf|
    ensures buf[at..][lo..hi] == buf[at + lo..at + hi]
  {
  }

  /** A trusted run depends only on the bytes from its start on. */
  lemma {:induction false} RunFromHere(inflates: seq<byte> -> bool, buf: seq<byte>, at: nat, k: nat, n: nat,
                                       decoded: bool)
    requires at + k <= |buf| && TrustedRun(inflates, buf, at + k, n, decoded)
    ensures TrustedRun(inflates, buf[at..], k, n, decoded)
    decreases n
  {
    if n > 0 {
      var here, len := at + k, BodyLen(buf, at + k);
      assert BodyLen(buf[at..], k) == len;
      SliceFromHere(buf, at, k + HEADER, k + HEADER + len);
      RunFromHere(inflates, buf, at, k + HEADER + len, n - 1, decoded || buf[here + 4] == 1);
    }
  }

  lemma BoundaryFromHere(inflates: seq<byte> -> bool, buf: seq<byte>, at: nat)
    requires at <= |buf| && Boundary(inflates, buf, at)
    ensures Boundary(inflates, buf[at..], 0)
  {
    hide TrustedRun;
    RunFromHere(inflates, buf, at, 0, RESYNC_FRAMES, false);
  }

  /** The delivery that syncs a flow: it reads from a trusted boundary to the end of what came. */
  lemma Syncs(inflates: seq<byte> -> bool, whole: seq<byte>, buf: seq<byte>, d: R.Delivery, frames: seq<Frame>,
              buf': seq<byte>) returns (from: seq<byte>)
    requires Stepped(inflates, buf, false, d, frames, buf', true) && EndOf(whole, buf)
    ensures d.Bytes? && from != [] && EndOf(whole + d.data, from) && Boundary(inflates, from, 0)
    ensures Parse(from) == Parsed(frames, buf', false)
  {
    hide Parse, Boundary;
    from :| Synced(inflates, buf + d.data, from, true) && Consumed(from, frames, buf', true);
    var all := buf + d.data;
    var at: nat :| at <= |all| && Boundary(inflates, all, at) && from == all[at..];
    BoundaryInside(inflates, all, at);
    EndOfGrows(whole, buf, d.data);
    EndOfEnd(whole + d.data, all, at);
    BoundaryFromHere(inflates, all, at);
  }

  /** A stretch of deliveries through which a flow stays synced sees no `Reset`. */
  lemma SyncedStretch(inflates: seq<byte> -> bool, out: seq<R.Delivery>, bufs: seq<seq<byte>>, syncs: seq<bool>,
                      frames: seq<seq<Frame>>, k: nat, n: nat)
    requires FlowRun(inflates, out, bufs, syncs, frames) && k <= n <= |out|
    requires forall i :: k <= i <= n ==> syncs[i]
    ensures Trace(inflates, out[k..n], bufs[k..n + 1], frames[k..n]) && !L.Resets(out[k..n])
  {
    hide Consumed, Synced;
    var part, some, given := out[k..n], bufs[k..n + 1], frames[k..n];
    forall i | 0 <= i < |part|
      ensures part[i].Bytes? && Stepped(inflates, some[i], true, part[i], given[i], some[i + 1], true)
    {
      assert Stepped(inflates, bufs[k + i], syncs[k + i], out[k + i], frames[k + i], bufs[k + i + 1],
                     syncs[k + i + 1]);
    }
  }

  /** What a flow first reads once synced: from a trusted boundary to the end of what came. */
  lemma FirstRead(inflates: seq<byte> -> bool, out: seq<R.Delivery>, bufs: seq<seq<byte>>, syncs: seq<bool>,
                  frames: seq<seq<Frame>>, k: nat) returns (from: seq<byte>)
    requires FlowRun(inflates, out, bufs, syncs, frames) && k < |out| && !syncs[k] && syncs[k + 1]
    ensures from != [] && Boundary(inflates, from, 0) && EndOf(L.Tail(out[..k + 1]), from)
    ensures Parse(from) == Parsed(frames[k], bufs[k + 1], false)
  {
    hide Stepped, L.Tail, Boundary, Parse, EndOf;
    UnsyncedHoldsTheEnd(inflates, out, bufs, syncs, frames, k);
    assert Stepped(inflates, bufs[k], syncs[k], out[k], frames[k], bufs[k + 1], syncs[k + 1]);
    from := Syncs(inflates, L.Tail(out[..k]), bufs[k], out[k], frames[k], bufs[k + 1]);
    TailGrows(out, k);
  }

  lemma FlatFrom(frames: seq<seq<Frame>>, k: nat, n: nat)
    requires k < n <= |frames|
    ensures Flat(frames[k..n]) == frames[k] + Flat(frames[k + 1..n])
  {
    assert frames[k..n][1..] == frames[k + 1..n];
  }

  /** What it reads after that: everything that comes, as long as it stays synced. */
  lemma ReadsOn(inflates: seq<byte> -> bool, out: seq<R.Delivery>, bufs: seq<seq<byte>>, syncs: seq<bool>,
                frames: seq<seq<Frame>>, k: nat, n: nat, from: seq<byte>) returns (more: seq<byte>)
    requires FlowRun(inflates, out, bufs, syncs, frames) && k < n <= |out|
    requires forall i :: k < i <= n ==> syncs[i]
    requires EndOf(L.Tail(out[..k + 1]), from) && Parse(from) == Parsed(frames[k], bufs[k + 1], false)
    ensures EndOf(L.Tail(out[..n]), from + more)
    ensures Parse(from + more) == Parsed(Flat(frames[k..n]), bufs[n], false)
  {
    hide Stepped, L.Tail, L.Resets, Parse, EndOf, FeedAll, Flat, Concat, Datas;
    var rest := out[k + 1..n];
    SyncedStretch(inflates, out, bufs, syncs, frames, k + 1, n);
    FlowIsReader(inflates, rest, bufs[k + 1..n + 1], frames[k + 1..n], frames[k]);
    ChunkingIsInvisible(from, Datas(rest));
    more := Concat(Datas(rest));
    FlatFrom(frames, k, n);
    TailIsConcat(rest);
    L.TailJoins(out[..k + 1], rest);
    assert out[..n] == out[..k + 1] + rest;
    EndOfGrows(L.Tail(out[..k + 1]), from, more);
  }

  /** More bytes behind it leave a trusted run as it is. */
  lemma {:induction false} RunStays(inflates: seq<byte> -> bool, buf: seq<byte>, more: seq<byte>, at: nat, n: nat,
                                    decoded: bool)
    requires TrustedRun(inflates, buf, at, n, decoded)
    ensures TrustedRun(inflates, buf + more, at, n, decoded)
    decreases n
  {
    if n > 0 {
      var len := BodyLen(buf, at);
      assert BodyLen(buf + more, at) == len;
      assert (buf + more)[at + HEADER..at + HEADER + len] == buf[at + HEADER..at + HEADER + len];
      RunStays(inflates, buf, more, at + HEADER + len, n - 1, decoded || buf[at + 4] == 1);
    }
  }

  lemma BoundaryStays(inflates: seq<byte> -> bool, from: seq<byte>, more: seq<byte>)
    requires Boundary(inflates, from, 0)
    ensures Boundary(inflates, from + more, 0)
  {
    RunStays(inflates, from, more, 0, RESYNC_FRAMES, false);
  }

  /** The dialed side: what a flow read is the stream between two bytes, and any chunking of it reads
      the same. */
  lemma DialReads(s: L.Stream, isn: u32, inputs: seq<Runs.Input>, n: nat, read: seq<byte>)
    returns (b: nat, e: nat)
    requires Runs.FairRun(s, isn, inputs) && n <= |Runs.After(isn, inputs).out|
    requires EndOf(L.Tail(Runs.After(isn, inputs).out[..n]), read) && read != []
    ensures b < e && L.Cut(s, b, e - b) == read
    ensures n == |Runs.After(isn, inputs).out| ==> Runs.After(isn, inputs).pos == Some(e)
    ensures forall chunks :: Concat(chunks) == read ==>
              var dial := FeedAll(Parsed([], [], false), chunks);
              && dial.frames == Parse(read).frames && dial.desync == Parse(read).desync
              && (!dial.desync ==> dial.rest == Parse(read).rest)
  {
    hide Runs.FairRun, Runs.After, Parse, L.Cut, L.Tail, L.Resets;
    var at := Runs.NoPrefixSplices(s, isn, inputs, n);
    var tail := L.Tail(Runs.After(isn, inputs).out[..n]);
    e := at.value;
    b := e - |read|;
    L.CutDrops(s, e - |tail|, |tail| - |read|, |tail|);
    NothingParsed();
    forall chunks | Concat(chunks) == read
      ensures var dial := FeedAll(Parsed([], [], false), chunks);
              && dial.frames == Parse(read).frames && dial.desync == Parse(read).desync
              && (!dial.desync ==> dial.rest == Parse(read).rest)
    {
      ChunkingIsInvisible([], chunks);
      assert [] + Concat(chunks) == Concat(chunks);
    }
  }

  /** Tap equals dial. From the delivery that syncs a flow to any later one through which it stays
      synced, the flow has handed on exactly the frames, and holds exactly the bytes, of a dialed
      reader fed the sender's stream from a trusted boundary `b` to some byte `e`: however the
      captured segments were reordered, repeated or overlapped and however the dialed bytes were
      chunked. At the end of the run `e` is the byte the reassembler expects next. */
  lemma TapEqualsDial(s: L.Stream, isn: u32, inputs: seq<Runs.Input>, inflates: seq<byte> -> bool,
                      bufs: seq<seq<byte>>, syncs: seq<bool>, frames: seq<seq<Frame>>, k: nat, n: nat)
    returns (b: nat, e: nat)
    requires Runs.FairRun(s, isn, inputs)
    requires FlowRun(inflates, Runs.After(isn, inputs).out, bufs, syncs, frames)
    requires k < n <= |Runs.After(isn, inputs).out| && !syncs[k] && forall i :: k < i <= n ==> syncs[i]
    ensures b < e && Boundary(inflates, L.Cut(s, b, e - b), 0)
    ensures n == |Runs.After(isn, inputs).out| ==> Runs.After(isn, inputs).pos == Some(e)
    ensures forall chunks :: Concat(chunks) == L.Cut(s, b, e - b) ==>
              FeedAll(Parsed([], [], false), chunks) == Parsed(Flat(frames[k..n]), bufs[n], false)
  {
    hide Runs.FairRun, Runs.After, Stepped, Parse, L.Cut, L.Tail, L.Resets, Boundary, FeedAll, Concat, Flat, EndOf;
    var out := Runs.After(isn, inputs).out;
    var from := FirstRead(inflates, out, bufs, syncs, frames, k);
    var more := ReadsOn(inflates, out, bufs, syncs, frames, k, n, from);
    BoundaryStays(inflates, from, more);
    b, e := DialReads(s, isn, inputs, n, from + more);
  }

  lemma FlatAppends(frames: seq<seq<Frame>>, k: nat, n: nat)
    requires k <= n < |frames|
    ensures Flat(frames[k..n + 1]) == Flat(frames[k..n]) + frames[n]
    decreases n - k
  {
    if k == n {
      assert frames[k..n + 1] == [frames[n]];
      assert frames[k..n] == [];
    } else {
      FlatFrom(frames, k, n + 1);
      FlatFrom(frames, k, n);
      FlatAppends(frames, k + 1, n);
    }
  }

  /** The delivery that breaks a synced flow: the reader hands on what comes before the bad header. */
  lemma Breaks(inflates: seq<byte> -> bool, read: seq<byte>, given: seq<Frame>, buf: seq<byte>, d: R.Delivery,
               frames: seq<Frame>, buf': seq<byte>)
    requires Parse(read) == Parsed(given, buf, false) && d.Bytes?
    requires Stepped(inflates, buf, true, d, frames, buf', false)
    ensures Parse(read + d.data).frames == given + frames && Parse(read + d.data).desync && buf' == []
  {
    hide Parse;
    ParseResumes(read, d.data);
  }

  /** And the tap gives up where the dialed reader does: when a delivery makes a synced flow drop its
      sync, the dialed reader fed the same stretch of the stream has handed on the same frames and has
      met the same bad header. */
  lemma TapBreaksWithDial(s: L.Stream, isn: u32, inputs: seq<Runs.Input>, inflates: seq<byte> -> bool,
                          bufs: seq<seq<byte>>, syncs: seq<bool>, frames: seq<seq<Frame>>, k: nat, n: nat)
    returns (b: nat, e: nat)
    requires Runs.FairRun(s, isn, inputs)
    requires FlowRun(inflates, Runs.After(isn, inputs).out, bufs, syncs, frames)
    requires k < n < |Runs.After(isn, inputs).out| && !syncs[k] && forall i :: k < i <= n ==> syncs[i]
    requires Runs.After(isn, inputs).out[n].Bytes? && !syncs[n + 1]
    ensures b < e && Boundary(inflates, L.Cut(s, b, e - b), 0) && bufs[n + 1] == []
    ensures forall chunks :: Concat(chunks) == L.Cut(s, b, e - b) ==>
              var dial := FeedAll(Parsed([], [], false), chunks);
              dial.frames == Flat(frames[k..n + 1]) && dial.desync
  {
    hide Runs.FairRun, Runs.After, Stepped, Parse, L.Cut, L.Tail, L.Resets, Boundary, FeedAll, Concat, Flat, EndOf;
    var out := Runs.After(isn, inputs).out;
    var from := FirstRead(inflates, out, bufs, syncs, frames, k);
    var more := ReadsOn(inflates, out, bufs, syncs, frames, k, n, from);
    var data := out[n].data;
    assert Stepped(inflates, bufs[n], syncs[n], out[n], frames[n], bufs[n + 1], syncs[n + 1]);
    Breaks(inflates, from + more, Flat(frames[k..n]), bufs[n], out[n], frames[n], bufs[n + 1]);
    FlatAppends(frames, k, n);
    TailGrows(out, n);
    EndOfGrows(L.Tail(out[..n]), from + more, data);
    BoundaryStays(inflates, from, more);
    BoundaryStays(inflates, from + more, data);
    b, e := DialReads(s, isn, inputs, n + 1, from + more + data);
  }

  // ---------- a flow does synchronise ----------

  /** The last KEEP bytes, or all there are. */
  function Kept(d: seq<byte>): seq<byte> {
    d[Max(0, |d| - KEEP)..]
  }

  ghost predicate NoBoundary(inflates: seq<byte> -> bool, buf: seq<byte>) {
    forall e: nat :: !Boundary(inflates, buf, e)
  }

  /** Bytes to a flow that does not trust its buffer: it hands on nothing and keeps the end, and that
      only when there is no boundary in what it holds. */
  lemma UntrustedDelivery(inflates: seq<byte> -> bool, buf: seq<byte>, d: R.Delivery, frames: seq<Frame>,
                          buf': seq<byte>, synced': bool)
    requires d.Bytes? && Stepped(inflates, buf, false, d, frames, buf', synced') && frames == []
    ensures !synced' && buf' == Kept(buf + d.data)
    ensures NoBoundary(inflates, buf + d.data)
  {
    hide Boundary, Parse;
    if !(!synced' && Synced(inflates, buf + d.data, buf', false)) {
      var from :| Synced(inflates, buf + d.data, from, true) && Consumed(from, frames, buf', synced');
      var all := buf + d.data;
      var at: nat :| at <= |all| && Boundary(inflates, all, at) && from == all[at..];
      BoundaryParses(inflates, all, at);
      assert false;
    }
  }

  lemma KeptGrows(d: seq<byte>, more: seq<byte>)
    ensures Kept(Kept(d) + more) == Kept(d + more)
  {
  }

  lemma DatasGrow(out: seq<R.Delivery>, j: nat, n: nat)
    requires j <= n < |out| && out[n].Bytes?
    ensures Concat(Datas(out[j..n + 1])) == Concat(Datas(out[j..n])) + out[n].data
    decreases n - j
  {
    var a, b := out[j..n], out[j..n + 1];
    if j == n {
      assert a == [] && b == [out[n]];
      assert b[1..] == [];
      assert Datas(b) == [out[n].data];
    } else {
      DatasGrow(out, j + 1, n);
      assert a[1..] == out[j + 1..n] && b[1..] == out[j + 1..n + 1];
      HeadData(a);
      HeadData(b);
    }
  }

  lemma HeadData(out: seq<R.Delivery>)
    requires out != []
    ensures Concat(Datas(out)) == (if out[0].Bytes? then out[0].data else []) + Concat(Datas(out[1..]))
  {
    if out[0].Bytes? {
      assert Datas(out)[1..] == Datas(out[1..]);
    } else {
      assert Datas(out) == Datas(out[1..]);
    }
  }

  /** From an empty buffer, while no frame is handed on and no `Reset` comes. */
  ghost predicate Quiet(inflates: seq<byte> -> bool, out: seq<R.Delivery>, bufs: seq<seq<byte>>, syncs: seq<bool>,
                        frames: seq<seq<Frame>>, j: nat, n: nat)
  {
    && FlowRun(inflates, out, bufs, syncs, frames) && j <= n <= |out|
    && bufs[j] == [] && !syncs[j]
    && forall i :: j <= i < n ==> out[i].Bytes? && frames[i] == []
  }

  lemma {:induction false} QuietKeepsTheEnd(inflates: seq<byte> -> bool, out: seq<R.Delivery>, bufs: seq<seq<byte>>,
                                            syncs: seq<bool>, frames: seq<seq<Frame>>, j: nat, n: nat)
    requires Quiet(inflates, out, bufs, syncs, frames, j, n)
    ensures !syncs[n] && bufs[n] == Kept(Concat(Datas(out[j..n])))
    ensures n > j ==> NoBoundary(inflates, bufs[n - 1] + out[n - 1].data)
    decreases n
  {
    hide Stepped, Kept, Boundary, NoBoundary;
    if n == j {
      assert out[j..j] == [];
      assert Kept([]) == [] by { KeptNothing(); }
    } else {
      QuietKeepsTheEnd(inflates, out, bufs, syncs, frames, j, n - 1);
      assert Stepped(inflates, bufs[n - 1], syncs[n - 1], out[n - 1], frames[n - 1], bufs[n], syncs[n]);
      UntrustedDelivery(inflates, bufs[n - 1], out[n - 1], frames[n - 1], bufs[n], syncs[n]);
      DatasGrow(out, j, n - 1);
      KeptGrows(Concat(Datas(out[j..n - 1])), out[n - 1].data);
    }
  }

  lemma KeptNothing()
    ensures Kept([]) == []
  {
  }

  /** What is kept of `came` still has `mark` onwards, when no more than KEEP bytes came from there. */
  lemma CutsIn(came: seq<byte>, data: seq<byte>, before: seq<byte>, more: seq<byte>)
    requires came + data == before + more && |came| <= |before| + KEEP
    ensures exists lead :: Kept(came) + data == lead + more
  {
    var drop := Max(0, |came| - KEEP);
    var lead := before[drop..];
    assert came[drop..] + data == (came + data)[drop..];
    assert (before + more)[drop..] == lead + more;
    assert Kept(came) + data == lead + more;
  }

  lemma FourAreNotEmpty(inflates: seq<byte> -> bool, four: seq<Frame>)
    requires FourCredible(inflates, four)
    ensures |four| == RESYNC_FRAMES && AllCredible(inflates, four) && HasData(four)
    ensures |EncodeAll(four)| > 0
  {
  }

  /** The frames are still whole in what is kept when the last of their bytes comes. */
  lemma FoundWhenWhole(inflates: seq<byte> -> bool, came: seq<byte>, data: seq<byte>, before: seq<byte>,
                       four: seq<Frame>, rest: seq<byte>)
    requires FourCredible(inflates, four) && |EncodeAll(four)| <= KEEP
    requires came + data == before + EncodeAll(four) + rest && |came| < |before| + |EncodeAll(four)|
    ensures !NoBoundary(inflates, Kept(came) + data)
  {
    hide FourCredible, AllCredible, HasData, EncodeAll, Kept, Boundary;
    var e := EncodeAll(four);
    assert before + e + rest == before + (e + rest);
    CutsIn(came, data, before, e + rest);
    var lead :| Kept(came) + data == lead + (e + rest);
    assert lead + (e + rest) == lead + e + rest;
    FourAreNotEmpty(inflates, four);
    FourFramesAreABoundary(inflates, lead, four, rest);
    assert Boundary(inflates, Kept(came) + data, |lead|);
  }

  /** So no flow stays quiet through them. */
  lemma {:induction false} NotQuiet(inflates: seq<byte> -> bool, out: seq<R.Delivery>, bufs: seq<seq<byte>>,
                                    syncs: seq<bool>, frames: seq<seq<Frame>>, j: nat, n: nat,
                                    before: seq<byte>, four: seq<Frame>, rest: seq<byte>)
    requires FourCredible(inflates, four) && |EncodeAll(four)| <= KEEP
    requires j <= n <= |out| && Concat(Datas(out[j..n])) == before + EncodeAll(four) + rest
    ensures !Quiet(inflates, out, bufs, syncs, frames, j, n)
    decreases n
  {
    hide FlowRun, NoBoundary, FourCredible, EncodeAll, Kept;
    FourAreNotEmpty(inflates, four);
    NothingCame(out, j, n);
    if Quiet(inflates, out, bufs, syncs, frames, j, n) {
      var came, data, whole := Concat(Datas(out[j..n - 1])), out[n - 1].data, |before| + |EncodeAll(four)|;
      DatasGrow(out, j, n - 1);
      assert Quiet(inflates, out, bufs, syncs, frames, j, n - 1);
      if |came| >= whole {
        assert came == (came + data)[..|came|];
        assert came == before + EncodeAll(four) + came[whole..];
        NotQuiet(inflates, out, bufs, syncs, frames, j, n - 1, before, four, came[whole..]);
      } else {
        FoundWhenWhole(inflates, came, data, before, four, rest);
        QuietKeepsTheEnd(inflates, out, bufs, syncs, frames, j, n - 1);
        QuietKeepsTheEnd(inflates, out, bufs, syncs, frames, j, n);
      }
    }
  }

  lemma NothingCame(out: seq<R.Delivery>, j: nat, n: nat)
    requires j <= n <= |out|
    ensures Concat(Datas(out[j..n])) != [] ==> j < n
  {
    if j == n {
      assert out[j..n] == [];
    }
  }

  /** A flow synchronises: from an empty buffer, once the bytes that came hold four credible frames in a
      row, a data frame among them, that together fit in what the flow keeps, it has handed on a frame,
      in however many deliveries they came. */
  lemma FlowSynchronises(inflates: seq<byte> -> bool, out: seq<R.Delivery>, bufs: seq<seq<byte>>, syncs: seq<bool>,
                         frames: seq<seq<Frame>>, j: nat, n: nat, before: seq<byte>, four: seq<Frame>,
                         rest: seq<byte>)
    requires FlowRun(inflates, out, bufs, syncs, frames) && j <= n <= |out|
    requires bufs[j] == [] && !syncs[j] && forall i :: j <= i < n ==> out[i].Bytes?
    requires FourCredible(inflates, four) && |EncodeAll(four)| <= KEEP
    requires Concat(Datas(out[j..n])) == before + EncodeAll(four) + rest
    ensures exists i :: j <= i < n && frames[i] != []
  {
    hide Stepped, FourCredible, EncodeAll, Datas, Concat;
    NotQuiet(inflates, out, bufs, syncs, frames, j, n, before, four, rest);
  }

  /** A flow that loses its trust, by a `Reset` or at an impossible header, is left with an empty buffer,
      so that what was said of one may begin again. */
  lemma TrustLostIsEmpty(inflates: seq<byte> -> bool, out: seq<R.Delivery>, bufs: seq<seq<byte>>, syncs: seq<bool>,
                         frames: seq<seq<Frame>>, j: nat)
    requires FlowRun(inflates, out, bufs, syncs, frames) && j < |out|
    requires out[j].Reset? || (syncs[j] && !syncs[j + 1])
    ensures bufs[j + 1] == [] && !syncs[j + 1]
    ensures out[j].Reset? ==> frames[j] == []
  {
    hide Parse, Synced;
    assert Stepped(inflates, bufs[j], syncs[j], out[j], frames[j], bufs[j + 1], syncs[j + 1]);
  }
}
