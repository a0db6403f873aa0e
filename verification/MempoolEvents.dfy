/** Which events the mempool join returns and whose legs they carry, told from the inputs of a run. */
module MempoolEvents {
  import opened Common
  import opened Model
  import opened VpcMempool
  import Cohorts

  /** What one act returns: the results of `Offer` and `Expire`. */
  ghost function Returned(coin: Coin, l: Log, act: Act): seq<Cohorts.MarketEvent>
    requires Enabled(l, act)
  {
    match act
    case OfferAt(input, now) =>
      var o := Offered(l.j, input, now);
      if o.Some? then EventsOf(coin, HashOf(input), o.value) else []
    case ExpireAt(now, order) => EventsOfAll(coin, l.j, order)
  }

  // ---------- what a run has said of a hash ----------

  /** The join holds nothing of the hash: it never came, or was emitted and its retention is over. */
  predicate Forgotten(j: Join, h: Hash) {
    h !in j.open && h !in j.done
  }

  predicate LineOf(act: Act, h: Hash) {
    act.OfferAt? && act.input.BundleLine? && HashOf(act.input) == h
  }

  predicate MessageOf(act: Act, h: Hash) {
    act.OfferAt? && act.input.GrpcMessage? && HashOf(act.input) == h
  }

  /** The first bundle line of `h` since it was last forgotten. */
  ghost function FirstLine(acts: seq<Act>, logs: seq<Log>, n: nat, h: Hash): (r: Option<Act>)
    requires n <= |acts| && |logs| == |acts| + 1
    ensures r.Some? ==> LineOf(r.value, h)
  {
    if n == 0 || Forgotten(logs[n].j, h) then None
    else
      var b := FirstLine(acts, logs, n - 1, h);
      if b.Some? then b else if LineOf(acts[n - 1], h) then Some(acts[n - 1]) else None
  }

  /** The first gRPC message of `h` since it was last forgotten. */
  ghost function FirstMessage(acts: seq<Act>, logs: seq<Log>, n: nat, h: Hash): (r: Option<Act>)
    requires n <= |acts| && |logs| == |acts| + 1
    ensures r.Some? ==> MessageOf(r.value, h)
  {
    if n == 0 || Forgotten(logs[n].j, h) then None
    else
      var b := FirstMessage(acts, logs, n - 1, h);
      if b.Some? then b else if MessageOf(acts[n - 1], h) then Some(acts[n - 1]) else None
  }

  /** When the join first heard of `h` since it was last forgotten. */
  ghost function FirstHeard(acts: seq<Act>, logs: seq<Log>, n: nat, h: Hash): Option<Time>
    requires n <= |acts| && |logs| == |acts| + 1
  {
    if n == 0 || Forgotten(logs[n].j, h) then None
    else
      var b := FirstHeard(acts, logs, n - 1, h);
      if b.Some? then b
      else if LineOf(acts[n - 1], h) || MessageOf(acts[n - 1], h) then Some(acts[n - 1].now) else None
  }

  function LegIn(act: Option<Act>): Option<Leg>
    requires act.Some? ==> act.value.OfferAt?
  {
    if act.Some? then Some(act.value.input.leg) else None
  }

  /** What is open for `h` is what the run has said of it. */
  ghost predicate Mirrors(acts: seq<Act>, logs: seq<Log>, n: nat, h: Hash)
    requires n <= |acts| && |logs| == |acts| + 1
  {
    h !in logs[n].j.done ==>
      var e := EntryAt(logs[n].j, h);
      var line := FirstLine(acts, logs, n, h);
      && e.vpc == LegIn(line) && e.grpc == LegIn(FirstMessage(acts, logs, n, h))
      && e.firstRecv == (if line.Some? then Some(line.value.input.firstRecv) else None)
      && e.firstSeen == FirstHeard(acts, logs, n, h)
  }

  lemma OfferMirrors(acts: seq<Act>, logs: seq<Log>, n: nat, h: Hash)
    requires Run(acts, logs) && n < |acts| && acts[n].OfferAt? && Inv(logs[n])
    requires Mirrors(acts, logs, n, h)
    ensures Mirrors(acts, logs, n + 1, h)
  {
    hide Lower, Inv;
    var l, s := logs[n], logs[n + 1];
    assert Enabled(l, acts[n]) && s == Step(l, acts[n]);
    if HashOf(acts[n].input) != h {
      assert EntryAt(s.j, h) == EntryAt(l.j, h) && (h in s.j.done <==> h in l.j.done);
    }
  }

  lemma ExpireMirrors(acts: seq<Act>, logs: seq<Log>, n: nat, h: Hash)
    requires Run(acts, logs) && n < |acts| && acts[n].ExpireAt? && Inv(logs[n])
    requires Mirrors(acts, logs, n, h)
    ensures Mirrors(acts, logs, n + 1, h)
  {
    hide Lower, Expired;
    var l, s := logs[n], logs[n + 1];
    assert Enabled(l, acts[n]) && s == Step(l, acts[n]);
  }

  lemma {:induction false} RunMirrors(acts: seq<Act>, logs: seq<Log>, n: nat, h: Hash)
    requires Run(acts, logs) && n < |logs|
    ensures |logs| == |acts| + 1 && Mirrors(acts, logs, n, h)
    decreases n
  {
    hide Inv, Mirrors, Step, Enabled;
    if n == 0 {
      NothingSaid(acts, logs, h);
    } else {
      RunMirrors(acts, logs, n - 1, h);
      JoinKeeps(acts, logs, n - 1);
      if acts[n - 1].OfferAt? {
        OfferMirrors(acts, logs, n - 1, h);
      } else {
        ExpireMirrors(acts, logs, n - 1, h);
      }
    }
  }

  lemma NothingSaid(acts: seq<Act>, logs: seq<Log>, h: Hash)
    requires Run(acts, logs)
    ensures Mirrors(acts, logs, 0, h)
  {
  }

  // ---------- the events ----------

  /** The box's first sight of the bundle: the least of the line's own receipt time and the wall clocks
      of the legs there are. */
  predicate IsFirstSight(ms: nat, line: Option<Act>, message: Option<Act>)
    requires (line.Some? ==> line.value.OfferAt? && line.value.input.BundleLine?)
             && (message.Some? ==> message.value.OfferAt?)
  {
    && (line.Some? ==> ms <= line.value.input.firstRecv && ms <= line.value.input.leg.wall)
    && (message.Some? ==> ms <= message.value.input.leg.wall)
    && ((line.Some? && (ms == line.value.input.firstRecv || ms == line.value.input.leg.wall))
        || (message.Some? && ms == message.value.input.leg.wall))
  }

  /** An event of `h` for the given provider, with the receipt and wall time of the leg in `act`. */
  predicate Carries(x: Cohorts.MarketEvent, coin: Coin, ms: nat, h: Hash, p: Provider, act: Act)
    requires act.OfferAt?
  {
    x == Cohorts.MarketEvent(p, EventKey(coin, ms, ContentKey.Mempool(h)), act.input.leg.received, act.input.leg.wall)
  }

  /** An offer returns nothing, unless its hash has not been emitted yet and by now both sides have
      delivered it: then one event of each, with the receipts and wall times of the first bundle line and
      of the first message since the hash was last forgotten. */
  lemma OfferReturns(coin: Coin, acts: seq<Act>, logs: seq<Log>, n: nat)
    requires Run(acts, logs) && n < |acts| && acts[n].OfferAt?
    ensures |logs| == |acts| + 1 && Enabled(logs[n], acts[n])
    ensures var h := HashOf(acts[n].input);
            var line, message := FirstLine(acts, logs, n + 1, h), FirstMessage(acts, logs, n + 1, h);
            var events := Returned(coin, logs[n], acts[n]);
            if h !in logs[n].j.done && line.Some? && message.Some? then
              && |events| == 2
              && IsFirstSight(events[0].key.eventMs, line, message)
              && Carries(events[0], coin, events[0].key.eventMs, h, QUICKNODE_GRPC, message.value)
              && Carries(events[1], coin, events[0].key.eventMs, h, QUICKNODE_VPC, line.value)
            else events == []
  {
    hide Lower, Inv, Step;
    assert Enabled(logs[n], acts[n]);
    var h := HashOf(acts[n].input);
    RunMirrors(acts, logs, n, h);
    NotForgottenNow(acts, logs, n);
  }

  lemma NotForgottenNow(acts: seq<Act>, logs: seq<Log>, n: nat)
    requires Run(acts, logs) && n < |acts| && acts[n].OfferAt?
    ensures !Forgotten(logs[n + 1].j, HashOf(acts[n].input))
  {
    hide Lower;
    assert Enabled(logs[n], acts[n]) && logs[n + 1] == Step(logs[n], acts[n]);
  }

  /** The only event of a hash whose other side never came. */
  ghost predicate Alone(x: Cohorts.MarketEvent, coin: Coin, h: Hash, line: Option<Act>, message: Option<Act>)
    requires (line.Some? ==> line.value.OfferAt? && line.value.input.BundleLine?)
             && (message.Some? ==> message.value.OfferAt?)
  {
    && (line.Some? <==> message.None?)
    && IsFirstSight(x.key.eventMs, line, message)
    && (line.Some? ==> Carries(x, coin, x.key.eventMs, h, QUICKNODE_VPC, line.value))
    && (message.Some? ==> Carries(x, coin, x.key.eventMs, h, QUICKNODE_GRPC, message.value))
  }

  lemma EntryAlone(coin: Coin, acts: seq<Act>, logs: seq<Log>, n: nat, h: Hash)
    requires Run(acts, logs) && n < |logs| && h in logs[n].j.open
    ensures |logs| == |acts| + 1
    ensures var e := logs[n].j.open[h];
            var line, message := FirstLine(acts, logs, n, h), FirstMessage(acts, logs, n, h);
            && |EventsOf(coin, h, e)| == 1 && Alone(EventsOf(coin, h, e)[0], coin, h, line, message)
            && (e.vpc.None? <==> line.None?)
            && FirstHeard(acts, logs, n, h) == e.firstSeen && e.firstSeen.Some?
  {
    hide Run;
    RunMirrors(acts, logs, n, h);
    JoinKeeps(acts, logs, n);
  }

  lemma {:induction false} EventsOneByOne(coin: Coin, j: Join, order: seq<Hash>)
    requires forall h <- order :: h in j.open && |EventsOf(coin, h, j.open[h])| == 1
    ensures |EventsOfAll(coin, j, order)| == |order|
    ensures forall k :: 0 <= k < |order| ==>
              order[k] in order && EventsOfAll(coin, j, order)[k] == EventsOf(coin, order[k], j.open[order[k]])[0]
    decreases |order|
  {
    hide EventsOf;
    if order != [] {
      EventsOneByOne(coin, j, order[..|order| - 1]);
      assert order[|order| - 1] in order;
    }
  }

  /** An expiry returns exactly one event for each hash that has not been emitted and was first heard of
      JOIN_DEADLINE ago or more, and none for others: the VPC's when a bundle line came, with its receipt
      and wall time, else the gRPC side's. */
  lemma ExpireReturns(coin: Coin, acts: seq<Act>, logs: seq<Log>, n: nat)
    requires Run(acts, logs) && n < |acts| && acts[n].ExpireAt?
    ensures |logs| == |acts| + 1 && Enabled(logs[n], acts[n])
    ensures var order, events := acts[n].order, Returned(coin, logs[n], acts[n]);
            && |events| == |order| && Distinct(order)
            && (forall h :: h in order <==> h !in logs[n].j.done && OverdueAt(acts, logs, n, h, acts[n].now))
            && (forall k :: 0 <= k < |order| ==>
                  Alone(events[k], coin, order[k], FirstLine(acts, logs, n, order[k]),
                        FirstMessage(acts, logs, n, order[k])))
  {
    hide Lower, Inv, Step, Alone, FirstLine, FirstMessage, FirstHeard, EventsOf, EventsOfAll;
    assert Enabled(logs[n], acts[n]);
    var l, order := logs[n], acts[n].order;
    forall h
      ensures h in order <==> h !in l.j.done && OverdueAt(acts, logs, n, h, acts[n].now)
    {
      OverdueIff(coin, acts, logs, n, h);
    }
    forall h <- order
      ensures h in l.j.open && |EventsOf(coin, h, l.j.open[h])| == 1
    {
      EntryAlone(coin, acts, logs, n, h);
    }
    EventsOneByOne(coin, l.j, order);
    forall k | 0 <= k < |order|
      ensures Alone(Returned(coin, l, acts[n])[k], coin, order[k], FirstLine(acts, logs, n, order[k]),
                    FirstMessage(acts, logs, n, order[k]))
    {
      assert order[k] in order;
      EntryAlone(coin, acts, logs, n, order[k]);
    }
  }

  ghost predicate OverdueAt(acts: seq<Act>, logs: seq<Log>, n: nat, h: Hash, now: Time)
    requires n <= |acts| && |logs| == |acts| + 1
  {
    var heard := FirstHeard(acts, logs, n, h);
    heard.Some? && now >= heard.value + JOIN_DEADLINE
  }

  lemma OverdueIff(coin: Coin, acts: seq<Act>, logs: seq<Log>, n: nat, h: Hash)
    requires Run(acts, logs) && n < |acts| && acts[n].ExpireAt?
    ensures h in ExpiredIn(logs[n].j, acts[n].now)
            <==> h !in logs[n].j.done && OverdueAt(acts, logs, n, h, acts[n].now)
  {
    hide FirstHeard, Step, Enabled, Lower;
    RunMirrors(acts, logs, n, h);
    JoinKeeps(acts, logs, n);
  }

  /** The gaps an expiry charges to the box's node are the hashes it emits without an event of that
      node. */
  lemma GapsHaveNoVpcEvent(coin: Coin, acts: seq<Act>, logs: seq<Log>, n: nat)
    requires Run(acts, logs) && n < |acts| && acts[n].ExpireAt?
    ensures |logs| == |acts| + 1 && Enabled(logs[n], acts[n])
    ensures var order, events := acts[n].order, Returned(coin, logs[n], acts[n]);
            && |events| == |order|
            && forall k :: 0 <= k < |order| ==>
                 (order[k] in VpcGaps(logs[n].j, acts[n].now) <==> events[k].provider != QUICKNODE_VPC)
    ensures forall h <- VpcGaps(logs[n].j, acts[n].now) :: h in acts[n].order
  {
    hide Lower, Inv, Step, FirstLine, FirstMessage, FirstHeard, EventsOf, EventsOfAll, OverdueAt;
    ExpireReturns(coin, acts, logs, n);
    var l, order := logs[n], acts[n].order;
    forall k | 0 <= k < |order|
      ensures order[k] in VpcGaps(l.j, acts[n].now) <==> Returned(coin, l, acts[n])[k].provider != QUICKNODE_VPC
    {
      assert order[k] in order;
      EntryAlone(coin, acts, logs, n, order[k]);
    }
  }

  // ---------- both sides in time ----------

  /** `i` is the first offer of `h` since it was forgotten, and until `k` no offer of the other side came
      and no expiry found the deadline over. */
  ghost predicate OneSideWaits(acts: seq<Act>, logs: seq<Log>, i: nat, k: nat, h: Hash) {
    && Run(acts, logs) && i < k <= |acts| && Forgotten(logs[i].j, h)
    && (LineOf(acts[i], h) || MessageOf(acts[i], h))
    && forall m :: i < m < k ==>
         && !(if LineOf(acts[i], h) then MessageOf(acts[m], h) else LineOf(acts[m], h))
         && (acts[m].ExpireAt? ==> acts[m].now < acts[i].now + JOIN_DEADLINE)
  }

  lemma FirstOffer(acts: seq<Act>, logs: seq<Log>, i: nat, h: Hash)
    requires Run(acts, logs) && i < |acts| && Forgotten(logs[i].j, h) && Inv(logs[i])
    requires LineOf(acts[i], h) || MessageOf(acts[i], h)
    ensures h in logs[i + 1].j.open && logs[i + 1].j.open[h] == WithLeg(NO_ENTRY, acts[i].input, acts[i].now)
    ensures FirstLine(acts, logs, i + 1, h) == if LineOf(acts[i], h) then Some(acts[i]) else None
    ensures FirstMessage(acts, logs, i + 1, h) == if MessageOf(acts[i], h) then Some(acts[i]) else None
  {
    hide Lower, Inv;
    assert Enabled(logs[i], acts[i]) && logs[i + 1] == Step(logs[i], acts[i]);
  }

  lemma StaysOpen(acts: seq<Act>, logs: seq<Log>, i: nat, m: nat, h: Hash, e: Entry)
    requires Run(acts, logs) && m < |acts| && Inv(logs[m]) && h in logs[m].j.open && logs[m].j.open[h] == e
    requires e.vpc.Some? ==> !MessageOf(acts[m], h)
    requires e.grpc.Some? ==> !LineOf(acts[m], h)
    requires acts[m].ExpireAt? ==> !Expired(e, acts[m].now)
    ensures h in logs[m + 1].j.open && logs[m + 1].j.open[h] == e
  {
    hide Lower, Expired;
    assert Enabled(logs[m], acts[m]) && logs[m + 1] == Step(logs[m], acts[m]);
  }

  lemma {:induction false} StillWaits(acts: seq<Act>, logs: seq<Log>, i: nat, k: nat, h: Hash)
    requires OneSideWaits(acts, logs, i, k, h)
    ensures h in logs[k].j.open && logs[k].j.open[h] == WithLeg(NO_ENTRY, acts[i].input, acts[i].now)
    ensures FirstLine(acts, logs, k, h) == if LineOf(acts[i], h) then Some(acts[i]) else None
    ensures FirstMessage(acts, logs, k, h) == if MessageOf(acts[i], h) then Some(acts[i]) else None
    decreases k
  {
    hide Lower, Inv, Step, Enabled;
    if k == i + 1 {
      JoinKeeps(acts, logs, i);
      FirstOffer(acts, logs, i, h);
    } else {
      StillWaits(acts, logs, i, k - 1, h);
      JoinKeeps(acts, logs, k - 1);
      StaysOpen(acts, logs, i, k - 1, h, logs[k - 1].j.open[h]);
    }
  }

  /** A hash that both sides deliver, with no expiry more than the deadline after the first of them in
      between, is reported once for each side, with the receipts and wall times of the two inputs, when
      the second one comes. */
  lemma BothSidesInTime(coin: Coin, acts: seq<Act>, logs: seq<Log>, i: nat, k: nat, h: Hash)
    requires OneSideWaits(acts, logs, i, k, h) && k < |acts|
    requires if LineOf(acts[i], h) then MessageOf(acts[k], h) else LineOf(acts[k], h)
    ensures Enabled(logs[k], acts[k])
    ensures var events := Returned(coin, logs[k], acts[k]);
            var line, message := if LineOf(acts[i], h) then acts[i] else acts[k],
                                 if LineOf(acts[i], h) then acts[k] else acts[i];
            && |events| == 2
            && Carries(events[0], coin, events[0].key.eventMs, h, QUICKNODE_GRPC, message)
            && Carries(events[1], coin, events[0].key.eventMs, h, QUICKNODE_VPC, line)
  {
    hide Lower, Inv, Step, Returned;
    StillWaits(acts, logs, i, k, h);
    JoinKeeps(acts, logs, k);
    OfferReturns(coin, acts, logs, k);
    NotForgottenNow(acts, logs, k);
    OpenIsNotDone(logs[k], h);
  }

  lemma OpenIsNotDone(l: Log, h: Hash)
    requires Inv(l) && h in l.j.open
    ensures h !in l.j.done
  {
  }

  // ---------- retention ----------

  /** What is remembered as done is the time of an emission. */
  ghost predicate DoneIsTold(l: Log) {
    forall h <- l.j.done :: exists e <- l.emitted :: e.hash == h && e.at == l.j.done[h]
  }

  lemma StepTells(l: Log, act: Act)
    requires Enabled(l, act) && DoneIsTold(l)
    ensures DoneIsTold(Step(l, act))
  {
    hide Lower, Expired;
    var s := Step(l, act);
    forall h <- s.j.done
      ensures exists e <- s.emitted :: e.hash == h && e.at == s.j.done[h]
    {
      if h in l.j.done && s.j.done[h] == l.j.done[h] {
        var e :| e in l.emitted && e.hash == h && e.at == l.j.done[h];
        assert e in s.emitted;
      } else {
        NewlyDone(l, act, h);
      }
    }
  }

  lemma NewlyDone(l: Log, act: Act, h: Hash)
    requires Enabled(l, act)
    requires h in Step(l, act).j.done && !(h in l.j.done && Step(l, act).j.done[h] == l.j.done[h])
    ensures exists e <- Step(l, act).emitted :: e.hash == h && e.at == Step(l, act).j.done[h]
  {
    hide Lower, Expired;
    var s := Step(l, act);
    match act
    case OfferAt(input, now) =>
      assert s.emitted[|l.emitted|] in s.emitted;
    case ExpireAt(now, order) =>
      assert h in order;
      var i :| 0 <= i < |order| && order[i] == h;
      assert s.emitted[|l.emitted| + i] == Emission(h, now, l.j.open[h]);
      assert s.emitted[|l.emitted| + i] in s.emitted;
  }

  lemma {:induction false} RunTells(acts: seq<Act>, logs: seq<Log>, n: nat)
    requires Run(acts, logs) && n < |logs|
    ensures DoneIsTold(logs[n])
    decreases n
  {
    hide DoneIsTold, Step, Enabled;
    if n == 0 {
      assert DoneIsTold(EMPTY) by { EmptyTells(); }
    } else {
      RunTells(acts, logs, n - 1);
      StepTells(logs[n - 1], acts[n - 1]);
    }
  }

  lemma EmptyTells()
    ensures DoneIsTold(EMPTY)
  {
  }

  /** After an expiry a hash is remembered, and a further input of it ignored, if and only if it was
      emitted less than the retention ago. */
  lemma RememberedIff(acts: seq<Act>, logs: seq<Log>, n: nat, h: Hash)
    requires Run(acts, logs) && n < |acts| && acts[n].ExpireAt?
    ensures |logs| == |acts| + 1
    ensures h in logs[n + 1].j.done
            <==> exists e <- logs[n + 1].emitted :: e.hash == h && acts[n].now - e.at < DONE_RETAIN
  {
    hide Lower, Expired;
    assert Enabled(logs[n], acts[n]) && logs[n + 1] == Step(logs[n], acts[n]);
    JoinKeeps(acts, logs, n + 1);
    RunTells(acts, logs, n + 1);
    var s := logs[n + 1];
    if h in s.j.done {
      var e :| e in s.emitted && e.hash == h && e.at == s.j.done[h];
      assert acts[n].now - e.at < DONE_RETAIN;
    }
  }
}
