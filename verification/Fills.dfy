/** Trades rebuilt from a batch of single fills, `src/streams.rs`. Decimal normalisation is a parameter. */
module Fills {
  import opened Common
  import opened Model

  datatype Side = Ask | Bid | Other

  datatype Fill = Fill(coin: Coin, px: string, sz: string, side: Side, time: nat, tid: nat, hash: string, crossed: bool)

  datatype UserFill = UserFill(user: string, fill: Fill)

  /** What identifies a trade among the fills. */
  datatype Slot = Slot(coin: Coin, time: nat, tid: nat)

  /** A trade as the websocket sends it; `users` are the buyer and the seller. */
  datatype WsTrade = WsTrade(coin: Coin, side: Side, px: string, sz: string, hash: string, time: nat, tid: nat,
                             buyer: string, seller: string)

  datatype TradeKey = TradeKey(coin: Coin, time: nat, tid: nat, side: Side, px: string, sz: string, hash: string,
                               buyer: string, seller: string)

  /** `canonical_positive_decimal`. */
  type Normaliser = string -> Option<string>

  ghost predicate Idempotent(norm: Normaliser) {
    forall x :: norm(x).Some? ==> norm(norm(x).value) == norm(x)
  }

  function CanonicalTrade(norm: Normaliser, t: WsTrade): Option<TradeKey> {
    if t.coin == "" || t.side.Other? || t.hash == "" || t.time == 0 || t.buyer == "" || t.seller == "" then None
    else if norm(t.px).None? || norm(t.sz).None? then None
    else Some(TradeKey(t.coin, t.time, t.tid, t.side, norm(t.px).value, norm(t.sz).value, Lower(t.hash), Lower(t.buyer),
                       Lower(t.seller)))
  }

  /** A trade has a key exactly when its price and size are positive decimals and nothing else is left
      out; the key is its own terms in canonical spelling. */
  lemma CanonicalIff(norm: Normaliser, t: WsTrade)
    ensures CanonicalTrade(norm, t).Some?
            <==> norm(t.px).Some? && norm(t.sz).Some? && !t.side.Other? && t.time != 0
                 && t.coin != "" && t.hash != "" && t.buyer != "" && t.seller != ""
    ensures CanonicalTrade(norm, t).Some? ==>
              var k := CanonicalTrade(norm, t).value;
              && k.coin == t.coin && k.time == t.time && k.tid == t.tid && k.side == t.side
              && Some(k.px) == norm(t.px) && Some(k.sz) == norm(t.sz)
              && k.hash == Lower(t.hash) && k.buyer == Lower(t.buyer) && k.seller == Lower(t.seller)
  {
    hide Lower;
  }

  function SlotOf(f: Fill): Slot {
    Slot(f.coin, f.time, f.tid)
  }

  function SlotOfTrade(t: WsTrade): Slot {
    Slot(t.coin, t.time, t.tid)
  }

  /** The first fill of a side for a slot. */
  function First(batch: seq<UserFill>, slot: Slot, side: Side): (r: Option<UserFill>)
    ensures r.Some? ==> r.value in batch && SlotOf(r.value.fill) == slot && r.value.fill.side == side
    ensures r.None? ==> forall u <- batch :: !(SlotOf(u.fill) == slot && u.fill.side == side)
    decreases |batch|
  {
    if batch == [] then None
    else
      var n := |batch| - 1;
      assert batch == batch[..n] + [batch[n]];
      var before := First(batch[..n], slot, side);
      if before.Some? then before
      else if SlotOf(batch[n].fill) == slot && batch[n].fill.side == side then Some(batch[n])
      else None
  }

  predicate FillOf(u: UserFill, slot: Slot, side: Side) {
    SlotOf(u.fill) == slot && u.fill.side == side
  }

  /** Fill `n` is of the slot and side, and no fill before it is. */
  predicate Earliest(batch: seq<UserFill>, slot: Slot, side: Side, n: nat) {
    && n < |batch| && FillOf(batch[n], slot, side)
    && forall m :: 0 <= m < n ==> !FillOf(batch[m], slot, side)
  }

  /** It is the earliest such fill of the batch, and there is none only when no fill is such. */
  lemma {:induction false} FirstIsEarliest(batch: seq<UserFill>, slot: Slot, side: Side)
    ensures match First(batch, slot, side)
            case None => forall n :: 0 <= n < |batch| ==> !FillOf(batch[n], slot, side)
            case Some(u) => exists n: nat :: Earliest(batch, slot, side, n) && batch[n] == u
    decreases |batch|
  {
    hide First, FillOf, SlotOf;
    if batch != [] {
      var n := |batch| - 1;
      FirstIsEarliest(batch[..n], slot, side);
      FirstOfMore(batch, slot, side);
      if First(batch[..n], slot, side).Some? {
        var m: nat :| Earliest(batch[..n], slot, side, m) && batch[m] == First(batch[..n], slot, side).value;
        assert Earliest(batch, slot, side, m);
      } else if FillOf(batch[n], slot, side) {
        assert forall m :: 0 <= m < n ==> !FillOf(batch[..n][m], slot, side) && batch[..n][m] == batch[m];
        assert Earliest(batch, slot, side, n);
      }
    }
  }

  lemma FirstOfMore(batch: seq<UserFill>, slot: Slot, side: Side)
    requires batch != []
    ensures var n := |batch| - 1;
            First(batch, slot, side)
            == if First(batch[..n], slot, side).Some? then First(batch[..n], slot, side)
               else if FillOf(batch[n], slot, side) then Some(batch[n]) else None
  {
  }

  /** The trade of an ask and a bid that agree. */
  function Rebuild(norm: Normaliser, ask: UserFill, bid: UserFill): Option<TradeKey> {
    var a, b := ask.fill, bid.fill;
    if norm(a.px).None? || norm(b.px).None? || norm(a.sz).None? || norm(b.sz).None? then None
    else if SlotOf(a) != SlotOf(b) || norm(a.px) != norm(b.px) || norm(a.sz) != norm(b.sz) then None
    else if Lower(a.hash) != Lower(b.hash) || a.crossed == b.crossed then None
    else CanonicalTrade(norm, WsTrade(a.coin, if a.crossed then Ask else Bid, norm(a.px).value, norm(a.sz).value,
                                      a.hash, a.time, a.tid, bid.user, ask.user))
  }

  datatype Pair = Pair(ask: Option<UserFill>, bid: Option<UserFill>)

  function PairAt(batch: seq<UserFill>, slot: Slot): Pair {
    Pair(First(batch, slot, Ask), First(batch, slot, Bid))
  }

  function RebuildPair(norm: Normaliser, p: Pair): Option<TradeKey> {
    if p.ask.None? || p.bid.None? then None else Rebuild(norm, p.ask.value, p.bid.value)
  }

  ghost predicate Yields(norm: Normaliser, batch: seq<UserFill>, key: TradeKey) {
    exists slot :: RebuildPair(norm, PairAt(batch, slot)) == Some(key)
  }

  // ---------- the loop ----------

  ghost predicate Paired(batch: seq<UserFill>, pairs: map<Slot, Pair>) {
    forall slot :: (if slot in pairs then pairs[slot] else Pair(None, None)) == PairAt(batch, slot)
  }

  lemma PairedMore(batch: seq<UserFill>, n: nat, pairs: map<Slot, Pair>)
    requires n < |batch| && Paired(batch[..n], pairs)
    ensures var u := batch[n];
            var was := if SlotOf(u.fill) in pairs then pairs[SlotOf(u.fill)] else Pair(None, None);
            && (u.fill.side.Other? ==> Paired(batch[..n + 1], pairs))
            && (u.fill.side.Ask? ==>
                  Paired(batch[..n + 1], pairs[SlotOf(u.fill) := if was.ask.None? then was.(ask := Some(u)) else was]))
            && (u.fill.side.Bid? ==>
                  Paired(batch[..n + 1], pairs[SlotOf(u.fill) := if was.bid.None? then was.(bid := Some(u)) else was]))
  {
    hide First, SlotOf;
    var u := batch[n];
    forall slot
      ensures PairAt(batch[..n + 1], slot) == Joined(PairAt(batch[..n], slot), u, slot)
    {
      FirstMore(batch, n, slot, Ask);
      FirstMore(batch, n, slot, Bid);
    }
  }

  /** A slot's pair after one more fill. */
  function Joined(p: Pair, u: UserFill, slot: Slot): Pair {
    if SlotOf(u.fill) != slot then p
    else if u.fill.side.Ask? && p.ask.None? then p.(ask := Some(u))
    else if u.fill.side.Bid? && p.bid.None? then p.(bid := Some(u))
    else p
  }

  lemma FirstMore(batch: seq<UserFill>, n: nat, slot: Slot, side: Side)
    requires n < |batch|
    ensures First(batch[..n + 1], slot, side)
            == if First(batch[..n], slot, side).Some? then First(batch[..n], slot, side)
               else if SlotOf(batch[n].fill) == slot && batch[n].fill.side == side then Some(batch[n])
               else None
  {
    assert batch[..n + 1][..n] == batch[..n];
  }

  method PairUp(batch: seq<UserFill>) returns (pairs: map<Slot, Pair>)
    ensures Paired(batch, pairs)
  {
    hide Paired, PairAt, First;
    pairs := map[];
    NothingPaired();
    assert batch[..0] == [];
    for n := 0 to |batch|
      invariant Paired(batch[..n], pairs)
    {
      PairedMore(batch, n, pairs);
      var u := batch[n];
      if u.fill.side.Other? {
        continue;
      }
      var slot := SlotOf(u.fill);
      var pair := if slot in pairs then pairs[slot] else Pair(None, None);
      if u.fill.side.Ask? {
        if pair.ask.None? {
          pair := pair.(ask := Some(u));
        }
      } else if pair.bid.None? {
        pair := pair.(bid := Some(u));
      }
      pairs := pairs[slot := pair];
    }
    assert batch[..|batch|] == batch;
  }

  lemma NothingPaired()
    ensures Paired([], map[])
  {
  }

  function SlotOfKey(key: TradeKey): Slot {
    Slot(key.coin, key.time, key.tid)
  }

  /** No slot has two keys, so none is repeated either. */
  predicate OneKeyPerSlot(keys: seq<TradeKey>) {
    forall i, j :: 0 <= i < j < |keys| ==> SlotOfKey(keys[i]) != SlotOfKey(keys[j])
  }

  /** What a slot's pair rebuilds is a trade of that slot. */
  lemma RebuiltInSlot(norm: Normaliser, batch: seq<UserFill>, pairs: map<Slot, Pair>, slot: Slot)
    requires Paired(batch, pairs) && slot in pairs
    ensures RebuildPair(norm, pairs[slot]).Some? ==> SlotOfKey(RebuildPair(norm, pairs[slot]).value) == slot
  {
    hide First, Lower;
    assert pairs[slot] == PairAt(batch, slot);
  }

  /** `parse_quicknode_fill_batch`: the trades come out in whatever order the map holds them, at most one
      for each slot. */
  method ParseFillBatch(norm: Normaliser, batch: seq<UserFill>) returns (keys: seq<TradeKey>)
    ensures forall key :: key in keys <==> Yields(norm, batch, key)
    ensures OneKeyPerSlot(keys) && Distinct(keys)
  {
    hide Paired, First, Rebuild, SlotOfKey;
    var pairs := PairUp(batch);
    keys := [];
    var rest := pairs.Keys;
    while rest != {}
      invariant rest <= pairs.Keys && OneKeyPerSlot(keys)
      invariant forall key <- keys :: SlotOfKey(key) !in rest
      invariant forall key <- keys :: exists slot :: slot in pairs && RebuildPair(norm, pairs[slot]) == Some(key)
      invariant forall slot <- pairs :: slot !in rest && RebuildPair(norm, pairs[slot]).Some? ==>
                  RebuildPair(norm, pairs[slot]).value in keys
      decreases rest
    {
      var slot :| slot in rest;
      ghost var left := rest;
      rest := rest - {slot};
      var key := RebuildPair(norm, pairs[slot]);
      RebuiltInSlot(norm, batch, pairs, slot);
      if key.Some? {
        assert forall i :: 0 <= i < |keys| ==> keys[i] in keys && SlotOfKey(keys[i]) !in left;
        keys := keys + [key.value];
      }
    }
    PairsYield(norm, batch, pairs, keys);
  }

  lemma PairsYield(norm: Normaliser, batch: seq<UserFill>, pairs: map<Slot, Pair>, keys: seq<TradeKey>)
    requires Paired(batch, pairs)
    requires forall key <- keys :: exists slot :: slot in pairs && RebuildPair(norm, pairs[slot]) == Some(key)
    requires forall slot <- pairs ::
               RebuildPair(norm, pairs[slot]).Some? ==> RebuildPair(norm, pairs[slot]).value in keys
    ensures forall key :: key in keys <==> Yields(norm, batch, key)
  {
    hide First, Rebuild;
    forall key
      ensures key in keys <==> Yields(norm, batch, key)
    {
      if key in keys {
        var slot :| slot in pairs && RebuildPair(norm, pairs[slot]) == Some(key);
        assert pairs[slot] == PairAt(batch, slot);
      }
      if Yields(norm, batch, key) {
        var slot :| RebuildPair(norm, PairAt(batch, slot)) == Some(key);
        assert slot in pairs && pairs[slot] == PairAt(batch, slot);
      }
    }
  }

  // ---------- what the rebuilt trades are ----------

  /** `u` is the seller's fill of `t`, in any spelling of its numbers and in any case. */
  predicate SellerFill(norm: Normaliser, u: UserFill, t: WsTrade) {
    && u.fill.side.Ask? && SlotOf(u.fill) == SlotOfTrade(t) && u.fill.crossed == t.side.Ask?
    && SameTerms(norm, u.fill, t) && Lower(u.user) == Lower(t.seller)
  }

  predicate BuyerFill(norm: Normaliser, u: UserFill, t: WsTrade) {
    && u.fill.side.Bid? && SlotOf(u.fill) == SlotOfTrade(t) && u.fill.crossed == t.side.Bid?
    && SameTerms(norm, u.fill, t) && Lower(u.user) == Lower(t.buyer)
  }

  predicate SameTerms(norm: Normaliser, f: Fill, t: WsTrade) {
    norm(f.px) == norm(t.px) && norm(f.sz) == norm(t.sz) && Lower(f.hash) == Lower(t.hash)
  }

  lemma SameEmpty(a: string, b: string)
    requires Lower(a) == Lower(b)
    ensures a == "" <==> b == ""
  {
    assert |Lower(a)| == |a| && |Lower(b)| == |b|;
  }

  /** Its two fills rebuild exactly the trade's own canonical key, or both fail. */
  lemma TwoFillsRebuild(norm: Normaliser, ask: UserFill, bid: UserFill, t: WsTrade)
    requires Idempotent(norm) && !t.side.Other? && SellerFill(norm, ask, t) && BuyerFill(norm, bid, t)
    ensures Rebuild(norm, ask, bid) == CanonicalTrade(norm, t)
  {
    hide Lower;
    SameEmpty(ask.fill.hash, t.hash);
    SameEmpty(ask.user, t.seller);
    SameEmpty(bid.user, t.buyer);
    if norm(t.px).Some? && norm(t.sz).Some? {
      assert norm(norm(t.px).value) == norm(t.px) && norm(norm(t.sz).value) == norm(t.sz);
    }
  }

  ghost predicate Both(norm: Normaliser, batch: seq<UserFill>, t: WsTrade) {
    && !t.side.Other?
    && (exists u <- batch :: SellerFill(norm, u, t))
    && (exists u <- batch :: BuyerFill(norm, u, t))
  }

  ghost predicate Owned(norm: Normaliser, u: UserFill, trades: set<WsTrade>) {
    exists t <- trades :: SellerFill(norm, u, t) || BuyerFill(norm, u, t)
  }

  predicate OnePerSlot(trades: set<WsTrade>) {
    forall t, s :: t in trades && s in trades && SlotOfTrade(t) == SlotOfTrade(s) ==> t == s
  }

  /** The batch holds the two fills of every trade, in any order and any number of times, and nothing
      else that counts. */
  ghost predicate FillsOf(norm: Normaliser, batch: seq<UserFill>, trades: set<WsTrade>) {
    && OnePerSlot(trades)
    && (forall t <- trades :: Both(norm, batch, t))
    && (forall u <- batch :: u.fill.side.Other? || Owned(norm, u, trades))
  }

  lemma InSlot(norm: Normaliser, u: UserFill, t: WsTrade)
    ensures SellerFill(norm, u, t) ==> SlotOf(u.fill) == SlotOfTrade(t) && u.fill.side.Ask?
    ensures BuyerFill(norm, u, t) ==> SlotOf(u.fill) == SlotOfTrade(t) && u.fill.side.Bid?
  {
  }

  /** A fill in a trade's slot is that trade's. */
  lemma OfTrade(norm: Normaliser, batch: seq<UserFill>, trades: set<WsTrade>, t: WsTrade, u: UserFill)
    requires FillsOf(norm, batch, trades) && t in trades && u in batch && SlotOf(u.fill) == SlotOfTrade(t)
    ensures u.fill.side.Ask? ==> SellerFill(norm, u, t)
    ensures u.fill.side.Bid? ==> BuyerFill(norm, u, t)
  {
    hide SellerFill, BuyerFill, Both, SlotOf, SlotOfTrade;
    if !u.fill.side.Other? {
      var s :| s in trades && (SellerFill(norm, u, s) || BuyerFill(norm, u, s));
      InSlot(norm, u, s);
    }
  }

  lemma BothFound(norm: Normaliser, batch: seq<UserFill>, t: WsTrade)
    requires Both(norm, batch, t)
    ensures First(batch, SlotOfTrade(t), Ask).Some? && First(batch, SlotOfTrade(t), Bid).Some?
  {
    hide SellerFill, BuyerFill, First, SlotOf, SlotOfTrade;
    var x :| x in batch && SellerFill(norm, x, t);
    var y :| y in batch && BuyerFill(norm, y, t);
    InSlot(norm, x, t);
    InSlot(norm, y, t);
  }

  lemma FirstIsSeller(norm: Normaliser, batch: seq<UserFill>, trades: set<WsTrade>, t: WsTrade)
    requires FillsOf(norm, batch, trades) && t in trades
    ensures var f := First(batch, SlotOfTrade(t), Ask); f.Some? && SellerFill(norm, f.value, t)
    ensures var f := First(batch, SlotOfTrade(t), Bid); f.Some? && BuyerFill(norm, f.value, t)
  {
    hide First, SellerFill, BuyerFill, Both, Owned, OnePerSlot;
    BothFound(norm, batch, t);
    OfTrade(norm, batch, trades, t, First(batch, SlotOfTrade(t), Ask).value);
    OfTrade(norm, batch, trades, t, First(batch, SlotOfTrade(t), Bid).value);
  }

  /** For trades with distinct coin, time and id, every interleaving of their two fills rebuilds exactly
      the canonical keys of those trades. */
  lemma FillsRebuildTrades(norm: Normaliser, batch: seq<UserFill>, trades: set<WsTrade>, key: TradeKey)
    requires Idempotent(norm) && FillsOf(norm, batch, trades)
    ensures Yields(norm, batch, key) <==> exists t <- trades :: CanonicalTrade(norm, t) == Some(key)
  {
    hide First, Rebuild, CanonicalTrade, SellerFill, BuyerFill, Idempotent, Owned, OnePerSlot, SlotOfTrade, SlotOf;
    if Yields(norm, batch, key) {
      var slot :| RebuildPair(norm, PairAt(batch, slot)) == Some(key);
      var t := TradeAt(norm, batch, trades, slot);
      FirstIsSeller(norm, batch, trades, t);
      TwoFillsRebuild(norm, PairAt(batch, slot).ask.value, PairAt(batch, slot).bid.value, t);
    }
    if exists t <- trades :: CanonicalTrade(norm, t) == Some(key) {
      var t :| t in trades && CanonicalTrade(norm, t) == Some(key);
      FirstIsSeller(norm, batch, trades, t);
      var pair := PairAt(batch, SlotOfTrade(t));
      TwoFillsRebuild(norm, pair.ask.value, pair.bid.value, t);
      assert RebuildPair(norm, pair) == Some(key);
    }
  }

  lemma TradeAt(norm: Normaliser, batch: seq<UserFill>, trades: set<WsTrade>, slot: Slot) returns (t: WsTrade)
    requires FillsOf(norm, batch, trades) && First(batch, slot, Ask).Some?
    ensures t in trades && SlotOfTrade(t) == slot
  {
    hide SellerFill, BuyerFill, Both, OnePerSlot;
    var u := First(batch, slot, Ask).value;
    t :| t in trades && (SellerFill(norm, u, t) || BuyerFill(norm, u, t));
    InSlot(norm, u, t);
  }

  /** And in any batch at all, a rebuilt trade is backed by an ask and a bid of the same slot that agree
      on price, size and hash, with exactly one of them the taker. */
  lemma NeverACrossedPair(norm: Normaliser, batch: seq<UserFill>, key: TradeKey)
    requires Idempotent(norm) && Yields(norm, batch, key)
    ensures exists a, b :: a in batch && b in batch && Backs(norm, a, b, key)
  {
    hide First, Lower;
    var slot :| RebuildPair(norm, PairAt(batch, slot)) == Some(key);
    var a, b := PairAt(batch, slot).ask.value, PairAt(batch, slot).bid.value;
    assert Backs(norm, a, b, key);
  }

  predicate Backs(norm: Normaliser, a: UserFill, b: UserFill, key: TradeKey) {
    && a.fill.side.Ask? && b.fill.side.Bid? && a.fill.crossed != b.fill.crossed
    && SlotOf(a.fill) == SlotOf(b.fill) == Slot(key.coin, key.time, key.tid)
    && norm(a.fill.px) == norm(b.fill.px) == Some(key.px) && norm(a.fill.sz) == norm(b.fill.sz) == Some(key.sz)
    && Lower(a.fill.hash) == Lower(b.fill.hash) == key.hash
    && key.side == (if a.fill.crossed then Ask else Bid)
    && key.buyer == Lower(b.user) && key.seller == Lower(a.user)
  }
}
