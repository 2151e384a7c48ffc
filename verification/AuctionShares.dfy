/** What the auction owes each order, and where it trades past the book. */
module AuctionShares {
  import opened Orders
  import opened PriceTime
  import opened BookLaws
  import opened BatchAuction
  import opened BatchAccounts

  // ---- every order gets its share ----

  /** What is left of a quantity, within a size. */
  function Within(left: int, size: int): int {
    if left <= 0 then 0 else Min(left, size)
  }

  /** What the auction owes a sell, defined without any pairing: the demand at its
      limit that the sells sorted before it leave over. */
  function SellShare(bs: seq<OrderState>, ss: seq<OrderState>, j: nat): int
    requires j < |ss|
  {
    if ss[j].price.None? then 0
    else Within(Demand(bs, ss[j].price.value as real) - SumRemaining(ss[..j]), ss[j].remaining)
  }

  function BuyShare(bs: seq<OrderState>, ss: seq<OrderState>, i: nat): int
    requires i < |bs|
  {
    if bs[i].price.None? then 0
    else Within(Supply(ss, bs[i].price.value as real) - SumRemaining(bs[..i]), bs[i].remaining)
  }

  /** Two sorted sides with unique ids and no market sell. */
  ghost predicate Pairable(bs: seq<OrderState>, ss: seq<OrderState>) {
    Matchable(bs, ss) && UniqueIds(bs) && UniqueIds(ss) && DisjointIds(bs, ss)
  }

  lemma {:induction false} PairableFronts(bs: seq<OrderState>, ss: seq<OrderState>)
    requires Pairable(bs, ss) && bs != [] && ss != []
    ensures var q := Min(bs[0].remaining, ss[0].remaining);
            && q > 0 && Pairable(Front(bs, q), Front(ss, q))
            && |Front(bs, q)| + |Front(ss, q)| < |bs| + |ss|
  {
    hide Arranged;
    var q := Min(bs[0].remaining, ss[0].remaining);
    MatchableFronts(bs, ss, q);
    FrontIds(bs, ss, q);
  }

  /** Where an order behind the first one is after a round, and what is ahead of it. */
  lemma {:induction false} FrontPlace(xs: seq<OrderState>, q: int, j: nat) returns (k: nat)
    requires 0 < j < |xs| && 0 < q <= xs[0].remaining
    ensures var ys := Front(xs, q);
            k < |ys| && ys[k] == xs[j] && SumRemaining(ys[..k]) == SumRemaining(xs[..j]) - q
  {
    var ys := Front(xs, q);
    assert xs[..j][1..] == xs[1..][..j - 1];
    if q == xs[0].remaining {
      k := j - 1;
    } else {
      k := j;
      assert ys[..k][1..] == xs[1..][..j - 1];
    }
  }

  /** Who is on neither side trades nothing. */
  lemma {:induction false} AbsentTradesNothing(bs: seq<OrderState>, ss: seq<OrderState>, id: OrderId)
    requires Pairable(bs, ss) && !HasId(bs, id) && !HasId(ss, id)
    ensures Traded(Greedy(bs, ss).trades, id) == 0
  {
    hide Greedy, Traded, Arranged, HasId, Suffix;
    GreedyConserves(bs, ss, id);
    GreedyLeavesSuffix(bs, ss);
    SuffixAbsent(Greedy(bs, ss).buys, bs, id);
    SuffixAbsent(Greedy(bs, ss).sells, ss, id);
    LeftAbsent(bs, id);
    LeftAbsent(ss, id);
    LeftAbsent(Greedy(bs, ss).buys, id);
    LeftAbsent(Greedy(bs, ss).sells, id);
  }

  /** An order used up by a round is gone from both sides. */
  lemma {:induction false} UsedUp(xs: seq<OrderState>, ys: seq<OrderState>, q: int)
    requires xs != [] && ys != [] && UniqueIds(xs) && DisjointIds(xs, ys) && q == xs[0].remaining
    ensures !HasId(Front(xs, q), xs[0].id) && !HasId(Front(ys, q), xs[0].id)
  {
    assert forall k :: 0 <= k < |Front(xs, q)| ==> Front(xs, q)[k] == xs[k + 1];
    assert forall k :: 0 <= k < |Front(ys, q)| ==>
             Front(ys, q)[k].id == ys[|ys| - |Front(ys, q)| + k].id;
  }

  lemma {:induction false} RoundTraded(bs: seq<OrderState>, ss: seq<OrderState>, id: OrderId)
    requires bs != [] && ss != [] && Crosses(bs[0], ss[0])
    ensures var q := Min(bs[0].remaining, ss[0].remaining);
            Traded(Greedy(bs, ss).trades, id) ==
            (if id == bs[0].id || id == ss[0].id then q else 0) + Traded(Greedy(Front(bs, q), Front(ss, q)).trades, id)
  {
  }

  /** When nothing crosses, nobody is owed anything. */
  lemma {:induction false} NothingOwed(bs: seq<OrderState>, ss: seq<OrderState>)
    requires Matchable(bs, ss) && (bs == [] || ss == [] || !Crosses(bs[0], ss[0]))
    ensures forall j :: 0 <= j < |ss| ==> SellShare(bs, ss, j) == 0
    ensures forall i :: 0 <= i < |bs| ==> BuyShare(bs, ss, i) == 0
  {
    BestStops(bs, ss);
    hide Arranged, Demand, Supply, SumRemaining;
    forall j | 0 <= j < |ss|
      ensures SellShare(bs, ss, j) == 0
    {
      DemandNone(bs, ss[j].price.value as real);
      SumRemainingPrefix(ss, j);
      assert forall i :: 0 <= i < |bs| ==> !Crosses(bs[i], ss[j]);
    }
    forall i | 0 <= i < |bs|
      ensures BuyShare(bs, ss, i) == 0
    {
      if bs[i].price.Some? {
        SupplyNone(ss, bs[i].price.value as real);
        SumRemainingPrefix(bs, i);
        assert forall j :: 0 <= j < |ss| ==> !Crosses(bs[i], ss[j]);
      }
    }
  }

  /** A round takes its quantity off the demand at any price that still has some. */
  lemma {:induction false} DemandAfter(bs: seq<OrderState>, q: int, p: int)
    requires bs != [] && Positive(bs) && PositiveLimits(bs) && Arranged(bs, true) && 0 < q <= bs[0].remaining && p > 0
    ensures Demand(bs, p as real) >= 0
    ensures Demand(Front(bs, q), p as real) == Demand(bs, p as real) - if Demand(bs, p as real) == 0 then 0 else q
    ensures bs[0].price.Some? && bs[0].price.value >= p ==> Demand(bs, p as real) >= bs[0].remaining
  {
    FrontDemand(bs, q, p as real);
    DemandNone(bs, p as real);
    DemandNone(bs[1..], p as real);
    if bs[0].price.None? || bs[0].price.value < p {
      forall i | 0 <= i < |bs| && bs[i].price.Some?
        ensures bs[i].price.value < p
      {
        assert SortKey(bs[0].price, true) <= SortKey(bs[i].price, true);
      }
    }
  }

  lemma {:induction false} SupplyAfter(ss: seq<OrderState>, q: int, p: int)
    requires ss != [] && Positive(ss) && Arranged(ss, false) && AllLimit(ss) && 0 < q <= ss[0].remaining
    ensures Supply(ss, p as real) >= 0
    ensures Supply(Front(ss, q), p as real) == Supply(ss, p as real) - if Supply(ss, p as real) == 0 then 0 else q
    ensures ss[0].price.value <= p ==> Supply(ss, p as real) >= ss[0].remaining
  {
    FrontSupply(ss, q, p as real);
    SupplyNone(ss, p as real);
    SupplyNone(ss[1..], p as real);
    if ss[0].price.value > p {
      forall j | 0 <= j < |ss|
        ensures ss[j].price.value > p
      {
        assert SortKey(ss[0].price, false) <= SortKey(ss[j].price, false);
      }
    }
  }

  lemma {:induction false} FrontHead(xs: seq<OrderState>, q: int)
    requires xs != [] && q != xs[0].remaining
    ensures Front(xs, q) != [] && Front(xs, q)[0] == xs[0].Filled(q)
    ensures SumRemaining(Front(xs, q)[..0]) == 0
  {
  }

  lemma {:induction false} NothingAhead(xs: seq<OrderState>)
    ensures SumRemaining(xs[..0]) == 0
  {
  }

  lemma {:induction false} PairableFacts(bs: seq<OrderState>, ss: seq<OrderState>)
    requires Pairable(bs, ss)
    ensures Positive(bs) && PositiveLimits(bs) && Arranged(bs, true) && UniqueIds(bs)
    ensures Positive(ss) && PositiveLimits(ss) && Arranged(ss, false) && UniqueIds(ss) && AllLimit(ss)
    ensures DisjointIds(bs, ss) && DisjointIds(ss, bs)
  {
  }

  /** The pairing gives every sell exactly its share. */
  lemma {:induction false} SellsGetShares(bs: seq<OrderState>, ss: seq<OrderState>, j: nat)
    requires Pairable(bs, ss) && j < |ss|
    ensures Traded(Greedy(bs, ss).trades, ss[j].id) == SellShare(bs, ss, j)
    decreases |bs| + |ss|
  {
    hide Pairable, Arranged, Demand, Supply, SumRemaining, Greedy, Traded, Front;
    PairableFacts(bs, ss);
    if bs == [] || !Crosses(bs[0], ss[0]) {
      NothingOwed(bs, ss);
      GreedyEnds(bs, ss, ss[j].id);
    } else {
      var q, p := Min(bs[0].remaining, ss[0].remaining), ss[j].price.value;
      PairableFronts(bs, ss);
      RoundTraded(bs, ss, ss[j].id);
      DemandAfter(bs, q, p);
      if j > 0 {
        var k := FrontPlace(ss, q, j);
        SellsGetShares(Front(bs, q), Front(ss, q), k);
        AheadAfter(ss, q, k);
      } else if q == ss[0].remaining {
        UsedUp(ss, bs, q);
        AbsentTradesNothing(Front(bs, q), Front(ss, q), ss[0].id);
        NothingAhead(ss);
      } else {
        FrontHead(ss, q);
        NothingAhead(ss);
        SellsGetShares(Front(bs, q), Front(ss, q), 0);
      }
    }
  }

  lemma {:induction false} AheadAfter(xs: seq<OrderState>, q: int, k: nat)
    requires xs != [] && Positive(xs) && 0 < q <= xs[0].remaining && k <= |Front(xs, q)|
    ensures SumRemaining(Front(xs, q)[..k]) >= 0
  {
    hide SumRemaining;
    FrontKeeps(xs, q);
    assert Positive(Front(xs, q));
    PrefixNonNegative(Front(xs, q), k);
  }

  lemma {:induction false} PrefixNonNegative(xs: seq<OrderState>, k: nat)
    requires Positive(xs) && k <= |xs|
    ensures SumRemaining(xs[..k]) >= 0
  {
    SumRemainingPrefix(xs, k);
  }

  lemma {:induction false} GreedyEnds(bs: seq<OrderState>, ss: seq<OrderState>, id: OrderId)
    requires bs == [] || ss == [] || !Crosses(bs[0], ss[0])
    ensures Greedy(bs, ss).trades == [] && Traded(Greedy(bs, ss).trades, id) == 0
  {
  }

  /** The pairing gives every buy exactly its share. */
  lemma {:induction false} BuysGetShares(bs: seq<OrderState>, ss: seq<OrderState>, i: nat)
    requires Pairable(bs, ss) && i < |bs|
    ensures Traded(Greedy(bs, ss).trades, bs[i].id) == BuyShare(bs, ss, i)
    decreases |bs| + |ss|
  {
    hide Pairable, Arranged, Demand, Supply, SumRemaining, Greedy, Traded, Front;
    PairableFacts(bs, ss);
    if ss == [] || !Crosses(bs[0], ss[0]) {
      NothingOwed(bs, ss);
      GreedyEnds(bs, ss, bs[i].id);
    } else {
      var q := Min(bs[0].remaining, ss[0].remaining);
      PairableFronts(bs, ss);
      RoundTraded(bs, ss, bs[i].id);
      if bs[i].price.Some? {
        SupplyAfter(ss, q, bs[i].price.value);
      }
      if i > 0 {
        var k := FrontPlace(bs, q, i);
        BuysGetShares(Front(bs, q), Front(ss, q), k);
        AheadAfter(bs, q, k);
      } else if q == bs[0].remaining {
        UsedUp(bs, ss, q);
        AbsentTradesNothing(Front(bs, q), Front(ss, q), bs[0].id);
        NothingAhead(bs);
      } else {
        FrontHead(bs, q);
        NothingAhead(bs);
        BuysGetShares(Front(bs, q), Front(ss, q), 0);
      }
    }
  }

  // ---- trading past the book ----

  /** A price that an order resting in the book betters, for the buyer or for the seller. */
  ghost predicate Bettered(b: Book, price: int)
    requires Priced(b)
  {
    || (exists k :: 0 <= k < |b.asks| && b.asks[k].price.value < price)
    || (exists k :: 0 <= k < |b.bids| && b.bids[k].price.value > price)
  }

  /** Some pair of the batch prints at a price the book betters. */
  ghost predicate TradesThrough(b: Book, pairs: seq<Trade>)
    requires Priced(b)
  {
    exists k :: 0 <= k < |pairs| && Bettered(b, pairs[k].price)
  }

  lemma {:induction false} PairsPositive(bs: seq<OrderState>, ss: seq<OrderState>)
    requires Positive(bs) && Positive(ss)
    ensures forall k :: 0 <= k < |Greedy(bs, ss).trades| ==> Greedy(bs, ss).trades[k].quantity > 0
    decreases |bs| + |ss|
  {
    if bs != [] && ss != [] && Crosses(bs[0], ss[0]) {
      var q := Min(bs[0].remaining, ss[0].remaining);
      FrontKeeps(bs, q);
      FrontKeeps(ss, q);
      PairsPositive(Front(bs, q), Front(ss, q));
    }
  }

  /** A sell with a share prints at its limit. */
  lemma {:induction false} SharePrints(bs: seq<OrderState>, ss: seq<OrderState>, instrument: InstrumentId, j: nat)
    returns (k: nat)
    requires Pairable(bs, ss) && Opposed(bs, ss, instrument) && j < |ss| && SellShare(bs, ss, j) > 0
    ensures k < |Greedy(bs, ss).trades| && ss[j].price == Some(Greedy(bs, ss).trades[k].price)
  {
    hide Greedy, Traded, SellShare, Arranged;
    var ts := Greedy(bs, ss).trades;
    SellsGetShares(bs, ss, j);
    if forall m :: 0 <= m < |ts| ==> !ts[m].Names(ss[j].id) {
      TradedNobody(ts, ss[j].id);
      assert false;
    }
    k :| 0 <= k < |ts| && ts[k].Names(ss[j].id);
    var _, n := GreedyIsLegal(bs, ss, instrument, k);
    assert n == j;
  }

  /** Every print is at the limit of a sell with a share. */
  lemma {:induction false} PrintHasShare(bs: seq<OrderState>, ss: seq<OrderState>, instrument: InstrumentId, k: nat)
    returns (j: nat)
    requires Pairable(bs, ss) && Opposed(bs, ss, instrument) && k < |Greedy(bs, ss).trades|
    ensures j < |ss| && ss[j].price == Some(Greedy(bs, ss).trades[k].price) && SellShare(bs, ss, j) > 0
  {
    hide Greedy, Traded, SellShare, Arranged;
    var ts := Greedy(bs, ss).trades;
    var _, n := GreedyIsLegal(bs, ss, instrument, k);
    j := n;
    SellsGetShares(bs, ss, j);
    PairsPositive(bs, ss);
    TradedNonNegative(ts, ss[j].id);
    assert ts[k].Names(ss[j].id);
  }

  /** A market sell comes first and stops the pairing. */
  lemma {:induction false} MarketSellStops(bs: seq<OrderState>, ss: seq<OrderState>)
    requires Arranged(ss, false) && PositiveLimits(ss) && !AllLimit(ss)
    ensures Greedy(bs, ss).trades == []
  {
    var k :| 0 <= k < |ss| && ss[k].price.None?;
    assert SortKey(ss[0].price, false) <= SortKey(ss[k].price, false);
  }

  /** Exactly when the auction trades past the book: without a market sell, some
      sell has a share and a limit that a resting order betters. The pairing
      never looks at the book. */
  lemma {:induction false} TradesThroughIff(b: Book, bs: seq<OrderState>, ss: seq<OrderState>, instrument: InstrumentId)
    requires BatchReady(b, bs, ss, instrument)
    ensures Priced(b)
    ensures TradesThrough(b, RunBatch(b, bs, ss).pairs.trades) <==>
            && AllLimit(ss)
            && exists j :: 0 <= j < |ss| && SellShare(bs, ss, j) > 0 && Bettered(b, ss[j].price.value)
  {
    hide Greedy, SellShare, Bettered, BatchReady, File;
    ReadyFacts(b, bs, ss, instrument);
    var ts := Greedy(bs, ss).trades;
    if !AllLimit(ss) {
      MarketSellStops(bs, ss);
    } else {
      if k :| 0 <= k < |ts| && Bettered(b, ts[k].price) {
        var j := PrintHasShare(bs, ss, instrument, k);
      }
      if j :| 0 <= j < |ss| && SellShare(bs, ss, j) > 0 && Bettered(b, ss[j].price.value) {
        var k := SharePrints(bs, ss, instrument, j);
      }
    }
  }
}
