/** The opening auction of a running exchange against the clearing price strategy. */
module ExchangeAuction {
  import opened Orders
  import opened BatchAuction
  import opened BatchAccounts
  import opened ClearingPrice
  import opened Exchanges
  import opened ExchangeSteps
  import opened ExchangeRuns

  /** The held orders of one side. */
  function HeldOn(xs: seq<OrderState>, side: Side): seq<OrderState> {
    if xs == [] then [] else (if xs[0].side == side then [xs[0]] else []) + HeldOn(xs[1..], side)
  }

  lemma {:induction false} HeldOnMembers(xs: seq<OrderState>, side: Side)
    ensures forall s :: s in HeldOn(xs, side) <==> s in xs && s.side == side
  {
    if xs == [] {
    } else {
      HeldOnMembers(xs[1..], side);
      assert xs == [xs[0]] + xs[1..];
    }
  }

  lemma {:induction false} HeldOnUnique(xs: seq<OrderState>, side: Side)
    requires UniqueIds(xs)
    ensures UniqueIds(HeldOn(xs, side))
  {
    if xs == [] {
    } else {
      HeldOnUnique(xs[1..], side);
      HeldOnMembers(xs[1..], side);
      var rest := HeldOn(xs[1..], side);
      forall k | 0 <= k < |rest|
        ensures rest[k].id != xs[0].id
      {
        assert rest[k] in xs[1..];
      }
    }
  }

  /** With unique ids every order is there once. */
  lemma {:induction false} UniqueOnce(xs: seq<OrderState>, s: OrderState)
    requires UniqueIds(xs)
    ensures multiset(xs)[s] == if s in xs then 1 else 0
  {
    if k: nat :| k < |xs| && xs[k] == s {
      assert xs == xs[..k] + [xs[k]] + xs[k + 1..];
      assert s !in xs[..k] && s !in xs[k + 1..];
    }
  }

  lemma {:induction false} SameOrders(xs: seq<OrderState>, ys: seq<OrderState>)
    requires UniqueIds(xs) && UniqueIds(ys) && forall s :: s in xs <==> s in ys
    ensures multiset(xs) == multiset(ys)
  {
    forall s
      ensures multiset(xs)[s] == multiset(ys)[s]
    {
      UniqueOnce(xs, s);
      UniqueOnce(ys, s);
    }
  }

  /** A draw is a sorting of what is held, every order once. */
  lemma {:induction false} DrawSortsHeld(d: Draw, xs: seq<OrderState>)
    requires DrawOk(d, xs) && UniqueIds(xs)
    ensures multiset(d.buys) == multiset(HeldOn(xs, Buy)) && multiset(d.sells) == multiset(HeldOn(xs, Sell))
  {
    HeldOnMembers(xs, Buy);
    HeldOnMembers(xs, Sell);
    HeldOnUnique(xs, Buy);
    HeldOnUnique(xs, Sell);
    SameOrders(d.buys, HeldOn(xs, Buy));
    SameOrders(d.sells, HeldOn(xs, Sell));
  }

  /** What is held in a valid state is fresh, and any draw of it is sorted. */
  lemma {:induction false} HeldSides(x: Exchange, draws: Draws, i: InstrumentId)
    requires Inv(x) && DrawsOk(x, draws) && i in x.pending && i in x.books
    ensures x.Ready() && Drawn(x, draws) && DrawOk(draws[i], x.pending[i]) && UniqueIds(x.pending[i])
    ensures BothArranged(draws[i].buys, draws[i].sells)
    ensures forall s :: s in x.pending[i] ==> s.Fresh()
  {
    hide BookInv;
    assert HeldOk(x, i);
    HeldIsReady(x, draws, i);
    InvReady(x);
    DrawsDrawn(x, draws);
  }

  /** Whether some held buy limit reaches some held sell limit. */
  predicate SomeCross(bids: seq<OrderState>, asks: seq<OrderState>) {
    exists i, j :: 0 <= i < |bids| && 0 <= j < |asks| && Crosses(bids[i], asks[j])
  }

  /** A batch of the exchange, whatever the draw, pairs off the most that any single
      real price lets the held orders trade, if and only if no market sell is held
      or no held limits cross. */
  lemma {:induction false} AuctionTradesMaximum(x: Exchange, draws: Draws, i: InstrumentId, v: int)
    requires Inv(x) && DrawsOk(x, draws) && i in x.pending && i in x.books
    requires IsMaxVolume(HeldOn(x.pending[i], Buy), HeldOn(x.pending[i], Sell), v)
    ensures x.Ready() && Drawn(x, draws)
    ensures var bids, asks := HeldOn(x.pending[i], Buy), HeldOn(x.pending[i], Sell);
            Volume(OutcomeOf(x, draws, i).pairs.trades) == v <==> AllLimit(asks) || !SomeCross(bids, asks)
  {
    hide Inv, DrawsOk, DrawOk, IsMaxVolume, BothArranged, HeldOn, Greedy, Crosses;
    HeldSides(x, draws, i);
    var xs, d := x.pending[i], draws[i];
    var bids, asks := HeldOn(xs, Buy), HeldOn(xs, Sell);
    DrawSortsHeld(d, xs);
    HeldOnMembers(xs, Buy);
    HeldOnMembers(xs, Sell);
    WholeFresh(bids);
    WholeFresh(asks);
    EngineTradesMaximum(bids, asks, d.buys, d.sells, v);
    SameMembers(d.buys, bids);
    SameMembers(d.sells, asks);
    SameCrossing(d.buys, d.sells, bids, asks);
  }

  lemma {:induction false} SameMembers(xs: seq<OrderState>, ys: seq<OrderState>)
    requires multiset(xs) == multiset(ys)
    ensures forall s :: s in xs <==> s in ys
  {
    forall s
      ensures s in xs <==> s in ys
    {
      assert s in multiset(xs) <==> s in multiset(ys);
    }
  }

  lemma {:induction false} SameCrossing(bs: seq<OrderState>, ss: seq<OrderState>, bids: seq<OrderState>,
                                        asks: seq<OrderState>)
    requires (forall s :: s in bs <==> s in bids) && forall s :: s in ss <==> s in asks
    ensures AllLimit(ss) <==> AllLimit(asks)
    ensures (forall i, j :: 0 <= i < |bs| && 0 <= j < |ss| ==> !Crosses(bs[i], ss[j])) <==> !SomeCross(bids, asks)
  {
    hide Crosses;
    if i, j :| 0 <= i < |bs| && 0 <= j < |ss| && Crosses(bs[i], ss[j]) {
      assert bs[i] in bids && ss[j] in asks;
      var m :| 0 <= m < |bids| && bids[m] == bs[i];
      var n :| 0 <= n < |asks| && asks[n] == ss[j];
      assert Crosses(bids[m], asks[n]);
    }
    if i, j :| 0 <= i < |bids| && 0 <= j < |asks| && Crosses(bids[i], asks[j]) {
      assert bids[i] in bs && asks[j] in ss;
      var m :| 0 <= m < |bs| && bs[m] == bids[i];
      var n :| 0 <= n < |ss| && ss[n] == asks[j];
      assert Crosses(bs[m], ss[n]);
    }
    if !AllLimit(ss) {
      var k :| 0 <= k < |ss| && ss[k].price.None?;
      assert ss[k] in asks;
    }
    if !AllLimit(asks) {
      var k :| 0 <= k < |asks| && asks[k].price.None?;
      assert asks[k] in ss;
    }
  }

  /** In any run, every auction and every executed batch does so. */
  lemma {:induction false} RunTradesMaximum(xs: seq<Exchange>, es: seq<Event>, k: nat, i: InstrumentId, v: int)
    requires IsRun(xs, es) && k < |es| && RunsBatch(xs[k], es[k]) && i in xs[k].pending
    requires IsMaxVolume(HeldOn(xs[k].pending[i], Buy), HeldOn(xs[k].pending[i], Sell), v)
    ensures i in xs[k].books && xs[k].Ready() && Drawn(xs[k], es[k].draws)
    ensures var bids, asks := HeldOn(xs[k].pending[i], Buy), HeldOn(xs[k].pending[i], Sell);
            Volume(OutcomeOf(xs[k], es[k].draws, i).pairs.trades) == v <==> AllLimit(asks) || !SomeCross(bids, asks)
  {
    hide DrawsOk, IsMaxVolume, HeldOn, HeldOk, BookInv, RunBatch;
    RunKeepsInv(xs, es, k);
    assert Enabled(xs[k], es[k]);
    AuctionTradesMaximum(xs[k], es[k].draws, i, v);
  }
}
