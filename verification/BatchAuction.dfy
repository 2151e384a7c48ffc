/** The batch match of one instrument: two sorted lists paired greedily, the
    leftovers added to the book one by one, and a result for every order. */
module BatchAuction {
  import opened Orders
  import opened PriceTime

  // ---- the two-pointer match ----

  /** The sort key of the batch: best price first, and market orders at 0, so
      market buys come last and market sells come first. */
  function SortKey(price: Option<int>, descending: bool): int {
    if descending && price.Some? then -price.value
    else if price.Some? then price.value else 0
  }

  /** Sorted by price; equal prices in any order. */
  predicate Arranged(xs: seq<OrderState>, descending: bool) {
    forall i, j :: 0 <= i < j < |xs| ==> SortKey(xs[i].price, descending) <= SortKey(xs[j].price, descending)
  }

  /** Orders as the batch engine holds them: of one side and instrument, with quantity left. */
  predicate Batch(xs: seq<OrderState>, side: Side, instrument: InstrumentId) {
    && (forall i :: 0 <= i < |xs| ==>
          xs[i].WellFormed() && xs[i].remaining > 0 && xs[i].side == side && xs[i].instrument == instrument)
    && UniqueIds(xs)
  }

  predicate Crosses(b: OrderState, s: OrderState) {
    b.price.Some? && s.price.Some? && b.price.value >= s.price.value
  }

  /** A trade at the sell limit, the buyer counted as aggressor. */
  function PairTrade(b: OrderState, s: OrderState, q: int): Trade
    requires s.price.Some?
  {
    Trade(b.instrument, b.trader, s.trader, s.price.value, q, b.id, s.id, Buy)
  }

  datatype Paired = Paired(trades: seq<Trade>, buys: seq<OrderState>, sells: seq<OrderState>)

  function Greedy(bs: seq<OrderState>, ss: seq<OrderState>): Paired
    decreases |bs| + |ss|
  {
    if bs == [] || ss == [] || !Crosses(bs[0], ss[0]) then Paired([], bs, ss)
    else
      var q := Min(bs[0].remaining, ss[0].remaining);
      var g := Greedy(Front(bs, q), Front(ss, q));
      g.(trades := [PairTrade(bs[0], ss[0], q)] + g.trades)
  }

  // ---- volume ----

  /** Quantity buyers would take at a price; market orders do not count. */
  function Demand(bs: seq<OrderState>, p: real): int {
    if bs == [] then 0
    else (if bs[0].price.Some? && bs[0].price.value as real >= p then bs[0].remaining else 0) + Demand(bs[1..], p)
  }

  function Supply(ss: seq<OrderState>, p: real): int {
    if ss == [] then 0
    else (if ss[0].price.Some? && ss[0].price.value as real <= p then ss[0].remaining else 0) + Supply(ss[1..], p)
  }

  /** What could trade if everything traded at one price. */
  function VolumeAt(bs: seq<OrderState>, ss: seq<OrderState>, p: real): int {
    Min(Demand(bs, p), Supply(ss, p))
  }

  /** The most that any single price lets trade, 0 when nothing can. */
  ghost predicate IsMaxVolume(bs: seq<OrderState>, ss: seq<OrderState>, v: int) {
    && v >= 0
    && (forall p: real :: VolumeAt(bs, ss, p) <= v)
    && (v > 0 ==> exists p: real :: VolumeAt(bs, ss, p) == v)
  }

  predicate Positive(xs: seq<OrderState>) {
    forall i :: 0 <= i < |xs| ==> xs[i].remaining > 0
  }

  predicate AllLimit(xs: seq<OrderState>) {
    forall i :: 0 <= i < |xs| ==> xs[i].price.Some?
  }

  predicate PositiveLimits(xs: seq<OrderState>) {
    forall i :: 0 <= i < |xs| && xs[i].price.Some? ==> xs[i].price.value > 0
  }

  /** Two sorted sides of orders with quantity left, market sells excluded. */
  predicate Matchable(bs: seq<OrderState>, ss: seq<OrderState>) {
    && Positive(bs) && Positive(ss)
    && PositiveLimits(bs) && PositiveLimits(ss)
    && Arranged(bs, true) && Arranged(ss, false)
    && AllLimit(ss)
  }

  lemma {:induction false} DemandNone(bs: seq<OrderState>, p: real)
    requires Positive(bs)
    ensures Demand(bs, p) >= 0
    ensures (forall i :: 0 <= i < |bs| && bs[i].price.Some? ==> (bs[i].price.value as real) < p) ==> Demand(bs, p) == 0
    ensures forall i :: 0 <= i < |bs| && bs[i].price.Some? && bs[i].price.value as real >= p ==> Demand(bs, p) > 0
  {
    if bs == [] {
    } else {
      DemandNone(bs[1..], p);
      assert forall i :: 1 <= i < |bs| ==> bs[i] == bs[1..][i - 1];
    }
  }

  lemma {:induction false} SupplyNone(ss: seq<OrderState>, p: real)
    requires Positive(ss)
    ensures Supply(ss, p) >= 0
    ensures (forall i :: 0 <= i < |ss| && ss[i].price.Some? ==> (ss[i].price.value as real) > p) ==> Supply(ss, p) == 0
    ensures forall i :: 0 <= i < |ss| && ss[i].price.Some? && ss[i].price.value as real <= p ==> Supply(ss, p) > 0
  {
    if ss == [] {
    } else {
      SupplyNone(ss[1..], p);
      assert forall i :: 1 <= i < |ss| ==> ss[i] == ss[1..][i - 1];
    }
  }

  lemma {:induction false} FrontDemand(bs: seq<OrderState>, q: int, p: real)
    requires bs != [] && q <= bs[0].remaining
    ensures Demand(Front(bs, q), p) ==
            Demand(bs, p) - if bs[0].price.Some? && bs[0].price.value as real >= p then q else 0
  {
  }

  lemma {:induction false} FrontSupply(ss: seq<OrderState>, q: int, p: real)
    requires ss != [] && q <= ss[0].remaining
    ensures Supply(Front(ss, q), p) ==
            Supply(ss, p) - if ss[0].price.Some? && ss[0].price.value as real <= p then q else 0
  {
  }

  lemma {:induction false} FrontKeeps(xs: seq<OrderState>, q: int)
    requires xs != [] && 0 < q <= xs[0].remaining && Positive(xs)
    ensures var ys := Front(xs, q);
            && |ys| <= |xs| && Positive(ys)
            && (forall i :: 0 <= i < |ys| ==> ys[i].price == xs[|xs| - |ys| + i].price)
  {
    var ys := Front(xs, q);
    if q != xs[0].remaining {
      assert forall i :: 0 <= i < |ys| ==> ys[i] == if i == 0 then xs[0].Filled(q) else xs[i];
    }
  }

  lemma {:induction false} MatchableFronts(bs: seq<OrderState>, ss: seq<OrderState>, q: int)
    requires Matchable(bs, ss) && bs != [] && ss != []
    requires 0 < q <= bs[0].remaining && q <= ss[0].remaining
    ensures Matchable(Front(bs, q), Front(ss, q))
  {
    FrontKeeps(bs, q);
    FrontKeeps(ss, q);
    hide Front;
    var bs', ss' := Front(bs, q), Front(ss, q);
    var n, m := |bs| - |bs'|, |ss| - |ss'|;
    assert forall i :: 0 <= i < |bs'| ==> SortKey(bs'[i].price, true) == SortKey(bs[n + i].price, true);
    assert forall i :: 0 <= i < |ss'| ==> SortKey(ss'[i].price, false) == SortKey(ss[m + i].price, false);
  }

  lemma {:induction false} GreedyStep(bs: seq<OrderState>, ss: seq<OrderState>)
    requires bs != [] && ss != [] && Crosses(bs[0], ss[0])
    ensures var q := Min(bs[0].remaining, ss[0].remaining);
            Volume(Greedy(bs, ss).trades) == q + Volume(Greedy(Front(bs, q), Front(ss, q)).trades)
  {
  }

  /** When the best pair does not cross, no pair does. */
  lemma {:induction false} BestStops(bs: seq<OrderState>, ss: seq<OrderState>)
    requires Matchable(bs, ss)
    requires bs == [] || ss == [] || !Crosses(bs[0], ss[0])
    ensures forall i, j :: 0 <= i < |bs| && 0 <= j < |ss| ==> !Crosses(bs[i], ss[j])
  {
  }

  lemma {:induction false} NoCrossNoVolume(bs: seq<OrderState>, ss: seq<OrderState>, p: real)
    requires Positive(bs) && Positive(ss)
    requires forall i, j :: 0 <= i < |bs| && 0 <= j < |ss| ==> !Crosses(bs[i], ss[j])
    ensures VolumeAt(bs, ss, p) == 0
  {
    DemandNone(bs, p);
    SupplyNone(ss, p);
  }

  /** No price lets more trade than the greedy match does. */
  lemma {:induction false} GreedyAtLeast(bs: seq<OrderState>, ss: seq<OrderState>, p: real)
    requires Matchable(bs, ss)
    ensures VolumeAt(bs, ss, p) <= Volume(Greedy(bs, ss).trades)
    decreases |bs| + |ss|
  {
    hide Arranged, Matchable, Demand, Supply;
    if bs == [] || ss == [] || !Crosses(bs[0], ss[0]) {
      BestStops(bs, ss);
      assert Positive(bs) && Positive(ss) by { MatchablePositive(bs, ss); }
      NoCrossNoVolume(bs, ss, p);
    } else {
      MatchablePositive(bs, ss);
      var q := Min(bs[0].remaining, ss[0].remaining);
      MatchableFronts(bs, ss, q);
      GreedyAtLeast(Front(bs, q), Front(ss, q), p);
      FrontDemand(bs, q, p);
      FrontSupply(ss, q, p);
      GreedyStep(bs, ss);
    }
  }

  lemma {:induction false} MatchablePositive(bs: seq<OrderState>, ss: seq<OrderState>)
    requires Matchable(bs, ss)
    ensures Positive(bs) && Positive(ss)
  {
  }

  /** The best pair of a front part of the sides is no better than the best pair. */
  lemma {:induction false} CrossingFront(bs: seq<OrderState>, ss: seq<OrderState>, q: int, i: nat, j: nat)
    returns (i': nat, j': nat)
    requires Matchable(bs, ss) && bs != [] && ss != []
    requires 0 < q <= bs[0].remaining && q <= ss[0].remaining
    requires i < |Front(bs, q)| && j < |Front(ss, q)| && Crosses(Front(bs, q)[i], Front(ss, q)[j])
    ensures i' < |bs| && j' < |ss| && bs[i'].price == Front(bs, q)[i].price && ss[j'].price == Front(ss, q)[j].price
    ensures bs[0].price.Some? && bs[0].price.value >= ss[j'].price.value >= ss[0].price.value
  {
    FrontKeeps(bs, q);
    FrontKeeps(ss, q);
    i', j' := |bs| - |Front(bs, q)| + i, |ss| - |Front(ss, q)| + j;
    hide Front;
    assert SortKey(bs[0].price, true) <= SortKey(bs[i'].price, true);
    assert SortKey(ss[0].price, false) <= SortKey(ss[j'].price, false);
  }

  /** The limit of the last sell traded is a price at which all of the greedy
      volume trades. */
  lemma {:induction false} GreedyAttained(bs: seq<OrderState>, ss: seq<OrderState>) returns (i: nat, j: nat)
    requires Matchable(bs, ss) && Greedy(bs, ss).trades != []
    ensures i < |bs| && j < |ss| && Crosses(bs[i], ss[j])
    ensures VolumeAt(bs, ss, ss[j].price.value as real) >= Volume(Greedy(bs, ss).trades) > 0
    decreases |bs| + |ss|
  {
    hide Matchable, Demand, Supply;
    MatchablePositive(bs, ss);
    var q := Min(bs[0].remaining, ss[0].remaining);
    var bs', ss' := Front(bs, q), Front(ss, q);
    GreedyStep(bs, ss);
    MatchableFronts(bs, ss, q);
    MatchablePositive(bs', ss');
    if Greedy(bs', ss').trades == [] {
      i, j := 0, 0;
      DemandNone(bs', ss[0].price.value as real);
      SupplyNone(ss', ss[0].price.value as real);
    } else {
      i, j := GreedyAttained(bs', ss');
      i, j := CrossingFront(bs, ss, q, i, j);
    }
    FrontDemand(bs, q, ss[j].price.value as real);
    FrontSupply(ss, q, ss[j].price.value as real);
  }

  // ---- the greedy volume is the maximum volume ----

  lemma {:induction false} MaxVolumeUnique(bs: seq<OrderState>, ss: seq<OrderState>, v: int, w: int)
    requires IsMaxVolume(bs, ss, v) && IsMaxVolume(bs, ss, w)
    ensures v == w
  {
  }

  /** Two sides as the batch engine sorts them, market orders allowed. */
  predicate BothArranged(bs: seq<OrderState>, ss: seq<OrderState>) {
    && Positive(bs) && Positive(ss)
    && PositiveLimits(bs) && PositiveLimits(ss)
    && Arranged(bs, true) && Arranged(ss, false)
  }

  lemma {:induction false} GreedyIsMaximum(bs: seq<OrderState>, ss: seq<OrderState>)
    requires Matchable(bs, ss)
    ensures IsMaxVolume(bs, ss, Volume(Greedy(bs, ss).trades))
  {
    hide Matchable, Demand, Supply;
    var v := Volume(Greedy(bs, ss).trades);
    forall p: real
      ensures VolumeAt(bs, ss, p) <= v
    {
      GreedyAtLeast(bs, ss, p);
    }
    if Greedy(bs, ss).trades != [] {
      var i, j := GreedyAttained(bs, ss);
      GreedyAtLeast(bs, ss, ss[j].price.value as real);
      assert VolumeAt(bs, ss, ss[j].price.value as real) == v;
    }
  }

  /** For any batch whatever, market orders included: the greedy match trades the
      maximum volume exactly when no market sell is present or no buy limit
      reaches a sell limit. A market sell sorts first and stops the loop. */
  lemma {:induction false} GreedyIsMaximumIff(bs: seq<OrderState>, ss: seq<OrderState>)
    requires BothArranged(bs, ss)
    ensures IsMaxVolume(bs, ss, Volume(Greedy(bs, ss).trades)) <==>
            AllLimit(ss) || forall i, j :: 0 <= i < |bs| && 0 <= j < |ss| ==> !Crosses(bs[i], ss[j])
  {
    hide Demand, Supply;
    if AllLimit(ss) {
      GreedyIsMaximum(bs, ss);
    } else {
      var k :| 0 <= k < |ss| && ss[k].price.None?;
      assert SortKey(ss[0].price, false) <= SortKey(ss[k].price, false);
      assert ss[0].price.None?;
      assert Greedy(bs, ss).trades == [];
      if i, j :| 0 <= i < |bs| && 0 <= j < |ss| && Crosses(bs[i], ss[j]) {
        var p := ss[j].price.value as real;
        DemandNone(bs, p);
        SupplyNone(ss, p);
        assert VolumeAt(bs, ss, p) > 0;
      } else {
        forall p: real
          ensures VolumeAt(bs, ss, p) == 0
        {
          NoCrossNoVolume(bs, ss, p);
        }
      }
    }
  }

  // ---- the random draw does not matter ----

  lemma {:induction false} DemandDrop(bs: seq<OrderState>, k: nat, p: real)
    requires k < |bs|
    ensures Demand(bs, p) == Demand(bs[..k] + bs[k + 1..], p) +
                             if bs[k].price.Some? && bs[k].price.value as real >= p then bs[k].remaining else 0
    ensures Supply(bs, p) == Supply(bs[..k] + bs[k + 1..], p) +
                             if bs[k].price.Some? && bs[k].price.value as real <= p then bs[k].remaining else 0
  {
    if k > 0 {
      assert (bs[..k] + bs[k + 1..])[1..] == bs[1..][..k - 1] + bs[1..][k..];
      DemandDrop(bs[1..], k - 1, p);
    } else {
      assert bs[..0] + bs[1..] == bs[1..];
    }
  }

  lemma {:induction false} MultisetDrop(xs: seq<OrderState>, k: nat)
    requires k < |xs|
    ensures multiset(xs[..k] + xs[k + 1..]) == multiset(xs) - multiset{xs[k]}
  {
    assert xs == xs[..k] + [xs[k]] + xs[k + 1..];
  }

  lemma {:induction false} HeadElsewhere(xs: seq<OrderState>, ys: seq<OrderState>) returns (k: nat)
    requires multiset(xs) == multiset(ys) && xs != []
    ensures k < |ys| && ys[k] == xs[0] && multiset(xs[1..]) == multiset(ys[..k] + ys[k + 1..])
  {
    assert xs[0] in multiset(ys);
    k :| 0 <= k < |ys| && ys[k] == xs[0];
    MultisetDrop(ys, k);
    assert xs == [xs[0]] + xs[1..];
  }

  lemma {:induction false} SameOrdersSameCurves(xs: seq<OrderState>, ys: seq<OrderState>, p: real)
    requires multiset(xs) == multiset(ys)
    ensures Demand(xs, p) == Demand(ys, p) && Supply(xs, p) == Supply(ys, p)
    decreases |xs|
  {
    if xs == [] {
      assert |multiset(xs)| == |multiset(ys)|;
    } else {
      var k := HeadElsewhere(xs, ys);
      SameOrdersSameCurves(xs[1..], ys[..k] + ys[k + 1..], p);
      DemandDrop(ys, k, p);
    }
  }

  /** Whatever order the draw puts equal prices in, the same quantity trades. */
  lemma {:induction false} DrawDoesNotMatter(bs: seq<OrderState>, ss: seq<OrderState>, bs': seq<OrderState>,
                                             ss': seq<OrderState>)
    requires BothArranged(bs, ss) && BothArranged(bs', ss')
    requires multiset(bs) == multiset(bs') && multiset(ss) == multiset(ss')
    ensures Volume(Greedy(bs, ss).trades) == Volume(Greedy(bs', ss').trades)
  {
    hide Demand, Supply;
    if AllLimit(ss) {
      forall i | 0 <= i < |ss'|
        ensures ss'[i].price.Some?
      {
        assert ss'[i] in multiset(ss);
      }
      GreedyIsMaximum(bs, ss);
      GreedyIsMaximum(bs', ss');
      forall p: real
        ensures VolumeAt(bs, ss, p) == VolumeAt(bs', ss', p)
      {
        SameOrdersSameCurves(bs, bs', p);
        SameOrdersSameCurves(ss, ss', p);
      }
      var v := Volume(Greedy(bs, ss).trades);
      if v > 0 {
        var p: real :| VolumeAt(bs, ss, p) == v;
        assert VolumeAt(bs', ss', p) == v;
      }
      MaxVolumeUnique(bs', ss', v, Volume(Greedy(bs', ss').trades));
    } else {
      var k :| 0 <= k < |ss| && ss[k].price.None?;
      assert ss[k] in multiset(ss');
      var k' :| 0 <= k' < |ss'| && ss'[k'] == ss[k];
      assert SortKey(ss[0].price, false) <= SortKey(ss[k].price, false);
      assert SortKey(ss'[0].price, false) <= SortKey(ss'[k'].price, false);
    }
  }
}
