/** The maximum-volume clearing price: try the order prices between the lowest
    ask and the highest bid, keep the best, settle ties at the midpoint. */
module ClearingPrice {
  import opened Collections
  import opened Orders
  import opened BatchAuction

  datatype Clearing = Clearing(price: real, maxVolume: int, range: Option<(real, real)>)

  /** The strategy counts an order's full size. */
  function Whole(xs: seq<OrderState>): (ys: seq<OrderState>)
    ensures |ys| == |xs|
    ensures forall i :: 0 <= i < |xs| ==> ys[i] == xs[i].(remaining := xs[i].quantity)
  {
    if xs == [] then [] else [xs[0].(remaining := xs[0].quantity)] + Whole(xs[1..])
  }

  /** Volume of full sizes at a price. */
  function VolumeAtPrice(bids: seq<OrderState>, asks: seq<OrderState>, price: real): int {
    VolumeAt(Whole(bids), Whole(asks), price)
  }

  predicate Valid(xs: seq<OrderState>) {
    forall i :: 0 <= i < |xs| ==> xs[i].WellFormed()
  }

  ghost predicate PriceOf(xs: seq<OrderState>, p: int) {
    exists i :: 0 <= i < |xs| && xs[i].price == Some(p)
  }

  function MaxPrice(xs: seq<OrderState>): (m: Option<int>)
    ensures m.None? <==> forall i :: 0 <= i < |xs| ==> xs[i].price.None?
    ensures m.Some? ==> PriceOf(xs, m.value)
    ensures m.Some? ==> forall i :: 0 <= i < |xs| && xs[i].price.Some? ==> xs[i].price.value <= m.value
  {
    if xs == [] then None
    else
      var rest := MaxPrice(xs[1..]);
      assert forall i :: 1 <= i < |xs| ==> xs[i] == xs[1..][i - 1];
      var m := if xs[0].price.None? then rest
               else if rest.Some? && rest.value >= xs[0].price.value then rest else xs[0].price;
      assert m.Some? && m == xs[0].price ==> PriceOf(xs, m.value);
      m
  }

  function MinPrice(xs: seq<OrderState>): (m: Option<int>)
    ensures m.None? <==> forall i :: 0 <= i < |xs| ==> xs[i].price.None?
    ensures m.Some? ==> PriceOf(xs, m.value)
    ensures m.Some? ==> forall i :: 0 <= i < |xs| && xs[i].price.Some? ==> xs[i].price.value >= m.value
  {
    if xs == [] then None
    else
      var rest := MinPrice(xs[1..]);
      assert forall i :: 1 <= i < |xs| ==> xs[i] == xs[1..][i - 1];
      var m := if xs[0].price.None? then rest
               else if rest.Some? && rest.value <= xs[0].price.value then rest else xs[0].price;
      assert m.Some? && m == xs[0].price ==> PriceOf(xs, m.value);
      m
  }

  /** (lowest ask, highest bid) when they overlap; an error when a side has no limit price at all. */
  function FindCrossingRange(bids: seq<OrderState>, asks: seq<OrderState>): Result<Option<(int, int)>> {
    var maxBid, minAsk := MaxPrice(bids), MinPrice(asks);
    if maxBid.None? || minAsk.None? then Err(NoLimitPrices)
    else if maxBid.value < minAsk.value then Ok(None)
    else Ok(Some((minAsk.value, maxBid.value)))
  }

  ghost predicate Candidate(bids: seq<OrderState>, asks: seq<OrderState>, lo: int, hi: int, p: int) {
    lo <= p <= hi && (PriceOf(bids, p) || PriceOf(asks, p))
  }

  method CollectCrossingPrices(bids: seq<OrderState>, asks: seq<OrderState>, lo: int, hi: int) returns (ps: set<int>)
    ensures forall p :: p in ps <==> Candidate(bids, asks, lo, hi, p)
  {
    ps := {};
    var all := bids + asks;
    var i := 0;
    while i < |all|
      invariant i <= |all|
      invariant forall p :: p in ps <==> lo <= p <= hi && exists k :: 0 <= k < i && all[k].price == Some(p)
    {
      if all[i].price.Some? && lo <= all[i].price.value <= hi {
        ps := ps + {all[i].price.value};
      }
      i := i + 1;
    }
    forall p
      ensures PriceOf(bids, p) || PriceOf(asks, p) <==> exists k :: 0 <= k < |all| && all[k].price == Some(p)
    {
      if k :| 0 <= k < |bids| && bids[k].price == Some(p) {
        assert all[k].price == Some(p);
      }
      if k :| 0 <= k < |asks| && asks[k].price == Some(p) {
        assert all[|bids| + k].price == Some(p);
      }
    }
  }

  /** The candidates with the largest volume, or nothing when that is 0. */
  method FindOptimalPrices(bids: seq<OrderState>, asks: seq<OrderState>, ps: set<int>)
    returns (r: Option<(seq<int>, int)>)
    ensures r.None? <==> forall p :: p in ps ==> VolumeAtPrice(bids, asks, p as real) <= 0
    ensures r.Some? ==>
              var (best, v) := r.value;
              && best != [] && v > 0
              && (forall i, j :: 0 <= i < j < |best| ==> best[i] != best[j])
              && (forall p :: p in best <==> p in ps && VolumeAtPrice(bids, asks, p as real) == v)
              && (forall p :: p in ps ==> VolumeAtPrice(bids, asks, p as real) <= v)
  {
    hide VolumeAtPrice;
    var best: seq<int>, v := [], 0;
    var todo := ps;
    while todo != {}
      invariant todo <= ps && v >= 0
      invariant forall p :: p in ps && p !in todo ==> VolumeAtPrice(bids, asks, p as real) <= v
      invariant v == 0 ==> best == []
      invariant v > 0 ==> best != []
      invariant forall p :: p in best <==> v > 0 && p in ps && p !in todo && VolumeAtPrice(bids, asks, p as real) == v
      invariant forall i, j :: 0 <= i < j < |best| ==> best[i] != best[j]
    {
      ghost var _ := SomeIn(todo);
      var p :| p in todo;
      todo := todo - {p};
      var w := VolumeAtPrice(bids, asks, p as real);
      if w > v {
        best, v := [p], w;
      } else if w == v && v > 0 {
        best := best + [p];
      }
    }
    assert v > 0 ==> best[0] in best && VolumeAtPrice(bids, asks, best[0] as real) == v;
    r := if v == 0 then None else Some((best, v));
  }

  function Least(ps: seq<int>): (m: int)
    requires ps != []
    ensures m in ps && forall p :: p in ps ==> m <= p
  {
    if |ps| == 1 then ps[0]
    else
      var m := Least(ps[1..]);
      assert forall p :: p in ps <==> p == ps[0] || p in ps[1..];
      if ps[0] <= m then ps[0] else m
  }

  function Greatest(ps: seq<int>): (m: int)
    requires ps != []
    ensures m in ps && forall p :: p in ps ==> p <= m
  {
    if |ps| == 1 then ps[0]
    else
      var m := Greatest(ps[1..]);
      assert forall p :: p in ps <==> p == ps[0] || p in ps[1..];
      if ps[0] >= m then ps[0] else m
  }

  function SelectClearingPrice(ps: seq<int>): real
    requires ps != []
  {
    if |ps| == 1 then ps[0] as real
    else (Least(ps) as real + Greatest(ps) as real) / 2.0
  }

  // ---- why order prices are enough, and why the midpoint is safe ----

  lemma {:induction false} CurvesMonotone(xs: seq<OrderState>, p: real, q: real)
    requires Positive(xs) && p <= q
    ensures Demand(xs, q) <= Demand(xs, p) && Supply(xs, p) <= Supply(xs, q)
  {
    if xs == [] {
    } else {
      CurvesMonotone(xs[1..], p, q);
    }
  }

  /** Volume is quasi-concave: between two prices it never drops below both. */
  lemma {:induction false} VolumeBetween(bs: seq<OrderState>, ss: seq<OrderState>, p: real, x: real, q: real)
    requires Positive(bs) && Positive(ss) && p <= x <= q
    ensures VolumeAt(bs, ss, x) >= Min(VolumeAt(bs, ss, p), VolumeAt(bs, ss, q))
  {
    CurvesMonotone(bs, x, q);
    CurvesMonotone(ss, p, x);
  }

  /** The lowest buy limit at or above a price with demand sees the same demand. */
  lemma {:induction false} NextBidPrice(bs: seq<OrderState>, x: real) returns (c: int)
    requires Positive(bs) && Demand(bs, x) > 0
    ensures PriceOf(bs, c) && c as real >= x && Demand(bs, c as real) == Demand(bs, x)
    ensures forall i :: 0 <= i < |bs| && bs[i].price.Some? && bs[i].price.value as real >= x ==> bs[i].price.value >= c
  {
    DemandNone(bs, x);
    DemandNone(bs[1..], x);
    assert forall i :: 1 <= i < |bs| ==> bs[i] == bs[1..][i - 1];
    if Demand(bs[1..], x) > 0 {
      c := NextBidPrice(bs[1..], x);
      var k :| 0 <= k < |bs[1..]| && bs[1..][k].price == Some(c);
      assert bs[k + 1].price == Some(c);
      if bs[0].price.Some? && x <= bs[0].price.value as real < c as real {
        SameDemand(bs[1..], x, bs[0].price.value as real, c as real);
        c := bs[0].price.value;
      }
    } else {
      c := bs[0].price.value;
      CurvesMonotone(bs[1..], x, c as real);
      DemandNone(bs[1..], c as real);
    }
  }

  lemma {:induction false} SameDemand(bs: seq<OrderState>, p: real, x: real, q: real)
    requires Positive(bs) && p <= x <= q && Demand(bs, p) == Demand(bs, q)
    ensures Demand(bs, x) == Demand(bs, p)
  {
    CurvesMonotone(bs, p, x);
    CurvesMonotone(bs, x, q);
  }

  /** Searching order prices between the lowest ask and the highest bid loses nothing. */
  lemma {:induction false} CandidatesSuffice(bids: seq<OrderState>, asks: seq<OrderState>, x: real) returns (c: int)
    requires Valid(bids) && Valid(asks) && VolumeAtPrice(bids, asks, x) > 0
    ensures MaxPrice(bids).Some? && MinPrice(asks).Some?
    ensures Candidate(bids, asks, MinPrice(asks).value, MaxPrice(bids).value, c)
    ensures VolumeAtPrice(bids, asks, c as real) >= VolumeAtPrice(bids, asks, x)
  {
    var bs, ss := Whole(bids), Whole(asks);
    c := NextBidPrice(bs, x);
    var k :| 0 <= k < |bs| && bs[k].price == Some(c);
    assert bids[k].price == Some(c);
    CurvesMonotone(ss, x, c as real);
    SupplyNone(ss, x);
    var j :| 0 <= j < |ss| && ss[j].price.Some? && ss[j].price.value as real <= x;
    assert asks[j].price == ss[j].price;
  }

  lemma {:induction false} NoCandidateNoVolume(bids: seq<OrderState>, asks: seq<OrderState>, x: real)
    requires Valid(bids) && Valid(asks)
    requires MaxPrice(bids).None? || MinPrice(asks).None? || MaxPrice(bids).value < MinPrice(asks).value
    ensures VolumeAtPrice(bids, asks, x) == 0
  {
    DemandNone(Whole(bids), x);
    SupplyNone(Whole(asks), x);
    if VolumeAtPrice(bids, asks, x) > 0 {
      var c := CandidatesSuffice(bids, asks, x);
    }
  }

  /** The order prices at which a volume trades reach from `lo` to `hi`. */
  ghost predicate Reaches(bids: seq<OrderState>, asks: seq<OrderState>, v: int, lo: int, hi: int) {
    && Trades(bids, asks, v, lo) && Trades(bids, asks, v, hi)
    && forall p :: Trades(bids, asks, v, p) ==> lo <= p <= hi
  }

  ghost predicate Trades(bids: seq<OrderState>, asks: seq<OrderState>, v: int, p: int) {
    (PriceOf(bids, p) || PriceOf(asks, p)) && VolumeAtPrice(bids, asks, p as real) == v
  }

  /** An order price at which something trades lies in the crossing range. */
  lemma {:induction false} TradesInRange(bids: seq<OrderState>, asks: seq<OrderState>, lo: int, hi: int, v: int, p: int)
    requires Valid(bids) && Valid(asks) && FindCrossingRange(bids, asks) == Ok(Some((lo, hi)))
    requires v > 0 && Trades(bids, asks, v, p)
    ensures Candidate(bids, asks, lo, hi, p)
  {
    var bs, ss := Whole(bids), Whole(asks);
    DemandNone(bs, p as real);
    SupplyNone(ss, p as real);
    var i :| 0 <= i < |bs| && bs[i].price.Some? && bs[i].price.value as real >= p as real;
    var j :| 0 <= j < |ss| && ss[j].price.Some? && ss[j].price.value as real <= p as real;
    assert bids[i].price == bs[i].price && asks[j].price == ss[j].price;
  }

  /** The reported volume is the most any real price allows, and nothing trades
      at 0. The range reaches over all order prices that allow it, and is missing
      when there is only one; the clearing price is its middle, and every price in
      between allows the same volume. */
  method CalculateClearingPrice(bids: seq<OrderState>, asks: seq<OrderState>) returns (r: Result<Clearing>)
    requires Valid(bids) && Valid(asks)
    ensures r.Err? <==> bids != [] && asks != [] && (MaxPrice(bids).None? || MinPrice(asks).None?)
    ensures r.Ok? ==> IsMaxVolume(Whole(bids), Whole(asks), r.value.maxVolume)
    ensures r.Ok? && r.value.maxVolume == 0 ==> r.value.price == 0.0 && r.value.range.None?
    ensures r.Ok? && r.value.maxVolume > 0 ==>
              && r.value.price > 0.0 && VolumeAtPrice(bids, asks, r.value.price) == r.value.maxVolume
              && exists lo, hi ::
                   && Reaches(bids, asks, r.value.maxVolume, lo, hi)
                   && r.value.price == (lo as real + hi as real) / 2.0
                   && r.value.range == if lo < hi then Some((lo as real, hi as real)) else None
    ensures r.Ok? && r.value.range.Some? ==>
              var (lo, hi) := r.value.range.value;
              && lo < hi && r.value.price == (lo + hi) / 2.0
              && (forall x: real :: lo <= x <= hi ==> VolumeAtPrice(bids, asks, x) == r.value.maxVolume)
  {
    hide Demand, Supply, VolumeAt;
    if bids == [] || asks == [] {
      NothingTrades(bids, asks);
      return Ok(Clearing(0.0, 0, None));
    }
    var range := FindCrossingRange(bids, asks);
    if range.Err? {
      return Err(range.error);
    }
    if range.value.None? {
      NothingTrades(bids, asks);
      return Ok(Clearing(0.0, 0, None));
    }
    var (lo, hi) := range.value.value;
    var ps := CollectCrossingPrices(bids, asks, lo, hi);
    var found := FindOptimalPrices(bids, asks, ps);
    if found.None? {
      CrossingTrades(bids, asks, lo, hi);
      assert false;
    }
    var (best, v) := found.value;
    BestIsMaximum(bids, asks, lo, hi, best, v);
    BestReaches(bids, asks, lo, hi, best, v);
    var price := SelectClearingPrice(best);
    r := Ok(Clearing(price, v, if |best| > 1 then Some((Least(best) as real, Greatest(best) as real)) else None));
  }

  lemma {:induction false} BestReaches(bids: seq<OrderState>, asks: seq<OrderState>, lo: int, hi: int, best: seq<int>,
                                       v: int)
    requires Valid(bids) && Valid(asks) && FindCrossingRange(bids, asks) == Ok(Some((lo, hi)))
    requires best != [] && v > 0 && forall i, j :: 0 <= i < j < |best| ==> best[i] != best[j]
    requires forall p :: p in best <==> Candidate(bids, asks, lo, hi, p) && VolumeAtPrice(bids, asks, p as real) == v
    ensures Reaches(bids, asks, v, Least(best), Greatest(best))
    ensures |best| > 1 <==> Least(best) < Greatest(best)
  {
    hide VolumeAtPrice, FindCrossingRange;
    forall p | Trades(bids, asks, v, p)
      ensures p in best
    {
      TradesInRange(bids, asks, lo, hi, v, p);
    }
    if |best| > 1 {
      assert best[0] in best && best[1] in best;
    }
  }

  lemma {:induction false} NothingTrades(bids: seq<OrderState>, asks: seq<OrderState>)
    requires Valid(bids) && Valid(asks)
    requires MaxPrice(bids).None? || MinPrice(asks).None? || MaxPrice(bids).value < MinPrice(asks).value
    ensures IsMaxVolume(Whole(bids), Whole(asks), 0)
  {
    hide VolumeAt;
    forall x: real
      ensures VolumeAt(Whole(bids), Whole(asks), x) == 0
    {
      NoCandidateNoVolume(bids, asks, x);
    }
  }

  /** Overlapping sides always trade something at the lowest ask. */
  lemma {:induction false} CrossingTrades(bids: seq<OrderState>, asks: seq<OrderState>, lo: int, hi: int)
    requires Valid(bids) && Valid(asks) && FindCrossingRange(bids, asks) == Ok(Some((lo, hi)))
    ensures Candidate(bids, asks, lo, hi, lo) && VolumeAtPrice(bids, asks, lo as real) > 0
  {
    var bs, ss := Whole(bids), Whole(asks);
    DemandNone(bs, lo as real);
    SupplyNone(ss, lo as real);
    var i :| 0 <= i < |bids| && bids[i].price == Some(hi);
    var j :| 0 <= j < |asks| && asks[j].price == Some(lo);
    assert bs[i].price == Some(hi) && ss[j].price == Some(lo);
  }

  /** The best candidates are best over all real prices, and everything between
      them is as good. */
  lemma {:induction false} BestIsMaximum(bids: seq<OrderState>, asks: seq<OrderState>, lo: int, hi: int,
                                         best: seq<int>, v: int)
    requires Valid(bids) && Valid(asks) && FindCrossingRange(bids, asks) == Ok(Some((lo, hi)))
    requires best != [] && v > 0
    requires forall p :: p in best ==> Candidate(bids, asks, lo, hi, p) && VolumeAtPrice(bids, asks, p as real) == v
    requires forall p :: Candidate(bids, asks, lo, hi, p) ==> VolumeAtPrice(bids, asks, p as real) <= v
    ensures IsMaxVolume(Whole(bids), Whole(asks), v)
    ensures 0 < Least(best) <= Greatest(best)
    ensures forall x: real :: Least(best) as real <= x <= Greatest(best) as real ==> VolumeAtPrice(bids, asks, x) == v
  {
    hide VolumeAt, Demand, Supply;
    forall x: real
      ensures VolumeAt(Whole(bids), Whole(asks), x) <= v
      ensures Least(best) as real <= x <= Greatest(best) as real ==> VolumeAt(Whole(bids), Whole(asks), x) == v
    {
      if VolumeAtPrice(bids, asks, x) > 0 {
        var c := CandidatesSuffice(bids, asks, x);
      }
      if Least(best) as real <= x <= Greatest(best) as real {
        VolumeBetween(Whole(bids), Whole(asks), Least(best) as real, x, Greatest(best) as real);
      }
    }
    assert VolumeAtPrice(bids, asks, Least(best) as real) == v;
    var j :| 0 <= j < |asks| && asks[j].price == Some(lo);
  }

  // ---- the two algorithms agree ----

  lemma {:induction false} WholeFresh(xs: seq<OrderState>)
    requires forall i :: 0 <= i < |xs| ==> xs[i].Fresh()
    ensures Whole(xs) == xs
  {
  }

  /** Earlier fills do not matter to the strategy: partly filled orders weigh as
      the same orders fresh do. */
  lemma {:induction false} FillsDoNotMatter(bids: seq<OrderState>, asks: seq<OrderState>, bs: seq<OrderState>,
                                            ss: seq<OrderState>, p: real)
    requires |bs| == |bids| && |ss| == |asks|
    requires forall i :: 0 <= i < |bs| ==> bs[i].Fresh() && SameTerms(bs[i], bids[i])
    requires forall i :: 0 <= i < |ss| ==> ss[i].Fresh() && SameTerms(ss[i], asks[i])
    ensures VolumeAtPrice(bids, asks, p) == VolumeAt(bs, ss, p)
  {
    hide VolumeAt;
    assert Whole(bids) == bs && Whole(asks) == ss;
  }

  lemma {:induction false} CurvesOfDraw(bids: seq<OrderState>, asks: seq<OrderState>, bs: seq<OrderState>,
                                        ss: seq<OrderState>, v: int)
    requires multiset(bs) == multiset(bids) && multiset(ss) == multiset(asks)
    ensures IsMaxVolume(bids, asks, v) <==> IsMaxVolume(bs, ss, v)
  {
    hide Demand, Supply;
    forall p: real
      ensures VolumeAt(bids, asks, p) == VolumeAt(bs, ss, p)
    {
      SameOrdersSameCurves(bs, bids, p);
      SameOrdersSameCurves(ss, asks, p);
    }
  }

  /** For any fresh batch and any outcome of the draw: the two-pointer match
      trades exactly the strategy's maximum volume if and only if there is no
      market sell or no buy limit reaches a sell limit. */
  lemma {:induction false} EngineTradesMaximum(bids: seq<OrderState>, asks: seq<OrderState>,
                                               bs: seq<OrderState>, ss: seq<OrderState>, v: int)
    requires forall i :: 0 <= i < |bids| ==> bids[i].Fresh()
    requires forall i :: 0 <= i < |asks| ==> asks[i].Fresh()
    requires multiset(bs) == multiset(bids) && multiset(ss) == multiset(asks) && BothArranged(bs, ss)
    requires IsMaxVolume(Whole(bids), Whole(asks), v)
    ensures Volume(Greedy(bs, ss).trades) == v <==>
            AllLimit(ss) || forall i, j :: 0 <= i < |bs| && 0 <= j < |ss| ==> !Crosses(bs[i], ss[j])
  {
    hide IsMaxVolume, BothArranged, Greedy;
    WholeFresh(bids);
    WholeFresh(asks);
    CurvesOfDraw(bids, asks, bs, ss, v);
    GreedyIsMaximumIff(bs, ss);
    if IsMaxVolume(bs, ss, Volume(Greedy(bs, ss).trades)) {
      MaxVolumeUnique(bs, ss, v, Volume(Greedy(bs, ss).trades));
    }
  }
}
