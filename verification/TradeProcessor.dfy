/** The trade processing service: one aggregated response per order result, with
    the positions settled on the way. */
module TradeProcessing {
  import opened Orders
  import opened PriceTime
  import opened BookLaws
  import opened BatchAccounts
  import opened Positions

  function Value(ts: seq<Trade>): int {
    if ts == [] then 0 else ts[0].price * ts[0].quantity + Value(ts[1..])
  }

  /** The volume-weighted average price. */
  function AveragePrice(ts: seq<Trade>): real
    requires Volume(ts) != 0
  {
    Value(ts) as real / Volume(ts) as real
  }

  lemma {:induction false} ValueBetween(ts: seq<Trade>, lo: int, hi: int)
    requires forall k :: 0 <= k < |ts| ==> ts[k].quantity > 0 && lo <= ts[k].price <= hi
    ensures lo * Volume(ts) <= Value(ts) <= hi * Volume(ts)
    ensures Volume(ts) >= 0 && (ts != [] ==> Volume(ts) > 0)
  {
    if ts == [] {
    } else {
      var p, q, v := ts[0].price, ts[0].quantity, Volume(ts[1..]);
      ValueBetween(ts[1..], lo, hi);
      Scaled(lo, p, q);
      Scaled(p, hi, q);
      Distributes(lo, q, v);
      Distributes(hi, q, v);
    }
  }

  lemma {:induction false} Scaled(a: int, b: int, q: int)
    requires a <= b && q > 0
    ensures a * q <= b * q
  {
  }

  lemma {:induction false} Distributes(a: int, q: int, v: int)
    ensures a * (q + v) == a * q + a * v
  {
  }

  lemma {:induction false} QuotientBetween(n: int, d: int, lo: int, hi: int)
    requires d > 0 && lo * d <= n <= hi * d
    ensures lo as real <= n as real / d as real <= hi as real
  {
  }

  /** The average lies within any bounds on the fill prices, whatever the fills. */
  lemma {:induction false} AverageBetween(ts: seq<Trade>, lo: int, hi: int)
    requires ts != [] && forall k :: 0 <= k < |ts| ==> ts[k].quantity > 0 && lo <= ts[k].price <= hi
    ensures Volume(ts) > 0 && lo as real <= AveragePrice(ts) <= hi as real
  {
    hide Value, Volume;
    ValueBetween(ts, lo, hi);
    QuotientBetween(Value(ts), Volume(ts), lo, hi);
  }

  lemma {:induction false} ValueConcat(a: seq<Trade>, b: seq<Trade>)
    ensures Value(a + b) == Value(a) + Value(b)
  {
    if a == [] {
      assert a + b == b;
    } else {
      assert (a + b)[1..] == a[1..] + b;
      ValueConcat(a[1..], b);
    }
  }

  lemma {:induction false} AverageTimesVolume(ts: seq<Trade>)
    requires Volume(ts) != 0
    ensures AveragePrice(ts) * Volume(ts) as real == Value(ts) as real
  {
  }

  /** What makes it the volume-weighted mean: one fill averages to its own price,
      and fills taken together weigh what their parts weigh. */
  lemma {:induction false} AverageOfOne(t: Trade)
    requires t.quantity > 0
    ensures Volume([t]) == t.quantity && AveragePrice([t]) == t.price as real
  {
    assert [t][1..] == [];
    AverageBetween([t], t.price, t.price);
  }

  lemma {:induction false} AverageOfParts(a: seq<Trade>, b: seq<Trade>)
    requires Volume(a) > 0 && Volume(b) > 0
    ensures Volume(a + b) == Volume(a) + Volume(b)
    ensures AveragePrice(a + b) * Volume(a + b) as real ==
            AveragePrice(a) * Volume(a) as real + AveragePrice(b) * Volume(b) as real
  {
    hide Value, Volume, AveragePrice;
    VolumeConcat(a, b);
    ValueConcat(a, b);
    AverageTimesVolume(a);
    AverageTimesVolume(b);
    AverageTimesVolume(a + b);
  }

  lemma {:induction false} Weighed(ts: seq<Trade>, n: nat)
    requires n < |ts|
    ensures Volume(ts) == ts[n].quantity + Volume(ts[..n] + ts[n + 1..])
    ensures Value(ts) == ts[n].price * ts[n].quantity + Value(ts[..n] + ts[n + 1..])
  {
    assert ts == ts[..n] + ([ts[n]] + ts[n + 1..]);
    assert ([ts[n]] + ts[n + 1..])[1..] == ts[n + 1..];
    VolumeConcat(ts[..n], [ts[n]] + ts[n + 1..]);
    VolumeConcat(ts[..n], ts[n + 1..]);
    ValueConcat(ts[..n], [ts[n]] + ts[n + 1..]);
    ValueConcat(ts[..n], ts[n + 1..]);
  }

  /** Equal bags stay equal when one element leaves both. */
  lemma {:induction false} WithoutOne(ts: seq<Trade>, us: seq<Trade>, n: nat)
    requires multiset(ts) == multiset(us) && ts != [] && n < |us| && us[n] == ts[0]
    ensures multiset(ts[1..]) == multiset(us[..n] + us[n + 1..])
  {
    var t, rest := ts[0], us[..n] + us[n + 1..];
    assert multiset(ts) == multiset{t} + multiset(ts[1..]) by {
      assert ts == [t] + ts[1..];
    }
    assert multiset(us) == multiset{t} + multiset(rest) by {
      assert us == us[..n] + [t] + us[n + 1..];
    }
    assert multiset{t} + multiset(ts[1..]) - multiset{t} == multiset(ts[1..]);
    assert multiset{t} + multiset(rest) - multiset{t} == multiset(rest);
  }

  lemma {:induction false} SameWeight(ts: seq<Trade>, us: seq<Trade>)
    requires multiset(ts) == multiset(us)
    ensures Volume(ts) == Volume(us) && Value(ts) == Value(us)
  {
    if ts == [] {
      assert |us| == |multiset(us)| == 0;
    } else {
      assert ts[0] in multiset(us);
      var n :| 0 <= n < |us| && us[n] == ts[0];
      Weighed(us, n);
      WithoutOne(ts, us, n);
      SameWeight(ts[1..], us[..n] + us[n + 1..]);
    }
  }

  /** The order of the fills does not matter. */
  lemma {:induction false} AverageOfPermuted(ts: seq<Trade>, us: seq<Trade>)
    requires multiset(ts) == multiset(us) && Volume(ts) > 0
    ensures Volume(us) > 0 && AveragePrice(ts) == AveragePrice(us)
  {
    hide Value, Volume;
    SameWeight(ts, us);
  }

  /** The average of fills whose prices only get worse for a side lies between the
      first price and the last. */
  lemma {:induction false} AverageOfWorsening(ts: seq<Trade>, side: Side)
    requires ts != [] && forall k :: 0 <= k < |ts| ==> ts[k].quantity > 0
    requires forall j, k :: 0 <= j < k < |ts| ==> Key(side.Opposite(), ts[j].price) <= Key(side.Opposite(), ts[k].price)
    ensures Volume(ts) > 0
    ensures var avg, first, last := AveragePrice(ts), ts[0].price as real, ts[|ts| - 1].price as real;
            if side.Buy? then first <= avg <= last else last <= avg <= first
  {
    hide Volume, AveragePrice;
    if side.Buy? {
      AverageBetween(ts, ts[0].price, ts[|ts| - 1].price);
    } else {
      AverageBetween(ts, ts[|ts| - 1].price, ts[0].price);
    }
  }

  /** The average of what an incoming order trades lies between its first and its
      last price, and within its own limit. */
  lemma {:induction false} AverageWithinLimit(b: Book, o: OrderState, i: InstrumentId)
    requires BookOk(b, i) && o.WellFormed() && o.instrument == i && !InBook(b, o.id)
    ensures Priced(b)
    ensures var ts := Add(b, o).trades;
            ts != [] ==>
              && Volume(ts) > 0
              && var avg, first, last := AveragePrice(ts), ts[0].price as real, ts[|ts| - 1].price as real;
                 if o.side.Buy?
                 then first <= avg <= last && (o.price.Some? ==> avg <= o.price.value as real)
                 else last <= avg <= first && (o.price.Some? ==> avg >= o.price.value as real)
  {
    hide Volume, AveragePrice, InBook, Walk, Key, BookOk;
    var opp := b.Orders(o.side.Opposite());
    BookPriced(b, i);
    assert SidesOk(o.side, b.Orders(o.side), opp, i) by {
      BookFromSide(b, o.side, i);
    }
    WalkTradesFairly(o, opp, i);
    var ts := Walk(o, opp).trades;
    if ts != [] {
      assert forall k :: 0 <= k < |ts| ==> FairTrade(ts[k], o, opp[k]);
      AverageOfWorsening(ts, o.side);
      assert Accepts(o, ts[|ts| - 1].price) && Accepts(o, ts[0].price);
    }
  }

  /** The other team of a trade and the sign of its position change, told from
      the order id. */
  function CounterpartyInfo(t: Trade, order: OrderId): (TeamId, int) {
    if order == t.buyOrder then (t.seller, -1) else (t.buyer, 1)
  }

  function CounterEffect(ts: seq<Trade>, m: Message, who: TeamId, i: InstrumentId): int {
    if ts == [] then 0
    else
      var (other, sign) := CounterpartyInfo(ts[0], m.order.id);
      (if other != m.team && who == other && i == m.order.instrument then sign * ts[0].quantity else 0)
      + CounterEffect(ts[1..], m, who, i)
  }

  lemma {:induction false} CounterEffectSnoc(ts: seq<Trade>, t: Trade, m: Message, who: TeamId, i: InstrumentId)
    ensures CounterEffect(ts + [t], m, who, i) == CounterEffect(ts, m, who, i) + CounterEffect([t], m, who, i)
  {
    if ts == [] {
      assert [] + [t] == [t];
    } else {
      assert (ts + [t])[1..] == ts[1..] + [t];
      CounterEffectSnoc(ts[1..], t, m, who, i);
    }
  }

  method UpdateCounterparties(m: Message, service: PositionService)
    modifies service
    ensures forall who, i ::
              At(service.positions, who, i) == At(old(service.positions), who, i) + CounterEffect(m.fills, m, who, i)
  {
    hide At;
    var n := 0;
    assert m.fills[..0] == [];
    while n < |m.fills|
      invariant n <= |m.fills|
      invariant forall who, i ::
                  At(service.positions, who, i) == At(old(service.positions), who, i)
                    + CounterEffect(m.fills[..n], m, who, i)
    {
      var t := m.fills[n];
      var (other, sign) := CounterpartyInfo(t, m.order.id);
      if other != m.team {
        service.UpdatePosition(other, m.order.instrument, sign * t.quantity);
      }
      forall who, i
        ensures CounterEffect(m.fills[..n + 1], m, who, i) ==
                CounterEffect(m.fills[..n], m, who, i) +
                if other != m.team && who == other && i == m.order.instrument then sign * t.quantity else 0
      {
        assert m.fills[..n + 1] == m.fills[..n] + [t] && [t][1..] == [];
        CounterEffectSnoc(m.fills[..n], t, m, who, i);
      }
      n := n + 1;
    }
    assert m.fills[..|m.fills|] == m.fills;
  }

  /** Settling the total at once and then every counterparty is settling fill by
      fill, as the tracker does. */
  lemma {:induction false} SettlesAlike(ts: seq<Trade>, m: Message, who: TeamId, i: InstrumentId)
    requires OwnFills(m.(fills := ts))
    ensures FillsEffect(ts, m, who, i) ==
            CounterEffect(ts, m, who, i) + if who == m.team && i == m.order.instrument
              then Signed(m.order.side, Volume(ts)) else 0
  {
    if ts == [] {
    } else {
      assert forall k :: 0 <= k < |ts| - 1 ==> ts[1..][k] == ts[k + 1];
      SettlesAlike(ts[1..], m, who, i);
    }
  }

  /** One order result: the response's quantity and average, and the positions
      exactly as the tracker would leave them. */
  method ProcessTradeResult(m: Message, service: PositionService) returns (filled: int, average: Option<real>)
    requires forall k :: 0 <= k < |m.fills| ==> m.fills[k].quantity > 0
    modifies service
    ensures filled == Volume(m.fills)
    ensures average.None? <==> m.fills == []
    ensures average.Some? ==> Volume(m.fills) > 0 && average.value == AveragePrice(m.fills)
    ensures OwnFills(m) ==>
              forall who, i ::
                At(service.positions, who, i) == At(old(service.positions), who, i) + FillsEffect(m.fills, m, who, i)
  {
    hide At, Volume, CounterEffect, FillsEffect, AveragePrice;
    NoFills(m);
    filled := Volume(m.fills);
    average := None;
    if filled > 0 {
      service.UpdatePosition(m.team, m.order.instrument, if m.order.side.Buy? then filled else -filled);
      UpdateCounterparties(m, service);
      average := Some(AveragePrice(m.fills));
    }
    if OwnFills(m) {
      forall who, i
        ensures FillsEffect(m.fills, m, who, i) ==
                CounterEffect(m.fills, m, who, i) +
                if who == m.team && i == m.order.instrument then Signed(m.order.side, filled) else 0
      {
        SettlesAlike(m.fills, m, who, i);
      }
    }
  }

  lemma {:induction false} NoFills(m: Message)
    requires forall k :: 0 <= k < |m.fills| ==> m.fills[k].quantity > 0
    ensures Volume(m.fills) > 0 <==> m.fills != []
    ensures m.fills == [] ==> Volume(m.fills) == 0 && forall who, i :: CounterEffect(m.fills, m, who, i) == 0
    decreases |m.fills|
  {
    if m.fills == [] {
    } else {
      NoFills(m.(fills := m.fills[1..]));
    }
  }
}
