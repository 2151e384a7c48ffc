/** The limit order book as a flat price-time priority list: what `OrderBook` refines.

    A side of the book is one sequence of resting orders, best price first and
    first-in first-out within a price. */
module PriceTime {
  import opened Orders

  /** Smaller keys have priority: the highest bid, the lowest ask. */
  function Key(side: Side, price: int): int {
    if side.Buy? then -price else price
  }

  /** The book of one instrument, with every trade it ever recorded. */
  datatype Book = Book(bids: seq<OrderState>, asks: seq<OrderState>, log: seq<Trade>) {
    function Orders(side: Side): seq<OrderState> {
      if side.Buy? then bids else asks
    }

    function With(side: Side, xs: seq<OrderState>): Book {
      if side.Buy? then this.(bids := xs) else this.(asks := xs)
    }
  }

  const EMPTY_BOOK := Book([], [], [])

  // ---- the invariant ----

  predicate Resting(x: OrderState, side: Side, instrument: InstrumentId) {
    && x.WellFormed()
    && x.remaining > 0
    && x.price.Some?
    && x.side == side
    && x.instrument == instrument
  }

  predicate SideOk(xs: seq<OrderState>, side: Side, instrument: InstrumentId) {
    && (forall i :: 0 <= i < |xs| ==> Resting(xs[i], side, instrument))
    && (forall i, j :: 0 <= i < j < |xs| ==>
          Key(side, xs[i].price.value) <= Key(side, xs[j].price.value))
    && UniqueIds(xs)
  }

  predicate Uncrossed(bids: seq<OrderState>, asks: seq<OrderState>)
    requires forall i :: 0 <= i < |bids| ==> bids[i].price.Some?
    requires forall j :: 0 <= j < |asks| ==> asks[j].price.Some?
  {
    forall i, j :: 0 <= i < |bids| && 0 <= j < |asks| ==> bids[i].price.value < asks[j].price.value
  }

  predicate DisjointIds(xs: seq<OrderState>, ys: seq<OrderState>) {
    forall i, j :: 0 <= i < |xs| && 0 <= j < |ys| ==> xs[i].id != ys[j].id
  }

  predicate BookOk(b: Book, instrument: InstrumentId) {
    && SideOk(b.bids, Buy, instrument)
    && SideOk(b.asks, Sell, instrument)
    && Uncrossed(b.bids, b.asks)
    && DisjointIds(b.bids, b.asks)
  }

  ghost predicate InBook(b: Book, id: OrderId) {
    HasId(b.bids, id) || HasId(b.asks, id)
  }

  // ---- matching ----

  /** Whether an order is willing to trade at the price of a resting order. */
  predicate Accepts(o: OrderState, price: int) {
    o.price.Some? ==> if o.side.Buy? then price <= o.price.value else price >= o.price.value
  }

  function TradeBetween(o: OrderState, resting: OrderState, q: int): Trade
    requires resting.price.Some?
  {
    if o.side.Buy?
    then Trade(o.instrument, o.trader, resting.trader, resting.price.value, q, o.id, resting.id, Buy)
    else Trade(o.instrument, resting.trader, o.trader, resting.price.value, q, resting.id, o.id, Sell)
  }

  datatype Matched = Matched(trades: seq<Trade>, order: OrderState, rest: seq<OrderState>)

  /** The greedy walk: fill from the front of the opposite side until the order
      is filled, the side is exhausted, or the next price is unacceptable. */
  function Walk(o: OrderState, opp: seq<OrderState>): (m: Matched)
    requires forall i :: 0 <= i < |opp| ==> opp[i].price.Some?
    ensures SameTerms(m.order, o)
    ensures forall i :: 0 <= i < |m.rest| ==> m.rest[i].price.Some?
    ensures |m.rest| <= |opp| <= |m.rest| + |m.trades|
    decreases |opp|
  {
    if o.remaining == 0 || opp == [] || !Accepts(o, opp[0].price.value) then
      Matched([], o, opp)
    else
      var q := Min(o.remaining, opp[0].remaining);
      var t := TradeBetween(o, opp[0], q);
      if q == opp[0].remaining then
        var m := Walk(o.Filled(q), opp[1..]);
        m.(trades := [t] + m.trades)
      else
        Matched([t], o.Filled(q), [opp[0].Filled(q)] + opp[1..])
  }

  /** One round of the walk. */
  function Front(xs: seq<OrderState>, q: int): seq<OrderState>
    requires xs != []
  {
    if q == xs[0].remaining then xs[1..] else [xs[0].Filled(q)] + xs[1..]
  }

  lemma {:induction false} WalkStep(o: OrderState, opp: seq<OrderState>)
    requires forall i :: 0 <= i < |opp| ==> opp[i].price.Some?
    requires o.remaining > 0 && opp != [] && Accepts(o, opp[0].price.value)
    ensures var q := Min(o.remaining, opp[0].remaining);
            && (forall i :: 0 <= i < |Front(opp, q)| ==> Front(opp, q)[i].price.Some?)
            && var m := Walk(o.Filled(q), Front(opp, q));
               Walk(o, opp) == m.(trades := [TradeBetween(o, opp[0], q)] + m.trades)
  {
  }

  lemma {:induction false} WalkStops(o: OrderState, opp: seq<OrderState>)
    requires forall i :: 0 <= i < |opp| ==> opp[i].price.Some?
    requires o.remaining == 0 || opp == [] || !Accepts(o, opp[0].price.value)
    ensures Walk(o, opp) == Matched([], o, opp)
  {
  }

  /** How many orders of a side have priority over a newcomer at this price. */
  function Rank(xs: seq<OrderState>, side: Side, price: int): (n: nat)
    requires forall i :: 0 <= i < |xs| ==> xs[i].price.Some?
    ensures n <= |xs|
  {
    if xs == [] || Key(side, xs[0].price.value) > Key(side, price) then 0
    else 1 + Rank(xs[1..], side, price)
  }

  /** A newcomer queues behind every order at its own price or better. */
  function Insert(xs: seq<OrderState>, o: OrderState): seq<OrderState>
    requires forall i :: 0 <= i < |xs| ==> xs[i].price.Some?
    requires o.price.Some?
  {
    var n := Rank(xs, o.side, o.price.value);
    xs[..n] + [o] + xs[n..]
  }

  datatype Added = Added(book: Book, order: OrderState, trades: seq<Trade>)

  predicate Priced(b: Book) {
    && (forall i :: 0 <= i < |b.bids| ==> b.bids[i].price.Some?)
    && (forall i :: 0 <= i < |b.asks| ==> b.asks[i].price.Some?)
  }

  function Add(b: Book, o: OrderState): (a: Added)
    requires Priced(b)
    ensures Priced(a.book) && SameTerms(a.order, o) && a.book.log == b.log + a.trades
  {
    var m := Walk(o, b.Orders(o.side.Opposite()));
    var matched := b.With(o.side.Opposite(), m.rest).(log := b.log + m.trades);
    var book := if m.order.remaining != 0 && o.price.Some?
                then matched.With(o.side, Insert(matched.Orders(o.side), m.order))
                else matched;
    Added(book, m.order, m.trades)
  }

  /** The orders resting at one price. */
  function AtPrice(xs: seq<OrderState>, price: int): seq<OrderState> {
    if xs == [] then []
    else (if xs[0].price == Some(price) then [xs[0]] else []) + AtPrice(xs[1..], price)
  }

  function Without(xs: seq<OrderState>, id: OrderId): seq<OrderState> {
    if xs == [] then []
    else if xs[0].id == id then xs[1..]
    else [xs[0]] + Without(xs[1..], id)
  }

  function Cancel(b: Book, id: OrderId): Book {
    b.(bids := Without(b.bids, id), asks := Without(b.asks, id))
  }

  // ---- the walk is the price-time priority allocation ----

  /** What price-time priority owes the k-th resting order, defined without any
      walk: whatever the better-placed orders leave over, within its own size. */
  function Share(o: OrderState, opp: seq<OrderState>, k: nat): int
    requires k < |opp| && opp[k].price.Some?
  {
    if !Accepts(o, opp[k].price.value) then 0
    else
      var left := o.remaining - SumRemaining(opp[..k]);
      if left <= 0 then 0 else Min(left, opp[k].remaining)
  }

  lemma {:induction false} SumRemainingPrefix(xs: seq<OrderState>, k: nat)
    requires k <= |xs|
    requires forall i :: 0 <= i < |xs| ==> xs[i].remaining > 0
    ensures SumRemaining(xs[..k]) >= 0
    ensures k > 0 ==> SumRemaining(xs[..k]) == xs[0].remaining + SumRemaining(xs[1..][..k - 1])
    ensures k > 0 ==> SumRemaining(xs[..k]) >= xs[0].remaining
  {
    if k > 0 {
      assert xs[..k][1..] == xs[1..][..k - 1];
      SumRemainingPrefix(xs[1..], k - 1);
    }
  }

  lemma {:induction false} SharesAfterHead(o: OrderState, opp: seq<OrderState>, q: int)
    requires |opp| > 0 && forall i :: 0 <= i < |opp| ==> opp[i].price.Some? && opp[i].remaining > 0
    requires q == opp[0].remaining
    ensures forall k :: 1 <= k < |opp| ==> Share(o, opp, k) == Share(o.Filled(q), opp[1..], k - 1)
  {
    forall k | 1 <= k < |opp|
      ensures Share(o, opp, k) == Share(o.Filled(q), opp[1..], k - 1)
    {
      SumRemainingPrefix(opp, k);
    }
  }

  lemma {:induction false} NoShareBehind(o: OrderState, opp: seq<OrderState>)
    requires |opp| > 0 && forall i :: 0 <= i < |opp| ==> opp[i].price.Some? && opp[i].remaining > 0
    requires o.remaining <= opp[0].remaining
    ensures forall k :: 1 <= k < |opp| ==> Share(o, opp, k) == 0
  {
    forall k | 1 <= k < |opp|
      ensures Share(o, opp, k) == 0
    {
      SumRemainingPrefix(opp, k);
    }
  }

  /** The walk gives every resting order exactly its share: one trade per order
      with a positive share, in priority order and at that order's price. */
  lemma {:induction false} WalkTradesShares(o: OrderState, opp: seq<OrderState>)
    requires o.remaining >= 0
    requires forall i :: 0 <= i < |opp| ==> opp[i].price.Some? && opp[i].remaining > 0
    requires forall i, j :: 0 <= i < j < |opp| && Accepts(o, opp[j].price.value) ==> Accepts(o, opp[i].price.value)
    ensures var ts := Walk(o, opp).trades;
            && |ts| <= |opp|
            && (forall k :: 0 <= k < |ts| ==>
                  Share(o, opp, k) > 0 && ts[k] == TradeBetween(o, opp[k], Share(o, opp, k)))
            && (forall k :: |ts| <= k < |opp| ==> Share(o, opp, k) == 0)
    decreases |opp|
  {
    if o.remaining == 0 {
      forall k | 0 <= k < |opp|
        ensures Share(o, opp, k) == 0
      {
        SumRemainingPrefix(opp, k);
      }
    } else if opp != [] && Accepts(o, opp[0].price.value) {
      var q := Min(o.remaining, opp[0].remaining);
      assert opp[..0] == [];
      if q == opp[0].remaining {
        var ts := Walk(o.Filled(q), opp[1..]).trades;
        WalkTradesShares(o.Filled(q), opp[1..]);
        SharesAfterHead(o, opp, q);
        assert Walk(o, opp).trades == [TradeBetween(o, opp[0], q)] + ts;
        forall k | 1 <= k < |opp|
          ensures k - 1 < |ts| ==> Share(o, opp, k) > 0 && ts[k - 1] == TradeBetween(o, opp[k], Share(o, opp, k))
          ensures k - 1 >= |ts| ==> Share(o, opp, k) == 0
        {
          assert opp[1..][k - 1] == opp[k];
        }
      } else {
        NoShareBehind(o, opp);
      }
    }
  }

  /** Whether the k-th order of a side got its share when `rest` is left of it. */
  ghost predicate SettledAt(o: OrderState, opp: seq<OrderState>, rest: seq<OrderState>, k: nat)
    requires |rest| <= |opp| && k < |opp| && opp[k].price.Some?
  {
    var done := |opp| - |rest|;
    if k < done then Share(o, opp, k) == opp[k].remaining
    else Share(o, opp, k) < opp[k].remaining && rest[k - done] == opp[k].Filled(Share(o, opp, k))
  }

  /** The fully consumed orders leave the book, and everybody else keeps place
      with the share taken off. */
  lemma {:induction false} WalkLeavesRest(o: OrderState, opp: seq<OrderState>)
    requires o.remaining >= 0
    requires forall i :: 0 <= i < |opp| ==> opp[i].price.Some? && opp[i].remaining > 0
    requires forall i, j :: 0 <= i < j < |opp| && Accepts(o, opp[j].price.value) ==> Accepts(o, opp[i].price.value)
    ensures forall k :: 0 <= k < |opp| ==> SettledAt(o, opp, Walk(o, opp).rest, k)
    decreases |opp|
  {
    var rest := Walk(o, opp).rest;
    if o.remaining == 0 {
      forall k | 0 <= k < |opp|
        ensures SettledAt(o, opp, rest, k)
      {
        SumRemainingPrefix(opp, k);
      }
    } else if opp != [] && Accepts(o, opp[0].price.value) {
      var q := Min(o.remaining, opp[0].remaining);
      assert opp[..0] == [];
      if q == opp[0].remaining {
        assert rest == Walk(o.Filled(q), opp[1..]).rest;
        WalkLeavesRest(o.Filled(q), opp[1..]);
        SharesAfterHead(o, opp, q);
        forall k | 1 <= k < |opp|
          ensures SettledAt(o, opp, rest, k)
        {
          assert SettledAt(o.Filled(q), opp[1..], rest, k - 1);
        }
      } else {
        NoShareBehind(o, opp);
      }
    }
  }

  /** The incoming order loses exactly what it traded, and stops for a reason. */
  lemma {:induction false} WalkFillsOrder(o: OrderState, opp: seq<OrderState>)
    requires o.remaining >= 0
    requires forall i :: 0 <= i < |opp| ==> opp[i].price.Some? && opp[i].remaining > 0
    ensures var m := Walk(o, opp);
            && m.order == o.Filled(Volume(m.trades))
            && 0 <= m.order.remaining <= o.remaining
            && (m.order.remaining > 0 && m.rest != [] ==> !Accepts(o, m.rest[0].price.value))
            && (m.trades == [] ==> m.rest == opp && m.order == o)
    decreases |opp|
  {
    if o.remaining != 0 && opp != [] && Accepts(o, opp[0].price.value) {
      var q := Min(o.remaining, opp[0].remaining);
      var t := TradeBetween(o, opp[0], q);
      if q == opp[0].remaining {
        WalkFillsOrder(o.Filled(q), opp[1..]);
        assert Walk(o, opp).trades[1..] == Walk(o.Filled(q), opp[1..]).trades;
      } else {
        assert Walk(o, opp).trades[1..] == [];
      }
    }
  }
}
