/** The limit order book as the exchange runs it: two sorted lists of price level
    objects, a queue of order objects in each, and two id indices, all changed in
    place. Every method is specified by the flat book of module PriceTime. */
module OrderBooks {
  import opened Orders
  import opened PriceTime
  import opened PriceLevels
  import opened BookLaws

  const RECENT := 100

  /** What a queue bounded to the last 100 trades holds. */
  function Recent(log: seq<Trade>): seq<Trade> {
    if |log| <= RECENT then log else log[|log| - RECENT..]
  }

  class Order {
    const id: OrderId
    const trader: TeamId
    const instrument: InstrumentId
    const side: Side
    const price: Option<int>
    const quantity: int
    var remaining: int

    constructor (s: OrderState)
      requires s.Fresh()
      ensures State() == s
    {
      id, trader, instrument, side, price, quantity := s.id, s.trader, s.instrument, s.side, s.price, s.quantity;
      remaining := s.quantity;
    }

    function State(): OrderState
      reads this
    {
      OrderState(id, trader, instrument, side, price, quantity, remaining)
    }

    predicate IsFilled()
      reads this
    {
      remaining == 0
    }

    /** Refuses (the source raises) a fill that is not positive or too large. */
    method Fill(q: int) returns (ok: bool)
      modifies this
      ensures ok <==> 0 < q <= old(remaining)
      ensures State() == if ok then old(State()).Filled(q) else old(State())
    {
      ok := 0 < q <= remaining;
      if ok {
        remaining := remaining - q;
      }
    }
  }

  class PriceLevel {
    const price: int
    var orders: seq<Order>
    var totalQuantity: int

    constructor (price: int)
      ensures this.price == price && orders == [] && totalQuantity == 0
    {
      this.price := price;
      orders := [];
      totalQuantity := 0;
    }

    method AddOrder(o: Order)
      modifies this
      ensures orders == old(orders) + [o]
      ensures totalQuantity == old(totalQuantity) + o.remaining
    {
      orders := orders + [o];
      totalQuantity := totalQuantity + o.remaining;
    }

    /** Removes the first order with this id, if there is one. */
    method RemoveOrder(id: OrderId) returns (r: Order?, ghost at: nat)
      modifies this
      ensures r == null ==>
                && orders == old(orders) && totalQuantity == old(totalQuantity)
                && (forall i :: 0 <= i < |orders| ==> orders[i].id != id)
      ensures r != null ==>
                && at < |old(orders)| && old(orders)[at] == r && r.id == id
                && (forall i :: 0 <= i < at ==> old(orders)[i].id != id)
                && orders == old(orders)[..at] + old(orders)[at + 1..]
                && totalQuantity == old(totalQuantity) - r.remaining
    {
      at := 0;
      var i := 0;
      while i < |orders|
        invariant i <= |orders|
        invariant orders == old(orders) && totalQuantity == old(totalQuantity)
        invariant forall k :: 0 <= k < i ==> orders[k].id != id
      {
        if orders[i].id == id {
          r, at := orders[i], i;
          totalQuantity := totalQuantity - r.remaining;
          orders := orders[..i] + orders[i + 1..];
          return;
        }
        i := i + 1;
      }
      r := null;
    }

    predicate IsEmpty()
      reads this
    {
      |orders| == 0
    }
  }

  /** A level object stands for a level view, and its orders for that view's orders. */
  ghost predicate LevelTied(l: PriceLevel, v: LevelView)
    reads l, l.orders
  {
    && l.price == v.price
    && l.totalQuantity == SumRemaining(v.orders)
    && |l.orders| == |v.orders|
    && forall j :: 0 <= j < |v.orders| ==> l.orders[j].State() == v.orders[j]
  }

  lemma {:induction false} LevelStates(l: PriceLevel, v: LevelView)
    requires LevelTied(l, v)
    ensures |l.orders| == |v.orders| && forall k :: 0 <= k < |l.orders| ==> l.orders[k].State() == v.orders[k]
  {
  }

  ghost predicate Tied(ls: seq<PriceLevel>, vs: seq<LevelView>, levels: set<PriceLevel>, live: set<Order>)
    reads levels, live
  {
    && |ls| == |vs|
    && (forall i :: 0 <= i < |ls| ==> ls[i] in levels && forall x :: x in ls[i].orders ==> x in live)
    && (forall i :: 0 <= i < |vs| ==> LevelTied(ls[i], vs[i]))
  }

  /** The resting order objects are told apart by id, and every id is indexed. */
  ghost predicate LiveOk(live: set<Order>, prices: map<OrderId, int>) {
    && (forall x :: x in live ==> x.id in prices)
    && (forall x, y :: x in live && y in live && x.id == y.id ==> x == y)
  }

  lemma {:induction false} LiveGrows(live: set<Order>, prices: map<OrderId, int>, o: Order, price: int)
    requires LiveOk(live, prices) && o.id !in prices
    ensures LiveOk(live + {o}, prices[o.id := price]) && o !in live
  {
  }

  lemma {:induction false} LiveShrinks(live: set<Order>, prices: map<OrderId, int>, m: Order)
    requires LiveOk(live, prices) && m in live
    ensures LiveOk(live - {m}, prices - {m.id})
  {
  }

  lemma {:induction false} TiedConcat(a: seq<PriceLevel>, va: seq<LevelView>, b: seq<PriceLevel>, vb: seq<LevelView>,
                                      levels: set<PriceLevel>, live: set<Order>)
    requires Tied(a, va, levels, live) && Tied(b, vb, levels, live)
    ensures Tied(a + b, va + vb, levels, live)
  {
  }

  lemma {:induction false} TiedOne(l: PriceLevel, v: LevelView, levels: set<PriceLevel>, live: set<Order>)
    requires l in levels && LevelTied(l, v) && forall x :: x in l.orders ==> x in live
    ensures Tied([l], [v], levels, live)
  {
  }

  lemma {:induction false} TiedAround(ls: seq<PriceLevel>, vs: seq<LevelView>, i: nat, v: LevelView,
                                      levels: set<PriceLevel>, live: set<Order>)
    requires i < |ls| == |vs| && Tied(ls[..i], vs[..i], levels, live) && Tied(ls[i + 1..], vs[i + 1..], levels, live)
    requires ls[i] in levels && LevelTied(ls[i], v) && forall x :: x in ls[i].orders ==> x in live
    ensures Tied(ls, vs[i := v], levels, live)
  {
    hide LevelTied, Tied;
    TiedOne(ls[i], v, levels, live);
    TiedConcat(ls[..i], vs[..i], [ls[i]], [v], levels, live);
    TiedConcat(ls[..i] + [ls[i]], vs[..i] + [v], ls[i + 1..], vs[i + 1..], levels, live);
    assert ls == ls[..i] + [ls[i]] + ls[i + 1..];
    assert vs[i := v] == vs[..i] + [v] + vs[i + 1..];
  }

  lemma {:induction false} TiedSlices(ls: seq<PriceLevel>, vs: seq<LevelView>, i: nat, levels: set<PriceLevel>,
                                      live: set<Order>)
    requires Tied(ls, vs, levels, live) && i <= |ls|
    ensures |ls| == |vs| && Tied(ls[..i], vs[..i], levels, live) && Tied(ls[i..], vs[i..], levels, live)
  {
  }

  class OrderBook {
    const instrument: InstrumentId
    var bids: seq<PriceLevel>
    var asks: seq<PriceLevel>
    var orderPriceMap: map<OrderId, int>
    var orderIds: set<OrderId>
    var trades: seq<Trade>

    ghost var view: BookView
    ghost var log: seq<Trade>
    ghost var levels: set<PriceLevel>  // the level objects of both sides
    ghost var live: set<Order>         // the order objects resting in the book

    ghost predicate Valid()
      reads this, levels, live
    {
      && ViewOk(view, instrument)
      && Tied(bids, view.bids, levels, live)
      && Tied(asks, view.asks, levels, live)
      && orderPriceMap == view.prices
      && orderIds == view.prices.Keys
      && LiveOk(live, view.prices)
      && trades == Recent(log)
    }

    /** The flat book this object stands for. */
    ghost function AsBook(): Book
      reads this
    {
      Flat(view, log)
    }

    constructor (instrument: InstrumentId)
      ensures Valid() && levels == {} && live == {}
      ensures this.instrument == instrument && AsBook() == EMPTY_BOOK
    {
      this.instrument := instrument;
      bids, asks := [], [];
      orderPriceMap, orderIds, trades := map[], {}, [];
      view, log, levels, live := BookView([], [], map[]), [], {}, {};
    }

    function Levels(side: Side): seq<PriceLevel>
      reads this
    {
      if side.Buy? then bids else asks
    }

    method SetLevels(side: Side, ls: seq<PriceLevel>)
      modifies this`bids, this`asks
      ensures Levels(side) == ls && Levels(side.Opposite()) == old(Levels(side.Opposite()))
    {
      if side.Buy? {
        bids := ls;
      } else {
        asks := ls;
      }
    }

    /** The bounded trade history drops its oldest entry when full. */
    method RecordTrade(t: Trade)
      requires Valid()
      modifies this`trades, this`log
      ensures Valid() && log == old(log) + [t]
    {
      hide ViewOk, Tied;
      trades := if |trades| == RECENT then trades[1..] + [t] else trades + [t];
      log := log + [t];
    }

    /** Filling an order that does not rest here leaves the book alone. */
    method FillNewcomer(o: Order, q: int)
      requires Valid() && o.id !in orderIds && 0 < q <= o.remaining
      modifies o
      ensures Valid() && o.State() == old(o.State()).Filled(q)
    {
      hide ViewOk, Tied, Recent;
      assert o !in live;
      var _ := o.Fill(q);
    }

    // ---- matching ----

    /** What validity says about the front order of a side. */
    lemma {:induction false} FrontFacts(side: Side)
      requires Valid() && Levels(side) != []
      ensures var ls := view.Levels(side);
              var level := Levels(side)[0];
              && |ls| == |Levels(side)| && ls[0].orders != [] && level in levels && LevelTied(level, ls[0])
              && var m := level.orders[0];
                 && m.State() == ls[0].orders[0] && Resting(m.State(), side, instrument)
                 && m.price == Some(level.price) && m in live && m.id in view.prices && m.remaining > 0
    {
    }

    /** The front of a side stands for the front of its view, and the front
        level and its front order are used nowhere else. */
    ghost predicate FrontClear(side: Side)
      requires Levels(side) != []
      reads this, levels, live, Levels(side), Levels(side.Opposite())
    {
      var ls, objs, back := view.Levels(side), Levels(side), Levels(side.Opposite());
      && |ls| == |objs| && ls[0].orders != [] && objs[0] in levels && |objs[0].orders| == |ls[0].orders|
      && (forall j :: 0 <= j < |objs[0].orders| ==> objs[0].orders[j] in live)
      && LevelTied(objs[0], ls[0])
      && Tied(objs[1..], ls[1..], levels, live)
      && var m := objs[0].orders[0];
         && (forall i :: 1 <= i < |objs| ==> objs[i] != objs[0] && m !in objs[i].orders)
         && (forall i :: 0 <= i < |back| ==> back[i] != objs[0] && m !in back[i].orders)
         && m !in objs[0].orders[1..]
    }

    lemma {:induction false} FrontAlone(side: Side)
      requires Valid() && Levels(side) != [] && Levels(side)[0].orders != []
      ensures FrontClear(side)
    {
      hide ViewOk, SumRemaining, FrontFilled, Recent, Resting;
      var ls, opp := view.Levels(side), view.Levels(side.Opposite());
      var level := Levels(side)[0];
      var m := level.orders[0];
      FrontFacts(side);
      FrontFilledView(view, side, instrument, m.remaining);
      forall i | 0 <= i < |Levels(side)|
        ensures i > 0 ==> Levels(side)[i] != level && m !in Levels(side)[i].orders
        ensures i == 0 ==> m !in level.orders[1..]
      {
        var l := Levels(side)[i];
        assert LevelTied(l, ls[i]);
        assert forall j :: 0 <= j < |l.orders| ==> l.orders[j].State().id == ls[i].orders[j].id;
      }
      forall i | 0 <= i < |Levels(side.Opposite())|
        ensures Levels(side.Opposite())[i] != level && m !in Levels(side.Opposite())[i].orders
      {
        var l := Levels(side.Opposite())[i];
        assert LevelTied(l, opp[i]);
        assert forall j :: 0 <= j < |l.orders| ==> l.orders[j].State().id == opp[i].orders[j].id;
      }
    }

    /** Take the filled front order out of its level and the indices, and an
        emptied level out of its side. */
    method DropFront(side: Side)
      requires Levels(side) != [] && Levels(side)[0].orders != []
      modifies this, Levels(side)[0]
      ensures var level, m := old(Levels(side)[0]), old(Levels(side)[0].orders[0]);
              && level.orders == old(level.orders)[1..]
              && level.totalQuantity == old(level.totalQuantity) - m.remaining
              && Levels(side) == (if |old(level.orders)| == 1 then old(Levels(side))[1..] else old(Levels(side)))
              && orderIds == old(orderIds) - {m.id}
              && orderPriceMap == old(orderPriceMap) - {m.id}
      ensures Levels(side.Opposite()) == old(Levels(side.Opposite()))
      ensures trades == old(trades) && view == old(view) && log == old(log) && levels == old(levels)
              && live == old(live)
    {
      var level := Levels(side)[0];
      var m := level.orders[0];
      var _, at := level.RemoveOrder(m.id);
      orderIds := orderIds - {m.id};
      orderPriceMap := orderPriceMap - {m.id};
      if level.IsEmpty() {
        SetLevels(side, Levels(side)[1..]);
      }
    }

    /** How filling the front order changes the objects of the book. */
    twostate predicate Reduced(c: Reduction)
      reads this, levels, live, c.level, c.m
    {
      && old(Levels(c.side)) != [] && old(Levels(c.side))[0] == c.level
      && old(c.level.orders) != [] && old(c.level.orders)[0] == c.m
      && 0 < c.q <= old(c.m.remaining)
      && c.m.remaining == old(c.m.remaining) - c.q
      && c.level.totalQuantity == old(c.level.totalQuantity) - c.q
      && levels == old(levels)
      && (forall l :: l in levels && l != c.level ==>
            l.orders == old(l.orders) && l.totalQuantity == old(l.totalQuantity))
      && (forall x :: x in old(live) && x in live && x != c.m ==> x.remaining == old(x.remaining))
      && Levels(c.side.Opposite()) == old(Levels(c.side.Opposite()))
      && if c.q == old(c.m.remaining) then
           && live == old(live) - {c.m}
           && c.level.orders == old(c.level.orders)[1..]
           && Levels(c.side) == (if |c.level.orders| == 0 then old(Levels(c.side))[1..] else old(Levels(c.side)))
         else
           && live == old(live)
           && c.level.orders == old(c.level.orders)
           && Levels(c.side) == old(Levels(c.side))
    }

    /** Levels that hold neither the front level nor the front order still stand
        for the same views. */
    twostate lemma {:induction false} ReducedElsewhere(b: Beside)
      requires Reduced(b.c) && old(Tied(b.ls, b.vs, levels, live))
      requires forall i :: 0 <= i < |b.ls| ==> b.ls[i] != b.c.level && b.c.m !in old(b.ls[i].orders)
      ensures Tied(b.ls, b.vs, levels, live)
    {
      var Beside(c, ls, vs) := b;
      forall i | 0 <= i < |ls|
        ensures LevelTied(ls[i], vs[i])
        ensures ls[i] in levels && forall x :: x in ls[i].orders ==> x in live
      {
        assert old(LevelTied(ls[i], vs[i]));
        assert ls[i].orders == old(ls[i].orders);
      }
    }

    /** What is left of the front level stands for what is left of its view. */
    twostate lemma {:induction false} ReducedFront(c: Reduction, new v: LevelView)
      requires Reduced(c) && old(LevelTied(c.level, v))
      requires c.m !in old(c.level.orders)[1..]
      requires forall x :: x in old(c.level.orders) ==> x in old(live)
      ensures v.orders != []
      ensures var q := c.q;
              && (q == v.orders[0].remaining ==> LevelTied(c.level, LevelView(v.price, v.orders[1..])))
              && (q != v.orders[0].remaining ==>
                    LevelTied(c.level, LevelView(v.price, [v.orders[0].Filled(q)] + v.orders[1..])))
      ensures forall x :: x in c.level.orders ==> x in live
    {
      var xs := old(c.level.orders);
      assert old(c.m.State()) == v.orders[0] && c.m.State() == v.orders[0].Filled(c.q);
      assert SumRemaining([v.orders[0].Filled(c.q)] + v.orders[1..]) == SumRemaining(v.orders) - c.q by {
        assert ([v.orders[0].Filled(c.q)] + v.orders[1..])[1..] == v.orders[1..];
      }
      forall j | 1 <= j < |xs|
        ensures xs[j] in live && xs[j].State() == v.orders[j]
      {
        assert xs[j] == xs[1..][j - 1];
        assert old(c.level.orders[j].State()) == v.orders[j];
      }
    }

    /** Fill the front order of a side; when that fills it, it leaves, and so
        does its level when left empty. */
    method ReduceFront(side: Side, q: int)
      requires Levels(side) != [] && Levels(side)[0] in levels
      requires Levels(side)[0].orders != [] && Levels(side)[0].orders[0] in live
      requires 0 < q <= Levels(side)[0].orders[0].remaining
      modifies this, Levels(side)[0], Levels(side)[0].orders[0]
      ensures Reduced(old(Reduction(side, q, Levels(side)[0], Levels(side)[0].orders[0])))
      ensures view == old(view) && log == old(log) && trades == old(trades)
      ensures var m := old(Levels(side)[0].orders[0]);
              && orderIds == (if m.remaining == 0 then old(orderIds) - {m.id} else old(orderIds))
              && orderPriceMap == (if m.remaining == 0 then old(orderPriceMap) - {m.id} else old(orderPriceMap))
    {
      var level := Levels(side)[0];
      var m := level.orders[0];
      var _ := m.Fill(q);
      level.totalQuantity := level.totalQuantity - q;
      if m.IsFilled() {
        DropFront(side);
        live := live - {m};
      }
    }

    /** Putting the front level back on its tail. */
    lemma {:induction false} Restack(c: Reduction, objs: seq<PriceLevel>, vs: seq<LevelView>)
      requires objs != [] && vs != [] && vs[0].orders != [] && objs[0] == c.level && c.level in levels
      requires Tied(objs[1..], vs[1..], levels, live)
      requires forall x :: x in c.level.orders ==> x in live
      requires c.q == vs[0].orders[0].remaining ==> LevelTied(c.level, LevelView(vs[0].price, vs[0].orders[1..]))
      requires c.q != vs[0].orders[0].remaining ==>
                 LevelTied(c.level, LevelView(vs[0].price, [vs[0].orders[0].Filled(c.q)] + vs[0].orders[1..]))
      ensures Tied(if c.q == vs[0].orders[0].remaining && |vs[0].orders| == 1 then objs[1..] else objs,
                   FrontFilled(vs, c.q), levels, live)
    {
    }

    twostate lemma {:induction false} ReducedTied(c: Reduction)
      requires old(Levels(c.side)) != [] && old(FrontClear(c.side)) && Reduced(c)
      requires old(Tied(Levels(c.side.Opposite()), view.Levels(c.side.Opposite()), levels, live))
      ensures old(view.Levels(c.side)) != [] && old(view.Levels(c.side))[0].orders != []
      ensures Tied(Levels(c.side.Opposite()), old(view.Levels(c.side.Opposite())), levels, live)
      ensures Tied(Levels(c.side), FrontFilled(old(view.Levels(c.side)), c.q), levels, live)
    {
      var ls, opp, objs := old(view.Levels(c.side)), old(view.Levels(c.side.Opposite())), old(Levels(c.side));
      hide ViewOk, SumRemaining, LevelTied;
      ReducedElsewhere(Beside(c, Levels(c.side.Opposite()), opp));
      ReducedElsewhere(Beside(c, objs[1..], ls[1..]));
      ReducedFront(c, ls[0]);
      Restack(c, objs, ls);
    }

    /** The view after the front order of a side was filled by q. */
    ghost function FrontTaken(side: Side, q: int): BookView
      requires view.Levels(side) != [] && view.Levels(side)[0].orders != []
      reads this
    {
      var m := view.Levels(side)[0].orders[0];
      var v := view.With(side, FrontFilled(view.Levels(side), q));
      if q == m.remaining then v.(prices := view.prices - {m.id}) else v
    }

    lemma {:induction false} FrontReady(side: Side, q: int)
      requires Valid() && Levels(side) != [] && Levels(side)[0].orders != []
      requires 0 < q <= Levels(side)[0].orders[0].remaining
      ensures FrontClear(side)
      ensures Levels(side)[0] in levels && Levels(side)[0].orders[0] in live
      ensures Levels(side)[0].orders[0].State() == view.Levels(side)[0].orders[0]
      ensures ViewOk(FrontTaken(side, q), instrument)
    {
      FrontAlone(side);
      FrontFacts(side);
      FrontFilledView(view, side, instrument, q);
    }

    /** Fill the front order of a side and keep the book's own account of it. */
    method TakeFront(side: Side, q: int)
      requires Valid() && Levels(side) != [] && Levels(side)[0].orders != []
      requires 0 < q <= Levels(side)[0].orders[0].remaining
      modifies this, levels, live
      ensures Valid() && log == old(log)
      ensures old(view.Levels(side)) != [] && old(view.Levels(side))[0].orders != []
      ensures view == old(FrontTaken(side, q))
      ensures Reduced(old(Reduction(side, q, Levels(side)[0], Levels(side)[0].orders[0])))
    {
      hide ViewOk, Recent, SumRemaining, FrontClear, Tied, LevelTied, FrontFilled, LiveOk;
      FrontReady(side, q);
      LiveShrinks(live, view.prices, Levels(side)[0].orders[0]);
      ghost var c := Reduction(side, q, Levels(side)[0], Levels(side)[0].orders[0]);
      ghost var v := FrontTaken(side, q);
      ReduceFront(side, q);
      ReducedTied(c);
      view := v;
    }

    /** One round of the matching loop: trade with the front of the other side. */
    method FillFront(o: Order) returns (t: Trade, ghost m: Order)
      requires Valid() && o.id !in orderIds && o.instrument == instrument
      requires o.remaining > 0 && Levels(o.side.Opposite()) != []
      requires Accepts(o.State(), Levels(o.side.Opposite())[0].price)
      modifies this, levels, live, o
      ensures Valid() && levels == old(levels) && live <= old(live) && orderIds <= old(orderIds)
      ensures view.Levels(o.side) == old(view.Levels(o.side))
      ensures o.State() == old(o.State()).Filled(t.quantity) && 0 < t.quantity <= old(o.remaining)
      ensures Priced(old(AsBook())) && Priced(AsBook())
      ensures var w := Walk(o.State(), Flatten(view.Levels(o.side.Opposite())));
              Walk(old(o.State()), old(Flatten(view.Levels(o.side.Opposite())))) == w.(trades := [t] + w.trades)
      ensures log == old(log) + [t]
      ensures m in old(live) && forall id :: t.Names(id) <==> id == o.id || id == m.id
      ensures forall x :: x in old(live) ==> x.remaining == old(x.remaining) - (if x == m then t.quantity else 0)
    {
      hide ViewOk, Recent, SumRemaining, Tied, LevelTied, FrontClear, Indexed, FrontFilled, Walk, BookOk, Resting;
      var side := o.side.Opposite();
      FrontFacts(side);
      ValidBook();
      FrontPrice(side);
      var level := Levels(side)[0];
      m := level.orders[0];
      var q := Min(o.remaining, level.orders[0].remaining);
      FrontFilledFlat(view.Levels(side), q);
      WalkStep(o.State(), Flatten(view.Levels(side)));
      if o.side.Buy? {
        t := Trade(instrument, o.trader, level.orders[0].trader, level.price, q, o.id, level.orders[0].id, Buy);
      } else {
        t := Trade(instrument, level.orders[0].trader, o.trader, level.price, q, level.orders[0].id, o.id, Sell);
      }
      RecordTrade(t);
      FillNewcomer(o, q);
      TakeFront(side, q);
      ValidBook();
    }

    lemma {:induction false} ValidBook()
      requires Valid()
      ensures BookOk(AsBook(), instrument) && Priced(AsBook())
      ensures forall id :: id in orderIds <==> InBook(AsBook(), id)
      ensures forall side: Side :: Flatten(view.Levels(side)) == AsBook().Orders(side)
    {
      hide Tied, Recent;
      ViewIsBook(view, log, instrument);
    }

    lemma {:induction false} LiveIds()
      requires Valid()
      ensures forall x :: x in live ==> x.id in orderIds
      ensures forall x, y :: x in live && y in live && x.id == y.id ==> x == y
    {
    }

    lemma {:induction false} FrontPrice(side: Side)
      requires Valid()
      ensures (Levels(side) == []) == (Flatten(view.Levels(side)) == [])
      ensures Levels(side) != [] ==> Flatten(view.Levels(side))[0].price == Some(Levels(side)[0].price)
    {
    }

    /** The matching loop is the greedy walk over the opposite side. */
    method MatchOrder(o: Order) returns (ts: seq<Trade>)
      requires Valid() && o.id !in orderIds && o.instrument == instrument && o.remaining >= 0
      modifies this, levels, live, o
      ensures Valid() && levels == old(levels) && live <= old(live) && orderIds <= old(orderIds)
      ensures view.Levels(o.side) == old(view.Levels(o.side))
      ensures Priced(old(AsBook()))
      ensures Walk(old(o.State()), old(Flatten(view.Levels(o.side.Opposite())))) ==
              Matched(ts, o.State(), Flatten(view.Levels(o.side.Opposite())))
      ensures log == old(log) + ts
      ensures forall x :: x in old(live) ==> x.remaining == old(x.remaining) - Traded(ts, x.id)
    {
      hide ViewOk, Recent, Tied, BookOk, Traded, Flatten, Valid, Walk, Front, InBook;
      ts := [];
      var side := o.side.Opposite();
      ghost var was, xs := o.State(), Flatten(view.Levels(side));
      ValidBook();
      LiveIds();
      assert forall x :: x in live ==> x.id != o.id;
      assert forall x: Order :: Traded([], x.id) == 0 by {
        TradedNothing();
      }
      while !o.IsFilled() && Levels(side) != []
        invariant Valid() && levels == old(levels) && live <= old(live) && orderIds <= old(orderIds)
        invariant o.remaining >= 0 && SameTerms(o.State(), was)
        invariant view.Levels(o.side) == old(view.Levels(o.side))
        invariant log == old(log) + ts && Priced(AsBook())
        invariant var m := Walk(o.State(), Flatten(view.Levels(side))); Walk(was, xs) == m.(trades := ts + m.trades)
        invariant forall x :: x in old(live) ==> x.remaining == old(x.remaining) - Traded(ts, x.id)
        decreases o.remaining
      {
        var best := Levels(side)[0].price;
        if o.price.Some? && (if o.side.Buy? then best > o.price.value else best < o.price.value) {
          break;
        }
        ghost var m;
        var t;
        t, m := FillFront(o);
        assert ts + [t] + Walk(o.State(), Flatten(view.Levels(side))).trades ==
               ts + ([t] + Walk(o.State(), Flatten(view.Levels(side))).trades);
        forall x | x in old(live)
          ensures Traded(ts + [t], x.id) == Traded(ts, x.id) + if x == m then t.quantity else 0
        {
          TradedSnoc(ts, t, x.id);
        }
        ts := ts + [t];
      }
      FrontPrice(side);
      WalkStops(o.State(), Flatten(view.Levels(side)));
    }

    // ---- inserting ----

    /** The first level at a price, or the number of levels. */
    method FindLevel(side: Side, price: int) returns (i: nat)
      ensures i <= |Levels(side)|
      ensures i < |Levels(side)| ==> Levels(side)[i].price == price
      ensures forall k :: 0 <= k < i ==> Levels(side)[k].price != price
    {
      var ls := Levels(side);
      i := 0;
      while i < |ls| && ls[i].price != price
        invariant i <= |ls|
        invariant forall k :: 0 <= k < i ==> ls[k].price != price
      {
        i := i + 1;
      }
    }

    /** Where `bisect_left` puts a new level: behind every better price. */
    method BisectLevels(side: Side, price: int) returns (i: nat)
      requires forall j, k :: 0 <= j < k < |Levels(side)| ==>
               Key(side, Levels(side)[j].price) < Key(side, Levels(side)[k].price)
      ensures i <= |Levels(side)|
      ensures forall k :: 0 <= k < i ==> Key(side, Levels(side)[k].price) < Key(side, price)
      ensures forall k :: i <= k < |Levels(side)| ==> Key(side, Levels(side)[k].price) >= Key(side, price)
    {
      var ls := Levels(side);
      var hi: nat;
      i, hi := 0, |ls|;
      while i < hi
        invariant i <= hi <= |ls|
        invariant forall k :: 0 <= k < i ==> Key(side, ls[k].price) < Key(side, price)
        invariant forall k :: hi <= k < |ls| ==> Key(side, ls[k].price) >= Key(side, price)
      {
        var mid := (i + hi) / 2;
        if Key(side, ls[mid].price) < Key(side, price) {
          i := mid + 1;
        } else {
          hi := mid;
        }
      }
    }

    lemma {:induction false} LevelPrices(side: Side)
      requires Valid()
      ensures |Levels(side)| == |view.Levels(side)|
      ensures forall k :: 0 <= k < |Levels(side)| ==>
                Levels(side)[k] in levels && Levels(side)[k].price == view.Levels(side)[k].price
      ensures forall j, k :: 0 <= j < k < |Levels(side)| ==>
              Key(side, Levels(side)[j].price) < Key(side, Levels(side)[k].price)
    {
    }

    /** Objects nobody touched still stand for the same views. */
    twostate lemma {:induction false} Untouched(ls: seq<PriceLevel>, new vs: seq<LevelView>)
      requires old(Tied(ls, vs, levels, live))
      requires forall l :: l in ls ==> l.orders == old(l.orders) && l.totalQuantity == old(l.totalQuantity)
      requires forall x :: x in old(live) ==> x.remaining == old(x.remaining)
      requires old(levels) <= levels && old(live) <= live
      ensures Tied(ls, vs, levels, live)
    {
      forall i | 0 <= i < |ls|
        ensures LevelTied(ls[i], vs[i])
      {
        assert old(LevelTied(ls[i], vs[i]));
      }
    }

    /** A level after an order joined its queue. */
    twostate lemma {:induction false} Grown(l: PriceLevel, new v: LevelView, new o: Order)
      requires old(LevelTied(l, v)) && forall x :: x in old(l.orders) ==> x in old(live)
      requires l.orders == old(l.orders) + [o] && l.totalQuantity == old(l.totalQuantity) + o.remaining
      requires forall x :: x in old(live) ==> x.remaining == old(x.remaining)
      ensures LevelTied(l, LevelView(v.price, v.orders + [o.State()]))
    {
      hide SumRemaining;
      SumRemainingSnoc(v.orders, o.State());
      forall j | 0 <= j < |v.orders|
        ensures l.orders[j].State() == v.orders[j]
      {
        assert old(l.orders[j].State()) == v.orders[j];
      }
    }

    /** The levels of a side, cut around the i-th one. */
    ghost predicate CutAt(side: Side, i: nat)
      reads this, levels, live, Levels(side)
    {
      var ls, vs := Levels(side), view.Levels(side);
      && i < |ls| && |ls| == |vs|
      && ls[i] in levels && (forall x :: x in ls[i].orders ==> x in live) && LevelTied(ls[i], vs[i])
      && Tied(ls[..i], vs[..i], levels, live) && Tied(ls[i + 1..], vs[i + 1..], levels, live)
      && ls[i] !in ls[..i] && ls[i] !in ls[i + 1..] && ls[i] !in Levels(side.Opposite())
      && Tied(Levels(side.Opposite()), view.Levels(side.Opposite()), levels, live)
    }

    lemma {:induction false} CutLevels(side: Side, i: nat)
      requires Valid() && i < |Levels(side)|
      ensures CutAt(side, i)
    {
      hide SumRemaining, Recent, Flatten, Indexed, LevelTied, ViewOk;
      LevelPrices(side);
      LevelPrices(side.Opposite());
      LevelsApart(view, side, instrument);
      var ls, vs := Levels(side), view.Levels(side);
      TiedSlices(ls, vs, i, levels, live);
      TiedSlices(ls, vs, i + 1, levels, live);
    }

    /** The sides of the book after an order joined the queue of a cut level. */
    twostate lemma {:induction false} JoinedTied(new side: Side, new i: nat, o: Order)
      requires old(CutAt(side, i))
      requires Levels(side) == old(Levels(side)) && Levels(side.Opposite()) == old(Levels(side.Opposite()))
      requires old(levels) == levels && live == old(live) + {o}
      requires forall l :: l in levels && l != Levels(side)[i] ==>
               l.orders == old(l.orders) && l.totalQuantity == old(l.totalQuantity)
      requires forall x :: x in old(live) ==> x.remaining == old(x.remaining)
      requires var l := Levels(side)[i];
               l.orders == old(l.orders) + [o] && l.totalQuantity == old(l.totalQuantity) + o.remaining
      ensures var vs := old(view.Levels(side));
              && i < |vs|
              && Tied(Levels(side), vs[i := LevelView(vs[i].price, vs[i].orders + [o.State()])], levels, live)
      ensures Tied(Levels(side.Opposite()), old(view.Levels(side.Opposite())), levels, live)
    {
      hide LevelTied;
      var ls, vs, opp := Levels(side), old(view.Levels(side)), old(view.Levels(side.Opposite()));
      var v' := LevelView(vs[i].price, vs[i].orders + [o.State()]);
      Untouched(Levels(side.Opposite()), opp);
      Untouched(ls[..i], vs[..i]);
      Untouched(ls[i + 1..], vs[i + 1..]);
      Grown(ls[i], vs[i], o);
      TiedAround(ls, vs, i, v', levels, live);
    }

    /** Joins the queue of an existing level. */
    method JoinQueue(o: Order, i: nat)
      requires Valid() && MayRest(view, o.State(), instrument) && o.price.Some?
      requires i < |Levels(o.side)| && Levels(o.side)[i].price == o.price.value
      modifies this, levels
      ensures Valid() && levels == old(levels) && live == old(live) + {o} && log == old(log)
      ensures |old(view.Levels(o.side))| > i && view == Joined(old(view), o.State(), i)
    {
      hide ViewOk, SumRemaining, Recent, Resting, Tied, LevelTied, CutAt, LiveOk;
      CutLevels(o.side, i);
      LevelPrices(o.side);
      LiveGrows(live, view.prices, o, o.price.value);
      JoinedView(view, o.State(), instrument, i);
      var level := Levels(o.side)[i];
      level.AddOrder(o);
      orderPriceMap := orderPriceMap[o.id := o.price.value];
      orderIds := orderIds + {o.id};
      live := live + {o};
      JoinedTied(o.side, i, o);
      view := Joined(view, o.State(), i);
    }

    /** How opening a level of its own for an order changes the objects of the book. */
    twostate predicate LevelOpened(side: Side, i: nat, o: Order)
      reads this, levels, live, o, Levels(side)
    {
      && i <= old(|Levels(side)|) && |Levels(side)| == old(|Levels(side)|) + 1
      && Levels(side) == old(Levels(side))[..i] + [Levels(side)[i]] + old(Levels(side))[i..]
      && Levels(side.Opposite()) == old(Levels(side.Opposite()))
      && levels == old(levels) + {Levels(side)[i]} && live == old(live) + {o}
      && (forall l :: l in old(levels) ==> l.orders == old(l.orders) && l.totalQuantity == old(l.totalQuantity))
      && (forall x :: x in old(live) ==> x.remaining == old(x.remaining))
      && Levels(side)[i].orders == [o] && Levels(side)[i].totalQuantity == o.remaining
      && o.price == Some(Levels(side)[i].price)
    }

    twostate lemma {:induction false} OpenedTied(new side: Side, new i: nat, o: Order)
      requires old(Tied(Levels(side), view.Levels(side), levels, live))
      requires old(Tied(Levels(side.Opposite()), view.Levels(side.Opposite()), levels, live))
      requires LevelOpened(side, i, o)
      ensures o.price.Some?
      ensures var vs := old(view.Levels(side));
              && i <= |vs|
              && Tied(Levels(side), vs[..i] + [LevelView(o.price.value, [o.State()])] + vs[i..], levels, live)
      ensures Tied(Levels(side.Opposite()), old(view.Levels(side.Opposite())), levels, live)
    {
      var ls, vs, opp, level := old(Levels(side)), old(view.Levels(side)), old(view.Levels(side.Opposite())),
        Levels(side)[i];
      var v := LevelView(level.price, [o.State()]);
      Untouched(Levels(side.Opposite()), opp);
      Untouched(ls, vs);
      TiedSlices(ls, vs, i, levels, live);
      assert SumRemaining(v.orders) == o.remaining;
      TiedOne(level, v, levels, live);
      TiedConcat(ls[..i], vs[..i], [level], [v], levels, live);
      TiedConcat(ls[..i] + [level], vs[..i] + [v], ls[i..], vs[i..], levels, live);
    }

    /** Puts a new level holding one order at its place on its side. */
    method PlaceLevel(o: Order, i: nat)
      requires i <= |Levels(o.side)| && o.price.Some?
      modifies this`bids, this`asks, this`orderPriceMap, this`orderIds, this`levels, this`live
      ensures LevelOpened(o.side, i, o) && fresh(levels - old(levels))
      ensures orderPriceMap == old(orderPriceMap)[o.id := o.price.value] && orderIds == old(orderIds) + {o.id}
    {
      var ls := Levels(o.side);
      var level := new PriceLevel(o.price.value);
      SetLevels(o.side, ls[..i] + [level] + ls[i..]);
      level.AddOrder(o);
      orderPriceMap := orderPriceMap[o.id := o.price.value];
      orderIds := orderIds + {o.id};
      levels := levels + {level};
      live := live + {o};
    }

    /** Opens a level of its own for the order at its place. */
    method OpenAt(o: Order, i: nat)
      requires Valid() && o.price.Some? && o.id !in orderIds && i <= |Levels(o.side)|
      requires i <= |view.Levels(o.side)| && ViewOk(Opened(view, o.State(), i), instrument)
      modifies this
      ensures Valid() && fresh(levels - old(levels)) && old(levels) <= levels
      ensures live == old(live) + {o} && log == old(log) && view == Opened(old(view), o.State(), i)
    {
      hide ViewOk, SumRemaining, Recent, Resting, Tied, LevelTied, Flatten, LiveOk;
      LiveGrows(live, view.prices, o, o.price.value);
      ghost var v := Opened(view, o.State(), i);
      PlaceLevel(o, i);
      OpenedTied(o.side, i, o);
      view := v;
    }

    /** Opens a level of its own for the order, in sorted position. */
    method OpenQueue(o: Order) returns (ghost i: nat)
      requires Valid() && MayRest(view, o.State(), instrument) && o.price.Some?
      requires forall k :: 0 <= k < |Levels(o.side)| ==> Levels(o.side)[k].price != o.price.value
      modifies this
      ensures Valid() && fresh(levels - old(levels)) && old(levels) <= levels && live == old(live) + {o}
              && log == old(log)
      ensures i <= |old(view.Levels(o.side))| && view == Opened(old(view), o.State(), i)
      ensures Priced(old(AsBook()))
      ensures Flatten(view.Levels(o.side)) == Insert(old(Flatten(view.Levels(o.side))), o.State())
    {
      hide ViewOk, SumRemaining, Recent, Resting, Tied, LevelTied, Flatten, BookOk, Insert, InBook, LiveOk;
      LevelPrices(o.side);
      ValidBook();
      var at := BisectLevels(o.side, o.price.value);
      OpenedView(view, o.State(), instrument, at);
      OpenAt(o, at);
      i := at;
    }

    /** Inserting puts the order behind every order at its price or better. */
    method InsertOrder(o: Order)
      requires Valid() && MayRest(view, o.State(), instrument)
      modifies this, levels
      ensures Valid() && fresh(levels - old(levels)) && old(levels) <= levels && live == old(live) + {o}
      ensures o.price.Some? && Priced(old(AsBook()))
      ensures AsBook() == old(AsBook()).With(o.side, Insert(old(AsBook()).Orders(o.side), o.State()))
    {
      hide ViewOk, Tied, LiveOk, BookOk, Recent, Insert, Flatten, InBook;
      ValidBook();
      LevelPrices(o.side);
      var i := FindLevel(o.side, o.price.value);
      if i < |Levels(o.side)| {
        JoinedView(view, o.State(), instrument, i);
        JoinQueue(o, i);
      } else {
        ghost var _ := OpenQueue(o);
      }
    }

    /** What the matching loop leaves of a limit order may rest. */
    lemma {:induction false} RemainderRests(o: Order, was: OrderState, b: Book)
      requires Valid() && o.id !in orderIds && o.instrument == instrument && o.price.Some? && o.remaining != 0
      requires was.WellFormed() && SameTerms(o.State(), was) && BookOk(b, instrument)
      requires Priced(b) && var m := Walk(was, b.Orders(o.side.Opposite()));
               m.order == o.State() && m.rest == Flatten(view.Levels(o.side.Opposite()))
      ensures MayRest(view, o.State(), instrument)
    {
      hide ViewOk, Tied, LiveOk, Walk, UniqueIds, Uncrossed, DisjointIds;
      var opp := b.Orders(o.side.Opposite());
      assert SideOk(opp, o.side.Opposite(), instrument);
      WalkFillsOrder(was, opp);
      FrontPrice(o.side.Opposite());
      LevelPrices(o.side.Opposite());
    }

    /** Refused for another book's instrument or an id already resting here;
        otherwise exactly what the flat book does. */
    method AddOrder(o: Order) returns (r: Result<seq<Trade>>)
      requires Valid() && o.State().WellFormed()
      modifies this, levels, live, o
      ensures Valid() && fresh(levels - old(levels)) && live <= old(live) + {o}
      ensures o.instrument != instrument ==> r == Err(WrongInstrument)
      ensures o.instrument == instrument && o.id in old(orderIds) ==> r == Err(DuplicateOrderId)
      ensures r.Err? ==>
                && AsBook() == old(AsBook()) && live == old(live)
                && forall x :: x in live + {o} ==> x.remaining == old(x.remaining)
      ensures o.instrument == instrument && o.id !in old(orderIds) ==>
                && r.Ok? && Priced(old(AsBook()))
                && Add(old(AsBook()), old(o.State())) == Added(AsBook(), o.State(), r.value)
                && (forall x :: x in old(live) ==> x.remaining == old(x.remaining) - Traded(r.value, x.id))
    {
      hide ViewOk, Tied, LiveOk, BookOk, Recent, Insert, Walk, InBook, Traded;
      if o.instrument != instrument {
        return Err(WrongInstrument);
      }
      if o.id in orderIds {
        return Err(DuplicateOrderId);
      }
      ghost var was, b := o.State(), AsBook();
      ValidBook();
      var ts := MatchOrder(o);
      ValidBook();
      if !o.IsFilled() && o.price.Some? {
        RemainderRests(o, was, b);
        InsertOrder(o);
      }
      r := Ok(ts);
    }

    // ---- looking up and cancelling ----

    /** The side an order rests on, guessed from its price alone. */
    method IsBidPrice(price: int) returns (r: bool)
      ensures r <==> exists i :: 0 <= i < |bids| && bids[i].price == price
    {
      var i := 0;
      while i < |bids|
        invariant i <= |bids|
        invariant forall k :: 0 <= k < i ==> bids[k].price != price
      {
        if bids[i].price == price {
          return true;
        }
        i := i + 1;
      }
      r := false;
    }

    /** Where the order object of an indexed id is. */
    lemma {:induction false} Locate(id: OrderId) returns (side: Side, i: nat, j: nat)
      requires Valid() && id in orderIds
      ensures i < |Levels(side)| && |Levels(side)| == |view.Levels(side)|
      ensures j < |Levels(side)[i].orders| && |Levels(side)[i].orders| == |view.Levels(side)[i].orders|
      ensures Levels(side)[i] in levels && Levels(side)[i].orders[j] in live
      ensures Levels(side)[i].orders[j].id == id && Levels(side)[i].orders[j].State() == view.Levels(side)[i].orders[j]
      ensures Levels(side)[i].price == orderPriceMap[id]
      ensures forall k :: 0 <= k < |Levels(side)| && k != i ==> Levels(side)[k].price != orderPriceMap[id]
      ensures forall k :: 0 <= k < |Levels(side.Opposite())| ==> Levels(side.Opposite())[k].price != orderPriceMap[id]
      ensures forall k :: 0 <= k < |Levels(side)[i].orders| && k != j ==> Levels(side)[i].orders[k].id != id
    {
      hide ViewOk, SumRemaining, Recent, LiveOk;
      side, i, j := FindIndexed(view, instrument, id);
      LevelPrices(side);
      LevelPrices(side.Opposite());
      var l, v := Levels(side)[i], view.Levels(side)[i];
      assert LevelTied(l, v);
      assert forall k :: 0 <= k < |l.orders| ==> l.orders[k].State().id == v.orders[k].id;
      assert l.orders[j] in l.orders;
    }

    /** The guess is right: no bid level and ask level share a price. */
    method GuessSide(price: int, ghost side: Side, ghost at: nat) returns (s: Side)
      requires at < |Levels(side)| && Levels(side)[at].price == price
      requires forall k :: 0 <= k < |Levels(side.Opposite())| ==> Levels(side.Opposite())[k].price != price
      ensures s == side
    {
      var bid := IsBidPrice(price);
      assert side.Buy? ==> bids[at].price == price;
      assert side.Sell? ==> Levels(side.Opposite()) == bids;
      s := if bid then Buy else Sell;
    }

    /** Finds exactly the resting orders, each by its own id. */
    method GetOrder(id: OrderId) returns (r: Order?)
      requires Valid()
      ensures r == null <==> id !in orderIds
      ensures r != null ==> r in live && r.id == id
    {
      hide ViewOk, Tied, Recent, LiveOk;
      if id !in orderPriceMap {
        return null;
      }
      ghost var side, at, j := Locate(id);
      var price := orderPriceMap[id];
      var s := GuessSide(price, side, at);
      var i := FindLevel(s, price);
      var k := 0;
      while k < |Levels(s)[i].orders|
        invariant k <= j
      {
        if Levels(s)[i].orders[k].id == id {
          return Levels(s)[i].orders[k];
        }
        k := k + 1;
      }
      r := null;
    }

    /** How taking the j-th order out of the i-th level changes the objects of the book. */
    twostate predicate OrderDropped(side: Side, i: nat, j: nat)
      reads this, levels, live
    {
      && i < old(|Levels(side)|) && levels == old(levels)
      && var l := old(Levels(side)[i]);
      && j < old(|l.orders|) && l in levels
      && l.orders == old(l.orders[..j] + l.orders[j + 1..])
      && l.totalQuantity == old(l.totalQuantity) - old(l.orders[j].remaining)
      && live == old(live) - {old(l.orders[j])}
      && (forall k :: k in levels && k != l ==> k.orders == old(k.orders) && k.totalQuantity == old(k.totalQuantity))
      && (forall x :: x in old(live) && x in live ==> x.remaining == old(x.remaining))
      && Levels(side) == (if old(|l.orders|) == 1 then old(Levels(side)[..i] + Levels(side)[i + 1..])
         else old(Levels(side)))
      && Levels(side.Opposite()) == old(Levels(side.Opposite()))
    }

    /** An order object sits in one place only. */
    ghost predicate Alone(side: Side, i: nat, j: nat)
      reads this, Levels(side), Levels(side.Opposite())
    {
      && i < |Levels(side)| && j < |Levels(side)[i].orders|
      && var m := Levels(side)[i].orders[j];
      && (forall k :: 0 <= k < |Levels(side)| && k != i ==> m !in Levels(side)[k].orders)
      && (forall k :: 0 <= k < |Levels(side.Opposite())| ==> m !in Levels(side.Opposite())[k].orders)
      && m !in Levels(side)[i].orders[..j] && m !in Levels(side)[i].orders[j + 1..]
    }

    lemma {:induction false} OrderAlone(side: Side, i: nat, j: nat)
      requires Valid() && i < |Levels(side)| && j < |Levels(side)[i].orders|
      ensures Alone(side, i, j)
    {
      hide ViewOk, SumRemaining, Recent, LiveOk, Flatten, Indexed;
      var vs, opp := view.Levels(side), view.Levels(side.Opposite());
      ViewFromSide(view, side, instrument);
      assert LevelTied(Levels(side)[i], vs[i]);
      PlacedOnce(side, vs, opp, view.prices, instrument, i, j);
      var m := Levels(side)[i].orders[j];
      forall k | 0 <= k < |Levels(side)|
        ensures k != i ==> m !in Levels(side)[k].orders
        ensures k == i ==> m !in Levels(side)[i].orders[..j] && m !in Levels(side)[i].orders[j + 1..]
      {
        var l := Levels(side)[k];
        assert LevelTied(l, vs[k]);
        assert forall h :: 0 <= h < |l.orders| ==> l.orders[h].State().id == vs[k].orders[h].id;
      }
      forall k | 0 <= k < |Levels(side.Opposite())|
        ensures m !in Levels(side.Opposite())[k].orders
      {
        var l := Levels(side.Opposite())[k];
        assert LevelTied(l, opp[k]);
        assert forall h :: 0 <= h < |l.orders| ==> l.orders[h].State().id == opp[k].orders[h].id;
      }
    }

    /** Levels that do not hold the dropped order still stand for the same views. */
    twostate lemma {:induction false} DroppedElsewhere(ls: seq<PriceLevel>, new vs: seq<LevelView>, new side: Side,
                                                       new i: nat, new j: nat)
      requires OrderDropped(side, i, j) && old(Tied(ls, vs, levels, live))
      requires forall k :: 0 <= k < |ls| ==>
                 ls[k] != old(Levels(side)[i]) && old(Levels(side)[i].orders[j]) !in old(ls[k].orders)
      ensures Tied(ls, vs, levels, live)
    {
      forall k | 0 <= k < |ls|
        ensures LevelTied(ls[k], vs[k])
        ensures ls[k] in levels && forall x :: x in ls[k].orders ==> x in live
      {
        assert old(LevelTied(ls[k], vs[k]));
        assert ls[k].orders == old(ls[k].orders);
      }
    }

    /** The level that lost an order. */
    twostate lemma {:induction false} DroppedLevel(new side: Side, new i: nat, new j: nat)
      requires OrderDropped(side, i, j) && old(CutAt(side, i)) && old(Alone(side, i, j))
      ensures var l, v := old(Levels(side)[i]), old(view.Levels(side))[i];
              && j < |v.orders| && |v.orders| == old(|Levels(side)[i].orders|)
              && LevelTied(l, LevelView(v.price, v.orders[..j] + v.orders[j + 1..]))
              && forall x :: x in l.orders ==> x in live
    {
      hide Tied, SumRemaining;
      var l, v := old(Levels(side)[i]), old(view.Levels(side))[i];
      assert old(l.orders[j].State()) == v.orders[j];
      SumRemainingDrop(v.orders, j);
      forall k | 0 <= k < |l.orders|
        ensures l.orders[k] in live
        ensures l.orders[k].State() == (v.orders[..j] + v.orders[j + 1..])[k]
      {
        var h := if k < j then k else k + 1;
        assert l.orders[k] == old(l.orders)[h] && old(l.orders[h].State()) == v.orders[h];
        assert old(l.orders)[h] != old(l.orders)[j];
      }
    }

    twostate lemma {:induction false} DroppedTied(new side: Side, new i: nat, new j: nat)
      requires OrderDropped(side, i, j) && old(CutAt(side, i)) && old(Alone(side, i, j))
      ensures i < |old(view.Levels(side))| && j < |old(view.Levels(side))[i].orders|
      ensures Tied(Levels(side), Removed(old(view.Levels(side)), i, j), levels, live)
      ensures Tied(Levels(side.Opposite()), old(view.Levels(side.Opposite())), levels, live)
    {
      hide LevelTied, Tied;
      var ls, vs, opp := old(Levels(side)), old(view.Levels(side)), old(view.Levels(side.Opposite()));
      DroppedElsewhere(Levels(side.Opposite()), opp, side, i, j);
      DroppedElsewhere(ls[..i], vs[..i], side, i, j);
      DroppedElsewhere(ls[i + 1..], vs[i + 1..], side, i, j);
      DroppedLevel(side, i, j);
      var xs := vs[i].orders;
      if |xs| == 1 {
        TiedConcat(ls[..i], vs[..i], ls[i + 1..], vs[i + 1..], levels, live);
      } else {
        var v' := vs[i].(orders := xs[..j] + xs[j + 1..]);
        TiedAround(ls, vs, i, v', levels, live);
      }
    }

    /** Removes the order found in the i-th level of a side, and the level if
        that empties it. */
    method DropOrder(side: Side, i: nat, ghost j: nat, id: OrderId) returns (r: Order)
      requires i < |Levels(side)| && j < |Levels(side)[i].orders| && Levels(side)[i].orders[j].id == id
      requires forall k :: 0 <= k < |Levels(side)[i].orders| && k != j ==> Levels(side)[i].orders[k].id != id
      requires Levels(side)[i] in levels
      modifies this, Levels(side)[i]
      ensures r == old(Levels(side)[i].orders[j])
      ensures OrderDropped(side, i, j)
      ensures orderPriceMap == old(orderPriceMap) - {id} && orderIds == old(orderIds) - {id}
      ensures view == old(view) && log == old(log) && trades == old(trades)
    {
      var level := Levels(side)[i];
      var o, at := level.RemoveOrder(id);
      assert o != null && at == j;
      r := o;
      orderPriceMap := orderPriceMap - {id};
      orderIds := orderIds - {id};
      live := live - {r};
      if level.IsEmpty() {
        var ls := Levels(side);
        SetLevels(side, ls[..i] + ls[i + 1..]);
      }
    }

    /** Succeeds exactly when the id rests here, returns that very order, and
        leaves every other order in place. */
    method CancelOrder(id: OrderId) returns (r: Order?)
      requires Valid()
      modifies this, levels
      ensures Valid() && levels == old(levels)
      ensures r == null <==> id !in old(orderIds)
      ensures r != null ==> r in old(live) && r.id == id && live == old(live) - {r} && orderIds == old(orderIds) - {id}
      ensures r == null ==> live == old(live) && orderIds == old(orderIds)
      ensures AsBook() == Cancel(old(AsBook()), id)
    {
      hide ViewOk, Tied, Recent, LiveOk, LevelTied, CutAt, Alone, Flatten, SumRemaining, InBook, BookOk;
      if id !in orderPriceMap {
        ValidBook();
        CancelNothing(AsBook(), id);
        return null;
      }
      ghost var side, at, j := Locate(id);
      var price := orderPriceMap[id];
      var s := GuessSide(price, side, at);
      var i := FindLevel(s, price);
      CutLevels(s, i);
      OrderAlone(s, i, j);
      DroppedView(view, log, s, instrument, i, j);
      ghost var v := Dropped(view, s, i, j);
      LiveShrinks(live, view.prices, Levels(s)[i].orders[j]);
      r := DropOrder(s, i, j, id);
      DroppedTied(s, i, j);
      view := v;
    }

    /** The order objects of a side, in priority order. */
    method RestingOrders(side: Side) returns (all: seq<Order>)
      requires Valid()
      ensures var xs := AsBook().Orders(side);
              |all| == |xs| && forall k :: 0 <= k < |all| ==> all[k] in live && all[k].State() == xs[k]
    {
      hide ViewOk, SumRemaining, Recent, LiveOk, LevelTied, Flatten;
      all := [];
      ghost var vs := view.Levels(side);
      assert Tied(Levels(side), vs, levels, live);
      NothingFlattened();
      var n := 0;
      while n < |Levels(side)|
        invariant n <= |Levels(side)| && |all| == |Flatten(vs[..n])|
        invariant forall k :: 0 <= k < |all| ==> all[k] in live && all[k].State() == Flatten(vs[..n])[k]
      {
        FlattenSnoc(vs, n);
        assert LevelTied(Levels(side)[n], vs[n]);
        LevelStates(Levels(side)[n], vs[n]);
        all := all + Levels(side)[n].orders;
        n := n + 1;
      }
      assert vs[..|vs|] == vs;
    }

    // ---- market data ----

    lemma {:induction false} LevelFacts(side: Side)
      requires Valid()
      ensures var ls, xs := Levels(side), AsBook().Orders(side);
              && (forall i :: 0 <= i < |ls| ==> AtPrice(xs, ls[i].price) != [])
              && (forall i :: 0 <= i < |ls| ==> ls[i].totalQuantity == SumRemaining(AtPrice(xs, ls[i].price)))
              && (forall i, j :: 0 <= i < j < |ls| ==> Key(side, ls[i].price) < Key(side, ls[j].price))
              && (forall x :: x in xs ==> x.price.Some? && exists k :: 0 <= k < |ls| && ls[k].price == x.price.value)
    {
      hide SumRemaining, Recent, LiveOk, AtPrice;
      var ls, vs := Levels(side), view.Levels(side);
      LevelPrices(side);
      ViewFromSide(view, side, instrument);
      assert Tied(ls, vs, levels, live);
      LevelDepths(vs, side, instrument);
      forall i | 0 <= i < |ls|
        ensures AtPrice(AsBook().Orders(side), ls[i].price) == vs[i].orders && vs[i].orders != []
        ensures ls[i].totalQuantity == SumRemaining(vs[i].orders)
      {
        assert LevelTied(ls[i], vs[i]);
      }
      forall x | x in AsBook().Orders(side)
        ensures x.price.Some? && exists k :: 0 <= k < |ls| && ls[k].price == x.price.value
      {
        var m :| 0 <= m < |Flatten(vs)| && Flatten(vs)[m] == x;
        var k, _ := FlattenResting(vs, side, instrument, m);
        assert ls[k].price == x.price.value;
      }
    }

    /** One side of a depth snapshot: the best n prices, best first, each with
        the total quantity resting at that price. */
    method Depth(side: Side, n: nat) returns (d: seq<(int, int)>)
      requires Valid()
      ensures forall i :: 0 <= i < |d| ==> AtPrice(AsBook().Orders(side), d[i].0) != []
      ensures forall i :: 0 <= i < |d| ==> d[i].1 == SumRemaining(AtPrice(AsBook().Orders(side), d[i].0))
      ensures forall i, j :: 0 <= i < j < |d| ==> Key(side, d[i].0) < Key(side, d[j].0)
      ensures |d| <= n && forall x :: x in AsBook().Orders(side) ==>
                x.price.Some? && ((exists i :: 0 <= i < |d| && d[i].0 == x.price.value) ||
                                  (|d| == n && forall i :: 0 <= i < |d| ==>
                                    Key(side, d[i].0) < Key(side, x.price.value)))
    {
      hide SumRemaining, AtPrice, Valid, AsBook;
      d := [];
      var ls := Levels(side);
      LevelFacts(side);
      while |d| < n && |d| < |ls|
        invariant |d| <= n && |d| <= |ls|
        invariant forall i :: 0 <= i < |d| ==> d[i] == (ls[i].price, ls[i].totalQuantity)
      {
        d := d + [(ls[|d|].price, ls[|d|].totalQuantity)];
      }
    }

    /** The documentation promises the newest trade first; the code returns the
        last `limit` trades oldest first, everything for limit 0, and for a
        negative limit all but the first -limit. */
    method GetRecentTrades(limit: int) returns (r: seq<Trade>)
      requires Valid()
      ensures var kept := if |log| <= 100 then log else log[|log| - 100..];
              && (limit > 0 ==> r == if |kept| <= limit then kept else log[|log| - limit..])
              && (limit == 0 ==> r == kept)
              && (limit < 0 ==> r == if -limit <= |kept| then kept[-limit..] else [])
    {
      var n := |trades|;
      var from := if limit > 0 then n - limit else -limit;
      r := trades[if from < 0 then 0 else if from > n then n else from..];
    }
  }

  datatype Reduction = Reduction(side: Side, q: int, level: PriceLevel, m: Order)

  /** A reduction, and levels it leaves alone with their views. */
  datatype Beside = Beside(c: Reduction, ls: seq<PriceLevel>, vs: seq<LevelView>)
}
