/** A side of the book as price levels, each a queue of orders, and how that
    structure represents the flat price-time list. */
module PriceLevels {
  import opened Orders
  import opened PriceTime
  import opened BookLaws

  datatype LevelView = LevelView(price: int, orders: seq<OrderState>)

  /** The values behind an order book object: both sides and the id index. */
  datatype BookView = BookView(bids: seq<LevelView>, asks: seq<LevelView>, prices: map<OrderId, int>) {
    function Levels(side: Side): seq<LevelView> {
      if side.Buy? then bids else asks
    }

    function With(side: Side, ls: seq<LevelView>): BookView {
      if side.Buy? then this.(bids := ls) else this.(asks := ls)
    }
  }

  function Flatten(ls: seq<LevelView>): seq<OrderState> {
    if ls == [] then [] else ls[0].orders + Flatten(ls[1..])
  }

  function Flat(v: BookView, log: seq<Trade>): Book {
    Book(Flatten(v.bids), Flatten(v.asks), log)
  }

  // ---- the invariant ----

  predicate LevelOk(l: LevelView, side: Side, instrument: InstrumentId) {
    && l.orders != []
    && (forall j :: 0 <= j < |l.orders| ==>
          Resting(l.orders[j], side, instrument) && l.orders[j].price.value == l.price)
    && UniqueIds(l.orders)
  }

  predicate LevelsOk(ls: seq<LevelView>, side: Side, instrument: InstrumentId) {
    && (forall i :: 0 <= i < |ls| ==> LevelOk(ls[i], side, instrument))
    && (forall i, j :: 0 <= i < j < |ls| ==> Key(side, ls[i].price) < Key(side, ls[j].price))
  }

  /** The index sends every resting id to the price it rests at. */
  predicate Indexed(xs: seq<OrderState>, prices: map<OrderId, int>) {
    forall k :: 0 <= k < |xs| ==>
      xs[k].price.Some? && xs[k].id in prices && prices[xs[k].id] == xs[k].price.value
  }

  ghost predicate ViewOk(v: BookView, instrument: InstrumentId) {
    && LevelsOk(v.bids, Buy, instrument)
    && LevelsOk(v.asks, Sell, instrument)
    && (v.bids != [] && v.asks != [] ==> v.bids[0].price < v.asks[0].price)
    && Indexed(Flatten(v.bids), v.prices)
    && Indexed(Flatten(v.asks), v.prices)
    && (forall id :: id in v.prices ==> HasId(Flatten(v.bids), id) || HasId(Flatten(v.asks), id))
  }

  // ---- flattening ----

  lemma {:induction false} FlattenConcat(a: seq<LevelView>, b: seq<LevelView>)
    ensures Flatten(a + b) == Flatten(a) + Flatten(b)
  {
    if a == [] {
      assert a + b == b;
    } else {
      assert (a + b)[1..] == a[1..] + b;
      FlattenConcat(a[1..], b);
    }
  }

  /** Where an order of a flattened side sits. */
  lemma {:induction false} Locate(ls: seq<LevelView>, m: nat) returns (i: nat, j: nat)
    requires m < |Flatten(ls)|
    ensures i < |ls| && j < |ls[i].orders| && Flatten(ls)[m] == ls[i].orders[j]
    ensures m == |Flatten(ls[..i])| + j
  {
    if m < |ls[0].orders| {
      i, j := 0, m;
      assert ls[..0] == [];
    } else {
      i, j := Locate(ls[1..], m - |ls[0].orders|);
      assert ls[..i + 1][1..] == ls[1..][..i];
      i := i + 1;
    }
  }

  lemma {:induction false} NothingFlattened()
    ensures Flatten([]) == []
  {
  }

  lemma {:induction false} FlattenSnoc(ls: seq<LevelView>, n: nat)
    requires n < |ls|
    ensures Flatten(ls[..n + 1]) == Flatten(ls[..n]) + ls[n].orders
  {
    FlattenConcat(ls[..n], [ls[n]]);
    assert ls[..n + 1] == ls[..n] + [ls[n]];
    assert [ls[n]][1..] == [];
  }

  lemma {:induction false} FlattenSplit(ls: seq<LevelView>, i: nat)
    requires i < |ls|
    ensures Flatten(ls) == Flatten(ls[..i]) + ls[i].orders + Flatten(ls[i + 1..])
  {
    FlattenConcat(ls[..i], ls[i..]);
    assert ls[..i] + ls[i..] == ls;
    assert Flatten(ls[i..]) == ls[i].orders + Flatten(ls[i + 1..]) by {
      assert ls[i..][0] == ls[i] && ls[i..][1..] == ls[i + 1..];
    }
    assert Flatten(ls[..i]) + (ls[i].orders + Flatten(ls[i + 1..]))
        == Flatten(ls[..i]) + ls[i].orders + Flatten(ls[i + 1..]);
  }

  /** Replacing one level. */
  lemma {:induction false} ReplaceLevelOk(ls: seq<LevelView>, i: nat, l: LevelView, side: Side,
                                          instrument: InstrumentId)
    requires LevelsOk(ls, side, instrument) && i < |ls|
    requires l.price == ls[i].price && LevelOk(l, side, instrument)
    ensures LevelsOk(ls[i := l], side, instrument)
  {
  }

  /** Dropping one level. */
  lemma {:induction false} DropLevelOk(ls: seq<LevelView>, i: nat, side: Side, instrument: InstrumentId)
    requires LevelsOk(ls, side, instrument) && i < |ls|
    ensures LevelsOk(ls[..i] + ls[i + 1..], side, instrument)
  {
  }

  lemma {:induction false} LocatedAt(ls: seq<LevelView>, i: nat, j: nat) returns (m: nat)
    requires i < |ls| && j < |ls[i].orders|
    ensures m == |Flatten(ls[..i])| + j && m < |Flatten(ls)| && Flatten(ls)[m] == ls[i].orders[j]
  {
    FlattenSplit(ls, i);
    m := |Flatten(ls[..i])| + j;
  }

  lemma {:induction false} FlattenResting(ls: seq<LevelView>, side: Side, instrument: InstrumentId, m: nat)
    returns (i: nat, j: nat)
    requires LevelsOk(ls, side, instrument) && m < |Flatten(ls)|
    ensures i < |ls| && j < |ls[i].orders| && Flatten(ls)[m] == ls[i].orders[j]
    ensures m == |Flatten(ls[..i])| + j
    ensures Resting(Flatten(ls)[m], side, instrument) && Flatten(ls)[m].price.value == ls[i].price
  {
    i, j := Locate(ls, m);
    assert LevelOk(ls[i], side, instrument);
  }

  lemma {:induction false} PrefixGrows(ls: seq<LevelView>, i: nat, i': nat)
    requires i < i' <= |ls|
    ensures |Flatten(ls[..i])| + |ls[i].orders| <= |Flatten(ls[..i'])|
  {
    assert ls[..i'][..i] == ls[..i];
    FlattenSplit(ls[..i'], i);
  }

  /** A well-formed, indexed stack of levels flattens to a well-formed side. */
  lemma {:induction false} FlattenOk(ls: seq<LevelView>, side: Side, instrument: InstrumentId,
                                     prices: map<OrderId, int>)
    requires LevelsOk(ls, side, instrument) && Indexed(Flatten(ls), prices)
    ensures SideOk(Flatten(ls), side, instrument)
  {
    var xs := Flatten(ls);
    forall m | 0 <= m < |xs|
      ensures Resting(xs[m], side, instrument)
    {
      var i, j := FlattenResting(ls, side, instrument, m);
    }
    forall m, m' | 0 <= m < m' < |xs|
      ensures Key(side, xs[m].price.value) <= Key(side, xs[m'].price.value)
      ensures xs[m].id != xs[m'].id
    {
      var i, j := FlattenResting(ls, side, instrument, m);
      var i', j' := FlattenResting(ls, side, instrument, m');
      if i' < i {
        PrefixGrows(ls, i', i);
      }
      if i == i' {
        assert LevelOk(ls[i], side, instrument);
      }
    }
  }

  /** The representation theorem: a well-formed view is a well-formed book. */
  lemma {:induction false} ViewIsBook(v: BookView, log: seq<Trade>, instrument: InstrumentId)
    requires ViewOk(v, instrument)
    ensures BookOk(Flat(v, log), instrument)
    ensures forall id :: id in v.prices <==> InBook(Flat(v, log), id)
  {
    FlattenOk(v.bids, Buy, instrument, v.prices);
    FlattenOk(v.asks, Sell, instrument, v.prices);
    var b := Flat(v, log);
    forall m, m' | 0 <= m < |b.bids| && 0 <= m' < |b.asks|
      ensures b.bids[m].price.value < b.asks[m'].price.value
    {
      var i, _ := FlattenResting(v.bids, Buy, instrument, m);
      var i', _ := FlattenResting(v.asks, Sell, instrument, m');
    }
  }

  // ---- the front of a side ----

  /** Fill the first order of the first level; a filled order leaves, and so
      does a level left empty. */
  function FrontFilled(ls: seq<LevelView>, q: int): seq<LevelView>
    requires ls != [] && ls[0].orders != []
  {
    var l := ls[0];
    if q != l.orders[0].remaining then
      [l.(orders := [l.orders[0].Filled(q)] + l.orders[1..])] + ls[1..]
    else if |l.orders| == 1 then ls[1..]
    else [l.(orders := l.orders[1..])] + ls[1..]
  }

  lemma {:induction false} FrontFilledOk(ls: seq<LevelView>, side: Side, instrument: InstrumentId, q: int)
    requires LevelsOk(ls, side, instrument) && ls != []
    requires ls[0].orders != [] && 0 < q <= ls[0].orders[0].remaining
    ensures LevelsOk(FrontFilled(ls, q), side, instrument)
    ensures FrontFilled(ls, q) != [] ==> Key(side, ls[0].price) <= Key(side, FrontFilled(ls, q)[0].price)
  {
    assert LevelOk(ls[0], side, instrument);
    var l := ls[0];
    if q != l.orders[0].remaining {
      var l' := l.(orders := [l.orders[0].Filled(q)] + l.orders[1..]);
      assert forall j :: 0 <= j < |l'.orders| ==>
          l'.orders[j] == if j == 0 then l.orders[0].Filled(q) else l.orders[j];
      assert LevelOk(l', side, instrument);
      ReplaceLevelOk(ls, 0, l', side, instrument);
      assert FrontFilled(ls, q) == ls[0 := l'];
    } else if |l.orders| == 1 {
      DropLevelOk(ls, 0, side, instrument);
      assert FrontFilled(ls, q) == ls[..0] + ls[1..];
    } else {
      var l' := l.(orders := l.orders[1..]);
      assert LevelOk(l', side, instrument);
      ReplaceLevelOk(ls, 0, l', side, instrument);
      assert FrontFilled(ls, q) == ls[0 := l'];
    }
  }

  lemma {:induction false} FrontFilledFlat(ls: seq<LevelView>, q: int)
    requires ls != [] && ls[0].orders != []
    ensures Flatten(ls) != [] && Flatten(ls)[0] == ls[0].orders[0]
    ensures q == ls[0].orders[0].remaining ==> Flatten(FrontFilled(ls, q)) == Flatten(ls)[1..]
    ensures q != ls[0].orders[0].remaining ==>
              Flatten(FrontFilled(ls, q)) == [ls[0].orders[0].Filled(q)] + Flatten(ls)[1..]
  {
  }

  // ---- inserting ----

  lemma {:induction false} RankBehind(xs: seq<OrderState>, ys: seq<OrderState>, side: Side, price: int)
    requires forall i :: 0 <= i < |xs| ==> xs[i].price.Some?
    requires forall i :: 0 <= i < |ys| ==> ys[i].price.Some?
    requires forall i :: 0 <= i < |xs| ==> Key(side, xs[i].price.value) <= Key(side, price)
    ensures Rank(xs + ys, side, price) == |xs| + Rank(ys, side, price)
  {
    if xs == [] {
      assert xs + ys == ys;
    } else {
      assert (xs + ys)[1..] == xs[1..] + ys;
      RankBehind(xs[1..], ys, side, price);
    }
  }

  lemma {:induction false} InsertBehind(xs: seq<OrderState>, ys: seq<OrderState>, o: OrderState)
    requires forall i :: 0 <= i < |xs| ==> xs[i].price.Some?
    requires forall i :: 0 <= i < |ys| ==> ys[i].price.Some?
    requires o.price.Some?
    requires forall i :: 0 <= i < |xs| ==> Key(o.side, xs[i].price.value) <= Key(o.side, o.price.value)
    ensures Insert(xs + ys, o) == xs + Insert(ys, o)
  {
    hide Rank;
    RankBehind(xs, ys, o.side, o.price.value);
    var r := Rank(ys, o.side, o.price.value);
    assert (xs + ys)[..|xs| + r] == xs + ys[..r] && (xs + ys)[|xs| + r..] == ys[r..];
    assert xs + ys[..r] + [o] + ys[r..] == xs + (ys[..r] + [o] + ys[r..]);
  }

  lemma {:induction false} FrontPrices(ls: seq<LevelView>, side: Side, instrument: InstrumentId, i: nat)
    requires LevelsOk(ls, side, instrument) && i <= |ls|
    ensures forall m :: 0 <= m < |Flatten(ls[..i])| ==>
              && Flatten(ls[..i])[m].price.Some?
              && exists k :: 0 <= k < i && Flatten(ls[..i])[m].price.value == ls[k].price
  {
    forall m | 0 <= m < |Flatten(ls[..i])|
      ensures Flatten(ls[..i])[m].price.Some?
      ensures exists k :: 0 <= k < i && Flatten(ls[..i])[m].price.value == ls[k].price
    {
      var k, _ := FlattenResting(ls[..i], side, instrument, m);
      assert ls[k].price == ls[..i][k].price;
    }
  }

  lemma {:induction false} BackPrices(ls: seq<LevelView>, side: Side, instrument: InstrumentId, i: nat)
    requires LevelsOk(ls, side, instrument) && i <= |ls|
    ensures forall m :: 0 <= m < |Flatten(ls[i..])| ==>
              && Flatten(ls[i..])[m].price.Some?
              && exists k :: i <= k < |ls| && Flatten(ls[i..])[m].price.value == ls[k].price
  {
    forall m | 0 <= m < |Flatten(ls[i..])|
      ensures Flatten(ls[i..])[m].price.Some?
      ensures exists k :: i <= k < |ls| && Flatten(ls[i..])[m].price.value == ls[k].price
    {
      var k, _ := FlattenResting(ls[i..], side, instrument, m);
      assert ls[i + k].price == ls[i..][k].price;
    }
  }

  /** Splitting a side where a newcomer would go: everything before is at its
      price or better, everything after strictly worse. */
  lemma {:induction false} InsertBetween(ls: seq<LevelView>, o: OrderState, instrument: InstrumentId, i: nat)
    requires LevelsOk(ls, o.side, instrument) && i <= |ls| && o.price.Some?
    requires forall k :: 0 <= k < i ==> Key(o.side, ls[k].price) <= Key(o.side, o.price.value)
    requires forall k :: i <= k < |ls| ==> Key(o.side, ls[k].price) > Key(o.side, o.price.value)
    ensures forall m :: 0 <= m < |Flatten(ls)| ==> Flatten(ls)[m].price.Some?
    ensures Insert(Flatten(ls), o) == Flatten(ls[..i]) + [o] + Flatten(ls[i..])
  {
    hide Flatten;
    var before, after := Flatten(ls[..i]), Flatten(ls[i..]);
    FlattenConcat(ls[..i], ls[i..]);
    assert ls[..i] + ls[i..] == ls;
    FrontPrices(ls, o.side, instrument, i);
    BackPrices(ls, o.side, instrument, i);
    InsertBehind(before, after, o);
    assert Rank(after, o.side, o.price.value) == 0;
    assert Insert(after, o) == [o] + after;
    assert before + ([o] + after) == before + [o] + after;
  }

  /** Joining the queue of an existing level is inserting into the flat list. */
  lemma {:induction false} JoinLevel(ls: seq<LevelView>, o: OrderState, instrument: InstrumentId, i: nat)
    requires LevelsOk(ls, o.side, instrument) && Resting(o, o.side, instrument)
    requires i < |ls| && ls[i].price == o.price.value && !HasId(ls[i].orders, o.id)
    ensures forall m :: 0 <= m < |Flatten(ls)| ==> Flatten(ls)[m].price.Some?
    ensures var ls' := ls[i := LevelView(ls[i].price, ls[i].orders + [o])];
            LevelsOk(ls', o.side, instrument) && Flatten(ls') == Insert(Flatten(ls), o)
  {
    var l' := LevelView(ls[i].price, ls[i].orders + [o]);
    var ls' := ls[i := l'];
    assert LevelOk(ls[i], o.side, instrument);
    assert LevelOk(l', o.side, instrument);
    InsertBetween(ls, o, instrument, i + 1);
    JoinedFlat(ls, o, i);
  }

  lemma {:induction false} JoinedFlat(ls: seq<LevelView>, o: OrderState, i: nat)
    requires i < |ls|
    ensures Flatten(ls[i := LevelView(ls[i].price, ls[i].orders + [o])]) ==
            Flatten(ls[..i + 1]) + [o] + Flatten(ls[i + 1..])
  {
    var ls' := ls[i := LevelView(ls[i].price, ls[i].orders + [o])];
    FlattenSplit(ls', i);
    assert ls'[..i] == ls[..i] && ls'[i + 1..] == ls[i + 1..];
    FlattenSplit(ls[..i + 1], i);
    assert ls[..i + 1][..i] == ls[..i] && ls[..i + 1][i + 1..] == [];
    var before, xs := Flatten(ls[..i]), ls[i].orders;
    assert before + xs + [] == before + xs;
    assert before + (xs + [o]) == before + xs + [o];
  }

  /** Opening a level at its sorted position is inserting into the flat list. */
  lemma {:induction false} OpenLevel(ls: seq<LevelView>, o: OrderState, instrument: InstrumentId, i: nat)
    requires LevelsOk(ls, o.side, instrument) && Resting(o, o.side, instrument) && i <= |ls|
    requires forall k :: 0 <= k < i ==> Key(o.side, ls[k].price) < Key(o.side, o.price.value)
    requires forall k :: i <= k < |ls| ==> Key(o.side, ls[k].price) > Key(o.side, o.price.value)
    ensures forall m :: 0 <= m < |Flatten(ls)| ==> Flatten(ls)[m].price.Some?
    ensures var ls' := ls[..i] + [LevelView(o.price.value, [o])] + ls[i..];
            LevelsOk(ls', o.side, instrument) && Flatten(ls') == Insert(Flatten(ls), o)
  {
    var ls' := ls[..i] + [LevelView(o.price.value, [o])] + ls[i..];
    InsertBetween(ls, o, instrument, i);
    OpenLevelOk(ls, o, instrument, i);
    FlattenSplit(ls', i);
    assert ls'[..i] == ls[..i] && ls'[i + 1..] == ls[i..];
  }

  lemma {:induction false} OpenLevelOk(ls: seq<LevelView>, o: OrderState, instrument: InstrumentId, i: nat)
    requires LevelsOk(ls, o.side, instrument) && Resting(o, o.side, instrument) && i <= |ls|
    requires forall k :: 0 <= k < i ==> Key(o.side, ls[k].price) < Key(o.side, o.price.value)
    requires forall k :: i <= k < |ls| ==> Key(o.side, ls[k].price) > Key(o.side, o.price.value)
    ensures LevelsOk(ls[..i] + [LevelView(o.price.value, [o])] + ls[i..], o.side, instrument)
  {
  }

  // ---- removing ----

  /** Take the j-th order out of the i-th level, and the level too if that
      empties it. */
  function Removed(ls: seq<LevelView>, i: nat, j: nat): seq<LevelView>
    requires i < |ls| && j < |ls[i].orders|
  {
    if |ls[i].orders| == 1 then ls[..i] + ls[i + 1..]
    else ls[i := ls[i].(orders := ls[i].orders[..j] + ls[i].orders[j + 1..])]
  }

  lemma {:induction false} RemovedOk(ls: seq<LevelView>, side: Side, instrument: InstrumentId, i: nat, j: nat)
    requires LevelsOk(ls, side, instrument) && i < |ls| && j < |ls[i].orders|
    ensures LevelsOk(Removed(ls, i, j), side, instrument)
  {
  }

  lemma {:induction false} RemovedFlat(ls: seq<LevelView>, i: nat, j: nat)
    requires i < |ls| && j < |ls[i].orders|
    ensures var m := |Flatten(ls[..i])| + j;
            && m < |Flatten(ls)|
            && Flatten(Removed(ls, i, j)) == Flatten(ls)[..m] + Flatten(ls)[m + 1..]
  {
    hide Flatten;
    var xs := ls[i].orders;
    var ls' := Removed(ls, i, j);
    var before, after := Flatten(ls[..i]), Flatten(ls[i + 1..]);
    FlattenSplit(ls, i);
    DropInMiddle(before, xs, after, j);
    if |xs| == 1 {
      FlattenConcat(ls[..i], ls[i + 1..]);
      assert before + (xs[..j] + xs[j + 1..]) + after == before + after;
    } else {
      FlattenSplit(ls', i);
      assert ls'[..i] == ls[..i] && ls'[i + 1..] == ls[i + 1..];
    }
  }

  lemma {:induction false} DropInMiddle(a: seq<OrderState>, xs: seq<OrderState>, b: seq<OrderState>, j: nat)
    requires j < |xs|
    ensures (a + xs + b)[..|a| + j] + (a + xs + b)[|a| + j + 1..] == a + (xs[..j] + xs[j + 1..]) + b
  {
  }

  // ---- what each change does to the whole view ----

  /** The view invariant seen from one side. */
  ghost predicate ViewSidesOk(side: Side, own: seq<LevelView>, opp: seq<LevelView>, prices: map<OrderId, int>,
                              instrument: InstrumentId)
  {
    && LevelsOk(own, side, instrument)
    && LevelsOk(opp, side.Opposite(), instrument)
    && (own != [] && opp != [] ==> Apart(side, own[0].price, opp[0].price))
    && Indexed(Flatten(own), prices)
    && Indexed(Flatten(opp), prices)
    && (forall id :: id in prices ==> HasId(Flatten(own), id) || HasId(Flatten(opp), id))
  }

  lemma {:induction false} ViewFromSide(v: BookView, side: Side, instrument: InstrumentId)
    ensures ViewOk(v, instrument) <==>
            ViewSidesOk(side, v.Levels(side), v.Levels(side.Opposite()), v.prices, instrument)
  {
  }

  lemma {:induction false} LevelsApart(v: BookView, side: Side, instrument: InstrumentId)
    requires ViewOk(v, instrument)
    ensures forall i, k :: 0 <= i < |v.Levels(side)| && 0 <= k < |v.Levels(side.Opposite())| ==>
              Apart(side, v.Levels(side)[i].price, v.Levels(side.Opposite())[k].price)
  {
  }

  lemma {:induction false} SidesAreBook(side: Side, own: seq<LevelView>, opp: seq<LevelView>, prices: map<OrderId, int>,
                     instrument: InstrumentId)
    requires ViewSidesOk(side, own, opp, prices, instrument)
    ensures SidesOk(side, Flatten(own), Flatten(opp), instrument)
  {
    var v := BookView([], [], prices).With(side, own).With(side.Opposite(), opp);
    ViewFromSide(v, side, instrument);
    ViewIsBook(v, [], instrument);
    BookFromSide(Flat(v, []), side, instrument);
  }

  lemma {:induction false} IndexedWithout(xs: seq<OrderState>, prices: map<OrderId, int>, id: OrderId)
    requires Indexed(xs, prices) && !HasId(xs, id)
    ensures Indexed(xs, prices - {id})
  {
  }

  lemma {:induction false} DropIndexed(xs: seq<OrderState>, k: nat, prices: map<OrderId, int>)
    requires k < |xs| && UniqueIds(xs) && Indexed(xs, prices)
    ensures Indexed(xs[..k] + xs[k + 1..], prices - {xs[k].id})
    ensures !HasId(xs[..k] + xs[k + 1..], xs[k].id)
  {
  }

  lemma {:induction false} DropHasId(xs: seq<OrderState>, k: nat, id: OrderId)
    requires k < |xs| && xs[k].id != id && HasId(xs, id)
    ensures HasId(xs[..k] + xs[k + 1..], id)
  {
    var m :| 0 <= m < |xs| && xs[m].id == id;
    var ys := xs[..k] + xs[k + 1..];
    assert ys[if m < k then m else m - 1] == xs[m];
  }

  lemma {:induction false} RemovedFront(ls: seq<LevelView>, side: Side, instrument: InstrumentId, i: nat, j: nat)
    requires LevelsOk(ls, side, instrument) && i < |ls| && j < |ls[i].orders|
    ensures Removed(ls, i, j) != [] ==> Key(side, ls[0].price) <= Key(side, Removed(ls, i, j)[0].price)
  {
  }

  lemma {:induction false} OnItsSide(side: Side, xs: seq<OrderState>, zs: seq<OrderState>, instrument: InstrumentId,
                                     prices: map<OrderId, int>, k: nat)
    requires SidesOk(side, xs, zs, instrument) && Indexed(xs, prices) && k < |xs|
    ensures UniqueIds(xs) && !HasId(zs, xs[k].id) && xs[k].id in prices
  {
  }

  /** Taking any order out of one side, with its index entry, keeps the view well formed. */
  lemma {:induction false} RemovedView(side: Side, own: seq<LevelView>, opp: seq<LevelView>, prices: map<OrderId, int>,
                    instrument: InstrumentId, i: nat, j: nat)
    requires ViewSidesOk(side, own, opp, prices, instrument)
    requires i < |own| && j < |own[i].orders|
    ensures ViewSidesOk(side, Removed(own, i, j), opp, prices - {own[i].orders[j].id}, instrument)
    ensures !HasId(Flatten(Removed(own, i, j)), own[i].orders[j].id)
    ensures !HasId(Flatten(opp), own[i].orders[j].id)
    ensures own[i].orders[j].id in prices
  {
    hide LevelsOk, Indexed, Flatten, Removed, HasId, SidesOk;
    var id := own[i].orders[j].id;
    var k := LocatedAt(own, i, j);
    var xs, zs, ys := Flatten(own), Flatten(opp), Flatten(Removed(own, i, j));
    SidesAreBook(side, own, opp, prices, instrument);
    RemovedOk(own, side, instrument, i, j);
    RemovedFront(own, side, instrument, i, j);
    RemovedFlat(own, i, j);
    assert ys == xs[..k] + xs[k + 1..];
    OnItsSide(side, xs, zs, instrument, prices, k);
    DropIndexed(xs, k, prices);
    IndexedWithout(zs, prices, id);
    forall other | other in prices - {id}
      ensures HasId(ys, other) || HasId(zs, other)
    {
      if HasId(xs, other) {
        DropHasId(xs, k, other);
      }
    }
  }

  lemma {:induction false} ShrinkIndexed(xs: seq<OrderState>, x: OrderState, prices: map<OrderId, int>)
    requires xs != [] && SameTerms(x, xs[0]) && Indexed(xs, prices)
    ensures Indexed([x] + xs[1..], prices)
    ensures forall id :: HasId(xs, id) ==> HasId([x] + xs[1..], id)
  {
    var ys := [x] + xs[1..];
    assert forall m :: 0 <= m < |ys| ==> ys[m] == if m == 0 then x else xs[m];
    forall id | HasId(xs, id)
      ensures HasId(ys, id)
    {
      var m :| 0 <= m < |xs| && xs[m].id == id;
      assert ys[m].id == id;
    }
  }

  /** Reducing the front order of one side keeps the view well formed. */
  lemma {:induction false} FrontShrunkView(side: Side, own: seq<LevelView>, opp: seq<LevelView>,
                                           prices: map<OrderId, int>,
                        instrument: InstrumentId, q: int)
    requires ViewSidesOk(side, own, opp, prices, instrument)
    requires own != [] && own[0].orders != [] && 0 < q < own[0].orders[0].remaining
    ensures ViewSidesOk(side, FrontFilled(own, q), opp, prices, instrument)
  {
    FrontFilledOk(own, side, instrument, q);
    FrontFilledFlat(own, q);
    ShrinkIndexed(Flatten(own), own[0].orders[0].Filled(q), prices);
  }

  /** Filling the front order completely is removing it. */
  lemma {:induction false} FrontGoneIsRemoved(ls: seq<LevelView>)
    requires ls != [] && ls[0].orders != []
    ensures FrontFilled(ls, ls[0].orders[0].remaining) == Removed(ls, 0, 0)
  {
    var l := ls[0];
    if |l.orders| > 1 {
      assert l.orders[..0] + l.orders[1..] == l.orders[1..];
      assert ls[0 := l.(orders := l.orders[1..])] == [l.(orders := l.orders[1..])] + ls[1..];
    }
  }

  lemma {:induction false} InsertIndexed(xs: seq<OrderState>, o: OrderState, prices: map<OrderId, int>)
    requires Indexed(xs, prices) && o.price.Some? && o.id !in prices
    ensures Indexed(Insert(xs, o), prices[o.id := o.price.value])
    ensures HasId(Insert(xs, o), o.id)
    ensures forall id :: HasId(xs, id) ==> HasId(Insert(xs, o), id)
  {
    var n := Rank(xs, o.side, o.price.value);
    var ys := Insert(xs, o);
    assert Spliced(ys, xs, n, o);
    forall id | HasId(xs, id)
      ensures HasId(ys, id)
    {
      var m :| 0 <= m < |xs| && xs[m].id == id;
      assert ys[if m < n then m else m + 1].id == id;
    }
  }

  /** Adding a new order to its side, with its index entry, keeps the view well
      formed when its price does not reach the other side. */
  lemma {:induction false} InsertedView(own: seq<LevelView>, own': seq<LevelView>, opp: seq<LevelView>,
                     prices: map<OrderId, int>, instrument: InstrumentId, o: OrderState)
    requires ViewSidesOk(o.side, own, opp, prices, instrument)
    requires o.price.Some? && o.id !in prices
    requires LevelsOk(own', o.side, instrument)
    requires Flatten(own') == Insert(Flatten(own), o)
    requires own' != [] && opp != [] ==> Apart(o.side, own'[0].price, opp[0].price)
    ensures ViewSidesOk(o.side, own', opp, prices[o.id := o.price.value], instrument)
  {
    InsertIndexed(Flatten(own), o, prices);
    assert forall id :: HasId(Flatten(opp), id) ==> id in prices;
  }

  lemma {:induction false} LevelsIndexed(ls: seq<LevelView>, prices: map<OrderId, int>)
    requires Indexed(Flatten(ls), prices)
    ensures forall i, j :: 0 <= i < |ls| && 0 <= j < |ls[i].orders| ==>
              ls[i].orders[j].id in prices && HasId(Flatten(ls), ls[i].orders[j].id)
  {
    forall i, j | 0 <= i < |ls| && 0 <= j < |ls[i].orders|
      ensures ls[i].orders[j].id in prices && HasId(Flatten(ls), ls[i].orders[j].id)
    {
      var m := LocatedAt(ls, i, j);
      assert Flatten(ls)[m] == ls[i].orders[j];
    }
  }

  /** An id rests in one place only. */
  lemma {:induction false} PlacedOnce(side: Side, own: seq<LevelView>, opp: seq<LevelView>, prices: map<OrderId, int>,
                    instrument: InstrumentId, i: nat, j: nat)
    requires ViewSidesOk(side, own, opp, prices, instrument)
    requires i < |own| && j < |own[i].orders|
    ensures forall i', j' :: 0 <= i' < |own| && 0 <= j' < |own[i'].orders| && (i' != i || j' != j) ==>
              own[i'].orders[j'].id != own[i].orders[j].id
    ensures forall i', j' :: 0 <= i' < |opp| && 0 <= j' < |opp[i'].orders| ==>
              opp[i'].orders[j'].id != own[i].orders[j].id
  {
    SidesAreBook(side, own, opp, prices, instrument);
    var m := LocatedAt(own, i, j);
    forall i', j' | 0 <= i' < |own| && 0 <= j' < |own[i'].orders| && (i' != i || j' != j)
      ensures own[i'].orders[j'].id != own[i].orders[j].id
    {
      var m' := LocatedAt(own, i', j');
      assert Resting(Flatten(own)[m], side, instrument) && Resting(Flatten(own)[m'], side, instrument);
      assert LevelOk(own[i], side, instrument) && LevelOk(own[i'], side, instrument);
    }
    forall i', j' | 0 <= i' < |opp| && 0 <= j' < |opp[i'].orders|
      ensures opp[i'].orders[j'].id != own[i].orders[j].id
    {
      var m' := LocatedAt(opp, i', j');
    }
  }

  /** Filling the front of one side, with the index entry of a filled order
      gone, keeps the view well formed. */
  lemma {:induction false} FrontFilledView(v: BookView, side: Side, instrument: InstrumentId, q: int)
    requires ViewOk(v, instrument) && v.Levels(side) != [] && v.Levels(side)[0].orders != []
    requires 0 < q <= v.Levels(side)[0].orders[0].remaining
    ensures var m := v.Levels(side)[0].orders[0];
            var v' := v.With(side, FrontFilled(v.Levels(side), q));
            ViewOk(if q == m.remaining then v'.(prices := v.prices - {m.id}) else v', instrument)
    ensures forall i, j :: 0 <= i < |v.Levels(side)| && 0 <= j < |v.Levels(side)[i].orders| && (i != 0 || j != 0) ==>
              v.Levels(side)[i].orders[j].id != v.Levels(side)[0].orders[0].id
    ensures forall i, j :: 0 <= i < |v.Levels(side.Opposite())| && 0 <= j < |v.Levels(side.Opposite())[i].orders| ==>
              v.Levels(side.Opposite())[i].orders[j].id != v.Levels(side)[0].orders[0].id
  {
    var ls, opp := v.Levels(side), v.Levels(side.Opposite());
    var m := ls[0].orders[0];
    var v' := v.With(side, FrontFilled(ls, q));
    ViewFromSide(v, side, instrument);
    PlacedOnce(side, ls, opp, v.prices, instrument, 0, 0);
    if q == m.remaining {
      FrontGoneIsRemoved(ls);
      RemovedView(side, ls, opp, v.prices, instrument, 0, 0);
      ViewFromSide(v'.(prices := v.prices - {m.id}), side, instrument);
    } else {
      FrontShrunkView(side, ls, opp, v.prices, instrument, q);
      ViewFromSide(v', side, instrument);
    }
  }

  /** The view with a newcomer at the end of an existing level's queue. */
  function Joined(v: BookView, o: OrderState, i: nat): BookView
    requires i < |v.Levels(o.side)| && o.price.Some?
  {
    var ls := v.Levels(o.side);
    v.With(o.side, ls[i := LevelView(ls[i].price, ls[i].orders + [o])]).(prices := v.prices[o.id := o.price.value])
  }

  /** The view with a newcomer in a level of its own. */
  function Opened(v: BookView, o: OrderState, i: nat): BookView
    requires i <= |v.Levels(o.side)| && o.price.Some?
  {
    var ls := v.Levels(o.side);
    v.With(o.side, ls[..i] + [LevelView(o.price.value, [o])] + ls[i..]).(prices := v.prices[o.id := o.price.value])
  }

  /** A newcomer that may rest: new here and not reaching the other side. */
  predicate MayRest(v: BookView, o: OrderState, instrument: InstrumentId) {
    && Resting(o, o.side, instrument)
    && o.id !in v.prices
    && (v.Levels(o.side.Opposite()) != [] ==>
          Apart(o.side, o.price.value, v.Levels(o.side.Opposite())[0].price))
  }

  lemma {:induction false} JoinedView(v: BookView, o: OrderState, instrument: InstrumentId, i: nat)
    requires ViewOk(v, instrument) && MayRest(v, o, instrument)
    requires i < |v.Levels(o.side)| && v.Levels(o.side)[i].price == o.price.value
    ensures forall m :: 0 <= m < |Flatten(v.Levels(o.side))| ==> Flatten(v.Levels(o.side))[m].price.Some?
    ensures ViewOk(Joined(v, o, i), instrument)
    ensures Flatten(Joined(v, o, i).Levels(o.side)) == Insert(Flatten(v.Levels(o.side)), o)
  {
    var ls, opp := v.Levels(o.side), v.Levels(o.side.Opposite());
    ViewFromSide(v, o.side, instrument);
    LevelsIndexed(ls, v.prices);
    JoinLevel(ls, o, instrument, i);
    var v' := Joined(v, o, i);
    InsertedView(ls, v'.Levels(o.side), opp, v.prices, instrument, o);
    ViewFromSide(v', o.side, instrument);
  }

  lemma {:induction false} OpenedView(v: BookView, o: OrderState, instrument: InstrumentId, i: nat)
    requires ViewOk(v, instrument) && MayRest(v, o, instrument)
    requires i <= |v.Levels(o.side)|
    requires forall k :: 0 <= k < i ==> Key(o.side, v.Levels(o.side)[k].price) < Key(o.side, o.price.value)
    requires forall k :: i <= k < |v.Levels(o.side)| ==>
               Key(o.side, v.Levels(o.side)[k].price) > Key(o.side, o.price.value)
    ensures forall m :: 0 <= m < |Flatten(v.Levels(o.side))| ==> Flatten(v.Levels(o.side))[m].price.Some?
    ensures ViewOk(Opened(v, o, i), instrument)
    ensures Flatten(Opened(v, o, i).Levels(o.side)) == Insert(Flatten(v.Levels(o.side)), o)
  {
    var ls, opp := v.Levels(o.side), v.Levels(o.side.Opposite());
    ViewFromSide(v, o.side, instrument);
    OpenLevel(ls, o, instrument, i);
    var v' := Opened(v, o, i);
    InsertedView(ls, v'.Levels(o.side), opp, v.prices, instrument, o);
    ViewFromSide(v', o.side, instrument);
  }

  /** The view without one order and its index entry. */
  function Dropped(v: BookView, side: Side, i: nat, j: nat): BookView
    requires i < |v.Levels(side)| && j < |v.Levels(side)[i].orders|
  {
    v.With(side, Removed(v.Levels(side), i, j)).(prices := v.prices - {v.Levels(side)[i].orders[j].id})
  }

  lemma {:induction false} OwnIdsUnique(side: Side, own: seq<LevelView>, opp: seq<LevelView>, prices: map<OrderId, int>,
                                        instrument: InstrumentId)
    requires ViewSidesOk(side, own, opp, prices, instrument)
    ensures UniqueIds(Flatten(own))
  {
    FlattenOk(own, side, instrument, prices);
  }

  /** Dropping an order from its level is cancelling it in the flat book. */
  lemma {:induction false} DroppedView(v: BookView, log: seq<Trade>, side: Side, instrument: InstrumentId, i: nat,
                                       j: nat)
    requires ViewOk(v, instrument)
    requires i < |v.Levels(side)| && j < |v.Levels(side)[i].orders|
    ensures ViewOk(Dropped(v, side, i, j), instrument)
    ensures Flat(Dropped(v, side, i, j), log) == Cancel(Flat(v, log), v.Levels(side)[i].orders[j].id)
  {
    hide ViewOk, ViewSidesOk, LevelsOk, Indexed, Flatten, Removed, HasId, SideOk, Without;
    var ls, opp := v.Levels(side), v.Levels(side.Opposite());
    var id := ls[i].orders[j].id;
    ViewFromSide(v, side, instrument);
    RemovedView(side, ls, opp, v.prices, instrument, i, j);
    var v' := Dropped(v, side, i, j);
    assert v'.Levels(side) == Removed(ls, i, j) && v'.Levels(side.Opposite()) == opp;
    ViewFromSide(v', side, instrument);
    OwnIdsUnique(side, ls, opp, v.prices, instrument);
    var m := LocatedAt(ls, i, j);
    RemovedFlat(ls, i, j);
    WithoutDrops(Flatten(ls), id, m);
    WithoutNothing(Flatten(opp), id);
  }

  /** Where an indexed id rests. */
  lemma {:induction false} FindIndexed(v: BookView, instrument: InstrumentId, id: OrderId)
    returns (side: Side, i: nat, j: nat)
    requires ViewOk(v, instrument) && id in v.prices
    ensures i < |v.Levels(side)| && j < |v.Levels(side)[i].orders| && v.Levels(side)[i].orders[j].id == id
    ensures v.prices[id] == v.Levels(side)[i].price
    ensures forall k :: 0 <= k < |v.Levels(side)| && k != i ==> v.Levels(side)[k].price != v.prices[id]
    ensures forall k :: 0 <= k < |v.Levels(side.Opposite())| ==> v.Levels(side.Opposite())[k].price != v.prices[id]
    ensures forall k :: 0 <= k < |v.Levels(side)[i].orders| && k != j ==> v.Levels(side)[i].orders[k].id != id
  {
    side := if HasId(Flatten(v.bids), id) then Buy else Sell;
    var xs := Flatten(v.Levels(side));
    var m :| 0 <= m < |xs| && xs[m].id == id;
    i, j := FlattenResting(v.Levels(side), side, instrument, m);
    LevelsApart(v, side, instrument);
    ViewFromSide(v, side, instrument);
    PlacedOnce(side, v.Levels(side), v.Levels(side.Opposite()), v.prices, instrument, i, j);
  }

  lemma {:induction false} AtPriceConcat(xs: seq<OrderState>, ys: seq<OrderState>, price: int)
    ensures AtPrice(xs + ys, price) == AtPrice(xs, price) + AtPrice(ys, price)
  {
    if xs == [] {
      assert xs + ys == ys;
    } else {
      var head := if xs[0].price == Some(price) then [xs[0]] else [];
      var a, b := AtPrice(xs[1..], price), AtPrice(ys, price);
      assert (xs + ys)[1..] == xs[1..] + ys;
      AtPriceConcat(xs[1..], ys, price);
      assert head + (a + b) == head + a + b;
    }
  }

  lemma {:induction false} AtPriceAll(xs: seq<OrderState>, price: int)
    requires forall i :: 0 <= i < |xs| ==> xs[i].price == Some(price)
    ensures AtPrice(xs, price) == xs
  {
    if xs == [] {
    } else {
      AtPriceAll(xs[1..], price);
    }
  }

  lemma {:induction false} AtPriceNone(xs: seq<OrderState>, price: int)
    requires forall i :: 0 <= i < |xs| ==> xs[i].price != Some(price)
    ensures AtPrice(xs, price) == []
  {
    if xs == [] {
    } else {
      AtPriceNone(xs[1..], price);
    }
  }

  /** A level holds exactly the orders of its side at its price, in order. */
  lemma {:induction false} LevelDepths(ls: seq<LevelView>, side: Side, instrument: InstrumentId)
    requires LevelsOk(ls, side, instrument)
    ensures forall i :: 0 <= i < |ls| ==> AtPrice(Flatten(ls), ls[i].price) == ls[i].orders && ls[i].orders != []
  {
    forall i | 0 <= i < |ls|
      ensures AtPrice(Flatten(ls), ls[i].price) == ls[i].orders && ls[i].orders != []
    {
      var price := ls[i].price;
      assert LevelOk(ls[i], side, instrument);
      FlattenSplit(ls, i);
      FrontPrices(ls, side, instrument, i);
      BackPrices(ls, side, instrument, i + 1);
      AtPriceNone(Flatten(ls[..i]), price);
      AtPriceAll(ls[i].orders, price);
      AtPriceNone(Flatten(ls[i + 1..]), price);
      AtPriceConcat(Flatten(ls[..i]) + ls[i].orders, Flatten(ls[i + 1..]), price);
      AtPriceConcat(Flatten(ls[..i]), ls[i].orders, price);
    }
  }
}
