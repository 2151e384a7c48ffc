/** What adding and cancelling do to a price-time book. */
module BookLaws {
  import opened Orders
  import opened PriceTime

  /** Unfilled quantity resting under an id, 0 when nothing rests. */
  function Left(xs: seq<OrderState>, id: OrderId): int {
    if xs == [] then 0
    else if xs[0].id == id then xs[0].remaining
    else Left(xs[1..], id)
  }

  function LeftInBook(b: Book, id: OrderId): int {
    Left(b.bids, id) + Left(b.asks, id)
  }

  /** An order of `xs`, perhaps after some fills. */
  ghost predicate OneOf(y: OrderState, xs: seq<OrderState>) {
    exists i :: 0 <= i < |xs| && SameTerms(y, xs[i])
  }

  ghost predicate DrawnFrom(ys: seq<OrderState>, xs: seq<OrderState>) {
    forall j :: 0 <= j < |ys| ==> OneOf(ys[j], xs)
  }

  // ---- small facts about one side ----

  lemma {:induction false} LeftAt(xs: seq<OrderState>, k: nat)
    requires k < |xs| && UniqueIds(xs)
    ensures Left(xs, xs[k].id) == xs[k].remaining
  {
    if k > 0 {
      LeftAt(xs[1..], k - 1);
    }
  }

  lemma {:induction false} LeftAbsent(xs: seq<OrderState>, id: OrderId)
    requires !HasId(xs, id)
    ensures Left(xs, id) == 0
  {
    if xs == [] {
    } else {
      assert xs[0].id != id;
      forall k | 0 <= k < |xs| - 1
        ensures xs[1..][k].id != id
      {
        assert xs[1..][k] == xs[k + 1];
      }
      LeftAbsent(xs[1..], id);
    }
  }

  lemma {:induction false} LeftSplit(xs: seq<OrderState>, n: nat, o: OrderState, id: OrderId)
    requires n <= |xs|
    ensures id != o.id ==> Left(xs[..n] + [o] + xs[n..], id) == Left(xs, id)
    ensures id == o.id && !HasId(xs, id) ==> Left(xs[..n] + [o] + xs[n..], id) == o.remaining
  {
    if n == 0 {
      assert xs[..0] + [o] + xs[0..] == [o] + xs;
    } else {
      assert (xs[..n] + [o] + xs[n..])[1..] == xs[1..][..n - 1] + [o] + xs[1..][n - 1..];
      LeftSplit(xs[1..], n - 1, o, id);
      if !HasId(xs, id) {
        assert xs[0].id != id;
        forall k | 0 <= k < |xs| - 1
          ensures xs[1..][k].id != id
        {
          assert xs[1..][k] == xs[k + 1];
        }
      }
    }
  }

  lemma {:induction false} LeftNonNegative(xs: seq<OrderState>, id: OrderId)
    requires forall i :: 0 <= i < |xs| ==> xs[i].remaining > 0
    ensures Left(xs, id) >= 0
    ensures Left(xs, id) > 0 <==> HasId(xs, id)
  {
    if xs == [] {
    } else {
      LeftNonNegative(xs[1..], id);
      if HasId(xs[1..], id) {
        var k :| 0 <= k < |xs| - 1 && xs[1..][k].id == id;
        assert xs[k + 1].id == id;
      } else if xs[0].id != id {
        forall k | 0 <= k < |xs|
          ensures xs[k].id != id
        {
          assert k > 0 ==> xs[1..][k - 1] == xs[k];
        }
      }
    }
  }

  lemma {:induction false} RankSplits(xs: seq<OrderState>, side: Side, price: int)
    requires forall i :: 0 <= i < |xs| ==> xs[i].price.Some?
    requires forall i, j :: 0 <= i < j < |xs| ==> Key(side, xs[i].price.value) <= Key(side, xs[j].price.value)
    ensures var n := Rank(xs, side, price);
            && (forall i :: 0 <= i < n ==> Key(side, xs[i].price.value) <= Key(side, price))
            && (forall i :: n <= i < |xs| ==> Key(side, xs[i].price.value) > Key(side, price))
  {
    if xs != [] && Key(side, xs[0].price.value) <= Key(side, price) {
      RankSplits(xs[1..], side, price);
      var n := Rank(xs, side, price);
      forall i | 0 <= i < |xs|
        ensures i < n ==> Key(side, xs[i].price.value) <= Key(side, price)
        ensures i >= n ==> Key(side, xs[i].price.value) > Key(side, price)
      {
        assert i > 0 ==> xs[1..][i - 1] == xs[i];
      }
    }
  }

  ghost predicate Spliced(ys: seq<OrderState>, xs: seq<OrderState>, n: nat, o: OrderState) {
    && n <= |xs|
    && |ys| == |xs| + 1
    && ys[n] == o
    && (forall i :: 0 <= i < n ==> ys[i] == xs[i])
    && (forall i :: n < i < |ys| ==> ys[i] == xs[i - 1])
  }

  lemma {:induction false} SplicedKeepsSide(ys: seq<OrderState>, xs: seq<OrderState>, n: nat, o: OrderState,
                                            instrument: InstrumentId)
    requires SideOk(xs, o.side, instrument) && Resting(o, o.side, instrument)
    requires Spliced(ys, xs, n, o) && !HasId(xs, o.id)
    requires forall i :: 0 <= i < n ==> Key(o.side, xs[i].price.value) <= Key(o.side, o.price.value)
    requires forall i :: n <= i < |xs| ==> Key(o.side, xs[i].price.value) > Key(o.side, o.price.value)
    ensures SideOk(ys, o.side, instrument)
  {
    forall i, j | 0 <= i < j < |ys|
      ensures Key(o.side, ys[i].price.value) <= Key(o.side, ys[j].price.value) && ys[i].id != ys[j].id
    {
      if i == n {
        assert ys[j] == xs[j - 1];
      } else if j == n {
        assert ys[i] == xs[i];
      } else {
        var i0, j0 := if i < n then i else i - 1, if j < n then j else j - 1;
        assert ys[i] == xs[i0] && ys[j] == xs[j0] && i0 < j0;
      }
    }
  }

  lemma {:induction false} InsertKeepsSide(xs: seq<OrderState>, o: OrderState, instrument: InstrumentId)
    requires SideOk(xs, o.side, instrument) && Resting(o, o.side, instrument)
    requires !HasId(xs, o.id)
    ensures SideOk(Insert(xs, o), o.side, instrument)
  {
    var n := Rank(xs, o.side, o.price.value);
    RankSplits(xs, o.side, o.price.value);
    assert Spliced(Insert(xs, o), xs, n, o);
    SplicedKeepsSide(Insert(xs, o), xs, n, o, instrument);
  }

  lemma {:induction false} InsertMembers(xs: seq<OrderState>, o: OrderState, x: OrderState)
    requires forall i :: 0 <= i < |xs| ==> xs[i].price.Some?
    requires o.price.Some?
    ensures x in Insert(xs, o) <==> x == o || x in xs
  {
  }

  // ---- the walk and the resting side ----

  /** A price on `side` that does not reach a price on the opposite side. */
  predicate Apart(side: Side, own: int, opp: int) {
    if side.Buy? then own < opp else opp < own
  }

  /** The book invariant seen from one side. */
  predicate SidesOk(side: Side, own: seq<OrderState>, opp: seq<OrderState>, instrument: InstrumentId) {
    && SideOk(own, side, instrument)
    && SideOk(opp, side.Opposite(), instrument)
    && (forall i, j :: 0 <= i < |own| && 0 <= j < |opp| ==>
          own[i].id != opp[j].id && Apart(side, own[i].price.value, opp[j].price.value))
  }

  /** A suffix of a side: the same orders with positive quantity left. */
  ghost predicate Suffix(rest: seq<OrderState>, xs: seq<OrderState>) {
    && |rest| <= |xs|
    && (forall j :: 0 <= j < |rest| ==>
          && SameTerms(rest[j], xs[|xs| - |rest| + j])
          && 0 < rest[j].remaining <= xs[|xs| - |rest| + j].remaining)
  }

  lemma {:induction false} SuffixKeepsSide(rest: seq<OrderState>, xs: seq<OrderState>, side: Side,
                                           instrument: InstrumentId)
    requires Suffix(rest, xs) && SideOk(xs, side, instrument)
    ensures SideOk(rest, side, instrument)
    ensures DrawnFrom(rest, xs)
  {
  }

  lemma {:induction false} SuffixKeepsApart(side: Side, own: seq<OrderState>, rest: seq<OrderState>,
                                            opp: seq<OrderState>,
                         instrument: InstrumentId)
    requires Suffix(rest, opp) && SidesOk(side, own, opp, instrument)
    ensures SidesOk(side, own, rest, instrument)
  {
  }

  /** What the walk leaves is a suffix of the side. */
  lemma {:induction false} WalkLeavesSuffix(o: OrderState, opp: seq<OrderState>, instrument: InstrumentId)
    requires o.remaining >= 0
    requires SideOk(opp, o.side.Opposite(), instrument)
    ensures Suffix(Walk(o, opp).rest, opp)
  {
    var rest := Walk(o, opp).rest;
    var done := |opp| - |rest|;
    WalkTradesShares(o, opp);
    WalkLeavesRest(o, opp);
    forall j | 0 <= j < |rest|
      ensures SameTerms(rest[j], opp[done + j]) && 0 < rest[j].remaining <= opp[done + j].remaining
    {
      assert SettledAt(o, opp, rest, done + j);
    }
  }

  /** The walk leaves an order it cannot trade with exactly as it was. */
  lemma {:induction false} WalkSparesOthers(o: OrderState, opp: seq<OrderState>, instrument: InstrumentId, k: nat)
    requires o.remaining >= 0
    requires SideOk(opp, o.side.Opposite(), instrument)
    requires k < |opp| && !Accepts(o, opp[k].price.value)
    ensures opp[k] in Walk(o, opp).rest
  {
    var rest := Walk(o, opp).rest;
    WalkLeavesRest(o, opp);
    assert SettledAt(o, opp, rest, k);
    assert rest[k - (|opp| - |rest|)] == opp[k];
  }

  lemma {:induction false} WalkConserves(o: OrderState, opp: seq<OrderState>, id: OrderId)
    requires o.remaining >= 0
    requires forall i :: 0 <= i < |opp| ==> opp[i].price.Some? && opp[i].remaining > 0
    requires UniqueIds(opp) && !HasId(opp, o.id)
    ensures var m := Walk(o, opp);
            && (id != o.id ==> Left(m.rest, id) + Traded(m.trades, id) == Left(opp, id))
            && (id == o.id ==> Traded(m.trades, id) == o.remaining - m.order.remaining)
    decreases |opp|
  {
    if o.remaining != 0 && opp != [] && Accepts(o, opp[0].price.value) {
      var q := Min(o.remaining, opp[0].remaining);
      assert opp[0].id != o.id;
      if q == opp[0].remaining {
        forall k | 0 <= k < |opp| - 1
          ensures opp[1..][k].id != o.id && opp[1..][k].id != opp[0].id
        {
          assert opp[1..][k] == opp[k + 1];
        }
        WalkConserves(o.Filled(q), opp[1..], id);
        assert Walk(o, opp).trades[1..] == Walk(o.Filled(q), opp[1..]).trades;
        if id == opp[0].id {
          LeftAbsent(opp[1..], id);
        }
      } else {
        assert Walk(o, opp).trades[1..] == [];
        assert Walk(o, opp).rest[1..] == opp[1..];
      }
    }
  }

  /** Every trade of the walk is between the order and a resting order, at the
      resting order's price, within the order's own limit; along the list the
      prices only get worse for the order. */
  ghost predicate FairTrade(t: Trade, o: OrderState, resting: OrderState) {
    && t.quantity > 0
    && t.instrument == o.instrument
    && resting.price == Some(t.price)
    && Accepts(o, t.price)
    && t.aggressor == o.side
    && (if o.side.Buy?
        then t.buyOrder == o.id && t.buyer == o.trader && t.sellOrder == resting.id && t.seller == resting.trader
        else t.sellOrder == o.id && t.seller == o.trader && t.buyOrder == resting.id && t.buyer == resting.trader)
  }

  lemma {:induction false} WalkTradesFairly(o: OrderState, opp: seq<OrderState>, instrument: InstrumentId)
    requires o.remaining >= 0
    requires SideOk(opp, o.side.Opposite(), instrument)
    ensures var ts := Walk(o, opp).trades;
            && |ts| <= |opp|
            && (forall k :: 0 <= k < |ts| ==> FairTrade(ts[k], o, opp[k]))
            && (forall j, k :: 0 <= j < k < |ts| ==>
                  Key(o.side.Opposite(), ts[j].price) <= Key(o.side.Opposite(), ts[k].price))
  {
    WalkTradesShares(o, opp);
  }

  // ---- adding an order ----

  lemma {:induction false} BookFromSide(b: Book, side: Side, instrument: InstrumentId)
    ensures BookOk(b, instrument) <==> SidesOk(side, b.Orders(side), b.Orders(side.Opposite()), instrument)
  {
  }

  lemma {:induction false} RestIsUnacceptable(o: OrderState, rest: seq<OrderState>, instrument: InstrumentId)
    requires SideOk(rest, o.side.Opposite(), instrument)
    requires rest != [] ==> !Accepts(o, rest[0].price.value)
    ensures forall j :: 0 <= j < |rest| ==> !Accepts(o, rest[j].price.value)
  {
  }

  lemma {:induction false} InsertKeepsApart(o: OrderState, own: seq<OrderState>, opp: seq<OrderState>,
                                            instrument: InstrumentId)
    requires SidesOk(o.side, own, opp, instrument) && Resting(o, o.side, instrument) && !HasId(own, o.id)
    requires forall j :: 0 <= j < |opp| ==> opp[j].id != o.id && !Accepts(o, opp[j].price.value)
    ensures SidesOk(o.side, Insert(own, o), opp, instrument)
  {
    var ys := Insert(own, o);
    InsertKeepsSide(own, o, instrument);
    forall i, j | 0 <= i < |ys| && 0 <= j < |opp|
      ensures ys[i].id != opp[j].id && Apart(o.side, ys[i].price.value, opp[j].price.value)
    {
      InsertMembers(own, o, ys[i]);
    }
  }

  /** Adding keeps the whole book invariant, uncrossed prices included. */
  lemma {:induction false} AddKeepsBook(b: Book, o: OrderState, instrument: InstrumentId)
    requires BookOk(b, instrument)
    requires o.WellFormed() && o.instrument == instrument && !InBook(b, o.id)
    ensures BookOk(Add(b, o).book, instrument)
  {
    var own, opp := b.Orders(o.side), b.Orders(o.side.Opposite());
    var m := Walk(o, opp);
    BookFromSide(b, o.side, instrument);
    WalkFillsOrder(o, opp);
    WalkLeavesSuffix(o, opp, instrument);
    SuffixKeepsApart(o.side, own, m.rest, opp, instrument);
    if m.order.remaining != 0 && o.price.Some? {
      RestIsUnacceptable(m.order, m.rest, instrument);
      InsertKeepsApart(m.order, own, m.rest, instrument);
    }
    BookFromSide(Add(b, o).book, o.side, instrument);
  }

  lemma {:induction false} LeftFromSide(b: Book, side: Side, id: OrderId)
    ensures LeftInBook(b, id) == Left(b.Orders(side), id) + Left(b.Orders(side.Opposite()), id)
  {
  }

  lemma {:induction false} InsertLeft(own: seq<OrderState>, o: OrderState, id: OrderId)
    requires forall i :: 0 <= i < |own| ==> own[i].price.Some?
    requires o.price.Some? && !HasId(own, o.id)
    ensures Left(Insert(own, o), id) == if id == o.id then o.remaining else Left(own, id)
  {
    LeftSplit(own, Rank(own, o.side, o.price.value), o, id);
  }

  lemma {:induction false} SuffixHasNo(rest: seq<OrderState>, xs: seq<OrderState>, id: OrderId)
    requires Suffix(rest, xs) && !HasId(xs, id)
    ensures !HasId(rest, id)
  {
  }

  lemma {:induction false} MatchConserves(o: OrderState, own: seq<OrderState>, opp: seq<OrderState>,
                                          instrument: InstrumentId, id: OrderId)
    requires SidesOk(o.side, own, opp, instrument) && o.remaining >= 0
    requires !HasId(own, o.id) && !HasId(opp, o.id)
    ensures var m := Walk(o, opp);
            var own' := if m.order.remaining != 0 && o.price.Some? then Insert(own, m.order) else own;
            && (id != o.id ==>
                  Left(own', id) + Left(m.rest, id) + Traded(m.trades, id) == Left(own, id) + Left(opp, id))
            && (id == o.id ==>
                  && m.order == o.Filled(Traded(m.trades, id))
                  && 0 <= m.order.remaining
                  && Left(own', id) + Left(m.rest, id) == if o.price.Some? then m.order.remaining else 0)
  {
    var m := Walk(o, opp);
    WalkConserves(o, opp, id);
    WalkFillsOrder(o, opp);
    WalkLeavesSuffix(o, opp, instrument);
    SuffixHasNo(m.rest, opp, o.id);
    LeftAbsent(own, o.id);
    LeftAbsent(m.rest, o.id);
    if m.order.remaining != 0 && o.price.Some? {
      InsertLeft(own, m.order, id);
    }
  }

  /** Nothing is created or lost: whatever an id stops having in the book it
      traded, and the newcomer keeps what it did not trade. A market order never
      rests. */
  lemma {:induction false} AddConserves(b: Book, o: OrderState, instrument: InstrumentId, id: OrderId)
    requires BookOk(b, instrument)
    requires o.WellFormed() && o.instrument == instrument && !InBook(b, o.id)
    ensures var a := Add(b, o);
            && (id != o.id ==> LeftInBook(a.book, id) + Traded(a.trades, id) == LeftInBook(b, id))
            && (id == o.id ==>
                  && a.order == o.Filled(Traded(a.trades, id))
                  && 0 <= a.order.remaining
                  && LeftInBook(a.book, id) == if o.price.Some? then a.order.remaining else 0)
  {
    var own, opp := b.Orders(o.side), b.Orders(o.side.Opposite());
    assert !HasId(own, o.id) && !HasId(opp, o.id);
    BookFromSide(b, o.side, instrument);
    MatchConserves(o, own, opp, instrument, id);
    LeftFromSide(b, o.side, id);
    LeftFromSide(Add(b, o).book, o.side, id);
  }

  /** Every order in the book afterwards was there before or is the newcomer. */
  lemma {:induction false} AddDrawsFrom(b: Book, o: OrderState, instrument: InstrumentId, side: Side)
    requires BookOk(b, instrument)
    requires o.WellFormed() && o.instrument == instrument && !InBook(b, o.id)
    ensures side != o.side ==> DrawnFrom(Add(b, o).book.Orders(side), b.Orders(side))
    ensures side == o.side ==> DrawnFrom(Add(b, o).book.Orders(side), b.Orders(side) + [o])
  {
    var own, opp := b.Orders(o.side), b.Orders(o.side.Opposite());
    var m := Walk(o, opp);
    BookFromSide(b, o.side, instrument);
    if side != o.side {
      WalkLeavesSuffix(o, opp, instrument);
      SuffixKeepsSide(m.rest, opp, o.side.Opposite(), instrument);
      assert Add(b, o).book.Orders(side) == m.rest;
    } else if m.order.remaining != 0 && o.price.Some? {
      InsertDrawsFrom(own, m.order, o);
    } else {
      assert forall j :: 0 <= j < |own| ==> SameTerms(own[j], own[j]) && OneOf(own[j], own);
      DrawnFromMore(own, own, o);
    }
  }

  /** Adding keeps every resting order it could not trade with, and a limit
      order with quantity left joins its side. */
  lemma {:induction false} AddKeepsOthers(b: Book, o: OrderState, instrument: InstrumentId, x: OrderState)
    requires BookOk(b, instrument)
    requires o.WellFormed() && o.instrument == instrument && !InBook(b, o.id)
    ensures x in b.Orders(o.side) ==> x in Add(b, o).book.Orders(o.side)
    ensures x in b.Orders(o.side.Opposite()) && !Accepts(o, x.price.value) ==>
              x in Add(b, o).book.Orders(o.side.Opposite())
    ensures Add(b, o).order.remaining > 0 && o.price.Some? ==> Add(b, o).order in Add(b, o).book.Orders(o.side)
  {
    var own, opp := b.Orders(o.side), b.Orders(o.side.Opposite());
    var m := Walk(o, opp);
    BookFromSide(b, o.side, instrument);
    if m.order.remaining != 0 && o.price.Some? {
      InsertMembers(own, m.order, x);
      InsertMembers(own, m.order, m.order);
    }
    if k: nat :| k < |opp| && opp[k] == x && !Accepts(o, x.price.value) {
      WalkSparesOthers(o, opp, instrument, k);
    }
  }

  lemma {:induction false} OneOfMore(y: OrderState, xs: seq<OrderState>, o: OrderState)
    requires OneOf(y, xs) || SameTerms(y, o)
    ensures OneOf(y, xs + [o])
  {
    if OneOf(y, xs) {
      var i :| 0 <= i < |xs| && SameTerms(y, xs[i]);
      assert (xs + [o])[i] == xs[i];
    } else {
      assert (xs + [o])[|xs|] == o;
    }
  }

  lemma {:induction false} DrawnFromMore(ys: seq<OrderState>, xs: seq<OrderState>, o: OrderState)
    requires DrawnFrom(ys, xs)
    ensures DrawnFrom(ys, xs + [o])
  {
    forall j | 0 <= j < |ys|
      ensures OneOf(ys[j], xs + [o])
    {
      OneOfMore(ys[j], xs, o);
    }
  }

  lemma {:induction false} InsertDrawsFrom(own: seq<OrderState>, now: OrderState, o: OrderState)
    requires forall i :: 0 <= i < |own| ==> own[i].price.Some?
    requires now.price.Some? && SameTerms(now, o)
    ensures DrawnFrom(Insert(own, now), own + [o])
  {
    var ys := Insert(own, now);
    forall j | 0 <= j < |ys|
      ensures OneOf(ys[j], own + [o])
    {
      InsertMembers(own, now, ys[j]);
      if ys[j] != now {
        var i :| 0 <= i < |own| && own[i] == ys[j];
        assert SameTerms(ys[j], own[i]);
      }
      OneOfMore(ys[j], own, o);
    }
  }

  // ---- cancelling ----

  lemma {:induction false} WithoutDrops(xs: seq<OrderState>, id: OrderId, k: nat)
    requires k < |xs| && xs[k].id == id && UniqueIds(xs)
    ensures Without(xs, id) == xs[..k] + xs[k + 1..]
  {
    if k > 0 {
      assert xs[0].id != id;
      WithoutDrops(xs[1..], id, k - 1);
      assert xs[1..][..k - 1] == xs[..k][1..];
      assert xs[..k] == [xs[0]] + xs[..k][1..];
    }
  }

  lemma {:induction false} WithoutNothing(xs: seq<OrderState>, id: OrderId)
    requires !HasId(xs, id)
    ensures Without(xs, id) == xs
  {
    if xs == [] {
    } else {
      assert xs[0].id != id;
      forall k | 0 <= k < |xs| - 1
        ensures xs[1..][k].id != id
      {
        assert xs[1..][k] == xs[k + 1];
      }
      WithoutNothing(xs[1..], id);
    }
  }

  lemma {:induction false} DropKeepsSide(xs: seq<OrderState>, side: Side, instrument: InstrumentId, k: nat)
    requires SideOk(xs, side, instrument) && k < |xs|
    ensures SideOk(xs[..k] + xs[k + 1..], side, instrument)
  {
  }

  lemma {:induction false} DropMembers(xs: seq<OrderState>, k: nat, x: OrderState)
    requires k < |xs| && UniqueIds(xs)
    ensures x in xs[..k] + xs[k + 1..] <==> x in xs && x.id != xs[k].id
  {
  }

  lemma {:induction false} DropLeft(xs: seq<OrderState>, k: nat, other: OrderId)
    requires k < |xs| && xs[k].id != other
    ensures Left(xs[..k] + xs[k + 1..], other) == Left(xs, other)
  {
    var ys := xs[..k] + xs[k + 1..];
    LeftSplit(ys, k, xs[k], other);
    assert ys[..k] + [xs[k]] + ys[k..] == xs;
  }

  lemma {:induction false} CancelOnSide(xs: seq<OrderState>, side: Side, instrument: InstrumentId, id: OrderId)
    requires SideOk(xs, side, instrument)
    ensures SideOk(Without(xs, id), side, instrument)
    ensures !HasId(Without(xs, id), id)
    ensures forall x :: x in Without(xs, id) <==> x in xs && x.id != id
    ensures forall other :: other != id ==> Left(Without(xs, id), other) == Left(xs, other)
  {
    if k: nat :| k < |xs| && xs[k].id == id {
      WithoutDrops(xs, id, k);
      DropKeepsSide(xs, side, instrument, k);
      forall x {
        DropMembers(xs, k, x);
      }
      forall other | other != id {
        DropLeft(xs, k, other);
      }
      assert forall i :: 0 <= i < |Without(xs, id)| ==> Without(xs, id)[i] in Without(xs, id);
    } else {
      WithoutNothing(xs, id);
    }
  }

  /** Cancelling removes that order and no other, and keeps the book invariant. */
  lemma {:induction false} CancelKeepsBook(b: Book, id: OrderId, instrument: InstrumentId)
    requires BookOk(b, instrument)
    ensures BookOk(Cancel(b, id), instrument)
    ensures !InBook(Cancel(b, id), id)
    ensures forall x :: x in Cancel(b, id).bids <==> x in b.bids && x.id != id
    ensures forall x :: x in Cancel(b, id).asks <==> x in b.asks && x.id != id
    ensures forall other :: other != id ==> LeftInBook(Cancel(b, id), other) == LeftInBook(b, other)
  {
    CancelOnSide(b.bids, Buy, instrument, id);
    CancelOnSide(b.asks, Sell, instrument, id);
    var c := Cancel(b, id);
    forall i, j | 0 <= i < |c.bids| && 0 <= j < |c.asks|
      ensures c.bids[i].id != c.asks[j].id && c.bids[i].price.value < c.asks[j].price.value
    {
      assert c.bids[i] in c.bids && c.asks[j] in c.asks;
    }
  }

  lemma {:induction false} CancelNothing(b: Book, id: OrderId)
    requires !InBook(b, id)
    ensures Cancel(b, id) == b
  {
    WithoutNothing(b.bids, id);
    WithoutNothing(b.asks, id);
  }
}
