/** What a book, and the trades it logged, say about the orders themselves. The
    registry holds every order an exchange ever accepted, as it now is; resting
    orders are these same orders. */
module Registry {
  import opened Orders
  import opened PriceTime
  import opened BookLaws
  import opened BatchAuction
  import opened BatchAccounts

  type Roll = map<OrderId, OrderState>

  /** The order is on the roll, perhaps with other fills by now. */
  predicate Known(z: OrderState, roll: Roll) {
    z.id in roll && SameTerms(z, roll[z.id])
  }

  predicate AllKnown(xs: seq<OrderState>, roll: Roll) {
    forall k :: 0 <= k < |xs| ==> Known(xs[k], roll)
  }

  /** A trade of the instrument between two orders of the roll, of opposite sides, within both limits. */
  predicate LegalIn(t: Trade, roll: Roll, i: InstrumentId) {
    t.instrument == i && t.buyOrder in roll && t.sellOrder in roll && Legal(t, roll[t.buyOrder], roll[t.sellOrder])
  }

  predicate AllLegal(ts: seq<Trade>, roll: Roll, i: InstrumentId) {
    forall k :: 0 <= k < |ts| ==> LegalIn(ts[k], roll, i)
  }

  /** Every order of the instrument loses what the trades gave it. */
  function Touched(roll: Roll, i: InstrumentId, ts: seq<Trade>): Roll {
    map id | id in roll :: if roll[id].instrument == i then roll[id].Filled(Traded(ts, id)) else roll[id]
  }

  /** A book whose resting orders are orders of the roll as they now are. */
  ghost predicate Agrees(b: Book, i: InstrumentId, roll: Roll) {
    && BookOk(b, i)
    && AllKnown(b.bids, roll) && AllKnown(b.asks, roll)
    && forall id :: InBook(b, id) ==> id in roll && LeftInBook(b, id) == roll[id].remaining
  }

  predicate RollOk(roll: Roll) {
    forall id :: id in roll ==> roll[id].id == id && roll[id].WellFormed()
  }

  // ---- adding ----

  lemma {:induction false} KnownSide(b: Book, side: Side, roll: Roll)
    requires AllKnown(b.bids, roll) && AllKnown(b.asks, roll)
    ensures AllKnown(b.Orders(side), roll)
  {
  }

  lemma {:induction false} DrawnKnown(ys: seq<OrderState>, xs: seq<OrderState>, roll: Roll)
    requires DrawnFrom(ys, xs) && AllKnown(xs, roll)
    ensures AllKnown(ys, roll)
  {
  }

  lemma {:induction false} AddKnown(b: Book, o: OrderState, i: InstrumentId, roll: Roll)
    requires BookOk(b, i) && AllKnown(b.bids, roll) && AllKnown(b.asks, roll) && Known(o, roll)
    requires o.WellFormed() && o.instrument == i && !InBook(b, o.id)
    ensures Priced(b) && AllKnown(Add(b, o).book.bids, roll) && AllKnown(Add(b, o).book.asks, roll)
  {
    hide BookOk, Add, InBook, DrawnFrom, Known;
    BookPriced(b, i);
    forall side: Side
      ensures AllKnown(Add(b, o).book.Orders(side), roll)
    {
      KnownSide(b, side, roll);
      AddDrawsFrom(b, o, i, side);
      DrawnKnown(Add(b, o).book.Orders(side), if side == o.side then b.Orders(side) + [o] else b.Orders(side), roll);
    }
    assert Add(b, o).book.Orders(Buy) == Add(b, o).book.bids && Add(b, o).book.Orders(Sell) == Add(b, o).book.asks;
  }

  lemma {:induction false} FairIsLegal(t: Trade, o: OrderState, resting: OrderState, i: InstrumentId, roll: Roll)
    requires FairTrade(t, o, resting) && Resting(resting, o.side.Opposite(), i) && o.instrument == i
    requires Known(o, roll) && Known(resting, roll)
    ensures LegalIn(t, roll, i)
  {
  }

  /** Every trade of an addition is legal between orders of the roll. */
  lemma {:induction false} AddLegal(b: Book, o: OrderState, i: InstrumentId, roll: Roll)
    requires BookOk(b, i) && AllKnown(b.bids, roll) && AllKnown(b.asks, roll) && Known(o, roll)
    requires o.WellFormed() && o.instrument == i && !InBook(b, o.id)
    ensures Priced(b) && AllLegal(Add(b, o).trades, roll, i)
  {
    hide InBook, Known, LegalIn, FairTrade, Walk;
    var opp := b.Orders(o.side.Opposite());
    BookPriced(b, i);
    BookFromSide(b, o.side, i);
    WalkTradesFairly(o, opp, i);
    KnownSide(b, o.side.Opposite(), roll);
    forall k | 0 <= k < |Add(b, o).trades|
      ensures LegalIn(Add(b, o).trades[k], roll, i)
    {
      FairIsLegal(Walk(o, opp).trades[k], o, opp[k], i, roll);
    }
  }

  /** What an addition leaves of anybody: what it had, less what it traded. */
  lemma {:induction false} AddLeaves(b: Book, o: OrderState, i: InstrumentId, roll: Roll, id: OrderId)
    requires Agrees(b, i, roll) && RollOk(roll) && Known(o, roll) && roll[o.id] == o
    requires o.WellFormed() && o.instrument == i && !InBook(b, o.id)
    requires id in roll && roll[id].instrument == i
    ensures Priced(b)
    ensures var a := Add(b, o);
            && 0 <= roll[id].remaining - Traded(a.trades, id) <= roll[id].quantity
            && (InBook(a.book, id) ==> LeftInBook(a.book, id) == roll[id].remaining - Traded(a.trades, id))
  {
    hide BookOk, Add, InBook, AllKnown, Traded;
    BookPriced(b, i);
    AddKeepsBook(b, o, i);
    AddConserves(b, o, i, id);
    AddTrades(b, o, i);
    TradedNonNegative(Add(b, o).trades, id);
    InBookLeft(b, i, id);
    InBookLeft(Add(b, o).book, i, id);
    if id != o.id {
      AddOtherIds(b, o, i, id);
    }
  }

  lemma {:induction false} TouchedTerms(xs: seq<OrderState>, roll: Roll, i: InstrumentId, ts: seq<Trade>)
    requires AllKnown(xs, roll)
    ensures AllKnown(xs, Touched(roll, i, ts))
  {
  }

  lemma {:induction false} InBookInstrument(b: Book, i: InstrumentId, roll: Roll, id: OrderId)
    requires BookOk(b, i) && InBook(b, id) && AllKnown(b.bids, roll) && AllKnown(b.asks, roll)
    ensures id in roll && roll[id].instrument == i
  {
  }

  /** Adding an order of the roll keeps the book in agreement with the roll. */
  lemma {:induction false} AddAgrees(b: Book, o: OrderState, i: InstrumentId, roll: Roll)
    requires Agrees(b, i, roll) && RollOk(roll) && Known(o, roll) && roll[o.id] == o
    requires o.WellFormed() && o.instrument == i && !InBook(b, o.id)
    ensures Priced(b)
    ensures var a := Add(b, o);
            var roll' := Touched(roll, i, a.trades);
            && Agrees(a.book, i, roll') && RollOk(roll') && AllLegal(a.trades, roll', i)
            && roll'[o.id] == a.order
  {
    hide BookOk, Add, InBook, AllKnown, Traded, Known, LegalIn;
    BookPriced(b, i);
    var a := Add(b, o);
    var roll' := Touched(roll, i, a.trades);
    AddKeepsBook(b, o, i);
    AddKnown(b, o, i, roll);
    AddLegal(b, o, i, roll);
    TouchedTerms(a.book.bids, roll, i, a.trades);
    TouchedTerms(a.book.asks, roll, i, a.trades);
    TouchedLegal(a.trades, roll, i, a.trades);
    AddConserves(b, o, i, o.id);
    forall id | id in roll && roll[id].instrument == i
      ensures 0 <= roll[id].remaining - Traded(a.trades, id) <= roll[id].quantity
      ensures InBook(a.book, id) ==> LeftInBook(a.book, id) == roll'[id].remaining
    {
      AddLeaves(b, o, i, roll, id);
    }
    forall id | InBook(a.book, id)
      ensures id in roll' && LeftInBook(a.book, id) == roll'[id].remaining
    {
      InBookInstrument(a.book, i, roll, id);
    }
  }

  lemma {:induction false} TouchedLegal(ts: seq<Trade>, roll: Roll, i: InstrumentId, news: seq<Trade>)
    requires AllLegal(ts, roll, i)
    ensures AllLegal(ts, Touched(roll, i, news), i)
  {
  }

  // ---- a batch ----

  lemma {:induction false} FileKnown(b: Book, xs: seq<OrderState>, i: InstrumentId, roll: Roll)
    requires Addable(b, xs, i) && AllKnown(b.bids, roll) && AllKnown(b.asks, roll) && AllKnown(xs, roll)
    ensures Priced(b)
    ensures var f := File(b, xs);
            AllKnown(f.book.bids, roll) && AllKnown(f.book.asks, roll) && AllLegal(AllTrades(f.filings), roll, i)
    decreases |xs|
  {
    hide BookOk, Add, InBook, Known, LegalIn;
    BookPriced(b, i);
    if xs == [] {
    } else {
      AddableStep(b, xs, i);
      AddKnown(b, xs[0], i, roll);
      AddLegal(b, xs[0], i, roll);
      FileKnown(Add(b, xs[0]).book, xs[1..], i, roll);
      assert File(b, xs).filings[1..] == File(Add(b, xs[0]).book, xs[1..]).filings;
    }
  }

  lemma {:induction false} SuffixKnown(ys: seq<OrderState>, xs: seq<OrderState>, roll: Roll)
    requires Suffix(ys, xs) && AllKnown(xs, roll)
    ensures AllKnown(ys, roll)
  {
  }

  /** Every trade of a batch is legal between orders of the roll, and so is every
      order it leaves resting one of the roll. */
  lemma {:induction false} BatchKnown(b: Book, bs: seq<OrderState>, ss: seq<OrderState>, i: InstrumentId, roll: Roll)
    requires BatchReady(b, bs, ss, i)
    requires AllKnown(b.bids, roll) && AllKnown(b.asks, roll) && AllKnown(bs, roll) && AllKnown(ss, roll)
    ensures Priced(b)
    ensures var out := RunBatch(b, bs, ss);
            && AllKnown(out.book.bids, roll) && AllKnown(out.book.asks, roll)
            && AllLegal(out.pairs.trades, roll, i) && AllLegal(AllTrades(out.filed.filings), roll, i)
  {
    hide Greedy, File, BookOk, InBook, Suffix, Batch, Arranged, UniqueIds, DisjointIds, BatchReady, Known, LegalIn,
      Legal;
    ReadyFacts(b, bs, ss, i);
    LeftoversAddable(b, bs, ss, i);
    GreedyLeavesSuffix(bs, ss);
    var g := Greedy(bs, ss);
    SuffixKnown(g.buys, bs, roll);
    SuffixKnown(g.sells, ss, roll);
    FileKnown(b.(log := b.log + g.trades), g.buys + g.sells, i, roll);
    forall k | 0 <= k < |g.trades|
      ensures LegalIn(g.trades[k], roll, i)
    {
      var m, n := GreedyIsLegal(bs, ss, i, k);
      LegalKnown(g.trades[k], bs[m], ss[n], roll, i);
    }
  }

  lemma {:induction false} LegalKnown(t: Trade, b: OrderState, s: OrderState, roll: Roll, i: InstrumentId)
    requires b.instrument == i && Legal(t, b, s) && Known(b, roll) && Known(s, roll)
    ensures LegalIn(t, roll, i)
  {
  }

  lemma {:induction false} AllLegalConcat(a: seq<Trade>, b: seq<Trade>, roll: Roll, i: InstrumentId)
    requires AllLegal(a, roll, i) && AllLegal(b, roll, i)
    ensures AllLegal(a + b, roll, i)
  {
  }

  lemma {:induction false} LegalPositive(ts: seq<Trade>, roll: Roll, i: InstrumentId, id: OrderId)
    requires AllLegal(ts, roll, i)
    ensures Traded(ts, id) >= 0
  {
    assert forall k :: 0 <= k < |ts| ==> LegalIn(ts[k], roll, i);
    TradedNonNegative(ts, id);
  }

  predicate Current(xs: seq<OrderState>, roll: Roll) {
    forall k :: 0 <= k < |xs| ==> xs[k].id in roll && roll[xs[k].id] == xs[k]
  }

  /** What a batch leaves of anybody: what it had, less what it traded. */
  lemma {:induction false} BatchLeaves(b: Book, bs: seq<OrderState>, ss: seq<OrderState>, i: InstrumentId, roll: Roll,
                                       id: OrderId)
    requires Agrees(b, i, roll) && RollOk(roll) && BatchReady(b, bs, ss, i) && Current(bs, roll) && Current(ss, roll)
    requires id in roll && roll[id].instrument == i && AllLegal(RunBatch(b, bs, ss).NewTrades(), roll, i)
    ensures Priced(b)
    ensures var out := RunBatch(b, bs, ss);
            && 0 <= roll[id].remaining - Traded(out.NewTrades(), id) <= roll[id].quantity
            && (InBook(out.book, id) ==> LeftInBook(out.book, id) == roll[id].remaining - Traded(out.NewTrades(), id))
  {
    hide BookOk, InBook, AllKnown, Traded, RunBatch, BatchReady, AllLegal, Left;
    BookPriced(b, i);
    var out := RunBatch(b, bs, ss);
    LegalPositive(out.NewTrades(), roll, i, id);
    if HasId(bs, id) || HasId(ss, id) {
      var x := BatchOrder(bs, ss, roll, id);
      BatchSettles(b, bs, ss, i, x);
      InBookLeft(out.book, i, id);
    } else {
      BatchConserves(b, bs, ss, i, id);
      BatchBook(b, bs, ss, i);
      InBookLeft(b, i, id);
      InBookLeft(out.book, i, id);
    }
  }

  lemma {:induction false} BatchOrder(bs: seq<OrderState>, ss: seq<OrderState>, roll: Roll, id: OrderId)
    returns (x: OrderState)
    requires Current(bs, roll) && Current(ss, roll) && (HasId(bs, id) || HasId(ss, id))
    ensures (x in bs || x in ss) && x.id == id && id in roll && roll[id] == x
  {
    if HasId(bs, id) {
      var k :| 0 <= k < |bs| && bs[k].id == id;
      x := bs[k];
    } else {
      var k :| 0 <= k < |ss| && ss[k].id == id;
      x := ss[k];
    }
  }

  /** A batch keeps the book valid and logs its trades. */
  lemma {:induction false} BatchBook(b: Book, bs: seq<OrderState>, ss: seq<OrderState>, i: InstrumentId)
    requires BatchReady(b, bs, ss, i)
    ensures Priced(b)
    ensures var out := RunBatch(b, bs, ss); BookOk(out.book, i) && out.book.log == b.log + out.NewTrades()
  {
    hide Greedy, File, BookOk, BatchReady;
    LeftoversAddable(b, bs, ss, i);
    var g := Greedy(bs, ss);
    var b0 := b.(log := b.log + g.trades);
    FileKeepsBook(b0, g.buys + g.sells, i);
    assert b.log + g.trades + AllTrades(File(b0, g.buys + g.sells).filings) ==
           b.log + (g.trades + AllTrades(File(b0, g.buys + g.sells).filings));
  }

  /** A batch of orders of the roll keeps the book in agreement with the roll. */
  lemma {:induction false} BatchAgrees(b: Book, bs: seq<OrderState>, ss: seq<OrderState>, i: InstrumentId, roll: Roll)
    requires Agrees(b, i, roll) && RollOk(roll) && BatchReady(b, bs, ss, i) && Current(bs, roll) && Current(ss, roll)
    ensures Priced(b)
    ensures var out := RunBatch(b, bs, ss);
            var roll' := Touched(roll, i, out.NewTrades());
            && Agrees(out.book, i, roll') && RollOk(roll') && AllLegal(out.NewTrades(), roll', i)
            && out.book.log == b.log + out.NewTrades()
  {
    hide BookOk, InBook, AllKnown, Traded, Known, LegalIn, AllLegal, RunBatch, BatchReady, Left;
    BookPriced(b, i);
    CurrentKnown(bs, roll);
    CurrentKnown(ss, roll);
    BatchBook(b, bs, ss, i);
    BatchKnown(b, bs, ss, i, roll);
    var out := RunBatch(b, bs, ss);
    var ts := out.NewTrades();
    var roll' := Touched(roll, i, ts);
    AllLegalConcat(out.pairs.trades, AllTrades(out.filed.filings), roll, i);
    TouchedTerms(out.book.bids, roll, i, ts);
    TouchedTerms(out.book.asks, roll, i, ts);
    TouchedLegal(ts, roll, i, ts);
    forall id | id in roll && roll[id].instrument == i
      ensures 0 <= roll[id].remaining - Traded(ts, id) <= roll[id].quantity
      ensures InBook(out.book, id) ==> LeftInBook(out.book, id) == roll'[id].remaining
    {
      BatchLeaves(b, bs, ss, i, roll, id);
    }
    forall id | InBook(out.book, id)
      ensures id in roll' && LeftInBook(out.book, id) == roll'[id].remaining
    {
      InBookInstrument(out.book, i, roll, id);
    }
  }

  lemma {:induction false} CurrentKnown(xs: seq<OrderState>, roll: Roll)
    requires Current(xs, roll)
    ensures AllKnown(xs, roll)
  {
  }

  // ---- what else may happen to a book or to the roll ----

  lemma {:induction false} CancelAgrees(b: Book, i: InstrumentId, roll: Roll, id: OrderId)
    requires Agrees(b, i, roll)
    ensures Agrees(Cancel(b, id), i, roll) && !InBook(Cancel(b, id), id)
    ensures forall other :: other != id ==> (InBook(Cancel(b, id), other) <==> InBook(b, other))
  {
    hide BookOk, InBook, Known, Cancel;
    CancelKeepsBook(b, id, i);
    var c := Cancel(b, id);
    forall k | 0 <= k < |c.bids|
      ensures Known(c.bids[k], roll)
    {
      assert c.bids[k] in b.bids;
    }
    forall k | 0 <= k < |c.asks|
      ensures Known(c.asks[k], roll)
    {
      assert c.asks[k] in b.asks;
    }
    forall other | other != id
      ensures InBook(c, other) <==> InBook(b, other)
      ensures LeftInBook(c, other) == LeftInBook(b, other)
    {
      InBookLeft(b, i, other);
      InBookLeft(c, i, other);
    }
  }

  /** A roll that differs only in orders of other instruments, or adds orders the
      book has never heard of, agrees with the book as well. */
  lemma {:induction false} AgreesElsewhere(b: Book, i: InstrumentId, roll: Roll, roll': Roll)
    requires Agrees(b, i, roll)
    requires forall id :: id in roll && roll[id].instrument == i && InBook(b, id) ==>
             id in roll' && roll'[id] == roll[id]
    ensures Agrees(b, i, roll')
  {
  }

  /** Resting orders are orders of the roll exactly as they now are. */
  lemma {:induction false} RestingIsCurrent(b: Book, i: InstrumentId, roll: Roll, side: Side, x: OrderState)
    requires Agrees(b, i, roll) && x in b.Orders(side)
    ensures x.id in roll && roll[x.id] == x
  {
    var k :| 0 <= k < |b.Orders(side)| && b.Orders(side)[k] == x;
    assert Known(b.Orders(side)[k], roll);
    assert x.side == side;
    LeftInSide(b, i, x);
    assert HasId(b.Orders(side), x.id);
    assert InBook(b, x.id);
  }
}
