/** When a batch's results account for every trade. A market sell is filed
    after the buys, and what it takes from them shows in no result of theirs. */
module UnreportedFills {
  import opened Orders
  import opened PriceTime
  import opened BookLaws
  import opened BatchAuction
  import opened BatchAccounts

  // ---- filing in two parts ----

  lemma {:induction false} FileConcat(b: Book, xs: seq<OrderState>, ys: seq<OrderState>)
    requires Priced(b)
    ensures var f := File(b, xs);
            var g := File(f.book, ys);
            File(b, xs + ys) == Filed(g.book, f.filings + g.filings)
    decreases |xs|
  {
    hide Add;
    if xs == [] {
      assert xs + ys == ys;
    } else {
      assert (xs + ys)[1..] == xs[1..] + ys;
      FileConcat(Add(b, xs[0]).book, xs[1..], ys);
    }
  }

  lemma {:induction false} AllTradesConcat(fs: seq<Filing>, gs: seq<Filing>)
    ensures AllTrades(fs + gs) == AllTrades(fs) + AllTrades(gs)
  {
    if fs == [] {
      assert fs + gs == gs;
    } else {
      assert (fs + gs)[1..] == fs[1..] + gs;
      AllTradesConcat(fs[1..], gs);
    }
  }

  lemma {:induction false} AddablePrefix(b: Book, xs: seq<OrderState>, ys: seq<OrderState>, instrument: InstrumentId)
    requires Addable(b, xs + ys, instrument)
    ensures Addable(b, xs, instrument)
  {
    hide BookOk, InBook;
    assert forall i :: 0 <= i < |xs| ==> xs[i] == (xs + ys)[i];
  }

  /** What is filed second can still be filed after the first part. */
  lemma {:induction false} AddableRest(b: Book, xs: seq<OrderState>, ys: seq<OrderState>, instrument: InstrumentId)
    requires Addable(b, xs + ys, instrument)
    ensures Priced(b) && Addable(File(b, xs).book, ys, instrument)
    decreases |xs|
  {
    hide Addable, Add;
    if xs == [] {
      assert xs + ys == ys;
      assert Priced(b) by { AddableBook(b, ys, instrument); }
    } else {
      AddableBook(b, xs + ys, instrument);
      AddableStep(b, xs + ys, instrument);
      assert (xs + ys)[1..] == xs[1..] + ys;
      AddableRest(Add(b, xs[0]).book, xs[1..], ys, instrument);
    }
  }

  lemma {:induction false} AddableBook(b: Book, xs: seq<OrderState>, instrument: InstrumentId)
    requires Addable(b, xs, instrument)
    ensures BookOk(b, instrument) && Priced(b)
  {
  }

  // ---- how far the sells reach ----

  /** What the sells that would trade at a price have to sell. */
  function Willing(ss: seq<OrderState>, price: int): int {
    if ss == [] then 0
    else (if Accepts(ss[0], price) then ss[0].remaining else 0) + Willing(ss[1..], price)
  }

  /** A resting order with at least as much ahead of it as the sells willing to
      trade at its price have to sell. */
  predicate Shielded(bids: seq<OrderState>, k: nat, ss: seq<OrderState>)
    requires k < |bids| && bids[k].price.Some?
  {
    Willing(ss, bids[k].price.value) <= SumRemaining(bids[..k])
  }

  lemma {:induction false} WillingNonNegative(ss: seq<OrderState>, price: int)
    requires Positive(ss)
    ensures Willing(ss, price) >= 0
    ensures (forall i :: 0 <= i < |ss| ==> !Accepts(ss[i], price)) ==> Willing(ss, price) == 0
  {
    if ss == [] {
    } else {
      WillingNonNegative(ss[1..], price);
      assert forall i :: 0 <= i < |ss[1..]| ==> ss[1..][i] == ss[i + 1];
    }
  }

  lemma {:induction false} SumRemainingNothing()
    ensures SumRemaining([]) == 0
  {
  }

  lemma {:induction false} SumRemainingFirst(xs: seq<OrderState>, k: nat)
    requires 0 < k <= |xs|
    ensures SumRemaining(xs[..k]) == xs[0].remaining + SumRemaining(xs[1..][..k - 1])
  {
    assert xs[..k][1..] == xs[1..][..k - 1];
  }

  /** An order no larger than the first k of the side is used up by them: the
      others stay in their places, with that much less ahead. */
  lemma {:induction false} WalkUpTo(o: OrderState, opp: seq<OrderState>, k: nat)
    requires k <= |opp| && forall i :: 0 <= i < |opp| ==> opp[i].price.Some? && opp[i].remaining > 0
    requires 0 <= o.remaining <= SumRemaining(opp[..k])
    requires forall i :: 0 <= i < k ==> Accepts(o, opp[i].price.value)
    ensures var m := Walk(o, opp);
            var done := |opp| - |m.rest|;
            && done <= k
            && m.rest[k - done..] == opp[k..]
            && m.order.remaining == 0
            && SumRemaining(m.rest[..k - done]) == SumRemaining(opp[..k]) - o.remaining
    decreases |opp|
  {
    hide SumRemaining;
    SumRemainingPrefix(opp, k);
    SumRemainingNothing();
    if o.remaining > 0 {
      var q := Min(o.remaining, opp[0].remaining);
      if q == opp[0].remaining {
        WalkUpTo(o.Filled(q), opp[1..], k - 1);
        assert opp[1..][k - 1..] == opp[k..];
      } else {
        var rest := [opp[0].Filled(q)] + opp[1..];
        SumRemainingFirst(rest, k);
        assert rest[1..] == opp[1..];
        assert rest[k..] == opp[k..];
      }
    }
  }

  /** A sell larger than the first k bids trades with the next one. */
  lemma {:induction false} SellBeyond(m: Book, o: OrderState, instrument: InstrumentId, k: nat)
    requires BookOk(m, instrument) && k < |m.bids| && o.side == Sell
    requires o.WellFormed() && o.instrument == instrument && !InBook(m, o.id)
    requires o.remaining > SumRemaining(m.bids[..k]) && Accepts(o, m.bids[k].price.value)
    ensures Priced(m) && Traded(Add(m, o).trades, m.bids[k].id) > 0
  {
    hide Walk, Traded, InBook;
    SumRemainingPrefix(m.bids, k);
    WalkTradesShares(o, m.bids);
    assert Share(o, m.bids, k) > 0;
    var t := Walk(o, m.bids).trades[k];
    assert t.Names(m.bids[k].id);
    AddTrades(m, o, instrument);
    TradedNonNegative(Add(m, o).trades, m.bids[k].id);
  }

  lemma {:induction false} NoneWilling(ss: seq<OrderState>, price: int)
    requires Arranged(ss, false) && Positive(ss) && PositiveLimits(ss) && price > 0
    requires forall i :: 0 <= i < |ss| ==> ss[i].side == Sell
    requires ss != [] && !Accepts(ss[0], price)
    ensures forall i :: 0 <= i < |ss| ==> !Accepts(ss[i], price)
    ensures Willing(ss, price) == 0
  {
    forall i | 0 <= i < |ss|
      ensures !Accepts(ss[i], price)
    {
      assert SortKey(ss[0].price, false) <= SortKey(ss[i].price, false);
    }
    WillingNonNegative(ss, price);
  }

  lemma {:induction false} FilePositive(b: Book, xs: seq<OrderState>, instrument: InstrumentId)
    requires Addable(b, xs, instrument)
    ensures Priced(b)
    ensures forall k :: 0 <= k < |AllTrades(File(b, xs).filings)| ==> AllTrades(File(b, xs).filings)[k].quantity > 0
    decreases |xs|
  {
    hide BookOk, Add, InBook;
    BookPriced(b, instrument);
    if xs == [] {
    } else {
      AddableStep(b, xs, instrument);
      AddTrades(b, xs[0], instrument);
      FilePositive(Add(b, xs[0]).book, xs[1..], instrument);
      assert File(b, xs).filings[1..] == File(Add(b, xs[0]).book, xs[1..]).filings;
    }
  }

  /** An order no filed order accepts trades nothing. */
  lemma {:induction false} SparedTradesNothing(b: Book, xs: seq<OrderState>, instrument: InstrumentId, x: OrderState)
    requires Addable(b, xs, instrument) && x in b.Orders(x.side) && x.price.Some?
    requires forall i :: 0 <= i < |xs| && xs[i].side != x.side ==> !Accepts(xs[i], x.price.value)
    ensures Priced(b) && Traded(AllTrades(File(b, xs).filings), x.id) == 0
  {
    hide BookOk, File, Left;
    assert !HasId(xs, x.id);
    FileKeepsBook(b, xs, instrument);
    FileSpares(b, xs, instrument, x);
    FileConserves(b, xs, instrument, x.id);
    LeftInSide(b, instrument, x);
    LeftInSide(File(b, xs).book, instrument, x);
  }

  /** Sells filed best price first, as the batch has them. */
  ghost predicate SellsReady(m: Book, ss: seq<OrderState>, instrument: InstrumentId) {
    && Addable(m, ss, instrument)
    && Positive(ss) && PositiveLimits(ss) && Arranged(ss, false)
    && (forall i :: 0 <= i < |ss| ==> ss[i].side == Sell)
  }

  lemma {:induction false} SellsStep(m: Book, ss: seq<OrderState>, instrument: InstrumentId)
    requires SellsReady(m, ss, instrument) && ss != []
    ensures Priced(m) && SellsReady(Add(m, ss[0]).book, ss[1..], instrument)
  {
    hide Addable, Add, SortKey;
    AddableBook(m, ss, instrument);
    AddableStep(m, ss, instrument);
    assert forall i :: 0 <= i < |ss[1..]| ==> ss[1..][i] == ss[i + 1];
  }

  /** The first sell fits into what is ahead of the k-th bid: that bid moves up
      and is shielded from the other sells exactly if it was from all of them. */
  lemma {:induction false} FirstSellFits(m: Book, ss: seq<OrderState>, instrument: InstrumentId, k: nat)
    returns (j: nat)
    requires BookOk(m, instrument) && k < |m.bids| && ss != [] && ss[0].WellFormed() && ss[0].side == Sell
    requires Accepts(ss[0], m.bids[k].price.value) && ss[0].remaining <= SumRemaining(m.bids[..k])
    ensures Priced(m)
    ensures var bids := Add(m, ss[0]).book.bids;
            && j < |bids| && bids[j] == m.bids[k]
            && (Shielded(bids, j, ss[1..]) <==> Shielded(m.bids, k, ss))
  {
    hide Walk;
    forall i | 0 <= i < k
      ensures Accepts(ss[0], m.bids[i].price.value)
    {
      assert Key(Buy, m.bids[i].price.value) <= Key(Buy, m.bids[k].price.value);
    }
    WalkUpTo(ss[0], m.bids, k);
    var rest := Walk(ss[0], m.bids).rest;
    j := k - (|m.bids| - |rest|);
    assert rest[j..][0] == m.bids[k..][0];
  }

  /** A resting bid trades with sorted sells exactly when it is not shielded. */
  lemma {:induction false} SellsReach(m: Book, ss: seq<OrderState>, instrument: InstrumentId, k: nat)
    requires SellsReady(m, ss, instrument) && k < |m.bids|
    ensures Priced(m)
    ensures Traded(AllTrades(File(m, ss).filings), m.bids[k].id) == 0 <==> Shielded(m.bids, k, ss)
    decreases |ss|
  {
    hide Add, InBook, Traded, Walk, BookOk, Arranged, PositiveLimits, SumRemaining;
    var x := m.bids[k];
    BidFacts(m, instrument, k);
    if ss == [] {
      TradedNothing();
    } else if !Accepts(ss[0], x.price.value) {
      NoneWilling(ss, x.price.value);
      SparedTradesNothing(m, ss, instrument, x);
    } else {
      SellsStep(m, ss, instrument);
      var a := Add(m, ss[0]);
      var f := File(a.book, ss[1..]);
      assert File(m, ss).filings[1..] == f.filings;
      TradedConcat(a.trades, AllTrades(f.filings), x.id);
      AddTrades(m, ss[0], instrument);
      AddConserves(m, ss[0], instrument, x.id);
      AddOtherIds(m, ss[0], instrument, x.id);
      FileConserves(a.book, ss[1..], instrument, x.id);
      if ss[0].remaining <= SumRemaining(m.bids[..k]) {
        var j := FirstSellFits(m, ss, instrument, k);
        SellsReach(a.book, ss[1..], instrument, j);
        BidFacts(a.book, instrument, j);
      } else {
        SellBeyond(m, ss[0], instrument, k);
        WillingNonNegative(ss[1..], x.price.value);
      }
    }
  }

  lemma {:induction false} BidFacts(m: Book, instrument: InstrumentId, k: nat)
    requires BookOk(m, instrument) && k < |m.bids|
    ensures Priced(m) && m.bids[k].price.Some? && m.bids[k].price.value > 0 && m.bids[k].side == Buy
    ensures InBook(m, m.bids[k].id) && LeftInBook(m, m.bids[k].id) == m.bids[k].remaining
    ensures SumRemaining(m.bids[..k]) >= 0
  {
    LeftInSide(m, instrument, m.bids[k]);
    SumRemainingPrefix(m.bids, k);
  }

  // ---- the whole batch ----

  /** Every buy left resting when the sells are filed is shielded from them. */
  ghost predicate Untouched(b: Book, bs: seq<OrderState>, ss: seq<OrderState>)
    requires Priced(b)
  {
    var bids := File(b, bs).book.bids;
    forall k :: 0 <= k < |bids| && HasId(bs, bids[k].id) ==> Shielded(bids, k, ss)
  }

  /** With a market sell and a buy limit in the batch nothing is paired: the
      buys are filed into the book first and the sells after them. */
  lemma {:induction false} FiledInTurn(b: Book, bs: seq<OrderState>, ss: seq<OrderState>, instrument: InstrumentId)
    requires BatchReady(b, bs, ss, instrument) && !Separate(bs, ss)
    ensures Priced(b) && Addable(b, bs, instrument) && UniqueIds(bs + ss)
    ensures var f := File(b, bs);
            var g := File(f.book, ss);
            && SellsReady(f.book, ss, instrument)
            && RunBatch(b, bs, ss) == Outcome(g.book, Paired([], bs, ss), Filed(g.book, f.filings + g.filings))
  {
    hide File, BookOk, InBook;
    ReadyFacts(b, bs, ss, instrument);
    LeftoversAddable(b, bs, ss, instrument);
    var k :| 0 <= k < |ss| && ss[k].price.None?;
    assert SortKey(ss[0].price, false) <= SortKey(ss[k].price, false);
    assert Greedy(bs, ss) == Paired([], bs, ss);
    assert b.(log := b.log + []) == b;
    FileConcat(b, bs, ss);
    AddablePrefix(b, bs, ss, instrument);
    AddableRest(b, bs, ss, instrument);
  }

  /** What a batch without pairs reports to its n-th leftover, and what it traded. */
  lemma {:induction false} ReportedTo(b: Book, bs: seq<OrderState>, ss: seq<OrderState>, instrument: InstrumentId,
                                      n: nat)
    requires BatchReady(b, bs, ss, instrument) && !Separate(bs, ss) && n < |bs| + |ss|
    ensures Priced(b)
    ensures var f := File(b, bs);
            var g := File(f.book, ss);
            var r := RunBatch(b, bs, ss);
            var id := (bs + ss)[n].id;
            && r.Fills(id) == (f.filings + g.filings)[n].trades
            && Traded(r.NewTrades(), id) == Traded(AllTrades(f.filings), id) + Traded(AllTrades(g.filings), id)
  {
    hide File, Traded, BatchReady, Separate, RunBatch, Addable, SellsReady, UniqueIds;
    FiledInTurn(b, bs, ss, instrument);
    var f := File(b, bs);
    var g := File(f.book, ss);
    OwnTradesAt(bs + ss, f.filings + g.filings, n);
    AllTradesConcat(f.filings, g.filings);
    TradedConcat(AllTrades(f.filings), AllTrades(g.filings), (bs + ss)[n].id);
    var r := RunBatch(b, bs, ss);
    assert r.NewTrades() == AllTrades(f.filings) + AllTrades(g.filings);
    assert r.Fills((bs + ss)[n].id) == [] + OwnTrades(bs + ss, f.filings + g.filings, (bs + ss)[n].id);
  }

  /** A buy's result is complete exactly when no sell of the batch traded with it. */
  lemma {:induction false} BuyAccounted(b: Book, bs: seq<OrderState>, ss: seq<OrderState>, instrument: InstrumentId,
                                        n: nat)
    requires BatchReady(b, bs, ss, instrument) && !Separate(bs, ss) && n < |bs|
    ensures Priced(b)
    ensures Accounted(RunBatch(b, bs, ss), bs[n]) <==>
            Traded(AllTrades(File(File(b, bs).book, ss).filings), bs[n].id) == 0
  {
    hide File, Traded, Separate, RunBatch, SellsReady, UniqueIds, BookOk, InBook, Arranged;
    FiledInTurn(b, bs, ss, instrument);
    ReportedTo(b, bs, ss, instrument, n);
    assert Peaceful(bs);
    PeacefulFiling(b, bs, instrument, n);
  }

  /** A sell's result is always complete. */
  lemma {:induction false} SellAccounted(b: Book, bs: seq<OrderState>, ss: seq<OrderState>, instrument: InstrumentId,
                                         n: nat)
    requires BatchReady(b, bs, ss, instrument) && !Separate(bs, ss) && n < |ss|
    ensures Priced(b) && Accounted(RunBatch(b, bs, ss), ss[n])
  {
    hide File, Traded, Separate, RunBatch, UniqueIds, BookOk, InBook, Arranged, Left;
    FiledInTurn(b, bs, ss, instrument);
    ReportedTo(b, bs, ss, instrument, |bs| + n);
    var mid := File(b, bs).book;
    assert Peaceful(ss);
    PeacefulFiling(mid, ss, instrument, n);
    assert !HasId(bs, ss[n].id);
    FileConserves(b, bs, instrument, ss[n].id);
    FileKeepsBook(b, bs, instrument);
    InBookLeft(b, instrument, ss[n].id);
    InBookLeft(mid, instrument, ss[n].id);
  }

  /** A buy that no longer rests among the bids is out of the sells' reach. */
  lemma {:induction false} GoneTradesNothing(m: Book, ss: seq<OrderState>, instrument: InstrumentId, id: OrderId)
    requires SellsReady(m, ss, instrument) && !HasId(m.bids, id) && !HasId(ss, id)
    ensures Priced(m) && Traded(AllTrades(File(m, ss).filings), id) == 0
  {
    hide File, Traded, Left, Arranged, PositiveLimits;
    AddableBook(m, ss, instrument);
    if k: nat :| k < |m.asks| && m.asks[k].id == id {
      SparedTradesNothing(m, ss, instrument, m.asks[k]);
    } else {
      assert !InBook(m, id);
      FileConserves(m, ss, instrument, id);
      FileKeepsBook(m, ss, instrument);
      InBookLeft(m, instrument, id);
      InBookLeft(File(m, ss).book, instrument, id);
    }
  }

  /** The buys are complete exactly when all that rest are shielded. */
  lemma {:induction false} BuysAccountedIff(b: Book, bs: seq<OrderState>, ss: seq<OrderState>, instrument: InstrumentId)
    requires BatchReady(b, bs, ss, instrument) && !Separate(bs, ss)
    ensures Priced(b)
    ensures (forall n :: 0 <= n < |bs| ==> Accounted(RunBatch(b, bs, ss), bs[n])) <==> Untouched(b, bs, ss)
  {
    hide File, Traded, Separate, RunBatch, BookOk, InBook, Arranged, Accounted, SellsReady, Addable, Shielded,
      BatchReady;
    ReadyFacts(b, bs, ss, instrument);
    FiledInTurn(b, bs, ss, instrument);
    var bids := File(b, bs).book.bids;
    forall n | 0 <= n < |bs|
      ensures Accounted(RunBatch(b, bs, ss), bs[n]) <==>
              forall k :: 0 <= k < |bids| && bids[k].id == bs[n].id ==> Shielded(bids, k, ss)
    {
      BuyAccounted(b, bs, ss, instrument, n);
      if k: nat :| k < |bids| && bids[k].id == bs[n].id {
      } else {
        GoneTradesNothing(File(b, bs).book, ss, instrument, bs[n].id);
      }
      forall k | 0 <= k < |bids| && bids[k].id == bs[n].id
        ensures Accounted(RunBatch(b, bs, ss), bs[n]) <==> Shielded(bids, k, ss)
      {
        SellsReach(File(b, bs).book, ss, instrument, k);
      }
    }
    assert forall k, n :: 0 <= k < |bids| && 0 <= n < |bs| && bids[k].id == bs[n].id ==> HasId(bs, bids[k].id);
  }

  /** Exactly when a batch reports all its trades, over any valid book: no market
      sell meets a buy limit, or every buy left resting is shielded. */
  lemma {:induction false} BatchReportsIff(b: Book, bs: seq<OrderState>, ss: seq<OrderState>, instrument: InstrumentId)
    requires BatchReady(b, bs, ss, instrument)
    ensures Priced(b)
    ensures (forall x :: x in bs || x in ss ==> Accounted(RunBatch(b, bs, ss), x)) <==>
            Separate(bs, ss) || Untouched(b, bs, ss)
  {
    hide Separate, BatchReady, Accounted, RunBatch, Untouched;
    ReadyFacts(b, bs, ss, instrument);
    if Separate(bs, ss) {
      forall x | x in bs || x in ss
        ensures Accounted(RunBatch(b, bs, ss), x)
      {
        BatchReports(b, bs, ss, instrument, x);
      }
    } else {
      BuysAccountedIff(b, bs, ss, instrument);
      forall n | 0 <= n < |ss|
        ensures Accounted(RunBatch(b, bs, ss), ss[n])
      {
        SellAccounted(b, bs, ss, instrument, n);
      }
    }
  }

  // ---- an empty book ----

  /** Buys filed into a book without asks trade nothing; the limit ones rest. */
  lemma {:induction false} FileBuysOnly(b: Book, xs: seq<OrderState>)
    requires Priced(b) && b.asks == [] && forall i :: 0 <= i < |xs| ==> xs[i].side == Buy && xs[i].remaining > 0
    ensures var f := File(b, xs);
            forall y :: y in f.book.bids <==> y in b.bids || (y in xs && y.price.Some?)
    decreases |xs|
  {
    hide Insert;
    if xs == [] {
    } else {
      var a := Add(b, xs[0]);
      assert a.order == xs[0] && a.book.asks == [];
      assert xs == [xs[0]] + xs[1..];
      forall y
        ensures y in a.book.bids <==> y in b.bids || (y == xs[0] && y.price.Some?)
      {
        if xs[0].price.Some? {
          InsertMembers(b.bids, xs[0], y);
        }
      }
      FileBuysOnly(a.book, xs[1..]);
    }
  }

  /** Over an empty book the best buy limit is never shielded from a market
      sell, so the results are complete exactly when the two never meet. */
  lemma {:induction false} EmptyBookReportsIff(b: Book, bs: seq<OrderState>, ss: seq<OrderState>,
                                               instrument: InstrumentId)
    requires BatchReady(b, bs, ss, instrument) && b.bids == [] && b.asks == []
    ensures Priced(b)
    ensures (forall x :: x in bs || x in ss ==> Accounted(RunBatch(b, bs, ss), x)) <==> Separate(bs, ss)
  {
    hide File, Accounted, RunBatch, BookOk;
    BatchReportsIff(b, bs, ss, instrument);
    if !Separate(bs, ss) {
      FileBuysOnly(b, bs);
      var bids := File(b, bs).book.bids;
      var i :| 0 <= i < |bs| && bs[i].price.Some?;
      assert bs[i] in bids && bids[0] in bs;
      assert HasId(bs, bids[0].id);
      WillingMarket(ss, bids[0].price.value);
      assert !Shielded(bids, 0, ss);
    }
  }

  lemma {:induction false} WillingMarket(ss: seq<OrderState>, price: int)
    requires Positive(ss) && !AllLimit(ss)
    ensures Willing(ss, price) > 0
  {
    if ss[0].price.None? {
      WillingNonNegative(ss[1..], price);
    } else {
      var k :| 0 <= k < |ss| && ss[k].price.None?;
      assert ss[1..][k - 1] == ss[k];
      WillingMarket(ss[1..], price);
    }
  }
}
