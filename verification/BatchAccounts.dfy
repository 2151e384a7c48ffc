/** What a batch does to the book and what it reports: the pairs, then the
    leftovers filed into the book one by one. */
module BatchAccounts {
  import opened Orders
  import opened PriceTime
  import opened BookLaws
  import opened BatchAuction

  // ---- filing leftovers ----

  /** An order after it was added, and the trades its own adding made. */
  datatype Filing = Filing(order: OrderState, trades: seq<Trade>)
  datatype Filed = Filed(book: Book, filings: seq<Filing>)

  function File(b: Book, xs: seq<OrderState>): (f: Filed)
    requires Priced(b)
    ensures |f.filings| == |xs| && Priced(f.book)
    decreases |xs|
  {
    if xs == [] then Filed(b, [])
    else
      var a := Add(b, xs[0]);
      var f := File(a.book, xs[1..]);
      Filed(f.book, [Filing(a.order, a.trades)] + f.filings)
  }

  function AllTrades(fs: seq<Filing>): seq<Trade> {
    if fs == [] then [] else fs[0].trades + AllTrades(fs[1..])
  }

  /** Orders that may be added to a book one after another. */
  ghost predicate Addable(b: Book, xs: seq<OrderState>, instrument: InstrumentId) {
    && BookOk(b, instrument)
    && (forall i :: 0 <= i < |xs| ==>
          xs[i].WellFormed() && xs[i].instrument == instrument && !InBook(b, xs[i].id))
    && UniqueIds(xs)
  }

  lemma {:induction false} BookPriced(b: Book, instrument: InstrumentId)
    requires BookOk(b, instrument)
    ensures Priced(b)
  {
  }

  lemma {:induction false} InBookLeft(b: Book, instrument: InstrumentId, id: OrderId)
    requires BookOk(b, instrument)
    ensures LeftInBook(b, id) >= 0
    ensures LeftInBook(b, id) > 0 <==> InBook(b, id)
  {
    LeftNonNegative(b.bids, id);
    LeftNonNegative(b.asks, id);
  }

  lemma {:induction false} AddTrades(b: Book, o: OrderState, instrument: InstrumentId)
    requires BookOk(b, instrument)
    requires o.WellFormed() && o.instrument == instrument && !InBook(b, o.id)
    ensures Priced(b)
    ensures forall k :: 0 <= k < |Add(b, o).trades| ==> Add(b, o).trades[k].quantity > 0
    ensures Traded(Add(b, o).trades, o.id) == Volume(Add(b, o).trades)
  {
    hide Traded, Volume, Walk;
    var opp := b.Orders(o.side.Opposite());
    BookPriced(b, instrument);
    BookFromSide(b, o.side, instrument);
    WalkTradesFairly(o, opp, instrument);
    WalkFillsOrder(o, opp);
    AddConserves(b, o, instrument, o.id);
  }

  /** An id the addition does not concern is in the book afterwards only if it was before. */
  lemma {:induction false} AddOtherIds(b: Book, o: OrderState, instrument: InstrumentId, id: OrderId)
    requires BookOk(b, instrument) && id != o.id
    requires o.WellFormed() && o.instrument == instrument && !InBook(b, o.id)
    ensures Priced(b)
    ensures InBook(Add(b, o).book, id) ==> InBook(b, id)
    ensures Traded(Add(b, o).trades, id) >= 0
    ensures !InBook(b, id) ==> Traded(Add(b, o).trades, id) == 0
  {
    hide Traded, BookOk, Add, InBook;
    BookPriced(b, instrument);
    AddKeepsBook(b, o, instrument);
    AddConserves(b, o, instrument, id);
    AddTrades(b, o, instrument);
    TradedNonNegative(Add(b, o).trades, id);
    InBookLeft(b, instrument, id);
    InBookLeft(Add(b, o).book, instrument, id);
  }

  lemma {:induction false} AddableStep(b: Book, xs: seq<OrderState>, instrument: InstrumentId)
    requires Addable(b, xs, instrument) && xs != []
    ensures Priced(b) && Addable(Add(b, xs[0]).book, xs[1..], instrument)
  {
    hide BookOk, Add, InBook;
    BookPriced(b, instrument);
    AddKeepsBook(b, xs[0], instrument);
    forall i | 0 <= i < |xs[1..]|
      ensures !InBook(Add(b, xs[0]).book, xs[1..][i].id)
    {
      AddOtherIds(b, xs[0], instrument, xs[i + 1].id);
    }
  }

  lemma {:induction false} FileKeepsBook(b: Book, xs: seq<OrderState>, instrument: InstrumentId)
    requires Addable(b, xs, instrument)
    ensures Priced(b) && BookOk(File(b, xs).book, instrument)
    ensures File(b, xs).book.log == b.log + AllTrades(File(b, xs).filings)
    decreases |xs|
  {
    hide BookOk, Add;
    BookPriced(b, instrument);
    if xs == [] {
    } else {
      AddableStep(b, xs, instrument);
      FileKeepsBook(Add(b, xs[0]).book, xs[1..], instrument);
      var f := File(Add(b, xs[0]).book, xs[1..]);
      assert File(b, xs).filings[1..] == f.filings;
    }
  }

  /** Quantity lost from the book by an id that is not filed is quantity traded. */
  lemma {:induction false} FileConserves(b: Book, xs: seq<OrderState>, instrument: InstrumentId, id: OrderId)
    requires Addable(b, xs, instrument) && !HasId(xs, id)
    ensures Priced(b)
    ensures LeftInBook(File(b, xs).book, id) + Traded(AllTrades(File(b, xs).filings), id) == LeftInBook(b, id)
    ensures Traded(AllTrades(File(b, xs).filings), id) >= 0
    decreases |xs|
  {
    hide BookOk, Add, InBook;
    BookPriced(b, instrument);
    if xs == [] {
    } else {
      AddableStep(b, xs, instrument);
      var a := Add(b, xs[0]);
      var f := File(a.book, xs[1..]);
      assert xs[0].id != id;
      forall i | 0 <= i < |xs[1..]|
        ensures xs[1..][i].id != id
      {
        assert xs[1..][i] == xs[i + 1];
      }
      FileConserves(a.book, xs[1..], instrument, id);
      AddConserves(b, xs[0], instrument, id);
      AddOtherIds(b, xs[0], instrument, id);
      assert File(b, xs).filings[1..] == f.filings;
      TradedConcat(a.trades, AllTrades(f.filings), id);
    }
  }

  /** A filed limit order ends with what it did not trade, in whatever trade. */
  lemma {:induction false} FileSettles(b: Book, xs: seq<OrderState>, instrument: InstrumentId, k: nat)
    requires Addable(b, xs, instrument) && k < |xs|
    ensures Priced(b)
    ensures var f := File(b, xs);
            && Traded(AllTrades(f.filings), xs[k].id) <= xs[k].remaining
            && LeftInBook(f.book, xs[k].id) ==
               if xs[k].price.Some? then xs[k].remaining - Traded(AllTrades(f.filings), xs[k].id) else 0
    decreases |xs|
  {
    hide BookOk, Add, InBook;
    BookPriced(b, instrument);
    AddableStep(b, xs, instrument);
    var a := Add(b, xs[0]);
    var f := File(a.book, xs[1..]);
    var id := xs[k].id;
    assert File(b, xs).filings[1..] == f.filings;
    TradedConcat(a.trades, AllTrades(f.filings), id);
    if k == 0 {
      forall i | 0 <= i < |xs[1..]|
        ensures xs[1..][i].id != id
      {
        assert xs[1..][i] == xs[i + 1];
      }
      FileConserves(a.book, xs[1..], instrument, id);
      AddConserves(b, xs[0], instrument, id);
      FileKeepsBook(a.book, xs[1..], instrument);
      InBookLeft(f.book, instrument, id);
    } else {
      FileSettles(a.book, xs[1..], instrument, k - 1);
      AddOtherIds(b, xs[0], instrument, id);
    }
  }

  /** An order no filed order can trade with stays exactly as it is. */
  lemma {:induction false} FileSpares(b: Book, xs: seq<OrderState>, instrument: InstrumentId, x: OrderState)
    requires Addable(b, xs, instrument) && x in b.Orders(x.side) && x.price.Some?
    requires forall i :: 0 <= i < |xs| && xs[i].side != x.side ==> !Accepts(xs[i], x.price.value)
    ensures Priced(b) && x in File(b, xs).book.Orders(x.side)
    decreases |xs|
  {
    hide BookOk, Add, InBook;
    BookPriced(b, instrument);
    if xs == [] {
    } else {
      AddableStep(b, xs, instrument);
      AddKeepsOthers(b, xs[0], instrument, x);
      FileSpares(Add(b, xs[0]).book, xs[1..], instrument, x);
    }
  }

  /** No later order of the list can trade with an earlier one left resting. */
  predicate Peaceful(xs: seq<OrderState>) {
    forall i, j :: 0 <= i < j < |xs| && xs[i].price.Some? && xs[i].side != xs[j].side ==>
      !Accepts(xs[j], xs[i].price.value)
  }

  /** In a peaceful filing every order trades in its own filing only, and what
      is left of a limit order rests as it left it. */
  lemma {:induction false} PeacefulFiling(b: Book, xs: seq<OrderState>, instrument: InstrumentId, k: nat)
    requires Addable(b, xs, instrument) && Peaceful(xs) && k < |xs|
    ensures Priced(b)
    ensures var f := File(b, xs);
            && SameTerms(f.filings[k].order, xs[k])
            && f.filings[k].order.remaining == xs[k].remaining - Volume(f.filings[k].trades)
            && Traded(AllTrades(f.filings), xs[k].id) == Volume(f.filings[k].trades)
            && (f.filings[k].order.remaining > 0 && xs[k].price.Some? ==>
                  f.filings[k].order in f.book.Orders(xs[k].side))
    decreases |xs|
  {
    hide BookOk, Add, InBook, Traded;
    BookPriced(b, instrument);
    AddableStep(b, xs, instrument);
    var a := Add(b, xs[0]);
    var f := File(a.book, xs[1..]);
    var id := xs[k].id;
    assert File(b, xs).filings[1..] == f.filings;
    TradedConcat(a.trades, AllTrades(f.filings), id);
    if k == 0 {
      forall i | 0 <= i < |xs[1..]|
        ensures xs[1..][i].id != id
        ensures a.order.price.Some? && xs[1..][i].side != a.order.side ==> !Accepts(xs[1..][i], a.order.price.value)
      {
        assert xs[1..][i] == xs[i + 1];
      }
      AddConserves(b, xs[0], instrument, id);
      AddTrades(b, xs[0], instrument);
      FileConserves(a.book, xs[1..], instrument, id);
      FileKeepsBook(a.book, xs[1..], instrument);
      InBookLeft(f.book, instrument, id);
      if a.order.remaining > 0 && xs[0].price.Some? {
        AddKeepsOthers(b, xs[0], instrument, a.order);
        FileSpares(a.book, xs[1..], instrument, a.order);
        LeftInSide(f.book, instrument, a.order);
      }
    } else {
      PeacefulFiling(a.book, xs[1..], instrument, k - 1);
      AddOtherIds(b, xs[0], instrument, id);
    }
  }

  lemma {:induction false} LeftInSide(b: Book, instrument: InstrumentId, x: OrderState)
    requires BookOk(b, instrument) && x in b.Orders(x.side)
    ensures LeftInBook(b, x.id) == x.remaining
  {
    var own, opp := b.Orders(x.side), b.Orders(x.side.Opposite());
    var k :| 0 <= k < |own| && own[k] == x;
    LeftAt(own, k);
    LeftAbsent(opp, x.id);
  }

  // ---- the pairs ----

  lemma {:induction false} FrontSuffix(xs: seq<OrderState>, q: int)
    requires xs != [] && 0 < q <= xs[0].remaining && Positive(xs)
    ensures Suffix(Front(xs, q), xs)
  {
  }

  lemma {:induction false} SuffixTrans(zs: seq<OrderState>, ys: seq<OrderState>, xs: seq<OrderState>)
    requires Suffix(zs, ys) && Suffix(ys, xs)
    ensures Suffix(zs, xs)
  {
  }

  /** What the pairing leaves of each side is a suffix of it. */
  lemma {:induction false} GreedyLeavesSuffix(bs: seq<OrderState>, ss: seq<OrderState>)
    requires Positive(bs) && Positive(ss)
    ensures Suffix(Greedy(bs, ss).buys, bs) && Suffix(Greedy(bs, ss).sells, ss)
    decreases |bs| + |ss|
  {
    if bs != [] && ss != [] && Crosses(bs[0], ss[0]) {
      var q := Min(bs[0].remaining, ss[0].remaining);
      FrontSuffix(bs, q);
      FrontSuffix(ss, q);
      GreedyLeavesSuffix(Front(bs, q), Front(ss, q));
      SuffixTrans(Greedy(bs, ss).buys, Front(bs, q), bs);
      SuffixTrans(Greedy(bs, ss).sells, Front(ss, q), ss);
    }
  }

  lemma {:induction false} FrontLeft(xs: seq<OrderState>, q: int, id: OrderId)
    requires xs != [] && 0 < q <= xs[0].remaining && UniqueIds(xs)
    ensures Left(Front(xs, q), id) == Left(xs, id) - if id == xs[0].id then q else 0
  {
    if q == xs[0].remaining {
      if id == xs[0].id {
        assert forall k :: 0 <= k < |xs[1..]| ==> xs[1..][k] == xs[k + 1];
        LeftAbsent(xs[1..], id);
      }
    } else {
      assert Front(xs, q)[1..] == xs[1..];
    }
  }

  lemma {:induction false} FrontIds(bs: seq<OrderState>, ss: seq<OrderState>, q: int)
    requires bs != [] && ss != [] && Positive(bs) && Positive(ss)
    requires 0 < q <= bs[0].remaining && q <= ss[0].remaining
    requires UniqueIds(bs) && UniqueIds(ss) && DisjointIds(bs, ss)
    ensures var bs', ss' := Front(bs, q), Front(ss, q);
            Positive(bs') && Positive(ss') && UniqueIds(bs') && UniqueIds(ss') && DisjointIds(bs', ss')
  {
    FrontSuffix(bs, q);
    FrontSuffix(ss, q);
    SuffixIds(Front(bs, q), bs);
    SuffixIds(Front(ss, q), ss);
    hide Front;
    var bs', ss' := Front(bs, q), Front(ss, q);
    forall i, j | 0 <= i < |bs'| && 0 <= j < |ss'|
      ensures bs'[i].id != ss'[j].id
    {
      assert SameTerms(bs'[i], bs[|bs| - |bs'| + i]) && SameTerms(ss'[j], ss[|ss| - |ss'| + j]);
    }
  }

  lemma {:induction false} SuffixIds(ys: seq<OrderState>, xs: seq<OrderState>)
    requires Suffix(ys, xs) && UniqueIds(xs)
    ensures Positive(ys) && UniqueIds(ys)
  {
  }

  /** What an order no longer has after the pairing it traded. */
  lemma {:induction false} GreedyConserves(bs: seq<OrderState>, ss: seq<OrderState>, id: OrderId)
    requires Positive(bs) && Positive(ss) && UniqueIds(bs) && UniqueIds(ss) && DisjointIds(bs, ss)
    ensures var g := Greedy(bs, ss);
            Left(g.buys, id) + Left(g.sells, id) + Traded(g.trades, id) == Left(bs, id) + Left(ss, id)
    decreases |bs| + |ss|
  {
    if bs != [] && ss != [] && Crosses(bs[0], ss[0]) {
      var q := Min(bs[0].remaining, ss[0].remaining);
      FrontIds(bs, ss, q);
      GreedyConserves(Front(bs, q), Front(ss, q), id);
      FrontLeft(bs, q, id);
      FrontLeft(ss, q, id);
      assert Greedy(bs, ss).trades[1..] == Greedy(Front(bs, q), Front(ss, q)).trades;
      assert bs[0].id != ss[0].id;
    }
  }

  /** A trade between a buy and a sell of one instrument, priced within both limits. */
  predicate Legal(t: Trade, b: OrderState, s: OrderState) {
    && t.quantity > 0 && t.price > 0
    && b.side == Buy && s.side == Sell && t.instrument == b.instrument == s.instrument
    && t.buyOrder == b.id && t.buyer == b.trader && t.sellOrder == s.id && t.seller == s.trader
    && (b.price.Some? ==> t.price <= b.price.value)
    && (s.price.Some? ==> s.price.value <= t.price)
  }

  /** Buys and sells of one instrument, with quantity left. */
  predicate Opposed(bs: seq<OrderState>, ss: seq<OrderState>, instrument: InstrumentId) {
    && (forall i :: 0 <= i < |bs| ==> bs[i].side == Buy && bs[i].instrument == instrument && bs[i].remaining > 0)
    && (forall j :: 0 <= j < |ss| ==> ss[j].side == Sell && ss[j].instrument == instrument && ss[j].remaining > 0)
    && PositiveLimits(ss)
  }

  lemma {:induction false} OpposedSuffixes(bs': seq<OrderState>, bs: seq<OrderState>, ss': seq<OrderState>,
                                           ss: seq<OrderState>, instrument: InstrumentId)
    requires Suffix(bs', bs) && Suffix(ss', ss) && Opposed(bs, ss, instrument)
    ensures Opposed(bs', ss', instrument)
  {
  }

  /** Every pair is legal and trades at the sell limit, the buyer counted as aggressor. */
  lemma {:induction false} GreedyIsLegal(bs: seq<OrderState>, ss: seq<OrderState>, instrument: InstrumentId, k: nat)
    returns (i: nat, j: nat)
    requires Opposed(bs, ss, instrument) && k < |Greedy(bs, ss).trades|
    ensures i < |bs| && j < |ss| && Legal(Greedy(bs, ss).trades[k], bs[i], ss[j])
    ensures ss[j].price == Some(Greedy(bs, ss).trades[k].price) && Greedy(bs, ss).trades[k].aggressor == Buy
    decreases k
  {
    hide Front;
    var q := Min(bs[0].remaining, ss[0].remaining);
    if k == 0 {
      i, j := 0, 0;
    } else {
      FrontSuffix(bs, q);
      FrontSuffix(ss, q);
      var bs', ss' := Front(bs, q), Front(ss, q);
      OpposedSuffixes(bs', bs, ss', ss, instrument);
      i, j := GreedyIsLegal(bs', ss', instrument, k - 1);
      SuffixTerms(bs', bs);
      SuffixTerms(ss', ss);
      assert Greedy(bs, ss).trades[k] == Greedy(bs', ss').trades[k - 1];
      LegalTerms(Greedy(bs, ss).trades[k], bs'[i], ss'[j], bs[|bs| - |bs'| + i], ss[|ss| - |ss'| + j]);
      i, j := |bs| - |bs'| + i, |ss| - |ss'| + j;
    }
  }

  lemma {:induction false} LegalTerms(t: Trade, b: OrderState, s: OrderState, b': OrderState, s': OrderState)
    requires Legal(t, b, s) && SameTerms(b, b') && SameTerms(s, s')
    ensures Legal(t, b', s')
  {
  }

  lemma {:induction false} SuffixTerms(ys: seq<OrderState>, xs: seq<OrderState>)
    requires Suffix(ys, xs)
    ensures Positive(ys) && |ys| <= |xs|
    ensures forall i :: 0 <= i < |ys| ==> SameTerms(ys[i], xs[|xs| - |ys| + i])
  {
  }

  /** After the pairing the best remaining pair does not cross. */
  lemma {:induction false} GreedyExhausts(bs: seq<OrderState>, ss: seq<OrderState>)
    ensures var g := Greedy(bs, ss);
            g.buys == [] || g.sells == [] || !Crosses(g.buys[0], g.sells[0])
    decreases |bs| + |ss|
  {
    if bs != [] && ss != [] && Crosses(bs[0], ss[0]) {
      var q := Min(bs[0].remaining, ss[0].remaining);
      GreedyExhausts(Front(bs, q), Front(ss, q));
    }
  }

  // ---- the whole batch of one instrument ----

  /** The fills a trade list gives one order, in order. */
  function FillsOf(ts: seq<Trade>, id: OrderId): seq<Trade> {
    if ts == [] then [] else (if ts[0].Names(id) then [ts[0]] else []) + FillsOf(ts[1..], id)
  }

  lemma {:induction false} FillsOfVolume(ts: seq<Trade>, id: OrderId)
    ensures Volume(FillsOf(ts, id)) == Traded(ts, id)
  {
    if ts == [] {
    } else {
      FillsOfVolume(ts[1..], id);
      if ts[0].Names(id) {
        assert FillsOf(ts, id)[1..] == FillsOf(ts[1..], id);
      } else {
        assert FillsOf(ts, id) == FillsOf(ts[1..], id);
      }
    }
  }

  /** The trades reported to an order when it was filed. */
  function OwnTrades(xs: seq<OrderState>, fs: seq<Filing>, id: OrderId): seq<Trade>
    requires |xs| == |fs|
  {
    if xs == [] then []
    else if xs[0].id == id then fs[0].trades
    else OwnTrades(xs[1..], fs[1..], id)
  }

  lemma {:induction false} OwnTradesAt(xs: seq<OrderState>, fs: seq<Filing>, k: nat)
    requires |xs| == |fs| && k < |xs| && UniqueIds(xs)
    ensures OwnTrades(xs, fs, xs[k].id) == fs[k].trades
  {
    if k > 0 {
      OwnTradesAt(xs[1..], fs[1..], k - 1);
    }
  }

  lemma {:induction false} OwnTradesAbsent(xs: seq<OrderState>, fs: seq<Filing>, id: OrderId)
    requires |xs| == |fs| && !HasId(xs, id)
    ensures OwnTrades(xs, fs, id) == []
  {
    if xs == [] {
    } else {
      assert xs[0].id != id;
      forall i | 0 <= i < |xs[1..]|
        ensures xs[1..][i].id != id
      {
        assert xs[1..][i] == xs[i + 1];
      }
      OwnTradesAbsent(xs[1..], fs[1..], id);
    }
  }

  /** What one batch leaves: the book, every new trade, and the fills reported
      to an order, which are its pairs and the trades of its own filing. */
  datatype Outcome = Outcome(book: Book, pairs: Paired, filed: Filed) {
    function Leftovers(): seq<OrderState> {
      pairs.buys + pairs.sells
    }

    function NewTrades(): seq<Trade> {
      pairs.trades + AllTrades(filed.filings)
    }

    function Fills(id: OrderId): seq<Trade>
      requires |Leftovers()| == |filed.filings|
    {
      FillsOf(pairs.trades, id) + OwnTrades(Leftovers(), filed.filings, id)
    }

    /** The order as the batch left it. */
    function Final(x: OrderState): OrderState {
      x.Filled(Traded(NewTrades(), x.id))
    }

    function ResultFor(x: OrderState): OrderResult
      requires |Leftovers()| == |filed.filings|
    {
      ResultOf(Final(x), Fills(x.id))
    }
  }

  function RunBatch(b: Book, bs: seq<OrderState>, ss: seq<OrderState>): (r: Outcome)
    requires Priced(b)
    ensures |r.Leftovers()| == |r.filed.filings| && Priced(r.book)
  {
    var g := Greedy(bs, ss);
    var f := File(b.(log := b.log + g.trades), g.buys + g.sells);
    Outcome(f.book, g, f)
  }

  /** A drawn batch: its sorted orders as they were before the match. */
  datatype Draw = Draw(buys: seq<OrderState>, sells: seq<OrderState>)

  /** A book and the sorted orders of one batch for it, all new to the book. */
  ghost predicate BatchReady(b: Book, bs: seq<OrderState>, ss: seq<OrderState>, instrument: InstrumentId) {
    && BookOk(b, instrument)
    && Batch(bs, Buy, instrument) && Batch(ss, Sell, instrument)
    && Arranged(bs, true) && Arranged(ss, false)
    && DisjointIds(bs, ss)
    && (forall i :: 0 <= i < |bs| ==> !InBook(b, bs[i].id))
    && (forall i :: 0 <= i < |ss| ==> !InBook(b, ss[i].id))
  }

  /** No market sell, or no buy limit it could be filed against. */
  predicate Separate(bs: seq<OrderState>, ss: seq<OrderState>) {
    AllLimit(ss) || forall i :: 0 <= i < |bs| ==> bs[i].price.None?
  }

  lemma {:induction false} ReadyFacts(b: Book, bs: seq<OrderState>, ss: seq<OrderState>, instrument: InstrumentId)
    requires BatchReady(b, bs, ss, instrument)
    ensures Positive(bs) && Positive(ss) && UniqueIds(bs) && UniqueIds(ss) && DisjointIds(bs, ss)
    ensures PositiveLimits(bs) && PositiveLimits(ss) && Opposed(bs, ss, instrument) && BothArranged(bs, ss)
    ensures Priced(b) && BookOk(b, instrument)
  {
  }

  lemma {:induction false} SuffixesUnique(ys: seq<OrderState>, bs: seq<OrderState>, zs: seq<OrderState>,
                                          ss: seq<OrderState>)
    requires Suffix(ys, bs) && Suffix(zs, ss)
    requires UniqueIds(bs) && UniqueIds(ss) && DisjointIds(bs, ss)
    ensures UniqueIds(ys + zs)
  {
  }

  lemma {:induction false} SuffixAddable(ys: seq<OrderState>, xs: seq<OrderState>, b: Book, side: Side,
                                         instrument: InstrumentId)
    requires Suffix(ys, xs) && Batch(xs, side, instrument)
    requires forall i :: 0 <= i < |xs| ==> !InBook(b, xs[i].id)
    ensures forall i :: 0 <= i < |ys| ==> ys[i].WellFormed() && ys[i].instrument == instrument && !InBook(b, ys[i].id)
  {
  }

  lemma {:induction false} LeftoversAddable(b: Book, bs: seq<OrderState>, ss: seq<OrderState>, instrument: InstrumentId)
    requires BatchReady(b, bs, ss, instrument)
    ensures Priced(b)
    ensures var g := Greedy(bs, ss);
            Addable(b.(log := b.log + g.trades), g.buys + g.sells, instrument)
  {
    hide Greedy, UniqueIds, DisjointIds, Batch, Arranged, Suffix, SideOk, Uncrossed, HasId;
    ReadyFacts(b, bs, ss, instrument);
    GreedyLeavesSuffix(bs, ss);
    var g := Greedy(bs, ss);
    var b0 := b.(log := b.log + g.trades);
    SuffixesUnique(g.buys, bs, g.sells, ss);
    assert forall id :: InBook(b0, id) == InBook(b, id);
    assert BookOk(b0, instrument);
    SuffixAddable(g.buys, bs, b0, Buy, instrument);
    SuffixAddable(g.sells, ss, b0, Sell, instrument);
  }

  lemma {:induction false} SuffixAbsent(ys: seq<OrderState>, xs: seq<OrderState>, id: OrderId)
    requires Suffix(ys, xs) && !HasId(xs, id)
    ensures !HasId(ys, id)
  {
  }

  lemma {:induction false} NotInBatch(b: Book, bs: seq<OrderState>, ss: seq<OrderState>, instrument: InstrumentId,
                                      id: OrderId)
    requires BatchReady(b, bs, ss, instrument) && InBook(b, id)
    ensures !HasId(bs, id) && !HasId(ss, id)
  {
  }

  /** The pairs leave whoever is not in the batch alone. */
  lemma {:induction false} PairsSpareOthers(b: Book, bs: seq<OrderState>, ss: seq<OrderState>,
                                            instrument: InstrumentId, id: OrderId)
    requires BatchReady(b, bs, ss, instrument)
    requires !HasId(bs, id) && !HasId(ss, id)
    ensures Traded(Greedy(bs, ss).trades, id) == 0
    ensures !HasId(Greedy(bs, ss).buys + Greedy(bs, ss).sells, id)
  {
    hide Greedy, Traded, Suffix, HasId, BookOk, BatchReady;
    ReadyFacts(b, bs, ss, instrument);
    GreedyConserves(bs, ss, id);
    GreedyLeavesSuffix(bs, ss);
    var g := Greedy(bs, ss);
    SuffixAbsent(g.buys, bs, id);
    SuffixAbsent(g.sells, ss, id);
    NoLeftover(g.buys, g.sells, id);
    LeftAbsent(bs, id);
    LeftAbsent(ss, id);
    LeftAbsent(g.buys, id);
    LeftAbsent(g.sells, id);
  }

  lemma {:induction false} SuffixArranged(ys: seq<OrderState>, xs: seq<OrderState>, descending: bool)
    requires Suffix(ys, xs) && Arranged(xs, descending) && PositiveLimits(xs)
    ensures Positive(ys) && Arranged(ys, descending) && PositiveLimits(ys)
    ensures AllLimit(xs) ==> AllLimit(ys)
  {
    hide SortKey;
    assert forall i :: 0 <= i < |ys| ==>
                         SortKey(ys[i].price, descending) == SortKey(xs[|xs| - |ys| + i].price, descending);
  }

  /** No buy the pairing leaves crosses a sell it leaves. */
  lemma {:induction false} LeftoversApart(bs: seq<OrderState>, ss: seq<OrderState>, i: nat, j: nat)
    requires BothArranged(bs, ss) && AllLimit(ss) && i < |Greedy(bs, ss).buys| && j < |Greedy(bs, ss).sells|
    ensures !Crosses(Greedy(bs, ss).buys[i], Greedy(bs, ss).sells[j])
  {
    hide Greedy, Arranged, Suffix;
    GreedyLeavesSuffix(bs, ss);
    GreedyExhausts(bs, ss);
    var g := Greedy(bs, ss);
    SuffixArranged(g.buys, bs, true);
    SuffixArranged(g.sells, ss, false);
    BestStops(g.buys, g.sells);
  }

  lemma {:induction false} LeftoversPeaceful(bs: seq<OrderState>, ss: seq<OrderState>, instrument: InstrumentId)
    requires BothArranged(bs, ss) && Opposed(bs, ss, instrument) && Separate(bs, ss)
    ensures Peaceful(Greedy(bs, ss).buys + Greedy(bs, ss).sells)
  {
    hide Greedy, Arranged, Suffix;
    GreedyLeavesSuffix(bs, ss);
    var g := Greedy(bs, ss);
    SuffixTerms(g.buys, bs);
    SuffixTerms(g.sells, ss);
    var n, m := |bs| - |g.buys|, |ss| - |g.sells|;
    var xs := g.buys + g.sells;
    forall i, j | 0 <= i < j < |xs| && xs[i].price.Some? && xs[i].side != xs[j].side
      ensures !Accepts(xs[j], xs[i].price.value)
    {
      assert i < |g.buys| <= j;
      assert xs[i] == g.buys[i] && xs[j] == g.sells[j - |g.buys|];
      assert SameTerms(g.buys[i], bs[n + i]);
      assert SameTerms(g.sells[j - |g.buys|], ss[m + (j - |g.buys|)]);
      if AllLimit(ss) {
        LeftoversApart(bs, ss, i, j - |g.buys|);
      }
    }
  }

  lemma {:induction false} LeftoverOf(ys: seq<OrderState>, zs: seq<OrderState>, id: OrderId) returns (k: nat)
    requires HasId(ys, id) || HasId(zs, id)
    ensures k < |ys + zs| && (ys + zs)[k].id == id
  {
    if HasId(ys, id) {
      k :| 0 <= k < |ys| && ys[k].id == id;
      assert (ys + zs)[k] == ys[k];
    } else {
      var j :| 0 <= j < |zs| && zs[j].id == id;
      k := |ys| + j;
      assert (ys + zs)[k] == zs[j];
    }
  }

  lemma {:induction false} NoLeftover(ys: seq<OrderState>, zs: seq<OrderState>, id: OrderId)
    requires !HasId(ys, id) && !HasId(zs, id)
    ensures !HasId(ys + zs, id)
  {
  }

  lemma {:induction false} LeftSum(ys: seq<OrderState>, zs: seq<OrderState>, k: nat)
    requires k < |ys + zs| && UniqueIds(ys + zs)
    ensures Left(ys, (ys + zs)[k].id) + Left(zs, (ys + zs)[k].id) == (ys + zs)[k].remaining
  {
    var xs := ys + zs;
    assert forall i :: 0 <= i < |ys| ==> ys[i] == xs[i];
    assert forall i :: 0 <= i < |zs| ==> zs[i] == xs[|ys| + i];
    if k < |ys| {
      LeftAt(ys, k);
      LeftAbsent(zs, xs[k].id);
    } else {
      LeftAt(zs, k - |ys|);
      LeftAbsent(ys, xs[k].id);
    }
  }

  lemma {:induction false} BatchIds(b: Book, bs: seq<OrderState>, ss: seq<OrderState>, instrument: InstrumentId,
                                    x: OrderState)
    requires BatchReady(b, bs, ss, instrument) && (x in bs || x in ss)
    ensures Left(bs, x.id) + Left(ss, x.id) == x.remaining && !InBook(b, x.id)
  {
    hide Arranged, InBook, BookOk;
    if x in bs {
      var k :| 0 <= k < |bs| && bs[k] == x;
      LeftAt(bs, k);
      LeftAbsent(ss, x.id);
    } else {
      var k :| 0 <= k < |ss| && ss[k] == x;
      LeftAt(ss, k);
      LeftAbsent(bs, x.id);
    }
  }

  /** Conservation over any batch: an order ends with what it did not trade,
      rests with exactly that if it is a limit order, and is gone otherwise. */
  lemma {:induction false} BatchSettles(b: Book, bs: seq<OrderState>, ss: seq<OrderState>, instrument: InstrumentId,
                                        x: OrderState)
    requires BatchReady(b, bs, ss, instrument) && (x in bs || x in ss)
    ensures Priced(b)
    ensures var r := RunBatch(b, bs, ss);
            && BookOk(r.book, instrument)
            && r.book.log == b.log + r.NewTrades()
            && 0 <= r.Final(x).remaining
            && LeftInBook(r.book, x.id) == if x.price.Some? then r.Final(x).remaining else 0
  {
    hide Greedy, File, BookOk, Traded, UniqueIds, Left, InBook, Suffix, Batch, Arranged, Positive, PositiveLimits,
      DisjointIds, BatchReady;
    ReadyFacts(b, bs, ss, instrument);
    LeftoversAddable(b, bs, ss, instrument);
    BatchIds(b, bs, ss, instrument, x);
    GreedyConserves(bs, ss, x.id);
    GreedyLeavesSuffix(bs, ss);
    var g := Greedy(bs, ss);
    var b0 := b.(log := b.log + g.trades);
    var xs := g.buys + g.sells;
    var f := File(b0, xs);
    FileKeepsBook(b0, xs, instrument);
    TradedConcat(g.trades, AllTrades(f.filings), x.id);
    assert b.log + g.trades + AllTrades(f.filings) == b.log + (g.trades + AllTrades(f.filings));
    if HasId(g.buys, x.id) || HasId(g.sells, x.id) {
      var k := LeftoverOf(g.buys, g.sells, x.id);
      LeftSum(g.buys, g.sells, k);
      FileSettles(b0, xs, instrument, k);
      LeftoverPrice(b, bs, ss, instrument, x, k);
    } else {
      NoLeftover(g.buys, g.sells, x.id);
      LeftAbsent(g.buys, x.id);
      LeftAbsent(g.sells, x.id);
      FileConserves(b0, xs, instrument, x.id);
      InBookLeft(b, instrument, x.id);
      InBookLeft(f.book, instrument, x.id);
    }
  }

  lemma {:induction false} LeftoverPrice(b: Book, bs: seq<OrderState>, ss: seq<OrderState>, instrument: InstrumentId,
                                         x: OrderState, k: nat)
    requires BatchReady(b, bs, ss, instrument) && (x in bs || x in ss)
    requires var xs := Greedy(bs, ss).buys + Greedy(bs, ss).sells; k < |xs| && xs[k].id == x.id
    ensures SameTerms((Greedy(bs, ss).buys + Greedy(bs, ss).sells)[k], x)
  {
    ReadyFacts(b, bs, ss, instrument);
    GreedyLeavesSuffix(bs, ss);
    hide Greedy, BatchReady, Arranged, Batch;
    var g := Greedy(bs, ss);
    SuffixTerms(g.buys, bs);
    SuffixTerms(g.sells, ss);
    var y := (g.buys + g.sells)[k];
    if k < |g.buys| {
      assert SameTerms(y, bs[|bs| - |g.buys| + k]);
    } else {
      assert SameTerms(y, ss[|ss| - |g.sells| + (k - |g.buys|)]);
    }
  }

  /** Whoever is not in the batch loses from the book exactly what it traded. */
  lemma {:induction false} BatchConserves(b: Book, bs: seq<OrderState>, ss: seq<OrderState>, instrument: InstrumentId,
                                          id: OrderId)
    requires BatchReady(b, bs, ss, instrument) && !HasId(bs, id) && !HasId(ss, id)
    ensures Priced(b)
    ensures var r := RunBatch(b, bs, ss);
            LeftInBook(r.book, id) + Traded(r.NewTrades(), id) == LeftInBook(b, id) && Traded(r.NewTrades(), id) >= 0
  {
    hide Greedy, File, BookOk, Traded, UniqueIds, Left, InBook, Batch, Arranged, Positive, DisjointIds, BatchReady,
      HasId;
    ReadyFacts(b, bs, ss, instrument);
    LeftoversAddable(b, bs, ss, instrument);
    PairsSpareOthers(b, bs, ss, instrument, id);
    var g := Greedy(bs, ss);
    var b0 := b.(log := b.log + g.trades);
    FileConserves(b0, g.buys + g.sells, instrument, id);
    TradedConcat(g.trades, AllTrades(File(b0, g.buys + g.sells).filings), id);
    assert LeftInBook(b0, id) == LeftInBook(b, id);
  }

  /** What a result says adds up: its fills are what the order traded. */
  predicate Accounted(r: Outcome, x: OrderState)
    requires |r.Leftovers()| == |r.filed.filings|
  {
    Volume(r.Fills(x.id)) == Traded(r.NewTrades(), x.id)
  }

  /** Over any valid book, without a market sell filed against a buy limit:
      every order has a result whose fills are exactly what it lost, with the
      status to match, and every unfilled limit order rests once, as reported. */
  lemma {:induction false} BatchReports(b: Book, bs: seq<OrderState>, ss: seq<OrderState>, instrument: InstrumentId,
                                        x: OrderState)
    requires BatchReady(b, bs, ss, instrument) && Separate(bs, ss) && (x in bs || x in ss)
    ensures Priced(b)
    ensures var r := RunBatch(b, bs, ss);
            && Accounted(r, x)
            && r.ResultFor(x).remaining == x.remaining - Volume(r.ResultFor(x).fills)
            && (r.ResultFor(x).status == FullyFilled <==> Volume(r.ResultFor(x).fills) == x.remaining)
            && (r.ResultFor(x).status == New <==> r.ResultFor(x).fills == [] && x.remaining > 0)
            && (r.Final(x).remaining > 0 && x.price.Some? ==> r.Final(x) in r.book.Orders(x.side))
  {
    hide Greedy, File, BookOk, Traded, UniqueIds, Left, InBook, Suffix, Batch, Arranged, Positive, PositiveLimits,
      DisjointIds, BatchReady, Separate, Peaceful, BothArranged, Opposed;
    ReadyFacts(b, bs, ss, instrument);
    LeftoversAddable(b, bs, ss, instrument);
    LeftoversPeaceful(bs, ss, instrument);
    BatchIds(b, bs, ss, instrument, x);
    GreedyConserves(bs, ss, x.id);
    var g := Greedy(bs, ss);
    var b0 := b.(log := b.log + g.trades);
    var xs := g.buys + g.sells;
    var f := File(b0, xs);
    var own := OwnTrades(xs, f.filings, x.id);
    TradedConcat(g.trades, AllTrades(f.filings), x.id);
    FillsOfVolume(g.trades, x.id);
    VolumeConcat(FillsOf(g.trades, x.id), own);
    assert Volume([]) == 0;
    if HasId(g.buys, x.id) || HasId(g.sells, x.id) {
      var k := LeftoverOf(g.buys, g.sells, x.id);
      OwnTradesAt(xs, f.filings, k);
      LeftSum(g.buys, g.sells, k);
      PeacefulFiling(b0, xs, instrument, k);
      LeftoverPrice(b, bs, ss, instrument, x, k);
    } else {
      NoLeftover(g.buys, g.sells, x.id);
      OwnTradesAbsent(xs, f.filings, x.id);
      LeftAbsent(g.buys, x.id);
      LeftAbsent(g.sells, x.id);
      FileConserves(b0, xs, instrument, x.id);
      InBookLeft(b, instrument, x.id);
      FileKeepsBook(b0, xs, instrument);
      InBookLeft(f.book, instrument, x.id);
    }
  }
}
