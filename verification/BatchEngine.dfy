/** The batch matching engine on order objects: it holds submitted orders back,
    then sorts, pairs and files them in place. */
module BatchEngines {
  import opened Collections
  import opened Orders
  import opened PriceTime
  import opened BookLaws
  import opened BatchAuction
  import opened BatchAccounts
  import opened OrderBooks

  ghost function States(xs: seq<Order>): (ss: seq<OrderState>)
    reads xs
    ensures |ss| == |xs| && forall i :: 0 <= i < |xs| ==> ss[i] == xs[i].State()
  {
    if xs == [] then [] else [xs[0].State()] + States(xs[1..])
  }

  predicate Distinct(xs: seq<Order>) {
    forall i, j :: 0 <= i < j < |xs| ==> xs[i] != xs[j] && xs[i].id != xs[j].id
  }

  predicate SortedByKey(xs: seq<Order>, descending: bool) {
    forall i, j :: 0 <= i < j < |xs| ==> SortKey(xs[i].price, descending) <= SortKey(xs[j].price, descending)
  }

  lemma {:induction false} LowestKey(xs: seq<Order>, descending: bool) returns (m: nat)
    requires xs != []
    ensures m < |xs|
    ensures forall j :: 0 <= j < |xs| ==> SortKey(xs[m].price, descending) <= SortKey(xs[j].price, descending)
  {
    if |xs| == 1 {
      m := 0;
    } else {
      m := LowestKey(xs[1..], descending);
      assert forall j :: 1 <= j < |xs| ==> xs[j] == xs[1..][j - 1];
      m := if SortKey(xs[0].price, descending) <= SortKey(xs[m + 1].price, descending) then 0 else m + 1;
    }
  }

  lemma {:induction false} TakenOut(xs: seq<Order>, m: nat)
    requires m < |xs|
    ensures multiset(xs) == multiset(xs[..m] + xs[m + 1..]) + multiset{xs[m]}
    ensures forall x :: x in xs[..m] + xs[m + 1..] ==> x in xs
  {
    assert xs == xs[..m] + [xs[m]] + xs[m + 1..];
  }

  /** Sorts by price with a random draw among equal prices: at every position any
      of the orders that could come next may come next. */
  method RandomizeSamePrice(orders: seq<Order>, descending: bool) returns (sorted: seq<Order>)
    ensures multiset(sorted) == multiset(orders) && SortedByKey(sorted, descending)
  {
    hide SortKey;
    sorted := [];
    var rest := orders;
    while rest != []
      invariant multiset(sorted) + multiset(rest) == multiset(orders)
      invariant SortedByKey(sorted, descending)
      invariant forall i, x :: 0 <= i < |sorted| && x in rest ==>
                SortKey(sorted[i].price, descending) <= SortKey(x.price, descending)
      decreases |rest|
    {
      ghost var lowest := LowestKey(rest, descending);
      var m :| 0 <= m < |rest| && forall j :: 0 <= j < |rest| ==>
        SortKey(rest[m].price, descending) <= SortKey(rest[j].price, descending);
      TakenOut(rest, m);
      sorted := sorted + [rest[m]];
      rest := rest[..m] + rest[m + 1..];
    }
  }

  /** Results under construction, by order id. */
  type Results = map<OrderId, OrderResult>

  function GetOrCreate(results: Results, o: OrderState): OrderResult {
    if o.id in results then results[o.id] else OrderResult(o.id, New, [], o.remaining)
  }

  /** Appends fills to an order's result, creating the result when missing. */
  function WithFills(results: Results, o: OrderState, ts: seq<Trade>): Results {
    var r := GetOrCreate(results, o);
    results[o.id := r.(fills := r.fills + ts)]
  }

  lemma {:induction false} FillsAddKey(results: Results, o: OrderState, ts: seq<Trade>)
    ensures WithFills(results, o, ts).Keys == results.Keys + {o.id}
  {
  }

  function FillsIn(results: Results, id: OrderId): seq<Trade> {
    if id in results then results[id].fills else []
  }

  /** The results hold exactly the fills of some trades. */
  ghost predicate Collected(results: Results, ts: seq<Trade>) {
    forall id :: FillsIn(results, id) == FillsOf(ts, id)
  }

  lemma {:induction false} FillsOfSnoc(ts: seq<Trade>, t: Trade, id: OrderId)
    ensures FillsOf(ts + [t], id) == FillsOf(ts, id) + if t.Names(id) then [t] else []
  {
    if ts == [] {
      assert [] + [t] == [t] && [t][1..] == [];
    } else {
      assert (ts + [t])[1..] == ts[1..] + [t];
      FillsOfSnoc(ts[1..], t, id);
      var head := if ts[0].Names(id) then [ts[0]] else [];
      var rest, last := FillsOf(ts[1..], id), if t.Names(id) then [t] else [];
      assert head + (rest + last) == head + rest + last;
    }
  }

  lemma {:induction false} CollectTrade(results: Results, ts: seq<Trade>, t: Trade, b: OrderState, s: OrderState)
    requires Collected(results, ts)
    requires t.buyOrder == b.id && t.sellOrder == s.id && b.id != s.id
    ensures Collected(WithFills(WithFills(results, b, [t]), s, [t]), ts + [t])
  {
    forall id
      ensures FillsIn(WithFills(WithFills(results, b, [t]), s, [t]), id) == FillsOf(ts + [t], id)
    {
      FillsOfSnoc(ts, t, id);
    }
  }

  /** Takes a trade off both orders, and puts it in both results and the book's history. */
  method RecordPair(t: Trade, buy: Order, sell: Order, book: OrderBook, results: Results) returns (r: Results)
    requires book.Valid() && buy !in book.live && sell !in book.live && buy != sell
    modifies buy, sell, book`trades, book`log
    ensures buy.remaining == old(buy.remaining) - t.quantity && sell.remaining == old(sell.remaining) - t.quantity
    ensures book.Valid() && book.log == old(book.log) + [t]
    ensures r == WithFills(WithFills(results, buy.State(), [t]), sell.State(), [t])
  {
    buy.remaining := buy.remaining - t.quantity;
    sell.remaining := sell.remaining - t.quantity;
    r := WithFills(WithFills(results, buy.State(), [t]), sell.State(), [t]);
    book.RecordTrade(t);
  }

  /** Orders of a batch: distinct, with quantity left, and not in the book. */
  predicate Pending(xs: seq<Order>, live: set<Order>)
    reads xs
  {
    && Distinct(xs)
    && forall i :: 0 <= i < |xs| ==> xs[i] !in live && xs[i].remaining > 0
  }

  predicate NoneShared(xs: seq<Order>, ys: seq<Order>) {
    forall i, j :: 0 <= i < |xs| && 0 <= j < |ys| ==> xs[i] != ys[j] && xs[i].id != ys[j].id
  }

  /** A queue of orders past its head once that is filled. */
  function Advance(xs: seq<Order>): seq<Order>
    requires xs != []
    reads xs
  {
    if xs[0].IsFilled() then xs[1..] else xs
  }

  lemma {:induction false} PendingAdvance(xs: seq<Order>, live: set<Order>)
    requires xs != [] && Distinct(xs) && xs[0].remaining >= 0
    requires forall i :: 0 <= i < |xs| ==> xs[i] !in live && (i > 0 ==> xs[i].remaining > 0)
    ensures Pending(Advance(xs), live)
  {
  }

  twostate lemma {:induction false} SameStates(xs: seq<Order>)
    requires forall i :: 0 <= i < |xs| ==> xs[i].remaining == old(xs[i].remaining)
    ensures States(xs) == old(States(xs))
  {
    var was := old(States(xs));
    assert forall i :: 0 <= i < |xs| ==> was[i] == old(xs[i].State());
  }

  /** Filling the head of a queue is one round of the walk over its states. */
  twostate lemma {:induction false} HeadFilled(xs: seq<Order>, new q: int)
    requires xs != [] && xs[0].remaining == old(xs[0].remaining) - q
    requires forall i :: 1 <= i < |xs| ==> xs[i].remaining == old(xs[i].remaining)
    ensures old(States(xs)) != [] && States(Advance(xs)) == Front(old(States(xs)), q)
  {
    SameStates(xs[1..]);
    assert old(States(xs)) == [old(xs[0].State())] + old(States(xs[1..]));
    assert xs[0].State() == old(xs[0].State()).Filled(q);
  }

  /** One round of the two-pointer loop: trade the two heads. */
  method PairHeads(bq: seq<Order>, sq: seq<Order>, book: OrderBook, results: Results) returns (t: Trade, r: Results)
    requires book.Valid() && bq != [] && sq != []
    requires Pending(bq, book.live) && Pending(sq, book.live) && NoneShared(bq, sq)
    requires bq[0].price.Some? && sq[0].price.Some? && bq[0].price.value >= sq[0].price.value
    modifies bq[0], sq[0], book`trades, book`log
    ensures book.Valid() && book.log == old(book.log) + [t]
    ensures var q := Min(old(bq[0].remaining), old(sq[0].remaining));
            && t == PairTrade(old(bq[0].State()), old(sq[0].State()), q)
            && bq[0].remaining == old(bq[0].remaining) - q && sq[0].remaining == old(sq[0].remaining) - q
            && old(States(bq)) != [] && States(Advance(bq)) == Front(old(States(bq)), q)
            && old(States(sq)) != [] && States(Advance(sq)) == Front(old(States(sq)), q)
    ensures Pending(Advance(bq), book.live) && Pending(Advance(sq), book.live)
    ensures r == WithFills(WithFills(results, bq[0].State(), [t]), sq[0].State(), [t])
    ensures bq[0].IsFilled() || sq[0].IsFilled()
  {
    hide OrderBook.Valid, WithFills, States, Advance;
    var b, s := bq[0], sq[0];
    var q := Min(b.remaining, s.remaining);
    t := Trade(b.instrument, b.trader, s.trader, s.price.value, q, b.id, s.id, Buy);
    r := RecordPair(t, b, s, book, results);
    HeadFilled(bq, q);
    HeadFilled(sq, q);
    PendingAdvance(bq, book.live);
    PendingAdvance(sq, book.live);
  }

  lemma {:induction false} GreedyRound(bs: seq<OrderState>, ss: seq<OrderState>)
    requires bs != [] && ss != [] && Crosses(bs[0], ss[0])
    ensures var q := Min(bs[0].remaining, ss[0].remaining);
            var g := Greedy(Front(bs, q), Front(ss, q));
            Greedy(bs, ss) == g.(trades := [PairTrade(bs[0], ss[0], q)] + g.trades)
  {
  }

  lemma {:induction false} GreedyStops(bs: seq<OrderState>, ss: seq<OrderState>)
    requires bs == [] || ss == [] || !Crosses(bs[0], ss[0])
    ensures Greedy(bs, ss) == Paired([], bs, ss)
  {
  }

  lemma {:induction false} NothingCollected()
    ensures Collected(map[], []) && forall id :: Traded([], id) == 0
  {
  }

  lemma {:induction false} PairTraded(ts: seq<Trade>, t: Trade, xs: seq<Order>, b: Order, s: Order)
    requires t.buyOrder == b.id && t.sellOrder == s.id
    requires forall x :: x in xs && x != b && x != s ==> x.id != b.id && x.id != s.id
    ensures forall x :: x in xs ==>
              Traded(ts + [t], x.id) == Traded(ts, x.id) + if x == b || x == s then t.quantity else 0
  {
    hide Traded;
    forall x | x in xs
      ensures Traded(ts + [t], x.id) == Traded(ts, x.id) + if x == b || x == s then t.quantity else 0
    {
      TradedSnoc(ts, t, x.id);
    }
  }

  /** How far the batch got: the fills collected so far are those of `ts`, and
      so is what every order lost. */
  twostate predicate SoFar(orders: seq<Order>, results: Results, ts: seq<Trade>)
    reads orders
  {
    && Collected(results, ts)
    && forall x :: x in orders ==> x.remaining == old(x.remaining) - Traded(ts, x.id)
  }

  /** One round, with the accounts it keeps. */
  method PairRound(ghost all: seq<Order>, bq: seq<Order>, sq: seq<Order>, book: OrderBook, results: Results,
                   ghost ts: seq<Trade>,
                   ghost ids: set<OrderId>)
    returns (t: Trade, r: Results)
    requires book.Valid() && bq != [] && sq != []
    requires Pending(bq, book.live) && Pending(sq, book.live) && NoneShared(bq, sq)
    requires results.Keys <= ids && bq[0].id in ids && sq[0].id in ids
    requires bq[0].price.Some? && sq[0].price.Some? && bq[0].price.value >= sq[0].price.value
    requires Distinct(all) && bq[0] in all && sq[0] in all && Collected(results, ts)
    modifies bq[0], sq[0], book`trades, book`log
    ensures book.Valid() && book.log == old(book.log) + [t]
    ensures Pending(Advance(bq), book.live) && Pending(Advance(sq), book.live)
    ensures var g := Greedy(States(Advance(bq)), States(Advance(sq)));
            Greedy(old(States(bq)), old(States(sq))) == g.(trades := [t] + g.trades)
    ensures Collected(r, ts + [t])
    ensures forall x :: x in all ==>
              x.remaining - old(x.remaining) == Traded(ts, x.id) - Traded(ts + [t], x.id)
    ensures bq[0].IsFilled() || sq[0].IsFilled()
    ensures r.Keys == results.Keys + {bq[0].id, sq[0].id} <= ids
  {
    hide OrderBook.Valid, Greedy, FillsOf, Traded, WithFills, Collected, Front, Pending, States, Advance;
    GreedyRound(States(bq), States(sq));
    t, r := PairHeads(bq, sq, book, results);
    CollectTrade(results, ts, t, bq[0].State(), sq[0].State());
    PairTraded(ts, t, all, bq[0], sq[0]);
    FillsAddKey(results, bq[0].State(), [t]);
    FillsAddKey(WithFills(results, bq[0].State(), [t]), sq[0].State(), [t]);
  }

  lemma {:induction false} TradesRegroup(a: seq<Trade>, b: seq<Trade>, c: seq<Trade>)
    ensures a + b + c == a + (b + c)
  {
  }

  lemma {:induction false} AdvanceSlice(xs: seq<Order>, i: nat)
    requires i < |xs|
    ensures Advance(xs[i..]) == xs[if xs[i].IsFilled() then i + 1 else i..]
  {
  }

  lemma {:induction false} ApartSlices(xs: seq<Order>, ys: seq<Order>, i: nat, j: nat)
    requires Distinct(xs + ys) && i <= |xs| && j <= |ys|
    ensures NoneShared(xs[i..], ys[j..])
  {
    forall a, b | i <= a < |xs| && j <= b < |ys|
      ensures xs[a] != ys[b] && xs[a].id != ys[b].id
    {
      assert (xs + ys)[a] == xs[a] && (xs + ys)[|xs| + b] == ys[b];
    }
  }

  lemma {:induction false} SlicesApart(xs: seq<Order>, ys: seq<Order>, i: nat, j: nat)
    requires NoneShared(xs, ys) && i <= |xs| && j <= |ys|
    ensures NoneShared(xs[i..], ys[j..])
  {
  }

  /** The two-pointer loop is the greedy match. */
  method PairOff(buys: seq<Order>, sells: seq<Order>, book: OrderBook, ghost orders: seq<Order>,
                 ghost ids: set<OrderId>)
    returns (i: nat, j: nat, results: Results, ghost g: Paired)
    requires book.Valid() && Pending(buys, book.live) && Pending(sells, book.live) && NoneShared(buys, sells)
    requires Distinct(orders) && forall x :: x in buys || x in sells ==> x in orders && x.id in ids
    modifies buys, sells, book`trades, book`log
    ensures SoFar(orders, results, g.trades) && results.Keys <= ids
    ensures book.Valid() && book.log == old(book.log) + g.trades
    ensures g == Greedy(old(States(buys)), old(States(sells)))
    ensures i <= |buys| && j <= |sells|
    ensures g.buys == States(buys[i..]) && g.sells == States(sells[j..])
    ensures Pending(buys[i..], book.live) && Pending(sells[j..], book.live) && NoneShared(buys[i..], sells[j..])
  {
    hide OrderBook.Valid, Greedy, FillsOf, Traded, WithFills, Collected, Front, Pending, States, Advance, Distinct,
      NoneShared;
    i, j, results := 0, 0, map[];
    ghost var bs, ss := States(buys), States(sells);
    g := Greedy(bs, ss);
    ghost var ts: seq<Trade> := [];
    NothingCollected();
    assert buys[0..] == buys && sells[0..] == sells;
    while i < |buys| && j < |sells|
      invariant i <= |buys| && j <= |sells|
      invariant book.Valid() && book.log == old(book.log) + ts
      invariant Pending(buys[i..], book.live) && Pending(sells[j..], book.live)
      invariant var g := Greedy(States(buys[i..]), States(sells[j..])); Greedy(bs, ss) == g.(trades := ts + g.trades)
      invariant SoFar(orders, results, ts) && results.Keys <= ids
      decreases |buys| - i + |sells| - j
    {
      ghost var bq, sq := buys[i..], sells[j..];
      if buys[i].price.Some? && sells[j].price.Some? && buys[i].price.value >= sells[j].price.value {
        assert buys[i] in buys && sells[j] in sells;
        SlicesApart(buys, sells, i, j);
        var t;
        t, results := PairRound(orders, buys[i..], sells[j..], book, results, ts, ids);
        TradesRegroup(ts, [t], Greedy(States(Advance(bq)), States(Advance(sq))).trades);
        TradesRegroup(old(book.log), ts, [t]);
        ts := ts + [t];
        AdvanceSlice(buys, i);
        AdvanceSlice(sells, j);
        if buys[i].IsFilled() {
          i := i + 1;
        }
        if sells[j].IsFilled() {
          j := j + 1;
        }
      } else {
        break;
      }
    }
    GreedyStops(States(buys[i..]), States(sells[j..]));
    SlicesApart(buys, sells, i, j);
    assert ts + [] == ts;
  }

  // ---- filing the leftovers ----

  predicate Identified(all: set<Order>) {
    forall x, y :: x in all && y in all && x.id == y.id ==> x == y
  }

  lemma {:induction false} NotIndexed(book: OrderBook, all: set<Order>, x: Order)
    requires book.Valid() && book.live <= all && Identified(all) && x in all && x !in book.live
    ensures x.id !in book.orderIds
  {
    hide OrderBook.Valid;
    if x.id in book.orderIds {
      var side, i, j := book.Locate(x.id);
      assert false;
    }
  }

  /** How much every order lost is what some trades took. */
  twostate predicate Lost(all: set<Order>, ts: seq<Trade>)
    reads all
  {
    forall x :: x in all ==> x.remaining == old(x.remaining) - Traded(ts, x.id)
  }

  lemma {:induction false} StrangersKeepTrades(book: OrderBook, o: Order, all: set<Order>, ts: seq<Trade>)
    requires book.Valid() && book.live <= all && Identified(all) && o in all && o !in book.live
    requires o.State().WellFormed() && o.instrument == book.instrument && Priced(book.AsBook())
    requires Add(book.AsBook(), o.State()).trades == ts
    ensures forall x :: x in all && x != o && x !in book.live ==> Traded(ts, x.id) == 0
    ensures Add(book.AsBook(), o.State()).order == o.State().Filled(Traded(ts, o.id))
  {
    hide OrderBook.Valid, Traded, Add, BookOk, InBook;
    book.ValidBook();
    NotIndexed(book, all, o);
    AddConserves(book.AsBook(), o.State(), book.instrument, o.id);
    forall x | x in all && x != o && x !in book.live
      ensures Traded(ts, x.id) == 0
    {
      NotIndexed(book, all, x);
      AddOtherIds(book.AsBook(), o.State(), book.instrument, x.id);
    }
  }

  /** Files one order and credits the trades to it alone. */
  method FileOne(o: Order, book: OrderBook, results: Results, ghost all: set<Order>)
    returns (r: Results, ghost ts: seq<Trade>)
    requires book.Valid() && book.live <= all && Identified(all) && o in all && o !in book.live
    requires o.State().WellFormed() && o.instrument == book.instrument
    modifies book, book.levels, book.live, o
    ensures book.Valid() && fresh(book.levels - old(book.levels)) && book.live <= old(book.live) + {o}
    ensures Priced(old(book.AsBook())) && Add(old(book.AsBook()), old(o.State())) == Added(book.AsBook(), o.State(), ts)
    ensures r == WithFills(results, o.State(), ts) && r.Keys == results.Keys + {o.id}
    ensures Lost(all, ts)
  {
    hide OrderBook.Valid, OrderBook.AsBook, Traded, Add, WithFills;
    NotIndexed(book, all, o);
    book.ValidBook();
    StrangersKeepTrades(book, o, all, Add(book.AsBook(), o.State()).trades);
    var added := book.AddOrder(o);
    ts := added.value;
    r := WithFills(results, o.State(), added.value);
    FillsAddKey(results, o.State(), ts);
  }

  lemma {:induction false} FileStep(b: Book, xs: seq<OrderState>, k: nat)
    requires Priced(b) && k < |xs|
    ensures var a := Add(b, xs[k]);
            var f := File(a.book, xs[k + 1..]);
            File(b, xs[k..]) == Filed(f.book, [Filing(a.order, a.trades)] + f.filings)
  {
  }

  lemma {:induction false} OwnTradesSnoc(xs: seq<OrderState>, fs: seq<Filing>, x: OrderState, f: Filing, id: OrderId)
    requires |xs| == |fs|
    ensures OwnTrades(xs + [x], fs + [f], id) ==
            if HasId(xs, id) then OwnTrades(xs, fs, id) else if x.id == id then f.trades else []
  {
    if xs == [] {
      assert [] + [x] == [x] && [] + [f] == [f] && [x][1..] == [] && [f][1..] == [];
    } else {
      assert (xs + [x])[1..] == xs[1..] + [x] && (fs + [f])[1..] == fs[1..] + [f];
      OwnTradesSnoc(xs[1..], fs[1..], x, f, id);
      if xs[0].id != id && HasId(xs, id) {
        var k :| 0 <= k < |xs| && xs[k].id == id;
        assert xs[1..][k - 1].id == id;
      }
    }
  }

  /** The results hold the fills of the pairs, and each filed order's own trades. */
  ghost predicate Credited(results: Results, pairs: seq<Trade>, xs: seq<OrderState>, fs: seq<Filing>)
    requires |xs| == |fs|
  {
    forall id :: FillsIn(results, id) == FillsOf(pairs, id) + OwnTrades(xs, fs, id)
  }

  lemma {:induction false} CreditOne(results: Results, pairs: seq<Trade>, xs: seq<OrderState>, fs: seq<Filing>,
                                     o: OrderState, f: Filing, x: OrderState)
    requires |xs| == |fs| && Credited(results, pairs, xs, fs)
    requires o.id == x.id && !HasId(xs, x.id)
    ensures Credited(WithFills(results, o, f.trades), pairs, xs + [x], fs + [f])
  {
    hide FillsOf, OwnTrades, HasId;
    forall id
      ensures FillsIn(WithFills(results, o, f.trades), id) == FillsOf(pairs, id) + OwnTrades(xs + [x], fs + [f], id)
    {
      OwnTradesSnoc(xs, fs, x, f, id);
      if !HasId(xs, id) {
        OwnTradesAbsent(xs, fs, id);
        assert FillsOf(pairs, id) + [] == FillsOf(pairs, id);
      }
    }
  }

  lemma {:induction false} NotBefore(xs: seq<OrderState>, k: nat)
    requires UniqueIds(xs) && k < |xs|
    ensures !HasId(xs[..k], xs[k].id) && xs[..k] + [xs[k]] == xs[..k + 1]
  {
  }

  lemma {:induction false} TradesSnoc(fs: seq<Filing>, f: Filing)
    ensures AllTrades(fs + [f]) == AllTrades(fs) + f.trades
  {
    if fs == [] {
      assert [] + [f] == [f] && [f][1..] == [];
    } else {
      assert (fs + [f])[1..] == fs[1..] + [f];
      TradesSnoc(fs[1..], f);
    }
  }

  lemma {:induction false} DistinctIds(xs: seq<Order>)
    requires Distinct(xs)
    ensures UniqueIds(States(xs))
  {
  }

  /** How far filing the orders `xs` got: `fs` are filed, and the book `b` is
      where filing the others would end as filing them all does. */
  ghost predicate FiledSoFar(b0: Book, xs: seq<OrderState>, b: Book, fs: seq<Filing>, results: Results,
                             pairs: seq<Trade>) {
    && |fs| <= |xs| && Priced(b0) && Priced(b)
    && Credited(results, pairs, xs[..|fs|], fs)
    && var f := File(b, xs[|fs|..]);
       File(b0, xs) == Filed(f.book, fs + f.filings)
  }

  lemma {:induction false} FilingStarts(b: Book, xs: seq<OrderState>, results: Results, pairs: seq<Trade>)
    requires Priced(b) && Collected(results, pairs)
    ensures FiledSoFar(b, xs, b, [], results, pairs) && AllTrades([]) == [] && forall id :: Traded([], id) == 0
  {
  }

  lemma {:induction false} FilingGoesOn(b0: Book, xs: seq<OrderState>, b: Book, fs: seq<Filing>, results: Results,
                                        pairs: seq<Trade>, a: Added)
    requires FiledSoFar(b0, xs, b, fs, results, pairs) && UniqueIds(xs)
    requires |fs| < |xs| && a == Add(b, xs[|fs|])
    ensures FiledSoFar(b0, xs, a.book, fs + [Filing(a.order, a.trades)], WithFills(results, a.order, a.trades), pairs)
  {
    hide File, Credited, WithFills, Add, UniqueIds;
    var k, f := |fs|, Filing(a.order, a.trades);
    NotBefore(xs, k);
    CreditOne(results, pairs, xs[..k], fs, a.order, f, xs[k]);
    FileStep(b, xs, k);
    var more := File(a.book, xs[k + 1..]).filings;
    assert fs + ([f] + more) == fs + [f] + more;
  }

  lemma {:induction false} FilingEnds(b0: Book, xs: seq<OrderState>, b: Book, fs: seq<Filing>, results: Results,
                                      pairs: seq<Trade>)
    requires FiledSoFar(b0, xs, b, fs, results, pairs) && |fs| == |xs|
    ensures Priced(b0) && File(b0, xs) == Filed(b, fs) && Credited(results, pairs, xs, fs)
  {
    assert xs[..|xs|] == xs && fs + [] == fs;
  }

  lemma {:induction false} TradedSoFar(fs: seq<Filing>, f: Filing, id: OrderId)
    ensures Traded(AllTrades(fs + [f]), id) == Traded(AllTrades(fs), id) + Traded(f.trades, id)
  {
    TradesSnoc(fs, f);
    TradedConcat(AllTrades(fs), f.trades, id);
  }

  /** How much every order lost since `was` is what some trades took. */
  ghost predicate LostSince(was: map<Order, int>, ts: seq<Trade>)
    reads was.Keys
  {
    forall x :: x in was ==> x.remaining == was[x] - Traded(ts, x.id)
  }

  /** A filing under way: the orders `rest`, which were `xs`, go into `book`,
      which was `b0`, while everybody it may concern had the quantities `was`. */
  datatype Progress = Progress(
    rest: seq<Order>, xs: seq<OrderState>, book: OrderBook, b0: Book, was: map<Order, int>, pairs: seq<Trade>,
    fs: seq<Filing>, results: Results)

  ghost predicate UnderWay(p: Progress)
    reads p.rest, p.book, p.book.levels, p.book.live, p.was.Keys
  {
    && p.book.Valid() && p.book.live <= p.was.Keys && Identified(p.was.Keys) && Distinct(p.rest)
    && |p.fs| <= |p.rest| == |p.xs| && UniqueIds(p.xs)
    && (forall i :: |p.fs| <= i < |p.rest| ==>
          && p.rest[i] in p.was && p.rest[i] !in p.book.live && p.rest[i].State() == p.xs[i]
          && p.xs[i].WellFormed() && p.xs[i].instrument == p.book.instrument)
    && FiledSoFar(p.b0, p.xs, p.book.AsBook(), p.fs, p.results, p.pairs)
    && LostSince(p.was, AllTrades(p.fs))
  }

  /** Files the next order. */
  method FileNext(o: Order, book: OrderBook, results: Results, ghost p: Progress) returns (r: Results, ghost f: Filing)
    requires UnderWay(p) && |p.fs| < |p.rest|
    requires o == p.rest[|p.fs|] && book == p.book && results == p.results
    modifies book, book.levels, book.live, o
    ensures UnderWay(p.(fs := p.fs + [f], results := r)) && r.Keys == results.Keys + {o.id}
    ensures fresh(book.levels - old(book.levels)) && book.live <= old(book.live) + {o}
  {
    hide OrderBook.Valid, OrderBook.AsBook, Traded, Add, WithFills, AllTrades, FiledSoFar, Identified, UniqueIds,
      OrderState.WellFormed;
    ghost var b, ts := book.AsBook(), [];
    r, ts := FileOne(o, book, results, p.was.Keys);
    f := Filing(o.State(), ts);
    FilingGoesOn(p.b0, p.xs, b, p.fs, results, p.pairs, Added(book.AsBook(), o.State(), ts));
    forall x | x in p.was
      ensures x.remaining == p.was[x] - Traded(AllTrades(p.fs + [f]), x.id)
    {
      TradedSoFar(p.fs, f, x.id);
    }
  }

  /** The leftovers are added to the book one by one. */
  method FileRest(rest: seq<Order>, book: OrderBook, results: Results, ghost all: set<Order>, ghost pairs: seq<Trade>,
                  ghost ids: set<OrderId>)
    returns (r: Results, ghost fs: seq<Filing>)
    requires book.Valid() && book.live <= all && Identified(all) && Distinct(rest)
    requires forall i :: 0 <= i < |rest| ==>
               rest[i] in all && rest[i] !in book.live && rest[i].State().WellFormed()
                 && rest[i].instrument == book.instrument
    requires Collected(results, pairs) && results.Keys <= ids && forall x :: x in rest ==> x.id in ids
    modifies book, book.levels, book.live, rest
    ensures book.Valid() && fresh(book.levels - old(book.levels)) && book.live <= old(book.live) + set x | x in rest
    ensures Priced(old(book.AsBook())) && File(old(book.AsBook()), old(States(rest))) == Filed(book.AsBook(), fs)
    ensures Credited(r, pairs, old(States(rest)), fs) && r.Keys <= ids
    ensures Lost(all, AllTrades(fs))
  {
    hide OrderBook.Valid, OrderBook.AsBook, Traded, File, AllTrades, Collected, Credited, UnderWay, FiledSoFar,
      Identified, OrderState.WellFormed, Distinct;
    ghost var p := Progress(rest, States(rest), book, book.AsBook(), map x | x in all :: x.remaining,
                                 pairs, [], results);
    assert p.was.Keys == all;
    Starting(p);
    r, fs := results, [];
    var k := 0;
    while k < |rest|
      invariant k <= |rest| && |fs| == k
      invariant UnderWay(p.(fs := fs, results := r)) && r.Keys <= ids
      invariant fresh(book.levels - old(book.levels)) && book.live <= old(book.live) + set x | x in rest
    {
      ghost var f;
      r, f := FileNext(rest[k], book, r, p.(fs := fs, results := r));
      fs := fs + [f];
      k := k + 1;
    }
    Ending(p.(fs := fs, results := r));
  }

  lemma {:induction false} Starting(p: Progress)
    requires p.book.Valid() && p.book.live <= p.was.Keys && Identified(p.was.Keys) && Distinct(p.rest)
    requires forall i :: 0 <= i < |p.rest| ==>
               && p.rest[i] in p.was && p.rest[i] !in p.book.live && p.rest[i].State().WellFormed()
               && p.rest[i].instrument == p.book.instrument
    requires Collected(p.results, p.pairs) && p.xs == States(p.rest) && p.b0 == p.book.AsBook() && p.fs == []
    requires forall x :: x in p.was ==> p.was[x] == x.remaining
    ensures UnderWay(p)
  {
    hide OrderBook.Valid, OrderBook.AsBook, Traded, Identified, FiledSoFar, AllTrades, Collected;
    p.book.ValidBook();
    DistinctIds(p.rest);
    FilingStarts(p.b0, p.xs, p.results, p.pairs);
  }

  lemma {:induction false} Ending(p: Progress)
    requires UnderWay(p) && |p.fs| == |p.rest|
    ensures p.book.Valid() && Priced(p.b0) && File(p.b0, p.xs) == Filed(p.book.AsBook(), p.fs)
    ensures Credited(p.results, p.pairs, p.xs, p.fs) && LostSince(p.was, AllTrades(p.fs))
  {
    FilingEnds(p.b0, p.xs, p.book.AsBook(), p.fs, p.results, p.pairs);
  }

  // ---- one instrument's batch ----

  function OfSide(xs: seq<Order>, side: Side): seq<Order> {
    if xs == [] then [] else (if xs[0].side == side then [xs[0]] else []) + OfSide(xs[1..], side)
  }

  lemma {:induction false} OfSideMembers(xs: seq<Order>, side: Side)
    ensures forall x :: x in OfSide(xs, side) <==> x in xs && x.side == side
  {
    if xs == [] {
    } else {
      OfSideMembers(xs[1..], side);
      assert xs == [xs[0]] + xs[1..];
    }
  }

  lemma {:induction false} SidesSplit(xs: seq<Order>)
    ensures multiset(OfSide(xs, Buy)) + multiset(OfSide(xs, Sell)) == multiset(xs)
  {
    if xs == [] {
    } else {
      SidesSplit(xs[1..]);
      assert xs == [xs[0]] + xs[1..];
    }
  }

  lemma {:induction false} OnceIn(xs: seq<Order>, x: Order)
    requires Distinct(xs)
    ensures multiset(xs)[x] <= 1
  {
    if xs == [] {
    } else {
      OnceIn(xs[1..], x);
      assert xs == [xs[0]] + xs[1..];
      if x == xs[0] {
        assert x !in xs[1..];
        assert x !in multiset(xs[1..]);
      }
    }
  }

  lemma {:induction false} StaysDistinct(xs: seq<Order>, ys: seq<Order>)
    requires Distinct(xs) && multiset(ys) == multiset(xs)
    ensures Distinct(ys)
  {
    forall i, j | 0 <= i < j < |ys|
      ensures ys[i] != ys[j] && ys[i].id != ys[j].id
    {
      OnceIn(xs, ys[i]);
      assert ys == ys[..i] + [ys[i]] + ys[i + 1..j] + [ys[j]] + ys[j + 1..];
      assert ys[i] in multiset(xs) && ys[j] in multiset(xs);
    }
  }

  /** Orders the batch engine holds for a book: new to it, and with quantity left. */
  ghost predicate Held(orders: seq<Order>, book: OrderBook)
    reads orders, book
  {
    && Distinct(orders)
    && forall x :: x in orders ==>
         && x !in book.live && x.id !in book.orderIds && x.instrument == book.instrument
         && x.State().WellFormed() && x.remaining > 0
  }

  /** The two sorted sides of a batch are its orders, each once. */
  predicate SidesDrawn(orders: seq<Order>, buys: seq<Order>, sells: seq<Order>) {
    && multiset(buys) == multiset(OfSide(orders, Buy)) && SortedByKey(buys, true)
    && multiset(sells) == multiset(OfSide(orders, Sell)) && SortedByKey(sells, false)
  }

  lemma {:induction false} DrawnMembers(orders: seq<Order>, buys: seq<Order>, sells: seq<Order>)
    requires SidesDrawn(orders, buys, sells)
    ensures multiset(buys + sells) == multiset(orders)
    ensures forall x :: x in buys <==> x in orders && x.side == Buy
    ensures forall x :: x in sells <==> x in orders && x.side == Sell
  {
    hide OfSide, SortedByKey;
    SidesSplit(orders);
    OfSideMembers(orders, Buy);
    OfSideMembers(orders, Sell);
    forall x
      ensures x in buys <==> x in orders && x.side == Buy
      ensures x in sells <==> x in orders && x.side == Sell
    {
      assert x in buys <==> x in multiset(OfSide(orders, Buy));
      assert x in sells <==> x in multiset(OfSide(orders, Sell));
    }
  }

  lemma {:induction false} StateMembers(xs: seq<Order>)
    ensures forall x :: x in xs ==> x.State() in States(xs)
    ensures forall s :: s in States(xs) ==> exists x :: x in xs && x.State() == s
  {
  }

  lemma {:induction false} DrawnStates(orders: seq<Order>, buys: seq<Order>, sells: seq<Order>)
    requires SidesDrawn(orders, buys, sells)
    ensures forall s :: s in States(orders) <==> s in States(buys) || s in States(sells)
  {
    hide SidesDrawn, States, Order.State;
    DrawnMembers(orders, buys, sells);
    StateMembers(orders);
    StateMembers(buys);
    StateMembers(sells);
  }

  lemma {:induction false} HeldDrawn(orders: seq<Order>, buys: seq<Order>, sells: seq<Order>, book: OrderBook)
    requires book.Valid() && Held(orders, book) && SidesDrawn(orders, buys, sells)
    ensures Distinct(orders) && Distinct(buys + sells)
    ensures Pending(buys, book.live) && Pending(sells, book.live)
    ensures BatchReady(book.AsBook(), States(buys), States(sells), book.instrument)
  {
    hide OrderBook.Valid, BookOk, OfSide, InBook, Batch, Arranged, Pending, SortedByKey;
    book.ValidBook();
    DrawnMembers(orders, buys, sells);
    StaysDistinct(orders, buys + sells);
    SlicesDistinct(buys, sells);
    BatchOfOrders(buys, Buy, true, book);
    BatchOfOrders(sells, Sell, false, book);
  }

  lemma {:induction false} SlicesDistinct(xs: seq<Order>, ys: seq<Order>)
    requires Distinct(xs + ys)
    ensures Distinct(xs) && Distinct(ys) && NoneShared(xs, ys)
  {
    ApartSlices(xs, ys, 0, 0);
    assert forall i :: 0 <= i < |xs| ==> (xs + ys)[i] == xs[i];
    assert forall i :: 0 <= i < |ys| ==> (xs + ys)[|xs| + i] == ys[i];
  }

  lemma {:induction false} BatchOfOrders(xs: seq<Order>, side: Side, descending: bool, book: OrderBook)
    requires Held(xs, book) && SortedByKey(xs, descending)
    requires forall x :: x in xs ==> x.side == side
    ensures Batch(States(xs), side, book.instrument) && Arranged(States(xs), descending)
    ensures Pending(xs, book.live)
    ensures forall i :: 0 <= i < |xs| ==> States(xs)[i].id !in book.orderIds
  {
    forall i, j | 0 <= i < j < |xs|
      ensures SortKey(States(xs)[i].price, descending) <= SortKey(States(xs)[j].price, descending)
    {
      assert SortKey(xs[i].price, descending) <= SortKey(xs[j].price, descending);
    }
  }

  /** Everybody the batch of a book may concern: who rests in it, and the batch. */
  ghost function Everybody(orders: seq<Order>, book: OrderBook): set<Order>
    reads book
  {
    book.live + set x | x in orders
  }

  lemma {:induction false} EverybodyIdentified(orders: seq<Order>, book: OrderBook)
    requires book.Valid() && Held(orders, book)
    ensures Identified(Everybody(orders, book))
  {
  }

  ghost predicate DrawFor(d: Draw, b: Book, orders: seq<OrderState>, instrument: InstrumentId) {
    && BatchReady(b, d.buys, d.sells, instrument)
    && forall s :: s in orders <==> s in d.buys || s in d.sells
  }

  /** Sorts the two sides and pairs them off. */
  method PairBatch(orders: seq<Order>, book: OrderBook, ghost ids: set<OrderId>)
    returns (rest: seq<Order>, results: Results, ghost d: Draw)
    requires book.Valid() && Held(orders, book) && forall x :: x in orders ==> x.id in ids
    modifies orders, book`trades, book`log
    ensures book.Valid()
    ensures DrawFor(d, old(book.AsBook()), old(States(orders)), book.instrument)
    ensures var g := Greedy(d.buys, d.sells);
            && States(rest) == g.buys + g.sells && Collected(results, g.trades)
            && book.AsBook() == old(book.AsBook()).(log := old(book.AsBook()).log + g.trades)
            && forall x :: x in orders ==> x.remaining == old(x.remaining) - Traded(g.trades, x.id)
    ensures Distinct(rest) && results.Keys <= ids && forall x :: x in rest ==> x in orders
  {
    hide OrderBook.Valid, Greedy, Collected, Traded, Held, States, DrawFor, OfSide, SortedByKey, BatchReady, Pending;
    var buys := RandomizeSamePrice(OfSide(orders, Buy), true);
    var sells := RandomizeSamePrice(OfSide(orders, Sell), false);
    DrawnMembers(orders, buys, sells);
    DrawnStates(orders, buys, sells);
    HeldDrawn(orders, buys, sells, book);
    SlicesDistinct(buys, sells);
    d := Draw(States(buys), States(sells));
    assert DrawFor(d, book.AsBook(), States(orders), book.instrument) by {
      Drawing(d, book.AsBook(), States(orders), book.instrument);
    }
    var i, j;
    ghost var g;
    i, j, results, g := PairOff(buys, sells, book, orders, ids);
    rest := buys[i..] + sells[j..];
    StatesConcat(buys[i..], sells[j..]);
    SlicesJoin(buys, sells, i, j);
  }

  lemma {:induction false} Drawing(d: Draw, b: Book, orders: seq<OrderState>, instrument: InstrumentId)
    requires BatchReady(b, d.buys, d.sells, instrument)
    requires forall s :: s in orders <==> s in d.buys || s in d.sells
    ensures DrawFor(d, b, orders, instrument)
  {
  }

  lemma {:induction false} StatesConcat(xs: seq<Order>, ys: seq<Order>)
    ensures States(xs + ys) == States(xs) + States(ys)
  {
  }

  lemma {:induction false} SlicesJoin(xs: seq<Order>, ys: seq<Order>, i: nat, j: nat)
    requires Distinct(xs + ys) && i <= |xs| && j <= |ys|
    ensures Distinct(xs[i..] + ys[j..]) && forall x :: x in xs[i..] + ys[j..] ==> x in xs || x in ys
  {
    SlicesDistinct(xs, ys);
    ApartSlices(xs, ys, i, j);
  }

  /** A book and the orders held for it, as they are before a batch. */
  datatype Before = Before(book: OrderBook, orders: seq<Order>, flat: Book, states: seq<OrderState>,
                           was: map<Order, int>)

  ghost function Snapshot(orders: seq<Order>, book: OrderBook): Before
    reads orders, book, book.live
  {
    Before(book, orders, book.AsBook(), States(orders), map x | x in Everybody(orders, book) :: x.remaining)
  }

  /** What a batch did: the outcome for its draw, in the book, in the fills of
      the results, and in everybody's remaining quantity. */
  ghost predicate BatchRan(s: Before, d: Draw, results: Results)
    reads s.book, s.was.Keys
  {
    && DrawFor(d, s.flat, s.states, s.book.instrument)
    && Priced(s.flat)
    && var out := RunBatch(s.flat, d.buys, d.sells);
       && s.book.AsBook() == out.book
       && (forall id :: FillsIn(results, id) == out.Fills(id))
       && forall x :: x in s.was ==> x.remaining == s.was[x] - Traded(out.NewTrades(), x.id)
  }

  lemma {:induction false} LeftoversFileable(b: Book, d: Draw, rest: seq<Order>, instrument: InstrumentId)
    requires BatchReady(b, d.buys, d.sells, instrument)
    requires States(rest) == Greedy(d.buys, d.sells).buys + Greedy(d.buys, d.sells).sells
    ensures forall i :: 0 <= i < |rest| ==> rest[i].State().WellFormed() && rest[i].instrument == instrument
  {
    hide Greedy, BatchReady, BookOk, InBook;
    LeftoversAddable(b, d.buys, d.sells, instrument);
    assert forall i :: 0 <= i < |rest| ==> States(rest)[i] == rest[i].State();
  }

  lemma {:induction false} LiveRest(book: OrderBook)
    requires book.Valid()
    ensures Priced(book.AsBook()) && forall x :: x in book.live ==> InBook(book.AsBook(), x.id)
  {
    hide OrderBook.Valid, OrderBook.AsBook, InBook, BookOk;
    book.ValidBook();
    book.LiveIds();
  }

  /** The pairs leave whatever rests in the book alone. */
  lemma {:induction false} PairsSpareBook(b: Book, d: Draw, instrument: InstrumentId)
    requires BatchReady(b, d.buys, d.sells, instrument)
    ensures forall id :: InBook(b, id) ==> Traded(Greedy(d.buys, d.sells).trades, id) == 0
  {
    hide BatchReady, InBook, Traded, Greedy;
    forall id | InBook(b, id)
      ensures Traded(Greedy(d.buys, d.sells).trades, id) == 0
    {
      NotInBatch(b, d.buys, d.sells, instrument, id);
      PairsSpareOthers(b, d.buys, d.sells, instrument, id);
    }
  }

  /** The pairs and then the filings are the batch of the draw. */
  lemma {:induction false} BatchSums(s: Before, d: Draw, results: Results, fs: seq<Filing>)
    requires DrawFor(d, s.flat, s.states, s.book.instrument) && Priced(s.flat)
    requires var g := Greedy(d.buys, d.sells);
             && File(s.flat.(log := s.flat.log + g.trades), g.buys + g.sells) == Filed(s.book.AsBook(), fs)
             && |fs| == |g.buys + g.sells| && Credited(results, g.trades, g.buys + g.sells, fs)
             && forall x :: x in s.was ==> x.remaining == s.was[x] - Traded(g.trades + AllTrades(fs), x.id)
    ensures BatchRan(s, d, results)
  {
    hide Greedy, File, Traded, AllTrades, FillsOf, OwnTrades, DrawFor, OrderBook.AsBook;
  }

  /** Files what the pairs left, which ends the batch. */
  method FileBatch(rest: seq<Order>, book: OrderBook, results: Results, ghost s: Before, ghost d: Draw,
                   ghost ids: set<OrderId>)
    returns (r: Results)
    requires book == s.book && book.Valid() && book.live <= s.was.Keys && Identified(s.was.Keys) && Distinct(rest)
    requires forall i :: 0 <= i < |rest| ==>
               && rest[i] in s.was && rest[i] !in book.live
               && rest[i].State().WellFormed() && rest[i].instrument == book.instrument
    requires DrawFor(d, s.flat, s.states, book.instrument) && Priced(s.flat)
    requires results.Keys <= ids && forall x :: x in rest ==> x.id in ids
    requires var g := Greedy(d.buys, d.sells);
             && States(rest) == g.buys + g.sells && Collected(results, g.trades)
             && book.AsBook() == s.flat.(log := s.flat.log + g.trades)
             && forall x :: x in s.was ==> x.remaining == s.was[x] - Traded(g.trades, x.id)
    modifies book, book.levels, book.live, rest
    ensures book.Valid() && fresh(book.levels - old(book.levels)) && book.live <= s.was.Keys
    ensures r.Keys <= ids && BatchRan(s, d, r)
  {
    hide OrderBook.Valid, OrderBook.AsBook, Greedy, Collected, Traded, States, DrawFor, File, AllTrades,
      OrderState.WellFormed, Identified, FillsOf, OwnTrades, Distinct, BatchRan, Credited;
    ghost var pairs := Greedy(d.buys, d.sells).trades;
    ghost var fs;
    r, fs := FileRest(rest, book, results, s.was.Keys, pairs, ids);
    forall x | x in s.was
      ensures x.remaining == s.was[x] - Traded(pairs + AllTrades(fs), x.id)
    {
      TradedConcat(pairs, AllTrades(fs), x.id);
    }
    BatchSums(s, d, r, fs);
  }

  /** Sorts, pairs and files the orders held for one instrument. */
  method MatchBatch(orders: seq<Order>, book: OrderBook) returns (results: Results, ghost d: Draw)
    requires book.Valid() && Held(orders, book)
    modifies orders, book, book.levels, book.live
    ensures book.Valid() && fresh(book.levels - old(book.levels)) && book.live <= old(Everybody(orders, book))
    ensures results.Keys <= set x | x in orders :: x.id
    ensures BatchRan(old(Snapshot(orders, book)), d, results)
  {
    hide OrderBook.Valid, OrderBook.AsBook, Greedy, Collected, Traded, States, BatchReady, HasId,
      OrderState.WellFormed, Identified, InBook, Distinct, BatchRan;
    ghost var was, b := Snapshot(orders, book), book.AsBook();
    EverybodyIdentified(orders, book);
    assert was.was.Keys == Everybody(orders, book);
    LiveRest(book);
    var rest;
    ghost var ids := set x | x in orders :: x.id;
    rest, results, d := PairBatch(orders, book, ids);
    PairsSpareBook(b, d, book.instrument);
    LeftoversFileable(b, d, rest, book.instrument);
    assert forall i :: 0 <= i < |rest| ==> rest[i] in orders;
    forall x | x in was.was
      ensures x.remaining == was.was[x] - Traded(Greedy(d.buys, d.sells).trades, x.id)
    {
      assert x !in orders ==> InBook(b, x.id);
    }
    results := FileBatch(rest, book, results, was, d, ids);
  }

  // ---- the engine ----

  /** Every order gets its final status and remaining quantity. */
  method FinalizeResults(orders: seq<Order>, results: Results) returns (r: Results)
    requires Distinct(orders) && results.Keys <= set x | x in orders :: x.id
    ensures r.Keys == set x | x in orders :: x.id
    ensures forall x :: x in orders ==> x.id in r && r[x.id] == ResultOf(x.State(), FillsIn(results, x.id))
  {
    r := results;
    var k := 0;
    while k < |orders|
      invariant k <= |orders|
      invariant results.Keys <= r.Keys <= set x | x in orders :: x.id
      invariant forall i :: 0 <= i < k ==>
                  orders[i].id in r && r[orders[i].id] == ResultOf(orders[i].State(), FillsIn(results, orders[i].id))
      invariant forall i :: k <= i < |orders| ==> FillsIn(r, orders[i].id) == FillsIn(results, orders[i].id)
    {
      var o := orders[k];
      r := r[o.id := ResultOf(o.State(), GetOrCreate(r, o.State()).fills)];
      k := k + 1;
    }
  }

  ghost function Objects(book: OrderBook, orders: seq<Order>): set<object>
    reads book
  {
    {book} + book.levels + book.live + set x | x in orders
  }

  /** What one instrument's batch leaves behind: the book, the orders and exactly
      one result for each, as the outcome of its draw says, and nobody else but
      the resting orders it traded with. */
  ghost predicate Settled(s: Before, d: Draw, results: Results)
    reads s.book, s.orders, s.was.Keys
  {
    && s.book.live <= s.was.Keys
    && |s.states| == |s.orders|
    && DrawFor(d, s.flat, s.states, s.book.instrument)
    && Priced(s.flat)
    && var out := RunBatch(s.flat, d.buys, d.sells);
       && s.book.AsBook() == out.book
       && (forall x :: x in s.was ==> x.remaining == s.was[x] - Traded(out.NewTrades(), x.id))
       && forall k :: 0 <= k < |s.orders| ==>
            && s.orders[k].State() == out.Final(s.states[k])
            && s.orders[k].id in results && results[s.orders[k].id] == out.ResultFor(s.states[k])
  }

  /** What the orders of a batch were, as a snapshot has them. */
  ghost predicate Coherent(s: Before)
    reads s.orders
  {
    && |s.states| == |s.orders|
    && forall k :: 0 <= k < |s.orders| ==>
         && s.orders[k] in s.was && SameTerms(s.states[k], s.orders[k].State())
            && s.states[k].remaining == s.was[s.orders[k]]
  }

  /** The final results of a batch are what its outcome says. */
  lemma {:induction false} BatchSettled(s: Before, d: Draw, results: Results, r: Results)
    requires BatchRan(s, d, results) && Coherent(s) && s.book.live <= s.was.Keys
    requires forall x :: x in s.orders ==> x.id in r && r[x.id] == ResultOf(x.State(), FillsIn(results, x.id))
    ensures Settled(s, d, r)
  {
    hide RunBatch, FillsIn, Traded;
  }

  /** One instrument's book and the orders held for it, as found before any
      matching, and the objects they consist of, among all those of `frame`. */
  datatype Desk = Desk(before: Before, objects: set<object>, frame: set<object>)

  ghost predicate Open(k: Desk)
    reads k.before.book, k.before.book.levels, k.before.book.live, k.before.orders
  {
    && k.before.book.Valid() && Held(k.before.orders, k.before.book)
    && k.before == Snapshot(k.before.orders, k.before.book)
    && k.objects == Objects(k.before.book, k.before.orders) && k.objects <= k.frame
  }

  /** A desk whose batch was matched, with its book valid. */
  ghost predicate Done(k: Desk, d: Draw, results: Results)
    reads k.before.book, k.before.book.levels, k.before.book.live, k.before.orders, k.before.was.Keys
  {
    && k.before.book.Valid() && k.before.book.live <= k.before.was.Keys && k.before.was.Keys <= k.objects
    && results.Keys <= (set x | x in k.before.orders :: x.id)
    && BatchRan(k.before, d, results) && Coherent(k.before)
    && Objects(k.before.book, k.before.orders) * k.frame <= k.objects
  }

  predicate DesksApart(ds: seq<Desk>) {
    forall i, j :: 0 <= i < j < |ds| ==> ds[i].objects !! ds[j].objects && ds[i].frame == ds[j].frame
  }

  ghost function LevelsOf(k: Desk): set<PriceLevel>
    reads k.before.book
  {
    k.before.book.levels
  }

  ghost predicate DesksDone(ds: seq<Desk>, draws: seq<Draw>, results: seq<Results>)
    requires |draws| == |results| <= |ds|
    reads *
  {
    forall j :: 0 <= j < |draws| ==> Done(ds[j], draws[j], results[j])
  }

  ghost predicate RestOpen(ds: seq<Desk>, k: nat)
    reads *
  {
    forall j :: k <= j < |ds| ==> Open(ds[j])
  }

  twostate lemma {:induction false} OpenStays(k: Desk)
    requires old(Open(k)) && unchanged(k.objects)
    ensures Open(k) && LevelsOf(k) == old(LevelsOf(k))
  {
    hide OrderBook.Valid, Held, States, OrderBook.AsBook;
  }

  /** All objects a desk has to do with. */
  ghost function Footprint(k: Desk): set<object>
    reads k.before.book
  {
    Objects(k.before.book, k.before.orders) + k.before.was.Keys
  }

  lemma {:induction false} OpenInside(k: Desk)
    requires Open(k)
    ensures k.objects <= k.frame
  {
  }

  lemma {:induction false} DoneInside(k: Desk, d: Draw, results: Results)
    requires Done(k, d, results)
    ensures Footprint(k) * k.frame <= k.objects
  {
  }

  twostate lemma {:induction false} DoneStays(k: Desk, new d: Draw, new results: Results)
    requires unchanged(old(Footprint(k))) && old(Done(k, d, results))
    ensures Done(k, d, results) && LevelsOf(k) == old(LevelsOf(k))
  {
    hide OrderBook.Valid, OrderBook.AsBook, RunBatch, DrawFor, FillsIn, Traded;
  }

  /** The desk being matched is done. */
  method MatchOpen(ghost k: Desk, orders: seq<Order>, book: OrderBook) returns (r: Results, ghost d: Draw)
    requires Open(k) && k.before.book == book && k.before.orders == orders
    modifies k.objects
    ensures Done(k, d, r) && fresh(LevelsOf(k) - old(LevelsOf(k)))
  {
    hide OrderBook.Valid, Held, BatchRan, States, OrderBook.AsBook;
    r, d := MatchBatch(orders, book);
  }

  /** Matches the next desk; the desks before and after it are not touched. */
  method MatchDesk(ghost ds: seq<Desk>, ghost draws: seq<Draw>, ghost results: seq<Results>, orders: seq<Order>,
                   book: OrderBook)
    returns (r: Results, ghost d: Draw)
    requires |draws| == |results| < |ds| && DesksApart(ds) && DesksDone(ds, draws, results) && RestOpen(ds, |draws|)
    requires ds[|draws|].before.book == book && ds[|draws|].before.orders == orders
    modifies ds[|draws|].objects
    ensures DesksDone(ds, draws + [d], results + [r]) && RestOpen(ds, |draws| + 1)
    ensures fresh(LevelsOf(ds[|draws|]) - old(LevelsOf(ds[|draws|])))
    ensures forall j :: 0 <= j < |ds| && j != |draws| ==> LevelsOf(ds[j]) == old(LevelsOf(ds[j]))
  {
    hide Open, Done, LevelsOf;
    ghost var k := |draws|;
    OpenInside(ds[k]);
    forall j | 0 <= j < k
      ensures Footprint(ds[j]) !! ds[k].objects
    {
      DoneInside(ds[j], draws[j], results[j]);
    }
    r, d := MatchOpen(ds[k], orders, book);
    forall j | 0 <= j < k
      ensures Done(ds[j], draws[j], results[j]) && LevelsOf(ds[j]) == old(LevelsOf(ds[j]))
    {
      DoneStays(ds[j], draws[j], results[j]);
    }
    forall j | k < j < |ds|
      ensures Open(ds[j]) && LevelsOf(ds[j]) == old(LevelsOf(ds[j]))
    {
      OpenStays(ds[j]);
    }
  }

  /** The orders of every listed instrument, matched one instrument at a time. */
  method MatchAll(keys: seq<InstrumentId>, pending: map<InstrumentId, seq<Order>>, books: map<InstrumentId, OrderBook>,
                  ghost ds: seq<Desk>, ghost frame: set<object>)
    returns (rs: seq<Results>, ghost draws: seq<Draw>)
    requires |keys| == |ds| && DesksApart(ds) && RestOpen(ds, 0)
    requires forall k :: 0 <= k < |keys| ==> keys[k] in pending && keys[k] in books
    requires forall k :: 0 <= k < |keys| ==>
               ds[k].before.book == books[keys[k]] && ds[k].before.orders == pending[keys[k]] && ds[k].objects <= frame
    modifies frame
    ensures |rs| == |draws| == |ds| && DesksDone(ds, draws, rs)
    ensures forall k :: 0 <= k < |ds| ==> fresh(LevelsOf(ds[k]) - old(LevelsOf(ds[k])))
    ensures forall j, k :: 0 <= j < k < |ds| ==> LevelsOf(ds[j]) !! LevelsOf(ds[k])
  {
    hide Done, RestOpen, DesksDone;
    DeskLevelsApart(ds);
    rs, draws := [], [];
    ghost var held: seq<set<PriceLevel>> := [];
    NoneDone(ds);
    var k := 0;
    while k < |keys|
      invariant k <= |keys| && |draws| == |rs| == |held| == k
      invariant DesksDone(ds, draws, rs) && RestOpen(ds, k)
      invariant forall j :: 0 <= j < k ==> held[j] == LevelsOf(ds[j]) && fresh(held[j] - old(LevelsOf(ds[j])))
      invariant forall i, j :: 0 <= i < j < k ==> held[i] !! held[j]
      invariant forall i, j :: 0 <= i < k <= j < |ds| ==> held[i] !! old(LevelsOf(ds[j]))
      invariant forall j :: k <= j < |ds| ==> LevelsOf(ds[j]) == old(LevelsOf(ds[j]))
    {
      var r;
      ghost var d;
      r, d := MatchDesk(ds, draws, rs, pending[keys[k]], books[keys[k]]);
      rs, draws, held := rs + [r], draws + [d], held + [LevelsOf(ds[k])];
      k := k + 1;
    }
  }

  lemma {:induction false} DeskLevelsApart(ds: seq<Desk>)
    requires DesksApart(ds) && RestOpen(ds, 0)
    ensures forall i, j :: 0 <= i < j < |ds| ==> LevelsOf(ds[i]) !! LevelsOf(ds[j])
  {
    hide OrderBook.Valid, Held, Snapshot;
    forall i, j | 0 <= i < j < |ds|
      ensures LevelsOf(ds[i]) !! LevelsOf(ds[j])
    {
      assert Open(ds[i]) && Open(ds[j]);
      assert forall l :: l in LevelsOf(ds[i]) ==> l in ds[i].objects;
      assert forall l :: l in LevelsOf(ds[j]) ==> l in ds[j].objects;
    }
  }

  lemma {:induction false} DoneAt(ds: seq<Desk>, draws: seq<Draw>, rs: seq<Results>, j: nat)
    requires |draws| == |rs| <= |ds| && DesksDone(ds, draws, rs) && j < |draws|
    ensures var s := ds[j].before;
            && s.book.Valid() && s.book.live <= s.was.Keys && BatchRan(s, draws[j], rs[j]) && Coherent(s)
            && rs[j].Keys <= (set x | x in s.orders :: x.id)
  {
    hide OrderBook.Valid, BatchRan, Coherent;
  }

  /** The final results of every held order, whether its instrument has a book or not. */
  method FinalizeAll(pending: map<InstrumentId, seq<Order>>, mid: map<InstrumentId, Results>)
    returns (results: map<InstrumentId, Results>)
    requires forall i :: i in pending ==> Distinct(pending[i])
    requires forall i :: i in pending && i in mid ==> mid[i].Keys <= set x | x in pending[i] :: x.id
    ensures results.Keys == pending.Keys
    ensures forall i :: i in pending ==>
              && results[i].Keys == (set x | x in pending[i] :: x.id)
              && forall x :: x in pending[i] ==>
                   && x.id in results[i]
                   && results[i][x.id] == ResultOf(x.State(), if i in mid then FillsIn(mid[i], x.id) else [])
  {
    hide Distinct, ResultOf;
    var keys := Listed(pending.Keys);
    results := map[];
    var k := 0;
    while k < |keys|
      invariant k <= |keys|
      invariant results.Keys == set j | 0 <= j < k :: keys[j]
      invariant forall i :: i in results ==>
                  && i in pending
                  && results[i].Keys == (set x | x in pending[i] :: x.id)
                  && forall x :: x in pending[i] ==>
                       && x.id in results[i]
                       && results[i][x.id] == ResultOf(x.State(), if i in mid then FillsIn(mid[i], x.id) else [])
    {
      var i := keys[k];
      var r := FinalizeResults(pending[i], if i in mid then mid[i] else map[]);
      results := results[i := r];
      k := k + 1;
    }
  }

  lemma {:induction false} NoneDone(ds: seq<Desk>)
    ensures DesksDone(ds, [], [])
  {
  }

  function ByKey<T>(keys: seq<InstrumentId>, vs: seq<T>): (m: map<InstrumentId, T>)
    requires |keys| == |vs| && forall i, j :: 0 <= i < j < |keys| ==> keys[i] != keys[j]
    ensures forall i :: i in m <==> i in keys
    ensures forall k :: 0 <= k < |keys| ==> keys[k] in m && m[keys[k]] == vs[k]
  {
    map k | 0 <= k < |keys| :: keys[k] := vs[k]
  }

  /** Matches the listed instruments, then reports on every held order. */
  method RunDesks(keys: seq<InstrumentId>, pending: map<InstrumentId, seq<Order>>, books: map<InstrumentId, OrderBook>,
                  ghost ds: seq<Desk>, ghost frame: set<object>)
    returns (results: map<InstrumentId, Results>, ghost draws: map<InstrumentId, Draw>)
    requires |keys| == |ds| && DesksApart(ds) && RestOpen(ds, 0)
    requires forall i, j :: 0 <= i < j < |keys| ==> keys[i] != keys[j]
    requires forall i :: i in keys <==> i in pending && i in books
    requires forall i :: i in pending ==> Distinct(pending[i])
    requires forall k :: 0 <= k < |keys| ==>
               ds[k].before.book == books[keys[k]] && ds[k].before.orders == pending[keys[k]] && ds[k].objects <= frame
    modifies frame
    ensures results.Keys == pending.Keys
    ensures forall i :: i in pending ==> results[i].Keys == set x | x in pending[i] :: x.id
    ensures forall k :: 0 <= k < |keys| ==>
              && keys[k] in draws && books[keys[k]].Valid() && Settled(ds[k].before, draws[keys[k]], results[keys[k]])
              && fresh(books[keys[k]].levels - old(books[keys[k]].levels))
    ensures forall j, k :: 0 <= j < k < |keys| ==> books[keys[j]].levels !! books[keys[k]].levels
    ensures forall i, x :: i in pending && i !in books && x in pending[i] ==>
            results[i][x.id] == ResultOf(x.State(), [])
  {
    hide OrderBook.Valid, Objects, Settled, BatchRan, Coherent, DesksApart, RestOpen, ResultOf, Distinct, DesksDone,
      ByKey, FillsIn, Done;
    var rs;
    ghost var drawn;
    rs, drawn := MatchAll(keys, pending, books, ds, frame);
    var mid := ByKey(keys, rs);
    draws := ByKey(keys, drawn);
    forall k | 0 <= k < |keys|
      ensures rs[k].Keys <= set x | x in pending[keys[k]] :: x.id
    {
      DoneAt(ds, drawn, rs, k);
    }
    results := FinalizeAll(pending, mid);
    forall k | 0 <= k < |keys|
      ensures books[keys[k]].Valid() && Settled(ds[k].before, draws[keys[k]], results[keys[k]])
    {
      DoneAt(ds, drawn, rs, k);
      BatchSettled(ds[k].before, drawn[k], rs[k], results[keys[k]]);
    }
  }

  /** The desks of the listed instruments, before any matching. */
  ghost method OpenDesks(keys: seq<InstrumentId>, pending: map<InstrumentId, seq<Order>>,
                         books: map<InstrumentId, OrderBook>, frame: set<object>)
    returns (ds: seq<Desk>)
    requires forall k :: 0 <= k < |keys| ==>
               && keys[k] in pending && keys[k] in books && books[keys[k]].Valid()
                  && Held(pending[keys[k]], books[keys[k]])
               && Objects(books[keys[k]], pending[keys[k]]) <= frame
    requires forall i, j :: 0 <= i < j < |keys| ==>
               Objects(books[keys[i]], pending[keys[i]]) !! Objects(books[keys[j]], pending[keys[j]])
    ensures |ds| == |keys| && DesksApart(ds) && RestOpen(ds, 0)
    ensures forall k :: 0 <= k < |keys| ==>
              && ds[k].before == Snapshot(pending[keys[k]], books[keys[k]]) && ds[k].objects <= frame
              && ds[k].before.book == books[keys[k]] && ds[k].before.orders == pending[keys[k]]
              && ds[k].objects == Objects(books[keys[k]], pending[keys[k]])
  {
    hide OrderBook.Valid, Held, Objects, Snapshot;
    ds := [];
    while |ds| < |keys|
      invariant |ds| <= |keys|
      invariant forall k :: 0 <= k < |ds| ==>
                  ds[k] == Desk(Snapshot(pending[keys[k]], books[keys[k]]), Objects(books[keys[k]], pending[keys[k]]),
                    frame)
    {
      var i := keys[|ds|];
      ds := ds + [Desk(Snapshot(pending[i], books[i]), Objects(books[i], pending[i]), frame)];
    }
    forall k | 0 <= k < |ds|
      ensures Open(ds[k]) && ds[k].before.book == books[keys[k]] && ds[k].before.orders == pending[keys[k]]
    {
      SnapshotOf(pending[keys[k]], books[keys[k]]);
    }
  }

  lemma {:induction false} SnapshotOf(orders: seq<Order>, book: OrderBook)
    ensures Snapshot(orders, book).orders == orders && Snapshot(orders, book).book == book
  {
  }

  lemma {:induction false} SnapshotInside(orders: seq<Order>, book: OrderBook)
    ensures var s := Snapshot(orders, book);
            && s.book == book && book in Objects(book, orders)
            && s.was.Keys <= Objects(book, orders)
            && forall x :: x in s.orders ==> x in Objects(book, orders)
  {
    hide States, OrderBook.AsBook;
  }

  /** The batches of all instruments that have a book. */
  method RunListed(pending: map<InstrumentId, seq<Order>>, books: map<InstrumentId, OrderBook>,
                   ghost frame: set<object>)
    returns (results: map<InstrumentId, Results>, ghost draws: map<InstrumentId, Draw>)
    requires forall i :: i in pending ==> Distinct(pending[i])
    requires forall i :: i in pending && i in books ==>
               && books[i].Valid() && Held(pending[i], books[i]) && Objects(books[i], pending[i]) <= frame
    requires forall i, j :: i in pending && i in books && j in pending && j in books && i != j ==>
               Objects(books[i], pending[i]) !! Objects(books[j], pending[j])
    modifies frame
    ensures results.Keys == pending.Keys
    ensures forall i :: i in pending ==> results[i].Keys == set x | x in pending[i] :: x.id
    ensures forall i :: i in pending && i in books ==>
              && i in draws && books[i].Valid()
              && Settled(old(Snapshot(pending[i], books[i])), draws[i], results[i])
              && fresh(books[i].levels - old(books[i].levels))
    ensures forall i, j :: i in pending && i in books && j in pending && j in books && i != j ==>
              books[i].levels !! books[j].levels
    ensures forall i, x :: i in pending && i !in books && x in pending[i] ==>
            results[i][x.id] == ResultOf(x.State(), [])
  {
    hide OrderBook.Valid, Held, Objects, Snapshot, Settled, DesksApart, RestOpen, ResultOf, Distinct;
    var keys := Listed(pending.Keys * books.Keys);
    ghost var ds := OpenDesks(keys, pending, books, frame);
    results, draws := RunDesks(keys, pending, books, ds, frame);
    forall i | i in pending && i in books
      ensures exists k :: 0 <= k < |keys| && keys[k] == i
    {
      assert i in keys;
    }
  }

  class BatchMatchingEngine {
    var pendingOrders: map<InstrumentId, seq<Order>>

    constructor ()
      ensures pendingOrders == map[]
    {
      pendingOrders := map[];
    }

    function Waiting(i: InstrumentId): seq<Order>
      reads this
    {
      if i in pendingOrders then pendingOrders[i] else []
    }

    /** Holds the order back: no book is touched. */
    method SubmitOrder(o: Order) returns (r: OrderResult)
      modifies this
      ensures pendingOrders == old(pendingOrders)[o.instrument := old(Waiting(o.instrument)) + [o]]
      ensures r == OrderResult(o.id, PendingNew, [], o.quantity)
    {
      if o.instrument !in pendingOrders {
        pendingOrders := pendingOrders[o.instrument := []];
      }
      pendingOrders := pendingOrders[o.instrument := pendingOrders[o.instrument] + [o]];
      r := OrderResult(o.id, PendingNew, [], o.quantity);
    }

    /** Matches every held order whose instrument has a book, reports on all of
        them, and holds nothing any more. */
    method ExecuteBatch(books: map<InstrumentId, OrderBook>, ghost frame: set<object>)
      returns (results: map<InstrumentId, Results>, ghost draws: map<InstrumentId, Draw>)
      requires this !in frame
      requires forall i :: i in pendingOrders ==> Distinct(pendingOrders[i])
      requires forall i :: i in pendingOrders && i in books ==>
                 && books[i].Valid() && Held(pendingOrders[i], books[i]) && Objects(books[i], pendingOrders[i]) <= frame
      requires forall i, j :: i in pendingOrders && i in books && j in pendingOrders && j in books && i != j ==>
                 Objects(books[i], pendingOrders[i]) !! Objects(books[j], pendingOrders[j])
      modifies this, frame
      ensures pendingOrders == map[] && results.Keys == old(pendingOrders).Keys
      ensures forall i :: i in old(pendingOrders) ==> results[i].Keys == set x | x in old(pendingOrders)[i] :: x.id
      ensures forall i :: i in old(pendingOrders) && i in books ==>
                && i in draws && books[i].Valid()
                && Settled(old(Snapshot(pendingOrders[i], books[i])), draws[i], results[i])
                && fresh(books[i].levels - old(books[i].levels))
      ensures forall i, j :: i in old(pendingOrders) && i in books &&
                             j in old(pendingOrders) && j in books && i != j ==>
                books[i].levels !! books[j].levels
      ensures forall i, x :: i in old(pendingOrders) && i !in books && x in old(pendingOrders)[i] ==>
                results[i][x.id] == ResultOf(x.State(), [])
    {
      hide OrderBook.Valid, Held, Snapshot, Settled, ResultOf, Distinct, Objects;
      forall i | i in pendingOrders && i in books
        ensures books[i] in frame && Snapshot(pendingOrders[i], books[i]).was.Keys <= frame
        ensures forall x :: x in Snapshot(pendingOrders[i], books[i]).orders ==> x in frame
        ensures Snapshot(pendingOrders[i], books[i]).book == books[i]
      {
        SnapshotInside(pendingOrders[i], books[i]);
      }
      results, draws := RunListed(pendingOrders, books, frame);
      pendingOrders := map[];
    }
  }
}
