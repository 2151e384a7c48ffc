/** Inputs on which what is documented, or expected, does not come about. */
module Witnesses {
  import opened Orders
  import opened PriceTime
  import opened BatchAuction
  import opened BatchAccounts
  import opened UnreportedFills
  import opened AuctionShares
  import opened Registry
  import opened Positions
  import opened Exchanges
  import opened ExchangeLogs
  import opened ExchangeLaws
  import opened ExchangeRuns
  import opened ExchangeSettlement

  /** A fresh order for one contract of instrument 0. */
  function Limit(id: OrderId, side: Side, price: int): OrderState {
    OrderState(id, id, 0, side, Some(price), 1, 1)
  }

  function Market(id: OrderId, side: Side): OrderState {
    OrderState(id, id, 0, side, None, 1, 1)
  }

  // ---- a market sell hides a crossing pair ----

  /** A buy at 100 and a sell at 90 would trade, but the market sell comes first. */
  lemma {:induction false} MarketSellHidesPair()
    ensures var bs, ss := [Limit(1, Buy, 100)], [Market(2, Sell), Limit(3, Sell, 90)];
            && BothArranged(bs, ss) && Greedy(bs, ss).trades == []
            && VolumeAt(bs, ss, 90.0) == 1 && !IsMaxVolume(bs, ss, 0)
  {
    var bs, ss := [Limit(1, Buy, 100)], [Market(2, Sell), Limit(3, Sell, 90)];
    assert Demand(bs[1..], 90.0) == 0;
    assert Supply(ss[1..][1..], 90.0) == 0;
    assert Supply(ss[1..], 90.0) == 1;
  }

  // ---- a fill that is never reported ----

  /** Over an empty book, a market sell takes a buy whose result shows no fill. */
  lemma {:induction false} BuyNeverReported()
    ensures var bs, ss := [Limit(1, Buy, 100)], [Market(2, Sell)];
            BatchReady(EMPTY_BOOK, bs, ss, 0) && !Accounted(RunBatch(EMPTY_BOOK, bs, ss), bs[0])
  {
    hide RunBatch, Accounted;
    var bs, ss := [Limit(1, Buy, 100)], [Market(2, Sell)];
    assert !Separate(bs, ss) by {
      assert bs[0].price.Some? && ss[0].price.None?;
    }
    EmptyBookReportsIff(EMPTY_BOOK, bs, ss, 0);
    SellAccounted(EMPTY_BOOK, bs, ss, 0, 0);
  }

  // ---- pairs past a better price ----

  const LONE_ASK := Book([], [Limit(1, Sell, 90)], [])

  lemma {:induction false} LoneAskOk()
    ensures BookOk(LONE_ASK, 0) && forall id :: InBook(LONE_ASK, id) <==> id == 1
  {
    assert LONE_ASK.asks[0].id == 1;
  }

  lemma {:induction false} LoneAskReady()
    ensures BatchReady(LONE_ASK, [Limit(2, Buy, 105)], [Limit(3, Sell, 100)], 0)
  {
    hide BookOk, InBook;
    LoneAskOk();
  }

  lemma {:induction false} LonePair(b: OrderState, s: OrderState)
    requires Crosses(b, s) && b.remaining == s.remaining == 1
    ensures Greedy([b], [s]) == Paired([PairTrade(b, s, 1)], [], [])
  {
    assert Greedy([], []) == Paired([], [], []);
  }

  /** A buy at 105 and a sell at 100 pair off at 100 past an ask of 90, which stays. */
  lemma {:induction false} PairPastBetterAsk()
    ensures var bs, ss := [Limit(2, Buy, 105)], [Limit(3, Sell, 100)];
            && BatchReady(LONE_ASK, bs, ss, 0)
            && TradesThrough(LONE_ASK, RunBatch(LONE_ASK, bs, ss).pairs.trades)
            && RunBatch(LONE_ASK, bs, ss).book.asks == LONE_ASK.asks
  {
    hide BatchReady, Greedy;
    var b, s := Limit(2, Buy, 105), Limit(3, Sell, 100);
    LoneAskReady();
    LonePair(b, s);
    assert RunBatch(LONE_ASK, [b], [s]).pairs.trades == [PairTrade(b, s, 1)];
    assert LONE_ASK.asks[0].price.value < PairTrade(b, s, 1).price;
    assert Bettered(LONE_ASK, RunBatch(LONE_ASK, [b], [s]).pairs.trades[0].price);
  }

  // ---- an id used again, and a team that trades with itself ----

  const OPEN := PhaseState(Continuous, true, true, true, ContinuousStyle)

  const SELL := OrderState(1, 7, 0, Sell, Some(100), 2, 2)
  const BUY := OrderState(2, 7, 0, Buy, Some(100), 1, 1)
  const FILL := Trade(0, 7, 7, 100, 1, 2, 1, Sell.Opposite())

  /** Team 7 sells two, buys one from itself, cancels the rest, and sells two under
      the same id again. */
  const STORY := [List(0), Submit(SELL), Submit(BUY), CancelOrder(1, 7), Submit(SELL)]

  ghost const STATES := [
    Opened(OPEN, Continuous),
    Exchange(map[0 := EMPTY_BOOK], map[], {}, map[], OPEN, Some(Continuous)),
    Exchange(map[0 := Book([], [SELL], [])], map[], {1}, map[1 := SELL], OPEN, Some(Continuous)),
    Exchange(map[0 := Book([], [SELL.Filled(1)], [FILL])], map[], {1, 2},
             map[1 := SELL.Filled(1), 2 := BUY.Filled(1)], OPEN, Some(Continuous)),
    Exchange(map[0 := Book([], [], [FILL])], map[], {2},
             map[1 := SELL.Filled(1), 2 := BUY.Filled(1)], OPEN, Some(Continuous)),
    Exchange(map[0 := Book([], [SELL], [FILL])], map[], {1, 2},
             map[1 := SELL, 2 := BUY.Filled(1)], OPEN, Some(Continuous))]

  lemma {:induction false} SellRests(log: seq<Trade>)
    ensures Add(Book([], [], log), SELL) == Added(Book([], [SELL], log), SELL, [])
    ensures !InBook(Book([], [], log), 1)
  {
  }

  lemma {:induction false} BuyTakesOne()
    ensures !InBook(Book([], [SELL], []), 2)
    ensures Add(Book([], [SELL], []), BUY) == Added(Book([], [SELL.Filled(1)], [FILL]), BUY.Filled(1), [FILL])
  {
  }

  lemma {:induction false} NothingTouched(roll: Roll, i: InstrumentId)
    ensures Touched(roll, i, []) == roll
  {
  }

  lemma {:induction false} OneFill()
    ensures Traded([FILL], 1) == 1 && Traded([FILL], 2) == 1 && Net([FILL], 7) == 0
  {
    assert [FILL][1..] == [];
    assert FILL.Names(1) && FILL.Names(2);
  }

  /** The fill takes one off either order. */
  lemma {:induction false} FillTouches()
    ensures Touched(map[1 := SELL, 2 := BUY], 0, [FILL]) == map[1 := SELL.Filled(1), 2 := BUY.Filled(1)]
  {
    hide Traded;
    OneFill();
    assert Touched(map[1 := SELL, 2 := BUY], 0, [FILL]).Keys == {1, 2};
  }

  /** What a submission comes to that is matched at once. */
  lemma {:induction false} Matches(x: Exchange, o: OrderState)
    requires x.Ready() && x.state == OPEN && o.instrument in x.books && o.id !in x.ids
    requires !InBook(x.books[o.instrument], o.id)
    ensures var a := Add(x.books[o.instrument], o);
            && SubmitOrder(x, o).1 == Placed(ResultOf(a.order, a.trades))
            && SubmitOrder(x, o).0 == x.(books := x.books[o.instrument := a.book], ids := x.ids + {o.id},
                                         roll := Touched(x.roll[o.id := o], o.instrument, a.trades))
  {
    hide Add, InBook, Touched;
  }

  lemma {:induction false} SellerCancels()
    ensures CancelRequest(STATES[3], 1, 7).0 == STATES[4]
  {
    var b := STATES[3].books[0];
    assert GetOrder(b, 1) == Some(SELL.Filled(1));
    assert Cancel(b, 1) == Book([], [], [FILL]);
  }

  lemma {:induction false} FirstSell()
    ensures STATES[1].Ready() && SubmitOrder(STATES[1], SELL) == (STATES[2], Placed(ResultOf(SELL, [])))
  {
    hide Add, InBook, Touched;
    SellRests([]);
    Matches(STATES[1], SELL);
    NothingTouched(map[1 := SELL], 0);
    assert STATES[1].roll[1 := SELL] == STATES[2].roll && STATES[1].ids + {1} == STATES[2].ids;
    assert STATES[1].books[0 := Book([], [SELL], [])] == STATES[2].books;
  }

  lemma {:induction false} ThenBuy()
    ensures STATES[2].Ready() && SubmitOrder(STATES[2], BUY) == (STATES[3], Placed(ResultOf(BUY.Filled(1), [FILL])))
  {
    hide Add, InBook, Touched;
    BuyTakesOne();
    Matches(STATES[2], BUY);
    FillTouches();
    assert STATES[2].roll[2 := BUY] == map[1 := SELL, 2 := BUY] && STATES[2].ids + {2} == STATES[3].ids;
    assert STATES[2].books[0 := STATES[3].books[0]] == STATES[3].books;
  }

  lemma {:induction false} SecondSell()
    ensures STATES[4].Ready() && SubmitOrder(STATES[4], SELL) == (STATES[5], Placed(ResultOf(SELL, [])))
  {
    hide Add, InBook, Touched;
    SellRests([FILL]);
    Matches(STATES[4], SELL);
    NothingTouched(STATES[5].roll, 0);
    assert STATES[4].roll[1 := SELL] == STATES[5].roll && STATES[4].ids + {1} == STATES[5].ids;
    assert STATES[4].books[0 := STATES[5].books[0]] == STATES[5].books;
  }

  lemma {:induction false} StoryStep(k: nat)
    requires k < |STORY|
    ensures Enabled(STATES[k], STORY[k]) && Step(STATES[k], STORY[k]).0 == STATES[k + 1]
    ensures QueueEffect(Published(STATES[k], STORY[k]), 7, 0) == if k == 2 then 1 else 0
  {
    hide CancelRequest, SubmitOrder;
    FirstSell();
    ThenBuy();
    SellerCancels();
    SecondSell();
    BuyEffect();
  }

  lemma {:induction false} BuyEffect()
    ensures QueueEffect([Message([], SELL, 7)], 7, 0) == 0 && QueueEffect([], 7, 0) == 0
    ensures QueueEffect([Message([FILL], BUY, 7)], 7, 0) == 1
  {
    assert [FILL][1..] == [] && [Message([FILL], BUY, 7)][1..] == [] && [Message([], SELL, 7)][1..] == [];
    assert FillsEffect([], Message([FILL], BUY, 7), 7, 0) == 0;
    assert FillEffect(FILL, Message([FILL], BUY, 7), 7, 0) == 1;
  }

  lemma {:induction false} StoryIsRun()
    ensures IsRun(STATES, STORY)
  {
    hide Enabled, Step;
    forall k | 0 <= k < |STORY|
      ensures Enabled(STATES[k], STORY[k]) && STATES[k + 1] == Step(STATES[k], STORY[k]).0
    {
      StoryStep(k);
    }
    assert STATES[0] == Opened(OPEN, Continuous);
  }

  /** The id used again still has its old fill in the log, and is not conserved. */
  lemma {:induction false} ReusedIdNotConserved()
    ensures IsRun(STATES, STORY) && Carried(STATES, STORY, 5, 1) == 1 && !Conserved(STATES[5], 1)
  {
    hide Enabled, Step, Traded;
    StoryIsRun();
    OneFill();
    assert Enters(STATES[4], STORY[4], 1) && LogAt(STATES[4], 0) == [FILL];
    ConservedExactly(STATES, STORY, 5, 1);
  }

  lemma {:induction false} StoryQueue(k: nat)
    requires IsRun(STATES, STORY) && k <= |STORY|
    ensures QueueEffect(Queue(STATES, STORY, k), 7, 0) == if k > 2 then 1 else 0
  {
    hide Enabled, Step, IsRun, Published, QueueEffect;
    if k == 0 {
      BuyEffect();
    } else {
      StoryQueue(k - 1);
      StoryStep(k - 1);
      QueueEffectConcat(Queue(STATES, STORY, k - 1), Published(STATES[k - 1], STORY[k - 1]), 7, 0);
    }
  }

  /** The tracker puts the team's own fill on its position, which bought as much as it sold. */
  lemma {:induction false} SelfTradeDrifts()
    ensures IsRun(STATES, STORY)
    ensures Net(LogAt(STATES[5], 0), 7) == 0 && QueueEffect(Queue(STATES, STORY, 5), 7, 0) == 1
  {
    hide Enabled, Step, IsRun, Net, QueueEffect, Queue;
    StoryIsRun();
    OneFill();
    StoryQueue(5);
    assert LogAt(STATES[5], 0) == [FILL];
  }
}
