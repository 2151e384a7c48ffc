/** What every step of the exchange adds to the trade logs of its books. */
module ExchangeLogs {
  import opened Orders
  import opened PriceTime
  import opened BookLaws
  import opened BatchAccounts
  import opened Registry
  import opened Positions
  import opened Exchanges
  import opened ExchangeSteps

  function LogAt(x: Exchange, i: InstrumentId): seq<Trade> {
    if i in x.books then x.books[i].log else []
  }

  /** A submission that is answered with a result goes to the trade publisher;
      nothing else does, in particular no result of a batch. */
  ghost function Published(x: Exchange, e: Event): seq<Message>
    requires Enabled(x, e)
  {
    if e.Submit? && Step(x, e).1.Placed?
    then [Message(Step(x, e).1.result.fills, e.order, e.order.trader)]
    else []
  }

  ghost function BatchTrades(x: Exchange, e: Event, i: InstrumentId): seq<Trade>
    requires Enabled(x, e)
  {
    if RunsBatch(x, e) && i in x.pending && i in x.books
    then OutcomeOf(x, e.draws, i).NewTrades()
    else []
  }

  ghost function FillsOn(ms: seq<Message>, i: InstrumentId): seq<Trade> {
    if ms == [] then [] else (if ms[0].order.instrument == i then ms[0].fills else []) + FillsOn(ms[1..], i)
  }

  lemma {:induction false} AddOwnFills(b: Book, o: OrderState, i: InstrumentId)
    requires BookOk(b, i) && o.WellFormed() && o.instrument == i && !InBook(b, o.id)
    ensures Priced(b) && OwnFills(Message(Add(b, o).trades, o, o.trader))
  {
    hide Walk;
    var opp := b.Orders(o.side.Opposite());
    BookPriced(b, i);
    BookFromSide(b, o.side, i);
    WalkTradesFairly(o, opp, i);
    var ts := Walk(o, opp).trades;
    forall k | 0 <= k < |ts|
      ensures FairTrade(ts[k], o, opp[k]) && opp[k].id != o.id
    {
      assert HasId(opp, opp[k].id);
    }
  }

  lemma {:induction false} SubmitLogs(x: Exchange, o: OrderState, i: InstrumentId)
    requires Inv(x) && Enabled(x, Submit(o))
    ensures LogAt(Step(x, Submit(o)).0, i) == LogAt(x, i) + FillsOn(Published(x, Submit(o)), i)
    ensures forall k :: 0 <= k < |Published(x, Submit(o))| ==> OwnFills(Published(x, Submit(o))[k])
  {
    hide InBook, Inv, Add, Touched;
    var (z, r) := SubmitOrder(x, o);
    OneMessage(Published(x, Submit(o)), i);
    if x.state.submission && o.instrument in x.books && o.id !in x.ids && !x.state.Holds() {
      UnusedId(x, o.id);
      BookInvOk(x, o.instrument);
      FreshIsWell(o);
      AddOwnFills(x.books[o.instrument], o, o.instrument);
    } else {
      assert LogAt(z, i) == LogAt(x, i);
    }
  }

  lemma {:induction false} OneMessage(ms: seq<Message>, i: InstrumentId)
    requires |ms| <= 1
    ensures FillsOn(ms, i) == if |ms| == 1 && ms[0].order.instrument == i then ms[0].fills else []
  {
  }

  lemma {:induction false} BatchLogs(x: Exchange, e: Event, i: InstrumentId)
    requires Inv(x) && Enabled(x, e) && RunsBatch(x, e)
    ensures LogAt(Step(x, e).0, i) == LogAt(x, i) + BatchTrades(x, e, i)
  {
    hide InBook, Inv, RunBatch, Agrees, AllLegal, Batched;
    var y := if e.Poll? then Polled(x, e.now) else x;
    RelabelledKeepsInv(x, y.state, y.last);
    SameDraws(x, y, e.draws);
    if i in x.pending && i in x.books {
      BatchedAgrees(y, e.draws, i);
    }
  }

  lemma {:induction false} QuietLogs(x: Exchange, e: Event, i: InstrumentId)
    requires Enabled(x, e) && !RunsBatch(x, e) && !e.Submit?
    ensures LogAt(Step(x, e).0, i) == LogAt(x, i)
  {
  }

  lemma {:induction false} OneSource(x: Exchange, e: Event, i: InstrumentId)
    requires Enabled(x, e)
    ensures !e.Submit? ==> Published(x, e) == [] && FillsOn([], i) == []
    ensures e.Submit? || !RunsBatch(x, e) ==> BatchTrades(x, e, i) == []
  {
    hide Step;
  }

  /** What one step adds to a log: the fills it publishes, or its batch trades. */
  lemma {:induction false} StepLogs(x: Exchange, e: Event, i: InstrumentId)
    requires Inv(x) && Enabled(x, e)
    ensures LogAt(Step(x, e).0, i) == LogAt(x, i) + FillsOn(Published(x, e), i) + BatchTrades(x, e, i)
    ensures forall k :: 0 <= k < |Published(x, e)| ==> OwnFills(Published(x, e)[k])
  {
    hide Inv, Enabled, Step, Published, FillsOn, BatchTrades, RunsBatch, OwnFills;
    OneSource(x, e, i);
    if e.Submit? {
      SubmitLogs(x, e.order, i);
    } else if RunsBatch(x, e) {
      BatchLogs(x, e, i);
    } else {
      QuietLogs(x, e, i);
    }
  }
}
