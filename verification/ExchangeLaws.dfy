/** The accounts of the exchange: every trade of every step is legal, and every
    order's quantity is what is left of it and what the logs say it traded, up to
    what was logged under its id before that id was used again. */
module ExchangeLaws {
  import opened Orders
  import opened PriceTime
  import opened BatchAccounts
  import opened Registry
  import opened Exchanges
  import opened ExchangeSteps
  import opened ExchangeLogs

  // ---- every trade is legal ----

  /** The trades a step adds to a log. */
  ghost function NewTrades(x: Exchange, e: Event, i: InstrumentId): seq<Trade>
    requires Enabled(x, e)
  {
    FillsOn(Published(x, e), i) + BatchTrades(x, e, i)
  }

  lemma {:induction false} MatchedLegal(x: Exchange, o: OrderState)
    requires Inv(x) && o.Fresh() && o.id !in x.ids && o.instrument in x.books
    ensures x.Ready() && !InBook(x.books[o.instrument], o.id)
    ensures AllLegal(Add(x.books[o.instrument], o).trades, MatchNow(x, o).0.roll, o.instrument)
  {
    hide InBook, BookOk, Agrees, Add, AllLegal, Touched, OrderState.Fresh, OrderState.WellFormed;
    InvReady(x);
    UnusedId(x, o.id);
    FreshIsWell(o);
    AcceptedKeepsInv(x, o);
    BookInvOk(Accepted(x, o), o.instrument);
    AddAgrees(x.books[o.instrument], o, o.instrument, Accepted(x, o).roll);
  }

  lemma {:induction false} SubmitTradesLegal(x: Exchange, o: OrderState, i: InstrumentId)
    requires Inv(x) && Enabled(x, Submit(o))
    ensures AllLegal(FillsOn(Published(x, Submit(o)), i), Step(x, Submit(o)).0.roll, i)
  {
    hide InBook, Inv, Add, AllLegal, Touched, OrderState.Fresh;
    NothingIllegal(Step(x, Submit(o)).0.roll, i);
    OneMessage(Published(x, Submit(o)), i);
    if x.state.submission && o.instrument in x.books && o.id !in x.ids && !x.state.Holds() {
      MatchedLegal(x, o);
    }
  }

  lemma {:induction false} NothingIllegal(roll: Roll, i: InstrumentId)
    ensures AllLegal([], roll, i)
  {
  }

  lemma {:induction false} BatchTradesLegal(x: Exchange, e: Event, i: InstrumentId)
    requires Inv(x) && Enabled(x, e) && RunsBatch(x, e)
    ensures AllLegal(BatchTrades(x, e, i), Step(x, e).0.roll, i)
  {
    hide InBook, Inv, RunBatch, Agrees, AllLegal, Batched;
    var y := if e.Poll? then Polled(x, e.now) else x;
    NothingIllegal(Step(x, e).0.roll, i);
    RelabelledKeepsInv(x, y.state, y.last);
    SameDraws(x, y, e.draws);
    if i in x.pending && i in x.books {
      BatchedAgrees(y, e.draws, i);
    }
  }

  /** Whatever ids were reused before, every trade a step adds to a log is between
      a buy and a sell of the instrument as accepted, within both limits. */
  lemma {:induction false} StepTradesLegal(x: Exchange, e: Event, i: InstrumentId)
    requires Inv(x) && Enabled(x, e)
    ensures LogAt(Step(x, e).0, i) == LogAt(x, i) + NewTrades(x, e, i)
    ensures AllLegal(NewTrades(x, e, i), Step(x, e).0.roll, i)
  {
    hide Inv, Enabled, Step, Published, FillsOn, BatchTrades, RunsBatch, AllLegal;
    StepLogs(x, e, i);
    OneSource(x, e, i);
    NothingIllegal(Step(x, e).0.roll, i);
    if e.Submit? {
      SubmitTradesLegal(x, e.order, i);
    } else if RunsBatch(x, e) {
      BatchTradesLegal(x, e, i);
    }
    assert LogAt(x, i) + FillsOn(Published(x, e), i) + BatchTrades(x, e, i) == LogAt(x, i) + NewTrades(x, e, i);
    AllLegalConcat(FillsOn(Published(x, e), i), BatchTrades(x, e, i), Step(x, e).0.roll, i);
  }

  // ---- every order's account ----

  /** Whether a step accepts an order under an id. */
  predicate Enters(x: Exchange, e: Event, id: OrderId) {
    && e.Submit? && e.order.id == id && id !in x.ids
    && x.state.submission && e.order.instrument in x.books
  }

  lemma {:induction false} SubmitFills(x: Exchange, o: OrderState, id: OrderId)
    requires Inv(x) && Enabled(x, Submit(o))
    ensures var (e, z) := (Submit(o), Step(x, Submit(o)).0);
            && (id in z.roll <==> id in x.roll || Enters(x, e, id))
            && (id in z.roll ==>
                  var was := if Enters(x, e, id) then o else x.roll[id];
                  z.roll[id] == was.Filled(Traded(NewTrades(x, e, was.instrument), id)))
  {
    hide InBook, Inv, Add, Traded;
    var e := Submit(o);
    TradedNothing();
    if o.id !in x.ids {
      UnusedId(x, o.id);
    }
    forall i
      ensures FillsOn(Published(x, e), i) + BatchTrades(x, e, i) == FillsOn(Published(x, e), i)
      ensures FillsOn(Published(x, e), i) ==
              if |Published(x, e)| == 1 && o.instrument == i then Published(x, e)[0].fills else []
    {
      OneMessage(Published(x, e), i);
      OneSource(x, e, i);
    }
  }

  lemma {:induction false} BatchFills(x: Exchange, e: Event, id: OrderId)
    requires Inv(x) && Enabled(x, e) && RunsBatch(x, e)
    ensures var z := Step(x, e).0;
            && z.roll.Keys == x.roll.Keys
            && (id in x.roll ==>
                  z.roll[id] == x.roll[id].Filled(Traded(BatchTrades(x, e, x.roll[id].instrument), id)))
  {
    hide InBook, BookInv, HeldOk, OutcomeOf, RunBatches, Traded, DrawsOk;
    var y := if e.Poll? then Polled(x, e.now) else x;
    TradedNothing();
    SameDraws(x, y, e.draws);
    DrawsDrawn(y, e.draws);
    BatchedFields(y, e.draws);
    if id in x.roll {
      RollWell(x.roll, id);
      SameOutcome(x, y, e.draws);
    }
  }

  lemma {:induction false} SameOutcome(x: Exchange, y: Exchange, draws: Draws)
    requires x.Ready() && Drawn(x, draws) && y.books == x.books && y.pending == x.pending
    ensures y.Ready() && Drawn(y, draws)
    ensures forall i :: i in x.pending && i in x.books ==> OutcomeOf(y, draws, i) == OutcomeOf(x, draws, i)
  {
  }

  /** What a step makes of an order: the order it accepts under the id, or else the
      order it had, less exactly what the step's new trades give it. */
  lemma {:induction false} StepFills(x: Exchange, e: Event, id: OrderId)
    requires Inv(x) && Enabled(x, e)
    ensures var z := Step(x, e).0;
            && (id in z.roll <==> id in x.roll || Enters(x, e, id))
            && (id in z.roll ==>
                  var was := if Enters(x, e, id) then e.order else x.roll[id];
                  z.roll[id] == was.Filled(Traded(NewTrades(x, e, was.instrument), id)))
  {
    hide Inv, Enabled, Step, Published, FillsOn, BatchTrades, Traded, RunsBatch;
    if e.Submit? {
      SubmitFills(x, e.order, id);
    } else {
      forall i
        ensures NewTrades(x, e, i) == BatchTrades(x, e, i)
      {
        OneSource(x, e, i);
      }
      if RunsBatch(x, e) {
        BatchFills(x, e, id);
      } else {
        QuietFills(x, e);
        TradedNothing();
        forall i
          ensures BatchTrades(x, e, i) == []
        {
          OneSource(x, e, i);
        }
      }
    }
  }

  lemma {:induction false} QuietFills(x: Exchange, e: Event)
    requires Enabled(x, e) && !e.Submit? && !RunsBatch(x, e)
    ensures Step(x, e).0.roll == x.roll
  {
  }

  /** An order's original quantity is what is left of it plus every logged trade naming it. */
  predicate Conserved(x: Exchange, id: OrderId)
    requires id in x.roll
  {
    x.roll[id].quantity == x.roll[id].remaining + Traded(LogAt(x, x.roll[id].instrument), id)
  }

  /** What the log has under an order's id beyond what the order lost. */
  function Surplus(x: Exchange, id: OrderId): int
    requires id in x.roll
  {
    x.roll[id].remaining + Traded(LogAt(x, x.roll[id].instrument), id) - x.roll[id].quantity
  }

  /** A step leaves everybody's surplus as it is, except that an order accepted
      under an id starts with what its instrument's log already has under it. */
  lemma {:induction false} StepSurplus(x: Exchange, e: Event, id: OrderId)
    requires Inv(x) && Enabled(x, e) && id in Step(x, e).0.roll
    ensures if Enters(x, e, id) then Surplus(Step(x, e).0, id) == Traded(LogAt(x, e.order.instrument), id)
            else id in x.roll && Surplus(Step(x, e).0, id) == Surplus(x, id)
  {
    hide Inv, Step, NewTrades, Traded, AllLegal, LogAt;
    StepFills(x, e, id);
    var i := if Enters(x, e, id) then e.order.instrument else x.roll[id].instrument;
    StepTradesLegal(x, e, i);
    TradedConcat(LogAt(x, i), NewTrades(x, e, i), id);
  }

  /** Where ids may be reused, the law for a submitted id comes through exactly when
      its instrument's log had nothing under that id before. */
  lemma {:induction false} ReusedIdConserved(x: Exchange, e: Event)
    requires Inv(x) && Enabled(x, e) && e.Submit? && Enters(x, e, e.order.id)
    ensures var z := Step(x, e).0;
            && e.order.id in z.roll
            && (Conserved(z, e.order.id) <==> Traded(LogAt(x, e.order.instrument), e.order.id) == 0)
  {
    hide Inv, Step, Traded, NewTrades, LogAt;
    StepFills(x, e, e.order.id);
    StepSurplus(x, e, e.order.id);
  }

  // ---- the ledger ----

  /** Every logged trade is legal between two orders of the roll, and every order
      got what the log says. */
  ghost predicate Ledger(x: Exchange) {
    && (forall i :: i in x.books ==> AllLegal(x.books[i].log, x.roll, i))
    && forall id :: id in x.roll ==> x.roll[id].instrument in x.books && Conserved(x, id)
  }

  /** An accepted id is never submitted again. */
  predicate NewId(x: Exchange, e: Event) {
    e.Submit? ==> e.order.id !in x.roll
  }

  lemma {:induction false} UnknownTradesNothing(ts: seq<Trade>, roll: Roll, i: InstrumentId, id: OrderId)
    requires AllLegal(ts, roll, i) && id !in roll
    ensures Traded(ts, id) == 0
  {
    forall k | 0 <= k < |ts|
      ensures !ts[k].Names(id)
    {
      assert LegalIn(ts[k], roll, i);
    }
    TradedNobody(ts, id);
  }

  lemma {:induction false} StepKeepsTerms(x: Exchange, e: Event)
    requires Inv(x) && Enabled(x, e) && NewId(x, e)
    ensures forall id :: id in x.roll ==> id in Step(x, e).0.roll && SameTerms(x.roll[id], Step(x, e).0.roll[id])
  {
    hide Inv, Enabled, Step, NewTrades, Traded;
    forall id | id in x.roll
      ensures id in Step(x, e).0.roll && SameTerms(x.roll[id], Step(x, e).0.roll[id])
    {
      StepFills(x, e, id);
    }
  }

  lemma {:induction false} InvListed(x: Exchange)
    requires Inv(x)
    ensures forall id :: id in x.roll ==> x.roll[id].instrument in x.books
  {
  }

  /** Conservation and legality between the orders as they now are: kept by every
      step that reuses no id. */
  lemma {:induction false} StepKeepsLedger(x: Exchange, e: Event)
    requires Inv(x) && Ledger(x) && Enabled(x, e) && NewId(x, e)
    ensures Ledger(Step(x, e).0)
  {
    hide Inv, Enabled, Step, NewTrades, Traded, AllLegal;
    var z := Step(x, e).0;
    StepKeepsInv(x, e);
    InvListed(z);
    StepKeepsTerms(x, e);
    forall i | i in z.books
      ensures AllLegal(z.books[i].log, z.roll, i)
    {
      StepTradesLegal(x, e, i);
      NothingIllegal(z.roll, i);
      LegalElsewhere(LogAt(x, i), x.roll, z.roll, i);
      AllLegalConcat(LogAt(x, i), NewTrades(x, e, i), z.roll, i);
    }
    forall id | id in z.roll
      ensures Conserved(z, id)
    {
      StepSurplus(x, e, id);
      if Enters(x, e, id) {
        NothingIllegal(x.roll, e.order.instrument);
        UnknownTradesNothing(LogAt(x, e.order.instrument), x.roll, e.order.instrument, id);
      }
    }
  }
}
