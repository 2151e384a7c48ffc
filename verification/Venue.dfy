/** The exchange venue: routing by phase, the phase transition handler and the
    market close, each one step of the state machine of module Exchanges. */
module Venues {
  import opened Collections
  import opened Orders
  import opened PriceTime
  import opened OrderBooks
  import opened BatchEngines
  import opened Registry
  import opened Exchanges
  import opened ExchangeSteps
  import opened ExchangeRuns
  import opened VenueObjects
  import opened VenueOrders
  import opened VenueBatches

  const DISPATCH: map<(PhaseType, PhaseType), Action> :=
    map[(PreOpen, OpeningAuction) := Auction, (Continuous, Closed) := Close]

  class TransitionHandler {
    var last: Option<PhaseType>

    constructor (baseline: PhaseType)
      ensures last == Some(baseline)
    {
      last := Some(baseline);
    }

    /** Compares a polled phase with the last one heard, remembers it, and says
        what is to be done. */
    method CheckTransition(now: PhaseType) returns (changed: bool, action: Option<Action>)
      modifies this
      ensures last == Some(now)
      ensures changed <==> old(last).Some? && old(last) != Some(now)
      ensures action == Transition(old(last), now)
    {
      if last.None? {
        last := Some(now);
        return false, None;
      }
      if last == Some(now) {
        return false, None;
      }
      var from := last.value;
      last := Some(now);
      return true, if (from, now) in DISPATCH then Some(DISPATCH[(from, now)]) else None;
    }

    method Reset()
      modifies this
      ensures last == None
    {
      last := None;
    }
  }

  class ExchangeVenue {
    const engine: BatchMatchingEngine
    const handler: TransitionHandler
    var books: Books
    var allOrderIds: set<OrderId>
    var phase: PhaseState

    ghost var state: Exchange  // where these objects are in the state machine
    ghost var roster: Roster
    ghost var repr: set<object>

    /** The venue, its engine and its handler are none of these objects. */
    ghost predicate Outside(objects: set<object>) {
      engine !in objects && handler !in objects && this !in objects
    }

    lemma {:induction false} OutsideMore(objects: set<object>, orders: set<Order>, levels: set<PriceLevel>)
      requires Outside(objects)
      ensures Outside(objects + orders) && Outside(objects + levels)
    {
    }

    /** Everything but the ids in use is what the state says. */
    ghost predicate Core()
      reads this`books, this`phase, this`state, this`roster, this`repr, engine, handler, repr
    {
      && Outside(repr) && books.Values <= repr && Owned(books, engine.pendingOrders, roster, repr)
      && BooksAre(books, state.books, roster)
      && PoolsAre(engine.pendingOrders, state.pending, roster)
      && RosterIs(roster, state.roll)
      && phase == state.state && handler.last == state.last && Inv(state)
    }

    ghost predicate Valid()
      reads this, engine, handler, repr
    {
      Core() && allOrderIds == state.ids
    }

    constructor (start: PhaseState, baseline: PhaseType)
      ensures Valid() && fresh(engine) && fresh(handler) && repr == {}
      ensures state == Exchanges.Opened(start, baseline)
    {
      engine := new BatchMatchingEngine();
      handler := new TransitionHandler(baseline);
      books, allOrderIds, phase := map[], {}, start;
      state, roster, repr := Exchanges.Opened(start, baseline), map[], {};
      new;
      InvInitial(start, baseline);
    }

    /** The objects are now in another state of the state machine. */
    ghost method Enter(x: Exchange, everyone: Roster, objects: set<object>)
      requires Outside(objects) && books.Values <= objects && Owned(books, engine.pendingOrders, everyone, objects)
      requires BooksAre(books, x.books, everyone) && PoolsAre(engine.pendingOrders, x.pending, everyone)
      requires RosterIs(everyone, x.roll) && Inv(x)
      requires phase == x.state && handler.last == x.last && allOrderIds == x.ids
      modifies this`state, this`roster, this`repr
      ensures Valid() && state == x && roster == everyone && repr == objects
    {
      hide Inv, BooksAre, PoolsAre, RosterIs, Owned, LevelsIn, LiveIn, PooledIn;
      state, roster, repr := x, everyone, objects;
      AllStay(Scene(books, engine.pendingOrders, x, everyone, objects));
    }

    /** Refuses (the source raises) an instrument that is listed already. */
    method ListInstrument(i: InstrumentId) returns (ok: bool)
      requires Valid()
      modifies this
      ensures Valid() && fresh(repr - old(repr)) && (ok <==> i !in old(books))
      ensures Enabled(old(state), List(i)) && state == Step(old(state), List(i)).0
    {
      hide Inv, BooksAre, PoolsAre, RosterIs, LevelsIn, LiveIn, PooledIn, Owned, OrderBook.Valid, OrderBook.AsBook;
      ghost var x := state;
      InvReady(x);
      StepKeepsInv(x, List(i));
      BookAt(books, x.books, roster);
      ok := i !in books;
      if ok {
        var b := new OrderBook(i);
        books := books[i := b];
        AllStay(Scene(old(books), engine.pendingOrders, x, roster, repr));
        BooksGrow(old(books), engine.pendingOrders, x.books, roster, repr, i, b);
        Enter(Step(x, List(i)).0, roster, repr + {b});
      }
    }

    lemma {:induction false} CoreFacts()
      requires Core()
      ensures phase == state.state && handler.last == state.last && Inv(state) && books.Keys == state.books.Keys
      ensures engine !in repr && handler !in repr && this !in repr
      ensures forall i :: i in books ==> books[i] in repr && books[i].levels <= repr && books[i].live <= repr
    {
      hide Inv, BooksAre, PoolsAre, RosterIs, LevelsIn, LiveIn, PooledIn, Owned;
      BookAt(books, state.books, roster);
      forall i | i in books
        ensures books[i] in repr && books[i].levels <= repr && books[i].live <= repr
      {
        OwnedAt(books, engine.pendingOrders, roster, repr, i);
      }
    }

    // ---- submitting ----

    /** Holds back an order whose id is in use from now on. */
    method HoldOrder(o: Order) returns (r: Reply)
      requires Core() && o.State().Fresh() && o.instrument in state.books && o.id !in state.ids
      requires allOrderIds == state.ids + {o.id} && state.state.submission && state.state.Holds()
      modifies this`state, this`roster, this`repr, engine
      ensures Valid() && repr == old(repr) + {o}
      ensures old(state).Ready() && (state, r) == Exchanges.SubmitOrder(old(state), old(o.State()))
    {
      hide Inv, BooksAre, PoolsAre, RosterIs, Owned, LevelsIn, LiveIn, PooledIn, OrderState.Fresh,
        Exchanges.SubmitOrder, WithMatched;
      ghost var x, was, everyone, objects := Accepted(state, o.State()), o.State(), roster[o.id := o], repr + {o};
      OutsideMore(repr, {o}, {});
      Submitting(state, o);
      AllEnroll(books, engine.pendingOrders, state, roster, repr, o);
      var result := engine.SubmitOrder(o);
      r := Placed(result);
      AllStay(Scene(books, old(engine.pendingOrders), x, everyone, objects));
      PoolsGrow(books, old(engine.pendingOrders), x.pending, everyone, objects, o);
      Enter(WithHeld(x, was), everyone, objects);
    }

    /** An order about to be matched is new to every book and held list. */
    lemma {:induction false} AboutToMatch(o: Order)
      requires Core() && o.State().Fresh() && o.instrument in books && o.id !in state.ids
      requires state.state.submission && !state.state.Holds()
      ensures var x, everyone, objects := Accepted(state, o.State()), roster[o.id := o], repr + {o};
              && Outside(objects) && books.Values <= objects && Owned(books, engine.pendingOrders, everyone, objects)
              && BooksAre(books, x.books, everyone) && PoolsAre(engine.pendingOrders, x.pending, everyone)
              && RosterIs(everyone, x.roll)
              && PooledIn(engine.pendingOrders) <= Rest(books[o.instrument], o, objects)
              && (forall i :: i in x.books ==> !InBook(x.books[i], o.id))
              && state.Ready() && x.Ready() && o.instrument in x.books && Inv(WithMatched(x, o.State()))
              && var a := Add(x.books[o.instrument], o.State());
                 Exchanges.SubmitOrder(state, o.State()) ==
                 (WithMatched(x, o.State()), Placed(ResultOf(a.order, a.trades)))
    {
      hide Inv, BooksAre, PoolsAre, RosterIs, LevelsIn, LiveIn, PooledIn, Owned, OrderState.Fresh, InBook, HasId, Add,
        Touched, Exchanges.SubmitOrder;
      OutsideMore(repr, {o}, {});
      BookAt(books, state.books, roster);
      Submitting(state, o);
      AllEnroll(books, engine.pendingOrders, state, roster, repr, o);
      PoolsApart(books, engine.pendingOrders, state, roster[o.id := o], repr + {o}, o.instrument, o);
    }

    /** Matches an order whose id is in use from now on. */
    method MatchOrder(o: Order) returns (r: Reply)
      requires Core() && o.State().Fresh() && o.instrument in books && o.id !in state.ids
      requires allOrderIds == state.ids + {o.id} && state.state.submission && !state.state.Holds()
      modifies this`state, this`roster, this`repr
      modifies books[o.instrument], books[o.instrument].levels, books[o.instrument].live, o
      ensures Valid() && fresh(repr - old(repr + {o}))
      ensures old(state).Ready() && (state, r) == Exchanges.SubmitOrder(old(state), old(o.State()))
    {
      hide Inv, BooksAre, PoolsAre, RosterIs, LevelsIn, LiveIn, PooledIn, Owned, OrderState.Fresh, InBook, HasId, Add,
        Touched, Exchanges.SubmitOrder, Outside, Rest;
      ghost var x, was, everyone, objects := Accepted(state, o.State()), o.State(), roster[o.id := o], repr + {o};
      AboutToMatch(o);
      ghost var more;
      r, more := MatchIn(o, books, engine.pendingOrders, x, everyone, objects);
      OutsideMore(objects, {}, more);
      Enter(WithMatched(x, was), everyone, objects + more);
    }

    /** Routes an order by the phase: refused, held, or matched at once. */
    method SubmitOrder(o: Order) returns (r: Reply)
      requires Valid() && o.State().Fresh()
      modifies this, engine, repr, o
      ensures Valid() && fresh(repr - old(repr + {o}))
      ensures old(state).Ready() && (state, r) == Exchanges.SubmitOrder(old(state), old(o.State()))
      ensures var taken := old(phase).submission && o.instrument in old(books) && o.id !in old(allOrderIds);
              && (r == Placed(OrderResult(o.id, PendingNew, [], o.quantity)) <==>
                    taken && (old(phase).style.BatchStyle? || !old(phase).matching))
              && (r.Placed? && r.result.status !in {PendingNew, Rejected} <==>
                    taken && !old(phase).style.BatchStyle? && old(phase).matching)
    {
      hide Inv, BooksAre, PoolsAre, RosterIs, Owned, LevelsIn, LiveIn, PooledIn, OrderState.Fresh,
        Exchanges.SubmitOrder, WithHeld, WithMatched, Accepted, Core, Add;
      CoreFacts();
      InvReady(state);
      SubmissionOutcome(state, o.State());
      Submitting(state, o);
      if !phase.submission {
        return Placed(OrderResult(o.id, Rejected, [], o.quantity));
      }
      if o.instrument !in books {
        return Failed(UnknownInstrument);
      }
      if o.id in allOrderIds {
        return Failed(DuplicateOrderId);
      }
      allOrderIds := allOrderIds + {o.id};
      if phase.style.BatchStyle? || !phase.matching {
        r := HoldOrder(o);
      } else {
        r := MatchOrder(o);
      }
    }

    // ---- cancelling ----

    /** An id is released, and the objects are in another state. */
    method Release(id: OrderId, ghost x: Exchange)
      requires Outside(repr) && books.Values <= repr && Owned(books, engine.pendingOrders, roster, repr)
      requires BooksAre(books, x.books, roster) && PoolsAre(engine.pendingOrders, x.pending, roster)
      requires RosterIs(roster, x.roll) && Inv(x)
      requires phase == x.state && handler.last == x.last && allOrderIds - {id} == x.ids
      modifies this`allOrderIds, this`state
      ensures Valid() && state == x
    {
      hide Inv, BooksAre, PoolsAre, RosterIs, Owned, LevelsIn, LiveIn, PooledIn;
      allOrderIds := allOrderIds - {id};
      state := x;
      AllStay(Scene(books, engine.pendingOrders, x, roster, repr));
    }

    /** Takes a resting order out of its book and releases its id. */
    method Withdraw(i: InstrumentId, id: OrderId) returns (ok: bool)
      requires Valid() && i in books && i in state.books && InBook(state.books[i], id)
      modifies this`allOrderIds, this`state, books[i], books[i].levels
      ensures Valid() && ok && state == Withdrawn(old(state), i, id)
    {
      hide Inv, BooksAre, PoolsAre, RosterIs, Owned, LevelsIn, LiveIn, PooledIn, Outside, InBook, Cancel;
      WithdrawnKeepsInv(state, i, id);
      var cancelled := WithdrawIn(id, books, i, engine.pendingOrders, state, roster, repr);
      ok := cancelled != null;
      if ok {
        Release(id, Withdrawn(state, i, id));
      }
    }

    lemma {:induction false} BookReady(i: InstrumentId)
      requires Core() && i in books
      ensures i in state.books && books[i].Valid()
      ensures forall id :: id in books[i].orderIds <==> InBook(state.books[i], id)
    {
      hide Inv, BooksAre, PoolsAre, RosterIs, Owned, LevelsIn, LiveIn, PooledIn, OrderBook.Valid, OrderBook.AsBook,
        InBook;
      BookAt(books, state.books, roster);
      BookUnfolds(books[i], i, state.books[i], roster);
      books[i].ValidBook();
    }

    /** What a request for an order found in a book comes to. */
    lemma {:induction false} FoundIn(i: InstrumentId, order: Order, trader: TeamId)
      requires Core() && i in books && order in books[i].live && state.state.cancellation
      ensures i in state.books && InBook(state.books[i], order.id)
      ensures CancelRequest(state, order.id, trader) ==
              if order.trader == trader then (Withdrawn(state, i, order.id), Cancelled(true))
              else (state, Failed(NotOwner))
    {
      hide Inv, BooksAre, PoolsAre, Owned, LevelsIn, LiveIn, PooledIn, OrderBook.Valid, OrderBook.AsBook, InBook,
        GetOrder, Withdrawn;
      BookAt(books, state.books, roster);
      BookUnfolds(books[i], i, state.books[i], roster);
      LiveInBook(books[i], i, state.books[i], roster, order.id);
      RestingOrder(state, i, order.id);
      OnlyBook(state, i, order.id);
      IdsInOnePlace(state, order.id);
      assert state.Rests(order.id);
    }

    /** Asks every book in turn for the order; the first that has it decides. */
    method CancelOrder(id: OrderId, trader: TeamId) returns (r: Reply)
      requires Valid()
      modifies this`allOrderIds, this`state, repr
      ensures Valid() && (state, r) == CancelRequest(old(state), id, trader)
    {
      hide Core, Inv, InBook, CancelRequest, Withdrawn, OrderBook.Valid;
      CoreFacts();
      NowhereFound(state, id, trader);
      if !phase.cancellation || id !in allOrderIds {
        return Cancelled(false);
      }
      var keys := Listed(books.Keys);
      var n := 0;
      while n < |keys|
        invariant n <= |keys| && Valid() && state == old(state)
        invariant forall k :: 0 <= k < n ==> !InBook(state.books[keys[k]], id)
      {
        var i := keys[n];
        BookReady(i);
        var order := books[i].GetOrder(id);
        if order != null {
          FoundIn(i, order, trader);
          if order.trader != trader {
            return Failed(NotOwner);
          }
          CoreFacts();
          var ok := Withdraw(i, id);
          return Cancelled(ok);
        }
        n := n + 1;
      }
      assert forall i :: i in books ==> i in keys;
      r := Cancelled(false);
    }

    lemma {:induction false} BookListed(i: InstrumentId)
      requires Core() && i in books
      ensures i in state.books && books[i].AsBook() == state.books[i]
    {
      hide Inv, BooksAre, PoolsAre, RosterIs, Owned, LevelsIn, LiveIn, PooledIn, OrderBook.Valid, OrderBook.AsBook;
      BookAt(books, state.books, roster);
      BookUnfolds(books[i], i, state.books[i], roster);
    }

    /** Cancels every order of a book in turn. */
    method CancelEvery(i: InstrumentId)
      requires Valid() && i in books
      modifies this`allOrderIds, this`state, repr
      ensures Valid() && i in old(state).books && state == Emptied(old(state), i)
    {
      hide Core, Inv, InBook, BookOk, OrderBook.Valid, OrderBook.AsBook, HasId, Withdrawn, EmptiedUpTo, Emptied;
      ghost var x := state;
      CoreFacts();
      BookReady(i);
      var bids := books[i].RestingOrders(Buy);
      var asks := books[i].RestingOrders(Sell);
      var orders := bids + asks;
      BookListed(i);
      ghost var all := x.books[i].bids + x.books[i].asks;
      assert |orders| == |all| && forall k :: 0 <= k < |all| ==> orders[k].id == all[k].id;
      EmptiedNone(x, i, all);
      var n := 0;
      while n < |orders|
        invariant n <= |orders| && Valid() && EmptiedUpTo(x, state, i, all, n)
      {
        CoreFacts();
        EmptiedNext(x, state, i, all, n);
        var _ := Withdraw(i, orders[n].id);
        n := n + 1;
      }
      EmptiedWhole(x, state, i);
    }

    /** Cancels every resting order of every book. */
    method CancelAllOrders()
      requires Valid()
      modifies this`allOrderIds, this`state, repr
      ensures Valid() && state == CloseMarket(old(state))
    {
      hide Core, Inv, InBook, Emptied, CloseMarket;
      ghost var x := state;
      CoreFacts();
      var keys := Listed(books.Keys);
      var n := 0;
      ClosedNone(x, keys);
      while n < |keys|
        invariant n <= |keys| && Valid() && ClosedUpTo(x, state, keys, n)
      {
        CoreFacts();
        ClosedNext(x, state, keys, n);
        CancelEvery(keys[n]);
        n := n + 1;
      }
      ClosedAll(x, state, keys);
    }

    // ---- batches and phases ----

    /** Runs the batch engine over all books, whatever the phase. Every held order
        gets the result of its instrument's batch. */
    method RunBatchEngine() returns (results: map<InstrumentId, Results>, ghost draws: Draws)
      requires Valid()
      modifies this`state, this`roster, this`repr, engine, repr
      ensures Valid() && fresh(repr - old(repr))
      ensures old(state).Ready() && DrawsOk(old(state), draws) && Drawn(old(state), draws)
      ensures state == RunBatches(old(state), draws)
      ensures results.Keys == old(state).pending.Keys && AllReported(old(state), draws, results)
    {
      hide Inv, BooksAre, PoolsAre, RosterIs, Owned, LevelsIn, LiveIn, PooledIn, RunBatches, DrawsOk, AllReported;
      ghost var x, more := state, {};
      results, draws, more := RunPools(engine, books, x, roster, repr);
      RunBatchesKeepsInv(x, draws);
      BatchedFields(x, draws);
      OutsideMore(repr, {}, more);
      NoPools(RunBatches(x, draws).pending, roster);
      Enter(RunBatches(x, draws), roster, repr + more);
    }

    method ExecuteBatch() returns (results: map<InstrumentId, Results>, ghost draws: Draws)
      requires Valid()
      modifies this`state, this`roster, this`repr, engine, repr
      ensures Valid() && fresh(repr - old(repr))
      ensures Enabled(old(state), Exchanges.ExecuteBatch(draws))
              && state == Step(old(state), Exchanges.ExecuteBatch(draws)).0
      ensures old(state).state.style.BatchStyle? ==>
                old(state).Ready() && Drawn(old(state), draws) && AllReported(old(state), draws, results)
      ensures !old(state).state.style.BatchStyle? ==> results == map[]
    {
      hide Core, Inv, DrawsOk, RunBatches, AllReported;
      CoreFacts();
      InvReady(state);
      results, draws := map[], map[];
      if phase.style.BatchStyle? {
        results, draws := RunBatchEngine();
      }
    }

    /** The handler forgets the last phase, so the next poll does nothing. */
    method ResetHandler()
      requires Valid()
      modifies handler, this`state, this`roster, this`repr
      ensures Valid() && Enabled(old(state), Reset) && state == Step(old(state), Reset).0
    {
      hide Inv, BooksAre, PoolsAre, RosterIs, Owned, LevelsIn, LiveIn, PooledIn;
      ghost var x := state;
      InvReady(x);
      RelabelledKeepsInv(x, phase, None);
      handler.Reset();
      AllStay(Scene(books, engine.pendingOrders, x, roster, repr));
      Enter(x.(last := None), roster, repr);
    }

    /** The phase the venue goes by, and the one the handler has heard, change. */
    method Hear(now: PhaseState) returns (action: Option<Action>)
      requires Valid()
      modifies handler, this`phase, this`state, this`roster, this`repr
      ensures Valid() && repr == old(repr) && state == Polled(old(state), now)
      ensures action == Transition(old(state).last, now.phase)
    {
      hide Inv, BooksAre, PoolsAre, RosterIs, Owned, LevelsIn, LiveIn, PooledIn;
      ghost var x := state;
      RelabelledKeepsInv(x, now, Some(now.phase));
      phase := now;
      var _, act := handler.CheckTransition(now.phase);
      action := act;
      AllStay(Scene(books, engine.pendingOrders, x, roster, repr));
      Enter(Polled(x, now), roster, repr);
    }

    /** Polls the phase: the cached state first, then what the transition asks for. */
    method CheckPhaseTransitions(now: PhaseState) returns (ghost draws: Draws)
      requires Valid()
      modifies this, handler, engine, repr
      ensures Valid() && fresh(repr - old(repr))
      ensures Enabled(old(state), Poll(now, draws)) && state == Step(old(state), Poll(now, draws)).0
    {
      hide Core, Inv, DrawsOk, RunBatches, CloseMarket, AllReported;
      ghost var x := state;
      CoreFacts();
      InvReady(x);
      var action := Hear(now);
      draws := map[];
      match action
      case None =>
      case Some(Auction) =>
        var _, drawn := RunBatchEngine();
        draws := drawn;
        SameDraws(Polled(x, now), x, draws);
      case Some(Close) =>
        CancelAllOrders();
    }
  }
}
