/** Every step keeps the exchange's invariant. */
module ExchangeSteps {
  import opened Orders
  import opened PriceTime
  import opened BookLaws
  import opened BatchAuction
  import opened BatchAccounts
  import opened Registry
  import opened Exchanges

  /** Ids the exchange does not use are in none of its books. */
  lemma {:induction false} UnusedId(x: Exchange, id: OrderId)
    requires Inv(x) && id !in x.ids
    ensures forall i :: i in x.books ==> !InBook(x.books[i], id)
    ensures forall i :: i in x.pending ==> !HasId(x.pending[i], id)
  {
  }

  /** Putting a new order on the roll under an unused id disturbs nothing. */
  lemma {:induction false} AcceptedKeepsInv(x: Exchange, o: OrderState)
    requires Inv(x) && o.Fresh() && o.id !in x.ids && o.instrument in x.books
    ensures Inv(Accepted(x, o))
  {
    hide InBook, BookOk, Agrees, OrderState.WellFormed, OrderState.Fresh;
    var y := Accepted(x, o);
    UnusedId(x, o.id);
    forall i | i in y.books
      ensures BookInv(y, i)
    {
      assert BookInv(x, i);
      AgreesElsewhere(x.books[i], i, x.roll, y.roll);
    }
    forall i | i in y.pending
      ensures HeldOk(y, i)
    {
      assert HeldOk(x, i);
      forall k | 0 <= k < |x.pending[i]|
        ensures x.pending[i][k].id != o.id
      {
        assert !HasId(x.pending[i], o.id);
      }
    }
    FreshIsWell(o);
  }

  lemma {:induction false} FreshIsWell(o: OrderState)
    requires o.Fresh()
    ensures o.WellFormed() && o.remaining == o.quantity > 0
  {
  }

  lemma {:induction false} HoldKeepsInv(x: Exchange, o: OrderState)
    requires Inv(x) && o.Fresh() && o.id !in x.ids && o.instrument in x.books
    ensures Inv(Hold(x, o).0)
  {
    hide InBook, BookOk, Agrees, OrderState.WellFormed, OrderState.Fresh, RollOk;
    var y, z := Accepted(x, o), Hold(x, o).0;
    AcceptedKeepsInv(x, o);
    UnusedId(x, o.id);
    forall i | i in z.books
      ensures BookInv(z, i)
    {
      assert BookInv(y, i);
    }
    forall i | i in z.pending
      ensures HeldOk(z, i)
    {
      if i in y.pending {
        assert HeldOk(y, i);
      }
      if i == o.instrument {
        assert !HasId(x.Waiting(i), o.id) by {
          assert i in x.pending ==> !HasId(x.pending[i], o.id);
        }
      }
    }
  }

  /** An order not concerned by an addition: it keeps its place and quantity. */
  lemma {:induction false} AddSparesHeld(y: Exchange, o: OrderState, xs: seq<OrderState>)
    requires Inv(y) && o.instrument in y.books && o.WellFormed() && !InBook(y.books[o.instrument], o.id)
    requires forall k :: 0 <= k < |xs| ==> xs[k].id != o.id && !InBook(y.books[o.instrument], xs[k].id)
    requires Current(xs, y.roll)
    ensures y.Ready()
    ensures var a := Add(y.books[o.instrument], o);
            && Current(xs, Touched(y.roll, o.instrument, a.trades))
            && forall k :: 0 <= k < |xs| ==> !InBook(a.book, xs[k].id)
  {
    hide InBook, Add, Agrees, Traded;
    InvReady(y);
    var i := o.instrument;
    BookInvOk(y, i);
    forall k | 0 <= k < |xs|
      ensures Traded(Add(y.books[i], o).trades, xs[k].id) == 0 && !InBook(Add(y.books[i], o).book, xs[k].id)
    {
      AddOtherIds(y.books[i], o, i, xs[k].id);
    }
  }

  lemma {:induction false} BookInvOk(x: Exchange, i: InstrumentId)
    requires Inv(x) && i in x.books
    ensures Agrees(x.books[i], i, x.roll) && BookOk(x.books[i], i) && RollOk(x.roll)
    ensures forall id :: InBook(x.books[i], id) ==> id in x.ids
  {
  }

  lemma {:induction false} MatchKeepsInv(x: Exchange, o: OrderState)
    requires Inv(x) && o.Fresh() && o.id !in x.ids && o.instrument in x.books
    ensures x.Ready() && !InBook(x.books[o.instrument], o.id)
    ensures Inv(MatchNow(x, o).0)
  {
    hide InBook, BookOk, Agrees, Add, Touched, Current, RollOk, OrderState.Fresh, OrderState.WellFormed;
    InvReady(x);
    UnusedId(x, o.id);
    AcceptedKeepsInv(x, o);
    FreshIsWell(o);
    var y, z, i := Accepted(x, o), MatchNow(x, o).0, o.instrument;
    var a := Add(x.books[i], o);
    BookInvOk(y, i);
    AddAgrees(y.books[i], o, i, y.roll);
    TouchedKeys(y.roll, i, a.trades);
    forall j | j in z.books
      ensures BookInv(z, j)
    {
      BookInvOk(y, j);
      if j == i {
        forall id | InBook(a.book, id) && id != o.id
          ensures id in z.ids
        {
          AddOtherIds(y.books[i], o, i, id);
        }
      } else {
        AgreesElsewhere(y.books[j], j, y.roll, z.roll);
      }
    }
    forall j | j in z.pending
      ensures HeldOk(z, j)
    {
      assert HeldOk(y, j) && HeldOk(x, j);
      var xs := x.pending[j];
      forall k | 0 <= k < |xs|
        ensures xs[k].id != o.id && !InBook(y.books[i], xs[k].id)
      {
        HeldNowhere(x, j, k, i);
      }
      AddSparesHeld(y, o, xs);
    }
  }

  lemma {:induction false} TouchedKeys(roll: Roll, i: InstrumentId, ts: seq<Trade>)
    ensures Touched(roll, i, ts).Keys == roll.Keys
    ensures forall id :: id in roll && roll[id].instrument != i ==> Touched(roll, i, ts)[id] == roll[id]
    ensures forall id :: id in roll ==> Touched(roll, i, ts)[id].instrument == roll[id].instrument
  {
  }

  lemma {:induction false} HeldNowhere(x: Exchange, j: InstrumentId, k: nat, i: InstrumentId)
    requires Inv(x) && j in x.pending && k < |x.pending[j]| && i in x.books
    ensures x.pending[j][k].id in x.ids && !InBook(x.books[i], x.pending[j][k].id)
  {
    hide InBook, BookOk;
    var id := x.pending[j][k].id;
    assert HeldOk(x, j);
    IdsInOnePlace(x, id);
    assert HasId(x.pending[j], id);
    assert x.IsHeld(id) && !x.Rests(id);
  }

  // ---- batches ----

  /** In every reachable state a batch can be filed: the duplicate-id error of
      adding to a book is out of reach. */
  lemma {:induction false} HeldIsReady(x: Exchange, draws: Draws, i: InstrumentId)
    requires Inv(x) && DrawsOk(x, draws) && i in x.pending && i in x.books
    ensures i in draws && BatchReady(x.books[i], draws[i].buys, draws[i].sells, i)
    ensures Current(draws[i].buys, x.roll) && Current(draws[i].sells, x.roll)
  {
    hide InBook, BookOk, Arranged, UniqueIds;
    BookInvOk(x, i);
    var d, xs := draws[i], x.pending[i];
    assert HeldOk(x, i) && DrawOk(d, xs);
    forall s | s in d.buys || s in d.sells
      ensures s.Fresh() && s.instrument == i && !InBook(x.books[i], s.id) && s.id in x.roll && x.roll[s.id] == s
    {
      assert s in xs;
      var k :| 0 <= k < |xs| && xs[k] == s;
    }
    forall m, n | 0 <= m < |d.buys| && 0 <= n < |d.sells|
      ensures d.buys[m].id != d.sells[n].id
    {
      assert d.buys[m] in d.buys && d.sells[n] in d.sells;
    }
  }

  lemma {:induction false} DrawsDrawn(x: Exchange, draws: Draws)
    requires DrawsOk(x, draws)
    ensures Drawn(x, draws)
  {
  }

  /** The book of one instrument and its orders after the batch. */
  lemma {:induction false} BatchedAgrees(x: Exchange, draws: Draws, i: InstrumentId)
    requires Inv(x) && DrawsOk(x, draws) && i in x.pending && i in x.books
    ensures x.Ready() && Drawn(x, draws)
    ensures var out, roll' := OutcomeOf(x, draws, i), RunBatches(x, draws).roll;
            && Agrees(out.book, i, roll') && AllLegal(out.NewTrades(), roll', i)
            && out.book.log == x.books[i].log + out.NewTrades()
            && (forall id :: id in x.roll && x.roll[id].instrument == i ==> roll'[id].WellFormed())
            && (forall id :: InBook(out.book, id) ==> id in x.ids)
  {
    hide InBook, BookOk, Agrees, RunBatch, BatchReady, Current, RollOk, OrderState.WellFormed, LegalIn, DrawsOk,
      Traded;
    InvReady(x);
    DrawsDrawn(x, draws);
    BookInvOk(x, i);
    HeldIsReady(x, draws, i);
    var d := draws[i];
    var out, roll' := OutcomeOf(x, draws, i), RunBatches(x, draws).roll;
    var ts := out.NewTrades();
    BatchAgrees(x.books[i], d.buys, d.sells, i, x.roll);
    forall id | id in x.roll && x.roll[id].instrument == i
      ensures roll'[id] == Touched(x.roll, i, ts)[id] && Touched(x.roll, i, ts)[id].WellFormed()
    {
      RollWell(Touched(x.roll, i, ts), id);
    }
    AgreesElsewhere(out.book, i, Touched(x.roll, i, ts), roll');
    BatchedTerms(x, draws);
    LegalElsewhere(ts, Touched(x.roll, i, ts), roll', i);
    forall id | InBook(out.book, id)
      ensures id in x.ids
    {
      BatchKeepsIds(x, draws, i, id);
    }
  }

  lemma {:induction false} BatchedTerms(x: Exchange, draws: Draws)
    requires x.Ready() && Drawn(x, draws)
    ensures RunBatches(x, draws).roll.Keys == x.roll.Keys
    ensures forall id :: id in x.roll ==> SameTerms(x.roll[id], RunBatches(x, draws).roll[id])
  {
  }

  /** What the batches change, instrument by instrument and order by order. */
  lemma {:induction false} BatchedFields(x: Exchange, draws: Draws)
    requires x.Ready() && Drawn(x, draws)
    ensures var z := RunBatches(x, draws);
            && z.books.Keys == x.books.Keys && z.roll.Keys == x.roll.Keys
            && z == x.(books := z.books, pending := map[], roll := z.roll)
            && (forall i :: i in x.books ==>
                  z.books[i] == if i in x.pending then OutcomeOf(x, draws, i).book else x.books[i])
            && forall id :: id in x.roll ==>
                 var o := x.roll[id];
                 z.roll[id] == if o.instrument in x.pending && o.instrument in x.books
                               then o.Filled(Traded(OutcomeOf(x, draws, o.instrument).NewTrades(), o.id)) else o
  {
    hide OutcomeOf, Traded;
  }

  lemma {:induction false} RollWell(roll: Roll, id: OrderId)
    requires RollOk(roll) && id in roll
    ensures roll[id].WellFormed() && roll[id].id == id
  {
  }

  lemma {:induction false} LegalElsewhere(ts: seq<Trade>, roll: Roll, roll': Roll, i: InstrumentId)
    requires AllLegal(ts, roll, i)
    requires forall id :: id in roll ==> id in roll' && SameTerms(roll[id], roll'[id])
    ensures AllLegal(ts, roll', i)
  {
  }

  lemma {:induction false} BatchKeepsIds(x: Exchange, draws: Draws, i: InstrumentId, id: OrderId)
    requires Inv(x) && DrawsOk(x, draws) && i in x.pending && i in x.books
    requires x.Ready() && Drawn(x, draws) && InBook(OutcomeOf(x, draws, i).book, id)
    ensures id in x.ids
  {
    hide InBook, BookOk, RunBatch, BatchReady, RollOk, Traded, Left;
    var d := draws[i];
    var out := OutcomeOf(x, draws, i);
    BookInvOk(x, i);
    HeldIsReady(x, draws, i);
    if HasId(d.buys, id) || HasId(d.sells, id) {
      var s := BatchOrder(d.buys, d.sells, x.roll, id);
      assert HeldOk(x, i) && DrawOk(d, x.pending[i]);
      var k :| 0 <= k < |x.pending[i]| && x.pending[i][k] == s;
    } else {
      BatchConserves(x.books[i], d.buys, d.sells, i, id);
      BatchBook(x.books[i], d.buys, d.sells, i);
      InBookLeft(x.books[i], i, id);
      InBookLeft(out.book, i, id);
    }
  }

  lemma {:induction false} RunBatchesKeepsInv(x: Exchange, draws: Draws)
    requires Inv(x) && DrawsOk(x, draws)
    ensures x.Ready() && Drawn(x, draws) && Inv(RunBatches(x, draws))
  {
    hide InBook, BookOk, Agrees, RunBatch, OrderState.WellFormed, DrawsOk, AllLegal, Batched;
    InvReady(x);
    DrawsDrawn(x, draws);
    BatchedTerms(x, draws);
    var z := RunBatches(x, draws);
    forall i | i in z.books
      ensures BookInv(z, i)
    {
      BookInvOk(x, i);
      if i in x.pending {
        BatchedAgrees(x, draws, i);
      } else {
        forall id | id in x.roll && x.roll[id].instrument == i
          ensures z.roll[id] == x.roll[id]
        {
          NotBatched(x, draws, id);
        }
        AgreesElsewhere(x.books[i], i, x.roll, z.roll);
      }
    }
    forall id | id in z.roll
      ensures z.roll[id].id == id && z.roll[id].WellFormed()
    {
      RollWell(x.roll, id);
      var i := x.roll[id].instrument;
      if i in x.pending {
        BatchedAgrees(x, draws, i);
      } else {
        NotBatched(x, draws, id);
      }
    }
  }

  lemma {:induction false} NotBatched(x: Exchange, draws: Draws, id: OrderId)
    requires x.Ready() && Drawn(x, draws) && id in x.roll && x.roll[id].instrument !in x.pending
    ensures RunBatches(x, draws).roll[id] == x.roll[id]
  {
  }

  // ---- cancelling and closing ----

  lemma {:induction false} FirstFinds(xs: seq<OrderState>, id: OrderId)
    ensures First(xs, id).Some? <==> HasId(xs, id)
    ensures First(xs, id).Some? ==> First(xs, id).value in xs && First(xs, id).value.id == id
  {
    if xs == [] {
    } else {
      FirstFinds(xs[1..], id);
      if HasId(xs, id) && xs[0].id != id {
        var k :| 0 <= k < |xs| && xs[k].id == id;
        assert xs[1..][k - 1].id == id;
      }
    }
  }

  /** A book finds exactly the ids that rest in it. */
  lemma {:induction false} GetOrderFinds(b: Book, id: OrderId)
    ensures GetOrder(b, id).Some? <==> InBook(b, id)
    ensures GetOrder(b, id).Some? ==>
              GetOrder(b, id).value.id == id && (GetOrder(b, id).value in b.bids || GetOrder(b, id).value in b.asks)
  {
    FirstFinds(b.bids, id);
    FirstFinds(b.asks, id);
  }

  lemma {:induction false} WithdrawnKeepsInv(x: Exchange, i: InstrumentId, id: OrderId)
    requires Inv(x) && i in x.books && InBook(x.books[i], id)
    ensures Inv(Withdrawn(x, i, id))
  {
    hide InBook, BookOk, Agrees, RollOk, Cancel, Current;
    var z := Withdrawn(x, i, id);
    BookInvOk(x, i);
    CancelAgrees(x.books[i], i, x.roll, id);
    IdsInOnePlace(x, id);
    assert x.Rests(id);
    forall j | j in z.books
      ensures BookInv(z, j)
    {
      BookInvOk(x, j);
    }
    forall j | j in z.pending
      ensures HeldOk(z, j)
    {
      assert HeldOk(x, j) && !HasId(x.pending[j], id);
    }
  }

  lemma {:induction false} CancelKeepsInv(x: Exchange, id: OrderId, trader: TeamId)
    requires Inv(x)
    ensures Inv(CancelRequest(x, id, trader).0)
  {
    hide InBook, GetOrder, Withdrawn, Inv;
    var z := CancelRequest(x, id, trader).0;
    if z != x {
      var i :| i in x.books && GetOrder(x.books[i], id).Some? && z == Withdrawn(x, i, id);
      GetOrderFinds(x.books[i], id);
      WithdrawnKeepsInv(x, i, id);
    }
  }

  lemma {:induction false} EmptiedAgrees(b: Book, i: InstrumentId, roll: Roll)
    ensures Agrees(b.(bids := [], asks := []), i, roll)
    ensures forall id :: !InBook(b.(bids := [], asks := []), id)
  {
  }

  lemma {:induction false} CloseKeepsInv(x: Exchange)
    requires Inv(x)
    ensures Inv(CloseMarket(x))
    ensures forall id :: !CloseMarket(x).Rests(id)
  {
    hide InBook, BookOk, Agrees, RollOk, Current;
    var z := CloseMarket(x);
    forall i | i in z.books
      ensures BookInv(z, i) && forall id :: !InBook(z.books[i], id)
    {
      EmptiedAgrees(x.books[i], i, x.roll);
    }
    forall i | i in z.pending
      ensures HeldOk(z, i)
    {
      assert HeldOk(x, i);
      forall k | 0 <= k < |x.pending[i]|
        ensures x.pending[i][k].id in z.ids
      {
        IdsInOnePlace(x, x.pending[i][k].id);
        assert HasId(x.pending[i], x.pending[i][k].id);
        assert x.IsHeld(x.pending[i][k].id);
      }
    }
  }

  // ---- every step ----

  lemma {:induction false} RelabelledKeepsInv(x: Exchange, state: PhaseState, last: Option<PhaseType>)
    requires Inv(x)
    ensures Inv(x.(state := state, last := last))
  {
  }

  lemma {:induction false} ListKeepsInv(x: Exchange, i: InstrumentId)
    requires Inv(x) && i !in x.books
    ensures Inv(x.(books := x.books[i := EMPTY_BOOK]))
  {
    hide InBook, BookOk, Agrees, RollOk, Current;
    var y := x.(books := x.books[i := EMPTY_BOOK]);
    EmptiedAgrees(EMPTY_BOOK, i, x.roll);
    forall j | j in y.books
      ensures BookInv(y, j)
    {
      assert j != i ==> BookInv(x, j);
    }
    forall j | j in y.pending
      ensures HeldOk(y, j)
    {
      assert HeldOk(x, j);
    }
  }

  /** The invariant is kept by every step the exchange can take. */
  lemma {:induction false} StepKeepsInv(x: Exchange, e: Event)
    requires Inv(x) && Enabled(x, e)
    ensures Inv(Step(x, e).0)
  {
    hide Inv, SubmitOrder, CancelRequest, RunBatches, CloseMarket, DrawsOk, Accepted, Hold, MatchNow;
    InvReady(x);
    match e
    case List(i) =>
      if i !in x.books {
        ListKeepsInv(x, i);
      }
    case Submit(o) =>
      SubmitKeepsInv(x, o);
    case CancelOrder(id, trader) =>
      CancelKeepsInv(x, id, trader);
    case ExecuteBatch(draws) =>
      if x.state.style.BatchStyle? {
        RunBatchesKeepsInv(x, draws);
      }
    case Poll(now, draws) =>
      RelabelledKeepsInv(x, now, Some(now.phase));
      match Transition(x.last, now.phase) {
        case None =>
        case Some(Auction) =>
          SameDraws(x, Polled(x, now), draws);
          RunBatchesKeepsInv(Polled(x, now), draws);
        case Some(Close) =>
          CloseKeepsInv(Polled(x, now));
      }
    case Reset =>
      RelabelledKeepsInv(x, x.state, None);
  }

  lemma {:induction false} SameDraws(x: Exchange, y: Exchange, draws: Draws)
    requires DrawsOk(x, draws) && y.books == x.books && y.pending == x.pending
    ensures DrawsOk(y, draws)
  {
  }

  lemma {:induction false} SubmitKeepsInv(x: Exchange, o: OrderState)
    requires Inv(x) && x.Ready() && o.Fresh()
    ensures Inv(SubmitOrder(x, o).0)
  {
    hide Inv, Hold, MatchNow;
    if x.state.submission && o.instrument in x.books && o.id !in x.ids {
      if x.state.Holds() {
        HoldKeepsInv(x, o);
      } else {
        MatchKeepsInv(x, o);
      }
    }
  }

  // ---- what a submission comes to ----

  /** A submission in any valid state: refused, held back unchanged when the phase
      matches in batches or not at all, or matched against its own book at once. */
  lemma {:induction false} SubmissionOutcome(x: Exchange, o: OrderState)
    requires Inv(x) && x.Ready() && o.Fresh()
    ensures var ((z, r), s, i) := (SubmitOrder(x, o), x.state, o.instrument);
            && (!s.submission ==> z == x && r == Placed(OrderResult(o.id, Rejected, [], o.quantity)))
            && (s.submission && i !in x.books ==> z == x && r == Failed(UnknownInstrument))
            && (s.submission && i in x.books && o.id in x.ids ==> z == x && r == Failed(DuplicateOrderId))
            && (s.submission && i in x.books && o.id !in x.ids ==>
                  && z.ids == x.ids + {o.id}
                  && if s.style.BatchStyle? || !s.matching
                     then
                       && r == Placed(OrderResult(o.id, PendingNew, [], o.quantity)) && z.books == x.books
                       && z.pending == x.pending[i := (if i in x.pending then x.pending[i] else []) + [o]]
                     else
                       var a := Add(x.books[i], o);
                       && r == Placed(ResultOf(a.order, a.trades)) && z.books == x.books[i := a.book]
                       && z.pending == x.pending)
  {
    hide InBook, Add, Touched, Inv;
    if o.id !in x.ids {
      UnusedId(x, o.id);
    }
  }
}
