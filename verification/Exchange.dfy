/** The exchange as a state machine: order books and held orders of every listed
    instrument, one set of order ids in use, and the phase that says which engine
    an order goes to. */
module Exchanges {
  import opened Orders
  import opened PriceTime
  import opened BatchAuction
  import opened BatchAccounts
  import opened Registry

  datatype PhaseType = PreOpen | OpeningAuction | Continuous | Closed

  datatype Style = NoExecution | ContinuousStyle | BatchStyle

  /** What the phase manager reports: the phase and what it allows. */
  datatype PhaseState = PhaseState(phase: PhaseType, submission: bool, cancellation: bool, matching: bool,
                                   style: Style) {
    /** Orders are held for a batch instead of being matched at once. */
    predicate Holds() {
      style.BatchStyle? || !matching
    }
  }

  datatype Action = Auction | Close

  /** The dispatch table of phase transitions; nothing happens without a baseline. */
  function Transition(last: Option<PhaseType>, now: PhaseType): Option<Action> {
    if last == Some(PreOpen) && now == OpeningAuction then Some(Auction)
    else if last == Some(Continuous) && now == Closed then Some(Close)
    else None
  }

  type Draws = map<InstrumentId, Draw>

  /** `roll` holds every order ever accepted, as it now is. */
  datatype Exchange = Exchange(
    books: map<InstrumentId, Book>, pending: map<InstrumentId, seq<OrderState>>, ids: set<OrderId>, roll: Roll,
    state: PhaseState, last: Option<PhaseType>)
  {
    function Waiting(i: InstrumentId): seq<OrderState> {
      if i in pending then pending[i] else []
    }

    ghost predicate Rests(id: OrderId) {
      exists i :: i in books && InBook(books[i], id)
    }

    ghost predicate IsHeld(id: OrderId) {
      exists i :: i in pending && HasId(pending[i], id)
    }

    predicate Ready() {
      forall i :: i in books ==> Priced(books[i])
    }
  }

  function Opened(state: PhaseState, baseline: PhaseType): Exchange {
    Exchange(map[], map[], {}, map[], state, Some(baseline))
  }

  datatype Event =
    | List(instrument: InstrumentId)
    | Submit(order: OrderState)
    | CancelOrder(id: OrderId, trader: TeamId)
    | ExecuteBatch(draws: Draws)
    | Poll(now: PhaseState, draws: Draws)  // check_phase_transitions
    | Reset                                // the transition handler forgets its baseline

  datatype Reply = Placed(result: OrderResult) | Cancelled(ok: bool) | Failed(error: Error) | Silent

  // ---- the operations ----

  function Accepted(x: Exchange, o: OrderState): Exchange {
    x.(ids := x.ids + {o.id}, roll := x.roll[o.id := o])
  }

  /** The matching half of a submission. The book itself refuses an id it holds. */
  ghost function MatchNow(x: Exchange, o: OrderState): (Exchange, Reply)
    requires x.Ready() && o.instrument in x.books
  {
    var i := o.instrument;
    if InBook(x.books[i], o.id) then (x.(ids := x.ids + {o.id}), Failed(DuplicateOrderId))
    else
      var a := Add(x.books[i], o);
      var y := Accepted(x, o);
      (y.(books := x.books[i := a.book], roll := Touched(y.roll, i, a.trades)), Placed(ResultOf(a.order, a.trades)))
  }

  function Hold(x: Exchange, o: OrderState): (Exchange, Reply) {
    (Accepted(x, o).(pending := x.pending[o.instrument := x.Waiting(o.instrument) + [o]]),
     Placed(OrderResult(o.id, PendingNew, [], o.quantity)))
  }

  ghost function SubmitOrder(x: Exchange, o: OrderState): (Exchange, Reply)
    requires x.Ready()
  {
    if !x.state.submission then (x, Placed(OrderResult(o.id, Rejected, [], o.quantity)))
    else if o.instrument !in x.books then (x, Failed(UnknownInstrument))
    else if o.id in x.ids then (x, Failed(DuplicateOrderId))
    else if x.state.Holds() then Hold(x, o)
    else MatchNow(x, o)
  }

  function First(xs: seq<OrderState>, id: OrderId): Option<OrderState> {
    if xs == [] then None else if xs[0].id == id then Some(xs[0]) else First(xs[1..], id)
  }

  /** The order a book returns for an id. */
  function GetOrder(b: Book, id: OrderId): Option<OrderState> {
    if First(b.bids, id).Some? then First(b.bids, id) else First(b.asks, id)
  }

  /** An order is taken out of its book, and its id released. */
  function Withdrawn(x: Exchange, i: InstrumentId, id: OrderId): Exchange
    requires i in x.books
  {
    x.(books := x.books[i := Cancel(x.books[i], id)], ids := x.ids - {id})
  }

  ghost function CancelRequest(x: Exchange, id: OrderId, trader: TeamId): (Exchange, Reply) {
    if !x.state.cancellation || id !in x.ids then (x, Cancelled(false))
    else if i :| i in x.books && GetOrder(x.books[i], id).Some? then
      if GetOrder(x.books[i], id).value.trader != trader then (x, Failed(NotOwner))
      else (Withdrawn(x, i, id), Cancelled(true))
    else (x, Cancelled(false))
  }

  /** A possible outcome of sorting held orders with a random draw among equal prices. */
  ghost predicate DrawOk(d: Draw, xs: seq<OrderState>) {
    && Arranged(d.buys, true) && Arranged(d.sells, false)
    && (forall k :: 0 <= k < |d.buys| ==> d.buys[k].side == Buy)
    && (forall k :: 0 <= k < |d.sells| ==> d.sells[k].side == Sell)
    && UniqueIds(d.buys) && UniqueIds(d.sells)
    && forall s :: s in xs <==> s in d.buys || s in d.sells
  }

  ghost predicate DrawsOk(x: Exchange, draws: Draws) {
    forall i :: i in x.pending && i in x.books ==> i in draws && DrawOk(draws[i], x.pending[i])
  }

  predicate Drawn(x: Exchange, draws: Draws) {
    forall i :: i in x.pending && i in x.books ==> i in draws
  }

  /** What the batch of one instrument does, if one is run. */
  function OutcomeOf(x: Exchange, draws: Draws, i: InstrumentId): Outcome
    requires x.Ready() && Drawn(x, draws) && i in x.pending && i in x.books
  {
    RunBatch(x.books[i], draws[i].buys, draws[i].sells)
  }

  function Batched(x: Exchange, draws: Draws, o: OrderState): OrderState
    requires x.Ready() && Drawn(x, draws)
  {
    var i := o.instrument;
    if i in x.pending && i in x.books then OutcomeOf(x, draws, i).Final(o) else o
  }

  /** The batch engine runs every held order, and holds none any more. */
  function RunBatches(x: Exchange, draws: Draws): Exchange
    requires x.Ready() && Drawn(x, draws)
  {
    x.(books := map i | i in x.books :: if i in x.pending then OutcomeOf(x, draws, i).book else x.books[i],
       pending := map[],
       roll := map id | id in x.roll :: Batched(x, draws, x.roll[id]))
  }

  /** Every resting order is cancelled. */
  ghost function CloseMarket(x: Exchange): Exchange {
    x.(books := map i | i in x.books :: x.books[i].(bids := [], asks := []),
       ids := set id | id in x.ids && !x.Rests(id))
  }

  function Polled(x: Exchange, now: PhaseState): Exchange {
    x.(state := now, last := Some(now.phase))
  }

  /** The phase is polled: the cached state changes first, then the transition acts. */
  ghost function PollPhase(x: Exchange, now: PhaseState, draws: Draws): Exchange
    requires x.Ready() && (Transition(x.last, now.phase) == Some(Auction) ==> Drawn(x, draws))
  {
    match Transition(x.last, now.phase)
    case None => Polled(x, now)
    case Some(Auction) => RunBatches(Polled(x, now), draws)
    case Some(Close) => CloseMarket(Polled(x, now))
  }

  /** When a step can happen: orders are created fresh, and the draws of a batch
      are sortings of what is held. */
  ghost predicate Enabled(x: Exchange, e: Event) {
    && x.Ready()
    && match e
       case Submit(o) => o.Fresh()
       case ExecuteBatch(draws) => x.state.style.BatchStyle? ==> DrawsOk(x, draws)
       case Poll(now, draws) => Transition(x.last, now.phase) == Some(Auction) ==> DrawsOk(x, draws)
       case _ => true
  }

  ghost function Step(x: Exchange, e: Event): (Exchange, Reply)
    requires Enabled(x, e)
  {
    match e
    case List(i) => (if i in x.books then x else x.(books := x.books[i := EMPTY_BOOK]), Silent)
    case Submit(o) => SubmitOrder(x, o)
    case CancelOrder(id, trader) => CancelRequest(x, id, trader)
    case ExecuteBatch(draws) => (if x.state.style.BatchStyle? then RunBatches(x, draws) else x, Silent)
    case Poll(now, draws) => (PollPhase(x, now, draws), Silent)
    case Reset => (x.(last := None), Silent)
  }

  /** The action a step takes because the polled phase changed. */
  function ActionOf(x: Exchange, e: Event): Option<Action> {
    if e.Poll? then Transition(x.last, e.now.phase) else None
  }

  /** Whether a step runs the batch engine, and with what draws. */
  ghost predicate RunsBatch(x: Exchange, e: Event) {
    (e.ExecuteBatch? && x.state.style.BatchStyle?) || ActionOf(x, e) == Some(Auction)
  }

  // ---- the invariant ----

  ghost predicate HeldOk(x: Exchange, i: InstrumentId)
    requires i in x.pending && i in x.books
  {
    var xs := x.pending[i];
    && UniqueIds(xs) && Current(xs, x.roll)
    && forall k :: 0 <= k < |xs| ==>
         xs[k].Fresh() && xs[k].instrument == i && xs[k].id in x.ids && !InBook(x.books[i], xs[k].id)
  }

  ghost predicate BookInv(x: Exchange, i: InstrumentId)
    requires i in x.books
  {
    Agrees(x.books[i], i, x.roll) && forall id :: InBook(x.books[i], id) ==> id in x.ids
  }

  /** Every book is valid and agrees with the roll, every held order is new to its
      book, and every id in use is on the roll. */
  ghost predicate Inv(x: Exchange) {
    && (forall i :: i in x.books ==> BookInv(x, i))
    && (forall i :: i in x.pending ==> i in x.books && HeldOk(x, i))
    && RollOk(x.roll) && x.ids <= x.roll.Keys
    && forall id :: id in x.roll ==> x.roll[id].instrument in x.books
  }

  lemma {:induction false} InvReady(x: Exchange)
    requires Inv(x)
    ensures x.Ready()
  {
  }

  /** No id is in two places: two books, two held lists, or a book and a held list. */
  lemma {:induction false} IdsInOnePlace(x: Exchange, id: OrderId)
    requires Inv(x)
    ensures forall i, j :: i in x.books && j in x.books && InBook(x.books[i], id) && InBook(x.books[j], id) ==> i == j
    ensures forall i, j ::
              i in x.pending && j in x.pending && HasId(x.pending[i], id) && HasId(x.pending[j], id) ==> i == j
    ensures x.Rests(id) || x.IsHeld(id) ==> id in x.ids
    ensures !(x.Rests(id) && x.IsHeld(id))
  {
    hide InBook, BookOk, RollOk;
    forall i | i in x.books && InBook(x.books[i], id)
      ensures id in x.ids && id in x.roll && x.roll[id].instrument == i
    {
      assert BookInv(x, i);
      InBookInstrument(x.books[i], i, x.roll, id);
    }
    forall i | i in x.pending && HasId(x.pending[i], id)
      ensures id in x.ids && id in x.roll && x.roll[id].instrument == i && !InBook(x.books[i], id)
    {
      assert HeldOk(x, i);
    }
  }

  lemma {:induction false} InvInitial(state: PhaseState, baseline: PhaseType)
    ensures Inv(Opened(state, baseline))
  {
  }
}
