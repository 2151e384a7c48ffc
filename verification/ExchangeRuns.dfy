/** Whole runs of the exchange: what holds in every state any sequence of
    requests, batches and phase polls can reach. */
module ExchangeRuns {
  import opened Orders
  import opened PriceTime
  import opened BatchAccounts
  import opened Registry
  import opened Exchanges
  import opened ExchangeSteps
  import opened ExchangeLogs
  import opened ExchangeLaws

  /** States and the events between them, from a newly opened exchange. */
  ghost predicate IsRun(xs: seq<Exchange>, es: seq<Event>) {
    && |xs| == |es| + 1
    && (exists state, baseline :: xs[0] == Opened(state, baseline))
    && forall k :: 0 <= k < |es| ==> Enabled(xs[k], es[k]) && xs[k + 1] == Step(xs[k], es[k]).0
  }

  lemma {:induction false} RunKeepsInv(xs: seq<Exchange>, es: seq<Event>, k: nat)
    requires IsRun(xs, es) && k <= |es|
    ensures Inv(xs[k])
  {
    hide Inv, Enabled, Step;
    if k == 0 {
      var state, baseline :| xs[0] == Opened(state, baseline);
      InvInitial(state, baseline);
    } else {
      RunKeepsInv(xs, es, k - 1);
      StepKeepsInv(xs[k - 1], es[k - 1]);
    }
  }

  /** In every state of every run, each id in use is in at most one book or held
      list, and once there; only ids in use are. */
  lemma {:induction false} RunKeepsIdsApart(xs: seq<Exchange>, es: seq<Event>, k: nat, id: OrderId)
    requires IsRun(xs, es) && k <= |es|
    ensures var x := xs[k];
            && (x.Rests(id) || x.IsHeld(id) ==> id in x.ids)
            && !(x.Rests(id) && x.IsHeld(id))
            && (forall i, j ::
                  i in x.books && j in x.books && InBook(x.books[i], id) && InBook(x.books[j], id) ==> i == j)
            && (forall i, j ::
                  i in x.pending && j in x.pending && HasId(x.pending[i], id) && HasId(x.pending[j], id) ==> i == j)
            && (forall i :: i in x.pending ==> UniqueIds(x.pending[i]))
            && (forall i :: i in x.books ==> BookOk(x.books[i], i))
  {
    hide InBook, BookOk, HasId, Agrees;
    RunKeepsInv(xs, es, k);
    IdsInOnePlace(xs[k], id);
    forall i | i in xs[k].pending
      ensures UniqueIds(xs[k].pending[i])
    {
      assert HeldOk(xs[k], i);
    }
    forall i | i in xs[k].books
      ensures BookOk(xs[k].books[i], i)
    {
      BookInvOk(xs[k], i);
    }
  }

  /** What a submission comes to in any reachable state. The book's own duplicate
      check never fires: the reply is a duplicate error exactly when the exchange's
      id set has the id. */
  lemma {:induction false} RunReplies(xs: seq<Exchange>, es: seq<Event>, k: nat)
    requires IsRun(xs, es) && k < |es| && es[k].Submit?
    ensures var (x, o, z, r) := (xs[k], es[k].order, xs[k + 1], Step(xs[k], es[k]).1);
            var (s, i) := (x.state, o.instrument);
            && (r == Placed(OrderResult(o.id, Rejected, [], o.quantity)) <==> !s.submission)
            && (r == Failed(UnknownInstrument) <==> s.submission && i !in x.books)
            && (r == Failed(DuplicateOrderId) <==> s.submission && i in x.books && o.id in x.ids)
            && (!s.submission || i !in x.books || o.id in x.ids ==> z == x)
            && (s.submission && i in x.books && o.id !in x.ids ==>
                  && z.ids == x.ids + {o.id}
                  && if s.style.BatchStyle? || !s.matching
                     then
                       && r == Placed(OrderResult(o.id, PendingNew, [], o.quantity)) && z.books == x.books
                       && z.pending == x.pending[i := (if i in x.pending then x.pending[i] else []) + [o]]
                     else
                       && x.Ready()
                       && var a := Add(x.books[i], o);
                          && r == Placed(ResultOf(a.order, a.trades)) && z.books == x.books[i := a.book]
                          && z.pending == x.pending)
  {
    hide Inv, Add, InBook, SubmitOrder;
    RunKeepsInv(xs, es, k);
    SubmissionOutcome(xs[k], es[k].order);
  }

  /** Over any run, a submission that changes a book or reports a fill comes in a
      phase that takes orders and matches them continuously; and there nothing is
      held back. */
  lemma {:induction false} SubmitsTradeOnlyWhenMatching(xs: seq<Exchange>, es: seq<Event>, k: nat)
    requires IsRun(xs, es) && k < |es| && es[k].Submit?
    ensures var (x, z, r, s) := (xs[k], xs[k + 1], Step(xs[k], es[k]).1, xs[k].state);
            && (z.books != x.books || (exists i :: LogAt(z, i) != LogAt(x, i))
                || (r.Placed? && (r.result.fills != [] || r.result.status !in {PendingNew, Rejected})) ==>
                  s.submission && s.matching && !s.style.BatchStyle?)
            && (s.submission && s.matching && !s.style.BatchStyle? ==>
                  z.pending == x.pending && (r.Placed? ==> r.result.status !in {PendingNew, Rejected}))
            && (z.pending != x.pending <==> r.Placed? && r.result.status == PendingNew)
  {
    hide Enabled, Step, Add;
    RunReplies(xs, es, k);
    var x, z, i := xs[k], xs[k + 1], es[k].order.instrument;
    if i in z.pending {
      assert z.pending[i] == (if i in x.pending then x.pending[i] else []) + [es[k].order] ==> z.pending != x.pending;
    }
  }

  // ---- the accounts of any run ----

  /** Every trade in a log was added by one step of the run, and was then a trade
      between a buy and a sell of that instrument, within both limits. */
  lemma {:induction false} RunTradesLegal(xs: seq<Exchange>, es: seq<Event>, k: nat, i: InstrumentId, n: nat)
    returns (j: nat)
    requires IsRun(xs, es) && k <= |es| && n < |LogAt(xs[k], i)|
    ensures j < k && |LogAt(xs[j], i)| <= n < |LogAt(xs[j + 1], i)|
    ensures LegalIn(LogAt(xs[k], i)[n], xs[j + 1].roll, i)
  {
    hide Inv, Enabled, Step, LegalIn;
    if k == 0 {
      assert false;
    } else {
      RunKeepsInv(xs, es, k - 1);
      StepTradesLegal(xs[k - 1], es[k - 1], i);
      if n < |LogAt(xs[k - 1], i)| {
        j := RunTradesLegal(xs, es, k - 1, i, n);
      } else {
        j := k - 1;
      }
    }
  }

  /** What the log of its instrument had under an id when an order was last
      accepted under it. */
  function Carried(xs: seq<Exchange>, es: seq<Event>, k: nat, id: OrderId): int
    requires |xs| == |es| + 1 && k <= |es|
  {
    if k == 0 then 0
    else if Enters(xs[k - 1], es[k - 1], id) then Traded(LogAt(xs[k - 1], es[k - 1].order.instrument), id)
    else Carried(xs, es, k - 1, id)
  }

  /** Over any run, with whatever reuse of ids: the log has under every id exactly
      what was carried over beyond what the order lost, so conservation holds for
      an order if and only if nothing was. */
  lemma {:induction false} ConservedExactly(xs: seq<Exchange>, es: seq<Event>, k: nat, id: OrderId)
    requires IsRun(xs, es) && k <= |es| && id in xs[k].roll
    ensures xs[k].roll[id].instrument in xs[k].books
    ensures Surplus(xs[k], id) == Carried(xs, es, k, id)
    ensures Conserved(xs[k], id) <==> Carried(xs, es, k, id) == 0
  {
    hide Inv, Enabled, Step, Traded, LogAt;
    RunKeepsInv(xs, es, k);
    InvListed(xs[k]);
    if k > 0 {
      RunKeepsInv(xs, es, k - 1);
      StepSurplus(xs[k - 1], es[k - 1], id);
      if !Enters(xs[k - 1], es[k - 1], id) {
        ConservedExactly(xs, es, k - 1, id);
      }
    }
  }

  // ---- runs that reuse no id ----

  ghost predicate NewIds(xs: seq<Exchange>, es: seq<Event>)
    requires |xs| == |es| + 1
  {
    forall k :: 0 <= k < |es| ==> NewId(xs[k], es[k])
  }

  /** Over any run that reuses no accepted id: conservation for every order, and
      every logged trade legal between the orders as they now are. */
  lemma {:induction false} RunKeepsLedger(xs: seq<Exchange>, es: seq<Event>, k: nat)
    requires IsRun(xs, es) && NewIds(xs, es) && k <= |es|
    ensures Ledger(xs[k])
  {
    hide Inv, Enabled, Step;
    if k > 0 {
      RunKeepsInv(xs, es, k - 1);
      RunKeepsLedger(xs, es, k - 1);
      StepKeepsLedger(xs[k - 1], es[k - 1]);
    }
  }

  // ---- bought equals sold ----

  /** What the orders of one side of an instrument lost in all. */
  function Executed(roll: Roll, ids: seq<OrderId>, i: InstrumentId, side: Side): int
    requires forall k :: 0 <= k < |ids| ==> ids[k] in roll
  {
    if ids == [] then 0
    else
      var o := roll[ids[0]];
      (if o.instrument == i && o.side == side then o.quantity - o.remaining else 0) + Executed(roll, ids[1..], i, side)
  }

  function Received(ts: seq<Trade>, roll: Roll, ids: seq<OrderId>, i: InstrumentId, side: Side): int
    requires forall k :: 0 <= k < |ids| ==> ids[k] in roll
  {
    if ids == [] then 0
    else
      var o := roll[ids[0]];
      (if o.instrument == i && o.side == side then Traded(ts, ids[0]) else 0) + Received(ts, roll, ids[1..], i, side)
  }

  lemma {:induction false} ExecutedIsReceived(x: Exchange, ids: seq<OrderId>, i: InstrumentId, side: Side)
    requires Ledger(x) && i in x.books && forall k :: 0 <= k < |ids| ==> ids[k] in x.roll
    ensures Executed(x.roll, ids, i, side) == Received(x.books[i].log, x.roll, ids, i, side)
  {
    hide Traded, AllLegal;
    if ids == [] {
    } else {
      assert Conserved(x, ids[0]);
      ExecutedIsReceived(x, ids[1..], i, side);
    }
  }

  lemma {:induction false} ReceivedNothing(roll: Roll, ids: seq<OrderId>, i: InstrumentId, side: Side)
    requires forall k :: 0 <= k < |ids| ==> ids[k] in roll
    ensures Received([], roll, ids, i, side) == 0
  {
    if ids == [] {
    } else {
      ReceivedNothing(roll, ids[1..], i, side);
    }
  }

  /** One trade counts once on its own side, wherever its order is listed. */
  lemma {:induction false} ReceivedOnce(t: Trade, ts: seq<Trade>, roll: Roll, ids: seq<OrderId>, i: InstrumentId,
                                        side: Side)
    requires forall k :: 0 <= k < |ids| ==> ids[k] in roll
    requires forall j, k :: 0 <= j < k < |ids| ==> ids[j] != ids[k]
    requires LegalIn(t, roll, i)
    ensures var party := if side.Buy? then t.buyOrder else t.sellOrder;
            Received([t] + ts, roll, ids, i, side) ==
            Received(ts, roll, ids, i, side) + if party in ids then t.quantity else 0
  {
    if ids == [] {
    } else {
      ReceivedOnce(t, ts, roll, ids[1..], i, side);
      assert ([t] + ts)[1..] == ts;
      var party := if side.Buy? then t.buyOrder else t.sellOrder;
      assert ids == [ids[0]] + ids[1..];
      assert party == ids[0] ==> party !in ids[1..];
    }
  }

  lemma {:induction false} ReceivedIsVolume(ts: seq<Trade>, roll: Roll, ids: seq<OrderId>, i: InstrumentId, side: Side)
    requires forall id :: id in ids <==> id in roll
    requires forall j, k :: 0 <= j < k < |ids| ==> ids[j] != ids[k]
    requires AllLegal(ts, roll, i)
    ensures Received(ts, roll, ids, i, side) == Volume(ts)
  {
    if ts == [] {
      ReceivedNothing(roll, ids, i, side);
    } else {
      assert ts == [ts[0]] + ts[1..];
      assert LegalIn(ts[0], roll, i);
      ReceivedIsVolume(ts[1..], roll, ids, i, side);
      ReceivedOnce(ts[0], ts[1..], roll, ids, i, side);
    }
  }

  /** Over any run that reuses no id, what buyers of an instrument bought is what
      sellers sold and what its log says traded. */
  lemma {:induction false} BoughtIsSold(xs: seq<Exchange>, es: seq<Event>, k: nat, ids: seq<OrderId>, i: InstrumentId)
    requires IsRun(xs, es) && NewIds(xs, es) && k <= |es| && i in xs[k].books
    requires forall id :: id in ids <==> id in xs[k].roll
    requires forall j, m :: 0 <= j < m < |ids| ==> ids[j] != ids[m]
    ensures var x := xs[k];
            Executed(x.roll, ids, i, Buy) == Executed(x.roll, ids, i, Sell) == Volume(x.books[i].log)
  {
    hide Enabled, Step, NewIds, AllLegal, Conserved;
    RunKeepsLedger(xs, es, k);
    var x := xs[k];
    ExecutedIsReceived(x, ids, i, Buy);
    ExecutedIsReceived(x, ids, i, Sell);
    ReceivedIsVolume(x.books[i].log, x.roll, ids, i, Buy);
    ReceivedIsVolume(x.books[i].log, x.roll, ids, i, Sell);
  }

  // ---- phases ----

  function CountActions(xs: seq<Exchange>, es: seq<Event>, act: Action): nat
    requires |xs| == |es| + 1
    decreases |es|
  {
    if es == [] then 0
    else (if ActionOf(xs[0], es[0]) == Some(act) then 1 else 0) + CountActions(xs[1..], es[1..], act)
  }

  /** The phases the handler is told of, in order: the polled ones, and None where
      it was reset. */
  function Heard(es: seq<Event>): seq<Option<PhaseType>> {
    if es == [] then []
    else (match es[0] case Poll(now, _) => [Some(now.phase)] case Reset => [None] case _ => []) + Heard(es[1..])
  }

  /** How often one phase is heard right after another. */
  function Adjacent(ps: seq<Option<PhaseType>>, from: PhaseType, to: PhaseType): nat {
    if |ps| < 2 then 0
    else (if ps[0] == Some(from) && ps[1] == Some(to) then 1 else 0) + Adjacent(ps[1..], from, to)
  }

  function Trigger(act: Action): (PhaseType, PhaseType) {
    match act
    case Auction => (PreOpen, OpeningAuction)
    case Close => (Continuous, Closed)
  }

  lemma {:induction false} StepHears(x: Exchange, e: Event)
    requires Enabled(x, e)
    ensures Step(x, e).0.last == match e case Poll(now, _) => Some(now.phase) case Reset => None case _ => x.last
  {
  }

  lemma {:induction false} AdjacentStep(a: Option<PhaseType>, b: Option<PhaseType>, rest: seq<Option<PhaseType>>,
                                        from: PhaseType, to: PhaseType)
    ensures Adjacent([a] + ([b] + rest), from, to) ==
            (if a == Some(from) && b == Some(to) then 1 else 0) + Adjacent([b] + rest, from, to)
  {
  }

  lemma {:induction false} ActionsFollowPhases(xs: seq<Exchange>, es: seq<Event>, act: Action)
    requires |xs| == |es| + 1
    requires forall k :: 0 <= k < |es| ==> Enabled(xs[k], es[k]) && xs[k + 1] == Step(xs[k], es[k]).0
    ensures CountActions(xs, es, act) == Adjacent([xs[0].last] + Heard(es), Trigger(act).0, Trigger(act).1)
    decreases |es|
  {
    hide Enabled, Step;
    if es == [] {
    } else {
      assert xs[1] == Step(xs[0], es[0]).0;
      StepHears(xs[0], es[0]);
      ActionsFollowPhases(xs[1..], es[1..], act);
      HeardStep(xs[0].last, xs[1].last, es, act);
    }
  }

  lemma {:induction false} HeardStep(before: Option<PhaseType>, after: Option<PhaseType>, es: seq<Event>, act: Action)
    requires es != []
    requires after == match es[0] case Poll(now, _) => Some(now.phase) case Reset => None case _ => before
    ensures Adjacent([before] + Heard(es), Trigger(act).0, Trigger(act).1) ==
            (if es[0].Poll? && Transition(before, es[0].now.phase) == Some(act) then 1 else 0)
            + Adjacent([after] + Heard(es[1..]), Trigger(act).0, Trigger(act).1)
  {
    hide Adjacent;
    if es[0].Poll? || es[0].Reset? {
      AdjacentStep(before, after, Heard(es[1..]), Trigger(act).0, Trigger(act).1);
    } else {
      assert [] + Heard(es[1..]) == Heard(es[1..]);
    }
  }

  /** Over any run the auction is run exactly once for every pre-open phase heard
      right before an opening-auction phase, and the close exactly once for every
      continuous phase heard right before a closed one. */
  lemma {:induction false} ActionsPerTransition(xs: seq<Exchange>, es: seq<Event>)
    requires IsRun(xs, es)
    ensures CountActions(xs, es, Auction) == Adjacent([xs[0].last] + Heard(es), PreOpen, OpeningAuction)
    ensures CountActions(xs, es, Close) == Adjacent([xs[0].last] + Heard(es), Continuous, Closed)
  {
    hide Enabled, Step;
    ActionsFollowPhases(xs, es, Auction);
    ActionsFollowPhases(xs, es, Close);
  }

  function LogsOf(x: Exchange): map<InstrumentId, seq<Trade>> {
    map i | i in x.books :: x.books[i].log
  }

  /** What phase polling does: the auction leaves nothing held, the close leaves
      nothing resting and keeps what is held, and any other poll touches neither. */
  lemma {:induction false} PollsAct(x: Exchange, e: Event)
    requires Inv(x) && Enabled(x, e) && e.Poll?
    ensures var z := Step(x, e).0;
            && z.state == e.now && z.last == Some(e.now.phase)
            && (ActionOf(x, e) == Some(Auction) ==> z.pending == map[] && z.ids == x.ids)
            && (ActionOf(x, e) == Some(Close) ==>
                  && (forall i :: i in z.books ==> z.books[i].bids == [] && z.books[i].asks == [])
                  && (forall id :: id in z.ids <==> id in x.ids && !x.Rests(id))
                  && z.pending == x.pending && LogsOf(z) == LogsOf(x))
            && (ActionOf(x, e) == None ==> z.books == x.books && z.pending == x.pending && z.ids == x.ids)
  {
    hide InBook, RunBatch, Inv;
  }

  // ---- what can happen to a held order ----

  /** A step keeps an instrument's held orders exactly when it runs no batch; a
      batch takes them all out. */
  lemma {:induction false} HeldStays(x: Exchange, e: Event, i: InstrumentId)
    requires Enabled(x, e) && i in x.pending
    ensures var z := Step(x, e).0;
            && (i in z.pending && x.pending[i] <= z.pending[i] <==> !RunsBatch(x, e))
            && (i !in z.pending <==> RunsBatch(x, e))
  {
  }

  ghost predicate StillHeld(x: Exchange, z: Exchange, i: InstrumentId)
    requires i in x.pending
  {
    i in z.pending && x.pending[i] <= z.pending[i]
  }

  lemma {:induction false} HeldUntilBatch(xs: seq<Exchange>, es: seq<Event>, m: nat, k: nat, i: InstrumentId)
    requires IsRun(xs, es) && m <= k <= |es| && i in xs[m].pending
    requires forall j :: m <= j < k ==> !RunsBatch(xs[j], es[j])
    ensures StillHeld(xs[m], xs[k], i)
    decreases k
  {
    hide Enabled, Step, RunsBatch;
    if m < k {
      HeldUntilBatch(xs, es, m, k - 1, i);
      HeldStays(xs[k - 1], es[k - 1], i);
    }
  }

  /** Held orders are held throughout a stretch of a run exactly when no step of
      it executes a batch or polls the auction phase right after pre-open. A run
      that skips that poll strands them, however the phases go on. */
  lemma {:induction false} SkippedAuctionStrands(xs: seq<Exchange>, es: seq<Event>, m: nat, k: nat, i: InstrumentId)
    requires IsRun(xs, es) && m <= k <= |es| && i in xs[m].pending
    ensures (forall j :: m <= j <= k ==> StillHeld(xs[m], xs[j], i)) <==>
            (forall j :: m <= j < k ==> !RunsBatch(xs[j], es[j]))
  {
    hide Enabled, Step, RunsBatch;
    if forall j :: m <= j < k ==> !RunsBatch(xs[j], es[j]) {
      forall j | m <= j <= k
        ensures StillHeld(xs[m], xs[j], i)
      {
        HeldUntilBatch(xs, es, m, j, i);
      }
    } else {
      var j :| m <= j < k && RunsBatch(xs[j], es[j]);
      if StillHeld(xs[m], xs[j], i) {
        HeldStays(xs[j], es[j], i);
        assert !StillHeld(xs[m], xs[j + 1], i);
      }
    }
  }

  /** A held order cannot be cancelled, whoever asks. */
  lemma {:induction false} HeldCannotBeCancelled(x: Exchange, id: OrderId, trader: TeamId)
    requires Inv(x) && x.IsHeld(id)
    ensures CancelRequest(x, id, trader) == (x, Cancelled(false))
  {
    hide InBook, BookOk, Agrees, GetOrder;
    IdsInOnePlace(x, id);
    forall i | i in x.books
      ensures GetOrder(x.books[i], id).None?
    {
      GetOrderFinds(x.books[i], id);
      assert !x.Rests(id);
    }
  }

  // ---- cancelling ----

  /** Exactly when a cancel request succeeds, and what it then takes out. */
  lemma {:induction false} CancelOutcome(x: Exchange, id: OrderId, trader: TeamId)
    requires Inv(x)
    ensures var (z, r) := CancelRequest(x, id, trader);
            var resting := x.state.cancellation && x.Rests(id);
            && (x.Rests(id) ==> id in x.roll)
            && (r == Cancelled(true) <==> resting && x.roll[id].trader == trader)
            && (r == Failed(NotOwner) <==> resting && x.roll[id].trader != trader)
            && (r != Cancelled(true) ==> z == x)
            && (r == Cancelled(true) ==>
                  && id !in z.ids && !z.Rests(id)
                  && forall other :: other != id ==> (z.Rests(other) <==> x.Rests(other)))
  {
    hide InBook, BookOk, Agrees, GetOrder, Cancel, RollOk;
    IdsInOnePlace(x, id);
    forall i | i in x.books
      ensures GetOrder(x.books[i], id).Some? <==> InBook(x.books[i], id)
      ensures InBook(x.books[i], id) ==> id in x.roll && GetOrder(x.books[i], id).value == x.roll[id]
    {
      GetOrderFinds(x.books[i], id);
      BookInvOk(x, i);
      if InBook(x.books[i], id) {
        RestingOrder(x, i, id);
      }
    }
    var z := CancelRequest(x, id, trader).0;
    if z != x {
      var i :| i in x.books && InBook(x.books[i], id) && z.books == x.books[i := Cancel(x.books[i], id)];
      BookInvOk(x, i);
      CancelAgrees(x.books[i], i, x.roll, id);
      forall other | other != id
        ensures z.Rests(other) <==> x.Rests(other)
      {
        RestsElsewhere(x, z, i, other);
      }
    }
  }

  lemma {:induction false} RestsElsewhere(x: Exchange, z: Exchange, i: InstrumentId, id: OrderId)
    requires i in x.books && z.books.Keys == x.books.Keys
    requires InBook(z.books[i], id) <==> InBook(x.books[i], id)
    requires forall j :: j in x.books && j != i ==> z.books[j] == x.books[j]
    ensures z.Rests(id) <==> x.Rests(id)
  {
  }

  lemma {:induction false} RestingOrder(x: Exchange, i: InstrumentId, id: OrderId)
    requires Inv(x) && i in x.books && InBook(x.books[i], id)
    ensures GetOrder(x.books[i], id).Some? && id in x.roll && GetOrder(x.books[i], id).value == x.roll[id]
  {
    hide InBook, BookOk, Agrees, GetOrder;
    GetOrderFinds(x.books[i], id);
    BookInvOk(x, i);
    var o := GetOrder(x.books[i], id).value;
    RestingIsCurrent(x.books[i], i, x.roll, if o in x.books[i].bids then Buy else Sell, o);
  }

  /** An id that does not rest stays in use for ever: ids of filled, dropped and
      held orders are never released. */
  lemma {:induction false} OnlyRestingIdsAreReleased(x: Exchange, e: Event, id: OrderId)
    requires Inv(x) && Enabled(x, e) && id in x.ids && id !in Step(x, e).0.ids
    ensures x.Rests(id)
    ensures e.CancelOrder? || ActionOf(x, e) == Some(Close)
  {
    hide InBook, Add, Cancel, GetOrder, Inv;
    if e.CancelOrder? {
      CancelOutcome(x, e.id, e.trader);
    }
  }
}
