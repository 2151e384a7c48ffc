/** Orders, trades and order results as values.

    Prices are whole pennies (limit orders are rejected at any finer tick) and
    quantities whole contracts. An order without a price is a market order. */
module Orders {

  type OrderId = nat
  type TeamId = nat
  type InstrumentId = nat

  datatype Option<+T> = None | Some(value: T)
  datatype Result<+T> = Ok(value: T) | Err(error: Error)

  datatype Error =
    | WrongInstrument     // the order is for another book
    | DuplicateOrderId
    | UnknownInstrument
    | NotOwner            // cancelling somebody else's order
    | NoLimitPrices       // a clearing price over a side with market orders only

  datatype Side = Buy | Sell {
    function Opposite(): Side {
      if Buy? then Sell else Buy
    }
  }

  /** What an Order object looks like at one moment. Only `remaining` ever changes. */
  datatype OrderState = OrderState(
    id: OrderId, trader: TeamId, instrument: InstrumentId, side: Side,
    price: Option<int>, quantity: int, remaining: int)
  {
    /** The checks an order passes when it is created. */
    predicate WellFormed() {
      && quantity > 0
      && 0 <= remaining <= quantity
      && (price.Some? ==> price.value > 0)
    }

    predicate Fresh() {
      WellFormed() && remaining == quantity
    }

    function Filled(q: int): OrderState {
      this.(remaining := remaining - q)
    }
  }

  /** The same order, perhaps after some fills. */
  predicate SameTerms(a: OrderState, b: OrderState) {
    a == b.(remaining := a.remaining)
  }

  datatype Trade = Trade(
    instrument: InstrumentId, buyer: TeamId, seller: TeamId, price: int,
    quantity: int, buyOrder: OrderId, sellOrder: OrderId, aggressor: Side)
  {
    predicate Names(id: OrderId) {
      buyOrder == id || sellOrder == id
    }
  }

  datatype Status = PendingNew | New | PartiallyFilled | FullyFilled | Rejected

  datatype OrderResult = OrderResult(
    order: OrderId, status: Status, fills: seq<Trade>, remaining: int)

  /** What is reported of an order after a match: its fills, and the status that follows. */
  function ResultOf(o: OrderState, fills: seq<Trade>): OrderResult {
    var status := if o.remaining == 0 then FullyFilled else if fills != [] then PartiallyFilled else New;
    OrderResult(o.id, status, fills, o.remaining)
  }

  function Min(a: int, b: int): int {
    if a <= b then a else b
  }

  /** Total unfilled quantity of some orders. */
  function SumRemaining(xs: seq<OrderState>): int {
    if xs == [] then 0 else xs[0].remaining + SumRemaining(xs[1..])
  }

  /** Total quantity of some trades. */
  function Volume(ts: seq<Trade>): int {
    if ts == [] then 0 else ts[0].quantity + Volume(ts[1..])
  }

  /** Quantity the trades give to one order. */
  function Traded(ts: seq<Trade>, id: OrderId): int {
    if ts == [] then 0
    else (if ts[0].Names(id) then ts[0].quantity else 0) + Traded(ts[1..], id)
  }

  predicate UniqueIds(xs: seq<OrderState>) {
    forall i, j :: 0 <= i < j < |xs| ==> xs[i].id != xs[j].id
  }

  ghost predicate HasId(xs: seq<OrderState>, id: OrderId) {
    exists k :: 0 <= k < |xs| && xs[k].id == id
  }

  lemma {:induction false} TradedConcat(a: seq<Trade>, b: seq<Trade>, id: OrderId)
    ensures Traded(a + b, id) == Traded(a, id) + Traded(b, id)
  {
    if a == [] {
      assert a + b == b;
    } else {
      assert (a + b)[1..] == a[1..] + b;
      TradedConcat(a[1..], b, id);
    }
  }

  lemma {:induction false} TradedNothing()
    ensures forall id :: Traded([], id) == 0
  {
  }

  lemma {:induction false} TradedSnoc(ts: seq<Trade>, t: Trade, id: OrderId)
    ensures Traded(ts + [t], id) == Traded(ts, id) + if t.Names(id) then t.quantity else 0
  {
    TradedConcat(ts, [t], id);
    assert [t][1..] == [];
  }

  lemma {:induction false} VolumeConcat(a: seq<Trade>, b: seq<Trade>)
    ensures Volume(a + b) == Volume(a) + Volume(b)
  {
    if a == [] {
      assert a + b == b;
    } else {
      assert (a + b)[1..] == a[1..] + b;
      VolumeConcat(a[1..], b);
    }
  }

  lemma {:induction false} SumRemainingConcat(a: seq<OrderState>, b: seq<OrderState>)
    ensures SumRemaining(a + b) == SumRemaining(a) + SumRemaining(b)
  {
    if a == [] {
      assert a + b == b;
    } else {
      assert (a + b)[1..] == a[1..] + b;
      SumRemainingConcat(a[1..], b);
    }
  }

  lemma {:induction false} SumRemainingSnoc(xs: seq<OrderState>, x: OrderState)
    ensures SumRemaining(xs + [x]) == SumRemaining(xs) + x.remaining
  {
    SumRemainingConcat(xs, [x]);
    assert [x][1..] == [];
  }

  lemma {:induction false} SumRemainingDrop(xs: seq<OrderState>, j: nat)
    requires j < |xs|
    ensures SumRemaining(xs[..j] + xs[j + 1..]) == SumRemaining(xs) - xs[j].remaining
  {
    SumRemainingConcat(xs[..j], xs[j..]);
    SumRemainingConcat(xs[..j], xs[j + 1..]);
    assert xs[..j] + xs[j..] == xs;
    assert xs[j..][1..] == xs[j + 1..];
  }

  lemma {:induction false} TradedNobody(ts: seq<Trade>, id: OrderId)
    requires forall k :: 0 <= k < |ts| ==> !ts[k].Names(id)
    ensures Traded(ts, id) == 0
  {
    if ts == [] {
    } else {
      TradedNobody(ts[1..], id);
    }
  }

  lemma {:induction false} TradedNonNegative(ts: seq<Trade>, id: OrderId)
    requires forall k :: 0 <= k < |ts| ==> ts[k].quantity > 0
    ensures Traded(ts, id) >= 0
    ensures forall k :: 0 <= k < |ts| && ts[k].Names(id) ==> Traded(ts, id) > 0
  {
    if ts == [] {
    } else {
      TradedNonNegative(ts[1..], id);
      assert forall k :: 1 <= k < |ts| ==> ts[k] == ts[1..][k - 1];
    }
  }
}
