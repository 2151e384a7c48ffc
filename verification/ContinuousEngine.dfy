/** The continuous matching engine: an order is matched against its book at once. */
module ContinuousEngines {
  import opened Orders
  import opened PriceTime
  import opened BookLaws
  import opened BatchAccounts
  import opened OrderBooks

  /** Adds the order to the book and reports how far it was filled. The book's own
      errors pass through. */
  method SubmitOrder(o: Order, book: OrderBook) returns (r: Result<OrderResult>)
    requires book.Valid() && o.State().WellFormed()
    modifies book, book.levels, book.live, o
    ensures book.Valid() && fresh(book.levels - old(book.levels)) && book.live <= old(book.live) + {o}
    ensures r.Err? <==> o.instrument != book.instrument || o.id in old(book.orderIds)
    ensures r.Err? ==> book.AsBook() == old(book.AsBook()) && o.State() == old(o.State())
    ensures r.Ok? ==>
              && Priced(old(book.AsBook()))
              && var a := Add(old(book.AsBook()), old(o.State()));
                 && book.AsBook() == a.book && o.State() == a.order && r.value == ResultOf(a.order, a.trades)
                 && forall x :: x in old(book.live) ==> x.remaining == old(x.remaining) - Traded(a.trades, x.id)
  {
    hide OrderBook.Valid, OrderBook.AsBook, Add, Traded;
    var added := book.AddOrder(o);
    if added.Err? {
      return Err(added.error);
    }
    var status := if o.IsFilled() then FullyFilled else if added.value != [] then PartiallyFilled else New;
    r := Ok(OrderResult(o.id, status, added.value, o.remaining));
  }

  /** A result adds up: its fills are what the order lost, its status says how far
      it got, and an unfilled limit order, never a market order, is then resting. */
  lemma {:induction false} PlacedAddsUp(b: Book, o: OrderState, i: InstrumentId)
    requires BookOk(b, i) && o.Fresh() && o.instrument == i && !InBook(b, o.id)
    ensures Priced(b)
    ensures var a := Add(b, o);
            var r := ResultOf(a.order, a.trades);
            && Volume(r.fills) == o.quantity - r.remaining
            && (r.status == FullyFilled <==> Volume(r.fills) == o.quantity)
            && (r.status == New <==> r.fills == [])
            && (r.status == PartiallyFilled <==> 0 < Volume(r.fills) < o.quantity)
            && (InBook(a.book, o.id) <==> o.price.Some? && r.remaining > 0)
            && (o.price.Some? ==> LeftInBook(a.book, o.id) == r.remaining)
  {
    hide BookOk, InBook, Traded, Walk;
    BookPriced(b, i);
    AddConserves(b, o, i, o.id);
    AddTrades(b, o, i);
    AddKeepsBook(b, o, i);
    InBookLeft(Add(b, o).book, i, o.id);
    PositiveVolume(Add(b, o).trades);
  }

  lemma {:induction false} PositiveVolume(ts: seq<Trade>)
    requires forall k :: 0 <= k < |ts| ==> ts[k].quantity > 0
    ensures Volume(ts) >= 0 && (Volume(ts) == 0 <==> ts == [])
  {
    if ts == [] {
    } else {
      PositiveVolume(ts[1..]);
    }
  }
}
