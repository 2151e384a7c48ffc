/** The objects of the exchange venue and the state of the exchange they stand for:
    order books, the orders the batch engine holds, and every order accepted. */
module VenueObjects {
  import opened Orders
  import opened PriceTime
  import opened OrderBooks
  import opened BatchEngines
  import opened Registry
  import opened Exchanges

  // ---- what the objects stand for ----

  /** The order objects last accepted under each id. */
  type Roster = map<OrderId, Order>
  type Books = map<InstrumentId, OrderBook>
  type Pools = map<InstrumentId, seq<Order>>

  predicate Enrolled(x: Order, roster: Roster) {
    x.id in roster && roster[x.id] == x
  }

  /** A book object stands for a flat book, and its orders are on the roster. */
  ghost predicate BookIs(book: OrderBook, i: InstrumentId, flat: Book, roster: Roster)
    reads book, book.levels, book.live
  {
    && book.Valid() && book.instrument == i && book.AsBook() == flat
    && forall x :: x in book.live ==> x.instrument == i && Enrolled(x, roster)
  }

  ghost function LevelsIn(books: Books): set<PriceLevel>
    reads books.Values
  {
    set i, l | i in books && l in books[i].levels :: l
  }

  ghost function LiveIn(books: Books): set<Order>
    reads books.Values
  {
    set i, x | i in books && x in books[i].live :: x
  }

  /** Every book stands for its flat book, and no two share a level. */
  ghost predicate BooksAre(books: Books, flats: map<InstrumentId, Book>, roster: Roster)
    reads books.Values, LevelsIn(books), LiveIn(books)
  {
    && books.Keys == flats.Keys
    && (forall i :: i in books ==> BookIs(books[i], i, flats[i], roster))
    && (forall i, j :: i in books && j in books && i != j ==> books[i].levels !! books[j].levels)
  }

  function PooledIn(pools: Pools): set<Order> {
    set i, x | i in pools && x in pools[i] :: x
  }

  ghost predicate PoolIs(orders: seq<Order>, i: InstrumentId, states: seq<OrderState>, roster: Roster)
    reads set x | x in orders
  {
    States(orders) == states && forall x :: x in orders ==> x.instrument == i && Enrolled(x, roster)
  }

  /** The held order objects are in these states, and on the roster. */
  ghost predicate PoolsAre(pools: Pools, held: map<InstrumentId, seq<OrderState>>, roster: Roster)
    reads PooledIn(pools)
  {
    pools.Keys == held.Keys && forall i :: i in pools ==> PoolIs(pools[i], i, held[i], roster)
  }

  /** The objects accepted under the ids are in the states the roll has. */
  ghost predicate RosterIs(roster: Roster, roll: Roll)
    reads roster.Values
  {
    && roster.Keys == roll.Keys
    && forall id :: id in roster ==> roster[id].id == id && roster[id].State() == roll[id]
  }

  /** All the books, their levels and the orders. */
  ghost predicate Owned(books: Books, pools: Pools, roster: Roster, repr: set<object>)
    reads books.Values
  {
    && books.Values <= repr && LevelsIn(books) <= repr && LiveIn(books) <= repr
    && PooledIn(pools) <= repr && roster.Values <= repr
  }

  // ---- what that says ----

  lemma {:induction false} BookAt(books: Books, flats: map<InstrumentId, Book>, roster: Roster)
    requires BooksAre(books, flats, roster)
    ensures books.Keys == flats.Keys && forall j :: j in books ==> BookIs(books[j], j, flats[j], roster)
  {
    hide BookIs;
  }

  lemma {:induction false} BookUnfolds(b: OrderBook, i: InstrumentId, flat: Book, roster: Roster)
    requires BookIs(b, i, flat, roster)
    ensures b.Valid() && b.instrument == i && b.AsBook() == flat
    ensures forall x :: x in b.live ==> x.instrument == i && Enrolled(x, roster)
  {
  }

  lemma {:induction false} PoolUnfolds(orders: seq<Order>, i: InstrumentId, states: seq<OrderState>, roster: Roster)
    requires PoolIs(orders, i, states, roster)
    ensures States(orders) == states && forall x :: x in orders ==> x.instrument == i && Enrolled(x, roster)
  {
  }

  lemma {:induction false} OwnedAt(books: Books, pools: Pools, roster: Roster, repr: set<object>, i: InstrumentId)
    requires Owned(books, pools, roster, repr) && i in books
    ensures books[i] in repr && books[i].levels <= repr && books[i].live <= repr
  {
    assert books[i].levels <= LevelsIn(books) && books[i].live <= LiveIn(books);
  }

  lemma {:induction false} OwnedLess(books: Books, pools: Pools, roster: Roster, repr: set<object>,
                                     levels: set<PriceLevel>)
    requires Owned(books, pools, roster, repr + levels) && levels <= repr
    ensures Owned(books, pools, roster, repr)
  {
    assert repr + levels == repr;
  }

  lemma {:induction false} LiveInBook(b: OrderBook, i: InstrumentId, flat: Book, roster: Roster, id: OrderId)
    requires BookIs(b, i, flat, roster)
    ensures InBook(flat, id) <==> id in roster && roster[id].id == id && roster[id] in b.live
  {
    hide OrderBook.Valid, OrderBook.AsBook, InBook;
    b.LiveIds();
    b.ValidBook();
    if InBook(flat, id) {
      var side, k, j := b.Locate(id);
    }
  }

  lemma {:induction false} PendingOk(x: Exchange, i: InstrumentId)
    requires Inv(x) && i in x.pending
    ensures i in x.books && UniqueIds(x.pending[i])
    ensures forall k :: 0 <= k < |x.pending[i]| ==> x.pending[i][k].Fresh() && !InBook(x.books[i], x.pending[i][k].id)
  {
    assert HeldOk(x, i);
  }

  lemma {:induction false} NoPools(held: map<InstrumentId, seq<OrderState>>, roster: Roster)
    requires held == map[]
    ensures PoolsAre(map[], held, roster)
  {
  }

  lemma {:induction false} BooksGrow(books: Books, pools: Pools, flats: map<InstrumentId, Book>, roster: Roster,
                                     repr: set<object>, i: InstrumentId, b: OrderBook)
    requires BooksAre(books, flats, roster) && Owned(books, pools, roster, repr) && i !in books
    requires b.Valid() && b.instrument == i && b.AsBook() == EMPTY_BOOK && b.levels == {} && b.live == {}
    ensures BooksAre(books[i := b], flats[i := EMPTY_BOOK], roster) && Owned(books[i := b], pools, roster, repr + {b})
  {
    hide OrderBook.Valid, OrderBook.AsBook;
    forall j | j in books[i := b]
      ensures j == i || (j in books && books[i := b][j] == books[j])
    {
    }
  }

  // ---- nothing has changed ----

  /** The objects of the venue, and the exchange they stood for. */
  datatype Scene = Scene(books: Books, pools: Pools, x: Exchange, roster: Roster, repr: set<object>)

  /** Nothing of what the venue is made of has changed. */
  twostate lemma {:induction false} AllStay(s: Scene)
    requires old(BooksAre(s.books, s.x.books, s.roster)) && old(PoolsAre(s.pools, s.x.pending, s.roster))
    requires old(RosterIs(s.roster, s.x.roll)) && old(Owned(s.books, s.pools, s.roster, s.repr)) && unchanged(s.repr)
    ensures BooksAre(s.books, s.x.books, s.roster) && PoolsAre(s.pools, s.x.pending, s.roster)
    ensures RosterIs(s.roster, s.x.roll) && Owned(s.books, s.pools, s.roster, s.repr)
  {
    hide PoolIs, BookIs;
    forall i | i in s.pools
      ensures PoolIs(s.pools[i], i, s.x.pending[i], s.roster)
    {
      assert old(PoolIs(s.pools[i], i, s.x.pending[i], s.roster));
      assert forall x :: x in s.pools[i] ==> x in PooledIn(s.pools);
    }
    forall i | i in s.books
      ensures BookIs(s.books[i], i, s.x.books[i], s.roster)
    {
      assert old(BookIs(s.books[i], i, s.x.books[i], s.roster));
      assert old(s.books[i].levels <= LevelsIn(s.books) && s.books[i].live <= LiveIn(s.books));
    }
  }

  /** Objects that were kept as they were hold every held order. */
  twostate lemma {:induction false} PoolsStay(s: Scene, new kept: set<object>)
    requires kept <= s.repr && unchanged(kept)
    requires old(PoolsAre(s.pools, s.x.pending, s.roster)) && PooledIn(s.pools) <= kept
    ensures PoolsAre(s.pools, s.x.pending, s.roster)
  {
    hide PoolIs;
    forall i | i in s.pools
      ensures PoolIs(s.pools[i], i, s.x.pending[i], s.roster)
    {
      assert old(PoolIs(s.pools[i], i, s.x.pending[i], s.roster));
    }
  }

  twostate lemma {:induction false} RosterStays(s: Scene)
    requires old(RosterIs(s.roster, s.x.roll)) && unchanged(s.roster.Values)
    ensures RosterIs(s.roster, s.x.roll)
  {
  }
}
