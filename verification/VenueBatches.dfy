/** A batch at the venue: the engine settles every book with held orders, and the
    books and orders together make one step of the exchange. */
module VenueBatches {
  import opened Orders
  import opened PriceTime
  import opened BookLaws
  import opened BatchAccounts
  import opened OrderBooks
  import opened BatchEngines
  import opened Registry
  import opened Exchanges
  import opened ExchangeSteps
  import opened VenueObjects

  // ---- draws ----

  /** Every draw the batch engine makes is one the state machine allows. */
  lemma {:induction false} EngineDrawsAllowed(d: Draw, b: Book, held: seq<OrderState>, i: InstrumentId)
    requires DrawFor(d, b, held, i)
    ensures DrawOk(d, held)
  {
    hide BookOk, InBook;
  }

  // ---- ready for the engine ----

  /** The orders a batch of one instrument works on are all its own. */
  ghost predicate OwnOrders(i: InstrumentId, book: OrderBook, orders: seq<Order>)
    reads book
  {
    && book.instrument == i
    && (forall y :: y in book.live ==> y.instrument == i)
    && (forall y :: y in orders ==> y.instrument == i)
  }

  /** A pool is new to its book. */
  lemma {:induction false} PoolIsHeld(b: OrderBook, orders: seq<Order>, x: Exchange, i: InstrumentId, roster: Roster)
    requires Inv(x) && i in x.pending && i in x.books
    requires BookIs(b, i, x.books[i], roster) && PoolIs(orders, i, x.pending[i], roster)
    ensures b.Valid() && Distinct(orders) && Held(orders, b)
  {
    hide Inv, OrderBook.Valid, OrderBook.AsBook, InBook, BookOk, OrderState.WellFormed;
    b.LiveIds();
    b.ValidBook();
    PendingOk(x, i);
    assert forall k :: 0 <= k < |orders| ==> x.pending[i][k] == orders[k].State();
    forall y | y in orders
      ensures y !in b.live && y.id !in b.orderIds && y.State().WellFormed() && y.remaining > 0
    {
      var k :| 0 <= k < |orders| && orders[k] == y;
      FreshIsWell(x.pending[i][k]);
    }
  }

  /** A pool is ready for the engine. */
  lemma {:induction false} PoolReady(books: Books, pools: Pools, x: Exchange, roster: Roster, i: InstrumentId)
    requires BooksAre(books, x.books, roster) && PoolsAre(pools, x.pending, roster) && Inv(x) && i in pools
    ensures i in books && i in x.books && i in x.pending && books[i].AsBook() == x.books[i]
    ensures States(pools[i]) == x.pending[i]
    ensures books[i].Valid() && Distinct(pools[i]) && Held(pools[i], books[i])
    ensures OwnOrders(i, books[i], pools[i])
    ensures forall y :: y in books[i].live || y in pools[i] ==> Enrolled(y, roster)
  {
    hide Inv, OrderBook.Valid, OrderBook.AsBook, BookIs, PoolIs, Held, Distinct;
    PendingOk(x, i);
    assert BookIs(books[i], i, x.books[i], roster) && PoolIs(pools[i], i, x.pending[i], roster);
    BookUnfolds(books[i], i, x.books[i], roster);
    PoolUnfolds(pools[i], i, x.pending[i], roster);
    PoolIsHeld(books[i], pools[i], x, i, roster);
  }

  /** What a batch works on: the books with held orders, and those orders. */
  ghost function BatchObjects(books: Books, pools: Pools): set<object>
    reads books.Values
  {
    set i, y | i in pools && i in books && y in Objects(books[i], pools[i]) :: y
  }

  lemma {:induction false} PoolOwned(books: Books, pools: Pools, roster: Roster, repr: set<object>, i: InstrumentId)
    requires Owned(books, pools, roster, repr) && i in pools && i in books
    ensures Objects(books[i], pools[i]) <= BatchObjects(books, pools) && Objects(books[i], pools[i]) <= repr
  {
    OwnedAt(books, pools, roster, repr, i);
    assert forall y :: y in pools[i] ==> y in PooledIn(pools);
  }

  lemma {:induction false} ObjectsApart(b: OrderBook, xs: seq<Order>, i: InstrumentId, c: OrderBook, ys: seq<Order>,
                                        j: InstrumentId)
    requires i != j && OwnOrders(i, b, xs) && OwnOrders(j, c, ys) && b.levels !! c.levels
    ensures Objects(b, xs) !! Objects(c, ys)
  {
  }

  /** The pools are ready for the engine, each apart from the others. */
  ghost predicate PoolsFit(books: Books, pools: Pools, frame: set<object>)
    reads *
  {
    && (forall i :: i in pools ==> Distinct(pools[i]))
    && (forall i :: i in pools && i in books ==>
          && books[i].Valid() && Held(pools[i], books[i]) && Objects(books[i], pools[i]) <= frame)
    && (forall i, j :: i in pools && i in books && j in pools && j in books && i != j ==>
          Objects(books[i], pools[i]) !! Objects(books[j], pools[j]))
  }

  lemma {:induction false} PoolsReady(books: Books, pools: Pools, x: Exchange, roster: Roster, repr: set<object>)
    requires BooksAre(books, x.books, roster) && PoolsAre(pools, x.pending, roster) && Owned(books, pools, roster, repr)
    requires Inv(x)
    ensures PoolsFit(books, pools, BatchObjects(books, pools)) && BatchObjects(books, pools) <= repr
  {
    hide Inv, OrderBook.Valid, OrderBook.AsBook, BookIs, PoolsAre, Held, Distinct, Owned, Objects, OwnOrders, States;
    forall i | i in pools
      ensures i in books && books[i].Valid() && Distinct(pools[i]) && Held(pools[i], books[i])
      ensures OwnOrders(i, books[i], pools[i])
      ensures Objects(books[i], pools[i]) <= BatchObjects(books, pools) && Objects(books[i], pools[i]) <= repr
    {
      PoolReady(books, pools, x, roster, i);
      PoolOwned(books, pools, roster, repr, i);
    }
    forall i, j | i in pools && j in pools && i != j
      ensures Objects(books[i], pools[i]) !! Objects(books[j], pools[j])
    {
      ObjectsApart(books[i], pools[i], i, books[j], pools[j], j);
    }
  }

  // ---- what a batch leaves alone ----

  /** What a batch leaves alone. */
  ghost function Spared(books: Books, pools: Pools, repr: set<object>): set<object>
    reads books.Values
  {
    repr - BatchObjects(books, pools)
  }

  /** A book without held orders is left alone. */
  lemma {:induction false} BookSpared(books: Books, pools: Pools, x: Exchange, roster: Roster, repr: set<object>,
                                      j: InstrumentId)
    requires BooksAre(books, x.books, roster) && PoolsAre(pools, x.pending, roster) && Owned(books, pools, roster, repr)
    requires Inv(x) && j in books && j !in pools
    ensures var rest := Spared(books, pools, repr);
            books[j] in rest && books[j].levels <= rest && books[j].live <= rest
  {
    hide Inv, OrderBook.Valid, OrderBook.AsBook, BookIs, PoolsAre, Owned, Objects, OwnOrders, States;
    OwnedAt(books, pools, roster, repr, j);
    assert BookIs(books[j], j, x.books[j], roster);
    BookUnfolds(books[j], j, x.books[j], roster);
    forall i | i in pools && i in books
      ensures Objects(books[i], pools[i]) !! Objects(books[j], [])
    {
      PoolReady(books, pools, x, roster, i);
      OwnsAlone(j, books[j]);
      ObjectsApart(books[i], pools[i], i, books[j], [], j);
    }
    AllOf(books[j]);
  }

  lemma {:induction false} OwnsAlone(j: InstrumentId, b: OrderBook)
    requires b.instrument == j && forall y :: y in b.live ==> y.instrument == j
    ensures OwnOrders(j, b, [])
  {
  }

  lemma {:induction false} AllOf(b: OrderBook)
    ensures Objects(b, []) == {b} + b.levels + b.live
  {
  }

  /** An order that is neither held nor rests beside held ones is left alone. */
  lemma {:induction false} OrderSpared(books: Books, pools: Pools, x: Exchange, roster: Roster, repr: set<object>,
                                       id: OrderId)
    requires BooksAre(books, x.books, roster) && PoolsAre(pools, x.pending, roster) && RosterIs(roster, x.roll)
    requires Owned(books, pools, roster, repr) && Inv(x) && id in roster
    requires var i := roster[id].instrument; i !in pools || i !in books || roster[id] !in Everybody(pools[i], books[i])
    ensures roster[id] in Spared(books, pools, repr)
    ensures var i := roster[id].instrument;
            i in pools ==> i in x.books && i in x.pending && !InBook(x.books[i], id) && !HasId(x.pending[i], id)
  {
    hide Inv, OrderBook.Valid, OrderBook.AsBook, BookIs, PoolsAre, States, InBook, BooksAre;
    var o := roster[id];
    forall i | i in pools && i in books
      ensures o !in Objects(books[i], pools[i])
    {
      PoolReady(books, pools, x, roster, i);
    }
    if o.instrument in pools {
      var i := o.instrument;
      PoolReady(books, pools, x, roster, i);
      BookAt(books, x.books, roster);
      LiveInBook(books[i], i, x.books[i], roster, id);
      NotPooled(pools[i], x.pending[i], roster, o);
    }
  }

  lemma {:induction false} NotPooled(orders: seq<Order>, states: seq<OrderState>, roster: Roster, o: Order)
    requires States(orders) == states && Enrolled(o, roster) && o !in orders
    requires forall y :: y in orders ==> Enrolled(y, roster)
    ensures !HasId(states, o.id)
  {
    forall k | 0 <= k < |states|
      ensures states[k].id != o.id
    {
      assert orders[k] in orders && states[k] == orders[k].State();
    }
  }

  /** The held orders of one instrument, ready for its batch. */
  ghost predicate PoolPrepared(book: OrderBook, orders: seq<Order>, i: InstrumentId, flat: Book,
                               states: seq<OrderState>, roster: Roster)
    reads book, set y | y in orders
  {
    && book.AsBook() == flat && States(orders) == states && OwnOrders(i, book, orders)
    && (forall y :: y in book.live ==> Enrolled(y, roster)) && (forall y :: y in orders ==> Enrolled(y, roster))
  }

  ghost predicate PoolsPrepared(books: Books, pools: Pools, x: Exchange, roster: Roster)
    reads books.Values, PooledIn(pools)
  {
    forall i :: i in pools ==>
      && i in books && i in x.books && i in x.pending
      && PoolPrepared(books[i], pools[i], i, x.books[i], x.pending[i], roster)
  }

  /** Every book without held orders is among some objects. */
  ghost predicate SparedBooks(books: Books, pools: Pools, rest: set<object>)
    reads books.Values
  {
    forall j :: j in books && j !in pools ==> books[j] in rest && books[j].levels <= rest && books[j].live <= rest
  }

  /** Every order that is neither held nor rests beside held ones is among some objects. */
  ghost predicate SparedOrders(books: Books, pools: Pools, x: Exchange, roster: Roster, rest: set<object>)
    reads books.Values
  {
    forall id :: id in roster ==>
      var i := roster[id].instrument;
      || (i in pools && i in books && roster[id] in Everybody(pools[i], books[i]))
      || (roster[id] in rest && (i in pools ==>
            i in x.books && i in x.pending && !InBook(x.books[i], id) && !HasId(x.pending[i], id)))
  }

  lemma {:induction false} BeforeBatch(books: Books, pools: Pools, x: Exchange, roster: Roster, repr: set<object>)
    requires BooksAre(books, x.books, roster) && PoolsAre(pools, x.pending, roster) && RosterIs(roster, x.roll)
    requires Owned(books, pools, roster, repr) && Inv(x)
    ensures pools.Keys == x.pending.Keys && pools.Keys <= books.Keys == x.books.Keys
    ensures PoolsPrepared(books, pools, x, roster) && SparedBooks(books, pools, Spared(books, pools, repr))
    ensures SparedOrders(books, pools, x, roster, Spared(books, pools, repr))
  {
    hide Inv, OrderBook.Valid, OrderBook.AsBook, BookIs, PoolIs, RosterIs, Owned, OwnOrders, States, InBook, BooksAre,
      Everybody, Held, Distinct;
    BookAt(books, x.books, roster);
    forall i | i in pools
      ensures i in books && books[i].AsBook() == x.books[i] && States(pools[i]) == x.pending[i]
      ensures OwnOrders(i, books[i], pools[i])
      ensures forall y :: y in books[i].live ==> Enrolled(y, roster)
      ensures forall y :: y in pools[i] ==> Enrolled(y, roster)
    {
      PoolReady(books, pools, x, roster, i);
    }
    forall j | j in books && j !in pools
      ensures books[j] in Spared(books, pools, repr)
      ensures books[j].levels <= Spared(books, pools, repr) && books[j].live <= Spared(books, pools, repr)
    {
      BookSpared(books, pools, x, roster, repr, j);
    }
    forall id | id in roster
      ensures var i := roster[id].instrument;
              || (i in pools && i in books && roster[id] in Everybody(pools[i], books[i]))
              || (roster[id] in Spared(books, pools, repr) && (i in pools ==>
                    i in x.books && i in x.pending && !InBook(x.books[i], id) && !HasId(x.pending[i], id)))
    {
      var i := roster[id].instrument;
      if i !in pools || i !in books || roster[id] !in Everybody(pools[i], books[i]) {
        OrderSpared(books, pools, x, roster, repr, id);
      }
    }
  }

  // ---- one instrument's batch ----

  /** What a batch did to one book and to everybody held for it or resting in it. */
  twostate predicate PoolDone(book: OrderBook, i: InstrumentId, roster: Roster, out: Outcome, who: set<Order>)
    reads book, book.levels, book.live, who
  {
    && BookIs(book, i, out.book, roster)
    && fresh(book.levels - old(book.levels)) && book.live <= old(book.live) + roster.Values
    && forall y :: y in who ==> y.remaining == old(y.remaining) - Traded(out.NewTrades(), y.id)
  }

  /** The batch of an instrument with held orders is done. */
  twostate predicate BatchDone(s: Scene, draws: Draws, i: InstrumentId)
    requires s.x.Ready() && Drawn(s.x, draws)
    reads *
  {
    && i in s.books && i in s.pools && i in s.x.pending && i in s.x.books
    && PoolDone(s.books[i], i, s.roster, OutcomeOf(s.x, draws, i), old(Everybody(s.pools[i], s.books[i])))
  }

  twostate predicate BatchesDone(s: Scene, draws: Draws)
    requires s.x.Ready() && Drawn(s.x, draws)
    reads *
  {
    forall i :: i in s.pools ==> BatchDone(s, draws, i)
  }

  twostate lemma {:induction false} DoneUnfolds(s: Scene, new draws: Draws, new i: InstrumentId)
    requires s.x.Ready() && Drawn(s.x, draws) && BatchDone(s, draws, i)
    ensures i in s.books && i in s.pools && i in s.x.pending && i in s.x.books
    ensures BookIs(s.books[i], i, OutcomeOf(s.x, draws, i).book, s.roster)
    ensures fresh(s.books[i].levels - old(s.books[i].levels))
    ensures s.books[i].live <= old(s.books[i].live) + s.roster.Values
    ensures forall y :: y in old(Everybody(s.pools[i], s.books[i])) ==>
              y.remaining == old(y.remaining) - Traded(OutcomeOf(s.x, draws, i).NewTrades(), y.id)
  {
    hide OutcomeOf, BookIs, Traded, Everybody;
  }

  /** Every held order has the result the outcome gives it. */
  predicate Reported(states: seq<OrderState>, out: Outcome, results: Results)
    requires |out.Leftovers()| == |out.filed.filings|
  {
    forall k :: 0 <= k < |states| ==> states[k].id in results && results[states[k].id] == out.ResultFor(states[k])
  }

  predicate AllReported(x: Exchange, draws: Draws, results: map<InstrumentId, Results>)
    requires x.Ready() && Drawn(x, draws)
  {
    forall i :: i in x.pending ==>
      && i in x.books && i in results
      && Reported(x.pending[i], OutcomeOf(x, draws, i), results[i])
  }

  twostate lemma {:induction false} PoolReported(s: Scene, new i: InstrumentId, new d: Draw, new results: Results)
    requires i in s.books && i in s.pools && i in s.x.books && i in s.x.pending
    requires old(States(s.pools[i])) == s.x.pending[i] && old(s.books[i].AsBook()) == s.x.books[i]
    requires Settled(old(Snapshot(s.pools[i], s.books[i])), d, results)
    ensures Priced(s.x.books[i]) && DrawOk(d, s.x.pending[i])
    ensures Reported(s.x.pending[i], RunBatch(s.x.books[i], d.buys, d.sells), results)
  {
    hide OrderBook.AsBook, RunBatch, DrawFor, Traded;
    EngineDrawsAllowed(d, s.x.books[i], s.x.pending[i], s.books[i].instrument);
    var xs := s.pools[i];
    assert forall k :: 0 <= k < |xs| ==> s.x.pending[i][k].id == xs[k].id;
  }

  /** One instrument's batch on the objects is the outcome of its draw. */
  twostate lemma {:induction false} PoolBatched(s: Scene, new i: InstrumentId, new d: Draw, new results: Results)
    requires i in s.books && i in s.pools && i in s.x.books && i in s.x.pending
    requires s.books[i].Valid() && Settled(old(Snapshot(s.pools[i], s.books[i])), d, results)
    requires fresh(s.books[i].levels - old(s.books[i].levels))
    requires old(PoolPrepared(s.books[i], s.pools[i], i, s.x.books[i], s.x.pending[i], s.roster))
    ensures DrawOk(d, s.x.pending[i]) && Priced(s.x.books[i])
    ensures var out := RunBatch(s.x.books[i], d.buys, d.sells);
            && PoolDone(s.books[i], i, s.roster, out, old(Everybody(s.pools[i], s.books[i])))
            && Reported(s.x.pending[i], out, results)
  {
    hide OrderBook.Valid, OrderBook.AsBook, RunBatch, DrawFor, DrawOk, Traded, States, Reported;
    PoolReported(s, i, d, results);
    assert forall y :: y in s.pools[i] ==> y in s.roster.Values;
  }

  /** The engine settled every instrument with held orders. */
  twostate predicate AllSettled(books: Books, pools: Pools, draws: Draws, results: map<InstrumentId, Results>)
    reads *
  {
    forall i :: i in pools && i in books ==>
      && i in draws && i in results && books[i].Valid()
      && Settled(old(Snapshot(pools[i], books[i])), draws[i], results[i])
      && fresh(books[i].levels - old(books[i].levels))
  }

  /** Every instrument's batch is done, by draws the state machine allows. */
  twostate lemma {:induction false} PoolsBatched(s: Scene, new draws: Draws, new results: map<InstrumentId, Results>)
    requires s.x.Ready() && s.pools.Keys == s.x.pending.Keys && s.pools.Keys <= s.books.Keys == s.x.books.Keys
    requires AllSettled(s.books, s.pools, draws, results) && old(PoolsPrepared(s.books, s.pools, s.x, s.roster))
    ensures DrawsOk(s.x, draws) && Drawn(s.x, draws) && AllReported(s.x, draws, results) && BatchesDone(s, draws)
  {
    hide OrderBook.Valid, Settled, Snapshot, DrawOk, States, Everybody, PoolPrepared, PoolDone, Reported, RunBatch,
      BookIs;
    forall i | i in s.pools
      ensures DrawOk(draws[i], s.x.pending[i])
      ensures PoolDone(s.books[i], i, s.roster, RunBatch(s.x.books[i], draws[i].buys, draws[i].sells),
                       old(Everybody(s.pools[i], s.books[i])))
      ensures Reported(s.x.pending[i], RunBatch(s.x.books[i], draws[i].buys, draws[i].sells), results[i])
    {
      PoolBatched(s, i, draws[i], results[i]);
    }
  }

  // ---- all books ----

  ghost predicate PoolLevelsApart(books: Books, pools: Pools)
    reads books.Values
  {
    forall i, j :: i in pools && i in books && j in pools && j in books && i != j ==> books[i].levels !! books[j].levels
  }

  /** A book is now another flat book, with new levels at most, or none. */
  twostate predicate BookNow(book: OrderBook, i: InstrumentId, flat: Book, roster: Roster, same: bool)
    reads *
  {
    && BookIs(book, i, flat, roster)
    && fresh(book.levels - old(book.levels)) && book.live <= old(book.live) + roster.Values
    && (same ==> book.levels == old(book.levels))
  }

  /** Every book is; those without held orders have the levels they had. */
  twostate predicate BooksNow(s: Scene, flats: map<InstrumentId, Book>)
    reads *
  {
    && s.books.Keys == flats.Keys
    && forall i :: i in s.books ==> BookNow(s.books[i], i, flats[i], s.roster, i !in s.pools)
  }

  twostate lemma {:induction false} BookDone(s: Scene, new draws: Draws, new i: InstrumentId)
    requires s.x.Ready() && Drawn(s.x, draws) && BatchDone(s, draws, i)
    ensures i in s.books && i in s.pools && i in s.x.pending && i in s.x.books
    ensures BookNow(s.books[i], i, OutcomeOf(s.x, draws, i).book, s.roster, false)
  {
    hide BatchDone, OutcomeOf, Everybody, BookIs;
    DoneUnfolds(s, draws, i);
  }

  twostate lemma {:induction false} BookStays(s: Scene, new i: InstrumentId, new kept: set<object>)
    requires i in s.books && i in s.x.books && kept <= s.repr && unchanged(kept)
    requires s.books[i] in kept && old(s.books[i].levels) <= kept && old(s.books[i].live) <= kept
    requires old(BookIs(s.books[i], i, s.x.books[i], s.roster))
    ensures BookNow(s.books[i], i, s.x.books[i], s.roster, true)
  {
    hide OrderBook.Valid, OrderBook.AsBook;
  }

  /** Every book is now what the batches made of it. */
  twostate lemma {:induction false} BooksBatched(s: Scene, new draws: Draws, new kept: set<object>)
    requires s.pools.Keys == s.x.pending.Keys && s.pools.Keys <= s.books.Keys == s.x.books.Keys
    requires s.x.Ready() && Drawn(s.x, draws) && BatchesDone(s, draws) && kept <= s.repr && unchanged(kept)
    requires old(SparedBooks(s.books, s.pools, kept)) && old(BooksAre(s.books, s.x.books, s.roster))
    ensures BooksNow(s, RunBatches(s.x, draws).books)
  {
    hide BookIs, OutcomeOf, RunBatches, Everybody, BatchDone, BookNow;
    BatchedFields(s.x, draws);
    forall j | j in s.books
      ensures BookNow(s.books[j], j, RunBatches(s.x, draws).books[j], s.roster, j !in s.pools)
    {
      if j in s.pools {
        BookDone(s, draws, j);
      } else {
        BookStays(s, j, kept);
      }
    }
  }

  twostate lemma {:induction false} BookLevels(s: Scene, new flats: map<InstrumentId, Book>, new i: InstrumentId)
    requires BooksNow(s, flats) && i in s.books
    ensures i in flats && BookIs(s.books[i], i, flats[i], s.roster)
    ensures fresh(s.books[i].levels - old(s.books[i].levels))
    ensures s.books[i].live <= old(s.books[i].live) + s.roster.Values
    ensures i !in s.pools ==> s.books[i].levels == old(s.books[i].levels)
  {
  }

  /** Levels come into one book only, so books keep their levels apart. */
  twostate lemma {:induction false} BooksStayApart(s: Scene, new flats: map<InstrumentId, Book>)
    requires BooksNow(s, flats) && PoolLevelsApart(s.books, s.pools) && old(BooksAre(s.books, s.x.books, s.roster))
    ensures BooksAre(s.books, flats, s.roster)
  {
    hide BookIs, BookNow;
    forall i | i in s.books
      ensures BookIs(s.books[i], i, flats[i], s.roster) && fresh(s.books[i].levels - old(s.books[i].levels))
      ensures i !in s.pools ==> s.books[i].levels == old(s.books[i].levels)
    {
      BookLevels(s, flats, i);
    }
    forall i, j | i in s.books && j in s.books && i != j
      ensures s.books[i].levels !! s.books[j].levels
    {
      assert old(s.books[i].levels) !! old(s.books[j].levels);
    }
  }

  twostate lemma {:induction false} BatchOwned(s: Scene, new flats: map<InstrumentId, Book>)
    requires BooksNow(s, flats) && old(Owned(s.books, s.pools, s.roster, s.repr))
    ensures Owned(s.books, map[], s.roster, s.repr + LevelsIn(s.books)) && fresh(LevelsIn(s.books) - s.repr)
  {
    hide BookIs, BookNow;
    forall i | i in s.books
      ensures fresh(s.books[i].levels - old(s.books[i].levels))
      ensures s.books[i].live <= old(s.books[i].live) + s.roster.Values
    {
      BookLevels(s, flats, i);
    }
    forall l | l in LevelsIn(s.books) - s.repr
      ensures fresh(l)
    {
      var i :| i in s.books && l in s.books[i].levels;
      assert old(s.books[i].levels) <= old(LevelsIn(s.books));
    }
    forall y | y in LiveIn(s.books)
      ensures y in s.repr
    {
      var i :| i in s.books && y in s.books[i].live;
      assert old(s.books[i].live) <= old(LiveIn(s.books));
    }
  }

  /** The batches are over: what they made of the books. */
  twostate lemma {:induction false} BooksAfter(s: Scene, new draws: Draws, new kept: set<object>)
    requires s.pools.Keys == s.x.pending.Keys && s.pools.Keys <= s.books.Keys == s.x.books.Keys
    requires s.x.Ready() && Drawn(s.x, draws) && BatchesDone(s, draws) && kept <= s.repr && unchanged(kept)
    requires PoolLevelsApart(s.books, s.pools) && old(SparedBooks(s.books, s.pools, kept))
    requires old(BooksAre(s.books, s.x.books, s.roster)) && old(Owned(s.books, s.pools, s.roster, s.repr))
    ensures BooksAre(s.books, RunBatches(s.x, draws).books, s.roster)
    ensures Owned(s.books, map[], s.roster, s.repr + LevelsIn(s.books)) && fresh(LevelsIn(s.books) - s.repr)
  {
    hide BooksAre, Owned, LevelsIn, LiveIn, RunBatches, BatchesDone, SparedBooks, BooksNow, PoolLevelsApart;
    BooksBatched(s, draws, kept);
    BooksStayApart(s, RunBatches(s.x, draws).books);
    BatchOwned(s, RunBatches(s.x, draws).books);
  }

  // ---- all orders ----

  /** Who is neither held nor resting trades nothing in a batch. */
  lemma {:induction false} OthersTradeNothing(x: Exchange, draws: Draws, i: InstrumentId, id: OrderId)
    requires Inv(x) && DrawsOk(x, draws) && i in x.pending && i in x.books
    requires !InBook(x.books[i], id) && !HasId(x.pending[i], id)
    ensures x.Ready() && Drawn(x, draws) && Traded(OutcomeOf(x, draws, i).NewTrades(), id) == 0
  {
    hide InBook, BookOk, RunBatch, BatchReady, Traded, Left, Inv;
    InvReady(x);
    DrawsDrawn(x, draws);
    BookInvOk(x, i);
    HeldIsReady(x, draws, i);
    var d := draws[i];
    assert !HasId(d.buys, id) && !HasId(d.sells, id) by {
      NotDrawn(d, x.pending[i], id);
    }
    BatchConserves(x.books[i], d.buys, d.sells, i, id);
    BatchBook(x.books[i], d.buys, d.sells, i);
    InBookLeft(x.books[i], i, id);
    InBookLeft(OutcomeOf(x, draws, i).book, i, id);
  }

  lemma {:induction false} NotDrawn(d: Draw, xs: seq<OrderState>, id: OrderId)
    requires DrawOk(d, xs) && !HasId(xs, id)
    ensures !HasId(d.buys, id) && !HasId(d.sells, id)
  {
    forall s | s in d.buys || s in d.sells
      ensures s.id != id
    {
      assert s in xs;
    }
  }

  twostate lemma {:induction false} OrderBatched(o: Order, new x: Exchange, new draws: Draws)
    requires x.Ready() && Drawn(x, draws) && o.id in x.roll && old(o.State()) == x.roll[o.id]
    requires var i := o.instrument;
             o.remaining == old(o.remaining) -
               if i in x.pending && i in x.books then Traded(OutcomeOf(x, draws, i).NewTrades(), o.id) else 0
    ensures o.State() == RunBatches(x, draws).roll[o.id]
  {
    hide Traded, OutcomeOf, RunBatches;
    BatchedFields(x, draws);
  }

  /** Every order object is now what the batches made of it. */
  twostate lemma {:induction false} RosterBatched(s: Scene, new draws: Draws, new kept: set<object>)
    requires s.pools.Keys == s.x.pending.Keys && s.pools.Keys <= s.books.Keys == s.x.books.Keys
    requires s.x.Ready() && Drawn(s.x, draws) && BatchesDone(s, draws) && kept <= s.repr && unchanged(kept)
    requires old(SparedOrders(s.books, s.pools, s.x, s.roster, kept)) && old(RosterIs(s.roster, s.x.roll))
    requires DrawsOk(s.x, draws) && Inv(s.x)
    ensures RosterIs(s.roster, RunBatches(s.x, draws).roll)
  {
    hide Traded, OutcomeOf, RunBatches, Inv, InBook, HasId, Everybody, DrawsOk, BatchDone, BookIs;
    BatchedFields(s.x, draws);
    forall id | id in s.roster
      ensures s.roster[id].id == id && s.roster[id].State() == RunBatches(s.x, draws).roll[id]
    {
      var o, i := s.roster[id], s.roster[id].instrument;
      if i in s.pools && o in old(Everybody(s.pools[i], s.books[i])) {
        DoneUnfolds(s, draws, i);
      } else {
        assert o in kept;
        if i in s.pools {
          OthersTradeNothing(s.x, draws, i, id);
        }
      }
      OrderBatched(o, s.x, draws);
    }
  }

  // ---- the engine run ----

  /** Runs the engine on all books with held orders. */
  method SettlePools(engine: BatchMatchingEngine, books: Books, ghost frame: set<object>)
    returns (results: map<InstrumentId, Results>, ghost draws: Draws)
    requires engine !in frame && PoolsFit(books, engine.pendingOrders, frame)
    modifies engine, frame
    ensures engine.pendingOrders == map[] && results.Keys == old(engine.pendingOrders).Keys
    ensures AllSettled(books, old(engine.pendingOrders), draws, results)
            && PoolLevelsApart(books, old(engine.pendingOrders))
  {
    hide OrderBook.Valid, Settled, Snapshot, Held, Distinct, Objects;
    results, draws := engine.ExecuteBatch(books, frame);
  }

  /** Runs the engine, and the books and orders go on as one exchange step. */
  method RunPools(engine: BatchMatchingEngine, books: Books, ghost x: Exchange, ghost roster: Roster,
                  ghost repr: set<object>)
    returns (results: map<InstrumentId, Results>, ghost draws: Draws, ghost more: set<PriceLevel>)
    requires BooksAre(books, x.books, roster) && PoolsAre(engine.pendingOrders, x.pending, roster)
             && RosterIs(roster, x.roll)
    requires Owned(books, engine.pendingOrders, roster, repr) && Inv(x) && engine !in repr
    modifies engine, repr
    ensures engine.pendingOrders == map[] && results.Keys == x.pending.Keys
    ensures x.Ready() && DrawsOk(x, draws) && Drawn(x, draws)
    ensures BooksAre(books, RunBatches(x, draws).books, roster) && RosterIs(roster, RunBatches(x, draws).roll)
    ensures Owned(books, map[], roster, repr + more) && fresh(more - repr)
    ensures AllReported(x, draws, results)
  {
    hide Inv, BooksAre, PoolsAre, RosterIs, Owned, BatchObjects, LevelsIn, LiveIn, PooledIn, RunBatches, DrawsOk,
      AllReported, PoolsPrepared, BatchesDone, SparedBooks, SparedOrders, PoolsFit, PoolLevelsApart, AllSettled;
    ghost var pools := engine.pendingOrders;
    PoolsReady(books, pools, x, roster, repr);
    InvReady(x);
    BeforeBatch(books, pools, x, roster, repr);
    ghost var frame, rest := BatchObjects(books, pools), Spared(books, pools, repr);
    results, draws := SettlePools(engine, books, frame);
    more := LevelsIn(books);
    assert unchanged(rest);
    ghost var s := Scene(books, pools, x, roster, repr);
    PoolsBatched(s, draws, results);
    BooksAfter(s, draws, rest);
    RosterBatched(s, draws, rest);
  }
}
