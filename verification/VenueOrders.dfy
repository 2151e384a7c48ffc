/** One order at the venue: matched in one of many books, held back, or taken out
    of its book, while everything else stays as it is. */
module VenueOrders {
  import opened Orders
  import opened PriceTime
  import opened BookLaws
  import opened BatchAccounts
  import opened OrderBooks
  import opened BatchEngines
  import ContinuousEngines
  import opened Registry
  import opened Exchanges
  import opened ExchangeSteps
  import opened VenueObjects

  // ---- where an order goes ----

  function WithHeld(x: Exchange, o: OrderState): Exchange {
    x.(pending := x.pending[o.instrument := x.Waiting(o.instrument) + [o]])
  }

  ghost function WithMatched(x: Exchange, o: OrderState): Exchange
    requires x.Ready() && o.instrument in x.books
  {
    var a := Add(x.books[o.instrument], o);
    x.(books := x.books[o.instrument := a.book], roll := Touched(x.roll, o.instrument, a.trades))
  }

  /** The three ways to refuse an order, and what accepting it comes to. */
  lemma {:induction false} Submitting(x: Exchange, o: Order)
    requires Inv(x) && o.State().Fresh()
    ensures x.Ready()
    ensures var was := o.State();
            if !x.state.submission then
              Exchanges.SubmitOrder(x, was) == (x, Placed(OrderResult(o.id, Rejected, [], o.quantity)))
            else if o.instrument !in x.books then Exchanges.SubmitOrder(x, was) == (x, Failed(UnknownInstrument))
            else if o.id in x.ids then Exchanges.SubmitOrder(x, was) == (x, Failed(DuplicateOrderId))
            else
              var y := Accepted(x, was);
              && y.Ready() && y.books == x.books && y.pending == x.pending && y.state == x.state
              && (forall i :: i in x.books ==> !InBook(x.books[i], o.id))
              && (forall i :: i in x.pending ==> !HasId(x.pending[i], o.id))
              && if x.state.Holds() then
                   && Inv(WithHeld(y, was))
                   && Exchanges.SubmitOrder(x, was) ==
                      (WithHeld(y, was), Placed(OrderResult(o.id, PendingNew, [], o.quantity)))
                 else
                   var a := Add(x.books[o.instrument], was);
                   && Inv(WithMatched(y, was))
                   && Exchanges.SubmitOrder(x, was) == (WithMatched(y, was), Placed(ResultOf(a.order, a.trades)))
  {
    hide Inv, OrderState.Fresh, InBook, HasId, Add, Touched;
    InvReady(x);
    SubmitKeepsInv(x, o.State());
    if o.id !in x.ids {
      UnusedId(x, o.id);
    }
  }

  // ---- an order enrolls ----

  /** Books without the id do not notice that an order enrolls under it. */
  lemma {:induction false} BooksEnroll(books: Books, flats: map<InstrumentId, Book>, roster: Roster, o: Order)
    requires BooksAre(books, flats, roster) && forall i :: i in flats ==> !InBook(flats[i], o.id)
    ensures BooksAre(books, flats, roster[o.id := o])
  {
    hide OrderBook.Valid, OrderBook.AsBook, InBook, BookIs;
    forall i | i in books
      ensures BookIs(books[i], i, flats[i], roster[o.id := o])
    {
      BookEnrolls(books[i], i, flats[i], roster, o);
    }
  }

  lemma {:induction false} BookEnrolls(b: OrderBook, i: InstrumentId, flat: Book, roster: Roster, o: Order)
    requires BookIs(b, i, flat, roster) && !InBook(flat, o.id)
    ensures BookIs(b, i, flat, roster[o.id := o])
  {
    hide OrderBook.Valid, OrderBook.AsBook, InBook;
    b.LiveIds();
    b.ValidBook();
  }

  lemma {:induction false} PoolsEnroll(pools: Pools, held: map<InstrumentId, seq<OrderState>>, roster: Roster, o: Order)
    requires PoolsAre(pools, held, roster) && forall i :: i in held ==> !HasId(held[i], o.id)
    ensures PoolsAre(pools, held, roster[o.id := o])
  {
    hide PoolIs, HasId;
    forall i | i in pools
      ensures PoolIs(pools[i], i, held[i], roster[o.id := o])
    {
      PoolEnrolls(pools[i], i, held[i], roster, o);
    }
  }

  lemma {:induction false} PoolEnrolls(orders: seq<Order>, i: InstrumentId, states: seq<OrderState>, roster: Roster,
                                       o: Order)
    requires PoolIs(orders, i, states, roster) && !HasId(states, o.id)
    ensures PoolIs(orders, i, states, roster[o.id := o])
  {
    forall x | x in orders
      ensures Enrolled(x, roster[o.id := o])
    {
      var k :| 0 <= k < |orders| && orders[k] == x;
      assert states[k].id == x.id;
    }
  }

  lemma {:induction false} RosterEnrolls(books: Books, pools: Pools, roster: Roster, roll: Roll, repr: set<object>,
                                         o: Order)
    requires RosterIs(roster, roll) && Owned(books, pools, roster, repr)
    ensures RosterIs(roster[o.id := o], roll[o.id := o.State()])
    ensures Owned(books, pools, roster[o.id := o], repr + {o})
  {
  }

  /** An order enrolls under an id that no book and no held list has. */
  lemma {:induction false} AllEnroll(books: Books, pools: Pools, x: Exchange, roster: Roster, repr: set<object>,
                                     o: Order)
    requires BooksAre(books, x.books, roster) && PoolsAre(pools, x.pending, roster) && RosterIs(roster, x.roll)
    requires Owned(books, pools, roster, repr)
    requires forall i :: i in x.books ==> !InBook(x.books[i], o.id)
    requires forall i :: i in x.pending ==> !HasId(x.pending[i], o.id)
    ensures var everyone := roster[o.id := o];
            && BooksAre(books, x.books, everyone) && PoolsAre(pools, x.pending, everyone)
            && RosterIs(everyone, Accepted(x, o.State()).roll) && Owned(books, pools, everyone, repr + {o})
  {
    hide BooksAre, PoolsAre, RosterIs, Owned, InBook, HasId;
    BooksEnroll(books, x.books, roster, o);
    PoolsEnroll(pools, x.pending, roster, o);
    RosterEnrolls(books, pools, roster, x.roll, repr, o);
  }

  lemma {:induction false} PoolsGrow(books: Books, pools: Pools, held: map<InstrumentId, seq<OrderState>>,
                                     roster: Roster, repr: set<object>, o: Order)
    requires PoolsAre(pools, held, roster) && Owned(books, pools, roster, repr) && Enrolled(o, roster)
    ensures var i := o.instrument;
            var xs := (if i in pools then pools[i] else []) + [o];
            var ss := (if i in held then held[i] else []) + [o.State()];
            && PoolsAre(pools[i := xs], held[i := ss], roster)
            && Owned(books, pools[i := xs], roster, repr)
  {
    var xs := if o.instrument in pools then pools[o.instrument] else [];
    StatesConcat(xs, [o]);
    assert States([o]) == [o.State()] by {
      assert [o][1..] == [];
    }
    assert o in roster.Values;
  }

  // ---- one order matched in one book ----

  /** Of the given objects, what an order matched in a book leaves alone. */
  ghost function Rest(b: OrderBook, o: Order, repr: set<object>): set<object>
    reads b
  {
    repr - {b} - b.levels - b.live - {o}
  }

  /** The other books share nothing with one of them, nor with an order for it. */
  lemma {:induction false} BooksApart(books: Books, pools: Pools, flats: map<InstrumentId, Book>, roster: Roster,
                                      repr: set<object>, i: InstrumentId, o: Order)
    requires BooksAre(books, flats, roster) && Owned(books, pools, roster, repr) && i in books && o.instrument == i
    ensures var rest := Rest(books[i], o, repr);
            && (forall j :: j in books && j != i ==>
                  books[j] in rest && books[j].levels <= rest && books[j].live <= rest)
            && (forall id :: id in roster && roster[id] !in books[i].live && roster[id] != o ==> roster[id] in rest)
  {
    hide OrderBook.Valid, OrderBook.AsBook;
    assert BookIs(books[i], i, flats[i], roster);
    forall j | j in books && j != i
      ensures books[j] in Rest(books[i], o, repr)
      ensures books[j].levels <= Rest(books[i], o, repr) && books[j].live <= Rest(books[i], o, repr)
    {
      assert BookIs(books[j], j, flats[j], roster);
      assert books[j].levels <= LevelsIn(books) && books[j].live <= LiveIn(books);
    }
  }

  /** No held order rests in a book. */
  lemma {:induction false} PoolsApart(books: Books, pools: Pools, x: Exchange, roster: Roster, repr: set<object>,
                                      i: InstrumentId, o: Order)
    requires Inv(x) && BooksAre(books, x.books, roster) && PoolsAre(pools, x.pending, roster)
    requires Owned(books, pools, roster, repr) && i in books
    requires forall j :: j in x.pending ==> !HasId(x.pending[j], o.id)
    ensures PooledIn(pools) <= Rest(books[i], o, repr)
  {
    hide Inv, BooksAre, BookIs, InBook;
    BookAt(books, x.books, roster);
    forall y | y in PooledIn(pools)
      ensures y in Rest(books[i], o, repr)
    {
      var j :| j in pools && y in pools[j];
      assert PoolIs(pools[j], j, x.pending[j], roster);
      var k :| 0 <= k < |pools[j]| && pools[j][k] == y;
      assert x.pending[j][k] == y.State() && HasId(x.pending[j], y.id);
      HeldNowhere(x, j, k, i);
      LiveInBook(books[i], i, x.books[i], roster, y.id);
    }
  }

  twostate lemma {:induction false} BookIsStill(s: Scene, new i: InstrumentId, new o: Order)
    requires i in s.books && i in s.x.books && old(BookIs(s.books[i], i, s.x.books[i], s.roster))
    requires Enrolled(o, s.roster) && o.instrument == i
    requires s.books[i].Valid() && s.books[i].live <= old(s.books[i].live) + {o}
    ensures BookIs(s.books[i], i, s.books[i].AsBook(), s.roster)
  {
    hide OrderBook.Valid, OrderBook.AsBook;
  }

  /** An order was matched in one book, and the others, among the objects kept as
      they were, are as they were. */
  twostate lemma {:induction false} OneBookChanged(s: Scene, new i: InstrumentId, new o: Order, new kept: set<object>)
    requires i in s.books && kept <= s.repr && unchanged(kept) && Enrolled(o, s.roster)
    requires var b := s.books[i];
             && BookIs(b, i, b.AsBook(), s.roster) && b.live <= old(b.live) + {o} && fresh(b.levels - old(b.levels))
    requires forall j :: j in s.books && j != i ==>
               s.books[j] in kept && old(s.books[j].levels) <= kept && old(s.books[j].live) <= kept
    requires old(BooksAre(s.books, s.x.books, s.roster)) && old(Owned(s.books, s.pools, s.roster, s.repr))
    ensures BooksAre(s.books, s.x.books[i := s.books[i].AsBook()], s.roster)
    ensures Owned(s.books, s.pools, s.roster, s.repr + s.books[i].levels) && fresh(s.books[i].levels - s.repr)
  {
    hide OrderBook.Valid, OrderBook.AsBook, BookIs;
    forall j | j in s.books && j != i
      ensures BookIs(s.books[j], j, s.x.books[j], s.roster)
    {
      assert old(BookIs(s.books[j], j, s.x.books[j], s.roster));
    }
    assert old(s.books[i].levels) <= old(LevelsIn(s.books));
  }

  /** What matching an enrolled order in a book needs, and what it does to whom. */
  lemma {:induction false} MatchAccounts(b: OrderBook, i: InstrumentId, flat: Book, roster: Roster, roll: Roll,
                                         o: Order)
    requires BookIs(b, i, flat, roster) && RosterIs(roster, roll) && Enrolled(o, roster)
    requires o.State().Fresh() && o.instrument == i && !InBook(flat, o.id)
    ensures b.Valid() && b.instrument == i && b.AsBook() == flat && o.id !in b.orderIds && o.State().WellFormed()
    ensures forall y :: y in b.live ==> y.instrument == i && Enrolled(y, roster)
    ensures Priced(flat)
    ensures var a := Add(flat, o.State());
            && a.order.remaining == o.remaining - Traded(a.trades, o.id)
            && forall id :: id in roster && roster[id] !in b.live && roster[id] != o ==> Traded(a.trades, id) == 0
  {
    hide OrderBook.Valid, OrderBook.AsBook, InBook, BookOk, Add, Traded;
    b.ValidBook();
    FreshIsWell(o.State());
    AddConserves(flat, o.State(), i, o.id);
    forall id | id in roster && roster[id] !in b.live && roster[id] != o
      ensures Traded(Add(flat, o.State()).trades, id) == 0
    {
      LiveInBook(b, i, flat, roster, id);
      AddOtherIds(flat, o.State(), i, id);
    }
  }

  /** Every order of the book's instrument lost what some trades gave it. */
  twostate lemma {:induction false} OneBookTouched(s: Scene, new o: Order, new ts: seq<Trade>, new kept: set<object>)
    requires Enrolled(o, s.roster) && o.instrument in s.books && kept <= s.repr && unchanged(kept)
    requires var live := old(s.books[o.instrument].live);
             && (forall y :: y in live ==>
                   && y.instrument == o.instrument && Enrolled(y, s.roster)
                   && y.remaining == old(y.remaining) - Traded(ts, y.id))
             && (forall id :: id in s.roster && s.roster[id] !in live && s.roster[id] != o ==>
                   s.roster[id] in kept && Traded(ts, id) == 0)
    requires o.remaining == old(o.remaining) - Traded(ts, o.id)
    requires old(RosterIs(s.roster, s.x.roll))
    ensures RosterIs(s.roster, Touched(s.x.roll, o.instrument, ts))
  {
    hide Traded;
  }

  /** Matches an order that is on the roster in its book; `more` are the new levels. */
  method MatchIn(o: Order, books: Books, ghost pools: Pools, ghost x: Exchange, ghost roster: Roster,
                 ghost repr: set<object>)
    returns (r: Reply, ghost more: set<PriceLevel>)
    requires BooksAre(books, x.books, roster) && PoolsAre(pools, x.pending, roster) && RosterIs(roster, x.roll)
    requires Owned(books, pools, roster, repr) && Enrolled(o, roster) && o.State().Fresh() && o.instrument in books
    requires forall i :: i in x.books ==> !InBook(x.books[i], o.id)
    requires PooledIn(pools) <= Rest(books[o.instrument], o, repr)
    requires x.Ready() && o.instrument in x.books
    modifies books[o.instrument], books[o.instrument].levels, books[o.instrument].live, o
    ensures var y := WithMatched(x, old(o.State()));
            && BooksAre(books, y.books, roster) && PoolsAre(pools, y.pending, roster) && RosterIs(roster, y.roll)
    ensures Owned(books, pools, roster, repr + more) && fresh(more - repr)
    ensures var a := Add(x.books[o.instrument], old(o.State())); r == Placed(ResultOf(a.order, a.trades))
  {
    hide BooksAre, PoolsAre, RosterIs, LevelsIn, LiveIn, PooledIn, Owned, OrderState.Fresh, BookIs, OrderBook.Valid,
      Add, OrderBook.AsBook, Traded, InBook, Touched;
    ghost var i, b, was := o.instrument, books[o.instrument], o.State();
    BookAt(books, x.books, roster);
    ghost var rest := Rest(b, o, repr);
    BooksApart(books, pools, x.books, roster, repr, i, o);
    MatchAccounts(b, i, x.books[i], roster, x.roll, o);
    var result := ContinuousEngines.SubmitOrder(o, books[o.instrument]);
    r := match result case Ok(placed) => Placed(placed) case Err(error) => Failed(error);
    more := b.levels;
    ghost var s := Scene(books, pools, x, roster, repr);
    BookIsStill(s, i, o);
    OneBookChanged(s, i, o, rest);
    PoolsStay(s, rest);
    OneBookTouched(s, o, Add(x.books[i], was).trades, rest);
  }

  // ---- cancelling ----

  lemma {:induction false} RestingIsNotHeld(x: Exchange, i: InstrumentId, id: OrderId)
    requires Inv(x) && i in x.books && InBook(x.books[i], id)
    ensures forall j :: j in x.pending ==> !HasId(x.pending[j], id)
  {
    hide Inv, InBook;
    IdsInOnePlace(x, id);
    assert x.Rests(id);
  }

  /** Takes an order out of the book it rests in. */
  method WithdrawIn(id: OrderId, books: Books, i: InstrumentId, ghost pools: Pools, ghost x: Exchange,
                    ghost roster: Roster, ghost repr: set<object>)
    returns (r: Order?)
    requires BooksAre(books, x.books, roster) && PoolsAre(pools, x.pending, roster) && RosterIs(roster, x.roll)
    requires Owned(books, pools, roster, repr) && Inv(x)
    requires i in books && i in x.books && InBook(x.books[i], id)
    modifies books[i], books[i].levels
    ensures r != null
    ensures BooksAre(books, x.books[i := Cancel(x.books[i], id)], roster) && PoolsAre(pools, x.pending, roster)
    ensures RosterIs(roster, x.roll) && Owned(books, pools, roster, repr)
  {
    hide BooksAre, PoolsAre, RosterIs, LevelsIn, LiveIn, PooledIn, Owned, BookIs, OrderBook.Valid, OrderBook.AsBook,
      InBook, Inv, Cancel;
    ghost var b := books[i];
    BookAt(books, x.books, roster);
    LiveInBook(b, i, x.books[i], roster, id);
    BookUnfolds(b, i, x.books[i], roster);
    ghost var o, rest := roster[id], Rest(b, roster[id], repr);
    b.ValidBook();
    RestingIsNotHeld(x, i, id);
    BooksApart(books, pools, x.books, roster, repr, i, o);
    PoolsApart(books, pools, x, roster, repr, i, o);
    r := books[i].CancelOrder(id);
    ghost var s := Scene(books, pools, x, roster, repr);
    BookIsStill(s, i, o);
    OneBookChanged(s, i, o, rest);
    PoolsStay(s, rest);
    RosterStays(s);
    OwnedLess(books, pools, roster, repr, b.levels);
  }

  lemma {:induction false} OnlyBook(x: Exchange, i: InstrumentId, id: OrderId)
    requires Inv(x) && i in x.books && GetOrder(x.books[i], id).Some?
    ensures forall j :: j in x.books && GetOrder(x.books[j], id).Some? ==> j == i
  {
    hide InBook, GetOrder, Inv;
    IdsInOnePlace(x, id);
    forall j | j in x.books
      ensures GetOrder(x.books[j], id).Some? <==> InBook(x.books[j], id)
    {
      GetOrderFinds(x.books[j], id);
    }
  }

  /** A request is refused out of hand, or finds nothing in any book. */
  lemma {:induction false} NowhereFound(x: Exchange, id: OrderId, trader: TeamId)
    requires Inv(x)
    ensures !x.state.cancellation || id !in x.ids || (forall i :: i in x.books ==> !InBook(x.books[i], id)) ==>
              CancelRequest(x, id, trader) == (x, Cancelled(false))
  {
    hide Inv, InBook, GetOrder;
    forall i | i in x.books
      ensures GetOrder(x.books[i], id).Some? <==> InBook(x.books[i], id)
    {
      GetOrderFinds(x.books[i], id);
    }
  }

  /** One book without its orders, their ids released. */
  ghost function Emptied(x: Exchange, i: InstrumentId): Exchange
    requires i in x.books
  {
    x.(books := x.books[i := x.books[i].(bids := [], asks := [])], ids := set id | id in x.ids
      && !InBook(x.books[i], id))
  }

  /** The first n orders of a book are cancelled, and nothing else. */
  ghost predicate EmptiedUpTo(x: Exchange, z: Exchange, i: InstrumentId, all: seq<OrderState>, n: nat)
    requires n <= |all|
  {
    && i in x.books && i in z.books && z == x.(books := x.books[i := z.books[i]], ids := z.ids)
    && z.books[i].log == x.books[i].log && z.books[i].bids + z.books[i].asks == all[n..]
    && forall id :: id in z.ids <==> id in x.ids && !HasId(all[..n], id)
  }

  lemma {:induction false} EmptiedNone(x: Exchange, i: InstrumentId, all: seq<OrderState>)
    requires i in x.books && all == x.books[i].bids + x.books[i].asks
    ensures EmptiedUpTo(x, x, i, all, 0)
  {
    assert x.books[i := x.books[i]] == x.books;
  }

  lemma {:induction false} EmptiedNext(x: Exchange, z: Exchange, i: InstrumentId, all: seq<OrderState>, n: nat)
    requires Inv(z) && n < |all| && EmptiedUpTo(x, z, i, all, n)
    ensures i in z.books && InBook(z.books[i], all[n].id)
    ensures EmptiedUpTo(x, Withdrawn(z, i, all[n].id), i, all, n + 1)
  {
    hide Inv, Cancel, HasId, BookOk;
    FrontRests(z, i, all, n);
    HasIdPrefix(all, n);
  }

  lemma {:induction false} FrontRests(x: Exchange, i: InstrumentId, all: seq<OrderState>, n: nat)
    requires Inv(x) && i in x.books && n < |all| && x.books[i].bids + x.books[i].asks == all[n..]
    ensures InBook(x.books[i], all[n].id)
    ensures var c := Cancel(x.books[i], all[n].id); c.log == x.books[i].log && c.bids + c.asks == all[n + 1..]
  {
    hide Inv, Cancel, BookOk;
    var b := x.books[i];
    assert all[n..][0] == all[n] && all[n..][1..] == all[n + 1..];
    BookInvOk(x, i);
    WithoutFirst(b, i);
    assert b.bids != [] ==> b.bids[0] == all[n] && (b.bids + b.asks)[1..] == b.bids[1..] + b.asks;
    assert b.bids == [] ==> b.asks[0] == all[n];
  }

  lemma {:induction false} WithoutFirst(b: Book, i: InstrumentId)
    requires BookOk(b, i)
    ensures b.bids != [] ==> Cancel(b, b.bids[0].id) == b.(bids := b.bids[1..])
    ensures b.bids == [] && b.asks != [] ==> Cancel(b, b.asks[0].id) == b.(asks := b.asks[1..])
  {
    if b.bids != [] {
      WithoutNothing(b.asks, b.bids[0].id);
    }
  }

  lemma {:induction false} HasIdPrefix(all: seq<OrderState>, n: nat)
    requires n < |all|
    ensures forall id :: HasId(all[..n + 1], id) <==> HasId(all[..n], id) || id == all[n].id
  {
    hide HasId;
    assert all[..n + 1] == all[..n] + [all[n]];
    forall id
      ensures HasId(all[..n + 1], id) <==> HasId(all[..n], id) || id == all[n].id
    {
      HasIdSnoc(all[..n], all[n], id);
    }
  }

  lemma {:induction false} HasIdConcat(xs: seq<OrderState>, ys: seq<OrderState>, id: OrderId)
    ensures HasId(xs + ys, id) <==> HasId(xs, id) || HasId(ys, id)
  {
    if HasId(ys, id) {
      var k :| 0 <= k < |ys| && ys[k].id == id;
      assert (xs + ys)[|xs| + k].id == id;
    }
    if HasId(xs, id) {
      var k :| 0 <= k < |xs| && xs[k].id == id;
      assert (xs + ys)[k].id == id;
    }
  }

  lemma {:induction false} HasIdSnoc(xs: seq<OrderState>, x: OrderState, id: OrderId)
    ensures HasId(xs + [x], id) <==> HasId(xs, id) || id == x.id
  {
    HasIdConcat(xs, [x], id);
    assert [x][0] == x;
  }

  lemma {:induction false} EmptiedWhole(x: Exchange, z: Exchange, i: InstrumentId)
    requires i in x.books && var all := x.books[i].bids + x.books[i].asks; EmptiedUpTo(x, z, i, all, |all|)
    ensures z == Emptied(x, i)
  {
    hide HasId;
    var all := x.books[i].bids + x.books[i].asks;
    assert all[..|all|] == all;
    forall id
      ensures HasId(all, id) <==> InBook(x.books[i], id)
    {
      HasIdConcat(x.books[i].bids, x.books[i].asks, id);
    }
    assert z.ids == Emptied(x, i).ids;
    assert z.books[i] == Emptied(x, i).books[i];
  }

  /** The first n of the listed books are emptied, and the other books as they were. */
  ghost predicate ClosedUpTo(x: Exchange, z: Exchange, keys: seq<InstrumentId>, n: nat)
    requires n <= |keys|
  {
    && z == x.(books := z.books, ids := z.ids) && z.books.Keys == x.books.Keys
    && (forall k :: 0 <= k < |keys| ==>
          && keys[k] in x.books
          && z.books[keys[k]] == if k < n then x.books[keys[k]].(bids := [], asks := []) else x.books[keys[k]])
    && forall id :: id in z.ids <==> id in x.ids && forall k :: 0 <= k < n ==> !InBook(x.books[keys[k]], id)
  }

  lemma {:induction false} ClosedNone(x: Exchange, keys: seq<InstrumentId>)
    requires forall k :: 0 <= k < |keys| ==> keys[k] in x.books
    ensures ClosedUpTo(x, x, keys, 0)
  {
    hide InBook;
  }

  lemma {:induction false} ClosedNext(x: Exchange, z: Exchange, keys: seq<InstrumentId>, n: nat)
    requires n < |keys| && ClosedUpTo(x, z, keys, n) && forall i, j :: 0 <= i < j < |keys| ==> keys[i] != keys[j]
    ensures keys[n] in z.books && ClosedUpTo(x, Emptied(z, keys[n]), keys, n + 1)
  {
    hide InBook;
  }

  lemma {:induction false} ClosedAll(x: Exchange, z: Exchange, keys: seq<InstrumentId>)
    requires ClosedUpTo(x, z, keys, |keys|) && forall i :: i in keys <==> i in x.books
    ensures z == CloseMarket(x)
  {
    hide InBook;
    forall id
      ensures id in z.ids <==> id in CloseMarket(x).ids
    {
      RestsListed(x, keys, id);
    }
    forall i | i in z.books
      ensures z.books[i] == CloseMarket(x).books[i]
    {
      assert i in keys;
    }
    assert z.books == CloseMarket(x).books && z.ids == CloseMarket(x).ids;
  }

  lemma {:induction false} RestsListed(x: Exchange, keys: seq<InstrumentId>, id: OrderId)
    requires forall i :: i in keys <==> i in x.books
    ensures x.Rests(id) <==> exists k :: 0 <= k < |keys| && keys[k] in x.books && InBook(x.books[keys[k]], id)
  {
    hide InBook;
    if x.Rests(id) {
      var i :| i in x.books && InBook(x.books[i], id);
      assert i in keys;
      var k :| 0 <= k < |keys| && keys[k] == i;
    }
  }
}
