/** Pre-trade validation: the configured constraints of a role checked in order
    up to the first violation, and the validator thread around them. */
module Validation {
  import opened Orders
  import opened Positions
  import opened RateLimit

  type Role = nat

  datatype Kind = Limit | Market | Quote

  /** A missing limit is an infinite one. */
  datatype Constraint =
    | PositionLimit(maxPosition: Option<int>, symmetric: bool)
    | PortfolioLimit(maxTotal: Option<int>)
    | OrderSize(minSize: int, maxSize: Option<int>)
    | OrderRate(maxPerSecond: Option<nat>)
    | OrderTypeAllowed(kinds: set<Kind>)
    | InstrumentAllowed(instruments: set<InstrumentId>)
    | PriceRange(minPrice: int, maxPrice: Option<int>)
    | Unregistered  // a type without an implementation, which is skipped

  datatype Config = Config(constraint: Constraint, code: nat)

  /** `isQuote` is the attribute that only quote orders carry. */
  datatype Context = Context(order: OrderState, isQuote: bool, positions: Holdings, ordersThisSecond: nat)

  function KindOf(c: Context): Kind {
    if c.isQuote then Quote else if c.order.price.None? then Market else Limit
  }

  predicate AtMost(n: int, max: Option<int>) {
    max.Some? ==> n <= max.value
  }

  /** The positions if the order were filled in full. */
  function Filled(c: Context): Holdings {
    var i := c.order.instrument;
    c.positions[i := PositionIn(c.positions, i) + Signed(c.order.side, c.order.quantity)]
  }

  /** What a constraint means. */
  ghost predicate Satisfied(k: Constraint, c: Context) {
    match k
    case PositionLimit(max, _) => AtMost(Abs(PositionIn(Filled(c), c.order.instrument)), max)
    case PortfolioLimit(max) => AtMost(TotalAbs(Filled(c)), max)
    case OrderSize(min, max) => min <= c.order.quantity && AtMost(c.order.quantity, max)
    case OrderRate(max) => max.Some? ==> c.ordersThisSecond < max.value
    case OrderTypeAllowed(kinds) => KindOf(c) in kinds
    case InstrumentAllowed(instruments) => c.order.instrument in instruments
    case PriceRange(min, max) => c.order.price.Some? ==> min <= c.order.price.value && AtMost(c.order.price.value, max)
    case Unregistered => true
  }

  /** Every constraint against the position service: the limits say where its table
      would be if the order were filled in full, the others what the order is. */
  lemma {:induction false} SatisfiedExactly(k: Constraint, c: Context, team: TeamId, before: Table, after: Table)
    requires c.positions == Of(before, team)
    requires var (o, i) := (c.order, c.order.instrument);
             var position := At(before, team, i) + if o.side.Buy? then o.quantity else -o.quantity;
             after == before[team := Of(before, team)[i := position]]
    ensures var o := c.order;
            Satisfied(k, c) <==>
            match k
            case PositionLimit(max, _) => max.Some? ==> -max.value <= At(after, team, o.instrument) <= max.value
            case PortfolioLimit(max) => max.Some? ==> TotalAbs(Of(after, team)) <= max.value
            case OrderSize(min, max) => min <= o.quantity && (max.Some? ==> o.quantity <= max.value)
            case OrderRate(max) => max.Some? ==> c.ordersThisSecond + 1 <= max.value
            case OrderTypeAllowed(kinds) =>
              && (c.isQuote ==> Quote in kinds)
              && (!c.isQuote && o.price == None ==> Market in kinds)
              && (!c.isQuote && o.price != None ==> Limit in kinds)
            case InstrumentAllowed(instruments) => exists i :: i in instruments && i == o.instrument
            case PriceRange(min, max) =>
              o.price.Some? ==> min <= o.price.value && (max.Some? ==> o.price.value <= max.value)
            case Unregistered => true
  {
    assert Of(after, team) == Filled(c);
  }

  method Check(k: Constraint, c: Context) returns (ok: bool)
    ensures ok <==> Satisfied(k, c)
  {
    var o := c.order;
    match k
    case PositionLimit(max, symmetric) =>
      var n := PositionIn(c.positions, o.instrument) + Signed(o.side, o.quantity);
      ok := max.None? || if symmetric then -max.value <= n <= max.value else Abs(n) <= max.value;
    case PortfolioLimit(max) =>
      ok := CheckPortfolioLimit(c.positions, o, max);
    case OrderSize(min, max) =>
      ok := min <= o.quantity && (max.None? || o.quantity <= max.value);
    case OrderRate(max) =>
      ok := max.None? || c.ordersThisSecond < max.value;
    case OrderTypeAllowed(kinds) =>
      ok := KindOf(c) in kinds;
    case InstrumentAllowed(instruments) =>
      ok := o.instrument in instruments;
    case PriceRange(min, max) =>
      ok := o.price.None? || (min <= o.price.value && (max.None? || o.price.value <= max.value));
    case Unregistered =>
      ok := true;
  }

  datatype Verdict = Accepted | RejectedBy(code: nat)

  ghost predicate AllSatisfied(ks: seq<Config>, c: Context) {
    forall k :: 0 <= k < |ks| ==> Satisfied(ks[k].constraint, c)
  }

  /** A constraint with this code is violated, and none before it is. */
  ghost predicate FirstViolated(ks: seq<Config>, c: Context, code: nat) {
    exists k :: 0 <= k < |ks| && !Satisfied(ks[k].constraint, c) && ks[k].code == code && AllSatisfied(ks[..k], c)
  }

  /** Accepts exactly the orders that satisfy every constraint, and otherwise
      names the first one violated. */
  method ValidateOrder(c: Context, ks: seq<Config>) returns (v: Verdict)
    ensures v.Accepted? <==> AllSatisfied(ks, c)
    ensures v.RejectedBy? ==> FirstViolated(ks, c, v.code)
  {
    var n := 0;
    while n < |ks|
      invariant n <= |ks| && AllSatisfied(ks[..n], c)
    {
      var ok := Check(ks[n].constraint, c);
      if !ok {
        return RejectedBy(ks[n].code);
      }
      n := n + 1;
    }
    assert ks[..|ks|] == ks;
    v := Accepted;
  }

  /** A new order as the validator thread takes it off its queue, with the clock
      readings of the check and of the increment after it. */
  datatype Request = Request(order: OrderState, isQuote: bool, team: TeamId, role: Role, checked: real, counted: real)

  /** When the accepted orders of a team were counted. */
  function AcceptedAt(rs: seq<Request>, vs: seq<Verdict>, team: TeamId): seq<real>
    requires |rs| == |vs|
  {
    if rs == [] then []
    else
      var n := |rs| - 1;
      var before := AcceptedAt(rs[..n], vs[..n], team);
      if rs[n].team == team && vs[n].Accepted? then before + [rs[n].counted] else before
  }

  class OrderValidationService {
    const rates: RateWindows
    const positions: PositionService
    const configs: map<Role, seq<Config>>

    constructor (rates: RateWindows, positions: PositionService, configs: map<Role, seq<Config>>)
      ensures this.rates == rates && this.positions == positions && this.configs == configs
    {
      this.rates, this.positions, this.configs := rates, positions, configs;
    }

    function For(role: Role): seq<Config> {
      if role in configs then configs[role] else []
    }

    /** The context of an order with the true count of its second. */
    ghost function TrueContext(r: Request): Context
      reads rates, positions
    {
      var count := CountIn(rates.History(r.team), Second(r.checked));
      Context(r.order, r.isQuote, Of(positions.positions, r.team), count)
    }

    method ValidateNewOrder(r: Request) returns (v: Verdict)
      requires rates.Valid() && Forward(rates.History(r.team), r.checked)
      ensures v.Accepted? <==> AllSatisfied(For(r.role), TrueContext(r))
      ensures v.RejectedBy? ==> FirstViolated(For(r.role), TrueContext(r), v.code)
    {
      var held := if r.team in positions.positions then positions.positions[r.team] else map[];
      var count := rates.GetOrderCount(r.team, r.checked);
      v := ValidateOrder(Context(r.order, r.isQuote, held, count), For(r.role));
    }

    /** One order through the validator thread: checked, and counted if accepted.
        Accepted, it cannot take its team's position in the instrument beyond any
        position limit of the role, even filled in full; refused over a position
        limit, it would. */
    method HandleNewOrder(r: Request) returns (v: Verdict)
      requires rates.Valid() && Forward(rates.History(r.team), r.checked) && r.checked <= r.counted
      modifies rates
      ensures rates.Valid()
      ensures v.Accepted? <==> AllSatisfied(For(r.role), old(TrueContext(r)))
      ensures v.RejectedBy? ==> FirstViolated(For(r.role), old(TrueContext(r)), v.code)
      ensures r.role !in configs ==> v.Accepted?
      ensures r.role in configs ==>
                var (q, ks) := (r.order.quantity, configs[r.role]);
                var p := At(positions.positions, r.team, r.order.instrument) + if r.order.side.Buy? then q else -q;
                && (v.Accepted? ==>
                      forall k :: 0 <= k < |ks| && ks[k].constraint.PositionLimit? ==>
                        var max := ks[k].constraint.maxPosition;
                        max.Some? ==> -max.value <= p <= max.value)
                && (v.RejectedBy? && (forall k :: 0 <= k < |ks| && ks[k].code == v.code ==>
                                        ks[k].constraint.PositionLimit?) ==>
                      exists k :: 0 <= k < |ks| && ks[k].code == v.code &&
                        var max := ks[k].constraint.maxPosition;
                        max.Some? && !(-max.value <= p <= max.value))
      ensures forall team :: rates.History(team) ==
                if team == r.team && v.Accepted? then old(rates.History(team)) + [r.counted]
                else old(rates.History(team))
    {
      hide CountIn, TotalAbs, Latest, EndsIn, Stands, Satisfied;
      LimitsMeet(For(r.role), TrueContext(r), r.team, positions.positions);
      v := ValidateNewOrder(r);
      if v.Accepted? {
        rates.IncrementOrderCount(r.team, r.counted);
      }
    }

    /** An accepted order that is then filled in full leaves its team within every
        position limit and every portfolio limit of the role. */
    method FillAccepted(r: Request) returns (v: Verdict)
      requires rates.Valid() && Forward(rates.History(r.team), r.checked) && r.checked <= r.counted
      modifies rates, positions
      ensures rates.Valid()
      ensures v.RejectedBy? ==> positions.positions == old(positions.positions)
      ensures v.Accepted? && r.role in configs ==>
                var (p, total, ks) := (At(positions.positions, r.team, r.order.instrument),
                                       TotalAbs(Of(positions.positions, r.team)), configs[r.role]);
                forall k :: 0 <= k < |ks| ==>
                  match ks[k].constraint
                  case PositionLimit(max, _) => max.Some? ==> -max.value <= p <= max.value
                  case PortfolioLimit(max) => max.Some? ==> total <= max.value
                  case _ => true
    {
      hide CountIn, TotalAbs, Latest, EndsIn, Stands, Satisfied;
      ghost var c := TrueContext(r);
      ghost var before := positions.positions;
      v := HandleNewOrder(r);
      if v.Accepted? {
        positions.UpdatePosition(r.team, r.order.instrument, Signed(r.order.side, r.order.quantity));
        forall k | 0 <= k < |For(r.role)| {
          SatisfiedExactly(For(r.role)[k].constraint, c, r.team, before, positions.positions);
        }
      }
    }

    /** Every team with a limit here submits under a role configured with no higher
        a rate. Teams without one submit under any role. */
    ghost predicate Limited(rs: seq<Request>, limits: map<TeamId, nat>) {
      forall n :: 0 <= n < |rs| && rs[n].team in limits ==> RateWithin(For(rs[n].role), limits[rs[n].team])
    }

    /** The readings of one thread on a clock that never goes back. */
    ghost predicate OneThread(rs: seq<Request>) {
      && (forall n :: 0 <= n < |rs| ==> rs[n].checked <= rs[n].counted)
      && forall m, n :: 0 <= m < n < |rs| ==> rs[m].counted <= rs[n].checked
    }

    /** One order of a stream that has kept every limit so far. */
    method HandleNext(r: Request, ghost limits: map<TeamId, nat>) returns (v: Verdict)
      requires rates.Valid() && Forward(rates.History(r.team), r.checked) && r.checked <= r.counted
      requires r.team in limits ==> RateWithin(For(r.role), limits[r.team])
      requires forall team :: team in limits ==> WithinRate(rates.History(team), limits[team])
      modifies rates
      ensures rates.Valid() && forall team :: team in limits ==> WithinRate(rates.History(team), limits[team])
      ensures forall team :: rates.History(team) ==
                if team == r.team && v.Accepted? then old(rates.History(team)) + [r.counted]
                else old(rates.History(team))
    {
      hide CountIn, WithinRate, Stands, Latest, EndsIn, AllSatisfied, FirstViolated, RateWithin, CountShown, Second,
        ReadAt;
      ghost var w, ticks, c := rates.Of(r.team), rates.History(r.team), TrueContext(r);
      assert Stands(w, ticks);
      ShownIsCount(w, ticks, r.checked);
      ForwardIsLatest(ticks, r.checked);
      v := HandleNewOrder(r);
      if v.Accepted? && r.team in limits {
        RateChecked(For(r.role), c, limits[r.team]);
        AcceptanceKeepsRate(w, ticks, r.checked, r.counted, limits[r.team]);
      }
    }

    /** With one validator thread, no team ever has more orders accepted in any
        second [n, n + 1) than its own limit, wherever the clock ticks over and
        whatever the limits of the others are. */
    method RunValidator(rs: seq<Request>, ghost limits: map<TeamId, nat>) returns (vs: seq<Verdict>)
      requires rates.Valid() && forall team :: rates.History(team) == []
      requires Limited(rs, limits) && OneThread(rs)
      modifies rates
      ensures rates.Valid() && |vs| == |rs| && forall team :: rates.History(team) == AcceptedAt(rs, vs, team)
      ensures forall team :: team in limits ==> WithinRate(rates.History(team), limits[team])
      ensures forall team, n: nat :: team in limits ==> |ReadAt(AcceptedAt(rs, vs, team), n)| <= limits[team]
    {
      hide WithinRate, RateWithin, AcceptedAt, ReadAt, RateWindows.Valid;
      forall team | team in limits
        ensures WithinRate(rates.History(team), limits[team])
      {
        NothingCounted(limits[team]);
      }
      NoneAccepted();
      vs := [];
      var n := 0;
      assert rs[..0] == [];
      while n < |rs|
        invariant n <= |rs| && |vs| == n && rates.Valid()
        invariant forall team :: team in limits ==> WithinRate(rates.History(team), limits[team])
        invariant forall team :: rates.History(team) == AcceptedAt(rs[..n], vs, team)
        invariant forall team, m :: n <= m < |rs| ==> Forward(rates.History(team), rs[m].checked)
      {
        var v := HandleNext(rs[n], limits);
        OneMoreVerdict(rs[..n], vs, rs[n], v);
        assert rs[..n] + [rs[n]] == rs[..n + 1];
        vs := vs + [v];
        n := n + 1;
      }
      assert rs[..|rs|] == rs;
      forall team | team in limits
        ensures forall n: nat :: |ReadAt(rates.History(team), n)| <= limits[team]
      {
        WithinByClock(rates.History(team), limits[team]);
      }
    }
  }

  lemma {:induction false} NoneAccepted()
    ensures forall team :: AcceptedAt([], [], team) == []
  {
  }

  lemma {:induction false} OneMoreVerdict(rs: seq<Request>, vs: seq<Verdict>, r: Request, v: Verdict)
    requires |rs| == |vs|
    ensures forall team ::
              AcceptedAt(rs + [r], vs + [v], team) ==
              if team == r.team && v.Accepted? then AcceptedAt(rs, vs, team) + [r.counted] else AcceptedAt(rs, vs, team)
  {
    assert (rs + [r])[..|rs|] == rs && (vs + [v])[..|vs|] == vs;
  }

  /** What the position limits among some constraints say of one position. */
  lemma {:induction false} LimitsMeet(ks: seq<Config>, c: Context, team: TeamId, table: Table)
    requires c.positions == Of(table, team)
    ensures var p := At(table, team, c.order.instrument)
              + if c.order.side.Buy? then c.order.quantity else -c.order.quantity;
            forall k :: 0 <= k < |ks| && ks[k].constraint.PositionLimit? ==>
              (Satisfied(ks[k].constraint, c) <==>
               ks[k].constraint.maxPosition.None?
               || -ks[k].constraint.maxPosition.value <= p <= ks[k].constraint.maxPosition.value)
  {
  }

  /** Some rate constraint among these allows at most so many orders a second. */
  ghost predicate RateWithin(ks: seq<Config>, max: nat) {
    exists k :: 0 <= k < |ks| && ks[k].constraint.OrderRate? && ks[k].constraint.maxPerSecond.Some?
                && ks[k].constraint.maxPerSecond.value <= max
  }

  lemma {:induction false} NothingCounted(max: nat)
    ensures WithinRate([], max)
  {
  }

  lemma {:induction false} RateChecked(ks: seq<Config>, c: Context, max: nat)
    requires AllSatisfied(ks, c) && RateWithin(ks, max)
    ensures c.ordersThisSecond < max
  {
  }
}
