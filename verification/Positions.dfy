/** Position keeping: the nested position table, the tracker that settles fills
    into it, the trade processor, and the portfolio limit check. */
module Positions {
  import opened Collections
  import opened Orders

  type Holdings = map<InstrumentId, int>
  type Table = map<TeamId, Holdings>

  function Of(table: Table, team: TeamId): Holdings {
    if team in table then table[team] else map[]
  }

  function PositionIn(h: Holdings, i: InstrumentId): int {
    if i in h then h[i] else 0
  }

  function At(table: Table, team: TeamId, i: InstrumentId): int {
    PositionIn(Of(table, team), i)
  }

  function Abs(n: int): int {
    if n < 0 then -n else n
  }

  /** Sum of the absolute positions, in whatever order they are visited. */
  ghost function TotalAbs(h: Holdings): int {
    if h == map[] then 0
    else
      var i := Pick(h);
      Abs(h[i]) + TotalAbs(h - {i})
  }

  ghost function Pick(h: Holdings): (i: InstrumentId)
    requires h != map[]
    ensures i in h
  {
    SomeKey(h);
    var i :| i in h;
    i
  }

  lemma {:induction false} SomeKey<K, V>(m: map<K, V>)
    requires m != map[]
    ensures exists k :: k in m
  {
  }

  lemma {:induction false} TotalPick(h: Holdings, i: InstrumentId)
    requires i in h
    ensures TotalAbs(h) == Abs(h[i]) + TotalAbs(h - {i})
    decreases |h|
  {
    var j := Pick(h);
    if i != j {
      TotalPick(h - {j}, i);
      TotalPick(h - {i}, j);
      assert h - {j} - {i} == h - {i} - {j};
    }
  }

  /** What makes it the total: nothing held is 0, and a new position counts in full,
      long or short. */
  lemma {:induction false} TotalGrows(h: Holdings, i: InstrumentId, n: int)
    requires i !in h
    ensures TotalAbs(map[]) == 0
    ensures TotalAbs(h[i := n]) == TotalAbs(h) + if n >= 0 then n else -n
  {
    TotalPick(h[i := n], i);
    assert h[i := n] - {i} == h;
  }

  /** The portfolio total after a position changes, held before or not. */
  lemma {:induction false} TotalAfter(h: Holdings, i: InstrumentId, delta: int)
    ensures TotalAbs(h[i := PositionIn(h, i) + delta]) == TotalAbs(h) - Abs(PositionIn(h, i))
            + Abs(PositionIn(h, i) + delta)
  {
    var h' := h[i := PositionIn(h, i) + delta];
    TotalPick(h', i);
    if i in h {
      TotalPick(h, i);
      assert h' - {i} == h - {i};
    } else {
      assert h' - {i} == h;
    }
  }

  method SumAbs(h: Holdings) returns (n: int)
    ensures n == TotalAbs(h)
  {
    n := 0;
    var rest := h;
    while rest.Keys != {}
      invariant n + TotalAbs(rest) == TotalAbs(h)
      decreases |rest|
    {
      ghost var some := SomeIn(rest.Keys);
      var i :| i in rest.Keys;
      TotalPick(rest, i);
      n := n + Abs(rest[i]);
      rest := rest - {i};
    }
    assert rest == map[];
  }

  function Signed(side: Side, q: int): int {
    if side.Buy? then q else -q
  }

  /** The incremental portfolio check decides as recomputing the total over the
      positions updated for the full order would. No limit means infinity. */
  method CheckPortfolioLimit(h: Holdings, o: OrderState, max: Option<int>) returns (ok: bool)
    ensures ok <==> max.Some? ==>
              TotalAbs(h[o.instrument := PositionIn(h, o.instrument) + Signed(o.side, o.quantity)]) <= max.value
  {
    var total := SumAbs(h);
    var delta := Signed(o.side, o.quantity);
    var newTotal := total - Abs(PositionIn(h, o.instrument)) + Abs(PositionIn(h, o.instrument) + delta);
    TotalAfter(h, o.instrument, delta);
    ok := max.None? || newTotal <= max.value;
  }

  class PositionService {
    var positions: Table

    constructor ()
      ensures positions == map[]
    {
      positions := map[];
    }

    /** Adds to one position and leaves every other one alone. */
    method UpdatePosition(team: TeamId, i: InstrumentId, delta: int)
      modifies this
      ensures positions == old(positions)[team := Of(old(positions), team)[i := At(old(positions), team, i) + delta]]
      ensures forall t, j :: At(positions, t, j) == At(old(positions), t, j) + if t == team && j == i then delta else 0
      ensures TotalAbs(Of(positions, team)) ==
              TotalAbs(Of(old(positions), team)) - Abs(At(old(positions), team, i))
                + Abs(At(old(positions), team, i) + delta)
    {
      TotalAfter(Of(positions, team), i, delta);
      if team !in positions {
        positions := positions[team := map[]];
      }
      var held: Holdings := positions[team];
      if i !in held {
        held := held[i := 0];
      }
      held := held[i := held[i] + delta];
      assert held == Of(old(positions), team)[i := At(old(positions), team, i) + delta];
      positions := positions[team := held];
      assert positions == old(positions)[team := held];
    }

    method GetTotalAbsolutePosition(team: TeamId) returns (n: int)
      ensures n == TotalAbs(Of(positions, team))
    {
      n := SumAbs(if team in positions then positions[team] else map[]);
    }
  }

  // ---- settling fills ----

  /** What the publisher forwards of one submission: the fills its result
      carried, the order, and the submitting team. */
  datatype Message = Message(fills: seq<Trade>, order: OrderState, team: TeamId)

  function Counterparty(t: Trade, side: Side): TeamId {
    if side.Buy? then t.seller else t.buyer
  }

  /** What settling one fill does to one position. */
  function FillEffect(t: Trade, m: Message, who: TeamId, i: InstrumentId): int {
    var delta := Signed(m.order.side, t.quantity);
    var other := Counterparty(t, m.order.side);
    if i != m.order.instrument then 0
    else (if who == m.team then delta else 0) - (if other != m.team && who == other then delta else 0)
  }

  function FillsEffect(ts: seq<Trade>, m: Message, who: TeamId, i: InstrumentId): int {
    if ts == [] then 0 else FillEffect(ts[0], m, who, i) + FillsEffect(ts[1..], m, who, i)
  }

  function QueueEffect(ms: seq<Message>, who: TeamId, i: InstrumentId): int {
    if ms == [] then 0 else FillsEffect(ms[0].fills, ms[0], who, i) + QueueEffect(ms[1..], who, i)
  }

  lemma {:induction false} FillsEffectSnoc(ts: seq<Trade>, t: Trade, m: Message, who: TeamId, i: InstrumentId)
    ensures FillsEffect(ts + [t], m, who, i) == FillsEffect(ts, m, who, i) + FillEffect(t, m, who, i)
  {
    hide FillEffect;
    if ts == [] {
      assert [] + [t] == [t] && [t][1..] == [];
    } else {
      assert (ts + [t])[1..] == ts[1..] + [t];
      FillsEffectSnoc(ts[1..], t, m, who, i);
    }
  }

  lemma {:induction false} QueueEffectConcat(ms: seq<Message>, ns: seq<Message>, who: TeamId, i: InstrumentId)
    ensures QueueEffect(ms + ns, who, i) == QueueEffect(ms, who, i) + QueueEffect(ns, who, i)
  {
    hide FillsEffect;
    if ms == [] {
      assert ms + ns == ns;
    } else {
      assert (ms + ns)[1..] == ms[1..] + ns;
      QueueEffectConcat(ms[1..], ns, who, i);
    }
  }

  /** The submitting team's side of a fill. */
  method ProcessAggressor(t: Trade, m: Message, service: PositionService)
    modifies service
    ensures forall who, i :: At(service.positions, who, i) == At(old(service.positions), who, i) +
              if who == m.team && i == m.order.instrument then Signed(m.order.side, t.quantity) else 0
  {
    service.UpdatePosition(m.team, m.order.instrument, if m.order.side.Buy? then t.quantity else -t.quantity);
  }

  /** The other side of a fill; skipped when a team traded with itself. */
  method ProcessCounterparty(t: Trade, m: Message, service: PositionService)
    modifies service
    ensures forall who, i :: At(service.positions, who, i) == At(old(service.positions), who, i) -
              if Counterparty(t, m.order.side) != m.team && who == Counterparty(t, m.order.side) &&
                 i == m.order.instrument
              then Signed(m.order.side, t.quantity) else 0
  {
    var other, delta;
    if m.order.side.Buy? {
      other, delta := t.seller, -t.quantity;
    } else {
      other, delta := t.buyer, t.quantity;
    }
    if other != m.team {
      service.UpdatePosition(other, m.order.instrument, delta);
    }
  }

  /** Draining the queue settles every fill of every message once. */
  method TrackPositions(queue: seq<Message>, service: PositionService)
    modifies service
    ensures forall who, i ::
              At(service.positions, who, i) == At(old(service.positions), who, i) + QueueEffect(queue, who, i)
  {
    hide At;
    var n := 0;
    assert queue[..0] == [];
    while n < |queue|
      invariant n <= |queue|
      invariant forall who, i ::
                  At(service.positions, who, i) == At(old(service.positions), who, i) + QueueEffect(queue[..n], who, i)
    {
      TrackMessage(queue[n], service);
      forall who, i
        ensures QueueEffect(queue[..n + 1], who, i) ==
                QueueEffect(queue[..n], who, i) + FillsEffect(queue[n].fills, queue[n], who, i)
      {
        assert queue[..n + 1] == queue[..n] + [queue[n]] && [queue[n]][1..] == [];
        QueueEffectConcat(queue[..n], [queue[n]], who, i);
      }
      n := n + 1;
    }
    assert queue[..|queue|] == queue;
  }

  method TrackMessage(m: Message, service: PositionService)
    modifies service
    ensures forall who, i ::
              At(service.positions, who, i) == At(old(service.positions), who, i) + FillsEffect(m.fills, m, who, i)
  {
    hide At;
    var n := 0;
    assert m.fills[..0] == [];
    while n < |m.fills|
      invariant n <= |m.fills|
      invariant forall who, i ::
                  At(service.positions, who, i) == At(old(service.positions), who, i)
                    + FillsEffect(m.fills[..n], m, who, i)
    {
      ProcessAggressor(m.fills[n], m, service);
      ProcessCounterparty(m.fills[n], m, service);
      forall who, i
        ensures FillsEffect(m.fills[..n + 1], m, who, i) ==
                FillsEffect(m.fills[..n], m, who, i) + FillEffect(m.fills[n], m, who, i)
      {
        assert m.fills[..n + 1] == m.fills[..n] + [m.fills[n]];
        FillsEffectSnoc(m.fills[..n], m.fills[n], m, who, i);
      }
      n := n + 1;
    }
    assert m.fills[..|m.fills|] == m.fills;
  }

  // ---- what the fills owe ----

  /** Bought minus sold by one team. */
  function Net(ts: seq<Trade>, who: TeamId): int {
    if ts == [] then 0
    else
      (if ts[0].buyer == who then ts[0].quantity else 0) - (if ts[0].seller == who then ts[0].quantity else 0)
      + Net(ts[1..], who)
  }

  /** The fills are the order's own: its team is on the order's side of each. */
  predicate OwnFills(m: Message) {
    forall k :: 0 <= k < |m.fills| ==>
      && m.team == (if m.order.side.Buy? then m.fills[k].buyer else m.fills[k].seller)
      && m.order.id == (if m.order.side.Buy? then m.fills[k].buyOrder else m.fills[k].sellOrder)
      && m.fills[k].buyOrder != m.fills[k].sellOrder
      && m.fills[k].quantity > 0
  }

  /** What trades of a team with itself add to its position: the whole quantity,
      on the side of the order that came last. */
  function Drift(ts: seq<Trade>, side: Side, who: TeamId): int {
    if ts == [] then 0
    else (if ts[0].buyer == ts[0].seller == who then Signed(side, ts[0].quantity) else 0) + Drift(ts[1..], side, who)
  }

  /** Settling a message gives every team what it bought less what it sold, plus
      the drift of its trades with itself. */
  lemma {:induction false} MessageSettles(m: Message, who: TeamId)
    requires OwnFills(m)
    ensures FillsEffect(m.fills, m, who, m.order.instrument) == Net(m.fills, who) + Drift(m.fills, m.order.side, who)
    decreases |m.fills|
  {
    if m.fills == [] {
    } else {
      var rest := m.(fills := m.fills[1..]);
      MessageSettles(rest, who);
      SameTeam(rest.fills, rest, m, who, m.order.instrument);
    }
  }

  lemma {:induction false} SameTeam(ts: seq<Trade>, m: Message, m': Message, who: TeamId, i: InstrumentId)
    requires m.order == m'.order && m.team == m'.team
    ensures FillsEffect(ts, m, who, i) == FillsEffect(ts, m', who, i)
  {
    if ts == [] {
    } else {
      SameTeam(ts[1..], m, m', who, i);
    }
  }

  lemma {:induction false} MessageElsewhere(ts: seq<Trade>, m: Message, who: TeamId, i: InstrumentId)
    requires i != m.order.instrument
    ensures FillsEffect(ts, m, who, i) == 0
  {
    if ts == [] {
    } else {
      MessageElsewhere(ts[1..], m, who, i);
    }
  }

  lemma {:induction false} NetConcat(a: seq<Trade>, b: seq<Trade>, who: TeamId)
    ensures Net(a + b, who) == Net(a, who) + Net(b, who)
  {
    if a == [] {
      assert a + b == b;
    } else {
      assert (a + b)[1..] == a[1..] + b;
      NetConcat(a[1..], b, who);
    }
  }

  function SumNet(ts: seq<Trade>, teams: seq<TeamId>): int {
    if teams == [] then 0 else Net(ts, teams[0]) + SumNet(ts, teams[1..])
  }

  lemma {:induction false} SumNetStep(t: Trade, ts: seq<Trade>, teams: seq<TeamId>)
    requires forall j, k :: 0 <= j < k < |teams| ==> teams[j] != teams[k]
    ensures SumNet([t] + ts, teams) ==
            SumNet(ts, teams) + (if t.buyer in teams then t.quantity else 0)
              - (if t.seller in teams then t.quantity else 0)
  {
    if teams == [] {
    } else {
      SumNetStep(t, ts, teams[1..]);
      assert ([t] + ts)[1..] == ts && teams == [teams[0]] + teams[1..];
      assert teams[0] !in teams[1..];
    }
  }

  lemma {:induction false} SumNetNothing(teams: seq<TeamId>)
    ensures SumNet([], teams) == 0
  {
    if teams == [] {
    } else {
      SumNetNothing(teams[1..]);
    }
  }

  /** Over all teams that traded, bought less sold cancels out. */
  lemma {:induction false} NetSumsToZero(ts: seq<Trade>, teams: seq<TeamId>)
    requires forall j, k :: 0 <= j < k < |teams| ==> teams[j] != teams[k]
    requires forall k :: 0 <= k < |ts| ==> ts[k].buyer in teams && ts[k].seller in teams
    ensures SumNet(ts, teams) == 0
  {
    if ts == [] {
      SumNetNothing(teams);
    } else {
      assert ts == [ts[0]] + ts[1..];
      NetSumsToZero(ts[1..], teams);
      SumNetStep(ts[0], ts[1..], teams);
    }
  }
}
