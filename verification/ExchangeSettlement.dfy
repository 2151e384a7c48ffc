/** End to end: the positions the tracker keeps for the messages of a run, against
    the full trade logs of the exchange's books. */
module ExchangeSettlement {
  import opened Orders
  import opened Positions
  import opened Exchanges
  import opened ExchangeLogs
  import opened ExchangeRuns

  // ---- runs ----

  /** Every message published so far, in order. */
  ghost function Queue(xs: seq<Exchange>, es: seq<Event>, k: nat): seq<Message>
    requires IsRun(xs, es) && k <= |es|
  {
    if k == 0 then [] else Queue(xs, es, k - 1) + Published(xs[k - 1], es[k - 1])
  }

  /** Every trade of a batch on one instrument so far. */
  ghost function BatchLog(xs: seq<Exchange>, es: seq<Event>, k: nat, i: InstrumentId): seq<Trade>
    requires IsRun(xs, es) && k <= |es|
  {
    if k == 0 then [] else BatchLog(xs, es, k - 1, i) + BatchTrades(xs[k - 1], es[k - 1], i)
  }

  /** What trades of a team with itself put on its position over a queue. */
  function QueueDrift(ms: seq<Message>, who: TeamId, i: InstrumentId): int {
    if ms == [] then 0
    else
      (if ms[0].order.instrument == i then Drift(ms[0].fills, ms[0].order.side, who) else 0)
      + QueueDrift(ms[1..], who, i)
  }

  lemma {:induction false} QueueDriftConcat(ms: seq<Message>, ns: seq<Message>, who: TeamId, i: InstrumentId)
    ensures QueueDrift(ms + ns, who, i) == QueueDrift(ms, who, i) + QueueDrift(ns, who, i)
  {
    hide Drift;
    if ms == [] {
      assert ms + ns == ns;
    } else {
      assert (ms + ns)[1..] == ms[1..] + ns;
      QueueDriftConcat(ms[1..], ns, who, i);
    }
  }

  lemma {:induction false} PublishedSettles(ms: seq<Message>, who: TeamId, i: InstrumentId)
    requires |ms| <= 1 && forall k :: 0 <= k < |ms| ==> OwnFills(ms[k])
    ensures QueueEffect(ms, who, i) == Net(FillsOn(ms, i), who) + QueueDrift(ms, who, i)
  {
    hide FillsEffect, Drift;
    OneMessage(ms, i);
    if |ms| == 1 {
      assert ms[1..] == [];
      if ms[0].order.instrument == i {
        MessageSettles(ms[0], who);
      } else {
        MessageElsewhere(ms[0].fills, ms[0], who, i);
      }
    }
  }

  /** Over any run, what the tracker makes of the queue is bought less sold in the
      full log, without what batches traded, and with the drift of trades of a
      team with itself. */
  lemma {:induction false} RunSettles(xs: seq<Exchange>, es: seq<Event>, k: nat, who: TeamId, i: InstrumentId)
    requires IsRun(xs, es) && k <= |es|
    ensures QueueEffect(Queue(xs, es, k), who, i) ==
            Net(LogAt(xs[k], i), who) - Net(BatchLog(xs, es, k, i), who) + QueueDrift(Queue(xs, es, k), who, i)
  {
    hide Enabled, Step, QueueEffect, QueueDrift, Net, FillsOn, Published, BatchTrades, Inv;
    if k == 0 {
      NothingSettled(xs[0], who, i);
    } else {
      var x, e := xs[k - 1], es[k - 1];
      RunSettles(xs, es, k - 1, who, i);
      RunKeepsInv(xs, es, k - 1);
      StepLogs(x, e, i);
      AtMostOne(x, e);
      var ms, fills, bs := Published(x, e), FillsOn(Published(x, e), i), BatchTrades(x, e, i);
      PublishedSettles(ms, who, i);
      QueueEffectConcat(Queue(xs, es, k - 1), ms, who, i);
      QueueDriftConcat(Queue(xs, es, k - 1), ms, who, i);
      NetConcat(LogAt(x, i) + fills, bs, who);
      NetConcat(LogAt(x, i), fills, who);
      NetConcat(BatchLog(xs, es, k - 1, i), bs, who);
    }
  }

  lemma {:induction false} AtMostOne(x: Exchange, e: Event)
    requires Enabled(x, e)
    ensures |Published(x, e)| <= 1
  {
  }

  lemma {:induction false} NothingSettled(x: Exchange, who: TeamId, i: InstrumentId)
    requires exists state, baseline :: x == Opened(state, baseline)
    ensures LogAt(x, i) == [] && Net([], who) == 0 && QueueEffect([], who, i) == 0 && QueueDrift([], who, i) == 0
  {
  }

  /** No team traded with itself in the published fills. */
  predicate NoSelfTrades(ms: seq<Message>) {
    forall k, j :: 0 <= k < |ms| && 0 <= j < |ms[k].fills| ==> ms[k].fills[j].buyer != ms[k].fills[j].seller
  }

  lemma {:induction false} NoDrift(ts: seq<Trade>, side: Side, who: TeamId)
    requires forall j :: 0 <= j < |ts| ==> ts[j].buyer != ts[j].seller
    ensures Drift(ts, side, who) == 0
  {
    if ts == [] {
    } else {
      NoDrift(ts[1..], side, who);
    }
  }

  lemma {:induction false} NoQueueDrift(ms: seq<Message>, who: TeamId, i: InstrumentId)
    requires NoSelfTrades(ms)
    ensures QueueDrift(ms, who, i) == 0
  {
    hide Drift;
    if ms == [] {
    } else {
      forall k, j | 0 <= k < |ms[1..]| && 0 <= j < |ms[1..][k].fills|
        ensures ms[1..][k].fills[j].buyer != ms[1..][k].fills[j].seller
      {
        assert ms[1..][k] == ms[k + 1];
      }
      NoQueueDrift(ms[1..], who, i);
      NoDrift(ms[0].fills, ms[0].order.side, who);
    }
  }

  function SumAt(table: Table, teams: seq<TeamId>, i: InstrumentId): int {
    if teams == [] then 0 else At(table, teams[0], i) + SumAt(table, teams[1..], i)
  }

  lemma {:induction false} SumAtIsNet(table: Table, ts: seq<Trade>, teams: seq<TeamId>, i: InstrumentId)
    requires forall who :: At(table, who, i) == Net(ts, who)
    ensures SumAt(table, teams, i) == SumNet(ts, teams)
  {
    hide At, Net;
    if teams == [] {
    } else {
      SumAtIsNet(table, ts, teams[1..], i);
    }
  }

  /** A run in which no batch traded and no team traded with itself, and whose
      queue the tracker drained into an empty table: every position is what the
      full log says, and the positions of all who traded cancel out. */
  method SettleRun(ghost xs: seq<Exchange>, ghost es: seq<Event>, queue: seq<Message>, service: PositionService)
    requires IsRun(xs, es) && queue == Queue(xs, es, |es|) && service.positions == map[]
    requires NoSelfTrades(queue) && forall i :: BatchLog(xs, es, |es|, i) == []
    modifies service
    ensures forall who, i :: At(service.positions, who, i) == Net(LogAt(xs[|es|], i), who)
    ensures forall teams: seq<TeamId>, i ::
              && (forall j, k :: 0 <= j < k < |teams| ==> teams[j] != teams[k])
              && (forall k :: 0 <= k < |LogAt(xs[|es|], i)| ==>
                    LogAt(xs[|es|], i)[k].buyer in teams && LogAt(xs[|es|], i)[k].seller in teams)
              ==> SumAt(service.positions, teams, i) == 0
  {
    hide Enabled, Step, QueueEffect, QueueDrift, Net, Queue, BatchLog, SumNet, SumAt, NoSelfTrades, LogAt;
    var x := xs[|es|];
    assert forall who, i :: At(service.positions, who, i) == 0;
    TrackPositions(queue, service);
    forall who, i
      ensures QueueEffect(queue, who, i) == Net(LogAt(x, i), who)
    {
      RunSettles(xs, es, |es|, who, i);
      NoQueueDrift(queue, who, i);
      NetNothing(who);
    }
    forall teams: seq<TeamId>, i |
      && (forall j, k :: 0 <= j < k < |teams| ==> teams[j] != teams[k])
      && (forall k :: 0 <= k < |LogAt(x, i)| ==> LogAt(x, i)[k].buyer in teams && LogAt(x, i)[k].seller in teams)
      ensures SumAt(service.positions, teams, i) == 0
    {
      SumAtIsNet(service.positions, LogAt(x, i), teams, i);
      NetSumsToZero(LogAt(x, i), teams);
    }
  }

  lemma {:induction false} NetNothing(who: TeamId)
    ensures Net([], who) == 0
  {
  }
}
