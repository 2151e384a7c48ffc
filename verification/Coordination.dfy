/** Matching pipeline completions to waiting API calls, as a state machine: every
    section that holds the coordinator's lock is one atomic step, and a wait is a
    begin followed by a wake-up or by a timeout and a second locked section. */
module Coordination {

  type RequestId = nat
  type Payload = int  // what an API response says

  datatype ResponseStatus = Pending | Validating | Matching | Settling | Completed | TimedOut | Errored {
    predicate IsTerminal() {
      Completed? || TimedOut? || Errored?
    }

    predicate IsActive() {
      Pending? || Validating? || Matching? || Settling?
    }
  }

  datatype Answer = Answer(success: bool, payload: Payload)

  const SHUTTING_DOWN := Answer(false, -1)

  /** `events` are the requests whose completion event is set, for ever; `waiting`
      the calls blocked on one; `late` those timed out but not yet back under the
      lock. The last four record history: the first completion of each request,
      what was delivered through its event, whose wait timed out, and which
      requests were removed before a waiter could read them. */
  datatype Coordinator = Coordinator(
    pending: map<RequestId, ResponseStatus>, results: map<RequestId, Answer>, counter: nat, shutdown: bool,
      closed: bool,
    events: set<RequestId>, waiting: set<RequestId>, late: set<RequestId>, begun: set<RequestId>,
    first: map<RequestId, Answer>, delivered: map<RequestId, Answer>, gaveUp: set<RequestId>, purged: set<RequestId>)

  const IDLE := Coordinator(map[], map[], 0, false, false, {}, {}, {}, {}, map[], map[], {}, {})

  datatype Event =
    | Register
    | BeginWait(id: RequestId)
    | Wake(id: RequestId)
    | TimeOut(id: RequestId)
    | GiveUp(id: RequestId)
    | Notify(id: RequestId, answer: Answer)
    | Update(id: RequestId, status: ResponseStatus)
    | Cleanup(expired: set<RequestId>, aged: set<RequestId>)
    | Shutdown
    | Clear

  datatype Reply =
    | Registered(id: RequestId) | Refused | Overloaded
    | Waiting | NotFound
    | Delivered(answer: Answer) | NoResult | MissingKey  // a KeyError
    | TimeoutAnswer
    | Flag(ok: bool)
    | Silent

  /** Completing a request: its status, its stored result and its event change together. */
  function Complete(c: Coordinator, id: RequestId, a: Answer): Coordinator {
    c.(pending := c.pending[id := if a.success then Completed else Errored], results := c.results[id := a],
       events := c.events + {id}, first := if id in c.first then c.first else c.first[id := a])
  }

  function Notified(c: Coordinator, id: RequestId, a: Answer): (Coordinator, Reply) {
    if id !in c.pending then (c, Flag(false))
    else if c.pending[id].IsTerminal() then (c, Flag(true))
    else (Complete(c, id, a), Flag(true))
  }

  /** The woken waiter takes the result under the lock, or fails. */
  function Woken(c: Coordinator, id: RequestId): (Coordinator, Reply) {
    var d := c.(waiting := c.waiting - {id});
    if id !in c.results then (d, NoResult)
    else if id !in c.pending then (d, MissingKey)
    else (d.(pending := c.pending - {id}, results := c.results - {id}, delivered := c.delivered[id := c.results[id]]),
          Delivered(c.results[id]))
  }

  /** Expired requests, and completed ones past their retention, go with their
      results; an expired request's event is set as it goes. */
  function Cleaned(c: Coordinator, expired: set<RequestId>, aged: set<RequestId>): Coordinator {
    var gone := set id | id in c.pending && (id in expired || (id in aged && c.pending[id].IsTerminal()));
    var hit := set id | id in c.pending && id in expired && c.pending[id] != TimedOut;
    c.(pending := c.pending - gone, results := c.results - gone, events := c.events + hit, purged := c.purged + gone)
  }

  /** Shutting down completes everything still active with an error. */
  function ShutDown(c: Coordinator): Coordinator {
    var active := set id | id in c.pending && !c.pending[id].IsTerminal();
    c.(shutdown := true,
       pending := map id | id in c.pending :: if id in active then Errored else c.pending[id],
       results := c.results + map id | id in active :: SHUTTING_DOWN,
       events := c.events + active,
       first := (map id | id in active :: SHUTTING_DOWN) + c.first)
  }

  function Registering(c: Coordinator, max: nat): (Coordinator, Reply) {
    if c.shutdown then (c, Refused)
    else if |c.pending| >= max then (c, Overloaded)
    else (c.(counter := c.counter + 1, pending := c.pending[c.counter + 1 := Pending]), Registered(c.counter + 1))
  }

  function Updated(c: Coordinator, id: RequestId, s: ResponseStatus): (Coordinator, Reply) {
    if id !in c.pending || c.pending[id].IsTerminal() then (c, Flag(false))
    else (c.(pending := c.pending[id := s]), Flag(true))
  }

  /** Which threads can do what: one waiter per request, waking only on a set
      event, timing out only on an unset one, clearing only after a shutdown. */
  predicate Enabled(c: Coordinator, e: Event) {
    match e
    case BeginWait(id) => id !in c.begun
    case Wake(id) => id in c.waiting && id in c.events
    case TimeOut(id) => id in c.waiting && id !in c.events
    case GiveUp(id) => id in c.late
    case Update(_, status) => status.IsActive()
    case Clear => c.shutdown
    case _ => true
  }

  function Step(c: Coordinator, e: Event, max: nat): (Coordinator, Reply) {
    match e
    case Register => Registering(c, max)
    case BeginWait(id) =>
      if id !in c.pending then (c, NotFound) else (c.(waiting := c.waiting + {id}, begun := c.begun + {id}), Waiting)
    case Wake(id) => Woken(c, id)
    case TimeOut(id) => (c.(waiting := c.waiting - {id}, late := c.late + {id}, gaveUp := c.gaveUp + {id}), Silent)
    case GiveUp(id) => (c.(late := c.late - {id}, pending := c.pending - {id}), TimeoutAnswer)
    case Notify(id, answer) => Notified(c, id, answer)
    case Update(id, status) => Updated(c, id, status)
    case Cleanup(expired, aged) => (Cleaned(c, expired, aged), Flag(true))
    case Shutdown => (ShutDown(c), Silent)
    case Clear => (c.(closed := true, pending := map[], results := map[], purged := c.purged + c.pending.Keys), Silent)
  }

  // ---- the invariant ----

  /** A pending request's status, event and stored result say the same: completed
      with a success, or failed with an error, or neither yet. */
  ghost predicate InStep(c: Coordinator, id: RequestId)
    requires id in c.pending
  {
    && (id in c.events <==> id in c.results)
    && (c.pending[id] == Completed <==> id in c.results && c.results[id].success)
    && (c.pending[id] == Errored <==> id in c.results && !c.results[id].success)
    && !c.pending[id].TimedOut?
  }

  /** What holds of each request id. */
  ghost predicate IdOk(c: Coordinator, id: RequestId) {
    && (id in c.pending ==> InStep(c, id) && (c.shutdown ==> id in c.results) && id !in c.purged)
    && (id in c.pending || id in c.first || id in c.events || id in c.begun || id in c.purged ==> id <= c.counter)
    && (id in c.results ==> id in c.first && c.results[id] == c.first[id] && (id in c.pending || id in c.gaveUp))
    && (id in c.first ==> id in c.events)
    && (id in c.delivered ==>
          id !in c.pending && id !in c.results && id in c.first && c.delivered[id] == c.first[id])
    && (id in c.waiting ==>
          && id in c.begun && id !in c.gaveUp && id !in c.delivered
          && (id in c.pending || (id in c.purged && id in c.events)))
    && (id in c.late ==> id in c.gaveUp) && (id in c.gaveUp ==> id in c.begun)
    && (id in c.gaveUp && id !in c.late ==> id !in c.pending)
    && (id in c.purged ==> id !in c.results)
    && (id in c.first && id in c.gaveUp && id !in c.purged && !c.closed ==>
          id in c.results && (id in c.late ==> id in c.pending))
  }

  ghost predicate Inv(c: Coordinator, max: nat) {
    && |c.pending| <= max
    && (forall id :: IdOk(c, id))
    && (c.closed ==> c.shutdown && c.pending == map[] && c.results == map[])
  }

  lemma {:induction false} Smaller<V>(m: map<RequestId, V>, gone: set<RequestId>)
    ensures |m - gone| <= |m|
    decreases |m|
  {
  }

  lemma {:induction false} OneLarger<V>(m: map<RequestId, V>, id: RequestId, v: V)
    ensures |m[id := v]| == if id in m then |m| else |m| + 1
  {
  }

  lemma {:induction false} SameSize<V, W>(m: map<RequestId, V>, n: map<RequestId, W>)
    requires m.Keys == n.Keys
    ensures |m| == |n|
  {
  }

  lemma {:induction false} NoLarger(c: Coordinator, id: RequestId, a: Answer, s: ResponseStatus)
    ensures |Notified(c, id, a).0.pending| == |c.pending| && |Updated(c, id, s).0.pending| == |c.pending|
  {
  }

  lemma {:induction false} WokenTakesOne(c: Coordinator, id: RequestId)
    ensures |Woken(c, id).0.pending| <= |c.pending|
  {
  }

  lemma {:induction false} NoneAdded(c: Coordinator, expired: set<RequestId>, aged: set<RequestId>)
    ensures |Cleaned(c, expired, aged).pending| <= |c.pending| && |ShutDown(c).pending| == |c.pending|
  {
    Smaller(c.pending, set id | id in c.pending && (id in expired || (id in aged && c.pending[id].IsTerminal())));
    SameSize(ShutDown(c).pending, c.pending);
  }

  lemma {:induction false} StepKeepsSize(c: Coordinator, e: Event, max: nat)
    requires |c.pending| <= max
    ensures |Step(c, e, max).0.pending| <= max
  {
    hide Notified, Updated, Woken, Cleaned, ShutDown;
    match e
    case Register => OneLarger(c.pending, c.counter + 1, Pending);
    case Wake(id) => WokenTakesOne(c, id);
    case GiveUp(id) => Smaller(c.pending, {id});
    case Notify(id, a) => NoLarger(c, id, a, Pending);
    case Update(id, s) => NoLarger(c, id, SHUTTING_DOWN, s);
    case Cleanup(expired, aged) => NoneAdded(c, expired, aged);
    case Shutdown => NoneAdded(c, {}, {});
    case _ =>
  }

  /** Every step of every thread keeps the invariant. */
  lemma {:induction false} StepKeepsInv(c: Coordinator, e: Event, max: nat)
    requires Inv(c, max) && Enabled(c, e)
    ensures Inv(Step(c, e, max).0, max)
  {
    hide IdOk;
    StepKeepsSize(c, e, max);
    forall id
      ensures IdOk(Step(c, e, max).0, id)
    {
      assert IdOk(c, id);
      StepKeepsId(c, e, max, id);
    }
  }

  lemma {:induction false} StepKeepsId(c: Coordinator, e: Event, max: nat, id: RequestId)
    requires IdOk(c, id) && Enabled(c, e) && (c.closed ==> c.shutdown && c.pending == map[])
    ensures IdOk(Step(c, e, max).0, id)
  {
    hide IdOk, Registering, Woken, Notified, Updated, Cleaned, ShutDown;
    match e
    case Register => RegisterKeepsId(c, max, id);
    case Wake(at) => WakeKeepsId(c, at, id);
    case Notify(at, a) => NotifyKeepsId(c, at, a, id);
    case Update(at, s) => UpdateKeepsId(c, at, s, id);
    case Cleanup(expired, aged) => CleanupKeepsId(c, expired, aged, id);
    case Shutdown => ShutdownKeepsId(c, id);
    case _ => WaitKeepsId(c, e, max, id);
  }

  lemma {:induction false} RegisterKeepsId(c: Coordinator, max: nat, id: RequestId)
    requires IdOk(c, id) && (c.closed ==> c.shutdown)
    ensures IdOk(Registering(c, max).0, id)
  {
  }

  lemma {:induction false} WakeKeepsId(c: Coordinator, at: RequestId, id: RequestId)
    requires IdOk(c, id) && at in c.waiting && at in c.events
    ensures IdOk(Woken(c, at).0, id)
  {
  }

  lemma {:induction false} NotifyKeepsId(c: Coordinator, at: RequestId, a: Answer, id: RequestId)
    requires IdOk(c, id)
    ensures IdOk(Notified(c, at, a).0, id)
  {
  }

  lemma {:induction false} UpdateKeepsId(c: Coordinator, at: RequestId, s: ResponseStatus, id: RequestId)
    requires IdOk(c, id) && s.IsActive()
    ensures IdOk(Updated(c, at, s).0, id)
  {
  }

  lemma {:induction false} CleanupKeepsId(c: Coordinator, expired: set<RequestId>, aged: set<RequestId>, id: RequestId)
    requires IdOk(c, id)
    ensures IdOk(Cleaned(c, expired, aged), id)
  {
  }

  lemma {:induction false} ShutdownKeepsId(c: Coordinator, id: RequestId)
    requires IdOk(c, id)
    ensures IdOk(ShutDown(c), id)
  {
  }

  lemma {:induction false} WaitKeepsId(c: Coordinator, e: Event, max: nat, id: RequestId)
    requires IdOk(c, id) && Enabled(c, e) && (e.BeginWait? || e.TimeOut? || e.GiveUp? || e.Clear?)
    ensures IdOk(Step(c, e, max).0, id)
  {
  }

  // ---- runs ----

  ghost predicate IsRun(cs: seq<Coordinator>, es: seq<Event>, max: nat) {
    && |cs| == |es| + 1 && cs[0] == IDLE
    && forall k :: 0 <= k < |es| ==> Enabled(cs[k], es[k]) && cs[k + 1] == Step(cs[k], es[k], max).0
  }

  /** Under every interleaving: never more pending requests than allowed, and for
      every pending one status, event and stored result agree. */
  lemma {:induction false} RunKeepsInv(cs: seq<Coordinator>, es: seq<Event>, max: nat, k: nat)
    requires IsRun(cs, es, max) && k <= |es|
    ensures Inv(cs[k], max)
  {
    hide Step, Enabled;
    if k > 0 {
      RunKeepsInv(cs, es, max, k - 1);
      StepKeepsInv(cs[k - 1], es[k - 1], max);
    }
  }

  /** What grows only, and what never comes back. */
  lemma {:induction false} StepRemembers(c: Coordinator, e: Event, max: nat, id: RequestId)
    requires Inv(c, max) && Enabled(c, e)
    ensures var d := Step(c, e, max).0;
            && (id in c.first ==> id in d.first && d.first[id] == c.first[id])
            && (id in c.delivered ==> id in d.delivered && d.delivered[id] == c.delivered[id])
            && c.events <= d.events && c.counter <= d.counter
            && (id <= c.counter && id !in c.pending ==> id !in d.pending)
            && (c.closed ==> d.closed)
  {
    assert IdOk(c, id);
  }

  lemma {:induction false} RunRemembers(cs: seq<Coordinator>, es: seq<Event>, max: nat, j: nat, k: nat, id: RequestId)
    requires IsRun(cs, es, max) && j <= k <= |es|
    ensures id in cs[j].first ==> id in cs[k].first && cs[k].first[id] == cs[j].first[id]
    ensures id in cs[j].delivered ==> id in cs[k].delivered && cs[k].delivered[id] == cs[j].delivered[id]
    ensures cs[j].counter <= cs[k].counter
    ensures id <= cs[j].counter && id !in cs[j].pending ==> id !in cs[k].pending
    ensures cs[j].closed ==> cs[k].closed
    decreases k
  {
    hide Step, Enabled;
    if j < k {
      RunRemembers(cs, es, max, j, k - 1, id);
      RunKeepsInv(cs, es, max, k - 1);
      StepRemembers(cs[k - 1], es[k - 1], max, id);
    }
  }

  /** The first completion wins: once a request is completed, by a notification or
      by the shutdown, no later notification changes anything at all. */
  lemma {:induction false} LaterNotificationsIgnored(cs: seq<Coordinator>, es: seq<Event>, max: nat, j: nat, k: nat,
                                                     id: RequestId, a: Answer)
    requires IsRun(cs, es, max) && j <= k <= |es| && id in cs[j].first
    ensures Notified(cs[k], id, a).0 == cs[k]
  {
    hide Step, Enabled;
    RunRemembers(cs, es, max, j, k, id);
    RunKeepsInv(cs, es, max, k);
    assert IdOk(cs[k], id);
  }

  /** What a woken waiter gets: the first completion of its own request, unless
      the request was purged before it got the lock; never a KeyError. */
  lemma {:induction false} WakeOutcome(cs: seq<Coordinator>, es: seq<Event>, max: nat, k: nat)
    requires IsRun(cs, es, max) && k < |es| && es[k].Wake?
    ensures var (c, id, r) := (cs[k], es[k].id, Step(cs[k], es[k], max).1);
            && r != MissingKey
            && (r == NoResult <==> id in c.purged)
            && (r.Delivered? <==> id in c.pending)
            && (r.Delivered? ==> id in c.first && r.answer == c.first[id])
  {
    RunKeepsInv(cs, es, max, k);
    assert IdOk(cs[k], es[k].id);
  }

  /** Every completion was made by one step: the first notification of a request
      still active, with that very answer, or the shutdown, with a failure. */
  lemma {:induction false} CompletedOnce(cs: seq<Coordinator>, es: seq<Event>, max: nat, k: nat, id: RequestId)
    returns (j: nat)
    requires IsRun(cs, es, max) && k <= |es| && id in cs[k].first
    ensures j < k && id !in cs[j].first
    ensures id in cs[j].pending && cs[j].pending[id] in {Pending, Validating, Matching, Settling}
    ensures es[j] == Notify(id, cs[k].first[id]) || (es[j] == Shutdown && !cs[k].first[id].success)
  {
    hide Step, Enabled;
    if k == 0 {
      assert false;
    } else {
      RunKeepsInv(cs, es, max, k - 1);
      StepRemembers(cs[k - 1], es[k - 1], max, id);
      if id in cs[k - 1].first {
        j := CompletedOnce(cs, es, max, k - 1, id);
      } else {
        j := k - 1;
        CompletedBy(cs[j], es[j], max, id);
      }
    }
  }

  lemma {:induction false} CompletedBy(c: Coordinator, e: Event, max: nat, id: RequestId)
    requires Inv(c, max) && Enabled(c, e) && id !in c.first && id in Step(c, e, max).0.first
    ensures id in c.pending && c.pending[id] in {Pending, Validating, Matching, Settling}
    ensures var a := Step(c, e, max).0.first[id]; e == Notify(id, a) || (e == Shutdown && !a.success)
  {
    assert IdOk(c, id);
  }

  /** What an API call is told was said about its own request while that was still
      active: by the first notification, or a failure by the shutdown. */
  lemma {:induction false} DeliveredWasSaid(cs: seq<Coordinator>, es: seq<Event>, max: nat, k: nat) returns (j: nat)
    requires IsRun(cs, es, max) && k < |es| && es[k].Wake? && Step(cs[k], es[k], max).1.Delivered?
    ensures var (id, a) := (es[k].id, Step(cs[k], es[k], max).1.answer);
            && j < k && id in cs[j].pending && cs[j].pending[id] in {Pending, Validating, Matching, Settling}
            && (es[j] == Notify(id, a) || (es[j] == Shutdown && !a.success))
            && forall m :: 0 <= m <= j ==> id !in cs[m].first
  {
    hide Step, Enabled;
    var id := es[k].id;
    WakeOutcome(cs, es, max, k);
    j := CompletedOnce(cs, es, max, k, id);
    forall m | 0 <= m <= j
      ensures id !in cs[m].first
    {
      RunRemembers(cs, es, max, m, j, id);
    }
  }

  /** A request that the shutdown finds active can only be answered with a failure,
      whatever is notified afterwards. */
  lemma {:induction false} ShutdownFailsActive(cs: seq<Coordinator>, es: seq<Event>, max: nat, j: nat, k: nat,
                                               id: RequestId)
    requires IsRun(cs, es, max) && j < k < |es| && es[j] == Shutdown && es[k] == Wake(id)
    requires id in cs[j].pending && cs[j].pending[id] in {Pending, Validating, Matching, Settling}
    ensures var r := Step(cs[k], es[k], max).1;
            r.Delivered? ==> !r.answer.success
  {
    hide Step, Enabled;
    RunKeepsInv(cs, es, max, j);
    FailedByShutdown(cs[j], max, id);
    RunRemembers(cs, es, max, j + 1, k, id);
    WakeOutcome(cs, es, max, k);
  }

  lemma {:induction false} FailedByShutdown(c: Coordinator, max: nat, id: RequestId)
    requires Inv(c, max) && id in c.pending && c.pending[id] in {Pending, Validating, Matching, Settling}
    ensures var d := Step(c, Shutdown, max).0;
            && d.shutdown && id in d.pending && d.pending[id] == Errored && id in d.events
            && id in d.results && !d.results[id].success && id in d.first && !d.first[id].success
  {
    assert IdOk(c, id);
  }

  /** What a notification does in any reachable state. */
  lemma {:induction false} NotifyOutcome(c: Coordinator, max: nat, id: RequestId, a: Answer)
    requires Inv(c, max)
    ensures var (d, r) := Step(c, Notify(id, a), max);
            && (r == Flag(true) <==> id in c.pending) && (r == Flag(false) <==> id !in c.pending)
            && (id !in c.pending || c.pending[id] !in {Pending, Validating, Matching, Settling} ==> d == c)
            && (id in c.pending && c.pending[id] in {Pending, Validating, Matching, Settling} ==>
                  && d.pending == c.pending[id := if a.success then Completed else Errored]
                  && d.results == c.results[id := a] && d.first == c.first[id := a] && d.events == c.events + {id})
  {
    assert IdOk(c, id);
  }

  /** A wait begins exactly on a pending request; given up, it takes the request
      away but no result. */
  lemma {:induction false} WaitOutcomes(c: Coordinator, max: nat, id: RequestId)
    requires Inv(c, max)
    ensures var (d, r) := Step(c, BeginWait(id), max);
            && (r == Waiting <==> id in c.pending) && (r == NotFound <==> id !in c.pending)
            && d.pending == c.pending && d.results == c.results && (id in c.pending ==> id in d.waiting)
    ensures var (d, r) := Step(c, GiveUp(id), max);
            r == TimeoutAnswer && d.pending == c.pending - {id} && d.results == c.results && d.events == c.events
  {
    assert IdOk(c, id);
  }

  /** What a cleanup leaves of each request. */
  lemma {:induction false} CleanupOutcome(c: Coordinator, max: nat, expired: set<RequestId>, aged: set<RequestId>,
                                          id: RequestId)
    requires Inv(c, max)
    ensures var d := Step(c, Cleanup(expired, aged), max).0;
            && (id in d.pending <==>
                  id in c.pending && id !in expired && (id in aged ==> c.pending[id] !in {Completed, Errored}))
            && (id in d.pending ==> d.pending[id] == c.pending[id])
            && (id in d.results <==> id in c.results && (id in c.pending ==> id in d.pending))
            && (id in d.results ==> d.results[id] == c.results[id])
            && (id in d.events <==> id in c.events || (id in c.pending && id in expired))
  {
    assert IdOk(c, id);
  }

  function CountDeliveries(cs: seq<Coordinator>, es: seq<Event>, max: nat, id: RequestId, k: nat): nat
    requires |cs| == |es| + 1 && k <= |es|
  {
    if k == 0 then 0
    else CountDeliveries(cs, es, max, id, k - 1) +
         if es[k - 1] == Wake(id) && Step(cs[k - 1], es[k - 1], max).1.Delivered? then 1 else 0
  }

  /** No request's result is delivered twice in a run, and what is delivered is
      its first completion. */
  lemma {:induction false} AtMostOneDelivery(cs: seq<Coordinator>, es: seq<Event>, max: nat, id: RequestId, k: nat)
    requires IsRun(cs, es, max) && k <= |es|
    ensures CountDeliveries(cs, es, max, id, k) == if id in cs[k].delivered then 1 else 0
    ensures id in cs[k].delivered ==> id in cs[k].first && cs[k].delivered[id] == cs[k].first[id]
  {
    RunKeepsInv(cs, es, max, k);
    assert IdOk(cs[k], id);
    if k > 0 {
      AtMostOneDelivery(cs, es, max, id, k - 1);
      RunKeepsInv(cs, es, max, k - 1);
      DeliveredBy(cs[k - 1], es[k - 1], max, id);
    }
  }

  lemma {:induction false} DeliveredBy(c: Coordinator, e: Event, max: nat, id: RequestId)
    requires Inv(c, max) && Enabled(c, e)
    ensures var (d, r) := Step(c, e, max);
            && (id in d.delivered <==> id in c.delivered || (e == Wake(id) && r.Delivered?))
            && (e == Wake(id) && r.Delivered? ==> id !in c.delivered)
  {
    assert IdOk(c, id);
  }

  /** A registered id was never used before; registration is refused exactly when
      shutting down or full. */
  lemma {:induction false} RegisterOutcome(cs: seq<Coordinator>, es: seq<Event>, max: nat, k: nat)
    requires IsRun(cs, es, max) && k < |es| && es[k] == Register
    ensures var (c, d, r) := (cs[k], cs[k + 1], Step(cs[k], es[k], max).1);
            && (r == Refused <==> c.shutdown) && (r == Overloaded <==> !c.shutdown && |c.pending| == max)
            && (r in {Refused, Overloaded} ==> d == c) && (r.Registered? ==> d.pending == c.pending[r.id := Pending])
            && (r.Registered? ==>
                  r.id !in c.pending && r.id !in c.first && r.id !in c.begun && r.id !in c.events && r.id !in c.results)
  {
    RunKeepsInv(cs, es, max, k);
    assert IdOk(cs[k], cs[k].counter + 1);
  }

  /** After the final clear both maps stay empty for ever, whatever still happens. */
  lemma {:induction false} ClosedStaysEmpty(cs: seq<Coordinator>, es: seq<Event>, max: nat, j: nat, k: nat)
    requires IsRun(cs, es, max) && j < k <= |es| && es[j] == Clear
    ensures cs[k].pending == map[] && cs[k].results == map[]
  {
    RunKeepsInv(cs, es, max, k);
    RunRemembers(cs, es, max, j + 1, k, 0);
  }

  /** A call still blocked on its event has its request pending and incomplete, or
      its event set: nobody sleeps on a request that was answered or removed. */
  lemma {:induction false} NobodyLeftAsleep(cs: seq<Coordinator>, es: seq<Event>, max: nat, k: nat, id: RequestId)
    requires IsRun(cs, es, max) && k <= |es| && id in cs[k].waiting
    ensures id in cs[k].events <==> id in cs[k].results || id !in cs[k].pending
  {
    RunKeepsInv(cs, es, max, k);
    assert IdOk(cs[k], id);
  }

  /** A stored result without a pending request is one whose waiter timed out. */
  lemma {:induction false} OrphansTimedOut(cs: seq<Coordinator>, es: seq<Event>, max: nat, k: nat, id: RequestId)
    requires IsRun(cs, es, max) && k <= |es| && id in cs[k].results && id !in cs[k].pending
    ensures id in cs[k].gaveUp && id !in cs[k].waiting
  {
    RunKeepsInv(cs, es, max, k);
    assert IdOk(cs[k], id);
  }

  /** A status update of a pending, active request keeps the three in step exactly
      when the new status is an active one. */
  lemma {:induction false} UpdateInStepIff(c: Coordinator, max: nat, id: RequestId, s: ResponseStatus)
    requires Inv(c, max) && id in c.pending && c.pending[id] in {Pending, Validating, Matching, Settling}
    ensures var (d, r) := Step(c, Update(id, s), max);
            && d == c.(pending := c.pending[id := s]) && r == Flag(true)
            && (InStep(d, id) <==> s in {Pending, Validating, Matching, Settling})
  {
    assert IdOk(c, id);
  }

  /** A notification right between a wait's timeout and its return to the lock
      leaves its result behind. */
  lemma {:induction false} LateNotificationIsOrphaned(c: Coordinator, max: nat, id: RequestId, a: Answer)
    requires Inv(c, max) && Enabled(c, TimeOut(id)) && id in c.pending
    ensures var c1 := Step(c, TimeOut(id), max).0;
            var c2 := Step(c1, Notify(id, a), max).0;
            var c3 := Step(c2, GiveUp(id), max).0;
            && Enabled(c2, GiveUp(id)) && Step(c2, GiveUp(id), max).1 == TimeoutAnswer
            && id !in c3.pending && id in c3.results && c3.results[id] == a
  {
    assert IdOk(c, id);
  }

  /** Exactly which results are left behind, in every state of every run: those of
      requests that were completed, whose wait timed out and is back, and that
      neither a cleanup nor the final clear removed. */
  lemma {:induction false} OrphanedExactly(cs: seq<Coordinator>, es: seq<Event>, max: nat, k: nat, id: RequestId)
    requires IsRun(cs, es, max) && k <= |es|
    ensures var c := cs[k];
            id in c.results && id !in c.pending <==>
            id in c.first && id in c.gaveUp && id !in c.late && id !in c.purged && !c.closed
  {
    RunKeepsInv(cs, es, max, k);
    assert IdOk(cs[k], id);
  }
}
