/** The response coordinator as an object: every method is one section that holds
    its lock, specified by one step of module Coordination. */
module Coordinators {
  import opened Collections
  import opened Orders
  import opened Coordination

  class PendingRequest {
    const id: RequestId
    const team: TeamId
    const registeredAt: int
    const timeoutAt: int
    var status: ResponseStatus
    var completed: bool  // the completion event
    var orderId: Option<OrderId>

    constructor (id: RequestId, team: TeamId, registeredAt: int, timeoutAt: int)
      ensures this.id == id && this.team == team && this.registeredAt == registeredAt && this.timeoutAt == timeoutAt
      ensures status == Pending && !completed && orderId == None
    {
      this.id, this.team, this.registeredAt, this.timeoutAt := id, team, registeredAt, timeoutAt;
      status, completed, orderId := Pending, false, None;
    }

    predicate IsExpired(now: int) {
      now >= timeoutAt
    }
  }

  const TIMED_OUT := Answer(false, -2)

  /** What there is about one request: its status while it is pending, whether its
      event is set, and its stored result. */
  datatype Cell = Cell(status: Option<ResponseStatus>, signalled: bool, result: Option<Answer>) {
    function Cleaned(expired: bool, aged: bool): Cell {
      if status.None? then this
      else if expired then Cell(None, true, None)
      else if aged && status.value.IsTerminal() then Cell(None, signalled, None)
      else this
    }

    function ShutDown(): Cell {
      if status.None? || status.value.IsTerminal() then this
      else Cell(Some(Errored), true, Some(SHUTTING_DOWN))
    }
  }

  function Completion(a: Answer): Cell {
    Cell(Some(if a.success then Completed else Errored), true, Some(a))
  }

  function CellOf(c: Coordinator, id: RequestId): Cell {
    Cell(if id in c.pending then Some(c.pending[id]) else None,
         id in c.events,
         if id in c.results then Some(c.results[id]) else None)
  }

  class OrderResponseCoordinator {
    const max: nat
    const retention: int
    var pending: map<RequestId, PendingRequest>
    var results: map<RequestId, Answer>
    var counter: nat
    var shutdown: bool

    ghost var requests: map<RequestId, PendingRequest>  // every request ever registered
    ghost var state: Coordinator

    /** What the fields say of one id. */
    ghost function Here(id: RequestId): Cell
      reads this`pending, this`requests, this`results, requests.Values, pending.Values
    {
      Cell(if id in pending then Some(pending[id].status) else None,
           id in requests && requests[id].completed,
           if id in results then Some(results[id]) else None)
    }

    ghost predicate OnList(id: RequestId)
      reads this`pending, this`requests, this`counter, requests.Values
    {
      && (id in requests ==> requests[id].id == id && id <= counter)
      && (id in pending ==> id in requests && requests[id] == pending[id])
    }

    /** For one id, the fields are what the state machine's state says. */
    ghost predicate TiedAt(id: RequestId)
      reads this, requests.Values, pending.Values
    {
      OnList(id) && Here(id) == CellOf(state, id)
    }

    /** The fields are what the state says. */
    ghost predicate Tied()
      reads this, requests.Values, pending.Values
    {
      (forall id :: TiedAt(id)) && state.counter == counter && state.shutdown == shutdown
    }

    ghost predicate Valid()
      reads this, requests.Values, pending.Values
    {
      Tied() && Inv(state, max)
    }

    constructor (max: nat, retention: int)
      ensures Valid() && state == IDLE && this.max == max && this.retention == retention && requests == map[]
    {
      this.max, this.retention := max, retention;
      pending, results, counter, shutdown := map[], map[], 0, false;
      requests, state := map[], IDLE;
    }

    method RegisterRequest(team: TeamId, now: int, timeout: int) returns (r: Reply)
      requires Valid()
      modifies this
      ensures Valid() && fresh(requests.Values - old(requests.Values))
      ensures (state, r) == Step(old(state), Register, max)
      ensures r.Registered? ==>
                && r.id in pending && pending == old(pending)[r.id := pending[r.id]]
                && var p := pending[r.id];
                   fresh(p) && p.id == r.id && p.team == team && p.registeredAt == now && p.timeoutAt == now + timeout
      ensures !r.Registered? ==> pending == old(pending)
    {
      hide Inv, Step, CellOf;
      ghost var was := state;
      Registers(was, max);
      SamePending();
      if shutdown {
        return Refused;
      }
      if |pending| >= max {
        return Overloaded;
      }
      counter := counter + 1;
      var p := new PendingRequest(counter, team, now, now + timeout);
      pending := pending[counter := p];
      requests := requests[counter := p];
      state := Step(was, Register, max).0;
      r := Registered(counter);
      forall id
        ensures TiedAt(id)
      {
        assert old(TiedAt(id));
      }
    }

    lemma {:induction false} SamePending()
      requires Valid()
      ensures |pending| == |state.pending|
    {
      hide Inv;
      forall id: RequestId
        ensures id in pending <==> id in state.pending
      {
        assert TiedAt(id);
      }
      assert pending.Keys == state.pending.Keys;
      assert |pending| == |pending.Keys| && |state.pending| == |state.pending.Keys|;
    }

    method BeginWait(id: RequestId) returns (r: Reply)
      requires Valid() && Enabled(state, Coordination.BeginWait(id))
      modifies this`state
      ensures Valid()
      ensures (state, r) == Step(old(state), Coordination.BeginWait(id), max)
    {
      StepKeepsInv(state, Coordination.BeginWait(id), max);
      assert TiedAt(id);
      r := if id in pending then Waiting else NotFound;
      state := Step(state, Coordination.BeginWait(id), max).0;
      forall j
        ensures TiedAt(j)
      {
        assert old(TiedAt(j));
      }
    }

    /** A woken waiter back under the lock. */
    method FinishWait(id: RequestId) returns (r: Reply)
      requires Valid() && Enabled(state, Wake(id))
      modifies this
      ensures Valid() && requests == old(requests) && r != MissingKey
      ensures (state, r) == Step(old(state), Wake(id), max)
    {
      hide Inv, Cleaned, ShutDown, Registering, IdOk;
      StepKeepsInv(state, Wake(id), max);
      assert TiedAt(id);
      NoMissingKey(state, id, max);
      if id !in results {
        r := NoResult;
      } else {
        r := Delivered(results[id]);
        pending := pending - {id};
        results := results - {id};
      }
      state := Step(state, Wake(id), max).0;
      forall j
        ensures TiedAt(j)
      {
        assert old(TiedAt(j));
      }
    }

    /** A waiter whose event did not come in time. */
    ghost method WaitTimesOut(id: RequestId)
      requires Valid() && Enabled(state, TimeOut(id))
      modifies this`state
      ensures Valid() && state == Step(old(state), TimeOut(id), max).0
    {
      StepKeepsInv(state, TimeOut(id), max);
      state := Step(state, TimeOut(id), max).0;
      forall j
        ensures TiedAt(j)
      {
        assert old(TiedAt(j));
      }
    }

    /** A timed-out waiter back under the lock: its request goes, even if it was
        completed meanwhile. */
    method AbandonWait(id: RequestId) returns (r: Reply)
      requires Valid() && Enabled(state, GiveUp(id))
      modifies this, pending.Values
      ensures Valid() && requests == old(requests)
      ensures (state, r) == Step(old(state), GiveUp(id), max)
      ensures id in old(pending) ==> old(pending)[id].status == TimedOut
    {
      hide Inv, Cleaned, ShutDown, Registering, IdOk;
      StepKeepsInv(state, GiveUp(id), max);
      assert TiedAt(id);
      if id in pending {
        pending[id].status := TimedOut;
        pending := pending - {id};
      }
      state := Step(state, GiveUp(id), max).0;
      forall j
        ensures TiedAt(j)
      {
        assert old(TiedAt(j));
      }
      r := TimeoutAnswer;
    }

    method NotifyCompletion(id: RequestId, answer: Answer, orderId: Option<OrderId>) returns (r: Reply)
      requires Valid()
      modifies this, pending.Values
      ensures Valid() && requests == old(requests)
      ensures (state, r) == Step(old(state), Notify(id, answer), max) && pending == old(pending)
      ensures id in pending && old(pending[id].status) in {Pending, Validating, Matching, Settling} ==>
                pending[id].orderId == orderId
      ensures id in pending && old(pending[id].status) in {Completed, Errored, TimedOut} ==>
                pending[id].orderId == old(pending[id].orderId)
    {
      hide Inv, Step, Enabled, Complete, OnList;
      Notifying(state, id, answer, max);
      assert TiedAt(id);
      if id !in pending {
        return Flag(false);
      }
      var p := pending[id];
      if p.status.IsTerminal() {
        return Flag(true);
      }
      TiesList();
      CompleteFields(id, answer, orderId);
      state := Complete(state, id, answer);
      forall j
        ensures TiedAt(j)
      {
        assert old(TiedAt(j));
        assert OnList(j);
      }
      r := Flag(true);
    }

    /** The status, the result and the event, in this order. */
    method CompleteFields(id: RequestId, answer: Answer, orderId: Option<OrderId>)
      requires AllListed() && id in pending
      modifies this`results, pending[id]
      ensures pending[id].orderId == orderId
      ensures AllListed() && forall j :: Here(j) == if j == id then Completion(answer) else old(Here(j))
    {
      var p := pending[id];
      p.status := if answer.success then Completed else Errored;
      p.orderId := orderId;
      results := results[id := answer];
      p.completed := true;
      forall j
        ensures OnList(j) && Here(j) == if j == id then Completion(answer) else old(Here(j))
      {
        assert old(OnList(j)) && old(OnList(id));
      }
    }

    /** Any status is written to a request that is still active. The coordinator
        stays valid exactly when that is an active one, or nothing is written. */
    method UpdateStatus(id: RequestId, status: ResponseStatus) returns (r: Reply)
      requires Valid()
      modifies this`state, pending.Values
      ensures Tied() && requests == old(requests)
      ensures (state, r) == Step(old(state), Update(id, status), max)
      ensures Valid() <==> status.IsActive() || r == Flag(false)
    {
      hide Inv, Cleaned, ShutDown, Registering, Woken, Notified, IdOk, InStep, Updated;
      ghost var was := state;
      Updating(was, id, status, max);
      assert TiedAt(id);
      if id !in pending || pending[id].status.IsTerminal() {
        return Flag(false);
      }
      pending[id].status := status;
      state := Updated(was, id, status).0;
      forall j
        ensures TiedAt(j)
      {
        assert old(TiedAt(j));
      }
      r := Flag(true);
    }

    ghost function ExpiredIds(now: int): set<RequestId>
      reads this`pending
    {
      set id | id in pending && pending[id].IsExpired(now)
    }

    ghost function AgedIds(now: int): set<RequestId>
      reads this`pending
    {
      set id | id in pending && now - pending[id].registeredAt > retention
    }

    /** What a cleanup removes: the expired requests, and the completed ones past their retention. */
    ghost function GoneIds(now: int): set<RequestId>
      reads this`pending, pending.Values
    {
      set id | id in pending && (id in ExpiredIds(now) || (id in AgedIds(now) && pending[id].status.IsTerminal()))
    }

    lemma {:induction false} GoneIff(now: int)
      ensures forall id :: id in GoneIds(now) ==> id in pending
      ensures forall id :: id in pending ==>
                (id in GoneIds(now) <==>
                   id in ExpiredIds(now) || (id in AgedIds(now) && pending[id].status.IsTerminal()))
    {
    }

    /** Requests are told apart by their ids. */
    ghost predicate KeyedById()
      reads this, pending.Values
    {
      forall id :: id in pending ==> pending[id].id == id
    }

    lemma {:induction false} TiesList()
      requires Valid()
      ensures AllListed() && forall id :: id in pending ==> pending[id].status != TimedOut
    {
      hide Inv;
      forall id
        ensures OnList(id) && (id in pending ==> pending[id].status != TimedOut)
      {
        assert TiedAt(id);
        if id in pending {
          PendingInStep(state, max, id);
        }
      }
    }

    /** An expired request is answered with a timeout and signalled. Says whether
        the request is to be removed. */
    method MarkOne(id: RequestId, now: int) returns (remove: bool)
      requires KeyedById() && id in pending && pending[id].status != TimedOut
      modifies this`results, pending[id]
      ensures remove <==> id in ExpiredIds(now) || (id in AgedIds(now) && old(pending[id].status).IsTerminal())
      ensures var p, expired := pending[id], id in ExpiredIds(now);
              && p.completed == (old(p.completed) || expired)
              && p.status == (if expired then TimedOut else old(p.status))
              && results == if expired then old(results)[id := TIMED_OUT] else old(results)
    {
      var p := pending[id];
      if p.IsExpired(now) {
        if p.status != TimedOut {
          p.status := TimedOut;
          results := results[id := TIMED_OUT];
          p.completed := true;
        }
        return true;
      }
      remove := p.status.IsTerminal() && now - p.registeredAt > retention;
    }

    /** The first half of a cleanup: everything to be removed is listed once. */
    method MarkRemovable(now: int) returns (toRemove: seq<RequestId>)
      requires KeyedById() && forall id :: id in pending ==> pending[id].status != TimedOut
      modifies this`results, pending.Values
      ensures KeyedById() && forall i, j :: 0 <= i < j < |toRemove| ==> toRemove[i] != toRemove[j]
      ensures forall id :: id in toRemove <==> id in old(GoneIds(now))
      ensures forall id :: id in pending ==>
                && pending[id].completed == (old(pending[id].completed) || id in ExpiredIds(now))
                && pending[id].status == if id in ExpiredIds(now) then TimedOut else old(pending[id].status)
      ensures forall id :: id !in ExpiredIds(now) ==>
                && (id in results <==> id in old(results))
                && (id in results ==> results[id] == old(results)[id])
    {
      hide ExpiredIds, AgedIds, GoneIds, ResponseStatus.IsTerminal;
      toRemove := [];
      ghost var expired, gone := ExpiredIds(now), GoneIds(now);
      GoneIff(now);
      var keys := Listed(pending.Keys);
      var n := 0;
      while n < |keys|
        invariant n <= |keys| && KeyedById()
        invariant forall i, j :: 0 <= i < j < |toRemove| ==> toRemove[i] != toRemove[j]
        invariant forall id :: id in toRemove ==> id in gone
        invariant forall j :: n <= j < |keys| ==>
                    && keys[j] !in toRemove
                    && pending[keys[j]].completed == old(pending[keys[j]].completed)
                    && pending[keys[j]].status == old(pending[keys[j]].status)
        invariant forall j :: 0 <= j < n ==>
                    && (keys[j] in gone ==> keys[j] in toRemove)
                    && pending[keys[j]].completed == (old(pending[keys[j]].completed) || keys[j] in expired)
                    && pending[keys[j]].status == if keys[j] in expired then TimedOut else old(pending[keys[j]].status)
        invariant forall id :: id !in expired ==>
                    && (id in results <==> id in old(results))
                    && (id in results ==> results[id] == old(results)[id])
      {
        var remove := MarkOne(keys[n], now);
        if remove {
          toRemove := toRemove + [keys[n]];
        }
        n := n + 1;
      }
    }

    /** The second half: what was listed goes, with its results. */
    method RemoveAll(toRemove: seq<RequestId>)
      requires forall i, j :: 0 <= i < j < |toRemove| ==> toRemove[i] != toRemove[j]
      requires forall id :: id in toRemove ==> id in pending
      modifies this`pending, this`results
      ensures |pending| + |toRemove| == |old(pending)|
      ensures forall id :: id in pending <==> id in old(pending) && id !in toRemove
      ensures forall id :: id in pending ==> pending[id] == old(pending)[id]
      ensures forall id :: id in results <==> id in old(results) && id !in toRemove
      ensures forall id :: id in results ==> results[id] == old(results)[id]
    {
      var n := 0;
      while n < |toRemove|
        invariant n <= |toRemove| && |pending| + n == |old(pending)|
        invariant forall id :: id in pending <==> id in old(pending) && id !in toRemove[..n]
        invariant forall id :: id in pending ==> pending[id] == old(pending)[id]
        invariant forall id :: id in results <==> id in old(results) && id !in toRemove[..n]
        invariant forall id :: id in results ==> results[id] == old(results)[id]
      {
        assert toRemove[..n + 1] == toRemove[..n] + [toRemove[n]];
        OneFewer(pending, toRemove[n]);
        pending := pending - {toRemove[n]};
        if toRemove[n] in results {
          results := results - {toRemove[n]};
        }
        n := n + 1;
      }
      assert toRemove[..|toRemove|] == toRemove;
    }

    /** A cleanup by the clock: expired at its deadline, and otherwise kept until
        completed and older than the retention. */
    lemma {:induction false} GoneByClock(now: int)
      requires forall id :: id in pending ==> pending[id].status != TimedOut
      ensures forall id :: id in pending ==> (id in ExpiredIds(now) <==> now >= pending[id].timeoutAt)
      ensures forall id :: id in pending ==>
                (id in GoneIds(now) <==>
                   || now >= pending[id].timeoutAt
                   || (pending[id].status in {Completed, Errored} && now - pending[id].registeredAt > retention))
    {
    }

    /** Both halves, id by id. */
    method Purge(now: int) returns (count: nat)
      requires KeyedById() && forall id :: id in pending ==> pending[id].status != TimedOut
      modifies this`pending, this`results, pending.Values
      ensures count == |old(pending)| - |pending|
      ensures forall id :: id in pending <==> id in old(pending) && id !in old(GoneIds(now))
      ensures forall id :: id in pending ==>
                pending[id] == old(pending[id]) && pending[id].status == old(pending[id].status)
      ensures forall id :: id in old(pending) ==>
                old(pending)[id].completed == (old(pending[id].completed) || id in old(ExpiredIds(now)))
      ensures forall id :: id in results <==> id in old(results) && id !in old(GoneIds(now))
      ensures forall id :: id in results ==> results[id] == old(results)[id]
    {
      hide ResponseStatus.IsTerminal, PendingRequest.IsExpired;
      var toRemove := MarkRemovable(now);
      RemoveAll(toRemove);
      count := |toRemove|;
    }

    /** Every pending request is on the list of all requests. */
    ghost predicate AllListed()
      reads this`pending, this`requests, this`counter, requests.Values
    {
      forall id :: OnList(id)
    }

    lemma {:induction false} ListedApart()
      requires AllListed()
      ensures KeyedById()
    {
      forall id | id in pending
        ensures pending[id].id == id
      {
        assert OnList(id);
      }
    }

    method PurgeCells(now: int) returns (count: nat)
      requires AllListed() && forall id :: id in pending ==> pending[id].status != TimedOut
      modifies this`pending, this`results, pending.Values
      ensures forall id :: id in pending <==>
                && id in old(pending) && now < old(pending)[id].timeoutAt
                && (old(pending[id].status) in {Completed, Errored} ==>
                      now - old(pending)[id].registeredAt <= retention)
      ensures forall id :: id in old(pending) ==>
                old(pending)[id].completed == (old(pending[id].completed) || now >= old(pending)[id].timeoutAt)
      ensures AllListed() && count == |old(pending)| - |pending|
      ensures forall id :: Here(id) == old(Here(id)).Cleaned(id in old(ExpiredIds(now)), id in old(AgedIds(now)))
    {
      hide ResponseStatus.IsTerminal, PendingRequest.IsExpired, ExpiredIds, AgedIds;
      ListedApart();
      GoneByClock(now);
      count := Purge(now);
      forall id
        ensures OnList(id)
        ensures Here(id) == old(Here(id)).Cleaned(id in old(ExpiredIds(now)), id in old(AgedIds(now)))
      {
        assert old(OnList(id));
      }
    }

    /** Removes expired requests and completed ones past their retention, and says
        how many. */
    method CleanupCompletedRequests(now: int) returns (count: nat)
      requires Valid()
      modifies this, pending.Values
      ensures Valid() && requests == old(requests) && count == |old(pending)| - |pending|
      ensures state == Step(old(state), Cleanup(old(ExpiredIds(now)), old(AgedIds(now))), max).0
      ensures forall id :: id in pending <==>
                && id in old(pending) && now < old(pending)[id].timeoutAt
                && (old(pending[id].status) in {Completed, Errored} ==>
                      now - old(pending)[id].registeredAt <= retention)
      ensures forall id :: id in old(pending) ==>
                old(pending)[id].completed == (old(pending[id].completed) || now >= old(pending)[id].timeoutAt)
    {
      hide Inv, Cleaned, Step, Enabled, ExpiredIds, AgedIds, Here, CellOf, Cell.Cleaned, OnList;
      ghost var was, expired, aged := state, ExpiredIds(now), AgedIds(now);
      CleaningUp(was, expired, aged, max);
      TiesList();
      count := PurgeCells(now);
      state := Cleaned(was, expired, aged);
      forall id
        ensures TiedAt(id)
      {
        assert old(TiedAt(id));
        assert OnList(id);
      }
    }

    /** Refuses new requests and answers everything still active with an error. */
    method BeginShutdown()
      requires Valid()
      modifies this, pending.Values
      ensures Valid() && requests == old(requests) && shutdown && pending == old(pending)
      ensures forall id :: id in pending && old(pending[id].status) in {Pending, Validating, Matching, Settling} ==>
                pending[id].status == Errored && pending[id].completed && id in results && !results[id].success
      ensures state == Step(old(state), Shutdown, max).0
    {
      hide Inv, ShutDown, Step, Enabled, Here, CellOf, Cell.ShutDown, OnList;
      ghost var was := state;
      ShuttingDown(was, max);
      TiesList();
      shutdown := true;
      AnswerCells();
      state := ShutDown(was);
      forall id
        ensures TiedAt(id)
      {
        assert old(TiedAt(id));
        assert OnList(id);
      }
    }

    method AnswerCells()
      requires AllListed()
      modifies this`results, pending.Values
      ensures AllListed()
      ensures forall id :: Here(id) == old(Here(id)).ShutDown()
      ensures forall id :: id in pending && old(pending[id].status) in {Pending, Validating, Matching, Settling} ==>
                pending[id].status == Errored && pending[id].completed && id in results && !results[id].success
    {
      ListedApart();
      AnswerActive();
      forall id
        ensures OnList(id)
        ensures Here(id) == old(Here(id)).ShutDown()
      {
        assert old(OnList(id));
      }
    }

    method AnswerActive()
      requires KeyedById()
      modifies this`results, pending.Values
      ensures KeyedById()
      ensures forall id :: id in pending ==>
                && pending[id].completed == (old(pending[id].completed) || !old(pending[id].status).IsTerminal())
                && pending[id].status == if old(pending[id].status).IsTerminal()
                   then old(pending[id].status) else Errored
      ensures forall id ::
                id in results <==> id in old(results) || (id in pending && !old(pending[id].status).IsTerminal())
      ensures forall id :: id in results ==>
                results[id] == if id in pending && !old(pending[id].status).IsTerminal()
                  then SHUTTING_DOWN else old(results)[id]
    {
      hide ResponseStatus.IsTerminal, Answered;
      var keys := Listed(pending.Keys);
      ghost var active := set id | id in pending && !pending[id].status.IsTerminal();
      ghost var who: set<RequestId> := {};
      var n := 0;
      AnsweredNobody(results);
      while n < |keys|
        invariant n <= |keys| && who <= active && KeyedById()
        invariant forall j :: n <= j < |keys| ==>
                    && pending[keys[j]].completed == old(pending[keys[j]].completed)
                    && pending[keys[j]].status == old(pending[keys[j]].status)
        invariant forall j :: 0 <= j < n ==>
                    && (keys[j] in active ==> keys[j] in who)
                    && pending[keys[j]].completed == (old(pending[keys[j]].completed) || keys[j] in active)
                    && pending[keys[j]].status == if keys[j] in active then Errored else old(pending[keys[j]].status)
        invariant Answered(results, old(results), who)
      {
        AnsweredMore(results, old(results), who, keys[n]);
        AnswerOne(keys[n]);
        if keys[n] in active {
          who := who + {keys[n]};
        }
        n := n + 1;
      }
      assert who == active;
      AnsweredAll(results, old(results), who);
    }

    method AnswerOne(id: RequestId)
      requires KeyedById() && id in pending
      modifies this`results, pending[id]
      ensures var p, active := pending[id], !old(pending[id].status).IsTerminal();
              && p.completed == (old(p.completed) || active)
              && p.status == (if active then Errored else old(p.status))
              && results == if active then old(results)[id := SHUTTING_DOWN] else old(results)
    {
      var p := pending[id];
      if !p.status.IsTerminal() {
        p.status := Errored;
        results := results[id := SHUTTING_DOWN];
        p.completed := true;
      }
    }

    /** The end of a shutdown: both maps are emptied. */
    method FinishShutdown()
      requires Valid() && shutdown
      modifies this
      ensures Valid() && requests == old(requests)
      ensures state == Step(old(state), Clear, max).0
    {
      hide Inv, Cleaned, ShutDown, Registering, Notified, Woken, Updated, IdOk;
      StepKeepsInv(state, Clear, max);
      pending := map[];
      results := map[];
      state := Step(state, Clear, max).0;
      forall j
        ensures TiedAt(j)
      {
        assert old(TiedAt(j));
      }
    }
  }

  /** The shutdown error was stored for some requests, and nothing else changed. */
  ghost predicate Answered(now: map<RequestId, Answer>, was: map<RequestId, Answer>, who: set<RequestId>) {
    && (forall id :: id in now <==> id in was || id in who)
    && (forall id :: id in now ==> now[id] == if id in who then SHUTTING_DOWN else was[id])
  }

  lemma {:induction false} AnsweredNobody(was: map<RequestId, Answer>)
    ensures Answered(was, was, {})
  {
  }

  lemma {:induction false} AnsweredMore(now: map<RequestId, Answer>, was: map<RequestId, Answer>, who: set<RequestId>,
                                        id: RequestId)
    requires Answered(now, was, who)
    ensures Answered(now[id := SHUTTING_DOWN], was, who + {id})
  {
  }

  lemma {:induction false} AnsweredAll(now: map<RequestId, Answer>, was: map<RequestId, Answer>, who: set<RequestId>)
    requires Answered(now, was, who)
    ensures forall id :: id in now <==> id in was || id in who
    ensures forall id :: id in now ==> now[id] == if id in who then SHUTTING_DOWN else was[id]
  {
  }

  lemma {:induction false} OneFewer<V>(m: map<RequestId, V>, id: RequestId)
    requires id in m
    ensures |m - {id}| == |m| - 1
  {
    OneLarger(m - {id}, id, m[id]);
    assert (m - {id})[id := m[id]] == m;
  }

  lemma {:induction false} NewId(c: Coordinator, max: nat)
    requires Inv(c, max)
    ensures CellOf(c, c.counter + 1) == Cell(None, false, None)
  {
    assert IdOk(c, c.counter + 1);
  }

  lemma {:induction false} Registers(c: Coordinator, max: nat)
    requires Inv(c, max)
    ensures var (d, r) := Step(c, Register, max);
            && Inv(d, max) && CellOf(c, c.counter + 1) == Cell(None, false, None)
            && if c.shutdown then (d, r) == (c, Refused)
               else if |c.pending| >= max then (d, r) == (c, Overloaded)
               else && r == Registered(c.counter + 1) && d.counter == c.counter + 1 && d.shutdown == c.shutdown
                    && forall id :: CellOf(d, id) ==
                         if id == c.counter + 1 then Cell(Some(Pending), false, None) else CellOf(c, id)
  {
    hide Inv;
    StepKeepsInv(c, Register, max);
    NewId(c, max);
  }

  lemma {:induction false} NoMissingKey(c: Coordinator, id: RequestId, max: nat)
    requires Inv(c, max) && Enabled(c, Wake(id))
    ensures id in c.results ==> id in c.pending
  {
    assert IdOk(c, id);
  }

  lemma {:induction false} Notifying(c: Coordinator, id: RequestId, a: Answer, max: nat)
    requires Inv(c, max)
    ensures Step(c, Notify(id, a), max) == Notified(c, id, a) && Inv(Notified(c, id, a).0, max)
    ensures var d := Complete(c, id, a);
            && d.counter == c.counter && d.shutdown == c.shutdown
            && forall j :: CellOf(d, j) == if j == id then Completion(a) else CellOf(c, j)
  {
    hide Inv;
    StepKeepsInv(c, Notify(id, a), max);
  }

  lemma {:induction false} Updating(c: Coordinator, id: RequestId, s: ResponseStatus, max: nat)
    requires Inv(c, max)
    ensures Updated(c, id, s) ==
            if id !in c.pending || c.pending[id].IsTerminal() then (c, Flag(false))
            else (c.(pending := c.pending[id := s]), Flag(true))
    ensures Inv(Updated(c, id, s).0, max) <==> s.IsActive() || Updated(c, id, s).1 == Flag(false)
  {
    hide Inv;
    if s.IsActive() {
      StepKeepsInv(c, Update(id, s), max);
    } else if id in c.pending && !c.pending[id].IsTerminal() {
      UpdateInStepIff(c, max, id, s);
      if Inv(Updated(c, id, s).0, max) {
        PendingInStep(Updated(c, id, s).0, max, id);
      }
    }
  }

  lemma {:induction false} CleaningUp(c: Coordinator, expired: set<RequestId>, aged: set<RequestId>, max: nat)
    requires Inv(c, max)
    ensures var d := Cleaned(c, expired, aged);
            && Step(c, Cleanup(expired, aged), max).0 == d && Inv(d, max)
            && d.counter == c.counter && d.shutdown == c.shutdown
            && forall id :: CellOf(d, id) == CellOf(c, id).Cleaned(id in expired, id in aged)
  {
    hide Inv, Step, Enabled;
    CleanupStep(c, expired, aged, max);
    forall id | id in c.pending
      ensures c.pending[id] != TimedOut
    {
      PendingInStep(c, max, id);
    }
  }

  lemma {:induction false} CleanupStep(c: Coordinator, expired: set<RequestId>, aged: set<RequestId>, max: nat)
    requires Inv(c, max)
    ensures Step(c, Cleanup(expired, aged), max).0 == Cleaned(c, expired, aged) && Inv(Cleaned(c, expired, aged), max)
  {
    hide Inv;
    StepKeepsInv(c, Cleanup(expired, aged), max);
  }

  lemma {:induction false} PendingInStep(c: Coordinator, max: nat, id: RequestId)
    requires Inv(c, max) && id in c.pending
    ensures InStep(c, id)
  {
    assert IdOk(c, id);
  }

  lemma {:induction false} ShuttingDown(c: Coordinator, max: nat)
    requires Inv(c, max)
    ensures var d := ShutDown(c);
            && Step(c, Shutdown, max).0 == d && Inv(d, max)
            && d.counter == c.counter && d.shutdown
            && forall id :: CellOf(d, id) == CellOf(c, id).ShutDown()
  {
    hide Inv;
    StepKeepsInv(c, Shutdown, max);
  }
}
