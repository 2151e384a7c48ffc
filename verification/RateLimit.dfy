/** Order rate limiting: one window per team that counts the current second, kept
    in place of the history of accepted orders it stands for. */
module RateLimit {
  import opened Orders

  /** Whole seconds of a clock reading, cut towards zero. */
  function Second(t: real): int {
    if t >= 0.0 then t.Floor else -(-t).Floor
  }

  lemma {:induction false} SecondGrows(s: real, t: real)
    requires s <= t
    ensures Second(s) <= Second(t)
  {
  }

  /** From one on, a second n has the readings from n up to but not n + 1. Negative
      seconds mirror the positive ones, so that second 0 is twice as long. */
  lemma {:induction false} SecondSpans(t: real, n: int)
    ensures Second(t) == n <==>
            if n > 0 then n as real <= t < n as real + 1.0
            else if n == 0 then -1.0 < t < 1.0
            else n as real - 1.0 < t <= n as real
  {
  }

  datatype Window = Window(count: nat, start: real) {
    predicate IsCurrent(now: real) {
      Second(now) == Second(start)
    }
  }

  /** How many of some increments fell in one second. */
  function CountIn(ticks: seq<real>, second: int): nat {
    if ticks == [] then 0
    else
      (if Second(ticks[|ticks| - 1]) == second then 1 else 0)
      + CountIn(ticks[..|ticks| - 1], second)
  }

  /** The readings from the whole second n up to but not the next. */
  function ReadAt(ticks: seq<real>, n: int): set<nat> {
    set k: nat | k < |ticks| && n as real <= ticks[k] < n as real + 1.0
  }

  /** The clock-time count: every reading of [n, n + 1) was counted in second n, and
      no other was, except negative ones in second 0. */
  lemma {:induction false} CountByClock(ticks: seq<real>, n: nat)
    ensures |ReadAt(ticks, n)| <= CountIn(ticks, n)
    ensures n > 0 || (forall k :: 0 <= k < |ticks| ==> ticks[k] >= 0.0) ==> CountIn(ticks, n) == |ReadAt(ticks, n)|
  {
    if ticks == [] {
    } else {
      var last := |ticks| - 1;
      var before := ticks[..last];
      CountByClock(before, n);
      SecondSpans(ticks[last], n);
      assert forall k :: 0 <= k < last ==> before[k] == ticks[k];
      assert ReadAt(ticks, n) ==
             ReadAt(before, n) + if n as real <= ticks[last] < n as real + 1.0 then {last} else {};
    }
  }

  /** The increments in a second are the latest ones, with none in another second between. */
  predicate Latest(ticks: seq<real>, second: int) {
    forall j, k :: 0 <= j < k < |ticks| && Second(ticks[j]) == second ==> Second(ticks[k]) == second
  }

  /** How many of the last increments fell in the same second as the very last. */
  function Streak(ticks: seq<real>): nat {
    if ticks == [] then 0
    else if |ticks| > 1 && Second(ticks[|ticks| - 2]) == Second(ticks[|ticks| - 1])
      then 1 + Streak(ticks[..|ticks| - 1])
    else 1
  }

  /** The window of a team that made these increments. */
  predicate Stands(w: Option<Window>, ticks: seq<real>) {
    match w
    case None => ticks == []
    case Some(v) => ticks != [] && v.count == Streak(ticks) && Second(v.start) == Second(ticks[|ticks| - 1])
  }

  lemma {:induction false} NoneCounted(ticks: seq<real>, second: int)
    ensures CountIn(ticks, second) == 0 <==> forall k :: 0 <= k < |ticks| ==> Second(ticks[k]) != second
  {
    if ticks == [] {
    } else {
      NoneCounted(ticks[..|ticks| - 1], second);
      assert forall k :: 0 <= k < |ticks| - 1 ==> ticks[..|ticks| - 1][k] == ticks[k];
    }
  }

  /** The streak never counts too many, and counts all of its second exactly when
      that second's increments are the latest. */
  lemma {:induction false} StreakCounts(ticks: seq<real>)
    requires ticks != []
    ensures var s := Second(ticks[|ticks| - 1]);
            && Streak(ticks) <= CountIn(ticks, s)
            && (Streak(ticks) == CountIn(ticks, s) <==> Latest(ticks, s))
  {
    var n, s := |ticks|, Second(ticks[|ticks| - 1]);
    var before := ticks[..n - 1];
    if n > 1 && Second(ticks[n - 2]) == s {
      StreakCounts(before);
      assert before[n - 2] == ticks[n - 2];
      assert Latest(ticks, s) <==> Latest(before, s) by {
        LatestShorter(ticks, s);
      }
    } else {
      NoneCounted(before, s);
      assert forall k :: 0 <= k < n - 1 ==> before[k] == ticks[k];
      if n > 1 {
        LatestEnds(ticks, s);
      }
    }
  }

  lemma {:induction false} LatestShorter(ticks: seq<real>, s: int)
    requires ticks != [] && Second(ticks[|ticks| - 1]) == s
    ensures Latest(ticks, s) <==> Latest(ticks[..|ticks| - 1], s)
  {
  }

  lemma {:induction false} LatestEnds(ticks: seq<real>, s: int)
    requires |ticks| > 1 && Second(ticks[|ticks| - 1]) == s != Second(ticks[|ticks| - 2])
    ensures Latest(ticks, s) <==> forall k :: 0 <= k < |ticks| - 1 ==> Second(ticks[k]) != s
  {
  }

  function CountShown(w: Option<Window>, now: real): nat {
    if w.Some? && w.value.IsCurrent(now) then w.value.count else 0
  }

  /** What a window answers is the true count of the second exactly when that
      second's increments, if any, are the team's latest. */
  lemma {:induction false} ShownIsCount(w: Option<Window>, ticks: seq<real>, now: real)
    requires Stands(w, ticks)
    ensures CountShown(w, now) <= CountIn(ticks, Second(now))
    ensures CountShown(w, now) == CountIn(ticks, Second(now)) <==>
            Latest(ticks, Second(now)) && EndsIn(ticks, Second(now))
  {
    NoneCounted(ticks, Second(now));
    if ticks != [] {
      StreakCounts(ticks);
    }
  }

  /** Either nothing happened in the second, or it is where the increments end. */
  predicate EndsIn(ticks: seq<real>, second: int) {
    (forall k :: 0 <= k < |ticks| ==> Second(ticks[k]) != second) || Second(ticks[|ticks| - 1]) == second
  }

  /** A clock that never went back, up to a reading. */
  predicate Forward(ticks: seq<real>, now: real) {
    && (forall j, k :: 0 <= j < k < |ticks| ==> ticks[j] <= ticks[k])
    && forall k :: 0 <= k < |ticks| ==> ticks[k] <= now
  }

  lemma {:induction false} ForwardIsLatest(ticks: seq<real>, now: real)
    requires Forward(ticks, now)
    ensures Latest(ticks, Second(now)) && EndsIn(ticks, Second(now))
  {
  }

  /** On a clock that never went back, in clock time: what is shown during [n, n + 1)
      is the number of increments made since n. */
  lemma {:induction false} ShownByClock(w: Option<Window>, ticks: seq<real>, now: real, n: nat)
    requires Stands(w, ticks) && Forward(ticks, now) && n as real <= now < n as real + 1.0
    requires n > 0 || forall k :: 0 <= k < |ticks| ==> ticks[k] >= 0.0
    ensures CountShown(w, now) == |set k: nat | k < |ticks| && n as real <= ticks[k] < n as real + 1.0|
  {
    hide CountIn, Stands, CountShown;
    SecondSpans(now, n);
    ForwardIsLatest(ticks, now);
    ShownIsCount(w, ticks, now);
    CountByClock(ticks, n);
    assert ReadAt(ticks, n) == set k: nat | k < |ticks| && n as real <= ticks[k] < n as real + 1.0;
  }

  /** No second ever counts more than the limit. */
  ghost predicate WithinRate(ticks: seq<real>, max: nat) {
    forall second :: CountIn(ticks, second) <= max
  }

  /** Then no stretch of clock time from a whole second to the next has more. */
  lemma {:induction false} WithinByClock(ticks: seq<real>, max: nat)
    requires WithinRate(ticks, max)
    ensures forall n: nat :: |ReadAt(ticks, n)| <= max
  {
    hide CountIn;
    forall n: nat
      ensures |ReadAt(ticks, n)| <= max
    {
      CountByClock(ticks, n);
    }
  }

  lemma {:induction false} OneMore(ticks: seq<real>, t: real, second: int)
    ensures CountIn(ticks + [t], second) == CountIn(ticks, second) + if Second(t) == second then 1 else 0
  {
  }

  /** The limit survives an acceptance even when the clock ticks over between the
      check and the increment. */
  lemma {:induction false} AcceptanceKeepsRate(w: Option<Window>, ticks: seq<real>, checked: real, counted: real,
                                               max: nat)
    requires Stands(w, ticks) && Forward(ticks, checked) && checked <= counted
    requires WithinRate(ticks, max) && CountShown(w, checked) < max
    ensures WithinRate(ticks + [counted], max) && Forward(ticks + [counted], counted)
    ensures forall n: nat :: |ReadAt(ticks + [counted], n)| <= max
  {
    hide CountIn, ReadAt;
    ForwardIsLatest(ticks, checked);
    ShownIsCount(w, ticks, checked);
    SecondGrows(checked, counted);
    forall second
      ensures CountIn(ticks + [counted], second) <= max
    {
      OneMore(ticks, counted, second);
      if second == Second(counted) && second != Second(checked) {
        forall k | 0 <= k < |ticks|
          ensures Second(ticks[k]) != second
        {
          SecondGrows(ticks[k], checked);
        }
        NoneCounted(ticks, second);
      }
    }
    WithinByClock(ticks + [counted], max);
  }

  class RateWindows {
    var windows: map<TeamId, Window>
    ghost var ticks: map<TeamId, seq<real>>  // every increment ever made, by team

    function Of(team: TeamId): Option<Window>
      reads this
    {
      if team in windows then Some(windows[team]) else None
    }

    ghost function History(team: TeamId): seq<real>
      reads this
    {
      if team in ticks then ticks[team] else []
    }

    ghost predicate Valid()
      reads this
    {
      forall team :: Stands(Of(team), History(team))
    }

    constructor ()
      ensures Valid() && forall team :: History(team) == []
    {
      windows, ticks := map[], map[];
    }

    /** The count a window shows: never too high, and the true count of the second
        as long as the clock has not gone back. */
    method GetOrderCount(team: TeamId, now: real) returns (n: nat)
      requires Valid()
      ensures n == CountShown(Of(team), now) && n <= CountIn(History(team), Second(now))
      ensures n == CountIn(History(team), Second(now)) <==>
                Latest(History(team), Second(now)) && EndsIn(History(team), Second(now))
      ensures Forward(History(team), now) ==> n == CountIn(History(team), Second(now))
      ensures var ticks := History(team);
              && Forward(ticks, now)
              && (now >= 1.0 || (now >= 0.0 && forall k :: 0 <= k < |ticks| ==> ticks[k] >= 0.0)) ==>
                n == |set k: nat | k < |ticks| && now.Floor as real <= ticks[k] < now.Floor as real + 1.0|
    {
      ShownIsCount(Of(team), History(team), now);
      if Forward(History(team), now) {
        ForwardIsLatest(History(team), now);
        if now >= 1.0 || (now >= 0.0 && forall k :: 0 <= k < |History(team)| ==> History(team)[k] >= 0.0) {
          ShownByClock(Of(team), History(team), now, now.Floor);
        }
      }
      if team !in windows {
        return 0;
      }
      n := if windows[team].IsCurrent(now) then windows[team].count else 0;
    }

    method IncrementOrderCount(team: TeamId, now: real)
      requires Valid()
      modifies this
      ensures Valid() && History(team) == old(History(team)) + [now]
      ensures forall other :: other != team ==> History(other) == old(History(other)) && Of(other) == old(Of(other))
    {
      ghost var was := History(team);
      StreakGrows(was, now);
      if team !in windows || !windows[team].IsCurrent(now) {
        windows := windows[team := Window(1, now)];
      } else {
        windows := windows[team := Window(windows[team].count + 1, windows[team].start)];
      }
      ticks := ticks[team := was + [now]];
      assert forall other :: other != team ==> Of(other) == old(Of(other)) && History(other) == old(History(other));
    }
  }

  lemma {:induction false} StreakGrows(ticks: seq<real>, t: real)
    ensures Streak(ticks + [t]) ==
            if ticks != [] && Second(ticks[|ticks| - 1]) == Second(t) then Streak(ticks) + 1 else 1
  {
  }

  /** A clock set back makes a second count again from one. */
  lemma {:induction false} ClockSetBack()
    ensures var ticks := [1.0, 2.0];
            Stands(Some(Window(1, 2.0)), ticks) && CountShown(Some(Window(1, 2.0)), 1.5) == 0
              && ReadAt(ticks, 1) == {0}
  {
  }
}
