// Periodic schedules: one pass over the table, and what holds over any series of passes.
module Scheduling {
  import opened Results
  import opened TextOrder

  datatype Schedule = Schedule(
    scheduleId: string,
    serviceId: string,
    interval: real,
    enabled: bool,
    lastRunAt: Option<real>,
    nextRunAt: Option<real>,
    lastError: Option<string>,
    consecutiveFailures: int
  )

  type Table = map<string, Schedule>

  // A pass at a time; errors holds, by schedule, the text of what a diagnosis raises if it is tried.
  datatype Tick = Tick(now: real, errors: map<string, string>)

  predicate IsDue(s: Schedule, now: real) {
    if !s.enabled then false else s.nextRunAt.None? || s.nextRunAt.value <= now
  }

  function Advance(s: Schedule, now: real, error: Option<string>): Schedule {
    s.(lastRunAt := Some(now),
       nextRunAt := Some(now + s.interval),
       lastError := error,
       consecutiveFailures := if error.Some? then s.consecutiveFailures + 1 else 0)
  }

  function ErrorOf(tick: Tick, id: string): Option<string> {
    if id in tick.errors then Some(tick.errors[id]) else None
  }

  function Visited(s: Schedule, tick: Tick): Schedule {
    if IsDue(s, tick.now) then Advance(s, tick.now, ErrorOf(tick, s.scheduleId)) else s
  }

  // The whole table after one pass: every due schedule advanced, whatever the others raised.
  function Pass(table: Table, tick: Tick): (after: Table)
    ensures after.Keys == table.Keys
  {
    map id | id in table :: Visited(table[id], tick)
  }

  predicate TableOk(table: Table) {
    forall id :: id in table ==> table[id].scheduleId == id && table[id].interval > 0.0
  }

  function After(table: Table, ticks: seq<Tick>): (after: Table)
    ensures after.Keys == table.Keys
  {
    if ticks == [] then table else Pass(After(table, ticks[..|ticks| - 1]), ticks[|ticks| - 1])
  }

  // Pass number i tries the schedule.
  predicate Executes(table: Table, ticks: seq<Tick>, id: string, i: nat)
    requires id in table
  {
    i < |ticks| && IsDue(After(table, ticks[..i])[id], ticks[i].now)
  }

  predicate NonDecreasing(ticks: seq<Tick>) {
    forall i, j :: 0 <= i <= j < |ticks| ==> ticks[i].now <= ticks[j].now
  }

  // ---------- The table and one pass ----------

  class ScheduleStore {
    var schedules: Table

    method UpsertSchedule(s: Schedule)
      modifies this
      ensures schedules == old(schedules)[s.scheduleId := s]
    {
      schedules := schedules[s.scheduleId := s];
    }

    method FirstByService(rest: set<string>) returns (id: string)
      requires rest <= schedules.Keys && rest != {}
      ensures id in rest && forall k :: k in rest ==> !Before(schedules[k].serviceId, schedules[id].serviceId)
    {
      hide Least;
      var services := set k | k in rest :: schedules[k].serviceId;
      var one :| one in rest;
      assert schedules[one].serviceId in services;
      HasLeast(services);
      var least :| Least(least, services);
      LeastIsMember(least, services);
      id :| id in rest && schedules[id].serviceId == least;
      forall k | k in rest
        ensures !Before(schedules[k].serviceId, least)
      {
        LeastIsNotAfter(least, services, schedules[k].serviceId);
      }
    }

    // WHERE service_id, if one is given, ORDER BY service_id; schedules of one service come in no particular order.
    method ListSchedules(service: Option<string>) returns (listed: seq<Schedule>)
      requires TableOk(schedules)
      ensures IdsOf(listed) == Matching(schedules, service) && |listed| == |Matching(schedules, service)|
      ensures Rows(schedules, listed) && NoneTwice(listed)
      ensures forall m, n :: 0 <= m < n < |listed| ==> !Before(listed[n].serviceId, listed[m].serviceId)
    {
      hide Before;
      listed := [];
      var rest := Matching(schedules, service);
      ghost var all := rest;
      while rest != {}
        invariant rest <= all && all <= schedules.Keys && |listed| + |rest| == |all|
        invariant forall n :: 0 <= n < |listed| ==> listed[n].scheduleId in all - rest
        invariant Rows(schedules, listed) && NoneTwice(listed)
        invariant forall m, n :: 0 <= m < n < |listed| ==> !Before(listed[n].serviceId, listed[m].serviceId)
        invariant forall n, id :: 0 <= n < |listed| && id in rest ==>
          !Before(schedules[id].serviceId, listed[n].serviceId)
        decreases |rest|
      {
        var id := FirstByService(rest);
        listed := listed + [schedules[id]];
        rest := rest - {id};
      }
      hide NoneTwice;
      AllOf(listed, all);
    }
  }

  // The schedules of a service, or all.
  function Matching(table: Table, service: Option<string>): set<string> {
    set id | id in table && (service.Some? ==> table[id].serviceId == service.value)
  }

  lemma AllOf(listed: seq<Schedule>, all: set<string>)
    requires NoneTwice(listed) && |listed| == |all|
    requires forall n :: 0 <= n < |listed| ==> listed[n].scheduleId in all
    ensures IdsOf(listed) == all
  {
    CountIds(listed);
    var ids := IdsOf(listed);
    assert all == ids + (all - ids);
    assert |all| == |ids| + |all - ids|;
  }

  // The table and the tries after the loop over due schedules has gone through these.
  function Ran(table: Table, listed: seq<Schedule>, tick: Tick): Table {
    if listed == [] then table
    else
      var n := |listed| - 1;
      var before := Ran(table, listed[..n], tick);
      if IsDue(listed[n], tick.now) then
        before[listed[n].scheduleId := Advance(listed[n], tick.now, ErrorOf(tick, listed[n].scheduleId))]
      else before
  }

  function Tried(listed: seq<Schedule>, now: real): seq<string> {
    if listed == [] then []
    else
      var n := |listed| - 1;
      if IsDue(listed[n], now) then Tried(listed[..n], now) + [listed[n].scheduleId] else Tried(listed[..n], now)
  }

  predicate Rows(table: Table, listed: seq<Schedule>) {
    forall n :: 0 <= n < |listed| ==> listed[n].scheduleId in table && table[listed[n].scheduleId] == listed[n]
  }

  predicate NoneTwice(listed: seq<Schedule>) {
    forall m, n :: 0 <= m < n < |listed| ==> listed[m].scheduleId != listed[n].scheduleId
  }

  function IdsOf(listed: seq<Schedule>): set<string> {
    set n | 0 <= n < |listed| :: listed[n].scheduleId
  }

  lemma IdsOfSnoc(listed: seq<Schedule>)
    requires listed != []
    ensures IdsOf(listed) == IdsOf(listed[..|listed| - 1]) + {listed[|listed| - 1].scheduleId}
  {
    var n := |listed| - 1;
    forall id | id in IdsOf(listed)
      ensures id in IdsOf(listed[..n]) + {listed[n].scheduleId}
    {
      var i :| 0 <= i < |listed| && listed[i].scheduleId == id;
      assert i < n ==> listed[..n][i].scheduleId == id;
    }
    forall id | id in IdsOf(listed[..n])
      ensures id in IdsOf(listed)
    {
      var i :| 0 <= i < n && listed[..n][i].scheduleId == id;
      assert listed[i].scheduleId == id;
    }
  }

  lemma {:induction false} RanIs(table: Table, listed: seq<Schedule>, tick: Tick)
    requires Rows(table, listed)
    ensures Ran(table, listed, tick).Keys == table.Keys
    ensures forall id :: id in table ==>
      Ran(table, listed, tick)[id] == if id in IdsOf(listed) then Visited(table[id], tick) else table[id]
  {
    if listed != [] {
      RanIs(table, listed[..|listed| - 1], tick);
      IdsOfSnoc(listed);
      hide IdsOf;
    } else {
      assert IdsOf(listed) == {};
    }
  }

  lemma {:induction false} CountIds(listed: seq<Schedule>)
    requires NoneTwice(listed)
    ensures |IdsOf(listed)| == |listed|
  {
    if listed != [] {
      var n := |listed| - 1;
      CountIds(listed[..n]);
      IdsOfSnoc(listed);
      assert listed[n].scheduleId !in IdsOf(listed[..n]);
    }
  }

  lemma RanIsPass(table: Table, listed: seq<Schedule>, tick: Tick)
    requires TableOk(table) && Rows(table, listed) && IdsOf(listed) == table.Keys
    ensures Ran(table, listed, tick) == Pass(table, tick) && TableOk(Pass(table, tick))
  {
    RanIs(table, listed, tick);
    hide Ran;
    hide IdsOf;
    forall id | id in table
      ensures Ran(table, listed, tick)[id] == Pass(table, tick)[id]
    {
    }
  }

  lemma {:induction false} TriedIs(table: Table, listed: seq<Schedule>, now: real)
    requires Rows(table, listed) && NoneTwice(listed)
    ensures var tried := Tried(listed, now);
      && (forall m, n :: 0 <= m < n < |tried| ==> tried[m] != tried[n])
      && (forall id :: id in tried <==> id in IdsOf(listed) && id in table && IsDue(table[id], now))
  {
    if listed != [] {
      var n := |listed| - 1;
      TriedIs(table, listed[..n], now);
      IdsOfSnoc(listed);
      assert listed[n].scheduleId !in IdsOf(listed[..n]);
      hide IsDue;
      hide IdsOf;
    } else {
      assert IdsOf(listed) == {};
    }
  }

  lemma TriedOnce(table: Table, listed: seq<Schedule>, now: real)
    requires Rows(table, listed) && NoneTwice(listed) && IdsOf(listed) == table.Keys
    ensures var tried := Tried(listed, now);
      && (forall m, n :: 0 <= m < n < |tried| ==> tried[m] != tried[n])
      && (forall id :: id in tried <==> id in table && IsDue(table[id], now))
  {
    TriedIs(table, listed, now);
    hide *;
  }

  lemma LeastIsMember(least: string, keys: set<string>)
    requires Least(least, keys)
    ensures least in keys
  {
  }

  lemma LeastIsNotAfter(least: string, keys: set<string>, key: string)
    requires Least(least, keys) && key in keys
    ensures !Before(key, least)
  {
    BeforeIrreflexive(least);
    if Before(key, least) {
      BeforeTransitive(least, key, least);
    }
  }

  // ---------- Series of passes ----------

  // What never changes, and the failure of one pass to change a schedule it does not try.
  lemma {:induction false} Keeps(table: Table, ticks: seq<Tick>, id: string)
    requires TableOk(table) && id in table
    ensures TableOk(After(table, ticks))
    ensures var s := After(table, ticks)[id];
      s.interval == table[id].interval && s.enabled == table[id].enabled && s.serviceId == table[id].serviceId
  {
    if ticks != [] {
      var n := |ticks| - 1;
      Keeps(table, ticks[..n], id);
      forall k | k in table
        ensures After(table, ticks)[k].scheduleId == k && After(table, ticks)[k].interval > 0.0
      {
        assert After(table, ticks[..n])[k].scheduleId == k;
      }
    }
  }

  // One pass for one schedule: tried, and advanced to an interval from now, or left alone.
  lemma NextTick(table: Table, ticks: seq<Tick>, id: string, n: nat)
    requires TableOk(table) && id in table && n < |ticks|
    ensures After(table, ticks[..n + 1])[id] ==
      if Executes(table, ticks, id, n) then
        Advance(After(table, ticks[..n])[id], ticks[n].now, ErrorOf(ticks[n], id))
      else After(table, ticks[..n])[id]
    ensures After(table, ticks[..n])[id].interval == table[id].interval
  {
    assert ticks[..n + 1][..n] == ticks[..n];
    assert ticks[..n + 1][n] == ticks[n];
    Keeps(table, ticks[..n], id);
  }

  // After an execution at pass i the next is never due before an interval has gone by.
  lemma {:induction false} NotBefore(table: Table, ticks: seq<Tick>, id: string, i: nat, n: nat)
    requires TableOk(table) && id in table && NonDecreasing(ticks)
    requires i < n <= |ticks| && Executes(table, ticks, id, i)
    ensures var s := After(table, ticks[..n])[id];
      s.nextRunAt.Some? && s.nextRunAt.value >= ticks[i].now + table[id].interval
  {
    hide After;
    hide Executes;
    NextTick(table, ticks, id, n - 1);
    if i < n - 1 {
      NotBefore(table, ticks, id, i, n - 1);
    }
  }

  // Two executions are at least an interval apart.
  lemma ExecutionsAreSpaced(table: Table, ticks: seq<Tick>, id: string, i: nat, j: nat)
    requires TableOk(table) && id in table && NonDecreasing(ticks)
    requires i < j && Executes(table, ticks, id, i) && Executes(table, ticks, id, j)
    ensures ticks[j].now - ticks[i].now >= table[id].interval
  {
    NotBefore(table, ticks, id, i, j);
  }

  // Without an execution in between, the record is that of the last one and the next is due exactly an interval
  // after it.
  lemma {:induction false} DueAgain(table: Table, ticks: seq<Tick>, id: string, i: nat, n: nat)
    requires TableOk(table) && id in table
    requires i < n <= |ticks| && Executes(table, ticks, id, i)
    requires forall k :: i < k < n ==> !Executes(table, ticks, id, k)
    ensures var s := After(table, ticks[..n])[id];
      && s.nextRunAt == Some(ticks[i].now + table[id].interval)
      && s.lastRunAt == Some(ticks[i].now) && s.lastError == ErrorOf(ticks[i], id)
  {
    hide After;
    hide Executes;
    NextTick(table, ticks, id, n - 1);
    if i < n - 1 {
      DueAgain(table, ticks, id, i, n - 1);
      assert !Executes(table, ticks, id, n - 1);
    }
  }

  // The first pass an interval or more after an execution tries the schedule again, and no earlier one does.
  lemma RunsAgainExactlyWhenDue(table: Table, ticks: seq<Tick>, id: string, i: nat, j: nat)
    requires TableOk(table) && id in table
    requires i < j < |ticks| && Executes(table, ticks, id, i)
    requires forall k :: i < k < j ==> !Executes(table, ticks, id, k)
    ensures Executes(table, ticks, id, j) <==> ticks[i].now + table[id].interval <= ticks[j].now
  {
    DueAgain(table, ticks, id, i, j);
    Keeps(table, ticks[..j], id);
    Keeps(table, ticks[..i], id);
  }

  // A schedule that no pass has tried is as it was.
  lemma {:induction false} UntouchedUntilTried(table: Table, ticks: seq<Tick>, id: string, n: nat)
    requires TableOk(table) && id in table && n <= |ticks|
    requires forall k :: 0 <= k < n ==> !Executes(table, ticks, id, k)
    ensures After(table, ticks[..n])[id] == table[id]
  {
    if n == 0 {
      StartOf(table, id);
      assert ticks[..0] == [];
    } else {
      hide After;
      hide Executes;
      UntouchedUntilTried(table, ticks, id, n - 1);
      NextTick(table, ticks, id, n - 1);
      assert !Executes(table, ticks, id, n - 1);
    }
  }

  // Pass i is the last before pass j that tries the schedule.
  predicate LastTried(table: Table, ticks: seq<Tick>, id: string, i: nat, j: nat)
    requires id in table
  {
    i < j && Executes(table, ticks, id, i) && forall k :: i < k < j ==> !Executes(table, ticks, id, k)
  }

  lemma {:induction false} TriedOrNot(table: Table, ticks: seq<Tick>, id: string, j: nat) returns (last: Option<nat>)
    requires id in table && j <= |ticks|
    ensures last.Some? ==> LastTried(table, ticks, id, last.value, j)
    ensures last.None? ==> forall k :: 0 <= k < j ==> !Executes(table, ticks, id, k)
  {
    hide Executes;
    last := None;
    if j > 0 {
      if Executes(table, ticks, id, j - 1) {
        last := Some(j - 1);
      } else {
        last := TriedOrNot(table, ticks, id, j - 1);
      }
    }
  }

  // When a pass tries a schedule, over every series of passes: it is enabled, and the last pass that tried it lies an
  // interval or more back, or none has tried it and it has no due time yet or one that has come.
  lemma ExecutesExactlyIf(table: Table, ticks: seq<Tick>, id: string, j: nat)
    requires TableOk(table) && id in table && j < |ticks|
    ensures Executes(table, ticks, id, j) <==> (table[id].enabled
      && ((exists i: nat :: LastTried(table, ticks, id, i, j) && ticks[i].now + table[id].interval <= ticks[j].now)
          || ((forall k :: 0 <= k < j ==> !Executes(table, ticks, id, k))
              && (table[id].nextRunAt.None? || table[id].nextRunAt.value <= ticks[j].now))))
  {
    Keeps(table, ticks[..j], id);
    ExecutesIs(table, ticks, id, j);
    hide Executes;
    hide After;
    var last := TriedOrNot(table, ticks, id, j);
    if last.Some? {
      DueAgain(table, ticks, id, last.value, j);
    } else {
      UntouchedUntilTried(table, ticks, id, j);
    }
  }

  lemma ExecutesIs(table: Table, ticks: seq<Tick>, id: string, j: nat)
    requires id in table && j < |ticks|
    ensures var s := After(table, ticks[..j])[id];
      Executes(table, ticks, id, j) <==> s.enabled && (s.nextRunAt.None? || s.nextRunAt.value <= ticks[j].now)
  {
    hide After;
  }

  // So a disabled schedule is never tried and never changes.
  lemma {:induction false} DisabledNeverRuns(table: Table, ticks: seq<Tick>, id: string)
    requires TableOk(table) && id in table && !table[id].enabled
    ensures After(table, ticks)[id] == table[id] && forall k: nat :: !Executes(table, ticks, id, k)
  {
    forall k: nat
      ensures !Executes(table, ticks, id, k)
    {
      if k < |ticks| {
        ExecutesExactlyIf(table, ticks, id, k);
      }
    }
    UntouchedUntilTried(table, ticks, id, |ticks|);
    assert ticks[..|ticks|] == ticks;
  }

  // When passes are at most d apart, consecutive executions are less than interval + d apart.
  lemma GapIsBounded(table: Table, ticks: seq<Tick>, id: string, i: nat, j: nat, d: real)
    requires TableOk(table) && id in table
    requires forall k :: 0 < k < |ticks| ==> ticks[k].now - ticks[k - 1].now <= d
    requires i < j && Executes(table, ticks, id, i) && Executes(table, ticks, id, j)
    requires forall k :: i < k < j ==> !Executes(table, ticks, id, k)
    ensures ticks[j].now - ticks[i].now < table[id].interval + d
  {
    if i < j - 1 {
      RunsAgainExactlyWhenDue(table, ticks, id, i, j - 1);
    }
  }

  // Whether each execution so far failed, oldest first.
  function Outcomes(table: Table, ticks: seq<Tick>, id: string): seq<bool>
    requires id in table
  {
    if ticks == [] then []
    else
      var n := |ticks| - 1;
      Outcomes(table, ticks[..n], id) +
      (if Executes(table, ticks, id, n) then [id in ticks[n].errors] else [])
  }

  function TrailingRun(outcomes: seq<bool>): nat {
    if outcomes == [] || !outcomes[|outcomes| - 1] then 0 else 1 + TrailingRun(outcomes[..|outcomes| - 1])
  }

  // The counter is the length of the trailing run of failures; the count it began with still stands as long
  // as nothing has succeeded.
  lemma {:induction false} FailuresAreTrailing(table: Table, ticks: seq<Tick>, id: string)
    requires TableOk(table) && id in table
    ensures var run := TrailingRun(Outcomes(table, ticks, id));
      After(table, ticks)[id].consecutiveFailures
        == run + (if run == |Outcomes(table, ticks, id)| then table[id].consecutiveFailures else 0)
  {
    hide After;
    hide Executes;
    hide TrailingRun;
    if ticks == [] {
      TrailingOf([], true);
      StartOf(table, id);
    } else {
      var n := |ticks| - 1;
      assert ticks[..n + 1] == ticks;
      FailuresAreTrailing(table, ticks[..n], id);
      NextTick(table, ticks, id, n);
      var earlier := Outcomes(table, ticks[..n], id);
      TrailingOf(earlier, id in ticks[n].errors);
      assert earlier + [] == earlier;
    }
  }

  lemma StartOf(table: Table, id: string)
    requires id in table
    ensures After(table, [])[id] == table[id]
  {
  }

  lemma TrailingOf(earlier: seq<bool>, failed: bool)
    ensures TrailingRun([]) == 0
    ensures TrailingRun(earlier + [failed]) == if failed then TrailingRun(earlier) + 1 else 0
  {
    assert (earlier + [failed])[..|earlier|] == earlier;
  }
}
