// The monitoring pass: every due schedule is diagnosed, and what that yields goes through the alert pipeline.
module Monitor {
  import opened Results
  import opened Monitoring
  import opened Tables
  import opened Lifecycle
  import opened LifecycleTheorems
  import opened Service
  import opened Scheduling

  // What diagnosing a schedule does: a report, with the baseline's verdict on it, or an exception's text.
  datatype Probe = Reported(report: Report, regression: bool) | Failed(text: string)

  // ---------- Several steps from a state ----------

  ghost function RunFrom(db: Db, events: seq<Event>): Db {
    if events == [] then db else Step(RunFrom(db, events[..|events| - 1]), events[|events| - 1])
  }

  ghost predicate LegalFrom(db: Db, events: seq<Event>) {
    events == []
    || (LegalFrom(db, events[..|events| - 1]) && Legal(RunFrom(db, events[..|events| - 1]), events[|events| - 1]))
  }

  // What comes after a run continues it, so the theorems about runs apply to it.
  lemma {:induction false} RunGoesOn(events: seq<Event>, more: seq<Event>)
    requires LegalRun(events) && LegalFrom(Run(events), more)
    ensures LegalRun(events + more) && Run(events + more) == RunFrom(Run(events), more)
  {
    hide Step;
    hide Legal;
    if more == [] {
      assert events + more == events;
    } else {
      var n := |more| - 1;
      RunGoesOn(events, more[..n]);
      assert (events + more)[..|events| + n] == events + more[..n];
    }
  }

  lemma OneFurther(db: Db, events: seq<Event>, e: Event)
    requires LegalFrom(db, events) && Legal(RunFrom(db, events), e)
    ensures LegalFrom(db, events + [e]) && RunFrom(db, events + [e]) == Step(RunFrom(db, events), e)
  {
    assert (events + [e])[..|events|] == events;
    hide Step;
    hide Legal;
  }

  lemma {:induction false} GoesOn(db: Db, events: seq<Event>, more: seq<Event>)
    requires LegalFrom(db, events) && LegalFrom(RunFrom(db, events), more)
    ensures LegalFrom(db, events + more) && RunFrom(db, events + more) == RunFrom(RunFrom(db, events), more)
  {
    hide Step;
    hide Legal;
    if more == [] {
      assert events + more == events;
    } else {
      var n := |more| - 1;
      GoesOn(db, events, more[..n]);
      assert (events + more)[..|events| + n] == events + more[..n];
    }
  }

  // ---------- The pass ----------

  // The texts of what the diagnoses raise, by schedule.
  function TickOf(table: Table, now: real, probe: string -> Probe): Tick {
    Tick(now, map id | id in table && probe(id).Failed? :: probe(id).text)
  }

  // The reports of the schedules tried, in order.
  function ReportsOf(tried: seq<string>, probe: string -> Probe): seq<Report> {
    if tried == [] then []
    else
      var n := |tried| - 1;
      if probe(tried[n]).Reported? then ReportsOf(tried[..n], probe) + [probe(tried[n]).report]
      else ReportsOf(tried[..n], probe)
  }

  // The events are the diagnoses of these reports, all at one time.
  predicate Diagnoses(events: seq<Event>, reports: seq<Report>, now: real) {
    && |events| == |reports|
    && forall i :: 0 <= i < |events| ==>
      events[i].Diagnose? && events[i].report == reports[i] && events[i].now == now
  }

  // The part of the controller service that runs schedules.
  class MonitorService {
    const service: ControllerService
    const table: ScheduleStore

    constructor (s: ControllerService, t: ScheduleStore)
      ensures service == s && table == t
    {
      service := s;
      table := t;
    }

    // The try block: the report goes through the pipeline, or the text is recorded. The steps are none or one.
    method TryDiagnosis(id: string, now: real, probe: string -> Probe)
      returns (reports: seq<Report>, error: Option<string>, ghost events: seq<Event>)
      requires Inv(service.store.Contents()) && RulesOk(service.store.rules)
      modifies service.store`alerts, service.store`incidents, service.store`supply
      ensures Inv(service.store.Contents())
      ensures reports == (if probe(id).Reported? then [probe(id).report] else [])
      ensures error == (if probe(id).Failed? then Some(probe(id).text) else None)
      ensures Diagnosed(old(service.store.Contents()), service.store.Contents(), events, reports, now)
    {
      hide Inv;
      hide Step;
      hide Legal;
      hide RunFrom;
      hide LegalFrom;
      hide Listing;
      hide FireAll;
      ghost var db := service.store.Contents();
      reports, error, events := [], None, [];
      NoSteps(db);
      match probe(id) {
        case Reported(report, regression) =>
          ghost var e;
          var outcome;
          outcome, e := service.ProcessDiagnosis(report, now, regression);
          OneFurther(db, [], e);
          assert [] + [e] == [e];
          reports, events := [report], [e];
        case Failed(text) =>
          error := Some(text);
      }
    }

    // The reports of the diagnoses that went through, in order. Each due schedule is tried once and advanced,
    // whatever the others do, and the alerts and incidents are those after the reports, one step each.
    method RunDueSchedules(now: real, probe: string -> Probe)
      returns (reports: seq<Report>, ghost tried: seq<string>, ghost events: seq<Event>)
      requires TableOk(table.schedules) && Inv(service.store.Contents()) && RulesOk(service.store.rules)
      modifies table, service.store`alerts, service.store`incidents, service.store`supply
      ensures TableOk(table.schedules) && Inv(service.store.Contents()) && RulesOk(service.store.rules)
      ensures table.schedules == Pass(old(table.schedules), TickOf(old(table.schedules), now, probe))
      ensures forall m, n :: 0 <= m < n < |tried| ==> tried[m] != tried[n]
      ensures forall id :: id in tried <==> id in old(table.schedules) && IsDue(old(table.schedules)[id], now)
      ensures forall id :: id in tried <==> (id in old(table.schedules) && old(table.schedules)[id].enabled
        && (old(table.schedules)[id].nextRunAt.None? || old(table.schedules)[id].nextRunAt.value <= now))
      ensures reports == ReportsOf(tried, probe) && Diagnoses(events, reports, now)
      ensures LegalFrom(old(service.store.Contents()), events)
      ensures service.store.Contents() == RunFrom(old(service.store.Contents()), events)
    {
      hide *;
      ghost var before, db := table.schedules, service.store.Contents();
      ghost var tick := TickOf(before, now, probe);
      TickFits(before, now, probe);
      reports, tried, events := [], [], [];
      StartsWell(before, db, tick, probe);
      var listed := table.ListSchedules(None);
      for n := 0 to |listed|
        invariant Underway(before, table.schedules, listed[..n], tick, probe, tried, reports)
        invariant Diagnosed(db, service.store.Contents(), events, reports, now)
        invariant Inv(service.store.Contents()) && RulesOk(service.store.rules)
      {
        var schedule := listed[n];
        assert listed[..n + 1] == listed[..n] + [schedule];
        if !IsDue(schedule, now) {
          SkipOne(before, table.schedules, listed[..n], schedule, tick, probe, tried, reports);
          continue;
        }
        RowIsThere(before, listed, n);
        TryOne(before, table.schedules, listed[..n], schedule, tick, probe, tried, reports);
        var some, error;
        ghost var mid, steps := service.store.Contents(), [];
        some, error, steps := TryDiagnosis(schedule.scheduleId, now, probe);
        FurtherDiagnosed(db, mid, service.store.Contents(), events, steps, reports, some, now);
        tried, reports, events := tried + [schedule.scheduleId], reports + some, events + steps;
        table.UpsertSchedule(Advance(schedule, now, error));
      }
      assert listed[..|listed|] == listed;
      AllMatch(before);
      EndsWell(before, table.schedules, listed, tick, probe, tried, reports);
      DiagnosedMeans(db, service.store.Contents(), events, reports, now);
      DueMeans(before, now);
    }
  }

  // How far a pass has come: the table, the tries and the reports after these schedules.
  predicate Underway(before: Table, table: Table, listed: seq<Schedule>, tick: Tick, probe: string -> Probe,
                     tried: seq<string>, reports: seq<Report>)
  {
    && table == Ran(before, listed, tick)
    && tried == Tried(listed, tick.now)
    && reports == ReportsOf(tried, probe)
  }

  // What it has done to the alerts and incidents.
  ghost predicate Diagnosed(from: Db, db: Db, events: seq<Event>, reports: seq<Report>, now: real) {
    Diagnoses(events, reports, now) && LegalFrom(from, events) && db == RunFrom(from, events)
  }

  lemma TickFits(table: Table, now: real, probe: string -> Probe)
    ensures TickOf(table, now, probe).now == now
  {
  }

  lemma StartsWell(before: Table, db: Db, tick: Tick, probe: string -> Probe)
    ensures Underway(before, before, [], tick, probe, [], [])
    ensures Diagnosed(db, db, [], [], tick.now)
  {
  }

  lemma SkipOne(before: Table, table: Table, listed: seq<Schedule>, schedule: Schedule, tick: Tick,
                probe: string -> Probe, tried: seq<string>, reports: seq<Report>)
    requires Underway(before, table, listed, tick, probe, tried, reports) && !IsDue(schedule, tick.now)
    ensures Underway(before, table, listed + [schedule], tick, probe, tried, reports)
  {
    assert (listed + [schedule])[..|listed|] == listed;
    hide IsDue;
  }

  lemma TryOne(before: Table, table: Table, listed: seq<Schedule>, schedule: Schedule, tick: Tick,
               probe: string -> Probe, tried: seq<string>, reports: seq<Report>)
    requires Underway(before, table, listed, tick, probe, tried, reports) && IsDue(schedule, tick.now)
    requires tick == TickOf(before, tick.now, probe) && schedule.scheduleId in before
    ensures var id := schedule.scheduleId;
      var some := if probe(id).Reported? then [probe(id).report] else [];
      var error := if probe(id).Failed? then Some(probe(id).text) else None;
      var advanced := Advance(schedule, tick.now, error);
      Underway(before, table[advanced.scheduleId := advanced], listed + [schedule], tick, probe,
               tried + [id], reports + some)
  {
    assert (listed + [schedule])[..|listed|] == listed;
    assert (tried + [schedule.scheduleId])[..|tried|] == tried;
    hide IsDue;
  }

  lemma EndsWell(before: Table, table: Table, listed: seq<Schedule>, tick: Tick, probe: string -> Probe,
                 tried: seq<string>, reports: seq<Report>)
    requires Underway(before, table, listed, tick, probe, tried, reports)
    requires TableOk(before) && Rows(before, listed) && NoneTwice(listed) && IdsOf(listed) == before.Keys
    ensures table == Pass(before, tick) && TableOk(table) && reports == ReportsOf(tried, probe)
    ensures forall m, n :: 0 <= m < n < |tried| ==> tried[m] != tried[n]
    ensures forall id :: id in tried <==> id in before && IsDue(before[id], tick.now)
  {
    RanIsPass(before, listed, tick);
    TriedOnce(before, listed, tick.now);
    hide Ran;
    hide Tried;
    hide Pass;
    hide IsDue;
    hide Rows;
    hide NoneTwice;
    hide IdsOf;
  }

  lemma FurtherDiagnosed(from: Db, mid: Db, db: Db, events: seq<Event>, steps: seq<Event>, reports: seq<Report>,
                         some: seq<Report>, now: real)
    requires Diagnosed(from, mid, events, reports, now) && Diagnosed(mid, db, steps, some, now)
    ensures Diagnosed(from, db, events + steps, reports + some, now)
  {
    hide *;
    DiagnosedMeans(from, mid, events, reports, now);
    DiagnosedMeans(mid, db, steps, some, now);
    GoesOn(from, events, steps);
    DiagnosesAll(events, steps, reports, some, now);
    DiagnosedIf(from, db, events + steps, reports + some, now);
  }

  lemma DiagnosesAll(events: seq<Event>, steps: seq<Event>, reports: seq<Report>, some: seq<Report>, now: real)
    requires Diagnoses(events, reports, now) && Diagnoses(steps, some, now)
    ensures Diagnoses(events + steps, reports + some, now)
  {
  }

  lemma DiagnosedIf(from: Db, db: Db, events: seq<Event>, reports: seq<Report>, now: real)
    requires Diagnoses(events, reports, now) && LegalFrom(from, events) && db == RunFrom(from, events)
    ensures Diagnosed(from, db, events, reports, now)
  {
  }

  lemma DiagnosedMeans(from: Db, db: Db, events: seq<Event>, reports: seq<Report>, now: real)
    requires Diagnosed(from, db, events, reports, now)
    ensures Diagnoses(events, reports, now) && LegalFrom(from, events) && db == RunFrom(from, events)
  {
  }

  lemma RowIsThere(table: Table, listed: seq<Schedule>, n: nat)
    requires Rows(table, listed) && n < |listed|
    ensures listed[n].scheduleId in table
  {
  }

  lemma DueMeans(table: Table, now: real)
    ensures forall id :: id in table ==>
      (IsDue(table[id], now) <==>
       table[id].enabled && (table[id].nextRunAt.None? || table[id].nextRunAt.value <= now))
  {
  }

  lemma NoSteps(db: Db)
    ensures LegalFrom(db, []) && RunFrom(db, []) == db
  {
  }

  lemma AllMatch(table: Table)
    ensures Matching(table, None) == table.Keys
  {
  }
}
