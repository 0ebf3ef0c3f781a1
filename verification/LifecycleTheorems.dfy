// What holds after any run of diagnoses, acknowledgements and resolutions.
module LifecycleTheorems {
  import opened Results
  import opened Monitoring
  import opened Tables
  import opened Lifecycle

  // One public call. The picks of a healthy diagnosis are what its two list queries returned.
  datatype Event =
    | Diagnose(report: Report, rules: seq<AlertRule>, regression: bool, now: real,
               alertPicks: seq<Id>, incidentPicks: seq<Id>)
    | Acknowledging(id: Id, now: real)
    | Resolving(id: Id, now: real)

  ghost function Step(db: Db, e: Event): Db {
    match e
    case Diagnose(report, rules, regression, now, alertPicks, incidentPicks) =>
      if IsHealthy(report) then ResolveService(db, alertPicks, incidentPicks, now)
      else FireAll(db, MatchingRules(rules, report), report, now, regression).db
    case Acknowledging(id, now) => Acknowledge(db, id, now)
    case Resolving(id, now) => Resolve(db, id, now)
  }

  // The picks are answers the queries may give.
  predicate Legal(db: Db, e: Event) {
    e.Diagnose? && IsHealthy(e.report) ==>
      && TopBy(AlertKeys(db.alerts, e.report.serviceId, Some(Firing)), e.alertPicks, LIST_LIMIT)
      && TopBy(IncidentKeys(db.incidents, e.report.serviceId, None), e.incidentPicks, LIST_LIMIT)
  }

  ghost function Run(events: seq<Event>): Db {
    if events == [] then EMPTY
    else Step(Run(events[..|events| - 1]), events[|events| - 1])
  }

  ghost predicate LegalRun(events: seq<Event>) {
    events == []
    || (LegalRun(events[..|events| - 1]) && Legal(Run(events[..|events| - 1]), events[|events| - 1]))
  }

  // ---------- De-duplication, one active incident, stamps, homes, membership, severity ----------

  lemma StepKeeps(db: Db, e: Event)
    requires Inv(db)
    ensures Inv(Step(db, e))
  {
    hide Inv;
    match e
    case Diagnose(report, rules, regression, now, alertPicks, incidentPicks) =>
      if IsHealthy(report) {
        ResolveServiceKeeps(db, alertPicks, incidentPicks, now);
      } else {
        FireAllKeeps(db, MatchingRules(rules, report), report, now, regression);
      }
    case Acknowledging(id, now) => AcknowledgeKeeps(db, id, now);
    case Resolving(id, now) => ResolveKeeps(db, id, now);
  }

  lemma {:induction false} RunKeepsInvariant(events: seq<Event>)
    ensures Inv(Run(events))
  {
    if events == [] {
      assert Inv(EMPTY);
    } else {
      hide Inv;
      hide Step;
      RunKeepsInvariant(events[..|events| - 1]);
      StepKeeps(Run(events[..|events| - 1]), events[|events| - 1]);
    }
  }

  // ---------- The active incident is the newest and its alerts fire ----------

  predicate Newest(incidents: Incidents, k: Id)
    requires k in incidents
  {
    forall j :: j in incidents && j != k && incidents[j].serviceId == incidents[k].serviceId ==>
      incidents[j].openedAt < incidents[k].openedAt
  }

  predicate AllFiring(alerts: Alerts, ids: seq<Id>) {
    forall a :: a in ids ==> a in alerts && alerts[a].state == Firing
  }

  predicate NewestActive(incidents: Incidents) {
    forall k :: k in incidents && Active(incidents[k].state) ==> Newest(incidents, k)
  }

  predicate FiringActive(alerts: Alerts, incidents: Incidents) {
    forall k :: k in incidents && Active(incidents[k].state) ==> AllFiring(alerts, incidents[k].payload.alertIds)
  }

  predicate Tidy(db: Db) {
    NewestActive(db.incidents) && FiringActive(db.alerts, db.incidents)
  }

  ghost predicate Ready(incidents: Incidents, service: Option<string>, now: real) {
    || (exists k :: ActiveAt(incidents, k, service))
    || (forall k :: k in incidents && incidents[k].serviceId == service ==> incidents[k].openedAt < now)
  }

  lemma AttachKeepsNewest(before: Incidents, after: Incidents, id: Id, alert: Alert, now: real)
    requires OneRow(before, after, id, alert, now) && NewestActive(before)
    requires Ready(before, alert.serviceId, now)
    ensures NewestActive(after) && Ready(after, alert.serviceId, now)
  {
    assert ActiveAt(after, id, alert.serviceId);
    forall k | k in after && Active(after[k].state)
      ensures Newest(after, k)
    {
      if k != id || id in before {
        assert Newest(before, k);
      }
      if id !in before {
        assert !ActiveAt(before, k, alert.serviceId);
      }
    }
  }

  lemma AttachKeepsFiring(alerts: Alerts, before: Incidents, after: Incidents, id: Id, alert: Alert, now: real)
    requires OneRow(before, after, id, alert, now) && FiringActive(alerts, before)
    requires alert.alertId in alerts && alerts[alert.alertId].state == Firing
    ensures FiringActive(alerts, after)
  {
    forall k | k in after && Active(after[k].state)
      ensures AllFiring(alerts, after[k].payload.alertIds)
    {
      if k != id || id in before {
        assert AllFiring(alerts, before[k].payload.alertIds);
      }
    }
  }

  lemma RaiseKeepsFiring(db: Db, r: Raised, service: Option<string>)
    requires WellRaised(db, r, service) && FiringActive(db.alerts, db.incidents)
    ensures FiringActive(r.db.alerts, db.incidents)
    ensures Known(r.db.alerts, r.alert) && r.db.alerts[r.alert.alertId].state == Firing
  {
    assert AlertOk(r.alert.alertId, r.db.alerts[r.alert.alertId], r.db.next);
    hide OneFiring;
    forall k | k in db.incidents && Active(db.incidents[k].state)
      ensures AllFiring(r.db.alerts, db.incidents[k].payload.alertIds)
    {
      assert AllFiring(db.alerts, db.incidents[k].payload.alertIds);
    }
  }

  lemma FireKeepsTidy(db: Db, rule: AlertRule, report: Report, now: real, regression: bool)
    requires Inv(db) && Tidy(db) && Ready(db.incidents, report.serviceId, now)
    ensures var after := Fire(db, rule, report, now, regression);
      Tidy(after) && Ready(after.incidents, report.serviceId, now)
  {
    hide Raise;
    hide Attach;
    hide AllGrouped;
    hide OneRow;
    hide NewestActive;
    hide FiringActive;
    hide AllHoused;
    hide Ready;
    hide OnlyGrows;
    hide IncidentsOk;
    hide SameButState;
    var r := Raise(db, rule, report, now, regression);
    RaiseKeeps(db, rule, report, now, regression);
    RaiseKeepsFiring(db, r, report.serviceId);
    hide AlertsOk;
    GroupedIsKept(db.alerts, r.db.alerts, db.incidents);
    NextGrows(db.incidents, db.next, r.db.next);
    AttachKeeps(r.db, r.alert, report, now);
    var t := Attach(r.db, r.alert, report, now);
    AttachKeepsNewest(db.incidents, t.db.incidents, t.incident.incidentId, r.alert, now);
    AttachKeepsFiring(r.db.alerts, db.incidents, t.db.incidents, t.incident.incidentId, r.alert, now);
  }

  lemma FireAllKeepsTidy(db: Db, rules: seq<AlertRule>, report: Report, now: real, regression: bool)
    requires Inv(db) && Tidy(db) && Ready(db.incidents, report.serviceId, now)
    ensures var after := FireAll(db, rules, report, now, regression).db;
      Tidy(after) && Ready(after.incidents, report.serviceId, now)
  {
    hide Inv;
    hide Tidy;
    hide Raise;
    hide Attach;
    hide Ready;
    if rules != [] {
      var n := |rules| - 1;
      FireAllKeepsTidy(db, rules[..n], report, now, regression);
      FireAllKeeps(db, rules[..n], report, now, regression);
      FireKeepsTidy(FireAll(db, rules[..n], report, now, regression).db, rules[n], report, now, regression);
    }
  }

  // ---------- A healthy diagnosis ----------

  // The listing of a service's incidents always holds its active one.
  lemma ActiveIsListed(incidents: Incidents, service: Option<string>, picks: seq<Id>, k: Id)
    requires NewestActive(incidents) && service.Some?
    requires TopBy(IncidentKeys(incidents, service, None), picks, LIST_LIMIT)
    requires ActiveAt(incidents, k, service)
    ensures k in picks
  {
    hide TopBy;
    var keys := IncidentKeys(incidents, service, None);
    assert Newest(incidents, k);
    forall j | j in keys && j != k
      ensures keys[j] < keys[k]
    {
      assert incidents[j].serviceId == incidents[k].serviceId;
    }
    TopByHasGreatest(keys, picks, LIST_LIMIT, k);
  }

  lemma CloseKeepsNewest(incidents: Incidents, ids: set<Id>, now: real, next: Id)
    requires IncidentsOk(incidents, next) && NewestActive(incidents)
    ensures NewestActive(CloseIncidents(incidents, ids, now))
  {
    hide OneActive;
    var after := CloseIncidents(incidents, ids, now);
    forall k | k in after && Active(after[k].state)
      ensures Newest(after, k)
    {
      assert IncidentOk(k, incidents[k], next);
      assert Newest(incidents, k);
    }
  }

  // A healthy report for a service closes its active incident.
  lemma NoActiveLeft(db: Db, service: Option<string>, alertPicks: seq<Id>, incidentPicks: seq<Id>, now: real)
    requires IncidentsOk(db.incidents, db.next) && NewestActive(db.incidents) && service.Some?
    requires TopBy(IncidentKeys(db.incidents, service, None), incidentPicks, LIST_LIMIT)
    ensures forall k :: !ActiveAt(ResolveService(db, alertPicks, incidentPicks, now).incidents, k, service)
  {
    hide TopBy;
    hide OneActive;
    hide NewestActive;
    hide ClearAlerts;
    var after := CloseIncidents(db.incidents, Elems(incidentPicks), now);
    forall k | k in after
      ensures !ActiveAt(after, k, service)
    {
      assert IncidentOk(k, db.incidents[k], db.next);
      if ActiveAt(db.incidents, k, service) {
        ActiveIsListed(db.incidents, service, incidentPicks, k);
      }
    }
  }

  // The alerts of another service's active incident are not touched.
  lemma OthersKeepFiring(db: Db, service: Option<string>, alertPicks: seq<Id>, incidentPicks: seq<Id>, now: real)
    requires IncidentsOk(db.incidents, db.next) && AllGrouped(db.alerts, db.incidents)
    requires FiringActive(db.alerts, db.incidents)
    requires Elems(alertPicks) <= AlertKeys(db.alerts, service, Some(Firing)).Keys && service.Some?
    requires forall k :: !ActiveAt(ResolveService(db, alertPicks, incidentPicks, now).incidents, k, service)
    ensures var after := ResolveService(db, alertPicks, incidentPicks, now);
      FiringActive(after.alerts, after.incidents)
  {
    hide OneActive;
    var after := ResolveService(db, alertPicks, incidentPicks, now);
    forall k | k in after.incidents && Active(after.incidents[k].state)
      ensures AllFiring(after.alerts, after.incidents[k].payload.alertIds)
    {
      assert IncidentOk(k, db.incidents[k], db.next);
      assert AllFiring(db.alerts, db.incidents[k].payload.alertIds);
      assert !ActiveAt(after.incidents, k, service);
      assert after.incidents[k] == db.incidents[k];
      assert Grouped(db.alerts, db.incidents[k].payload);
      forall a | a in db.incidents[k].payload.alertIds
        ensures a in after.alerts && after.alerts[a].state == Firing
      {
        assert db.alerts[a].serviceId != service;
        assert a !in Elems(alertPicks);
      }
    }
  }

  lemma ResolveServiceKeepsTidy(db: Db, service: Option<string>, alertPicks: seq<Id>, incidentPicks: seq<Id>,
                                now: real)
    requires Inv(db) && Tidy(db) && service.Some?
    requires TopBy(AlertKeys(db.alerts, service, Some(Firing)), alertPicks, LIST_LIMIT)
    requires TopBy(IncidentKeys(db.incidents, service, None), incidentPicks, LIST_LIMIT)
    ensures Tidy(ResolveService(db, alertPicks, incidentPicks, now))
  {
    hide TopBy;
    hide NewestActive;
    hide FiringActive;
    hide AlertKeys;
    hide IncidentKeys;
    hide AlertsOk;
    hide IncidentsOk;
    hide AllGrouped;
    hide AllHoused;
    hide ActiveAt;
    hide ClearAlerts;
    hide CloseIncidents;
    NoActiveLeft(db, service, alertPicks, incidentPicks, now);
    CloseKeepsNewest(db.incidents, Elems(incidentPicks), now, db.next);
    TopByIsAll(AlertKeys(db.alerts, service, Some(Firing)), alertPicks, LIST_LIMIT);
    OthersKeepFiring(db, service, alertPicks, incidentPicks, now);
  }

  lemma SaveKeepsTidy(db: Db, i: Incident)
    requires Tidy(db) && i.incidentId in db.incidents
    requires Active(i.state) && Active(db.incidents[i.incidentId].state)
    requires i.alertIds == db.incidents[i.incidentId].payload.alertIds
    ensures Tidy(db.(incidents := SaveIncident(db.incidents, i)))
  {
    var after := SaveIncident(db.incidents, i);
    forall k | k in after && Active(after[k].state)
      ensures Newest(after, k) && AllFiring(db.alerts, after[k].payload.alertIds)
    {
      assert Newest(db.incidents, k);
      assert AllFiring(db.alerts, db.incidents[k].payload.alertIds);
    }
  }

  lemma CloseKeepsFiring(alerts: Alerts, incidents: Incidents, ids: set<Id>, now: real, next: Id)
    requires IncidentsOk(incidents, next) && FiringActive(alerts, incidents)
    ensures FiringActive(alerts, CloseIncidents(incidents, ids, now))
  {
    hide OneActive;
    var after := CloseIncidents(incidents, ids, now);
    forall k | k in after && Active(after[k].state)
      ensures AllFiring(alerts, after[k].payload.alertIds)
    {
      assert IncidentOk(k, incidents[k], next);
      assert AllFiring(alerts, incidents[k].payload.alertIds);
    }
  }

  lemma ByHandKeepsTidy(db: Db, id: Id, now: real)
    requires Inv(db) && Tidy(db)
    ensures Tidy(Acknowledge(db, id, now)) && Tidy(Resolve(db, id, now))
  {
    hide OneActive;
    hide OneFiring;
    hide AllGrouped;
    hide AllHoused;
    hide Tidy;
    ResolveIsClose(db, id, now);
    hide Resolve;
    hide SaveIncident;
    if id in db.incidents && db.incidents[id].payload.state != Resolved {
      assert IncidentOk(id, db.incidents[id], db.next);
      SaveKeepsTidy(db, db.incidents[id].payload.(state := Acknowledged, updatedAt := now));
    }
    CloseOneKeepsTidy(db, id, now);
  }

  lemma CloseOneKeepsTidy(db: Db, id: Id, now: real)
    requires Inv(db) && Tidy(db)
    ensures Tidy(db.(incidents := CloseIncidents(db.incidents, {id}, now)))
  {
    CloseKeepsNewest(db.incidents, {id}, now, db.next);
    CloseKeepsFiring(db.alerts, db.incidents, {id}, now, db.next);
    hide *;
  }

  // ---------- Runs with increasing diagnosis times ----------

  predicate SameService(a: Event, b: Event) {
    a.Diagnose? && b.Diagnose? && a.report.serviceId == b.report.serviceId
  }

  // Diagnoses of one service happen at strictly increasing times, and a healthy one names its service.
  predicate Timely(events: seq<Event>) {
    && (forall i, j :: 0 <= i < j < |events| && SameService(events[i], events[j]) ==> events[i].now < events[j].now)
    && (forall i :: 0 <= i < |events| && events[i].Diagnose? && IsHealthy(events[i].report) ==>
          events[i].report.serviceId.Some?)
  }

  // The incident was opened by one of these diagnoses.
  predicate StampedBy(row: IncidentRow, events: seq<Event>) {
    exists i :: 0 <= i < |events| && events[i].Diagnose? && events[i].report.serviceId == row.serviceId
      && events[i].now == row.openedAt
  }

  predicate Stamped(incidents: Incidents, events: seq<Event>) {
    forall k :: k in incidents ==> StampedBy(incidents[k], events)
  }

  // Rows appear only as incidents opened now for the service; columns service and openedAt never change.
  predicate Stable(before: Incidents, after: Incidents, service: Option<string>, now: real) {
    && (forall k :: k in before ==>
          k in after && after[k].serviceId == before[k].serviceId && after[k].openedAt == before[k].openedAt)
    && (forall k :: k in after && k !in before ==> after[k].serviceId == service && after[k].openedAt == now)
  }

  lemma FireAllIsStable(db: Db, rules: seq<AlertRule>, report: Report, now: real, regression: bool)
    requires Inv(db)
    ensures Stable(db.incidents, FireAll(db, rules, report, now, regression).db.incidents, report.serviceId, now)
  {
    if rules != [] {
      var n := |rules| - 1;
      FireAllIsStable(db, rules[..n], report, now, regression);
      FireAllKeeps(db, rules[..n], report, now, regression);
      var mid := FireAll(db, rules[..n], report, now, regression).db;
      hide Stable;
      FireIsStable(mid, rules[n], report, now, regression);
      StableComposes(db.incidents, mid.incidents, Fire(mid, rules[n], report, now, regression).incidents,
                     report.serviceId, now);
    }
  }

  lemma StableComposes(a: Incidents, b: Incidents, c: Incidents, service: Option<string>, now: real)
    requires Stable(a, b, service, now) && Stable(b, c, service, now)
    ensures Stable(a, c, service, now)
  {
  }

  lemma FireIsStable(db: Db, rule: AlertRule, report: Report, now: real, regression: bool)
    requires Inv(db)
    ensures Stable(db.incidents, Fire(db, rule, report, now, regression).incidents, report.serviceId, now)
  {
    hide Raise;
    hide Attach;
    hide AllGrouped;
    hide AllHoused;
    hide OnlyGrows;
    hide IncidentsOk;
    hide SameButState;
    hide FiringActive;
    var r := Raise(db, rule, report, now, regression);
    RaiseKeeps(db, rule, report, now, regression);
    assert AlertOk(r.alert.alertId, r.db.alerts[r.alert.alertId], r.db.next);
    hide AlertsOk;
    GroupedIsKept(db.alerts, r.db.alerts, db.incidents);
    NextGrows(db.incidents, db.next, r.db.next);
    AttachKeeps(r.db, r.alert, report, now);
  }

  lemma StampKept(row: IncidentRow, later: IncidentRow, events: seq<Event>, e: Event)
    requires StampedBy(row, events) && later.serviceId == row.serviceId && later.openedAt == row.openedAt
    ensures StampedBy(later, events + [e])
  {
    var i :| 0 <= i < |events| && events[i].Diagnose? && events[i].report.serviceId == row.serviceId
             && events[i].now == row.openedAt;
    assert (events + [e])[i] == events[i];
  }

  lemma StampNew(row: IncidentRow, events: seq<Event>, e: Event)
    requires e.Diagnose? && e.report.serviceId == row.serviceId && e.now == row.openedAt
    ensures StampedBy(row, events + [e])
  {
    assert (events + [e])[|events|] == e;
  }

  lemma StepIsStamped(db: Db, events: seq<Event>, e: Event)
    requires Inv(db) && Stamped(db.incidents, events)
    ensures Stamped(Step(db, e).incidents, events + [e])
  {
    hide Step;
    hide Inv;
    hide StampedBy;
    StepIsStable(db, e);
    var after := Step(db, e).incidents;
    forall k | k in after
      ensures StampedBy(after[k], events + [e])
    {
      if k in db.incidents {
        StampKept(db.incidents[k], after[k], events, e);
      } else {
        StampNew(after[k], events, e);
      }
    }
  }

  lemma StepIsStable(db: Db, e: Event)
    requires Inv(db)
    ensures e.Diagnose? ==> Stable(db.incidents, Step(db, e).incidents, e.report.serviceId, e.now)
    ensures !e.Diagnose? ==> Step(db, e).incidents.Keys == db.incidents.Keys
    ensures !e.Diagnose? ==> Stable(db.incidents, Step(db, e).incidents, None, 0.0)
  {
    hide Grouped;
    hide AllHoused;
    hide FireAll;
    hide OneActive;
    hide AlertsOk;
    match e
    case Diagnose(report, rules, regression, now, alertPicks, incidentPicks) =>
      if !IsHealthy(report) {
        FireAllIsStable(db, MatchingRules(rules, report), report, now, regression);
      }
    case Acknowledging(id, now) =>
      assert id in db.incidents ==> IncidentOk(id, db.incidents[id], db.next);
    case Resolving(id, now) =>
      assert id in db.incidents ==> IncidentOk(id, db.incidents[id], db.next);
  }

  lemma {:induction false} RunIsStamped(events: seq<Event>)
    ensures Stamped(Run(events).incidents, events)
  {
    hide Step;
    hide Inv;
    hide StampedBy;
    if events != [] {
      var earlier := events[..|events| - 1];
      var e := events[|events| - 1];
      RunIsStamped(earlier);
      RunKeepsInvariant(earlier);
      StepIsStamped(Run(earlier), earlier, e);
      assert earlier + [e] == events;
    }
  }

  // The next diagnosis of a service comes after every incident of it was opened.
  lemma NextIsReady(events: seq<Event>)
    requires events != [] && Timely(events) && events[|events| - 1].Diagnose?
    requires Stamped(Run(events[..|events| - 1]).incidents, events[..|events| - 1])
    ensures Ready(Run(events[..|events| - 1]).incidents, events[|events| - 1].report.serviceId,
                  events[|events| - 1].now)
  {
    var earlier := events[..|events| - 1];
    var e := events[|events| - 1];
    var incidents := Run(earlier).incidents;
    hide Run;
    forall k | k in incidents && incidents[k].serviceId == e.report.serviceId
      ensures incidents[k].openedAt < e.now
    {
      assert StampedBy(incidents[k], earlier);
      var i :| 0 <= i < |earlier| && earlier[i].Diagnose? && earlier[i].report.serviceId == incidents[k].serviceId
               && earlier[i].now == incidents[k].openedAt;
      assert SameService(events[i], e);
    }
  }

  lemma StepKeepsTidy(db: Db, e: Event)
    requires Inv(db) && Tidy(db) && Legal(db, e)
    requires e.Diagnose? ==> Ready(db.incidents, e.report.serviceId, e.now)
    requires e.Diagnose? && IsHealthy(e.report) ==> e.report.serviceId.Some?
    ensures Tidy(Step(db, e))
  {
    hide Inv;
    hide Tidy;
    hide Ready;
    hide TopBy;
    match e
    case Diagnose(report, rules, regression, now, alertPicks, incidentPicks) =>
      if IsHealthy(report) {
        ResolveServiceKeepsTidy(db, report.serviceId, alertPicks, incidentPicks, now);
      } else {
        FireAllKeepsTidy(db, MatchingRules(rules, report), report, now, regression);
      }
    case Acknowledging(id, now) => ByHandKeepsTidy(db, id, now);
    case Resolving(id, now) => ByHandKeepsTidy(db, id, now);
  }

  // In every reachable state the active incident is the newest of its service and all its alerts fire.
  lemma {:induction false} RunIsTidy(events: seq<Event>)
    requires LegalRun(events) && Timely(events)
    ensures Tidy(Run(events))
  {
    hide Step;
    hide Inv;
    hide Ready;
    hide Stamped;
    hide Legal;
    if events == [] {
      assert Tidy(EMPTY);
    } else {
      hide Tidy;
      var earlier := events[..|events| - 1];
      var e := events[|events| - 1];
      RunIsTidy(earlier);
      RunKeepsInvariant(earlier);
      RunIsStamped(earlier);
      if e.Diagnose? {
        NextIsReady(events);
      }
      StepKeepsTidy(Run(earlier), e);
    }
  }

  // ---------- Resolution is final ----------

  // No row disappears, and a cleared alert or a resolved incident does not change.
  predicate FinalAlerts(before: Alerts, after: Alerts) {
    && (forall a :: a in before ==> a in after)
    && (forall a :: a in before && before[a].state == Cleared ==> after[a] == before[a])
  }

  predicate FinalIncidents(before: Incidents, after: Incidents) {
    && (forall k :: k in before ==> k in after)
    && (forall k :: k in before && before[k].state == Resolved ==> after[k] == before[k])
  }

  predicate Final(before: Db, after: Db) {
    FinalAlerts(before.alerts, after.alerts) && FinalIncidents(before.incidents, after.incidents)
  }

  lemma FinalComposes(a: Db, b: Db, c: Db)
    requires Final(a, b) && Final(b, c)
    ensures Final(a, c)
  {
  }

  lemma FireIsFinal(db: Db, rule: AlertRule, report: Report, now: real, regression: bool)
    requires Inv(db)
    ensures Final(db, Fire(db, rule, report, now, regression))
  {
    hide Raise;
    hide Attach;
    hide AllGrouped;
    hide AllHoused;
    hide OnlyGrows;
    hide IncidentsOk;
    hide SameButState;
    var r := Raise(db, rule, report, now, regression);
    RaiseKeeps(db, rule, report, now, regression);
    assert AlertOk(r.alert.alertId, r.db.alerts[r.alert.alertId], r.db.next);
    hide AlertsOk;
    GroupedIsKept(db.alerts, r.db.alerts, db.incidents);
    NextGrows(db.incidents, db.next, r.db.next);
    AttachKeeps(r.db, r.alert, report, now);
  }

  lemma FireAllIsFinal(db: Db, rules: seq<AlertRule>, report: Report, now: real, regression: bool)
    requires Inv(db)
    ensures Final(db, FireAll(db, rules, report, now, regression).db)
  {
    if rules != [] {
      var n := |rules| - 1;
      FireAllIsFinal(db, rules[..n], report, now, regression);
      FireAllKeeps(db, rules[..n], report, now, regression);
      var mid := FireAll(db, rules[..n], report, now, regression).db;
      hide Final;
      FireIsFinal(mid, rules[n], report, now, regression);
      FinalComposes(db, mid, Fire(mid, rules[n], report, now, regression));
    }
  }

  lemma ClearIsFinal(alerts: Alerts, service: Option<string>, picks: seq<Id>, now: real)
    requires TopBy(AlertKeys(alerts, service, Some(Firing)), picks, LIST_LIMIT)
    ensures FinalAlerts(alerts, ClearAlerts(alerts, Elems(picks), now))
  {
    TopByIsAll(AlertKeys(alerts, service, Some(Firing)), picks, LIST_LIMIT);
    hide TopBy;
  }

  lemma CloseIsFinal(incidents: Incidents, ids: set<Id>, now: real, next: Id)
    requires IncidentsOk(incidents, next)
    ensures FinalIncidents(incidents, CloseIncidents(incidents, ids, now))
  {
    hide OneActive;
    var after := CloseIncidents(incidents, ids, now);
    forall k | k in incidents && incidents[k].state == Resolved
      ensures after[k] == incidents[k]
    {
      assert IncidentOk(k, incidents[k], next);
    }
  }

  lemma ResolveServiceIsFinal(db: Db, service: Option<string>, alertPicks: seq<Id>, incidentPicks: seq<Id>,
                              now: real)
    requires Inv(db)
    requires TopBy(AlertKeys(db.alerts, service, Some(Firing)), alertPicks, LIST_LIMIT)
    ensures Final(db, ResolveService(db, alertPicks, incidentPicks, now))
  {
    hide TopBy;
    hide AllGrouped;
    hide AllHoused;
    hide AlertsOk;
    hide IncidentsOk;
    hide FinalAlerts;
    hide FinalIncidents;
    ClearIsFinal(db.alerts, service, alertPicks, now);
    CloseIsFinal(db.incidents, Elems(incidentPicks), now, db.next);
  }

  lemma StepIsFinal(db: Db, e: Event)
    requires Inv(db) && Legal(db, e)
    ensures Final(db, Step(db, e))
  {
    hide TopBy;
    hide AllGrouped;
    hide AllHoused;
    hide OneActive;
    hide AlertsOk;
    hide FireAll;
    hide ResolveService;
    match e
    case Diagnose(report, rules, regression, now, alertPicks, incidentPicks) =>
      if IsHealthy(report) {
        ResolveServiceIsFinal(db, report.serviceId, alertPicks, incidentPicks, now);
      } else {
        FireAllIsFinal(db, MatchingRules(rules, report), report, now, regression);
      }
    case Acknowledging(id, now) =>
      assert id in db.incidents ==> IncidentOk(id, db.incidents[id], db.next);
    case Resolving(id, now) =>
      assert id in db.incidents ==> IncidentOk(id, db.incidents[id], db.next);
  }

  // Resolution is absorbing over every run, whatever follows, and nothing is ever deleted.
  lemma {:induction false} ResolvedIsFinal(events: seq<Event>, n: nat)
    requires LegalRun(events) && n <= |events|
    ensures Final(Run(events[..n]), Run(events))
  {
    hide Step;
    hide Inv;
    hide Legal;
    if n == |events| {
      assert events[..n] == events;
    } else {
      hide Final;
      var earlier := events[..|events| - 1];
      ResolvedIsFinal(earlier, n);
      assert earlier[..n] == events[..n];
      RunKeepsInvariant(earlier);
      StepIsFinal(Run(earlier), events[|events| - 1]);
      FinalComposes(Run(events[..n]), Run(earlier), Run(events));
    }
  }

  // ---------- Queries answer for the payloads ----------

  // What the two listings mean, read off the stored alerts and incidents.
  function AlertMeaning(alerts: Alerts, service: Option<string>, state: Option<AlertState>): map<Id, real> {
    map id | id in alerts && (service.Some? ==> alerts[id].payload.serviceId == service)
             && (state.Some? ==> alerts[id].payload.state == state.value) :: alerts[id].payload.createdAt
  }

  function IncidentMeaning(incidents: Incidents, service: Option<string>, state: Option<IncidentState>)
    : map<Id, real>
  {
    map id | id in incidents && (service.Some? ==> incidents[id].payload.serviceId == service)
             && (state.Some? ==> incidents[id].payload.state == state.value) :: incidents[id].payload.openedAt
  }

  lemma AlertColumns(alerts: Alerts, next: Id, service: Option<string>, state: Option<AlertState>)
    requires forall id :: id in alerts ==> AlertOk(id, alerts[id], next)
    ensures AlertKeys(alerts, service, state) == AlertMeaning(alerts, service, state)
  {
  }

  lemma IncidentColumns(incidents: Incidents, next: Id, service: Option<string>, state: Option<IncidentState>)
    requires forall id :: id in incidents ==> IncidentOk(id, incidents[id], next)
    ensures IncidentKeys(incidents, service, state) == IncidentMeaning(incidents, service, state)
  {
  }

  lemma SavedAlertRow(alerts: Alerts, a: Alert)
    requires a.alertId in alerts
    ensures a.alertId in SaveAlert(alerts, a)
    ensures var row := SaveAlert(alerts, a)[a.alertId];
      row.payload == a && row.serviceId == alerts[a.alertId].serviceId && row.createdAt == alerts[a.alertId].createdAt
  {
  }

  lemma SaveAlertAgrees(alerts: Alerts, a: Alert, next: Id, service: Option<string>, state: Option<AlertState>)
    requires forall id :: id in alerts ==> AlertOk(id, alerts[id], next)
    requires a.alertId in alerts ==>
      alerts[a.alertId].serviceId == a.serviceId && alerts[a.alertId].createdAt == a.createdAt
    ensures var after := SaveAlert(alerts, a);
      AlertKeys(after, service, state) == AlertMeaning(after, service, state)
  {
    var after := SaveAlert(alerts, a);
    assert AlertKeys(after, service, state).Keys == AlertMeaning(after, service, state).Keys;
  }

  // An upsert leaves some columns of a row as they were. The listings go on answering for the payloads exactly if
  // a row that was there before keeps its service and its time.
  lemma SaveAlertAgreesExactlyIf(alerts: Alerts, a: Alert, next: Id)
    requires forall id :: id in alerts ==> AlertOk(id, alerts[id], next)
    ensures var after := SaveAlert(alerts, a);
      (forall service: Option<string>, state: Option<AlertState> ::
         AlertKeys(after, service, state) == AlertMeaning(after, service, state))
      <==> (a.alertId in alerts ==>
              alerts[a.alertId].payload.serviceId == a.serviceId && alerts[a.alertId].payload.createdAt == a.createdAt)
  {
    var after := SaveAlert(alerts, a);
    hide SaveAlert;
    if a.alertId in alerts
      ==> alerts[a.alertId].serviceId == a.serviceId && alerts[a.alertId].createdAt == a.createdAt {
      forall service, state
        ensures AlertKeys(after, service, state) == AlertMeaning(after, service, state)
      {
        SaveAlertAgrees(alerts, a, next, service, state);
      }
    }
    if a.alertId in alerts {
      var was := alerts[a.alertId].payload;
      assert AlertOk(a.alertId, alerts[a.alertId], next);
      SavedAlertRow(alerts, a);
      if was.serviceId != a.serviceId {
        var service := if was.serviceId.Some? then was.serviceId else a.serviceId;
        assert a.alertId in AlertKeys(after, service, None) <==> a.alertId !in AlertMeaning(after, service, None);
      } else if was.createdAt != a.createdAt {
        assert AlertKeys(after, None, None)[a.alertId] != AlertMeaning(after, None, None)[a.alertId];
      }
    }
  }

  lemma SavedIncidentRow(incidents: Incidents, i: Incident)
    requires i.incidentId in incidents
    ensures i.incidentId in SaveIncident(incidents, i)
    ensures var row := SaveIncident(incidents, i)[i.incidentId];
      && row.payload == i
      && row.serviceId == incidents[i.incidentId].serviceId && row.openedAt == incidents[i.incidentId].openedAt
  {
  }

  lemma SaveIncidentAgrees(incidents: Incidents, i: Incident, next: Id, service: Option<string>,
                           state: Option<IncidentState>)
    requires forall id :: id in incidents ==> IncidentOk(id, incidents[id], next)
    requires i.incidentId in incidents ==>
      incidents[i.incidentId].serviceId == i.serviceId && incidents[i.incidentId].openedAt == i.openedAt
    ensures var after := SaveIncident(incidents, i);
      IncidentKeys(after, service, state) == IncidentMeaning(after, service, state)
  {
    var after := SaveIncident(incidents, i);
    assert IncidentKeys(after, service, state).Keys == IncidentMeaning(after, service, state).Keys;
  }

  lemma SaveIncidentAgreesExactlyIf(incidents: Incidents, i: Incident, next: Id)
    requires forall id :: id in incidents ==> IncidentOk(id, incidents[id], next)
    ensures var after := SaveIncident(incidents, i);
      (forall service: Option<string>, state: Option<IncidentState> ::
         IncidentKeys(after, service, state) == IncidentMeaning(after, service, state))
      <==> (i.incidentId in incidents ==>
              incidents[i.incidentId].payload.serviceId == i.serviceId
              && incidents[i.incidentId].payload.openedAt == i.openedAt)
  {
    var after := SaveIncident(incidents, i);
    hide SaveIncident;
    if i.incidentId in incidents
      ==> incidents[i.incidentId].serviceId == i.serviceId && incidents[i.incidentId].openedAt == i.openedAt {
      forall service, state
        ensures IncidentKeys(after, service, state) == IncidentMeaning(after, service, state)
      {
        SaveIncidentAgrees(incidents, i, next, service, state);
      }
    }
    if i.incidentId in incidents {
      var was := incidents[i.incidentId].payload;
      assert IncidentOk(i.incidentId, incidents[i.incidentId], next);
      SavedIncidentRow(incidents, i);
      if was.serviceId != i.serviceId {
        var service := if was.serviceId.Some? then was.serviceId else i.serviceId;
        assert i.incidentId in IncidentKeys(after, service, None)
          <==> i.incidentId !in IncidentMeaning(after, service, None);
      } else if was.openedAt != i.openedAt {
        assert IncidentKeys(after, None, None)[i.incidentId] != IncidentMeaning(after, None, None)[i.incidentId];
      }
    }
  }

  // Although an upsert refreshes only some columns, filtering and sorting on the columns is filtering and
  // sorting on the payloads.
  lemma QueriesReadPayloads(events: seq<Event>, service: Option<string>, alertState: Option<AlertState>,
                            incidentState: Option<IncidentState>)
    ensures var db := Run(events);
      && AlertKeys(db.alerts, service, alertState) == AlertMeaning(db.alerts, service, alertState)
      && IncidentKeys(db.incidents, service, incidentState) == IncidentMeaning(db.incidents, service, incidentState)
  {
    hide AlertKeys;
    hide IncidentKeys;
    hide AlertMeaning;
    hide IncidentMeaning;
    hide Run;
    hide AlertOk;
    hide IncidentOk;
    hide AllGrouped;
    hide AllHoused;
    hide OneFiring;
    hide OneActive;
    RunKeepsInvariant(events);
    AlertColumns(Run(events).alerts, Run(events).next, service, alertState);
    IncidentColumns(Run(events).incidents, Run(events).next, service, incidentState);
  }

  // The alert the firing query returns is the only one for the rule and service, and likewise the active
  // incident; none is returned exactly when there is none.
  lemma FindsTheOnlyOne(events: seq<Event>, ruleId: string, service: Option<string>)
    ensures var db := Run(events);
      && (forall id: Id :: FiringAt(db.alerts, id, ruleId, service) <==>
                             FindFiring(db.alerts, ruleId, service) == Some(id))
      && (forall id: Id :: ActiveAt(db.incidents, id, service) <==> FindActive(db.incidents, service) == Some(id))
  {
    RunKeepsInvariant(events);
    FindUnique(Run(events), ruleId, service);
    hide *;
  }

  lemma FindUnique(db: Db, ruleId: string, service: Option<string>)
    requires Inv(db)
    ensures forall id: Id :: FiringAt(db.alerts, id, ruleId, service) <==>
                               FindFiring(db.alerts, ruleId, service) == Some(id)
    ensures forall id: Id :: ActiveAt(db.incidents, id, service) <==> FindActive(db.incidents, service) == Some(id)
  {
    hide AllGrouped;
    hide AllHoused;
    hide AlertOk;
    hide IncidentOk;
  }
}
