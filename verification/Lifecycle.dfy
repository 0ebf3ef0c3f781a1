// One diagnosis, acknowledgement or resolution as a step on the tables, and what every step keeps.
module Lifecycle {
  import opened Results
  import opened Monitoring
  import opened Tables

  // ---------- The steps ----------

  predicate FiringAt(alerts: Alerts, id: Id, ruleId: string, service: Option<string>) {
    id in alerts && FiringRow(alerts[id], ruleId, service)
  }

  predicate ActiveAt(incidents: Incidents, id: Id, service: Option<string>) {
    id in incidents && ActiveRow(incidents[id], service)
  }

  // Some row, if there is one: at most one exists in every reachable state (OneFiring, OneActive).
  ghost function FindFiring(alerts: Alerts, ruleId: string, service: Option<string>): (found: Option<Id>)
    ensures found.Some? ==> FiringAt(alerts, found.value, ruleId, service)
    ensures found.None? ==> forall id :: !FiringAt(alerts, id, ruleId, service)
  {
    if exists id :: FiringAt(alerts, id, ruleId, service) then
      var id :| FiringAt(alerts, id, ruleId, service);
      Some(id)
    else None
  }

  ghost function FindActive(incidents: Incidents, service: Option<string>): (found: Option<Id>)
    ensures found.Some? ==> ActiveAt(incidents, found.value, service)
    ensures found.None? ==> forall id :: !ActiveAt(incidents, id, service)
  {
    if exists id :: ActiveAt(incidents, id, service) then
      var id :| ActiveAt(incidents, id, service);
      Some(id)
    else None
  }

  function Refreshed(a: Alert, report: Report, now: real, regression: bool): Alert {
    a.(diagnosisId := report.diagnosisId, updatedAt := now, regression := a.regression || regression)
  }

  datatype Raised = Raised(db: Db, alert: Alert)
  datatype Attached = Attached(db: Db, incident: Incident)
  datatype Outcome = Outcome(db: Db, alerts: seq<Alert>, incidents: seq<Incident>)

  ghost function Raise(db: Db, rule: AlertRule, report: Report, now: real, regression: bool): Raised {
    match FindFiring(db.alerts, rule.ruleId, report.serviceId)
    case Some(id) =>
      var a := Refreshed(db.alerts[id].payload, report, now, regression);
      Raised(db.(alerts := SaveAlert(db.alerts, a)), a)
    case None =>
      var a := BuildAlert(db.next, rule, report, now, regression);
      Raised(db.(alerts := SaveAlert(db.alerts, a), next := db.next + 1), a)
  }

  function Opened(id: Id, alert: Alert, report: Report, now: real): Incident {
    Incident(id, alert.serviceId, report.target, Open, alert.severity, report.verdict, [alert.alertId],
             now, now, None)
  }

  function Joined(i: Incident, alert: Alert, report: Report, now: real): Incident {
    i.(alertIds := if alert.alertId in i.alertIds then i.alertIds else i.alertIds + [alert.alertId],
       severity := MaxSeverity([i.severity, alert.severity]),
       summary := report.verdict,
       updatedAt := now)
  }

  ghost function Attach(db: Db, alert: Alert, report: Report, now: real): Attached {
    match FindActive(db.incidents, alert.serviceId)
    case Some(id) =>
      var i := Joined(db.incidents[id].payload, alert, report, now);
      Attached(db.(incidents := SaveIncident(db.incidents, i)), i)
    case None =>
      var i := Opened(db.next, alert, report, now);
      Attached(db.(incidents := SaveIncident(db.incidents, i), next := db.next + 1), i)
  }

  ghost function Fire(db: Db, rule: AlertRule, report: Report, now: real, regression: bool): Db {
    var raised := Raise(db, rule, report, now, regression);
    Attach(raised.db, raised.alert, report, now).db
  }

  // One rule after the other, as the loop does.
  ghost function FireAll(db: Db, rules: seq<AlertRule>, report: Report, now: real, regression: bool): Outcome {
    if rules == [] then Outcome(db, [], [])
    else
      var before := FireAll(db, rules[..|rules| - 1], report, now, regression);
      var raised := Raise(before.db, rules[|rules| - 1], report, now, regression);
      var attached := Attach(raised.db, raised.alert, report, now);
      Outcome(attached.db, before.alerts + [raised.alert], before.incidents + [attached.incident])
  }

  function ClearedAlert(a: Alert, now: real): Alert {
    a.(state := Cleared, resolvedAt := Some(now), updatedAt := now)
  }

  function ClosedIncident(i: Incident, now: real): Incident {
    i.(state := Resolved, resolvedAt := Some(now), updatedAt := now)
  }

  function ClearAlerts(alerts: Alerts, ids: set<Id>, now: real): Alerts {
    map id | id in alerts ::
      if id in ids then
        var a := ClearedAlert(alerts[id].payload, now);
        alerts[id].(state := a.state, severity := a.severity, updatedAt := a.updatedAt, payload := a)
      else alerts[id]
  }

  function CloseIncidents(incidents: Incidents, ids: set<Id>, now: real): Incidents {
    map id | id in incidents ::
      if id in ids && Active(incidents[id].payload.state) then
        var i := ClosedIncident(incidents[id].payload, now);
        incidents[id].(state := i.state, severity := i.severity, updatedAt := i.updatedAt, payload := i)
      else incidents[id]
  }

  function ResolveService(db: Db, alertIds: seq<Id>, incidentIds: seq<Id>, now: real): Db {
    db.(alerts := ClearAlerts(db.alerts, Elems(alertIds), now),
        incidents := CloseIncidents(db.incidents, Elems(incidentIds), now))
  }

  function Acknowledge(db: Db, id: Id, now: real): Db {
    if id !in db.incidents || db.incidents[id].payload.state == Resolved then db
    else
      var i := db.incidents[id].payload.(state := Acknowledged, updatedAt := now);
      db.(incidents := SaveIncident(db.incidents, i))
  }

  function Resolve(db: Db, id: Id, now: real): Db {
    if id !in db.incidents || db.incidents[id].payload.state == Resolved then db
    else db.(incidents := SaveIncident(db.incidents, ClosedIncident(db.incidents[id].payload, now)))
  }

  // ---------- The invariant ----------

  predicate AlertOk(id: Id, row: AlertRow, next: Id) {
    var a := row.payload;
    && id < next && a.alertId == id
    && row.serviceId == a.serviceId && row.ruleId == a.ruleId && row.state == a.state
    && row.severity == a.severity && row.createdAt == a.createdAt && row.updatedAt == a.updatedAt
    && (a.state == Cleared <==> a.resolvedAt.Some?)
  }

  predicate IncidentOk(id: Id, row: IncidentRow, next: Id) {
    var i := row.payload;
    && id < next && i.incidentId == id
    && row.serviceId == i.serviceId && row.state == i.state
    && row.severity == i.severity && row.openedAt == i.openedAt && row.updatedAt == i.updatedAt
    && (i.state == Resolved <==> i.resolvedAt.Some?)
  }

  // The alerts of an incident are distinct, exist and have its service.
  predicate Members(alerts: Alerts, i: Incident) {
    && Distinct(i.alertIds)
    && forall a :: a in i.alertIds ==> a in alerts && alerts[a].serviceId == i.serviceId
  }

  // The severity of an incident is the greatest of its alerts' severities.
  predicate Aggregate(alerts: Alerts, i: Incident)
    requires Members(alerts, i)
  {
    && (forall a :: a in i.alertIds ==> Rank(alerts[a].severity) <= Rank(i.severity))
    && (exists a :: a in i.alertIds && alerts[a].severity == i.severity)
  }

  predicate Grouped(alerts: Alerts, i: Incident) {
    Members(alerts, i) && Aggregate(alerts, i)
  }

  predicate OneFiring(alerts: Alerts) {
    forall a, b ::
      (a in alerts && b in alerts && alerts[a].state == Firing
       && FiringRow(alerts[b], alerts[a].ruleId, alerts[a].serviceId)) ==> a == b
  }

  predicate OneActive(incidents: Incidents) {
    forall a, b ::
      (a in incidents && b in incidents && Active(incidents[a].state)
       && ActiveRow(incidents[b], incidents[a].serviceId)) ==> a == b
  }

  predicate AlertsOk(alerts: Alerts, next: Id) {
    (forall id :: id in alerts ==> AlertOk(id, alerts[id], next)) && OneFiring(alerts)
  }

  predicate IncidentsOk(incidents: Incidents, next: Id) {
    (forall id :: id in incidents ==> IncidentOk(id, incidents[id], next)) && OneActive(incidents)
  }

  predicate AllGrouped(alerts: Alerts, incidents: Incidents) {
    forall id :: id in incidents ==> Grouped(alerts, incidents[id].payload)
  }

  predicate HasHome(incidents: Incidents, a: Id) {
    exists id :: id in incidents && a in incidents[id].payload.alertIds
  }

  predicate AllHoused(alerts: Alerts, incidents: Incidents) {
    forall a :: a in alerts ==> HasHome(incidents, a)
  }

  predicate Inv(db: Db) {
    && AlertsOk(db.alerts, db.next) && IncidentsOk(db.incidents, db.next)
    && AllGrouped(db.alerts, db.incidents) && AllHoused(db.alerts, db.incidents)
  }

  // ---------- Saving an alert ----------

  predicate SameButState(before: Alerts, after: Alerts) {
    && (forall id :: id in before ==> id in after)
    && forall id :: id in before ==>
      after[id].serviceId == before[id].serviceId && after[id].severity == before[id].severity
  }

  lemma GroupedIsKept(before: Alerts, after: Alerts, incidents: Incidents)
    requires SameButState(before, after) && AllGrouped(before, incidents)
    ensures AllGrouped(after, incidents)
  {
    forall id | id in incidents
      ensures Grouped(after, incidents[id].payload)
    {
      var i := incidents[id].payload;
      assert Grouped(before, i);
      var a :| a in i.alertIds && before[a].severity == i.severity;
      assert after[a].severity == i.severity;
    }
  }

  // What raising an alert leaves: the alert fires for the service and no other row changed.
  ghost predicate WellRaised(db: Db, r: Raised, service: Option<string>) {
    && AlertsOk(r.db.alerts, r.db.next) && SameButState(db.alerts, r.db.alerts)
    && r.db.incidents == db.incidents && r.db.next >= db.next
    && r.db.alerts.Keys == db.alerts.Keys + {r.alert.alertId}
    && r.db.alerts[r.alert.alertId].payload == r.alert
    && r.alert.state == Firing && r.alert.serviceId == service
    && (forall id :: id in db.alerts && id != r.alert.alertId ==> r.db.alerts[id] == db.alerts[id])
    && (r.alert.alertId in db.alerts ==> db.alerts[r.alert.alertId].state == Firing)
  }

  lemma RefreshKeeps(db: Db, id: Id, report: Report, now: real, regression: bool)
    requires AlertsOk(db.alerts, db.next) && id in db.alerts
    requires db.alerts[id].state == Firing && db.alerts[id].serviceId == report.serviceId
    ensures var a := Refreshed(db.alerts[id].payload, report, now, regression);
      WellRaised(db, Raised(db.(alerts := SaveAlert(db.alerts, a)), a), report.serviceId)
  {
    assert AlertOk(id, db.alerts[id], db.next);
  }

  lemma FreshAlert(db: Db)
    requires AlertsOk(db.alerts, db.next)
    ensures db.next !in db.alerts
  {
    assert db.next in db.alerts ==> AlertOk(db.next, db.alerts[db.next], db.next);
  }

  lemma NewKeeps(db: Db, rule: AlertRule, report: Report, now: real, regression: bool)
    requires AlertsOk(db.alerts, db.next)
    requires forall id :: !FiringAt(db.alerts, id, rule.ruleId, report.serviceId)
    ensures var a := BuildAlert(db.next, rule, report, now, regression);
      WellRaised(db, Raised(db.(alerts := SaveAlert(db.alerts, a), next := db.next + 1), a), report.serviceId)
  {
    FreshAlert(db);
    var a := BuildAlert(db.next, rule, report, now, regression);
    var after := SaveAlert(db.alerts, a);
    forall id | id in after
      ensures AlertOk(id, after[id], db.next + 1)
    {
      if id != db.next {
        assert AlertOk(id, db.alerts[id], db.next);
      }
    }
    forall i, j | i in after && j in after && after[i].state == Firing
                  && FiringRow(after[j], after[i].ruleId, after[i].serviceId)
      ensures i == j
    {
      assert !FiringAt(db.alerts, i, rule.ruleId, report.serviceId);
      assert !FiringAt(db.alerts, j, rule.ruleId, report.serviceId);
    }
  }

  lemma RaiseKeeps(db: Db, rule: AlertRule, report: Report, now: real, regression: bool)
    requires AlertsOk(db.alerts, db.next)
    ensures WellRaised(db, Raise(db, rule, report, now, regression), report.serviceId)
  {
    hide FindFiring;
    hide WellRaised;
    hide AlertsOk;
    hide SaveAlert;
    hide Refreshed;
    hide BuildAlert;
    match FindFiring(db.alerts, rule.ruleId, report.serviceId)
    case Some(id) => RefreshKeeps(db, id, report, now, regression);
    case None => NewKeeps(db, rule, report, now, regression);
  }

  // ---------- Attaching it to an incident ----------

  predicate OnlyGrows(before: Incidents, after: Incidents) {
    && (forall id :: id in before ==> id in after)
    && forall id, a :: id in before && a in before[id].payload.alertIds ==> a in after[id].payload.alertIds
  }

  lemma HousedIsKept(alerts: Alerts, before: Incidents, after: Incidents)
    requires OnlyGrows(before, after) && AllHoused(alerts, before)
    ensures AllHoused(alerts, after)
  {
    forall a | a in alerts
      ensures HasHome(after, a)
    {
      assert HasHome(before, a);
      var id :| id in before && a in before[id].payload.alertIds;
      assert id in after && a in after[id].payload.alertIds;
    }
  }

  lemma JoinedIsGrouped(alerts: Alerts, i: Incident, alert: Alert, report: Report, now: real)
    requires Grouped(alerts, i) && alert.alertId in alerts
    requires alerts[alert.alertId].serviceId == i.serviceId && alerts[alert.alertId].severity == alert.severity
    ensures Grouped(alerts, Joined(i, alert, report, now))
    ensures alert.alertId in Joined(i, alert, report, now).alertIds
    ensures forall a :: a in i.alertIds ==> a in Joined(i, alert, report, now).alertIds
    ensures forall a :: a in Joined(i, alert, report, now).alertIds ==> a in i.alertIds || a == alert.alertId
  {
    hide MaxSeverity;
    var j := Joined(i, alert, report, now);
    var severities := [i.severity, alert.severity];
    assert severities[0] in severities && severities[1] in severities;
    assert j.severity in severities;
    var a :| a in i.alertIds && alerts[a].severity == i.severity;
    assert a in j.alertIds && alert.alertId in j.alertIds;
    assert Members(alerts, j);
    var top := if j.severity == i.severity then a else alert.alertId;
    assert top in j.alertIds && alerts[top].severity == j.severity;
  }

  // An active row that gained at most one alert.
  predicate JoinedTo(before: IncidentRow, after: IncidentRow, alert: Alert) {
    && Active(before.state) && after.openedAt == before.openedAt && after.serviceId == before.serviceId
    && forall a :: a in after.payload.alertIds ==> a in before.payload.alertIds || a == alert.alertId
  }

  // The alert sits in an active incident of its service, joined or just opened; no other row changed.
  ghost predicate OneRow(before: Incidents, after: Incidents, id: Id, alert: Alert, now: real) {
    && after.Keys == before.Keys + {id}
    && (forall k :: k in before && k != id ==> after[k] == before[k])
    && after[id].serviceId == alert.serviceId && Active(after[id].state)
    && alert.alertId in after[id].payload.alertIds
    && (if id in before then JoinedTo(before[id], after[id], alert)
        else OpenedAs(before, after[id], alert, now))
  }

  ghost predicate OpenedAs(before: Incidents, row: IncidentRow, alert: Alert, now: real) {
    && row.openedAt == now && row.payload.alertIds == [alert.alertId]
    && forall k :: !ActiveAt(before, k, alert.serviceId)
  }

  ghost predicate WellAttached(db: Db, r: Attached, alert: Alert, now: real) {
    && IncidentsOk(r.db.incidents, r.db.next) && AllGrouped(db.alerts, r.db.incidents)
    && r.db.alerts == db.alerts && r.db.next >= db.next
    && OnlyGrows(db.incidents, r.db.incidents)
    && OneRow(db.incidents, r.db.incidents, r.incident.incidentId, alert, now)
    && r.db.incidents[r.incident.incidentId].payload == r.incident
  }

  predicate Known(alerts: Alerts, alert: Alert) {
    && alert.alertId in alerts
    && alerts[alert.alertId].serviceId == alert.serviceId && alerts[alert.alertId].severity == alert.severity
  }

  lemma OpenedIsGrouped(alerts: Alerts, id: Id, alert: Alert, report: Report, now: real)
    requires Known(alerts, alert)
    ensures Grouped(alerts, Opened(id, alert, report, now))
  {
    var i := Opened(id, alert, report, now);
    assert i.alertIds[0] in i.alertIds;
    assert Members(alerts, i);
  }

  // An update of an active row that keeps its service, state and times.
  lemma UpdateKeeps(incidents: Incidents, next: Id, i: Incident)
    requires IncidentsOk(incidents, next) && i.incidentId in incidents
    requires var was := incidents[i.incidentId].payload;
      && Active(i.state) && Active(was.state) && i.serviceId == was.serviceId
      && i.openedAt == was.openedAt && i.resolvedAt == was.resolvedAt
    ensures IncidentsOk(SaveIncident(incidents, i), next)
  {
    var after := SaveIncident(incidents, i);
    forall k | k in after
      ensures IncidentOk(k, after[k], next)
      ensures after[k].serviceId == incidents[k].serviceId && (Active(after[k].state) == Active(incidents[k].state))
    {
      assert IncidentOk(k, incidents[k], next);
    }
  }

  lemma JoinKeeps(db: Db, id: Id, alert: Alert, report: Report, now: real)
    requires IncidentsOk(db.incidents, db.next) && AllGrouped(db.alerts, db.incidents)
    requires ActiveAt(db.incidents, id, alert.serviceId) && Known(db.alerts, alert)
    ensures var i := Joined(db.incidents[id].payload, alert, report, now);
      WellAttached(db, Attached(db.(incidents := SaveIncident(db.incidents, i)), i), alert, now)
  {
    hide MaxSeverity;
    hide Grouped;
    hide OneActive;
    assert IncidentOk(id, db.incidents[id], db.next);
    assert Grouped(db.alerts, db.incidents[id].payload);
    JoinedIsGrouped(db.alerts, db.incidents[id].payload, alert, report, now);
    var i := Joined(db.incidents[id].payload, alert, report, now);
    UpdateKeeps(db.incidents, db.next, i);
    SaveGroups(db.alerts, db.incidents, i);
    hide IncidentsOk;
    hide AllGrouped;
  }

  lemma FreshIncident(db: Db)
    requires IncidentsOk(db.incidents, db.next)
    ensures db.next !in db.incidents
  {
    assert db.next in db.incidents ==> IncidentOk(db.next, db.incidents[db.next], db.next);
  }

  lemma InsertKeeps(incidents: Incidents, next: Id, i: Incident)
    requires IncidentsOk(incidents, next) && i.incidentId == next && next !in incidents
    requires i.state != Resolved && i.resolvedAt.None?
    requires forall id :: !ActiveAt(incidents, id, i.serviceId)
    ensures IncidentsOk(SaveIncident(incidents, i), next + 1)
  {
    var after := SaveIncident(incidents, i);
    forall k | k in after
      ensures IncidentOk(k, after[k], next + 1)
    {
      if k != next {
        assert IncidentOk(k, incidents[k], next);
      }
    }
    forall a, b | a in after && b in after && Active(after[a].state) && ActiveRow(after[b], after[a].serviceId)
      ensures a == b
    {
      assert !ActiveAt(incidents, a, i.serviceId);
      assert !ActiveAt(incidents, b, i.serviceId);
    }
  }

  lemma SaveGroups(alerts: Alerts, incidents: Incidents, i: Incident)
    requires AllGrouped(alerts, incidents) && Grouped(alerts, i)
    ensures AllGrouped(alerts, SaveIncident(incidents, i))
  {
    hide Grouped;
    var after := SaveIncident(incidents, i);
    forall k | k in after
      ensures Grouped(alerts, after[k].payload)
    {
      assert k in incidents ==> Grouped(alerts, incidents[k].payload);
    }
  }

  lemma InsertRow(incidents: Incidents, i: Incident, alert: Alert, now: real)
    requires i.incidentId !in incidents && forall id :: !ActiveAt(incidents, id, alert.serviceId)
    requires i.serviceId == alert.serviceId && i.alertIds == [alert.alertId]
    requires Active(i.state) && i.openedAt == now
    ensures var after := SaveIncident(incidents, i);
      && OneRow(incidents, after, i.incidentId, alert, now) && OnlyGrows(incidents, after)
      && after[i.incidentId].payload == i
  {
    hide ActiveAt;
  }

  lemma OpenKeeps(db: Db, alert: Alert, report: Report, now: real)
    requires IncidentsOk(db.incidents, db.next) && AllGrouped(db.alerts, db.incidents)
    requires Known(db.alerts, alert) && forall id :: !ActiveAt(db.incidents, id, alert.serviceId)
    ensures var i := Opened(db.next, alert, report, now);
      WellAttached(db, Attached(db.(incidents := SaveIncident(db.incidents, i), next := db.next + 1), i), alert, now)
  {
    hide Grouped;
    hide ActiveAt;
    hide IncidentsOk;
    hide AllGrouped;
    hide Known;
    hide SaveIncident;
    hide OneRow;
    hide OnlyGrows;
    FreshIncident(db);
    OpenedIsGrouped(db.alerts, db.next, alert, report, now);
    var i := Opened(db.next, alert, report, now);
    InsertRow(db.incidents, i, alert, now);
    InsertKeeps(db.incidents, db.next, i);
    SaveGroups(db.alerts, db.incidents, i);
  }

  lemma AttachKeeps(db: Db, alert: Alert, report: Report, now: real)
    requires IncidentsOk(db.incidents, db.next) && AllGrouped(db.alerts, db.incidents)
    requires Known(db.alerts, alert)
    ensures WellAttached(db, Attach(db, alert, report, now), alert, now)
  {
    hide FindActive;
    hide WellAttached;
    hide IncidentsOk;
    hide AllGrouped;
    hide SaveIncident;
    hide Joined;
    hide Opened;
    hide Known;
    match FindActive(db.incidents, alert.serviceId)
    case Some(id) => JoinKeeps(db, id, alert, report, now);
    case None => OpenKeeps(db, alert, report, now);
  }

  // ---------- The steps keep the invariant ----------

  lemma FireKeeps(db: Db, rule: AlertRule, report: Report, now: real, regression: bool)
    requires Inv(db)
    ensures Inv(Fire(db, rule, report, now, regression))
  {
    hide Raise;
    hide Attach;
    hide Grouped;
    var r := Raise(db, rule, report, now, regression);
    RaiseKeeps(db, rule, report, now, regression);
    assert AlertOk(r.alert.alertId, r.db.alerts[r.alert.alertId], r.db.next);
    GroupedIsKept(db.alerts, r.db.alerts, db.incidents);
    NextGrows(db.incidents, db.next, r.db.next);
    AttachKeeps(r.db, r.alert, report, now);
    var t := Attach(r.db, r.alert, report, now);
    AlertNextGrows(r.db.alerts, r.db.next, t.db.next);
    HousedIsKept(db.alerts, db.incidents, t.db.incidents);
    forall a | a in t.db.alerts
      ensures HasHome(t.db.incidents, a)
    {
      if a == r.alert.alertId {
        assert t.incident.incidentId in t.db.incidents;
        assert a in t.db.incidents[t.incident.incidentId].payload.alertIds;
      } else {
        assert a in db.alerts;
      }
    }
  }

  lemma NextGrows(incidents: Incidents, before: Id, after: Id)
    requires IncidentsOk(incidents, before) && before <= after
    ensures IncidentsOk(incidents, after)
  {
    forall id | id in incidents
      ensures IncidentOk(id, incidents[id], after)
    {
      assert IncidentOk(id, incidents[id], before);
    }
  }

  lemma AlertNextGrows(alerts: Alerts, before: Id, after: Id)
    requires AlertsOk(alerts, before) && before <= after
    ensures AlertsOk(alerts, after)
  {
    forall id | id in alerts
      ensures AlertOk(id, alerts[id], after)
    {
      assert AlertOk(id, alerts[id], before);
    }
  }

  lemma FireAllKeeps(db: Db, rules: seq<AlertRule>, report: Report, now: real, regression: bool)
    requires Inv(db)
    ensures Inv(FireAll(db, rules, report, now, regression).db)
  {
    hide Inv;
    hide Raise;
    hide Attach;
    if rules != [] {
      var n := |rules| - 1;
      FireAllKeeps(db, rules[..n], report, now, regression);
      FireKeeps(FireAll(db, rules[..n], report, now, regression).db, rules[n], report, now, regression);
    }
  }

  lemma ClearKeeps(alerts: Alerts, next: Id, ids: set<Id>, now: real)
    requires AlertsOk(alerts, next)
    ensures AlertsOk(ClearAlerts(alerts, ids, now), next)
    ensures SameButState(alerts, ClearAlerts(alerts, ids, now))
  {
    var after := ClearAlerts(alerts, ids, now);
    forall id | id in after
      ensures AlertOk(id, after[id], next)
      ensures after[id].severity == alerts[id].severity
      ensures after[id].ruleId == alerts[id].ruleId && after[id].serviceId == alerts[id].serviceId
      ensures after[id].state == Firing ==> alerts[id].state == Firing
    {
      assert AlertOk(id, alerts[id], next);
    }
  }

  lemma CloseKeeps(incidents: Incidents, next: Id, ids: set<Id>, now: real)
    requires IncidentsOk(incidents, next)
    ensures IncidentsOk(CloseIncidents(incidents, ids, now), next)
    ensures SameMembers(incidents, CloseIncidents(incidents, ids, now))
  {
    var after := CloseIncidents(incidents, ids, now);
    forall id | id in after
      ensures IncidentOk(id, after[id], next)
      ensures after[id].serviceId == incidents[id].serviceId
      ensures Active(after[id].state) ==> Active(incidents[id].state)
    {
      assert IncidentOk(id, incidents[id], next);
    }
  }

  // The same incidents, with the same alerts, service and severity.
  predicate SameMembers(before: Incidents, after: Incidents) {
    && before.Keys == after.Keys
    && forall id :: id in before ==>
      (var i := before[id].payload;
       var j := after[id].payload;
       j.alertIds == i.alertIds && j.serviceId == i.serviceId && j.severity == i.severity)
  }

  lemma SameMembersKeep(alerts: Alerts, before: Incidents, after: Incidents)
    requires SameMembers(before, after)
    requires AllGrouped(alerts, before) && AllHoused(alerts, before)
    ensures AllGrouped(alerts, after) && AllHoused(alerts, after)
  {
    HousedIsKept(alerts, before, after);
    forall id | id in after
      ensures Grouped(alerts, after[id].payload)
    {
      assert Grouped(alerts, before[id].payload);
      var i := before[id].payload;
      var a :| a in i.alertIds && alerts[a].severity == i.severity;
      assert a in after[id].payload.alertIds;
    }
  }

  lemma HousedSameAlerts(before: Alerts, after: Alerts, incidents: Incidents)
    requires AllHoused(before, incidents) && after.Keys == before.Keys
    ensures AllHoused(after, incidents)
  {
    hide HasHome;
    forall a | a in after
      ensures HasHome(incidents, a)
    {
      assert a in before;
    }
  }

  lemma ResolveServiceKeeps(db: Db, alertIds: seq<Id>, incidentIds: seq<Id>, now: real)
    requires Inv(db)
    ensures Inv(ResolveService(db, alertIds, incidentIds, now))
  {
    hide AlertsOk;
    hide IncidentsOk;
    hide AllGrouped;
    hide AllHoused;
    hide SameMembers;
    hide SameButState;
    hide CloseIncidents;
    var alerts := ClearAlerts(db.alerts, Elems(alertIds), now);
    assert alerts.Keys == db.alerts.Keys;
    hide ClearAlerts;
    ClearKeeps(db.alerts, db.next, Elems(alertIds), now);
    CloseKeeps(db.incidents, db.next, Elems(incidentIds), now);
    GroupedIsKept(db.alerts, alerts, db.incidents);
    HousedSameAlerts(db.alerts, alerts, db.incidents);
    SameMembersKeep(alerts, db.incidents, CloseIncidents(db.incidents, Elems(incidentIds), now));
  }

  // Resolving one incident by hand is closing the set that holds it alone.
  lemma ResolveIsClose(db: Db, id: Id, now: real)
    requires IncidentsOk(db.incidents, db.next)
    ensures Resolve(db, id, now) == db.(incidents := CloseIncidents(db.incidents, {id}, now))
  {
    assert id in db.incidents ==> IncidentOk(id, db.incidents[id], db.next);
    var after := CloseIncidents(db.incidents, {id}, now);
    assert Resolve(db, id, now).incidents.Keys == after.Keys;
    forall k | k in after
      ensures Resolve(db, id, now).incidents[k] == after[k]
    {
    }
    assert Resolve(db, id, now).incidents == after;
  }

  lemma ResolveKeeps(db: Db, id: Id, now: real)
    requires Inv(db)
    ensures Inv(Resolve(db, id, now))
  {
    ResolveIsClose(db, id, now);
    hide AlertsOk;
    hide IncidentsOk;
    hide AllGrouped;
    hide AllHoused;
    hide SameMembers;
    hide CloseIncidents;
    hide Resolve;
    CloseKeeps(db.incidents, db.next, {id}, now);
    SameMembersKeep(db.alerts, db.incidents, CloseIncidents(db.incidents, {id}, now));
  }

  lemma SaveKeepsMembers(incidents: Incidents, i: Incident)
    requires i.incidentId in incidents
    requires var j := incidents[i.incidentId].payload;
      i.alertIds == j.alertIds && i.serviceId == j.serviceId && i.severity == j.severity
    ensures SameMembers(incidents, SaveIncident(incidents, i))
  {
  }

  lemma AcknowledgeKeeps(db: Db, id: Id, now: real)
    requires Inv(db)
    ensures Inv(Acknowledge(db, id, now))
  {
    hide OneActive;
    hide AllGrouped;
    hide AllHoused;
    hide AlertsOk;
    hide SameMembers;
    hide SaveIncident;
    if id in db.incidents && db.incidents[id].payload.state != Resolved {
      assert IncidentOk(id, db.incidents[id], db.next);
      var i := db.incidents[id].payload.(state := Acknowledged, updatedAt := now);
      UpdateKeeps(db.incidents, db.next, i);
      SaveKeepsMembers(db.incidents, i);
      hide IncidentsOk;
      SameMembersKeep(db.alerts, db.incidents, SaveIncident(db.incidents, i));
    }
  }
}
