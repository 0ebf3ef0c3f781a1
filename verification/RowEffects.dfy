// What each operation leaves in the tables, row by row and field by field.
module RowEffects {
  import opened Results
  import opened Monitoring
  import opened Tables
  import opened Lifecycle
  import opened LifecycleTheorems

  // ---------- One incident by hand ----------

  // Nothing differs but this incident.
  predicate OnlyIncident(before: Db, after: Db, id: Id) {
    && after.alerts == before.alerts && after.next == before.next && after.incidents.Keys == before.incidents.Keys
    && forall k :: k in before.incidents && k != id ==> after.incidents[k] == before.incidents[k]
  }

  // The incident is there and not resolved.
  predicate Unresolved(db: Db, id: Id) {
    id in db.incidents && db.incidents[id].payload.state != Resolved
  }

  // Column and payload show the new state and time; the rest of the row is as it was.
  predicate Moved(was: IncidentRow, row: IncidentRow, state: IncidentState, now: real, resolvedAt: Option<real>) {
    var p := was.payload;
    row == IncidentRow(was.serviceId, state, was.severity, was.openedAt, now,
      Incident(p.incidentId, p.serviceId, p.target, state, p.severity, p.summary, p.alertIds, p.openedAt, now,
               resolvedAt))
  }

  // In any state of a run.
  predicate Columns(incidents: Incidents, id: Id) {
    id in incidents ==>
      incidents[id].payload.incidentId == id && incidents[id].state == incidents[id].payload.state
      && incidents[id].severity == incidents[id].payload.severity
  }

  lemma ColumnsOf(db: Db, id: Id)
    requires Inv(db)
    ensures Columns(db.incidents, id)
  {
    assert id in db.incidents ==> IncidentOk(id, db.incidents[id], db.next);
    hide AlertsOk;
    hide AllGrouped;
    hide AllHoused;
    hide OneActive;
  }

  lemma RunMore(events: seq<Event>, e: Event)
    ensures Run(events + [e]) == Step(Run(events), e) && Inv(Run(events))
  {
    assert (events + [e])[..|events|] == events;
    RunKeepsInvariant(events);
    hide Step;
    hide Inv;
  }

  lemma AcknowledgeWrites(db: Db, id: Id, now: real)
    requires Columns(db.incidents, id)
    ensures var after := Acknowledge(db, id, now);
      && OnlyIncident(db, after, id)
      && (if Unresolved(db, id) then
            Moved(db.incidents[id], after.incidents[id], Acknowledged, now, db.incidents[id].payload.resolvedAt)
          else after == db)
  {
  }

  lemma ResolveWrites(db: Db, id: Id, now: real)
    requires Columns(db.incidents, id)
    ensures var after := Resolve(db, id, now);
      && OnlyIncident(db, after, id)
      && (if Unresolved(db, id) then Moved(db.incidents[id], after.incidents[id], Resolved, now, Some(now))
          else after == db)
  {
  }

  // After any run, acknowledging an incident that is known and not resolved makes it acknowledged, now, and changes
  // nothing else; an unknown or resolved one stays as it is.
  lemma AcknowledgeEffect(events: seq<Event>, id: Id, now: real)
    ensures var before, after := Run(events), Run(events + [Acknowledging(id, now)]);
      && OnlyIncident(before, after, id)
      && (id in after.incidents && after.incidents[id].state == Acknowledged <==> Unresolved(before, id))
      && (if Unresolved(before, id) then
            Moved(before.incidents[id], after.incidents[id], Acknowledged, now, before.incidents[id].payload.resolvedAt)
          else after == before)
  {
    hide Inv;
    hide Run;
    hide Acknowledge;
    RunMore(events, Acknowledging(id, now));
    ColumnsOf(Run(events), id);
    AcknowledgeWrites(Run(events), id, now);
  }

  // Likewise resolving it.
  lemma ResolveEffect(events: seq<Event>, id: Id, now: real)
    ensures var before, after := Run(events), Run(events + [Resolving(id, now)]);
      && OnlyIncident(before, after, id)
      && (id in after.incidents && after.incidents[id].state == Resolved <==> id in before.incidents)
      && (if Unresolved(before, id) then Moved(before.incidents[id], after.incidents[id], Resolved, now, Some(now))
          else after == before)
  {
    hide Inv;
    hide Run;
    hide Resolve;
    RunMore(events, Resolving(id, now));
    ColumnsOf(Run(events), id);
    ResolveWrites(Run(events), id, now);
  }

  // ---------- A healthy report ----------

  predicate AlertCleared(was: AlertRow, row: AlertRow, now: real) {
    row == was.(state := Cleared, updatedAt := now,
                payload := was.payload.(state := Cleared, updatedAt := now, resolvedAt := Some(now)))
  }

  // After any run, a healthy report clears the firing alerts it lists, and resolves those of the incidents it lists
  // that are open or acknowledged, all of them now; every other row stays as it is.
  lemma HealthyEffect(events: seq<Event>, e: Event)
    requires LegalRun(events + [e]) && e.Diagnose? && e.report.localization == LocHealthy
    ensures var before, after := Run(events), Run(events + [e]);
      && after.next == before.next
      && after.alerts.Keys == before.alerts.Keys && after.incidents.Keys == before.incidents.Keys
      && (forall a :: a in before.alerts ==>
            if a in e.alertPicks then before.alerts[a].state == Firing
              && AlertCleared(before.alerts[a], after.alerts[a], e.now)
            else after.alerts[a] == before.alerts[a])
      && (forall k :: k in before.incidents ==>
            if k in e.incidentPicks && before.incidents[k].state in {Open, Acknowledged} then
              Moved(before.incidents[k], after.incidents[k], Resolved, e.now, Some(e.now))
            else after.incidents[k] == before.incidents[k])
  {
    hide Run;
    hide Step;
    hide Inv;
    hide TopBy;
    LegalLast(events, e);
    RunMore(events, e);
    var db := Run(events);
    HealthyStepIs(db, e);
    hide ResolveService;
    ListedFire(db.alerts, e.report.serviceId, e.alertPicks);
    forall a | a in db.alerts
      ensures a in Run(events + [e]).alerts
      ensures if a in e.alertPicks then db.alerts[a].state == Firing
                && AlertCleared(db.alerts[a], Run(events + [e]).alerts[a], e.now)
              else Run(events + [e]).alerts[a] == db.alerts[a]
    {
      ClearWrites(db, e.alertPicks, e.now, a);
    }
    forall k | k in db.incidents
      ensures k in Run(events + [e]).incidents
      ensures if k in e.incidentPicks && db.incidents[k].state in {Open, Acknowledged} then
                Moved(db.incidents[k], Run(events + [e]).incidents[k], Resolved, e.now, Some(e.now))
              else Run(events + [e]).incidents[k] == db.incidents[k]
    {
      ColumnsOf(db, k);
      CloseWrites(db, e.incidentPicks, e.now, k);
    }
  }

  lemma LegalLast(events: seq<Event>, e: Event)
    requires LegalRun(events + [e])
    ensures Legal(Run(events), e)
  {
    assert (events + [e])[..|events|] == events;
    hide Legal;
    hide Run;
  }

  lemma HealthyStepIs(db: Db, e: Event)
    requires e.Diagnose? && e.report.localization == LocHealthy
    ensures Step(db, e) == Db(ClearAlerts(db.alerts, Elems(e.alertPicks), e.now),
                              CloseIncidents(db.incidents, Elems(e.incidentPicks), e.now), db.next)
    ensures Step(db, e).alerts.Keys == db.alerts.Keys && Step(db, e).incidents.Keys == db.incidents.Keys
  {
    hide FireAll;
  }

  lemma ListedFire(alerts: Alerts, service: Option<string>, picks: seq<Id>)
    requires TopBy(AlertKeys(alerts, service, Some(Firing)), picks, LIST_LIMIT)
    ensures forall a :: a in picks && a in alerts ==> alerts[a].state == Firing
  {
    var keys := AlertKeys(alerts, service, Some(Firing));
    forall a | a in picks && a in alerts
      ensures alerts[a].state == Firing
    {
      assert a in keys;
    }
  }

  lemma ClearWrites(db: Db, picks: seq<Id>, now: real, a: Id)
    requires Inv(db) && a in db.alerts
    ensures var after := ClearAlerts(db.alerts, Elems(picks), now);
      a in after && if a in picks then AlertCleared(db.alerts[a], after[a], now) else after[a] == db.alerts[a]
  {
    assert AlertOk(a, db.alerts[a], db.next);
    hide IncidentsOk;
    hide AllGrouped;
    hide AllHoused;
    hide OneFiring;
  }

  lemma CloseWrites(db: Db, picks: seq<Id>, now: real, k: Id)
    requires k in db.incidents && Columns(db.incidents, k)
    ensures var after := CloseIncidents(db.incidents, Elems(picks), now);
      k in after
      && if k in picks && db.incidents[k].state in {Open, Acknowledged} then
           Moved(db.incidents[k], after[k], Resolved, now, Some(now))
         else after[k] == db.incidents[k]
  {
  }

  // ---------- One incident of a service at a time ----------

  predicate BothUnresolved(i: IncidentRow, j: IncidentRow) {
    i.state != Resolved && j.state != Resolved && i.serviceId == j.serviceId
  }

  predicate BothFiring(a: AlertRow, b: AlertRow) {
    a.state == Firing && b.state == Firing && a.ruleId == b.ruleId && a.serviceId == b.serviceId
  }

  // After any run no two incidents of a service are open or acknowledged, and no two alerts of a rule and service fire.
  lemma OnlyOneEach(events: seq<Event>)
    ensures var db := Run(events);
      && (forall j, k :: j in db.incidents && k in db.incidents && BothUnresolved(db.incidents[j], db.incidents[k])
            ==> j == k)
      && (forall a, b :: a in db.alerts && b in db.alerts && BothFiring(db.alerts[a], db.alerts[b]) ==> a == b)
  {
    RunKeepsInvariant(events);
    var db := Run(events);
    hide Run;
    hide AlertOk;
    hide IncidentOk;
    hide AllGrouped;
    hide AllHoused;
  }

  // ---------- One rule of an unhealthy report ----------

  // The firing alert of the rule and service shows the diagnosis and the time, and a regression from now on if there
  // is one; without such an alert there is a new row. Nothing else changes.
  lemma RaiseEffect(db: Db, rule: AlertRule, report: Report, now: real, regression: bool)
    requires Inv(db)
    ensures var r := Raise(db, rule, report, now, regression);
      && r.db.incidents == db.incidents && OnlyAlertAt(db.alerts, r.db.alerts, r.alert.alertId)
      && (if exists a: Id :: FiringAt(db.alerts, a, rule.ruleId, report.serviceId) then
            AlertRefreshed(db, r, report, now, regression)
          else AlertInserted(db, r, rule, report, now, regression))
  {
    hide *;
    AlertsOf(db);
    var found := RaiseIs(db, rule, report, now, regression);
    if found.Some? {
      RefreshIs(db, found.value, report, now, regression);
    } else {
      InsertIs(db, rule, report, now, regression);
    }
  }

  lemma RaiseIs(db: Db, rule: AlertRule, report: Report, now: real, regression: bool) returns (found: Option<Id>)
    ensures found.Some? ==>
      found.value in db.alerts && FiringAt(db.alerts, found.value, rule.ruleId, report.serviceId)
    ensures found.None? ==> forall a: Id :: !FiringAt(db.alerts, a, rule.ruleId, report.serviceId)
    ensures var a :=
        if found.Some? then Refreshed(db.alerts[found.value].payload, report, now, regression)
        else BuildAlert(db.next, rule, report, now, regression);
      Raise(db, rule, report, now, regression)
        == Raised(db.(alerts := SaveAlert(db.alerts, a), next := if found.Some? then db.next else db.next + 1), a)
  {
    found := FindFiring(db.alerts, rule.ruleId, report.serviceId);
    hide SaveAlert;
    hide BuildAlert;
    hide Refreshed;
  }

  // Every other row is as it was.
  predicate OnlyAlertAt(before: Alerts, after: Alerts, id: Id) {
    id in after && forall a :: a in before && a != id ==> a in after && after[a] == before[a]
  }

  predicate AlertRefreshed(db: Db, r: Raised, report: Report, now: real, regression: bool) {
    var a := r.alert.alertId;
    && r.db.next == db.next && r.db.alerts.Keys == db.alerts.Keys && a in db.alerts
    && r.db.alerts[a] == db.alerts[a].(updatedAt := now, payload := r.alert)
    && r.alert == db.alerts[a].payload.(diagnosisId := report.diagnosisId, updatedAt := now,
                                         regression := db.alerts[a].payload.regression || regression)
  }

  predicate AlertInserted(db: Db, r: Raised, rule: AlertRule, report: Report, now: real, regression: bool) {
    && r.db.next == db.next + 1 && r.db.alerts.Keys == db.alerts.Keys + {db.next}
    && db.next !in db.alerts && r.alert.alertId == db.next
    && r.db.alerts[db.next] == AlertRow(report.serviceId, rule.ruleId, Firing, rule.severity, report.diagnosisId,
                                        now, now, r.alert)
    && r.alert.(message := "") == Alert(db.next, rule.ruleId, report.serviceId, report.target, report.localization,
                                        report.status, report.confidence, rule.severity, report.diagnosisId, "",
                                        regression, Firing, now, now, None)
  }

  lemma AlertsOf(db: Db)
    requires Inv(db)
    ensures db.next !in db.alerts && db.next !in db.incidents
    ensures forall a :: a in db.alerts ==> AlertOk(a, db.alerts[a], db.next)
    ensures forall k :: k in db.incidents ==> IncidentOk(k, db.incidents[k], db.next)
  {
    assert db.next in db.alerts ==> AlertOk(db.next, db.alerts[db.next], db.next);
    assert db.next in db.incidents ==> IncidentOk(db.next, db.incidents[db.next], db.next);
    hide AllGrouped;
    hide AllHoused;
    hide OneFiring;
    hide OneActive;
  }

  lemma RefreshIs(db: Db, id: Id, report: Report, now: real, regression: bool)
    requires id in db.alerts && AlertOk(id, db.alerts[id], db.next)
    ensures var a := Refreshed(db.alerts[id].payload, report, now, regression);
      AlertRefreshed(db, Raised(db.(alerts := SaveAlert(db.alerts, a)), a), report, now, regression)
      && OnlyAlertAt(db.alerts, SaveAlert(db.alerts, a), a.alertId)
  {
  }

  lemma InsertIs(db: Db, rule: AlertRule, report: Report, now: real, regression: bool)
    requires db.next !in db.alerts
    ensures var a := BuildAlert(db.next, rule, report, now, regression);
      AlertInserted(db, Raised(db.(alerts := SaveAlert(db.alerts, a), next := db.next + 1), a), rule, report, now,
                    regression)
      && OnlyAlertAt(db.alerts, SaveAlert(db.alerts, a), a.alertId)
  {
  }

  // The active incident of the alert's service takes it to its end unless it has it, the graver severity, the verdict
  // and the time; without such an incident there is a new one. Nothing else changes.
  lemma AttachEffect(db: Db, alert: Alert, report: Report, now: real)
    requires Inv(db)
    ensures var r := Attach(db, alert, report, now);
      && r.db.alerts == db.alerts && OnlyIncidentAt(db.incidents, r.db.incidents, r.incident.incidentId)
      && (if exists k: Id :: ActiveAt(db.incidents, k, alert.serviceId) then IncidentJoined(db, r, alert, report, now)
          else IncidentOpened(db, r, alert, report, now))
  {
    hide *;
    AlertsOf(db);
    var found := AttachIs(db, alert, report, now);
    if found.Some? {
      JoinIs(db, found.value, alert, report, now);
    } else {
      OpenIs(db, alert, report, now);
    }
  }

  lemma AttachIs(db: Db, alert: Alert, report: Report, now: real) returns (found: Option<Id>)
    ensures found.Some? ==> found.value in db.incidents && ActiveAt(db.incidents, found.value, alert.serviceId)
    ensures found.None? ==> forall k: Id :: !ActiveAt(db.incidents, k, alert.serviceId)
    ensures var i :=
        if found.Some? then Joined(db.incidents[found.value].payload, alert, report, now)
        else Opened(db.next, alert, report, now);
      Attach(db, alert, report, now) == Attached(
        db.(incidents := SaveIncident(db.incidents, i), next := if found.Some? then db.next else db.next + 1), i)
  {
    found := FindActive(db.incidents, alert.serviceId);
    hide SaveIncident;
    hide Joined;
    hide Opened;
  }

  predicate OnlyIncidentAt(before: Incidents, after: Incidents, id: Id) {
    id in after && forall k :: k in before && k != id ==> k in after && after[k] == before[k]
  }

  predicate IncidentJoined(db: Db, r: Attached, alert: Alert, report: Report, now: real) {
    var k, i := r.incident.incidentId, r.incident;
    && r.db.next == db.next && r.db.incidents.Keys == db.incidents.Keys && k in db.incidents
    && var p := db.incidents[k].payload;
      && r.db.incidents[k] == db.incidents[k].(severity := i.severity, updatedAt := now, payload := i)
      && i == p.(alertIds := i.alertIds, severity := i.severity, summary := report.verdict, updatedAt := now)
      && i.alertIds == (if alert.alertId in p.alertIds then p.alertIds else p.alertIds + [alert.alertId])
      && i.severity == (if Graver(alert.severity, p.severity) then alert.severity else p.severity)
  }

  predicate IncidentOpened(db: Db, r: Attached, alert: Alert, report: Report, now: real) {
    && r.db.next == db.next + 1 && r.db.incidents.Keys == db.incidents.Keys + {db.next}
    && db.next !in db.incidents
    && r.incident == Incident(db.next, alert.serviceId, report.target, Open, alert.severity, report.verdict,
                              [alert.alertId], now, now, None)
    && r.db.incidents[db.next] == IncidentRow(alert.serviceId, Open, alert.severity, now, now, r.incident)
  }

  // From INFO, LOW, MEDIUM and HIGH to CRITICAL.
  predicate Graver(a: Severity, b: Severity) {
    match a
    case Info => false
    case Low => b == Info
    case Medium => b == Info || b == Low
    case High => b != High && b != Critical
    case Critical => b != Critical
  }

  lemma JoinIs(db: Db, id: Id, alert: Alert, report: Report, now: real)
    requires id in db.incidents && IncidentOk(id, db.incidents[id], db.next)
    ensures var i := Joined(db.incidents[id].payload, alert, report, now);
      IncidentJoined(db, Attached(db.(incidents := SaveIncident(db.incidents, i)), i), alert, report, now)
      && OnlyIncidentAt(db.incidents, SaveIncident(db.incidents, i), i.incidentId)
  {
    GraverIs(db.incidents[id].payload.severity, alert.severity);
    hide MaxSeverity;
  }

  lemma GraverIs(a: Severity, b: Severity)
    ensures MaxSeverity([a, b]) == if Graver(b, a) then b else a
  {
    assert [a, b][..1] == [a];
  }

  lemma OpenIs(db: Db, alert: Alert, report: Report, now: real)
    requires db.next !in db.incidents
    ensures var i := Opened(db.next, alert, report, now);
      IncidentOpened(db, Attached(db.(incidents := SaveIncident(db.incidents, i), next := db.next + 1), i), alert,
                     report, now)
      && OnlyIncidentAt(db.incidents, SaveIncident(db.incidents, i), i.incidentId)
  {
  }

  // ---------- How long the listings are ----------

  // A healthy report lists the firing alerts of its service, or 100 of them if there are more, and likewise its
  // incidents.
  lemma ListingsAre(events: seq<Event>, e: Event)
    requires LegalRun(events + [e]) && e.Diagnose? && e.report.localization == LocHealthy
    ensures var db := Run(events);
      var alerts := AlertMeaning(db.alerts, e.report.serviceId, Some(Firing));
      var incidents := IncidentMeaning(db.incidents, e.report.serviceId, None);
      && |e.alertPicks| == (if |alerts| <= 100 then |alerts| else 100) && Elems(e.alertPicks) <= alerts.Keys
      && |e.incidentPicks| == (if |incidents| <= 100 then |incidents| else 100)
      && Elems(e.incidentPicks) <= incidents.Keys
  {
    LegalLast(events, e);
    QueriesReadPayloads(events, e.report.serviceId, Some(Firing), None);
    var db := Run(events);
    hide Run;
    var alerts, incidents := AlertMeaning(db.alerts, e.report.serviceId, Some(Firing)),
      IncidentMeaning(db.incidents, e.report.serviceId, None);
    hide AlertMeaning;
    hide IncidentMeaning;
    hide AlertKeys;
    hide IncidentKeys;
    LegalPicks(db, e);
    CountListed(alerts, e.alertPicks, LIST_LIMIT);
    CountListed(incidents, e.incidentPicks, LIST_LIMIT);
    TopByIsAll(alerts, e.alertPicks, LIST_LIMIT);
    TopByIsAll(incidents, e.incidentPicks, LIST_LIMIT);
  }

  lemma LegalPicks(db: Db, e: Event)
    requires Legal(db, e) && e.Diagnose? && e.report.localization == LocHealthy
    ensures TopBy(AlertKeys(db.alerts, e.report.serviceId, Some(Firing)), e.alertPicks, LIST_LIMIT)
    ensures TopBy(IncidentKeys(db.incidents, e.report.serviceId, None), e.incidentPicks, LIST_LIMIT)
  {
    hide TopBy;
  }
}
