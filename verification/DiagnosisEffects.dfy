// What one diagnosis writes down, and what it leaves alone.
module DiagnosisEffects {
  import opened Results
  import opened Monitoring
  import opened Tables
  import opened Lifecycle
  import opened LifecycleTheorems

  // ---------- An unhealthy diagnosis is recorded under every matching rule ----------

  // A firing alert of the rule for the service shows the diagnosis.
  predicate Shows(row: AlertRow, rule: AlertRule, report: Report, now: real, regression: bool) {
    var a := row.payload;
    && FiringRow(row, rule.ruleId, report.serviceId)
    && a.diagnosisId == report.diagnosisId && a.updatedAt == now && (regression ==> a.regression)
  }

  // An active incident of the service shows the verdict and holds the alert.
  predicate Holds(row: IncidentRow, a: Id, report: Report, now: real) {
    var i := row.payload;
    ActiveRow(row, report.serviceId) && a in i.alertIds && i.summary == report.verdict && i.updatedAt == now
  }

  predicate RecordedAt(db: Db, a: Id, k: Id, rule: AlertRule, report: Report, now: real, regression: bool) {
    && a in db.alerts && Shows(db.alerts[a], rule, report, now, regression)
    && k in db.incidents && Holds(db.incidents[k], a, report, now)
  }

  ghost predicate Recorded(db: Db, rule: AlertRule, report: Report, now: real, regression: bool) {
    exists a, k :: RecordedAt(db, a, k, rule, report, now, regression)
  }

  lemma RaiseShows(db: Db, rule: AlertRule, report: Report, now: real, regression: bool)
    requires AlertsOk(db.alerts, db.next)
    ensures var r := Raise(db, rule, report, now, regression);
      r.alert.alertId in r.db.alerts && Shows(r.db.alerts[r.alert.alertId], rule, report, now, regression)
    ensures var r := Raise(db, rule, report, now, regression);
      forall a :: a in db.alerts && !FiringRow(db.alerts[a], rule.ruleId, report.serviceId) ==>
        a in r.db.alerts && r.db.alerts[a] == db.alerts[a]
  {
    hide FindFiring;
    hide OneFiring;
    FreshAlert(db);
    match FindFiring(db.alerts, rule.ruleId, report.serviceId)
    case Some(id) => assert AlertOk(id, db.alerts[id], db.next);
    case None =>
  }

  // An alert that fires already is refreshed, keeping its row, severity and time; a row is added only without one,
  // with the severity of the rule and what the report says.
  lemma RaiseDeduplicates(db: Db, rule: AlertRule, report: Report, now: real, regression: bool)
    requires AlertsOk(db.alerts, db.next)
    ensures var r := Raise(db, rule, report, now, regression);
      && (r.db.alerts.Keys == db.alerts.Keys <==>
            exists id: Id :: FiringAt(db.alerts, id, rule.ruleId, report.serviceId))
      && (forall id: Id :: FiringAt(db.alerts, id, rule.ruleId, report.serviceId) ==>
            r.alert.alertId == id && r.alert.severity == db.alerts[id].severity
            && r.alert.createdAt == db.alerts[id].createdAt)
      && ((forall id: Id :: !FiringAt(db.alerts, id, rule.ruleId, report.serviceId)) ==>
            r.alert.severity == rule.severity && r.alert.createdAt == now && r.alert.target == report.target
            && r.alert.localization == report.localization && r.alert.status == report.status
            && r.alert.confidence == report.confidence)
  {
    hide FindFiring;
    FreshAlert(db);
    match FindFiring(db.alerts, rule.ruleId, report.serviceId)
    case Some(id) =>
      assert AlertOk(id, db.alerts[id], db.next);
      hide AlertOk;
    case None => hide OneFiring;
  }

  lemma AttachHolds(db: Db, alert: Alert, report: Report, now: real)
    requires IncidentsOk(db.incidents, db.next) && alert.serviceId == report.serviceId
    ensures var r := Attach(db, alert, report, now);
      && r.incident.incidentId in r.db.incidents
      && Holds(r.db.incidents[r.incident.incidentId], alert.alertId, report, now)
    ensures var r := Attach(db, alert, report, now);
      forall k :: k in db.incidents && !ActiveRow(db.incidents[k], report.serviceId) ==>
        k in r.db.incidents && r.db.incidents[k] == db.incidents[k]
  {
    hide FindActive;
    hide OneActive;
    hide MaxSeverity;
    FreshIncident(db);
    match FindActive(db.incidents, alert.serviceId)
    case Some(id) => assert IncidentOk(id, db.incidents[id], db.next);
    case None =>
  }

  // The state between raising the alert and attaching it.
  lemma MiddleOfFire(db: Db, rule: AlertRule, report: Report, now: real, regression: bool)
    requires Inv(db)
    ensures var r := Raise(db, rule, report, now, regression);
      && WellRaised(db, r, report.serviceId) && IncidentsOk(r.db.incidents, r.db.next)
      && WellAttached(r.db, Attach(r.db, r.alert, report, now), r.alert, now)
  {
    hide Raise;
    hide Attach;
    hide AllGrouped;
    hide AllHoused;
    hide WellAttached;
    hide OneFiring;
    hide IncidentsOk;
    RaiseKeeps(db, rule, report, now, regression);
    var r := Raise(db, rule, report, now, regression);
    assert AlertOk(r.alert.alertId, r.db.alerts[r.alert.alertId], r.db.next);
    GroupedIsKept(db.alerts, r.db.alerts, db.incidents);
    NextGrows(db.incidents, db.next, r.db.next);
    AttachKeeps(r.db, r.alert, report, now);
  }

  lemma FireRecords(db: Db, rule: AlertRule, report: Report, now: real, regression: bool)
    requires Inv(db)
    ensures Recorded(Fire(db, rule, report, now, regression), rule, report, now, regression)
  {
    hide Raise;
    hide Attach;
    hide AllGrouped;
    hide AllHoused;
    hide AlertsOk;
    hide IncidentsOk;
    hide Shows;
    hide Holds;
    hide OneRow;
    hide OnlyGrows;
    var r := Raise(db, rule, report, now, regression);
    RaiseShows(db, rule, report, now, regression);
    MiddleOfFire(db, rule, report, now, regression);
    AttachHolds(r.db, r.alert, report, now);
    var t := Attach(r.db, r.alert, report, now);
    assert RecordedAt(t.db, r.alert.alertId, t.incident.incidentId, rule, report, now, regression);
  }

  // The alert still shows the diagnosis after another rule of the same diagnosis is raised.
  lemma StillShown(db: Db, a: Id, rule: AlertRule, other: AlertRule, report: Report, now: real, regression: bool)
    requires AlertsOk(db.alerts, db.next)
    requires a in db.alerts && Shows(db.alerts[a], rule, report, now, regression)
    ensures var r := Raise(db, other, report, now, regression);
      a in r.db.alerts && Shows(r.db.alerts[a], rule, report, now, regression)
  {
    hide FindFiring;
    RaiseShows(db, other, report, now, regression);
    assert AlertOk(a, db.alerts[a], db.next);
    if FiringRow(db.alerts[a], other.ruleId, report.serviceId) {
      assert FiringAt(db.alerts, a, other.ruleId, report.serviceId);
      hide AlertOk;
      var found := FindFiring(db.alerts, other.ruleId, report.serviceId);
      assert found == Some(a);
    }
  }

  // The active incident of the service holds what it held, and shows the verdict.
  lemma StillHeld(db: Db, k: Id, a: Id, t: Attached, alert: Alert, report: Report, now: real)
    requires OneActive(db.incidents) && alert.serviceId == report.serviceId
    requires k in db.incidents && Holds(db.incidents[k], a, report, now)
    requires OneRow(db.incidents, t.db.incidents, t.incident.incidentId, alert, now)
    requires OnlyGrows(db.incidents, t.db.incidents)
    requires t.incident.incidentId in t.db.incidents
    requires Holds(t.db.incidents[t.incident.incidentId], alert.alertId, report, now)
    ensures k in t.db.incidents && Holds(t.db.incidents[k], a, report, now)
  {
    assert ActiveAt(db.incidents, k, alert.serviceId);
    assert t.incident.incidentId == k;
  }

  lemma RecordedStays(db: Db, rule: AlertRule, other: AlertRule, report: Report, now: real, regression: bool)
    requires Inv(db) && Recorded(db, rule, report, now, regression)
    ensures Recorded(Fire(db, other, report, now, regression), rule, report, now, regression)
  {
    hide Raise;
    hide Attach;
    hide AllGrouped;
    hide AllHoused;
    hide AlertsOk;
    hide Shows;
    hide Holds;
    hide OneRow;
    hide OnlyGrows;
    hide OneActive;
    hide IncidentOk;
    var a, k :| RecordedAt(db, a, k, rule, report, now, regression);
    var r := Raise(db, other, report, now, regression);
    StillShown(db, a, rule, other, report, now, regression);
    MiddleOfFire(db, other, report, now, regression);
    AttachHolds(r.db, r.alert, report, now);
    var t := Attach(r.db, r.alert, report, now);
    StillHeld(r.db, k, a, t, r.alert, report, now);
    assert RecordedAt(t.db, a, k, rule, report, now, regression);
  }

  lemma {:induction false} FireAllRecords(db: Db, rules: seq<AlertRule>, report: Report, now: real,
                                          regression: bool, rule: AlertRule)
    requires Inv(db) && rule in rules
    ensures Recorded(FireAll(db, rules, report, now, regression).db, rule, report, now, regression)
  {
    hide Inv;
    hide Raise;
    hide Attach;
    hide Recorded;
    var n := |rules| - 1;
    assert rules == rules[..n] + [rules[n]];
    var before := FireAll(db, rules[..n], report, now, regression).db;
    FireAllKeeps(db, rules[..n], report, now, regression);
    if rule == rules[n] {
      FireRecords(before, rules[n], report, now, regression);
    } else {
      FireAllRecords(db, rules[..n], report, now, regression, rule);
      RecordedStays(before, rule, rules[n], report, now, regression);
    }
  }

  // After an unhealthy diagnosis every enabled rule it matches has a firing alert that shows the diagnosis, in
  // the active incident of the service, which shows the verdict.
  lemma UnhealthyIsRecorded(events: seq<Event>, e: Event, rule: AlertRule)
    requires e.Diagnose? && !IsHealthy(e.report) && rule in e.rules && RuleMatches(rule, e.report)
    ensures Recorded(Run(events + [e]), rule, e.report, e.now, e.regression)
  {
    assert (events + [e])[..|events|] == events;
    RunKeepsInvariant(events);
    hide Inv;
    hide Recorded;
    hide FireAll;
    assert Run(events + [e]) == Step(Run(events), e);
    FireAllRecords(Run(events), MatchingRules(e.rules, e.report), e.report, e.now, e.regression, rule);
  }

  // ---------- A diagnosis of one service leaves the others alone ----------

  predicate SameElsewhere(before: Db, after: Db, service: Option<string>) {
    && (forall a :: a in before.alerts && before.alerts[a].serviceId != service ==>
          a in after.alerts && after.alerts[a] == before.alerts[a])
    && (forall k :: k in before.incidents && before.incidents[k].serviceId != service ==>
          k in after.incidents && after.incidents[k] == before.incidents[k])
  }

  lemma FireStaysHome(db: Db, rule: AlertRule, report: Report, now: real, regression: bool)
    requires Inv(db)
    ensures SameElsewhere(db, Fire(db, rule, report, now, regression), report.serviceId)
  {
    hide Raise;
    hide Attach;
    hide AllGrouped;
    hide AllHoused;
    hide AlertOk;
    hide OneFiring;
    hide IncidentsOk;
    hide OneRow;
    hide OnlyGrows;
    hide Shows;
    hide Holds;
    var r := Raise(db, rule, report, now, regression);
    RaiseShows(db, rule, report, now, regression);
    MiddleOfFire(db, rule, report, now, regression);
    AttachHolds(r.db, r.alert, report, now);
  }

  lemma {:induction false} FireAllStaysHome(db: Db, rules: seq<AlertRule>, report: Report, now: real,
                                            regression: bool)
    requires Inv(db)
    ensures SameElsewhere(db, FireAll(db, rules, report, now, regression).db, report.serviceId)
  {
    hide Inv;
    hide Raise;
    hide Attach;
    if rules != [] {
      var n := |rules| - 1;
      var mid := FireAll(db, rules[..n], report, now, regression).db;
      FireAllKeeps(db, rules[..n], report, now, regression);
      FireAllStaysHome(db, rules[..n], report, now, regression);
      FireStaysHome(mid, rules[n], report, now, regression);
      StaysHomeTwice(db, mid, Fire(mid, rules[n], report, now, regression), report.serviceId);
      hide SameElsewhere;
    }
  }

  lemma StaysHomeTwice(a: Db, b: Db, c: Db, service: Option<string>)
    requires SameElsewhere(a, b, service) && SameElsewhere(b, c, service)
    ensures SameElsewhere(a, c, service)
  {
  }

  // The listings of a healthy report hold an alert or an active incident of another service.
  ghost predicate ListsOthers(db: Db, e: Event)
    requires e.Diagnose? && IsHealthy(e.report) && Legal(db, e)
  {
    || (exists a :: a in e.alertPicks && a in db.alerts && db.alerts[a].serviceId != e.report.serviceId)
    || (exists k :: k in e.incidentPicks && k in db.incidents && Active(db.incidents[k].state)
                    && db.incidents[k].serviceId != e.report.serviceId)
  }

  lemma ClearingChanges(alerts: Alerts, service: Option<string>, picks: seq<Id>, now: real)
    requires TopBy(AlertKeys(alerts, service, Some(Firing)), picks, LIST_LIMIT)
    ensures var after := ClearAlerts(alerts, Elems(picks), now);
      forall a :: a in alerts ==> a in after && (after[a] != alerts[a] <==> a in picks)
    ensures service.Some? ==> forall a :: a in alerts && a in picks ==> alerts[a].serviceId == service
  {
    TopByIsAll(AlertKeys(alerts, service, Some(Firing)), picks, LIST_LIMIT);
    hide TopBy;
  }

  lemma ClosingChanges(incidents: Incidents, service: Option<string>, picks: seq<Id>, now: real, next: Id)
    requires IncidentsOk(incidents, next)
    requires TopBy(IncidentKeys(incidents, service, None), picks, LIST_LIMIT)
    ensures var after := CloseIncidents(incidents, Elems(picks), now);
      forall k :: k in incidents ==>
        k in after && (after[k] != incidents[k] <==> k in picks && Active(incidents[k].state))
    ensures service.Some? ==> forall k :: k in incidents && k in picks ==> incidents[k].serviceId == service
  {
    TopByIsAll(IncidentKeys(incidents, service, None), picks, LIST_LIMIT);
    hide TopBy;
    hide OneActive;
    var after := CloseIncidents(incidents, Elems(picks), now);
    forall k | k in incidents
      ensures after[k] != incidents[k] <==> k in picks && Active(incidents[k].state)
    {
      assert IncidentOk(k, incidents[k], next);
    }
  }

  lemma ChangesWhatItLists(db: Db, e: Event)
    requires Inv(db) && e.Diagnose? && IsHealthy(e.report) && Legal(db, e)
    ensures SameElsewhere(db, Step(db, e), e.report.serviceId) <==> !ListsOthers(db, e)
    ensures e.report.serviceId.Some? ==> !ListsOthers(db, e)
  {
    hide TopBy;
    hide AlertKeys;
    hide IncidentKeys;
    hide AlertsOk;
    hide IncidentsOk;
    hide AllGrouped;
    hide AllHoused;
    hide ClearAlerts;
    hide CloseIncidents;
    ClearingChanges(db.alerts, e.report.serviceId, e.alertPicks, e.now);
    ClosingChanges(db.incidents, e.report.serviceId, e.incidentPicks, e.now, db.next);
  }

  // A diagnosis changes no alert and no incident of another service, but for a healthy report without a service,
  // which does exactly when its listings hold one.
  lemma OthersAreUntouched(events: seq<Event>, e: Event)
    requires LegalRun(events + [e]) && e.Diagnose?
    ensures Legal(Run(events), e)
    ensures SameElsewhere(Run(events), Run(events + [e]), e.report.serviceId)
       <==> !(IsHealthy(e.report) && ListsOthers(Run(events), e))
    ensures IsHealthy(e.report) && e.report.serviceId.Some? ==> !ListsOthers(Run(events), e)
  {
    assert (events + [e])[..|events|] == events;
    RunKeepsInvariant(events);
    hide Inv;
    hide TopBy;
    hide FireAll;
    hide ResolveService;
    hide SameElsewhere;
    hide ListsOthers;
    assert Run(events + [e]) == Step(Run(events), e) && Legal(Run(events), e);
    hide Legal;
    if IsHealthy(e.report) {
      ChangesWhatItLists(Run(events), e);
    } else {
      FireAllStaysHome(Run(events), MatchingRules(e.rules, e.report), e.report, e.now, e.regression);
    }
  }
}
