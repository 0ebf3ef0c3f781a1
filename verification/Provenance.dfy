// Where the alerts of a run come from: a diagnosis, and a rule that applied to it.
module Provenance {
  import opened Results
  import opened Monitoring
  import opened Tables
  import opened Lifecycle
  import opened LifecycleTheorems
  import opened DiagnosisEffects

  // The rule is on, the diagnosis is not healthy, of the rule's service if it has one, confident enough, and of a
  // kind the rule names, if it names any.
  predicate Applies(rule: AlertRule, report: Report) {
    && rule.enabled
    && report.localization != LocHealthy
    && (rule.serviceId.None? || rule.serviceId == report.serviceId)
    && report.confidence >= rule.minConfidence
    && (rule.fireOn == [] || report.localization in rule.fireOn)
  }

  lemma MatchesExactlyIf(rule: AlertRule, report: Report)
    ensures RuleMatches(rule, report) <==> Applies(rule, report)
  {
  }

  // What never changes of an alert: what the diagnosis that raised it and the rule say.
  predicate RaisedBy(a: Alert, e: Event, rule: AlertRule) {
    && e.Diagnose? && rule in e.rules && Applies(rule, e.report)
    && a.ruleId == rule.ruleId && a.severity == rule.severity
    && a.serviceId == e.report.serviceId && a.target == e.report.target
    && a.localization == e.report.localization && a.status == e.report.status && a.confidence == e.report.confidence
    && a.createdAt == e.now
    && a.message == "[" + rule.name + "] " + e.report.verdict
                    + (if e.regression then " (regression vs baseline)" else "")
  }

  predicate FromOneOf(a: Alert, events: seq<Event>) {
    exists i, rule :: 0 <= i < |events| && rule in RulesOf(events[i]) && RaisedBy(a, events[i], rule)
  }

  function RulesOf(e: Event): seq<AlertRule> {
    if e.Diagnose? then e.rules else []
  }

  predicate AllFrom(alerts: Alerts, events: seq<Event>) {
    forall id :: id in alerts ==> FromOneOf(alerts[id].payload, events)
  }

  // What RaisedBy looks at.
  predicate SameOrigin(a: Alert, b: Alert) {
    && a.ruleId == b.ruleId && a.severity == b.severity && a.serviceId == b.serviceId && a.target == b.target
    && a.localization == b.localization && a.status == b.status && a.confidence == b.confidence
    && a.createdAt == b.createdAt && a.message == b.message
  }

  // Every alert was there before with the same origin, or was raised by the diagnosis.
  predicate NewOrKept(before: Alerts, after: Alerts, e: Event, rules: seq<AlertRule>) {
    forall id :: id in after ==>
      (id in before && SameOrigin(before[id].payload, after[id].payload))
      || exists rule :: rule in rules && RaisedBy(after[id].payload, e, rule)
  }

  lemma BuildIs(id: Id, rule: AlertRule, e: Event)
    requires e.Diagnose? && rule in e.rules && Applies(rule, e.report)
    ensures RaisedBy(BuildAlert(id, rule, e.report, e.now, e.regression), e, rule)
  {
  }

  lemma RaiseOrigin(db: Db, rule: AlertRule, e: Event)
    requires AlertsOk(db.alerts, db.next) && e.Diagnose? && rule in e.rules && Applies(rule, e.report)
    ensures NewOrKept(db.alerts, Raise(db, rule, e.report, e.now, e.regression).db.alerts, e, [rule])
  {
    hide RaisedBy;
    hide OneFiring;
    hide Applies;
    BuildIs(db.next, rule, e);
    hide BuildAlert;
    var found := FindFiring(db.alerts, rule.ruleId, e.report.serviceId);
    var after := Raise(db, rule, e.report, e.now, e.regression).db.alerts;
    if found.Some? {
      assert AlertOk(found.value, db.alerts[found.value], db.next);
    } else {
      assert rule in [rule];
    }
    forall id | id in after
      ensures (id in db.alerts && SameOrigin(db.alerts[id].payload, after[id].payload))
           || exists r :: r in [rule] && RaisedBy(after[id].payload, e, r)
    {
    }
  }

  lemma OriginsCompose(a: Alerts, b: Alerts, c: Alerts, e: Event, rules: seq<AlertRule>, rule: AlertRule)
    requires NewOrKept(a, b, e, rules) && NewOrKept(b, c, e, [rule])
    ensures NewOrKept(a, c, e, rules + [rule])
  {
    forall id | id in c
      ensures (id in a && SameOrigin(a[id].payload, c[id].payload))
           || exists r :: r in rules + [rule] && RaisedBy(c[id].payload, e, r)
    {
      if id in b && SameOrigin(b[id].payload, c[id].payload) {
        if !(id in a && SameOrigin(a[id].payload, b[id].payload)) {
          var r :| r in rules && RaisedBy(b[id].payload, e, r);
          assert RaisedBy(c[id].payload, e, r);
        }
      } else {
        var r :| r in [rule] && RaisedBy(c[id].payload, e, r);
        assert r in rules + [rule];
      }
    }
  }

  lemma {:induction false} FireAllOrigin(db: Db, rules: seq<AlertRule>, e: Event)
    requires Inv(db) && e.Diagnose? && forall rule :: rule in rules ==> rule in e.rules && Applies(rule, e.report)
    ensures NewOrKept(db.alerts, FireAll(db, rules, e.report, e.now, e.regression).db.alerts, e, rules)
  {
    hide Inv;
    hide Raise;
    hide Attach;
    hide NewOrKept;
    hide Applies;
    if rules == [] {
      KeptAsTheyAre(db.alerts, e, rules);
    } else {
      var n := |rules| - 1;
      var before := FireAll(db, rules[..n], e.report, e.now, e.regression).db;
      FireAllOrigin(db, rules[..n], e);
      FireAllKeeps(db, rules[..n], e.report, e.now, e.regression);
      AlertsAreOk(before);
      RaiseOrigin(before, rules[n], e);
      AttachKeepsAlerts(Raise(before, rules[n], e.report, e.now, e.regression), e.report, e.now);
      OriginsCompose(db.alerts, before.alerts, Raise(before, rules[n], e.report, e.now, e.regression).db.alerts, e,
                     rules[..n], rules[n]);
      assert rules[..n] + [rules[n]] == rules;
    }
  }

  lemma KeptAsTheyAre(alerts: Alerts, e: Event, rules: seq<AlertRule>)
    ensures NewOrKept(alerts, alerts, e, rules)
  {
  }

  lemma AlertsAreOk(db: Db)
    requires Inv(db)
    ensures AlertsOk(db.alerts, db.next)
  {
  }

  lemma AttachKeepsAlerts(r: Raised, report: Report, now: real)
    ensures Attach(r.db, r.alert, report, now).db.alerts == r.db.alerts
  {
  }

  lemma StepOrigin(db: Db, e: Event)
    requires Inv(db)
    ensures NewOrKept(db.alerts, Step(db, e).alerts, e, RulesOf(e))
  {
    hide Inv;
    hide FireAll;
    hide NewOrKept;
    hide RuleMatches;
    hide Applies;
    match e {
      case Diagnose(report, rules, regression, now, alertPicks, incidentPicks) =>
        if IsHealthy(report) {
          ClearKeepsOrigin(db.alerts, Elems(alertPicks), now, e);
        } else {
          var matching := MatchingRules(rules, report);
          forall rule | rule in matching
            ensures rule in rules && Applies(rule, report)
          {
            MatchesExactlyIf(rule, report);
          }
          FireAllOrigin(db, matching, e);
          MoreRules(db.alerts, Step(db, e).alerts, e, matching, rules);
        }
      case Acknowledging(id, now) => KeptAsTheyAre(db.alerts, e, RulesOf(e));
      case Resolving(id, now) => KeptAsTheyAre(db.alerts, e, RulesOf(e));
    }
  }

  lemma ClearKeepsOrigin(alerts: Alerts, ids: set<Id>, now: real, e: Event)
    ensures NewOrKept(alerts, ClearAlerts(alerts, ids, now), e, RulesOf(e))
  {
    hide RaisedBy;
  }

  lemma MoreRules(before: Alerts, after: Alerts, e: Event, some: seq<AlertRule>, rules: seq<AlertRule>)
    requires NewOrKept(before, after, e, some) && forall rule :: rule in some ==> rule in rules
    ensures NewOrKept(before, after, e, rules)
  {
    hide RaisedBy;
    hide SameOrigin;
  }

  // Every alert of a run, whatever has become of it, was raised by a diagnosis of the run under a rule that applied
  // to it, and shows what both say.
  lemma {:induction false} AlertsComeFromDiagnoses(events: seq<Event>)
    ensures AllFrom(Run(events).alerts, events)
  {
    hide Step;
    hide Inv;
    if events != [] {
      var n := |events| - 1;
      var e := events[n];
      AlertsComeFromDiagnoses(events[..n]);
      RunKeepsInvariant(events[..n]);
      StepOrigin(Run(events[..n]), e);
      var before, after := Run(events[..n]).alerts, Run(events).alerts;
      hide Run;
      forall id | id in after
        ensures FromOneOf(after[id].payload, events)
      {
        if id in before && SameOrigin(before[id].payload, after[id].payload) {
          StillFrom(before[id].payload, after[id].payload, events);
        } else {
          var rule :| rule in RulesOf(e) && RaisedBy(after[id].payload, e, rule);
          assert RaisedBy(after[id].payload, events[n], rule);
        }
      }
    }
  }

  lemma StillFrom(a: Alert, b: Alert, events: seq<Event>)
    requires events != [] && FromOneOf(a, events[..|events| - 1]) && SameOrigin(a, b)
    ensures FromOneOf(b, events)
  {
    var n := |events| - 1;
    var i, rule :| 0 <= i < n && rule in RulesOf(events[..n][i]) && RaisedBy(a, events[..n][i], rule);
    assert events[..n][i] == events[i];
    assert RaisedBy(b, events[i], rule);
  }

  // And after a diagnosis every rule that applies to it has a firing alert that shows the diagnosis, in an incident
  // of the service that is not resolved and shows the verdict.
  lemma EveryRuleFires(events: seq<Event>, e: Event, rule: AlertRule) returns (a: Id, k: Id)
    requires e.Diagnose? && rule in e.rules && Applies(rule, e.report)
    ensures var db := Run(events + [e]);
      && a in db.alerts && db.alerts[a].state == Firing && db.alerts[a].ruleId == rule.ruleId
      && db.alerts[a].serviceId == e.report.serviceId
      && db.alerts[a].payload.diagnosisId == e.report.diagnosisId && db.alerts[a].payload.updatedAt == e.now
      && k in db.incidents && db.incidents[k].state in {Open, Acknowledged}
      && db.incidents[k].serviceId == e.report.serviceId && a in db.incidents[k].payload.alertIds
      && db.incidents[k].payload.summary == e.report.verdict && db.incidents[k].payload.updatedAt == e.now
  {
    MatchesExactlyIf(rule, e.report);
    UnhealthyIsRecorded(events, e, rule);
    hide Run;
    a, k :| RecordedAt(Run(events + [e]), a, k, rule, e.report, e.now, e.regression);
  }

  // ---------- Incidents ----------

  // What never changes of an incident: what the diagnosis that opened it says.
  predicate OpenedBy(i: Incident, e: Event) {
    && e.Diagnose? && e.report.localization != LocHealthy
    && i.serviceId == e.report.serviceId && i.target == e.report.target && i.openedAt == e.now
  }

  predicate OpenedBySome(i: Incident, events: seq<Event>) {
    exists n :: 0 <= n < |events| && OpenedBy(i, events[n])
  }

  predicate SameOpening(i: Incident, j: Incident) {
    i.serviceId == j.serviceId && i.target == j.target && i.openedAt == j.openedAt
  }

  predicate OpenedOrKept(before: Incidents, after: Incidents, e: Event) {
    forall id :: id in after ==>
      (id in before && SameOpening(before[id].payload, after[id].payload)) || OpenedBy(after[id].payload, e)
  }

  lemma AttachOpens(db: Db, alert: Alert, e: Event)
    requires IncidentsOk(db.incidents, db.next) && e.Diagnose? && e.report.localization != LocHealthy
    requires alert.serviceId == e.report.serviceId
    ensures OpenedOrKept(db.incidents, Attach(db, alert, e.report, e.now).db.incidents, e)
  {
    hide OneActive;
    hide MaxSeverity;
    var found := FindActive(db.incidents, alert.serviceId);
    if found.Some? {
      assert IncidentOk(found.value, db.incidents[found.value], db.next);
    }
  }

  lemma OpeningsCompose(a: Incidents, b: Incidents, c: Incidents, e: Event)
    requires OpenedOrKept(a, b, e) && OpenedOrKept(b, c, e)
    ensures OpenedOrKept(a, c, e)
  {
    forall id | id in c
      ensures (id in a && SameOpening(a[id].payload, c[id].payload)) || OpenedBy(c[id].payload, e)
    {
      assert id in b && SameOpening(b[id].payload, c[id].payload) ==>
          (id in a && SameOpening(a[id].payload, b[id].payload)) || OpenedBy(b[id].payload, e);
    }
  }

  lemma {:induction false} FireAllOpens(db: Db, rules: seq<AlertRule>, e: Event)
    requires Inv(db) && e.Diagnose? && e.report.localization != LocHealthy
    ensures OpenedOrKept(db.incidents, FireAll(db, rules, e.report, e.now, e.regression).db.incidents, e)
  {
    hide Inv;
    hide Raise;
    hide Attach;
    hide OpenedOrKept;
    if rules == [] {
      NoneOpened(db.incidents, e);
    } else {
      var n := |rules| - 1;
      var before := FireAll(db, rules[..n], e.report, e.now, e.regression).db;
      FireAllOpens(db, rules[..n], e);
      FireAllKeeps(db, rules[..n], e.report, e.now, e.regression);
      MiddleOfFire(before, rules[n], e.report, e.now, e.regression);
      var raised := Raise(before, rules[n], e.report, e.now, e.regression);
      AlertsAreOk(before);
      RaiseKeepsIncidents(before, rules[n], e);
      hide AlertsOk;
      hide WellAttached;
      hide IncidentsOk;
      AttachOpens(raised.db, raised.alert, e);
      OpeningsCompose(db.incidents, before.incidents, Attach(raised.db, raised.alert, e.report, e.now).db.incidents, e);
    }
  }

  lemma RaiseKeepsIncidents(db: Db, rule: AlertRule, e: Event)
    requires AlertsOk(db.alerts, db.next) && e.Diagnose?
    ensures var r := Raise(db, rule, e.report, e.now, e.regression);
      r.db.incidents == db.incidents && r.alert.serviceId == e.report.serviceId
  {
    hide OneFiring;
    var found := FindFiring(db.alerts, rule.ruleId, e.report.serviceId);
    if found.Some? {
      assert AlertOk(found.value, db.alerts[found.value], db.next);
    }
  }

  lemma NoneOpened(incidents: Incidents, e: Event)
    ensures OpenedOrKept(incidents, incidents, e)
  {
  }

  lemma StepOpens(db: Db, e: Event)
    requires Inv(db)
    ensures OpenedOrKept(db.incidents, Step(db, e).incidents, e)
  {
    hide Inv;
    hide FireAll;
    hide OpenedOrKept;
    hide Acknowledge;
    hide Resolve;
    hide CloseIncidents;
    match e {
      case Diagnose(report, rules, regression, now, alertPicks, incidentPicks) =>
        if IsHealthy(report) {
          CloseKeepsOpening(db.incidents, Elems(incidentPicks), now, e);
        } else {
          FireAllOpens(db, MatchingRules(rules, report), e);
        }
      case Acknowledging(id, now) => ByHandKeepsOpening(db, id, now, e);
      case Resolving(id, now) => ByHandKeepsOpening(db, id, now, e);
    }
  }

  lemma CloseKeepsOpening(incidents: Incidents, ids: set<Id>, now: real, e: Event)
    ensures OpenedOrKept(incidents, CloseIncidents(incidents, ids, now), e)
  {
  }

  lemma ByHandKeepsOpening(db: Db, id: Id, now: real, e: Event)
    requires Inv(db)
    ensures OpenedOrKept(db.incidents, Acknowledge(db, id, now).incidents, e)
    ensures OpenedOrKept(db.incidents, Resolve(db, id, now).incidents, e)
  {
    hide *;
    IdOfIncident(db, id);
    AcknowledgeKeepsOpening(db, id, now, e);
    ResolveKeepsOpening(db, id, now, e);
  }

  lemma AcknowledgeKeepsOpening(db: Db, id: Id, now: real, e: Event)
    requires id in db.incidents ==> db.incidents[id].payload.incidentId == id
    ensures OpenedOrKept(db.incidents, Acknowledge(db, id, now).incidents, e)
  {
  }

  lemma ResolveKeepsOpening(db: Db, id: Id, now: real, e: Event)
    requires id in db.incidents ==> db.incidents[id].payload.incidentId == id
    ensures OpenedOrKept(db.incidents, Resolve(db, id, now).incidents, e)
  {
  }

  lemma IdOfIncident(db: Db, id: Id)
    requires Inv(db)
    ensures id in db.incidents ==> db.incidents[id].payload.incidentId == id
  {
    assert id in db.incidents ==> IncidentOk(id, db.incidents[id], db.next);
    hide AlertsOk;
    hide AllGrouped;
    hide AllHoused;
    hide OneActive;
  }

  // Every incident of a run was opened by a diagnosis of the run that was not healthy.
  lemma {:induction false} IncidentsComeFromDiagnoses(events: seq<Event>)
    ensures var incidents := Run(events).incidents;
      forall id :: id in incidents ==> OpenedBySome(incidents[id].payload, events)
  {
    hide Step;
    hide Inv;
    if events != [] {
      var n := |events| - 1;
      IncidentsComeFromDiagnoses(events[..n]);
      RunKeepsInvariant(events[..n]);
      StepOpens(Run(events[..n]), events[n]);
      var before, after := Run(events[..n]).incidents, Run(events).incidents;
      hide Run;
      forall id | id in after
        ensures OpenedBySome(after[id].payload, events)
      {
        if id in before && SameOpening(before[id].payload, after[id].payload) {
          var m :| 0 <= m < n && OpenedBy(before[id].payload, events[..n][m]);
          assert OpenedBy(after[id].payload, events[m]);
        } else {
          assert OpenedBy(after[id].payload, events[n]);
        }
      }
    }
  }
}
