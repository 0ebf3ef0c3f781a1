// Runs that reach the states in which a healthy report does less, or more, than clear its own service.
module LifecycleWitnesses {
  import opened Results
  import opened Monitoring
  import opened Tables
  import opened Lifecycle
  import opened LifecycleTheorems
  import opened DiagnosisEffects
  import opened HealthyReports

  // ---------- As many firing alerts as matching rules ----------

  predicate DistinctRules(rules: seq<AlertRule>) {
    forall i, j :: 0 <= i < j < |rules| ==> rules[i].ruleId != rules[j].ruleId
  }

  predicate RaisedBy(row: AlertRow, rules: seq<AlertRule>, service: Option<string>) {
    row.state == Firing && row.serviceId == service && exists i :: 0 <= i < |rules| && row.ruleId == rules[i].ruleId
  }

  predicate AllRaisedBy(alerts: Alerts, rules: seq<AlertRule>, service: Option<string>) {
    forall a :: a in alerts ==> RaisedBy(alerts[a], rules, service)
  }

  lemma RaisedByMore(row: AlertRow, rules: seq<AlertRule>, service: Option<string>)
    requires rules != [] && RaisedBy(row, rules[..|rules| - 1], service)
    ensures RaisedBy(row, rules, service)
  {
    var i :| 0 <= i < |rules| - 1 && row.ruleId == rules[..|rules| - 1][i].ruleId;
    assert row.ruleId == rules[i].ruleId;
  }

  lemma NotRaisedYet(alerts: Alerts, rules: seq<AlertRule>, service: Option<string>, id: Id)
    requires rules != [] && DistinctRules(rules) && AllRaisedBy(alerts, rules[..|rules| - 1], service)
    ensures !FiringAt(alerts, id, rules[|rules| - 1].ruleId, service)
  {
    if id in alerts {
      assert RaisedBy(alerts[id], rules[..|rules| - 1], service);
    }
  }

  // Only the new alert differs, and it is of the last rule.
  lemma StillAllRaised(before: Alerts, after: Alerts, id: Id, rules: seq<AlertRule>, service: Option<string>)
    requires rules != [] && AllRaisedBy(before, rules[..|rules| - 1], service)
    requires after.Keys == before.Keys + {id} && FiringRow(after[id], rules[|rules| - 1].ruleId, service)
    requires forall a :: a in before && a != id ==> after[a] == before[a]
    ensures AllRaisedBy(after, rules, service)
  {
    forall a | a in after
      ensures RaisedBy(after[a], rules, service)
    {
      if a == id {
        assert after[a].ruleId == rules[|rules| - 1].ruleId;
      } else {
        assert RaisedBy(before[a], rules[..|rules| - 1], service);
        hide RaisedBy;
        RaisedByMore(before[a], rules, service);
      }
    }
  }

  // Attaching touches no alert.
  lemma FireAlerts(db: Db, rule: AlertRule, report: Report, now: real, regression: bool)
    ensures Fire(db, rule, report, now, regression).alerts == Raise(db, rule, report, now, regression).db.alerts
  {
    hide Raise;
    hide FindActive;
    hide SaveIncident;
    hide Joined;
    hide Opened;
  }

  lemma NewRow(db: Db, r: Raised, service: Option<string>)
    requires WellRaised(db, r, service) && r.db.alerts.Keys != db.alerts.Keys
    ensures |r.db.alerts| == |db.alerts| + 1
  {
    hide AlertsOk;
    hide SameButState;
    assert r.alert.alertId !in db.alerts;
    assert |r.db.alerts.Keys| == |db.alerts.Keys| + 1;
    assert |r.db.alerts| == |r.db.alerts.Keys| && |db.alerts| == |db.alerts.Keys|;
  }

  lemma RaiseAdds(db: Db, rules: seq<AlertRule>, report: Report, now: real, regression: bool)
    requires AlertsOk(db.alerts, db.next) && rules != [] && DistinctRules(rules)
    requires AllRaisedBy(db.alerts, rules[..|rules| - 1], report.serviceId)
    ensures var after := Fire(db, rules[|rules| - 1], report, now, regression);
      |after.alerts| == |db.alerts| + 1 && AllRaisedBy(after.alerts, rules, report.serviceId)
  {
    var rule := rules[|rules| - 1];
    hide Raise;
    hide Fire;
    hide AlertsOk;
    hide AllRaisedBy;
    hide SameButState;
    hide FiringAt;
    hide DistinctRules;
    FireAlerts(db, rule, report, now, regression);
    RaiseKeeps(db, rule, report, now, regression);
    RaiseDeduplicates(db, rule, report, now, regression);
    RaiseShows(db, rule, report, now, regression);
    var r := Raise(db, rule, report, now, regression);
    forall id: Id
      ensures !FiringAt(db.alerts, id, rule.ruleId, report.serviceId)
    {
      NotRaisedYet(db.alerts, rules, report.serviceId, id);
    }
    NewRow(db, r, report.serviceId);
    StillAllRaised(db.alerts, r.db.alerts, r.alert.alertId, rules, report.serviceId);
  }

  lemma AlertsOkOf(db: Db)
    requires Inv(db)
    ensures AlertsOk(db.alerts, db.next)
  {
  }

  // Rules with different ids leave one firing alert each.
  lemma {:induction false} FiresEach(rules: seq<AlertRule>, report: Report, now: real, regression: bool)
    requires DistinctRules(rules)
    ensures var db := FireAll(EMPTY, rules, report, now, regression).db;
      |db.alerts| == |rules| && AllRaisedBy(db.alerts, rules, report.serviceId)
  {
    hide RaisedBy;
    if rules != [] {
      var n := |rules| - 1;
      RunKeepsInvariant([]);
      FireAllKeeps(EMPTY, rules[..n], report, now, regression);
      FiresEach(rules[..n], report, now, regression);
      hide Inv;
      hide Raise;
      hide Attach;
      hide AllRaisedBy;
      AlertsOkOf(FireAll(EMPTY, rules[..n], report, now, regression).db);
      RaiseAdds(FireAll(EMPTY, rules[..n], report, now, regression).db, rules, report, now, regression);
    }
  }

  // ---------- More alerts than a listing holds ----------

  function Name(n: nat): (s: string)
    ensures |s| == n
  {
    seq(n, _ => 'r')
  }

  // n copies of the default rule under different ids.
  function ManyRules(n: nat): seq<AlertRule> {
    if n == 0 then [] else ManyRules(n - 1) + [DefaultAlertRule(Name(n), None, High)]
  }

  lemma {:induction false} ManyRulesDiffer(n: nat)
    ensures |ManyRules(n)| == n && forall i :: 0 <= i < n ==> |ManyRules(n)[i].ruleId| == i + 1
    ensures DistinctRules(ManyRules(n))
  {
    if n > 0 {
      ManyRulesDiffer(n - 1);
    }
  }

  lemma MatchOneMore(rules: seq<AlertRule>, rule: AlertRule, report: Report)
    requires MatchingRules(rules, report) == rules && RuleMatches(rule, report)
    ensures MatchingRules(rules + [rule], report) == rules + [rule]
  {
    hide RuleMatches;
    assert (rules + [rule])[..|rules|] == rules;
  }

  lemma {:induction false} ManyRulesMatch(n: nat, report: Report)
    requires !IsHealthy(report) && report.confidence >= 0.5
    ensures MatchingRules(ManyRules(n), report) == ManyRules(n)
  {
    hide MatchingRules;
    hide RuleMatches;
    if n > 0 {
      ManyRulesMatch(n - 1, report);
      DefaultRuleFiresExactlyIf(Name(n), None, High, report);
      MatchOneMore(ManyRules(n - 1), DefaultAlertRule(Name(n), None, High), report);
    } else {
      NoRules(report);
    }
  }

  lemma NoRules(report: Report)
    ensures MatchingRules([], report) == []
  {
  }

  // The unhealthy diagnosis of a new store under n such rules.
  function FirstDiagnosis(report: Report, n: nat, now: real): Event {
    Diagnose(report, ManyRules(n), false, now, [], [])
  }

  lemma AfterFirst(report: Report, n: nat, now: real)
    requires !IsHealthy(report) && report.confidence >= 0.5
    ensures var d := FirstDiagnosis(report, n, now);
      LegalRun([d]) && |Run([d]).alerts| == n && AllRaisedBy(Run([d]).alerts, ManyRules(n), report.serviceId)
  {
    hide AllRaisedBy;
    hide Raise;
    hide Attach;
    hide MatchingRules;
    ManyRulesMatch(n, report);
    ManyRulesDiffer(n);
    FiresEach(ManyRules(n), report, now, false);
    hide ManyRules;
    hide FireAll;
    var d := FirstDiagnosis(report, n, now);
    assert [d][..0] == [];
    assert Run([]) == EMPTY && Run([d]) == Step(EMPTY, d);
  }

  lemma AllSelected(alerts: Alerts, rules: seq<AlertRule>, service: Option<string>)
    requires AllRaisedBy(alerts, rules, service)
    ensures |AlertKeys(alerts, service, Some(Firing))| == |alerts|
    ensures |AlertKeys(alerts, None, Some(Firing))| == |alerts|
  {
    assert forall a :: a in alerts ==> RaisedBy(alerts[a], rules, service);
    assert AlertKeys(alerts, service, Some(Firing)).Keys == alerts.Keys;
    assert AlertKeys(alerts, None, Some(Firing)).Keys == alerts.Keys;
    assert |alerts| == |alerts.Keys|;
  }

  // A run that may follow, for any healthy report.
  lemma HealthyFollows(events: seq<Event>, report: Report, now: real) returns (e: Event)
    requires LegalRun(events) && IsHealthy(report)
    ensures Healthy(e) && e.report == report && e.now == now && LegalRun(events + [e])
  {
    hide TopBy;
    hide Run;
    var db := Run(events);
    var alertPicks := TopByExists(AlertKeys(db.alerts, report.serviceId, Some(Firing)), LIST_LIMIT);
    var incidentPicks := TopByExists(IncidentKeys(db.incidents, report.serviceId, None), LIST_LIMIT);
    e := Diagnose(report, [], false, now, alertPicks, incidentPicks);
    assert (events + [e])[..|events|] == events && (events + [e])[|events|] == e;
  }

  // From a new store: one unhealthy diagnosis under n rules and a healthy one, at any times. There is such a run,
  // and in every one an alert is left firing exactly when n is more than LIST_LIMIT.
  lemma ClearingFallsShort(report: Report, healthy: Report, n: nat, now: real, later: real)
    requires !IsHealthy(report) && report.confidence >= 0.5
    requires IsHealthy(healthy) && healthy.serviceId == report.serviceId
    ensures var d := FirstDiagnosis(report, n, now);
      && (exists e :: Healthy(e) && e.report == healthy && e.now == later && LegalRun([d] + [e]))
      && (forall e :: Healthy(e) && e.report == healthy && LegalRun([d] + [e]) ==>
            (NoneFiring(Run([d] + [e]).alerts, healthy.serviceId) <==> n <= LIST_LIMIT))
  {
    hide Run;
    hide LegalRun;
    hide ManyRules;
    hide AllRaisedBy;
    hide AlertKeys;
    hide NoneFiring;
    var d := FirstDiagnosis(report, n, now);
    AfterFirst(report, n, now);
    AllSelected(Run([d]).alerts, ManyRules(n), report.serviceId);
    var e0 := HealthyFollows([d], healthy, later);
    forall e | Healthy(e) && e.report == healthy && LegalRun([d] + [e])
      ensures NoneFiring(Run([d] + [e]).alerts, healthy.serviceId) <==> n <= LIST_LIMIT
    {
      HealthyClears([d], e);
    }
  }

  // ---------- Equal times ----------

  // A diagnosis that exactly one rule matches.
  predicate OneRule(d: Event) {
    d.Diagnose? && !IsHealthy(d.report) && |MatchingRules(d.rules, d.report)| == 1
  }

  ghost function ActiveOf(db: Db, service: Option<string>): Id {
    match FindActive(db.incidents, service)
    case Some(id) => id
    case None => 0
  }

  // n times: the diagnosis, always at the same time, and the resolution of the incident it opened.
  ghost function Reopened(d: Event, n: nat): seq<Event>
    requires d.Diagnose?
  {
    if n == 0 then []
    else
      var more := Reopened(d, n - 1) + [d];
      more + [Resolving(ActiveOf(Run(more), d.report.serviceId), d.now)]
  }

  // All incidents are of the service and were opened at the same time; only its one alert fires.
  ghost predicate SameTime(db: Db, d: Event, n: nat)
    requires OneRule(d)
  {
    && |db.incidents| == n
    && (forall k :: k in db.incidents ==>
          db.incidents[k].serviceId == d.report.serviceId && db.incidents[k].openedAt == d.now)
    && (if n == 0 then db.alerts == map[] else OnlyAlert(db.alerts, d))
  }

  ghost predicate OnlyAlert(alerts: Alerts, d: Event)
    requires OneRule(d)
  {
    exists a: Id :: alerts.Keys == {a} &&
      FiringAt(alerts, a, MatchingRules(d.rules, d.report)[0].ruleId, d.report.serviceId)
  }

  lemma OneStep(db: Db, d: Event)
    requires OneRule(d)
    ensures Step(db, d) == Fire(db, MatchingRules(d.rules, d.report)[0], d.report, d.now, d.regression)
  {
    hide MatchingRules;
    hide Raise;
    hide Attach;
    var rules := MatchingRules(d.rules, d.report);
    assert rules[..0] == [];
    assert FireAll(db, rules[..0], d.report, d.now, d.regression) == Outcome(db, [], []);
  }

  // Without an active incident a diagnosis opens one more, now, and there is still one alert.
  lemma DiagnosisReopens(db: Db, d: Event, n: nat) returns (k: Id)
    requires OneRule(d) && Inv(db) && SameTime(db, d, n)
    requires forall id: Id :: !ActiveAt(db.incidents, id, d.report.serviceId)
    ensures SameTime(Step(db, d), d, n + 1) && ActiveAt(Step(db, d).incidents, k, d.report.serviceId)
    ensures OnlyAlert(Step(db, d).alerts, d)
    ensures forall a: Id :: a in Step(db, d).alerts ==> a in Step(db, d).incidents[k].payload.alertIds
  {
    OneStep(db, d);
    OneAlertStays(db, d, n);
    var rule := MatchingRules(d.rules, d.report)[0];
    FireAlerts(db, rule, d.report, d.now, d.regression);
    hide Step;
    hide OneRule;
    hide MatchingRules;
    hide Raise;
    hide ActiveAt;
    hide OnlyAlert;
    k := FireOpens(db, rule, d, n);
  }

  lemma FireOpens(db: Db, rule: AlertRule, d: Event, n: nat) returns (k: Id)
    requires OneRule(d) && Inv(db) && SameTime(db, d, n)
    requires forall id: Id :: !ActiveAt(db.incidents, id, d.report.serviceId)
    ensures var after := Fire(db, rule, d.report, d.now, d.regression).incidents;
      && |after| == n + 1 && ActiveAt(after, k, d.report.serviceId)
      && (forall j :: j in after ==> after[j].serviceId == d.report.serviceId && after[j].openedAt == d.now)
      && Raise(db, rule, d.report, d.now, d.regression).alert.alertId in after[k].payload.alertIds
  {
    hide Raise;
    hide Attach;
    hide Inv;
    hide SameTime;
    hide OneRow;
    hide AlertsOk;
    hide IncidentsOk;
    hide AllGrouped;
    hide SameButState;
    hide OnlyGrows;
    hide ActiveAt;
    hide MatchingRules;
    MiddleOfFire(db, rule, d.report, d.now, d.regression);
    var r := Raise(db, rule, d.report, d.now, d.regression);
    var t := Attach(r.db, r.alert, d.report, d.now);
    k := t.incident.incidentId;
    OneIncidentMore(db, t.db.incidents, k, r.alert, d, n);
  }

  lemma OneIncidentMore(db: Db, after: Incidents, k: Id, alert: Alert, d: Event, n: nat)
    requires OneRule(d) && SameTime(db, d, n) && alert.serviceId == d.report.serviceId
    requires OneRow(db.incidents, after, k, alert, d.now)
    requires forall id: Id :: !ActiveAt(db.incidents, id, d.report.serviceId)
    ensures |after| == n + 1 && ActiveAt(after, k, d.report.serviceId)
    ensures forall j :: j in after ==> after[j].serviceId == d.report.serviceId && after[j].openedAt == d.now
    ensures alert.alertId in after[k].payload.alertIds
  {
    hide OnlyAlert;
    assert k in db.incidents ==> ActiveAt(db.incidents, k, d.report.serviceId);
    assert |after.Keys| == |db.incidents.Keys| + 1;
    assert |after| == |after.Keys| && |db.incidents| == |db.incidents.Keys|;
  }

  lemma OneAlertStays(db: Db, d: Event, n: nat)
    requires OneRule(d) && Inv(db) && SameTime(db, d, n)
    ensures var r := Raise(db, MatchingRules(d.rules, d.report)[0], d.report, d.now, d.regression);
      OnlyAlert(r.db.alerts, d) && r.db.alerts.Keys == {r.alert.alertId}
  {
    var rule := MatchingRules(d.rules, d.report)[0];
    hide MatchingRules;
    hide Raise;
    hide Inv;
    hide AlertsOk;
    hide SameButState;
    AlertsOkOf(db);
    RaiseDeduplicates(db, rule, d.report, d.now, d.regression);
    RaiseShows(db, rule, d.report, d.now, d.regression);
    RaiseKeeps(db, rule, d.report, d.now, d.regression);
    var r := Raise(db, rule, d.report, d.now, d.regression);
    if n > 0 {
      var a: Id :| db.alerts.Keys == {a} && FiringAt(db.alerts, a, rule.ruleId, d.report.serviceId);
      assert r.alert.alertId == a;
    }
    assert FiringAt(r.db.alerts, r.alert.alertId, rule.ruleId, d.report.serviceId);
  }

  // The resolution leaves no active incident, and the rest as it was.
  lemma ResolutionCloses(db: Db, d: Event, n: nat, k: Id)
    requires OneRule(d) && Inv(db) && SameTime(db, d, n) && ActiveAt(db.incidents, k, d.report.serviceId)
    ensures var after := Resolve(db, k, d.now);
      && SameTime(after, d, n) && forall id: Id :: !ActiveAt(after.incidents, id, d.report.serviceId)
  {
    hide MatchingRules;
    hide OnlyAlert;
    hide AlertsOk;
    hide AllGrouped;
    hide AllHoused;
    ResolveIsClose(db, k, d.now);
    hide Resolve;
    var after := CloseIncidents(db.incidents, {k}, d.now);
    assert after.Keys == db.incidents.Keys;
    assert |after| == |after.Keys| && |db.incidents| == |db.incidents.Keys|;
    assert IncidentOk(k, db.incidents[k], db.next);
    forall id: Id
      ensures !ActiveAt(after, id, d.report.serviceId)
    {
      if id in db.incidents && id != k {
        assert !ActiveAt(db.incidents, id, d.report.serviceId);
      }
    }
  }

  // Such a state without an active incident.
  ghost predicate Quiet(db: Db, d: Event, n: nat)
    requires OneRule(d)
  {
    SameTime(db, d, n) && forall id: Id :: !ActiveAt(db.incidents, id, d.report.serviceId)
  }

  // Such a state with an active incident, which holds the alert.
  ghost predicate Loud(db: Db, d: Event, n: nat, k: Id)
    requires OneRule(d)
  {
    && SameTime(db, d, n) && ActiveAt(db.incidents, k, d.report.serviceId) && OnlyAlert(db.alerts, d)
    && forall a: Id :: a in db.alerts ==> a in db.incidents[k].payload.alertIds
  }

  lemma DiagnosisIsLoud(events: seq<Event>, d: Event, n: nat) returns (k: Id)
    requires OneRule(d) && LegalRun(events) && Quiet(Run(events), d, n)
    ensures LegalRun(events + [d]) && Loud(Run(events + [d]), d, n + 1, k)
  {
    hide Run;
    hide LegalRun;
    hide Step;
    hide Inv;
    hide SameTime;
    hide OnlyAlert;
    hide ActiveAt;
    RunKeepsInvariant(events);
    OneMore(events, d);
    k := DiagnosisReopens(Run(events), d, n);
  }

  lemma ResolutionIsQuiet(events: seq<Event>, d: Event, n: nat, k: Id)
    requires OneRule(d) && LegalRun(events) && Loud(Run(events), d, n, k)
    ensures ActiveOf(Run(events), d.report.serviceId) == k
    ensures LegalRun(events + [Resolving(k, d.now)]) && Quiet(Run(events + [Resolving(k, d.now)]), d, n)
  {
    hide Run;
    hide LegalRun;
    hide Step;
    hide Inv;
    hide SameTime;
    hide OnlyAlert;
    hide ActiveAt;
    RunKeepsInvariant(events);
    FindUnique(Run(events), "", d.report.serviceId);
    OneMore(events, Resolving(k, d.now));
    StepResolves(Run(events), k, d.now);
    ResolutionCloses(Run(events), d, n, k);
  }

  lemma StartIsQuiet(d: Event)
    requires OneRule(d)
    ensures LegalRun([]) && Quiet(Run([]), d, 0)
  {
    hide MatchingRules;
  }

  lemma ReopenedIs(d: Event, n: nat)
    requires d.Diagnose?
    ensures n == 0 ==> Reopened(d, n) == []
    ensures n > 0 ==> var more := Reopened(d, n - 1) + [d];
      Reopened(d, n) == more + [Resolving(ActiveOf(Run(more), d.report.serviceId), d.now)]
  {
    hide Run;
    hide ActiveOf;
  }

  lemma IsDiagnosis(d: Event)
    requires OneRule(d)
    ensures d.Diagnose? && !IsHealthy(d.report) && !Healthy(d)
  {
  }

  lemma {:induction false} ReopenedState(d: Event, n: nat)
    requires OneRule(d)
    ensures LegalRun(Reopened(d, n)) && Quiet(Run(Reopened(d, n)), d, n)
  {
    hide *;
    IsDiagnosis(d);
    ReopenedIs(d, n);
    if n == 0 {
      StartIsQuiet(d);
    } else {
      ReopenedState(d, n - 1);
      var k := DiagnosisIsLoud(Reopened(d, n - 1), d, n - 1);
      ResolutionIsQuiet(Reopened(d, n - 1) + [d], d, n, k);
    }
  }

  lemma StepResolves(db: Db, k: Id, now: real)
    ensures Step(db, Resolving(k, now)) == Resolve(db, k, now)
  {
  }

  lemma OneMore(events: seq<Event>, e: Event)
    requires LegalRun(events) && !Healthy(e)
    ensures LegalRun(events + [e]) && Run(events + [e]) == Step(Run(events), e)
  {
    assert (events + [e])[..|events|] == events;
    hide Step;
  }

  // There are such diagnoses, for any unhealthy report.
  lemma OneRuleExists(report: Report, now: real)
    requires !IsHealthy(report) && report.confidence >= 0.5
    ensures OneRule(FirstDiagnosis(report, 1, now))
  {
    hide MatchingRules;
    ManyRulesMatch(1, report);
    ManyRulesDiffer(1);
  }

  // After 101 diagnoses at one time, each but the last followed by a resolution, some legal answer of the listing
  // makes a healthy report clear the alert and leave its incident active.
  lemma EqualTimesLeaveOneActive(d: Event, healthy: Report, later: real) returns (events: seq<Event>, e: Event, k: Id)
    requires OneRule(d) && IsHealthy(healthy) && healthy.serviceId == d.report.serviceId
    ensures LegalRun(events + [e]) && Healthy(e) && e.report == healthy && e.now == later
    ensures forall i, j :: 0 <= i < j < |events| && SameService(events[i], events[j]) ==> events[i].now == events[j].now
    ensures var after := Run(events + [e]);
      ActiveIn(after.incidents, healthy.serviceId, k) && !AllFiring(after.alerts, after.incidents[k].payload.alertIds)
  {
    hide *;
    IsDiagnosis(d);
    var before := Reopened(d, LIST_LIMIT);
    ReopenedState(d, LIST_LIMIT);
    events := before + [d];
    k := DiagnosisIsLoud(before, d, LIST_LIMIT);
    RunKeepsInvariant(events);
    AllRival(Run(events), d, LIST_LIMIT + 1, k);
    e := LeavesOpen(Run(events), healthy, later, k);
    AnyMore(events, e);
    AlertIsCleared(Run(events), d, LIST_LIMIT + 1, k, e);
    EqualTimes(before, d);
  }

  lemma EqualTimes(before: seq<Event>, d: Event)
    requires d.Diagnose? && before == Reopened(d, LIST_LIMIT)
    ensures var events := before + [d];
      forall i, j :: 0 <= i < j < |events| && SameService(events[i], events[j]) ==> events[i].now == events[j].now
  {
    SameTimesThroughout(d, LIST_LIMIT);
    hide Reopened;
  }

  lemma AnyMore(events: seq<Event>, e: Event)
    requires LegalRun(events) && Legal(Run(events), e)
    ensures LegalRun(events + [e]) && Run(events + [e]) == Step(Run(events), e)
  {
    assert (events + [e])[..|events|] == events;
    hide Step;
    hide Legal;
  }

  lemma AllRival(db: Db, d: Event, n: nat, k: Id)
    requires OneRule(d) && Loud(db, d, n, k)
    ensures ActiveIn(db.incidents, d.report.serviceId, k) && Rivals(db.incidents, d.report.serviceId, k) == n
  {
    hide MatchingRules;
    hide OnlyAlert;
    var keys := IncidentKeys(db.incidents, d.report.serviceId, None);
    assert NoLess(keys, k) == db.incidents.Keys;
    assert |db.incidents| == |db.incidents.Keys|;
  }

  lemma OneFires(alerts: Alerts, d: Event)
    requires OneRule(d) && OnlyAlert(alerts, d)
    ensures |AlertKeys(alerts, d.report.serviceId, Some(Firing))| <= LIST_LIMIT
    ensures exists a: Id :: a in alerts && alerts[a].serviceId == d.report.serviceId
  {
    hide MatchingRules;
    var a: Id :| alerts.Keys == {a} &&
      FiringAt(alerts, a, MatchingRules(d.rules, d.report)[0].ruleId, d.report.serviceId);
    var keys := AlertKeys(alerts, d.report.serviceId, Some(Firing));
    assert keys.Keys == {a};
    assert |keys| == |keys.Keys|;
  }

  lemma AlertIsCleared(db: Db, d: Event, n: nat, k: Id, e: Event)
    requires OneRule(d) && Inv(db) && Loud(db, d, n, k) && Legal(db, e) && Healthy(e)
    requires e.report.serviceId == d.report.serviceId && ActiveIn(Step(db, e).incidents, d.report.serviceId, k)
    ensures !AllFiring(Step(db, e).alerts, Step(db, e).incidents[k].payload.alertIds)
  {
    hide MatchingRules;
    hide Inv;
    hide SameTime;
    hide OneRule;
    hide TopBy;
    hide AlertKeys;
    hide OnlyAlert;
    IsDiagnosis(d);
    OneFires(db.alerts, d);
    var a: Id :| a in db.alerts && db.alerts[a].serviceId == d.report.serviceId;
    ClearsExactlyIf(db.alerts, e.report.serviceId, e.alertPicks, e.now);
    UnlistedIsSame(db, e, k);
    assert a in db.incidents[k].payload.alertIds;
    assert a in Step(db, e).alerts && Step(db, e).alerts[a].serviceId == d.report.serviceId;
  }

  lemma UnlistedIsSame(db: Db, e: Event, k: Id)
    requires Inv(db) && Healthy(e) && k in db.incidents
    requires k in Step(db, e).incidents && Active(Step(db, e).incidents[k].state)
    ensures Step(db, e).incidents[k].payload.alertIds == db.incidents[k].payload.alertIds
  {
    hide Inv;
    hide ClearAlerts;
    StaysExactlyIfUnlisted(db, e, k);
  }

  lemma {:induction false} SameTimesThroughout(d: Event, n: nat)
    requires d.Diagnose?
    ensures forall i :: 0 <= i < |Reopened(d, n)| && Reopened(d, n)[i].Diagnose? ==> Reopened(d, n)[i] == d
  {
    hide Run;
    if n > 0 {
      SameTimesThroughout(d, n - 1);
    }
  }

  // ---------- A healthy report without a service ----------

  // From a new store: an unhealthy diagnosis of a service under 1 to LIST_LIMIT rules, then a healthy report that
  // names none. There is such a run, and every one changes rows of the service it did not name.
  lemma NullServiceReachesOthers(report: Report, healthy: Report, n: nat, now: real, later: real)
    requires !IsHealthy(report) && report.confidence >= 0.5 && report.serviceId.Some?
    requires IsHealthy(healthy) && healthy.serviceId.None? && 0 < n <= LIST_LIMIT
    ensures var d := FirstDiagnosis(report, n, now);
      && (exists e :: Healthy(e) && e.report == healthy && e.now == later && LegalRun([d] + [e]))
      && (forall e :: Healthy(e) && e.report == healthy && LegalRun([d] + [e]) ==>
            !SameElsewhere(Run([d]), Run([d] + [e]), None))
  {
    hide Run;
    hide LegalRun;
    hide ManyRules;
    hide AlertKeys;
    hide ActiveIn;
    var d := FirstDiagnosis(report, n, now);
    AfterFirst(report, n, now);
    AllSelected(Run([d]).alerts, ManyRules(n), report.serviceId);
    var e0 := HealthyFollows([d], healthy, later);
    var before := Run([d]).alerts;
    assert before.Keys != {};
    var a :| a in before;
    assert RaisedBy(before[a], ManyRules(n), report.serviceId);
    hide AllRaisedBy;
    forall e | Healthy(e) && e.report == healthy && LegalRun([d] + [e])
      ensures !SameElsewhere(Run([d]), Run([d] + [e]), None)
    {
      HealthyClears([d], e);
      assert a in Run([d] + [e]).alerts ==> Run([d] + [e]).alerts[a].state != Firing;
    }
  }
}
