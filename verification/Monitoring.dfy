// Alerts, incidents and the rules that raise them.
module Monitoring {
  import opened Results

  datatype Severity = Info | Low | Medium | High | Critical

  datatype DiagnosticStatus = StatusHealthy | StatusDegraded | StatusFailed | StatusUnknown

  datatype FaultLocalization =
    | LocHealthy
    | LocSourceSide
    | LocVantageIsolated
    | LocTargetSide
    | LocPathShared
    | LocInconclusive

  datatype AlertState = Firing | Cleared

  datatype IncidentState = Open | Acknowledged | Resolved

  // Row identifiers; the supply in the store hands out each one once.
  type Id = nat

  // What a diagnosis passes on to the alerting pipeline.
  datatype Report = Report(
    diagnosisId: string,
    serviceId: Option<string>,
    target: string,
    localization: FaultLocalization,
    status: DiagnosticStatus,
    verdict: string,
    confidence: real
  )

  datatype AlertRule = AlertRule(
    ruleId: string,
    name: string,
    serviceId: Option<string>,
    fireOn: seq<FaultLocalization>,
    minConfidence: real,
    severity: Severity,
    enabled: bool
  )

  datatype Alert = Alert(
    alertId: Id,
    ruleId: string,
    serviceId: Option<string>,
    target: string,
    localization: FaultLocalization,
    status: DiagnosticStatus,
    confidence: real,
    severity: Severity,
    diagnosisId: string,
    message: string,
    regression: bool,
    state: AlertState,
    createdAt: real,
    updatedAt: real,
    resolvedAt: Option<real>
  )

  datatype Incident = Incident(
    incidentId: Id,
    serviceId: Option<string>,
    target: string,
    state: IncidentState,
    severity: Severity,
    summary: string,
    alertIds: seq<Id>,
    openedAt: real,
    updatedAt: real,
    resolvedAt: Option<real>
  )

  function Rank(s: Severity): (r: nat)
    ensures r <= 4
  {
    match s
    case Info => 0
    case Low => 1
    case Medium => 2
    case High => 3
    case Critical => 4
  }

  // The first of the severities of the highest rank; INFO for none.
  function MaxSeverity(severities: seq<Severity>): (top: Severity)
    ensures severities == [] ==> top == Info
    ensures severities != [] ==> top in severities
    ensures forall s :: s in severities ==> Rank(s) <= Rank(top)
  {
    if severities == [] then Info
    else if |severities| == 1 then severities[0]
    else
      var init := severities[..|severities| - 1];
      var last := severities[|severities| - 1];
      var best := MaxSeverity(init);
      assert severities == init + [last];
      if Rank(best) < Rank(last) then last else best
  }

  predicate IsHealthy(report: Report) {
    report.localization == LocHealthy
  }

  predicate Active(state: IncidentState) {
    state == Open || state == Acknowledged
  }

  predicate RuleMatches(rule: AlertRule, report: Report) {
    if !rule.enabled || IsHealthy(report) then false
    else if rule.serviceId.Some? && rule.serviceId != report.serviceId then false
    else if report.confidence < rule.minConfidence then false
    else if rule.fireOn != [] && report.localization !in rule.fireOn then false
    else true
  }

  function MatchingRules(rules: seq<AlertRule>, report: Report): (matching: seq<AlertRule>)
    ensures forall rule :: rule in matching <==> rule in rules && RuleMatches(rule, report)
    ensures IsHealthy(report) ==> matching == []
  {
    if rules == [] then []
    else
      var n := |rules| - 1;
      assert rules == rules[..n] + [rules[n]];
      MatchingRules(rules[..n], report) + (if RuleMatches(rules[n], report) then [rules[n]] else [])
  }

  const UNHEALTHY_LOCALIZATIONS: seq<FaultLocalization> :=
    [LocSourceSide, LocVantageIsolated, LocTargetSide, LocPathShared, LocInconclusive]

  function DefaultAlertRule(ruleId: string, serviceId: Option<string>, severity: Severity): AlertRule {
    AlertRule(ruleId, "Any unhealthy localization", serviceId, UNHEALTHY_LOCALIZATIONS, 0.5, severity, true)
  }

  // The default rule fires on any unhealthy localization at or above half confidence, and on nothing else.
  lemma DefaultRuleFiresExactlyIf(ruleId: string, serviceId: Option<string>, severity: Severity, report: Report)
    ensures RuleMatches(DefaultAlertRule(ruleId, serviceId, severity), report) <==>
      !IsHealthy(report) && report.confidence >= 0.5 && (serviceId.None? || serviceId == report.serviceId)
  {
    var all := UNHEALTHY_LOCALIZATIONS;
    assert all[0] in all && all[1] in all && all[2] in all && all[3] in all && all[4] in all;
  }

  function BuildAlert(id: Id, rule: AlertRule, report: Report, now: real, regression: bool): Alert {
    var text := "[" + rule.name + "] " + report.verdict;
    var message := if regression then text + " (regression vs baseline)" else text;
    Alert(id, rule.ruleId, report.serviceId, report.target, report.localization, report.status,
          report.confidence, rule.severity, report.diagnosisId, message, regression,
          Firing, now, now, None)
  }
}
