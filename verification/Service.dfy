// The store and the service: the methods that run the alert pipeline against the tables.
module Service {
  import opened Results
  import opened Monitoring
  import opened Tables
  import opened Lifecycle
  import opened LifecycleTheorems
  import opened TextOrder

  // What ORDER BY rule_id yields.
  predicate Listing(rules: map<string, AlertRule>, listed: seq<AlertRule>) {
    && |listed| == |rules|
    && (forall n :: 0 <= n < |listed| ==> listed[n].ruleId in rules && rules[listed[n].ruleId] == listed[n])
    && (forall m, n :: 0 <= m < n < |listed| ==> Before(listed[m].ruleId, listed[n].ruleId))
  }

  predicate RulesOk(rules: map<string, AlertRule>) {
    forall key :: key in rules ==> rules[key].ruleId == key
  }

  function AlertIds(alerts: seq<Alert>): (ids: seq<Id>)
    ensures |ids| == |alerts| && forall n :: 0 <= n < |ids| ==> ids[n] == alerts[n].alertId
  {
    seq(|alerts|, n requires 0 <= n < |alerts| => alerts[n].alertId)
  }

  function IncidentIds(incidents: seq<Incident>): (ids: seq<Id>)
    ensures |ids| == |incidents| && forall n :: 0 <= n < |ids| ==> ids[n] == incidents[n].incidentId
  {
    seq(|incidents|, n requires 0 <= n < |incidents| => incidents[n].incidentId)
  }

  class ControllerStore {
    var alerts: Alerts
    var incidents: Incidents
    var rules: map<string, AlertRule>
    var supply: Id

    ghost function Contents(): Db
      reads this
    {
      Db(alerts, incidents, supply)
    }

    constructor ()
      ensures Contents() == EMPTY && rules == map[]
    {
      alerts := map[];
      incidents := map[];
      rules := map[];
      supply := 0;
    }

    method NewId() returns (id: Id)
      modifies this`supply
      ensures id == old(supply) && supply == id + 1
    {
      id := supply;
      supply := supply + 1;
    }

    method SaveAlertRow(a: Alert)
      modifies this`alerts
      ensures alerts == SaveAlert(old(alerts), a)
    {
      if a.alertId in alerts {
        var row := alerts[a.alertId];
        alerts := alerts[a.alertId :=
          row.(state := a.state, severity := a.severity, updatedAt := a.updatedAt, payload := a)];
      } else {
        alerts := alerts[a.alertId :=
          AlertRow(a.serviceId, a.ruleId, a.state, a.severity, a.diagnosisId, a.createdAt, a.updatedAt, a)];
      }
    }

    method SaveIncidentRow(i: Incident)
      modifies this`incidents
      ensures incidents == SaveIncident(old(incidents), i)
    {
      if i.incidentId in incidents {
        var row := incidents[i.incidentId];
        incidents := incidents[i.incidentId :=
          row.(state := i.state, severity := i.severity, updatedAt := i.updatedAt, payload := i)];
      } else {
        incidents := incidents[i.incidentId :=
          IncidentRow(i.serviceId, i.state, i.severity, i.openedAt, i.updatedAt, i)];
      }
    }

    method UpsertAlertRule(rule: AlertRule)
      requires RulesOk(rules)
      modifies this`rules
      ensures rules == old(rules)[rule.ruleId := rule] && RulesOk(rules)
    {
      rules := rules[rule.ruleId := rule];
    }

    method DeleteAlertRule(ruleId: string) returns (deleted: bool)
      requires RulesOk(rules)
      modifies this`rules
      ensures deleted == (ruleId in old(rules))
      ensures rules == old(rules) - {ruleId} && RulesOk(rules)
    {
      deleted := ruleId in rules;
      rules := rules - {ruleId};
    }

    method ListAlertRules() returns (listed: seq<AlertRule>)
      requires RulesOk(rules)
      ensures Listing(rules, listed)
    {
      listed := [];
      var rest := rules.Keys;
      while rest != {}
        invariant rest <= rules.Keys && |listed| + |rest| == |rules|
        invariant forall n :: 0 <= n < |listed| ==>
          listed[n].ruleId in rules && rules[listed[n].ruleId] == listed[n]
        invariant forall m, n :: 0 <= m < n < |listed| ==> Before(listed[m].ruleId, listed[n].ruleId)
        invariant forall n, key :: 0 <= n < |listed| && key in rest ==> Before(listed[n].ruleId, key)
        decreases |rest|
      {
        HasLeast(rest);
        var key :| Least(key, rest);
        listed := listed + [rules[key]];
        rest := rest - {key};
      }
    }

    method ListAlerts(service: Option<string>, state: Option<AlertState>, limit: nat) returns (listed: seq<Alert>)
      requires AlertsOk(alerts, supply)
      ensures TopBy(AlertKeys(alerts, service, state), AlertIds(listed), limit)
      ensures forall a :: a in listed ==> a.alertId in alerts && alerts[a.alertId].payload == a
    {
      var ids := Query(AlertKeys(alerts, service, state), limit);
      hide TopBy;
      hide OneFiring;
      listed := [];
      for n := 0 to |ids|
        invariant AlertIds(listed) == ids[..n]
        invariant forall a :: a in listed ==> a.alertId in alerts && alerts[a.alertId].payload == a
      {
        ListedOnce(AlertKeys(alerts, service, state), ids, limit, n);
        assert AlertOk(ids[n], alerts[ids[n]], supply);
        listed := listed + [alerts[ids[n]].payload];
      }
      assert AlertIds(listed) == ids;
    }

    method ListIncidents(service: Option<string>, state: Option<IncidentState>, limit: nat)
      returns (listed: seq<Incident>)
      requires IncidentsOk(incidents, supply)
      ensures TopBy(IncidentKeys(incidents, service, state), IncidentIds(listed), limit)
      ensures forall i :: i in listed ==> i.incidentId in incidents && incidents[i.incidentId].payload == i
    {
      var ids := Query(IncidentKeys(incidents, service, state), limit);
      hide TopBy;
      hide OneActive;
      listed := [];
      for n := 0 to |ids|
        invariant IncidentIds(listed) == ids[..n]
        invariant forall i :: i in listed ==> i.incidentId in incidents && incidents[i.incidentId].payload == i
      {
        ListedOnce(IncidentKeys(incidents, service, state), ids, limit, n);
        assert IncidentOk(ids[n], incidents[ids[n]], supply);
        listed := listed + [incidents[ids[n]].payload];
      }
      assert IncidentIds(listed) == ids;
    }

    // The newest of the firing alerts.
    method FindFiringAlert(ruleId: string, service: Option<string>) returns (found: Option<Alert>)
      requires AlertsOk(alerts, supply)
      ensures found == match FindFiring(alerts, ruleId, service)
                       case None => None
                       case Some(id) => Some(alerts[id].payload)
    {
      var ids := Query(FiringKeys(alerts, ruleId, service), 1);
      FoundFiring(alerts, ruleId, service, ids);
      found := if ids == [] then None else Some(alerts[ids[0]].payload);
    }

    method FindActiveIncident(service: Option<string>) returns (found: Option<Incident>)
      requires IncidentsOk(incidents, supply)
      ensures found == match FindActive(incidents, service)
                       case None => None
                       case Some(id) => Some(incidents[id].payload)
    {
      var ids := Query(ActiveKeys(incidents, service), 1);
      FoundActive(incidents, service, ids);
      found := if ids == [] then None else Some(incidents[ids[0]].payload);
    }
  }

  lemma FoundFiring(alerts: Alerts, ruleId: string, service: Option<string>, ids: seq<Id>)
    requires OneFiring(alerts) && TopBy(FiringKeys(alerts, ruleId, service), ids, 1)
    ensures FindFiring(alerts, ruleId, service) == if ids == [] then None else Some(ids[0])
  {
    var keys := FiringKeys(alerts, ruleId, service);
    if ids == [] {
      assert keys == map[];
    } else {
      assert ids[0] in keys;
      assert FiringAt(alerts, ids[0], ruleId, service);
    }
    forall id | FiringAt(alerts, id, ruleId, service)
      ensures id in keys
    {
    }
  }

  lemma FoundActive(incidents: Incidents, service: Option<string>, ids: seq<Id>)
    requires OneActive(incidents) && TopBy(ActiveKeys(incidents, service), ids, 1)
    ensures FindActive(incidents, service) == if ids == [] then None else Some(ids[0])
  {
    var keys := ActiveKeys(incidents, service);
    if ids == [] {
      assert keys == map[];
    } else {
      assert ids[0] in keys;
      assert ActiveAt(incidents, ids[0], service);
    }
    forall id | ActiveAt(incidents, id, service)
      ensures id in keys
    {
    }
  }

  // What process_diagnosis reports back.
  datatype Processed = Processed(alerts: seq<Alert>, incidents: seq<Incident>, resolved: seq<Incident>)

  // The listed incidents that were active, as they are saved.
  function ClosedOf(incidents: Incidents, ids: seq<Id>, now: real): seq<Incident> {
    if ids == [] then []
    else
      var n := |ids| - 1;
      var id := ids[n];
      ClosedOf(incidents, ids[..n], now) +
      (if id in incidents && Active(incidents[id].payload.state) then
         [ClosedIncident(incidents[id].payload, now)]
       else [])
  }

  // One more listed row saved.
  lemma ClearOneMore(alerts: Alerts, ids: seq<Id>, id: Id, now: real, next: Id)
    requires AlertsOk(alerts, next) && id in alerts && id !in ids
    ensures SaveAlert(ClearAlerts(alerts, Elems(ids), now), ClearedAlert(alerts[id].payload, now))
         == ClearAlerts(alerts, Elems(ids + [id]), now)
  {
    assert AlertOk(id, alerts[id], next);
    hide OneFiring;
    ElemsOfSnoc(ids, id);
    var left := SaveAlert(ClearAlerts(alerts, Elems(ids), now), ClearedAlert(alerts[id].payload, now));
    var right := ClearAlerts(alerts, Elems(ids + [id]), now);
    assert left.Keys == right.Keys;
  }

  lemma CloseOneMore(incidents: Incidents, ids: seq<Id>, id: Id, now: real, next: Id)
    requires IncidentsOk(incidents, next) && id in incidents && id !in ids
    ensures (if Active(incidents[id].payload.state) then
               SaveIncident(CloseIncidents(incidents, Elems(ids), now), ClosedIncident(incidents[id].payload, now))
             else CloseIncidents(incidents, Elems(ids), now))
         == CloseIncidents(incidents, Elems(ids + [id]), now)
  {
    assert IncidentOk(id, incidents[id], next);
    hide OneActive;
    ElemsOfSnoc(ids, id);
    var left := if Active(incidents[id].payload.state) then
        SaveIncident(CloseIncidents(incidents, Elems(ids), now), ClosedIncident(incidents[id].payload, now))
      else CloseIncidents(incidents, Elems(ids), now);
    var right := CloseIncidents(incidents, Elems(ids + [id]), now);
    assert left.Keys == right.Keys;
  }

  lemma ClearNone(alerts: Alerts, now: real)
    ensures ClearAlerts(alerts, Elems([]), now) == alerts
    ensures Elems([]) == {}
  {
  }

  lemma CloseNone(incidents: Incidents, now: real)
    ensures CloseIncidents(incidents, Elems([]), now) == incidents
    ensures ClosedOf(incidents, [], now) == []
  {
  }

  lemma ClearedIs(a: Alert, now: real)
    ensures ClearedAlert(a, now) == a.(state := Cleared, resolvedAt := Some(now), updatedAt := now)
  {
  }

  lemma ClosedIs(i: Incident, now: real)
    ensures ClosedIncident(i, now) == i.(state := Resolved, resolvedAt := Some(now), updatedAt := now)
    ensures Active(i.state) <==> i.state == Open || i.state == Acknowledged
  {
  }

  lemma ClosedOneMore(incidents: Incidents, ids: seq<Id>, id: Id, now: real)
    requires id in incidents
    ensures ClosedOf(incidents, ids + [id], now) == ClosedOf(incidents, ids, now) +
      (if Active(incidents[id].payload.state) then [ClosedIncident(incidents[id].payload, now)] else [])
  {
    assert (ids + [id])[..|ids|] == ids;
  }

  lemma ListedOnce(keys: map<Id, real>, ids: seq<Id>, limit: nat, n: nat)
    requires TopBy(keys, ids, limit) && n < |ids|
    ensures ids[n] !in ids[..n] && ids[n] in keys
  {
  }

  lemma KeysAreRows(alerts: Alerts, service: Option<string>, state: Option<AlertState>)
    ensures AlertKeys(alerts, service, state).Keys <= alerts.Keys
  {
  }

  lemma IncidentKeysAreRows(incidents: Incidents, service: Option<string>, state: Option<IncidentState>)
    ensures IncidentKeys(incidents, service, state).Keys <= incidents.Keys
  {
  }

  lemma InvParts(db: Db)
    requires Inv(db)
    ensures AlertsOk(db.alerts, db.next) && IncidentsOk(db.incidents, db.next)
  {
  }

  lemma ContentsOf(store: ControllerStore)
    ensures store.Contents() == Db(store.alerts, store.incidents, store.supply)
  {
  }

  lemma MidFire(db: Db, rule: AlertRule, report: Report, now: real, regression: bool)
    requires Inv(db)
    ensures var mid := Raise(db, rule, report, now, regression).db;
      IncidentsOk(mid.incidents, mid.next)
    ensures Inv(Fire(db, rule, report, now, regression))
  {
    FireKeeps(db, rule, report, now, regression);
    RaiseKeeps(db, rule, report, now, regression);
    hide Raise;
    hide Fire;
    hide AlertsOk;
    hide SameButState;
    NextGrows(db.incidents, db.next, Raise(db, rule, report, now, regression).db.next);
  }

  class ControllerService {
    const store: ControllerStore

    constructor (s: ControllerStore)
      ensures store == s
    {
      store := s;
    }

    // The body of the loop over the matching rules, up to the incident.
    method RaiseAlert(rule: AlertRule, report: Report, now: real, regression: bool) returns (alert: Alert)
      requires Inv(store.Contents())
      modifies store`alerts, store`supply
      ensures Raised(store.Contents(), alert) == Raise(old(store.Contents()), rule, report, now, regression)
    {
      hide AlertsOk;
      hide IncidentsOk;
      hide AllGrouped;
      hide AllHoused;
      hide SaveAlert;
      hide FindFiring;
      hide BuildAlert;
      var found := store.FindFiringAlert(rule.ruleId, report.serviceId);
      if found.Some? {
        alert := found.value.(diagnosisId := report.diagnosisId, updatedAt := now,
                              regression := found.value.regression || regression);
        store.SaveAlertRow(alert);
      } else {
        var id := store.NewId();
        alert := BuildAlert(id, rule, report, now, regression);
        store.SaveAlertRow(alert);
      }
    }

    method AttachToIncident(alert: Alert, report: Report, now: real) returns (incident: Incident)
      requires IncidentsOk(store.incidents, store.supply)
      modifies store`incidents, store`supply
      ensures Attached(store.Contents(), incident) == Attach(old(store.Contents()), alert, report, now)
    {
      hide IncidentsOk;
      hide SaveIncident;
      hide FindActive;
      hide MaxSeverity;
      var found := store.FindActiveIncident(alert.serviceId);
      if found.None? {
        var id := store.NewId();
        incident := Incident(id, alert.serviceId, report.target, Open, alert.severity, report.verdict,
                             [alert.alertId], now, now, None);
      } else {
        incident := found.value;
        if alert.alertId !in incident.alertIds {
          incident := incident.(alertIds := incident.alertIds + [alert.alertId]);
        }
        incident := incident.(severity := MaxSeverity([incident.severity, alert.severity]));
        incident := incident.(summary := report.verdict, updatedAt := now);
      }
      store.SaveIncidentRow(incident);
    }

    // The first loop of _resolve_service.
    method ClearFiring(service: Option<string>, now: real) returns (ghost picks: seq<Id>)
      requires Inv(store.Contents())
      modifies store`alerts
      ensures TopBy(AlertKeys(old(store.alerts), service, Some(Firing)), picks, LIST_LIMIT)
      ensures store.alerts == ClearAlerts(old(store.alerts), Elems(picks), now)
    {
      hide *;
      ghost var alerts, next := store.alerts, store.supply;
      InvParts(store.Contents());
      ContentsOf(store);
      var firing := store.ListAlerts(service, Some(Firing), LIST_LIMIT);
      picks := AlertIds(firing);
      ClearNone(alerts, now);
      for n := 0 to |firing|
        invariant store.alerts == ClearAlerts(alerts, Elems(picks[..n]), now)
      {
        var alert := firing[n];
        ListedOnce(AlertKeys(alerts, service, Some(Firing)), picks, LIST_LIMIT, n);
        KeysAreRows(alerts, service, Some(Firing));
        ClearOneMore(alerts, picks[..n], picks[n], now, next);
        assert picks[..n] + [picks[n]] == picks[..n + 1];
        ClearedIs(alert, now);
        alert := alert.(state := Cleared);
        alert := alert.(resolvedAt := Some(now), updatedAt := now);
        store.SaveAlertRow(alert);
      }
      assert picks[..|firing|] == picks;
    }

    // The second loop of _resolve_service.
    method CloseActive(service: Option<string>, now: real) returns (resolved: seq<Incident>, ghost picks: seq<Id>)
      requires IncidentsOk(store.incidents, store.supply)
      modifies store`incidents
      ensures TopBy(IncidentKeys(old(store.incidents), service, None), picks, LIST_LIMIT)
      ensures store.incidents == CloseIncidents(old(store.incidents), Elems(picks), now)
      ensures resolved == ClosedOf(old(store.incidents), picks, now)
    {
      hide *;
      ghost var incidents, next := store.incidents, store.supply;
      resolved := [];
      var listed := store.ListIncidents(service, None, LIST_LIMIT);
      picks := IncidentIds(listed);
      CloseNone(incidents, now);
      for n := 0 to |listed|
        invariant store.incidents == CloseIncidents(incidents, Elems(picks[..n]), now)
        invariant resolved == ClosedOf(incidents, picks[..n], now)
      {
        var incident := listed[n];
        ListedOnce(IncidentKeys(incidents, service, None), picks, LIST_LIMIT, n);
        IncidentKeysAreRows(incidents, service, None);
        CloseOneMore(incidents, picks[..n], picks[n], now, next);
        ClosedOneMore(incidents, picks[..n], picks[n], now);
        assert picks[..n] + [picks[n]] == picks[..n + 1];
        ClosedIs(incident, now);
        if incident.state == Open || incident.state == Acknowledged {
          incident := incident.(state := Resolved);
          incident := incident.(resolvedAt := Some(now), updatedAt := now);
          store.SaveIncidentRow(incident);
          resolved := resolved + [incident];
        }
      }
      assert picks[..|listed|] == picks;
    }

    method ResolveServiceRows(service: Option<string>, now: real)
      returns (resolved: seq<Incident>, ghost alertPicks: seq<Id>, ghost incidentPicks: seq<Id>)
      requires Inv(store.Contents())
      modifies store`alerts, store`incidents
      ensures TopBy(AlertKeys(old(store.alerts), service, Some(Firing)), alertPicks, LIST_LIMIT)
      ensures TopBy(IncidentKeys(old(store.incidents), service, None), incidentPicks, LIST_LIMIT)
      ensures store.Contents() == ResolveService(old(store.Contents()), alertPicks, incidentPicks, now)
      ensures resolved == ClosedOf(old(store.incidents), incidentPicks, now)
    {
      hide AlertsOk;
      hide IncidentsOk;
      hide AllGrouped;
      hide AllHoused;
      hide ClearAlerts;
      hide CloseIncidents;
      hide AlertKeys;
      hide IncidentKeys;
      hide TopBy;
      alertPicks := ClearFiring(service, now);
      resolved, incidentPicks := CloseActive(service, now);
    }

    // The regression flag is what the baseline comparison returned for this report.
    method ProcessDiagnosis(report: Report, now: real, regression: bool) returns (outcome: Processed, ghost e: Event)
      requires Inv(store.Contents()) && RulesOk(store.rules)
      modifies store`alerts, store`incidents, store`supply
      ensures e.Diagnose? && e.report == report && e.now == now && e.regression == regression
      ensures Listing(store.rules, e.rules) && Legal(old(store.Contents()), e)
      ensures store.Contents() == Step(old(store.Contents()), e) && Inv(store.Contents())
      ensures !IsHealthy(report) ==>
        Outcome(store.Contents(), outcome.alerts, outcome.incidents)
          == FireAll(old(store.Contents()), MatchingRules(e.rules, report), report, now, regression)
      ensures !IsHealthy(report) ==> outcome.resolved == []
      ensures IsHealthy(report) ==>
        outcome == Processed([], [], ClosedOf(old(store.incidents), e.incidentPicks, now))
    {
      hide Inv;
      hide TopBy;
      hide AlertKeys;
      hide IncidentKeys;
      hide Listing;
      hide Raise;
      hide Attach;
      hide ClosedOf;
      hide ResolveService;
      ghost var before := store.Contents();
      var listed := store.ListAlertRules();
      if IsHealthy(report) {
        ghost var alertPicks, incidentPicks;
        var resolved;
        resolved, alertPicks, incidentPicks := ResolveServiceRows(report.serviceId, now);
        e := Diagnose(report, listed, regression, now, alertPicks, incidentPicks);
        StepKeeps(before, e);
        return Processed([], [], resolved), e;
      }
      e := Diagnose(report, listed, regression, now, [], []);
      var rules := MatchingRules(listed, report);
      var alerts: seq<Alert>, incidents: seq<Incident> := [], [];
      for n := 0 to |rules|
        invariant Inv(store.Contents())
        invariant FireAll(before, rules[..n], report, now, regression) == Outcome(store.Contents(), alerts, incidents)
      {
        MidFire(store.Contents(), rules[n], report, now, regression);
        var alert := RaiseAlert(rules[n], report, now, regression);
        var incident := AttachToIncident(alert, report, now);
        alerts, incidents := alerts + [alert], incidents + [incident];
        assert rules[..n + 1][..n] == rules[..n];
      }
      assert rules[..|rules|] == rules;
      return Processed(alerts, incidents, []), e;
    }

    // None is the unknown-incident error.
    method AcknowledgeIncident(id: Id, now: real) returns (result: Option<Incident>)
      requires Inv(store.Contents())
      modifies store`incidents
      ensures store.Contents() == Acknowledge(old(store.Contents()), id, now) && Inv(store.Contents())
      ensures id in old(store.incidents) && old(store.incidents)[id].payload.state != Resolved ==>
        store.incidents[id].state == Acknowledged && store.incidents[id].payload.state == Acknowledged
        && store.incidents[id].updatedAt == now
      ensures result == if id in store.incidents then Some(store.incidents[id].payload) else None
    {
      hide AlertsOk;
      hide AllGrouped;
      hide AllHoused;
      hide OneActive;
      AcknowledgeKeeps(store.Contents(), id, now);
      if id !in store.incidents {
        return None;
      }
      assert IncidentOk(id, store.incidents[id], store.supply);
      var incident := store.incidents[id].payload;
      if incident.state != Resolved {
        incident := incident.(state := Acknowledged);
        incident := incident.(updatedAt := now);
        store.SaveIncidentRow(incident);
      }
      return Some(incident);
    }

    method ResolveIncident(id: Id, now: real) returns (result: Option<Incident>)
      requires Inv(store.Contents())
      modifies store`incidents
      ensures store.Contents() == Resolve(old(store.Contents()), id, now) && Inv(store.Contents())
      ensures id in old(store.incidents) && old(store.incidents)[id].payload.state != Resolved ==>
        store.incidents[id].state == Resolved && store.incidents[id].payload.state == Resolved
        && store.incidents[id].updatedAt == now && store.incidents[id].payload.resolvedAt == Some(now)
      ensures result == if id in store.incidents then Some(store.incidents[id].payload) else None
    {
      hide AlertsOk;
      hide AllGrouped;
      hide AllHoused;
      hide OneActive;
      ResolveKeeps(store.Contents(), id, now);
      if id !in store.incidents {
        return None;
      }
      assert IncidentOk(id, store.incidents[id], store.supply);
      var incident := store.incidents[id].payload;
      if incident.state != Resolved {
        incident := incident.(state := Resolved);
        incident := incident.(resolvedAt := Some(now));
        incident := incident.(updatedAt := now);
        store.SaveIncidentRow(incident);
      }
      return Some(incident);
    }
  }
}
