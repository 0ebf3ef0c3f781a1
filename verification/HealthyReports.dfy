// What a healthy report clears and what it leaves, in any reachable state.
module HealthyReports {
  import opened Results
  import opened Monitoring
  import opened Tables
  import opened Lifecycle
  import opened LifecycleTheorems
  import opened DiagnosisEffects

  predicate Healthy(e: Event) {
    e.Diagnose? && IsHealthy(e.report)
  }

  // No alert of the service fires; without a service, none at all.
  predicate NoneFiring(alerts: Alerts, service: Option<string>) {
    forall a :: a in alerts && AlertSelected(alerts[a], service, None) ==> alerts[a].state != Firing
  }

  // An active incident of the service; without a service, of any.
  predicate ActiveIn(incidents: Incidents, service: Option<string>, k: Id) {
    k in incidents && Active(incidents[k].state) && IncidentSelected(incidents[k], service, None)
  }

  // How many incidents the listing may put before incident k, itself included.
  function Rivals(incidents: Incidents, service: Option<string>, k: Id): nat
    requires ActiveIn(incidents, service, k)
  {
    |NoLess(IncidentKeys(incidents, service, None), k)|
  }

  // ---------- One healthy report ----------

  // The alerts are all cleared exactly when at most LIST_LIMIT of them fired.
  lemma ClearsExactlyIf(alerts: Alerts, service: Option<string>, picks: seq<Id>, now: real)
    requires TopBy(AlertKeys(alerts, service, Some(Firing)), picks, LIST_LIMIT)
    ensures NoneFiring(ClearAlerts(alerts, Elems(picks), now), service)
       <==> |AlertKeys(alerts, service, Some(Firing))| <= LIST_LIMIT
  {
    var keys := AlertKeys(alerts, service, Some(Firing));
    TopByIsAll(keys, picks, LIST_LIMIT);
    hide TopBy;
    var after := ClearAlerts(alerts, Elems(picks), now);
    if NoneFiring(after, service) {
      forall a | a in keys
        ensures a in Elems(picks)
      {
        assert after[a].state != Firing;
      }
      assert keys.Keys == Elems(picks);
    }
  }

  // An active incident stays active exactly when the listing left it out, and none becomes active.
  lemma StaysExactlyIfUnlisted(db: Db, e: Event, k: Id)
    requires Inv(db) && Healthy(e)
    ensures Step(db, e).incidents.Keys == db.incidents.Keys
    ensures k in db.incidents ==>
      (Active(Step(db, e).incidents[k].state) <==> Active(db.incidents[k].state) && k !in e.incidentPicks)
    ensures k in db.incidents ==> Step(db, e).incidents[k].serviceId == db.incidents[k].serviceId
  {
    hide OneActive;
    hide AlertsOk;
    hide AllGrouped;
    hide AllHoused;
    hide ClearAlerts;
    assert k in db.incidents ==> IncidentOk(k, db.incidents[k], db.next);
  }

  // Whatever legal answer the listing gives, the report closes an active incident, exactly when at most
  // LIST_LIMIT incidents, itself included, were opened no earlier.
  lemma ClosesExactlyIf(db: Db, report: Report, now: real, k: Id)
    requires Inv(db) && IsHealthy(report) && ActiveIn(db.incidents, report.serviceId, k)
    ensures (forall e :: Legal(db, e) && Healthy(e) && e.report == report && e.now == now ==>
               !ActiveIn(Step(db, e).incidents, report.serviceId, k))
       <==> Rivals(db.incidents, report.serviceId, k) <= LIST_LIMIT
  {
    var keys := IncidentKeys(db.incidents, report.serviceId, None);
    assert k in keys;
    hide Inv;
    if Rivals(db.incidents, report.serviceId, k) <= LIST_LIMIT {
      hide Step;
      forall e | Legal(db, e) && Healthy(e) && e.report == report && e.now == now
        ensures !ActiveIn(Step(db, e).incidents, report.serviceId, k)
      {
        ListedIfFew(keys, e.incidentPicks, LIST_LIMIT, k);
        StaysExactlyIfUnlisted(db, e, k);
      }
    } else {
      var e := LeavesOpen(db, report, now, k);
    }
  }

  // The other half's witness: a legal listing that cuts the incident off.
  lemma LeavesOpen(db: Db, report: Report, now: real, k: Id) returns (e: Event)
    requires Inv(db) && IsHealthy(report) && ActiveIn(db.incidents, report.serviceId, k)
    requires Rivals(db.incidents, report.serviceId, k) > LIST_LIMIT
    ensures Legal(db, e) && Healthy(e) && e.report == report && e.now == now
    ensures ActiveIn(Step(db, e).incidents, report.serviceId, k)
  {
    hide Inv;
    hide Step;
    hide TopBy;
    hide AlertKeys;
    hide IncidentKeys;
    assert k in IncidentKeys(db.incidents, report.serviceId, None) by {
      KeyOfActive(db.incidents, report.serviceId, k);
    }
    var alertPicks := TopByExists(AlertKeys(db.alerts, report.serviceId, Some(Firing)), LIST_LIMIT);
    var incidentPicks := CutOffIfMany(IncidentKeys(db.incidents, report.serviceId, None), LIST_LIMIT, k);
    e := Diagnose(report, [], false, now, alertPicks, incidentPicks);
    StaysExactlyIfUnlisted(db, e, k);
  }

  lemma KeyOfActive(incidents: Incidents, service: Option<string>, k: Id)
    requires ActiveIn(incidents, service, k)
    ensures k in IncidentKeys(incidents, service, None)
  {
  }

  // Without a service the listings are unfiltered. The alerts of every service are cleared exactly when all that
  // fire fit in one listing, and an active incident, of whatever service, is closed exactly when it is listed;
  // ClosesExactlyIf says when that is certain.
  lemma NullServiceClearsEveryService(db: Db, e: Event)
    requires Inv(db) && Legal(db, e) && Healthy(e) && e.report.serviceId.None?
    ensures (forall a :: a in Step(db, e).alerts ==> Step(db, e).alerts[a].state != Firing)
       <==> |AlertKeys(db.alerts, None, Some(Firing))| <= LIST_LIMIT
    ensures forall k: Id :: k in db.incidents && Active(db.incidents[k].state) ==>
      k in Step(db, e).incidents && (Active(Step(db, e).incidents[k].state) <==> k !in e.incidentPicks)
  {
    hide TopBy;
    hide Inv;
    hide AlertKeys;
    hide IncidentKeys;
    hide ClearAlerts;
    hide CloseIncidents;
    ClearsExactlyIf(db.alerts, None, e.alertPicks, e.now);
    assert Step(db, e).alerts == ClearAlerts(db.alerts, Elems(e.alertPicks), e.now);
    forall k: Id | k in db.incidents && Active(db.incidents[k].state)
      ensures k in Step(db, e).incidents && (Active(Step(db, e).incidents[k].state) <==> k !in e.incidentPicks)
    {
      StaysExactlyIfUnlisted(db, e, k);
    }
  }

  // ---------- Over runs ----------

  // After any run, whatever the times, a healthy report clears the alerts of its service exactly when at most
  // LIST_LIMIT fire, and leaves an incident active only if more than LIST_LIMIT were opened no earlier. When the
  // diagnoses of each service come at increasing times it leaves none.
  lemma HealthyClears(events: seq<Event>, e: Event)
    requires LegalRun(events + [e]) && Healthy(e)
    ensures var before, after, service := Run(events), Run(events + [e]), e.report.serviceId;
      && (NoneFiring(after.alerts, service) <==> |AlertKeys(before.alerts, service, Some(Firing))| <= LIST_LIMIT)
      && (forall k: Id :: ActiveIn(after.incidents, service, k) ==>
            ActiveIn(before.incidents, service, k) && Rivals(before.incidents, service, k) > LIST_LIMIT)
      && (Timely(events + [e]) ==> forall k: Id :: !ActiveIn(after.incidents, service, k))
  {
    hide Step;
    hide Inv;
    hide Tidy;
    hide TopBy;
    hide NoneFiring;
    hide ActiveIn;
    hide Timely;
    hide AlertKeys;
    PrefixOfRun(events, e);
    RunKeepsInvariant(events);
    if Timely(events + [e]) {
      PrefixIsTimely(events, e);
      RunIsTidy(events);
    }
    HealthyStep(Run(events), e);
  }

  lemma PrefixOfRun(events: seq<Event>, e: Event)
    requires LegalRun(events + [e])
    ensures LegalRun(events) && Legal(Run(events), e) && Run(events + [e]) == Step(Run(events), e)
  {
    assert (events + [e])[..|events|] == events;
    hide Step;
    hide Legal;
  }

  lemma PrefixIsTimely(events: seq<Event>, e: Event)
    requires Timely(events + [e])
    ensures Timely(events) && (Healthy(e) ==> e.report.serviceId.Some?)
  {
    var all := events + [e];
    hide SameService;
    assert all[|events|] == e;
    forall i, j | 0 <= i < j < |events| && SameService(events[i], events[j])
      ensures events[i].now < events[j].now
    {
      assert SameService(all[i], all[j]);
    }
    forall i | 0 <= i < |events| && events[i].Diagnose? && IsHealthy(events[i].report)
      ensures events[i].report.serviceId.Some?
    {
      assert all[i] == events[i];
    }
  }

  // What is left active was cut off by as many others, and was not the newest of a service.
  lemma RemainsOnlyIfCutOff(db: Db, e: Event, k: Id)
    requires Inv(db) && Legal(db, e) && Healthy(e) && ActiveIn(Step(db, e).incidents, e.report.serviceId, k)
    ensures ActiveIn(db.incidents, e.report.serviceId, k)
    ensures Rivals(db.incidents, e.report.serviceId, k) > LIST_LIMIT
    ensures e.report.serviceId.Some? ==> !NewestActive(db.incidents)
  {
    hide TopBy;
    hide Inv;
    hide AlertKeys;
    hide NewestActive;
    hide NoLess;
    var service := e.report.serviceId;
    StaysExactlyIfUnlisted(db, e, k);
    hide Step;
    KeyOfActive(db.incidents, service, k);
    hide IncidentKeys;
    if Rivals(db.incidents, service, k) <= LIST_LIMIT {
      ListedIfFew(IncidentKeys(db.incidents, service, None), e.incidentPicks, LIST_LIMIT, k);
    }
    if service.Some? && NewestActive(db.incidents) {
      ActiveIsListed(db.incidents, service, e.incidentPicks, k);
    }
  }

  lemma HealthyStep(db: Db, e: Event)
    requires Inv(db) && Legal(db, e) && Healthy(e)
    ensures var after, service := Step(db, e), e.report.serviceId;
      && (NoneFiring(after.alerts, service) <==> |AlertKeys(db.alerts, service, Some(Firing))| <= LIST_LIMIT)
      && (forall k: Id :: ActiveIn(after.incidents, service, k) ==>
            ActiveIn(db.incidents, service, k) && Rivals(db.incidents, service, k) > LIST_LIMIT)
      && (Tidy(db) && service.Some? ==> forall k: Id :: !ActiveIn(after.incidents, service, k))
  {
    hide TopBy;
    hide AlertKeys;
    hide IncidentKeys;
    hide NoneFiring;
    hide Inv;
    hide FiringActive;
    hide NewestActive;
    hide ActiveIn;
    ClearsExactlyIf(db.alerts, e.report.serviceId, e.alertPicks, e.now);
    forall k: Id | ActiveIn(Step(db, e).incidents, e.report.serviceId, k)
      ensures ActiveIn(db.incidents, e.report.serviceId, k) && Rivals(db.incidents, e.report.serviceId, k) > LIST_LIMIT
      ensures e.report.serviceId.Some? ==> !NewestActive(db.incidents)
    {
      RemainsOnlyIfCutOff(db, e, k);
    }
  }

  // ---------- The alerts of an active incident fire ----------

  // No answer of the listing can leave out an active incident of the reported service.
  ghost predicate Covered(db: Db, e: Event) {
    Healthy(e) ==> forall k: Id :: ActiveIn(db.incidents, e.report.serviceId, k) ==>
      Rivals(db.incidents, e.report.serviceId, k) <= LIST_LIMIT
  }

  ghost predicate CoveredRun(events: seq<Event>) {
    events == []
    || (CoveredRun(events[..|events| - 1]) && Covered(Run(events[..|events| - 1]), events[|events| - 1]))
  }

  lemma FireKeepsFiring(db: Db, rule: AlertRule, report: Report, now: real, regression: bool)
    requires Inv(db) && FiringActive(db.alerts, db.incidents)
    ensures var after := Fire(db, rule, report, now, regression);
      FiringActive(after.alerts, after.incidents)
  {
    hide Raise;
    hide Attach;
    hide Inv;
    hide FiringActive;
    hide OneRow;
    hide OnlyGrows;
    hide SameButState;
    hide AlertsOk;
    hide IncidentsOk;
    hide AllGrouped;
    var r := Raise(db, rule, report, now, regression);
    MiddleOfFire(db, rule, report, now, regression);
    RaiseKeepsFiring(db, r, report.serviceId);
    var t := Attach(r.db, r.alert, report, now);
    AttachKeepsFiring(r.db.alerts, db.incidents, t.db.incidents, t.incident.incidentId, r.alert, now);
  }

  lemma {:induction false} FireAllKeepsFiring(db: Db, rules: seq<AlertRule>, report: Report, now: real,
                                              regression: bool)
    requires Inv(db) && FiringActive(db.alerts, db.incidents)
    ensures var after := FireAll(db, rules, report, now, regression).db;
      FiringActive(after.alerts, after.incidents)
  {
    hide Inv;
    hide FiringActive;
    hide Raise;
    hide Attach;
    if rules != [] {
      var n := |rules| - 1;
      FireAllKeepsFiring(db, rules[..n], report, now, regression);
      FireAllKeeps(db, rules[..n], report, now, regression);
      FireKeepsFiring(FireAll(db, rules[..n], report, now, regression).db, rules[n], report, now, regression);
    }
  }

  // An incident the report leaves active is of another service, and so are its alerts.
  lemma HealthyKeepsFiring(db: Db, e: Event)
    requires Inv(db) && Legal(db, e) && Healthy(e) && Covered(db, e)
    requires FiringActive(db.alerts, db.incidents)
    ensures FiringActive(Step(db, e).alerts, Step(db, e).incidents)
  {
    var service := e.report.serviceId;
    var after := Step(db, e);
    TopByIsAll(AlertKeys(db.alerts, service, Some(Firing)), e.alertPicks, LIST_LIMIT);
    forall k | k in after.incidents && Active(after.incidents[k].state)
      ensures AllFiring(after.alerts, after.incidents[k].payload.alertIds)
    {
      StillActive(db, e, k);
    }
  }

  // Such an incident is not of the reported service, and did not change.
  lemma StillActiveElsewhere(db: Db, e: Event, k: Id)
    requires Inv(db) && Legal(db, e) && Healthy(e) && Covered(db, e)
    requires k in Step(db, e).incidents && Active(Step(db, e).incidents[k].state)
    ensures k in db.incidents && Active(db.incidents[k].state)
    ensures !IncidentSelected(db.incidents[k], e.report.serviceId, None)
    ensures Step(db, e).incidents[k].payload.alertIds == db.incidents[k].payload.alertIds
  {
    hide Legal;
    hide Inv;
    hide ClearAlerts;
    hide Rivals;
    StaysExactlyIfUnlisted(db, e, k);
    if ActiveIn(Step(db, e).incidents, e.report.serviceId, k) {
      RemainsOnlyIfCutOff(db, e, k);
    }
  }

  // Clearing the listed alerts of the service leaves alone those of another service's incident.
  lemma MembersKeepFiring(alerts: Alerts, i: Incident, service: Option<string>, picks: seq<Id>, now: real)
    requires Members(alerts, i) && AllFiring(alerts, i.alertIds)
    requires service.Some? && i.serviceId != service
    requires Elems(picks) <= AlertKeys(alerts, service, Some(Firing)).Keys
    ensures AllFiring(ClearAlerts(alerts, Elems(picks), now), i.alertIds)
  {
  }

  lemma StillActive(db: Db, e: Event, k: Id)
    requires Inv(db) && Legal(db, e) && Healthy(e) && Covered(db, e)
    requires FiringActive(db.alerts, db.incidents)
    requires k in Step(db, e).incidents && Active(Step(db, e).incidents[k].state)
    ensures AllFiring(Step(db, e).alerts, Step(db, e).incidents[k].payload.alertIds)
  {
    hide Covered;
    hide OneActive;
    hide OneFiring;
    hide AllHoused;
    hide Aggregate;
    hide AlertKeys;
    hide TopBy;
    hide AllFiring;
    hide CloseIncidents;
    hide ClearAlerts;
    StillActiveElsewhere(db, e, k);
    TopByIsAll(AlertKeys(db.alerts, e.report.serviceId, Some(Firing)), e.alertPicks, LIST_LIMIT);
    var i := db.incidents[k].payload;
    assert IncidentOk(k, db.incidents[k], db.next) && Grouped(db.alerts, i) && AllFiring(db.alerts, i.alertIds);
    hide Inv;
    hide FiringActive;
    MembersKeepFiring(db.alerts, i, e.report.serviceId, e.alertPicks, e.now);
  }

  lemma StepKeepsFiring(db: Db, e: Event)
    requires Inv(db) && Legal(db, e) && Covered(db, e) && FiringActive(db.alerts, db.incidents)
    ensures FiringActive(Step(db, e).alerts, Step(db, e).incidents)
  {
    if Healthy(e) {
      HealthyKeepsFiring(db, e);
    } else {
      hide FiringActive;
      hide Covered;
      hide TopBy;
      match e
      case Diagnose(report, rules, regression, now, _, _) =>
        hide Inv;
        hide FireAll;
        FireAllKeepsFiring(db, MatchingRules(rules, report), report, now, regression);
      case Acknowledging(id, now) => ByHandKeepsFiring(db, id, now);
      case Resolving(id, now) => ByHandKeepsFiring(db, id, now);
    }
  }

  lemma SaveKeepsFiring(alerts: Alerts, incidents: Incidents, i: Incident)
    requires FiringActive(alerts, incidents) && i.incidentId in incidents
    requires Active(incidents[i.incidentId].state) && i.alertIds == incidents[i.incidentId].payload.alertIds
    ensures FiringActive(alerts, SaveIncident(incidents, i))
  {
    var after := SaveIncident(incidents, i);
    forall k | k in after && Active(after[k].state)
      ensures AllFiring(alerts, after[k].payload.alertIds)
    {
      assert AllFiring(alerts, incidents[k].payload.alertIds);
    }
  }

  lemma ByHandKeepsFiring(db: Db, id: Id, now: real)
    requires Inv(db) && FiringActive(db.alerts, db.incidents)
    ensures FiringActive(db.alerts, Acknowledge(db, id, now).incidents)
    ensures FiringActive(db.alerts, Resolve(db, id, now).incidents)
    ensures Acknowledge(db, id, now).alerts == db.alerts && Resolve(db, id, now).alerts == db.alerts
  {
    hide OneActive;
    hide AlertsOk;
    hide AllGrouped;
    hide AllHoused;
    hide FiringActive;
    hide CloseIncidents;
    hide SaveIncident;
    ResolveIsClose(db, id, now);
    CloseKeepsFiring(db.alerts, db.incidents, {id}, now, db.next);
    if id in db.incidents && db.incidents[id].payload.state != Resolved {
      assert IncidentOk(id, db.incidents[id], db.next);
      SaveKeepsFiring(db.alerts, db.incidents, db.incidents[id].payload.(state := Acknowledged, updatedAt := now));
    }
  }

  // Whatever the times, all alerts of an active incident fire, as long as no listing can cut one off.
  lemma {:induction false} ActiveAlertsFire(events: seq<Event>)
    requires LegalRun(events) && CoveredRun(events)
    ensures FiringActive(Run(events).alerts, Run(events).incidents)
  {
    hide Step;
    hide Inv;
    hide Covered;
    hide Legal;
    if events != [] {
      hide FiringActive;
      var earlier := events[..|events| - 1];
      ActiveAlertsFire(earlier);
      RunKeepsInvariant(earlier);
      StepKeepsFiring(Run(earlier), events[|events| - 1]);
    }
  }

  lemma NewestHasNoRivals(incidents: Incidents, service: Option<string>, k: Id)
    requires NewestActive(incidents) && service.Some? && ActiveIn(incidents, service, k)
    ensures Rivals(incidents, service, k) == 1
  {
    var keys := IncidentKeys(incidents, service, None);
    assert Newest(incidents, k);
    assert NoLess(keys, k) == {k};
  }

  // Runs whose diagnoses come at increasing times are covered.
  lemma {:induction false} TimelyIsCovered(events: seq<Event>)
    requires LegalRun(events) && Timely(events)
    ensures CoveredRun(events)
  {
    hide Step;
    hide Inv;
    hide Legal;
    hide Timely;
    if events != [] {
      var earlier, e := events[..|events| - 1], events[|events| - 1];
      assert earlier + [e] == events;
      PrefixIsTimely(earlier, e);
      TimelyIsCovered(earlier);
      RunIsTidy(earlier);
      hide FiringActive;
      hide NewestActive;
      hide Rivals;
      var incidents := Run(earlier).incidents;
      forall k: Id | Healthy(e) && ActiveIn(incidents, e.report.serviceId, k)
        ensures Rivals(incidents, e.report.serviceId, k) <= LIST_LIMIT
      {
        NewestHasNoRivals(incidents, e.report.serviceId, k);
      }
    }
  }
}
