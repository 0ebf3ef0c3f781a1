// The alert and incident tables: index columns beside a payload, and the queries over the columns.
module Tables {
  import opened Results
  import opened Monitoring

  const LIST_LIMIT: nat := 100

  datatype AlertRow = AlertRow(
    serviceId: Option<string>,
    ruleId: string,
    state: AlertState,
    severity: Severity,
    diagnosisId: string,
    createdAt: real,
    updatedAt: real,
    payload: Alert
  )

  datatype IncidentRow = IncidentRow(
    serviceId: Option<string>,
    state: IncidentState,
    severity: Severity,
    openedAt: real,
    updatedAt: real,
    payload: Incident
  )

  type Alerts = map<Id, AlertRow>
  type Incidents = map<Id, IncidentRow>

  // next is the supply of fresh identifiers.
  datatype Db = Db(alerts: Alerts, incidents: Incidents, next: Id)

  const EMPTY := Db(map[], map[], 0)

  // An upsert refreshes four columns only; the others keep the values of the insert.
  function SaveAlert(alerts: Alerts, a: Alert): Alerts {
    alerts[a.alertId :=
      if a.alertId in alerts then
        alerts[a.alertId].(state := a.state, severity := a.severity, updatedAt := a.updatedAt, payload := a)
      else
        AlertRow(a.serviceId, a.ruleId, a.state, a.severity, a.diagnosisId, a.createdAt, a.updatedAt, a)]
  }

  function SaveIncident(incidents: Incidents, i: Incident): Incidents {
    incidents[i.incidentId :=
      if i.incidentId in incidents then
        incidents[i.incidentId].(state := i.state, severity := i.severity, updatedAt := i.updatedAt, payload := i)
      else
        IncidentRow(i.serviceId, i.state, i.severity, i.openedAt, i.updatedAt, i)]
  }

  // ---------- WHERE clauses ----------

  predicate AlertSelected(row: AlertRow, service: Option<string>, state: Option<AlertState>) {
    (service.Some? ==> row.serviceId == service) && (state.Some? ==> row.state == state.value)
  }

  predicate FiringRow(row: AlertRow, ruleId: string, service: Option<string>) {
    row.ruleId == ruleId && row.serviceId == service && row.state == Firing
  }

  predicate IncidentSelected(row: IncidentRow, service: Option<string>, state: Option<IncidentState>) {
    (service.Some? ==> row.serviceId == service) && (state.Some? ==> row.state == state.value)
  }

  predicate ActiveRow(row: IncidentRow, service: Option<string>) {
    row.serviceId == service && Active(row.state)
  }

  // The sort keys of the selected rows.
  function AlertKeys(alerts: Alerts, service: Option<string>, state: Option<AlertState>): map<Id, real> {
    map id | id in alerts && AlertSelected(alerts[id], service, state) :: alerts[id].createdAt
  }

  function FiringKeys(alerts: Alerts, ruleId: string, service: Option<string>): map<Id, real> {
    map id | id in alerts && FiringRow(alerts[id], ruleId, service) :: alerts[id].createdAt
  }

  function IncidentKeys(incidents: Incidents, service: Option<string>, state: Option<IncidentState>)
    : map<Id, real>
  {
    map id | id in incidents && IncidentSelected(incidents[id], service, state) :: incidents[id].openedAt
  }

  function ActiveKeys(incidents: Incidents, service: Option<string>): map<Id, real> {
    map id | id in incidents && ActiveRow(incidents[id], service) :: incidents[id].openedAt
  }

  // ---------- ORDER BY key DESC LIMIT limit ----------

  predicate Distinct(ids: seq<Id>) {
    forall i, j :: 0 <= i < j < |ids| ==> ids[i] != ids[j]
  }

  // Any answer the query may give: rows with equal keys come in no particular order.
  predicate TopBy(keys: map<Id, real>, ids: seq<Id>, limit: nat) {
    && Distinct(ids)
    && (forall i :: 0 <= i < |ids| ==> ids[i] in keys)
    && (forall i, j :: 0 <= i < j < |ids| ==> keys[ids[i]] >= keys[ids[j]])
    && |ids| == (if |keys| <= limit then |keys| else limit)
    && (forall k, i :: k in keys && k !in ids && 0 <= i < |ids| ==> keys[ids[i]] >= keys[k])
  }

  function Elems(ids: seq<Id>): set<Id> {
    set id | id in ids
  }

  lemma {:induction false} DistinctCount(ids: seq<Id>)
    requires Distinct(ids)
    ensures |Elems(ids)| == |ids|
  {
    if ids != [] {
      var n := |ids| - 1;
      DistinctCount(ids[..n]);
      ElemsOfSnoc(ids[..n], ids[n]);
      assert ids[..n] + [ids[n]] == ids;
      assert ids[n] !in Elems(ids[..n]);
    }
  }

  lemma ElemsOfSnoc(ids: seq<Id>, id: Id)
    ensures Elems(ids + [id]) == Elems(ids) + {id}
  {
  }

  lemma SubsetCount(a: set<Id>, b: set<Id>)
    requires a <= b
    ensures |a| <= |b|
    ensures |a| == |b| ==> a == b
  {
    assert b == a + (b - a);
    assert |b| == |a| + |b - a|;
  }

  // A listing misses no row exactly when the rows fit in the limit.
  lemma TopByIsAll(keys: map<Id, real>, ids: seq<Id>, limit: nat)
    requires TopBy(keys, ids, limit)
    ensures keys.Keys == Elems(ids) <==> |keys| <= limit
    ensures Elems(ids) <= keys.Keys
  {
    DistinctCount(ids);
    assert Elems(ids) <= keys.Keys;
    SubsetCount(Elems(ids), keys.Keys);
  }

  // A row whose key is above every other is never cut off.
  lemma TopByHasGreatest(keys: map<Id, real>, ids: seq<Id>, limit: nat, k: Id)
    requires TopBy(keys, ids, limit) && limit > 0
    requires k in keys && forall j :: j in keys && j != k ==> keys[j] < keys[k]
    ensures k in ids
  {
    assert keys.Keys == {k} + (keys.Keys - {k});
    assert |ids| > 0;
    assert ids[0] in keys;
  }

  lemma {:induction false} HasGreatest(keys: map<Id, real>, rest: set<Id>)
    requires rest <= keys.Keys && rest != {}
    ensures exists k :: k in rest && forall j :: j in rest ==> keys[j] <= keys[k]
    decreases |rest|
  {
    var one :| one in rest;
    if rest != {one} {
      HasGreatest(keys, rest - {one});
      var best :| best in rest - {one} && forall j :: j in rest - {one} ==> keys[j] <= keys[best];
      var top := if keys[best] < keys[one] then one else best;
      assert top in rest && forall j :: j in rest ==> keys[j] <= keys[top];
    } else {
      assert one in rest && forall j :: j in rest ==> keys[j] <= keys[one];
    }
  }

  // Appending a greatest row that is not listed yet.
  lemma TopBySnoc(keys: map<Id, real>, ids: seq<Id>, n: nat, top: Id)
    requires TopBy(keys, ids, n) && |ids| == n && top in keys && top !in ids
    requires forall j :: j in keys && j !in ids ==> keys[j] <= keys[top]
    ensures TopBy(keys, ids + [top], n + 1)
  {
    DistinctCount(ids + [top]);
    TopByIsAll(keys, ids, n);
    assert Elems(ids + [top]) <= keys.Keys;
    SubsetCount(Elems(ids + [top]), keys.Keys);
  }

  lemma NothingLeft(all: set<Id>, some: set<Id>)
    requires some <= all && all - some == {}
    ensures all == some
  {
    forall id | id in all
      ensures id in some
    {
      assert id !in all - some;
    }
  }

  lemma TopByWhole(keys: map<Id, real>, ids: seq<Id>, n: nat)
    requires TopBy(keys, ids, n) && |keys| <= n
    ensures TopBy(keys, ids, n + 1)
  {
  }

  lemma CountListed(keys: map<Id, real>, ids: seq<Id>, n: nat)
    requires TopBy(keys, ids, n)
    ensures |ids| == if |keys| <= n then |keys| else n
  {
  }

  // Every query has an answer.
  lemma {:induction false} TopByExists(keys: map<Id, real>, limit: nat) returns (ids: seq<Id>)
    ensures TopBy(keys, ids, limit)
  {
    if limit == 0 {
      ids := [];
    } else {
      ids := TopByExists(keys, limit - 1);
      TopByIsAll(keys, ids, limit - 1);
      DistinctCount(ids);
      var rest := keys.Keys - Elems(ids);
      if rest == {} {
        NothingLeft(keys.Keys, Elems(ids));
        TopByWhole(keys, ids, limit - 1);
      } else {
        CountListed(keys, ids, limit - 1);
        hide TopBy;
        HasGreatest(keys, rest);
        var top :| top in rest && forall j :: j in rest ==> keys[j] <= keys[top];
        TopBySnoc(keys, ids, limit - 1, top);
        ids := ids + [top];
      }
    }
  }

  // The rows whose keys are no less than that of row k, which is one of them.
  function NoLess(keys: map<Id, real>, k: Id): set<Id>
    requires k in keys
  {
    set j | j in keys && keys[j] >= keys[k]
  }

  lemma ListedIfFew(keys: map<Id, real>, ids: seq<Id>, limit: nat, k: Id)
    requires TopBy(keys, ids, limit) && k in keys && |NoLess(keys, k)| <= limit
    ensures k in ids
  {
    if k !in ids {
      DistinctCount(ids);
      TopByIsAll(keys, ids, limit);
      assert |ids| == limit;
      assert Elems(ids) <= NoLess(keys, k) - {k};
      SubsetCount(Elems(ids), NoLess(keys, k) - {k});
    }
  }

  // With more rows than that, some answer leaves row k out.
  lemma CutOffIfMany(keys: map<Id, real>, limit: nat, k: Id) returns (ids: seq<Id>)
    requires k in keys && |NoLess(keys, k)| > limit
    ensures TopBy(keys, ids, limit) && k !in ids
  {
    var others := keys - {k};
    ids := TopByExists(others, limit);
    TopByIsAll(others, ids, limit);
    CountListed(others, ids, limit);
    DistinctOf(others, ids, limit);
    var rivals := NoLess(keys, k) - {k};
    assert |rivals| == |NoLess(keys, k)| - 1 >= limit;
    SubsetCount(rivals, others.Keys);
    SubsetCount(NoLess(keys, k), keys.Keys);
    forall i | 0 <= i < |ids|
      ensures ids[i] in keys && keys[ids[i]] >= keys[k]
    {
      assert ids[i] in Elems(ids);
      if keys[ids[i]] < keys[k] {
        ListedBefore(others, ids, limit, rivals, i);
        DistinctCount(ids);
        SubsetCount(rivals, Elems(ids) - {ids[i]});
      }
    }
    TopByWithout(keys, k, ids, limit);
  }

  lemma DistinctOf(keys: map<Id, real>, ids: seq<Id>, limit: nat)
    requires TopBy(keys, ids, limit)
    ensures Distinct(ids)
  {
  }

  // Rows with greater keys than one listed are listed.
  lemma ListedBefore(keys: map<Id, real>, ids: seq<Id>, limit: nat, rivals: set<Id>, i: nat)
    requires TopBy(keys, ids, limit) && i < |ids| && rivals <= keys.Keys
    requires ids[i] in keys && forall j :: j in rivals ==> keys[j] > keys[ids[i]]
    ensures rivals <= Elems(ids) - {ids[i]}
  {
  }

  lemma TopByWithout(keys: map<Id, real>, k: Id, ids: seq<Id>, limit: nat)
    requires k in keys && TopBy(keys - {k}, ids, limit) && |ids| == limit < |keys|
    requires forall i :: 0 <= i < |ids| ==> ids[i] in keys && keys[ids[i]] >= keys[k]
    ensures TopBy(keys, ids, limit) && k !in ids
  {
  }

  // A row is in every answer the query may give exactly when at most `limit` rows, itself included, have keys
  // that are no less than its own.
  lemma AlwaysListedExactlyIf(keys: map<Id, real>, limit: nat, k: Id)
    requires k in keys
    ensures (forall ids :: TopBy(keys, ids, limit) ==> k in ids) <==> |NoLess(keys, k)| <= limit
  {
    if |NoLess(keys, k)| <= limit {
      forall ids | TopBy(keys, ids, limit)
        ensures k in ids
      {
        ListedIfFew(keys, ids, limit, k);
      }
    } else {
      var ids := CutOffIfMany(keys, limit, k);
    }
  }

  // The query itself: take a greatest remaining row until the limit or the end.
  method Query(keys: map<Id, real>, limit: nat) returns (ids: seq<Id>)
    ensures TopBy(keys, ids, limit)
  {
    ids := [];
    var rest := keys.Keys;
    while rest != {} && |ids| < limit
      invariant rest <= keys.Keys
      invariant forall k :: k in keys ==> (k in rest <==> k !in ids)
      invariant Distinct(ids)
      invariant forall i :: 0 <= i < |ids| ==> ids[i] in keys
      invariant forall i, j :: 0 <= i < j < |ids| ==> keys[ids[i]] >= keys[ids[j]]
      invariant forall k, i :: k in rest && 0 <= i < |ids| ==> keys[ids[i]] >= keys[k]
      invariant |ids| <= limit && |ids| + |rest| == |keys|
      decreases |rest|
    {
      HasGreatest(keys, rest);
      var top :| top in rest && forall j :: j in rest ==> keys[j] <= keys[top];
      assert top !in ids;
      ids := ids + [top];
      rest := rest - {top};
    }
  }
}
