// Localizing a fault from what several vantage points observed.
module Localization {
  import opened Results
  import opened Monitoring
  import opened TextOrder

  datatype Role = Destination | Source | Third | Peer | OtherRole(name: string)

  datatype Quality = Unknown | SingleSource | ParsedExternal | Corroborated | Verified

  // The confidence is the given one or, without one, that of the quality.
  datatype Observation = Observation(
    agentId: string,
    nodeId: Option<string>,
    role: Role,
    status: DiagnosticStatus,
    quality: Quality,
    confidence: real,
    summary: string,
    evidence: seq<string>
  )

  // What the verdict sentence says.
  datatype Verdict = Verdict(
    localization: FaultLocalization,
    destination: Option<Observation>,
    failedNames: seq<string>,
    vantageCount: nat
  )

  datatype Note = Seen(text: string) | Concluded(verdict: Verdict) | NothingCollected

  // The closing step has the role verdict, here None.
  datatype Step = Step(
    order: nat,
    vantage: string,
    role: Option<Role>,
    note: Note,
    status: DiagnosticStatus,
    quality: Quality,
    confidence: real
  )

  datatype Localized = Localized(
    localization: FaultLocalization,
    status: DiagnosticStatus,
    verdict: Verdict,
    confidence: real,
    vantageCount: nat,
    reachableCount: nat,
    failedCount: nat,
    degradedCount: nat,
    observations: seq<Observation>,
    trail: seq<Step>
  )

  function Vantage(o: Observation): string {
    if o.nodeId.Some? && o.nodeId.value != "" then o.nodeId.value else o.agentId
  }

  function RoleOrder(role: Role): nat {
    match role
    case Destination => 0
    case Source => 1
    case Third => 2
    case Peer => 3
    case OtherRole(_) => 3
  }

  // ---------- The sort by role and vantage ----------

  predicate KeyBefore(a: Observation, b: Observation) {
    || RoleOrder(a.role) < RoleOrder(b.role)
    || (RoleOrder(a.role) == RoleOrder(b.role) && Before(Vantage(a), Vantage(b)))
  }

  predicate SameKey(a: Observation, b: Observation) {
    RoleOrder(a.role) == RoleOrder(b.role) && Vantage(a) == Vantage(b)
  }

  // After every element that is not behind it, so that equal keys keep their order.
  function Insert(s: seq<Observation>, o: Observation): seq<Observation> {
    if s == [] then [o]
    else
      var n := |s| - 1;
      if KeyBefore(o, s[n]) then Insert(s[..n], o) + [s[n]] else s + [o]
  }

  function Sorted(obs: seq<Observation>): seq<Observation> {
    if obs == [] then [] else Insert(Sorted(obs[..|obs| - 1]), obs[|obs| - 1])
  }

  // ---------- The decision ----------

  function WithStatus(obs: seq<Observation>, status: DiagnosticStatus): seq<Observation> {
    if obs == [] then []
    else
      var n := |obs| - 1;
      WithStatus(obs[..n], status) + (if obs[n].status == status then [obs[n]] else [])
  }

  function FirstOf(obs: seq<Observation>, role: Role): Option<Observation> {
    if obs == [] then None else if obs[0].role == role then Some(obs[0]) else FirstOf(obs[1..], role)
  }

  predicate Failed(o: Option<Observation>) {
    o.Some? && o.value.status == StatusFailed
  }

  datatype Decision = Decision(localization: FaultLocalization, base: real, drivers: seq<Observation>)

  function Alone(only: Observation): FaultLocalization {
    if only.role == Source then LocSourceSide else LocVantageIsolated
  }

  // Everything answers, some of it badly.
  function DecideDegraded(degrad: seq<Observation>): Decision {
    if |degrad| == 1 then Decision(Alone(degrad[0]), 0.6, degrad) else Decision(LocPathShared, 0.6, degrad)
  }

  // The destination answers its own host but not everyone.
  function DecideBeyondTarget(dest: Observation, source: Option<Observation>, third: Option<Observation>,
                              unreach: seq<Observation>): Decision
  {
    if Failed(source) && Failed(third) then Decision(LocPathShared, 0.75, [dest, source.value, third.value])
    else if Failed(source) then
      Decision(LocSourceSide, 0.82, [dest, source.value] + (if third.Some? then [third.value] else []))
    else if Failed(third) then Decision(LocVantageIsolated, 0.78, [dest, third.value])
    else Decision(if |unreach| > 1 then LocPathShared else LocVantageIsolated, 0.7, [dest] + unreach)
  }

  // Nothing is known from the destination's own host.
  function DecideFromOutside(unreach: seq<Observation>, reachable: seq<Observation>, all: seq<Observation>)
    : Decision
  {
    if |unreach| == |all| then Decision(LocTargetSide, 0.6, unreach)
    else if |unreach| == 1 then Decision(Alone(unreach[0]), 0.72, all)
    else Decision(LocPathShared, 0.65, unreach + reachable)
  }

  function Decide(dest: Option<Observation>, source: Option<Observation>, third: Option<Observation>,
                  unreach: seq<Observation>, degrad: seq<Observation>, reachable: seq<Observation>,
                  all: seq<Observation>): Decision
  {
    if unreach == [] && degrad == [] then Decision(LocHealthy, 0.9, all)
    else if unreach == [] then DecideDegraded(degrad)
    else if Failed(dest) then Decision(LocTargetSide, 0.9, [dest.value] + unreach)
    else if dest.Some? && dest.value.status == StatusHealthy then
      DecideBeyondTarget(dest.value, source, third, unreach)
    else DecideFromOutside(unreach, reachable, all)
  }

  function OverallStatus(localization: FaultLocalization, unreach: seq<Observation>, degrad: seq<Observation>)
    : DiagnosticStatus
  {
    if localization == LocHealthy then StatusHealthy
    else if localization == LocInconclusive then StatusUnknown
    else if unreach != [] then StatusFailed
    else if degrad != [] then StatusDegraded
    else StatusUnknown
  }

  // ---------- Confidence ----------

  function RoundHalfEven(x: real): int {
    var f := x.Floor;
    var rest := x - f as real;
    if rest < 0.5 then f else if rest > 0.5 then f + 1 else if f % 2 == 0 then f else f + 1
  }

  // Rounding to two places.
  function Round2(x: real): real {
    RoundHalfEven(x * 100.0) as real / 100.0
  }

  function Clamp(x: real): (c: real)
    ensures 0.05 <= c <= 0.99
  {
    var r := Round2(x);
    var low := if r < 0.99 then r else 0.99;
    if low > 0.05 then low else 0.05
  }

  function Total(obs: seq<Observation>): real {
    if obs == [] then 0.0 else Total(obs[..|obs| - 1]) + obs[|obs| - 1].confidence
  }

  function EvidenceFactor(drivers: seq<Observation>): real {
    if drivers == [] then 0.5 else Total(drivers) / |drivers| as real
  }

  // ---------- The trail ----------

  function Detail(o: Observation): string {
    if o.evidence == [] then o.summary
    else if o.summary != "" then o.summary + " | " + o.evidence[0]
    else o.evidence[0]
  }

  function Link(order: nat, o: Observation): Step {
    Step(order, Vantage(o), Some(o.role), Seen(Detail(o)), o.status, o.quality, Round2(o.confidence))
  }

  function Links(obs: seq<Observation>): (steps: seq<Step>)
    ensures |steps| == |obs| && forall i :: 0 <= i < |obs| ==> steps[i] == Link(i + 1, obs[i])
  {
    seq(|obs|, i requires 0 <= i < |obs| => Link(i + 1, obs[i]))
  }

  function Closing(obs: seq<Observation>, verdict: Verdict, status: DiagnosticStatus, confidence: real): Step {
    Step(|obs| + 1, "controller", None, Concluded(verdict), status,
         if |obs| >= 2 then Corroborated else SingleSource, confidence)
  }

  method BuildTrail(obs: seq<Observation>, verdict: Verdict, status: DiagnosticStatus, confidence: real)
    returns (trail: seq<Step>)
    ensures trail == Links(obs) + [Closing(obs, verdict, status, confidence)]
  {
    trail := [];
    for n := 0 to |obs|
      invariant trail == Links(obs[..n])
    {
      var detail := obs[n].summary;
      if obs[n].evidence != [] {
        detail := if detail != "" then detail + " | " + obs[n].evidence[0] else obs[n].evidence[0];
      }
      trail := trail + [Step(n + 1, Vantage(obs[n]), Some(obs[n].role), Seen(detail), obs[n].status,
                             obs[n].quality, Round2(obs[n].confidence))];
    }
    assert obs[..|obs|] == obs;
    trail := trail + [Step(|trail| + 1, "controller", None, Concluded(verdict), status,
                           if |obs| >= 2 then Corroborated else SingleSource, confidence)];
  }

  // ---------- The report ----------

  function DecisionFor(sorted: seq<Observation>): Decision {
    Decide(FirstOf(sorted, Destination), FirstOf(sorted, Source), FirstOf(sorted, Third),
           WithStatus(sorted, StatusFailed), WithStatus(sorted, StatusDegraded),
           WithStatus(sorted, StatusHealthy), sorted)
  }

  function Scaled(base: real, factor: real): real {
    base * (0.6 + 0.4 * factor)
  }

  function ConfidenceFor(d: Decision): real {
    Clamp(Scaled(d.base, EvidenceFactor(d.drivers)))
  }

  function Names(obs: seq<Observation>): seq<string> {
    seq(|obs|, i requires 0 <= i < |obs| => Vantage(obs[i]))
  }

  function ReportOn(sorted: seq<Observation>): Localized
    requires sorted != []
  {
    var unreach := WithStatus(sorted, StatusFailed);
    var degrad := WithStatus(sorted, StatusDegraded);
    var d := DecisionFor(sorted);
    var confidence := ConfidenceFor(d);
    var status := OverallStatus(d.localization, unreach, degrad);
    var verdict := Verdict(d.localization, FirstOf(sorted, Destination), Names(unreach), |sorted|);
    Localized(d.localization, status, verdict, confidence, |sorted|,
              |WithStatus(sorted, StatusHealthy)|, |unreach|, |degrad|, sorted,
              Links(sorted) + [Closing(sorted, verdict, status, confidence)])
  }

  const NO_VERDICT := Verdict(LocInconclusive, None, [], 0)

  const NOTHING := Localized(LocInconclusive, StatusUnknown, NO_VERDICT, 0.05, 0, 0, 0, 0, [],
                             [Step(1, "controller", None, NothingCollected, StatusUnknown, Unknown, 0.05)])

  function LocalizeFault(observations: seq<Observation>): Localized {
    var sorted := Sorted(observations);
    if sorted == [] then NOTHING else ReportOn(sorted)
  }
}
