// Exactly when each verdict is given, how sure it is, and what the report shows, in terms of the observations in the
// order of the report.
module VerdictTheorems {
  import opened Results
  import opened Monitoring
  import opened TextOrder
  import opened Localization
  import opened LocalizationTheorems

  // ---------- What is asked of the list ----------

  // The places with this status.
  function At(s: seq<Observation>, status: DiagnosticStatus): set<int> {
    set i | 0 <= i < |s| && s[i].status == status
  }

  // The first of its role is at k.
  predicate First(s: seq<Observation>, role: Role, k: int) {
    0 <= k < |s| && s[k].role == role && forall j :: 0 <= j < k ==> s[j].role != role
  }

  predicate FirstHas(s: seq<Observation>, role: Role, status: DiagnosticStatus) {
    exists k :: 0 <= k < |s| && First(s, role, k) && s[k].status == status
  }

  // One vantage alone has the status, and this says whether it is a source.
  predicate OnlyOne(s: seq<Observation>, status: DiagnosticStatus, isSource: bool) {
    |At(s, status)| == 1 && exists k :: k in At(s, status) && (s[k].role == Source) == isSource
  }

  lemma {:induction false} FirstOfIs(s: seq<Observation>, role: Role)
    ensures FirstOf(s, role).Some? ==> exists k :: First(s, role, k) && s[k] == FirstOf(s, role).value
    ensures FirstOf(s, role).None? ==> forall k :: !First(s, role, k)
  {
    if s != [] && s[0].role == role {
      assert First(s, role, 0);
    } else if s != [] {
      FirstOfIs(s[1..], role);
      if FirstOf(s, role).Some? {
        var k :| First(s[1..], role, k) && s[1..][k] == FirstOf(s, role).value;
        assert First(s, role, k + 1);
      } else {
        forall k
          ensures !First(s, role, k)
        {
          if First(s, role, k) {
            assert First(s[1..], role, k - 1);
          }
        }
      }
    }
  }

  lemma OneFirst(s: seq<Observation>, role: Role, j: int, k: int)
    requires First(s, role, j) && First(s, role, k)
    ensures j == k
  {
  }

  lemma FirstHasIs(s: seq<Observation>, role: Role, status: DiagnosticStatus)
    ensures FirstHas(s, role, status) <==> FirstOf(s, role).Some? && FirstOf(s, role).value.status == status
  {
    FirstOfIs(s, role);
    hide FirstOf;
    if FirstHas(s, role, status) {
      var k :| First(s, role, k) && s[k].status == status;
      if FirstOf(s, role).Some? {
        var j :| First(s, role, j) && s[j] == FirstOf(s, role).value;
        OneFirst(s, role, j, k);
      }
    }
  }

  lemma {:induction false} CountAt(s: seq<Observation>, status: DiagnosticStatus)
    ensures |WithStatus(s, status)| == |At(s, status)|
  {
    if s == [] {
      assert At(s, status) == {};
    } else {
      var n := |s| - 1;
      CountAt(s[..n], status);
      AtSnoc(s, status);
    }
  }

  lemma AtSnoc(s: seq<Observation>, status: DiagnosticStatus)
    requires s != []
    ensures |At(s, status)| == |At(s[..|s| - 1], status)| + (if s[|s| - 1].status == status then 1 else 0)
  {
    var n := |s| - 1;
    var before, last := At(s[..n], status), if s[n].status == status then {n} else {};
    forall i
      ensures i in At(s, status) <==> i in before + last
      ensures i in before ==> i < n
    {
      PlaceBefore(s, status, i);
    }
    hide At;
    assert At(s, status) == before + last;
  }

  lemma PlaceBefore(s: seq<Observation>, status: DiagnosticStatus, i: int)
    requires s != []
    ensures var n := |s| - 1;
      && (i in At(s, status) <==> i in At(s[..n], status) || (i == n && s[n].status == status))
      && (i in At(s[..n], status) ==> i < n)
  {
  }

  lemma OnlyOneIs(s: seq<Observation>, status: DiagnosticStatus, isSource: bool)
    ensures OnlyOne(s, status, isSource) <==>
      |WithStatus(s, status)| == 1 && (WithStatus(s, status)[0].role == Source) == isSource
  {
    CountAt(s, status);
    WithStatusIs(s, status);
    var w := WithStatus(s, status);
    hide WithStatus;
    if |w| == 1 {
      assert w[0] in w;
      var k :| 0 <= k < |s| && s[k] == w[0];
      assert k in At(s, status);
      forall j | j in At(s, status)
        ensures j == k
      {
        OfOne(At(s, status), j, k);
      }
    }
  }

  lemma OfOne(a: set<int>, j: int, k: int)
    requires |a| == 1 && j in a && k in a
    ensures j == k
  {
    assert |a - {j}| == 0;
    assert k !in a - {j};
  }

  // ---------- The verdicts ----------

  // The first destination vantage is healthy, or neither healthy nor failed or not there.
  predicate TargetAnswers(s: seq<Observation>) {
    FirstHas(s, Destination, StatusHealthy)
  }

  predicate TargetUnclear(s: seq<Observation>) {
    !FirstHas(s, Destination, StatusHealthy) && !FirstHas(s, Destination, StatusFailed)
  }

  predicate BlamesSource(s: seq<Observation>) {
    || (|At(s, StatusFailed)| == 0 && OnlyOne(s, StatusDegraded, true))
    || (TargetAnswers(s) && FirstHas(s, Source, StatusFailed) && !FirstHas(s, Third, StatusFailed))
    || (TargetUnclear(s) && |s| > 1 && OnlyOne(s, StatusFailed, true))
  }

  predicate BlamesVantage(s: seq<Observation>) {
    || (|At(s, StatusFailed)| == 0 && OnlyOne(s, StatusDegraded, false))
    || (TargetAnswers(s) && !FirstHas(s, Source, StatusFailed)
        && (FirstHas(s, Third, StatusFailed) || |At(s, StatusFailed)| == 1))
    || (TargetUnclear(s) && |s| > 1 && OnlyOne(s, StatusFailed, false))
  }

  predicate BlamesPath(s: seq<Observation>) {
    || (|At(s, StatusFailed)| == 0 && |At(s, StatusDegraded)| > 1)
    || (TargetAnswers(s) && FirstHas(s, Source, StatusFailed) && FirstHas(s, Third, StatusFailed))
    || (TargetAnswers(s) && !FirstHas(s, Source, StatusFailed) && !FirstHas(s, Third, StatusFailed)
        && |At(s, StatusFailed)| > 1)
    || (TargetUnclear(s) && 1 < |At(s, StatusFailed)| < |s|)
  }

  predicate BlamesTarget(s: seq<Observation>) {
    FirstHas(s, Destination, StatusFailed) || (s != [] && |At(s, StatusFailed)| == |s|)
  }

  predicate BlamesNobody(s: seq<Observation>) {
    s != [] && |At(s, StatusFailed)| == 0 && |At(s, StatusDegraded)| == 0
  }

  // Whoever failed is among those that failed.
  lemma {:induction false} FailedIsCounted(s: seq<Observation>, role: Role)
    ensures FirstHas(s, role, StatusFailed) ==> |At(s, StatusFailed)| > 0
  {
    if FirstHas(s, role, StatusFailed) {
      var k :| 0 <= k < |s| && First(s, role, k) && s[k].status == StatusFailed;
      assert k in At(s, StatusFailed);
    }
  }

  lemma DecisionExactlyIf(s: seq<Observation>)
    requires s != []
    ensures var l := DecisionFor(s).localization;
      && (l == LocSourceSide <==> BlamesSource(s)) && (l == LocVantageIsolated <==> BlamesVantage(s))
      && (l == LocPathShared <==> BlamesPath(s)) && (l == LocTargetSide <==> BlamesTarget(s))
      && (l == LocHealthy <==> BlamesNobody(s)) && l != LocInconclusive
  {
    FirstHasIs(s, Destination, StatusFailed);
    FirstHasIs(s, Destination, StatusHealthy);
    FirstHasIs(s, Source, StatusFailed);
    FirstHasIs(s, Third, StatusFailed);
    CountAt(s, StatusFailed);
    CountAt(s, StatusDegraded);
    OnlyOneIs(s, StatusFailed, true);
    OnlyOneIs(s, StatusFailed, false);
    OnlyOneIs(s, StatusDegraded, true);
    OnlyOneIs(s, StatusDegraded, false);
    FailedIsCounted(s, Destination);
    FailedIsCounted(s, Source);
    FailedIsCounted(s, Third);
    TargetNotAmong(s);
    hide FirstOf;
    hide WithStatus;
    hide FirstHas;
    hide At;
    hide OnlyOne;
  }

  // A healthy first destination vantage is not among those that failed.
  lemma {:induction false} TargetNotAmong(s: seq<Observation>)
    ensures |At(s, StatusFailed)| <= |s|
    ensures FirstHas(s, Destination, StatusHealthy) ==> |At(s, StatusFailed)| < |s|
  {
    CountAt(s, StatusFailed);
    WithStatusIs(s, StatusFailed);
    hide WithStatus;
    hide At;
    if FirstHas(s, Destination, StatusHealthy) {
      var k :| 0 <= k < |s| && First(s, Destination, k) && s[k].status == StatusHealthy;
      assert s[k] in s;
    }
  }

  lemma ShowsSorted(obs: seq<Observation>)
    ensures LocalizeFault(obs).observations == Sorted(obs)
    ensures Sorted(obs) != [] ==> LocalizeFault(obs) == ReportOn(Sorted(obs))
  {
    hide Sorted;
    hide DecisionFor;
    hide Links;
    hide ConfidenceFor;
  }

  lemma NothingThere()
    ensures !BlamesSource([]) && !BlamesVantage([]) && !BlamesPath([]) && !BlamesTarget([]) && !BlamesNobody([])
  {
    assert At([], StatusFailed) == {} && At([], StatusDegraded) == {};
  }

  // Every verdict, exactly when it is given.
  lemma VerdictExactlyIf(obs: seq<Observation>)
    ensures var r := LocalizeFault(obs);
      && (r.localization == LocSourceSide <==> BlamesSource(r.observations))
      && (r.localization == LocVantageIsolated <==> BlamesVantage(r.observations))
      && (r.localization == LocPathShared <==> BlamesPath(r.observations))
      && (r.localization == LocTargetSide <==> BlamesTarget(r.observations))
      && (r.localization == LocHealthy <==> BlamesNobody(r.observations))
      && (r.localization == LocInconclusive <==> r.observations == [])
  {
    var s := LocalizeFault(obs).observations;
    ShowsSorted(obs);
    hide Sorted;
    hide BlamesSource;
    hide BlamesVantage;
    hide BlamesPath;
    hide BlamesTarget;
    hide BlamesNobody;
    if s != [] {
      DecisionExactlyIf(s);
      hide DecisionFor;
      hide Links;
      hide ConfidenceFor;
    } else {
      NothingThere();
    }
  }

  // ---------- How sure it is ----------

  function Average(drivers: seq<Observation>): real
    requires drivers != []
  {
    Total(drivers) / |drivers| as real
  }

  // The first of the role, if there is one.
  function Firsts(s: seq<Observation>, role: Role): seq<Observation> {
    if FirstOf(s, role).Some? then [FirstOf(s, role).value] else []
  }

  // What the confidence rests on, case by case.
  predicate RestsOn(s: seq<Observation>, base: real, drivers: seq<Observation>) {
    var failed, dest := WithStatus(s, StatusFailed), Firsts(s, Destination);
    var sourceFails, thirdFails := FirstHas(s, Source, StatusFailed), FirstHas(s, Third, StatusFailed);
    if BlamesNobody(s) then base == 0.9 && drivers == s
    else if |At(s, StatusFailed)| == 0 then base == 0.6 && drivers == WithStatus(s, StatusDegraded)
    else if FirstHas(s, Destination, StatusFailed) then base == 0.9 && drivers == dest + failed
    else if TargetAnswers(s) then
      if sourceFails then
        base == (if thirdFails then 0.75 else 0.82) && drivers == dest + Firsts(s, Source) + Firsts(s, Third)
      else if thirdFails then base == 0.78 && drivers == dest + Firsts(s, Third)
      else base == 0.7 && drivers == dest + failed
    else if |At(s, StatusFailed)| == |s| then base == 0.6 && drivers == failed
    else if |At(s, StatusFailed)| == 1 then base == 0.72 && drivers == s
    else base == 0.65 && drivers == failed + WithStatus(s, StatusHealthy)
  }

  lemma DecisionRestsOn(s: seq<Observation>)
    requires s != []
    ensures RestsOn(s, DecisionFor(s).base, DecisionFor(s).drivers)
  {
    FirstHasIs(s, Destination, StatusFailed);
    FirstHasIs(s, Destination, StatusHealthy);
    FirstHasIs(s, Source, StatusFailed);
    FirstHasIs(s, Third, StatusFailed);
    CountAt(s, StatusFailed);
    CountAt(s, StatusDegraded);
    FailedIsCounted(s, Source);
    FailedIsCounted(s, Third);
    hide FirstOf;
    hide WithStatus;
    hide FirstHas;
    hide At;
  }

  // n hundredths are nearest to x; of two as near, the even number.
  predicate Nearest(x: real, n: int) {
    var difference := 100.0 * x - n as real;
    -0.5 <= difference <= 0.5 && (difference == -0.5 || difference == 0.5 ==> n % 2 == 0)
  }

  // Two fifths of the base count as much as the drivers are sure on average.
  function Reduced(base: real, drivers: seq<Observation>): real
    requires drivers != []
  {
    base * (0.6 + 0.4 * Average(drivers))
  }

  lemma ReducedIs(base: real, drivers: seq<Observation>)
    requires drivers != []
    ensures Reduced(base, drivers) == Scaled(base, Average(drivers))
  {
    hide Average;
  }

  function Bounded(n: int): real {
    if n < 5 then 0.05 else if n > 99 then 0.99 else n as real / 100.0
  }

  lemma ConfidenceForIs(d: Decision) returns (n: int)
    requires d.drivers != []
    ensures Nearest(Reduced(d.base, d.drivers), n) && ConfidenceFor(d) == Bounded(n)
  {
    hide Clamp;
    hide Total;
    assert EvidenceFactor(d.drivers) == Average(d.drivers);
    hide Average;
    ReducedIs(d.base, d.drivers);
    hide Reduced;
    hide Scaled;
    hide EvidenceFactor;
    n := ClampIs(Scaled(d.base, Average(d.drivers)));
    hide Nearest;
    hide Bounded;
  }

  lemma ClampIs(x: real) returns (n: int)
    ensures Nearest(x, n) && Clamp(x) == Bounded(n)
  {
    n := RoundHalfEven(100.0 * x);
  }

  // The confidence is the reduced base, to the nearest hundredth, and kept between 0.05 and 0.99.
  lemma ConfidenceIs(obs: seq<Observation>) returns (base: real, drivers: seq<Observation>, n: int)
    requires obs != []
    ensures var r := LocalizeFault(obs);
      && RestsOn(r.observations, base, drivers) && drivers != []
      && Nearest(Reduced(base, drivers), n) && r.confidence == Bounded(n)
  {
    hide *;
    SameMembersSorted(obs, StatusFailed);
    var s := Sorted(obs);
    ShowsConfidence(obs);
    DecisionRestsOn(s);
    HasDrivers(s);
    base, drivers := DecisionFor(s).base, DecisionFor(s).drivers;
    n := ConfidenceForIs(DecisionFor(s));
  }

  lemma ShowsConfidence(obs: seq<Observation>)
    requires Sorted(obs) != []
    ensures var r := LocalizeFault(obs);
      r.observations == Sorted(obs) && r.confidence == ConfidenceFor(DecisionFor(Sorted(obs)))
  {
    hide Sorted;
    hide DecisionFor;
    hide ConfidenceFor;
    hide Links;
  }

  lemma HasDrivers(s: seq<Observation>)
    requires s != []
    ensures DecisionFor(s).drivers != []
  {
    hide FirstOf;
    hide WithStatus;
  }

  // ---------- What the report shows ----------

  // Destinations, sources, thirds and the others, each by vantage; nothing added or lost.
  lemma ReportIsInOrder(obs: seq<Observation>)
    ensures var s := LocalizeFault(obs).observations;
      && multiset(s) == multiset(obs)
      && forall i, j :: 0 <= i < j < |s| ==>
        && (s[j].role == Destination ==> s[i].role == Destination)
        && (s[j].role == Source ==> s[i].role in {Destination, Source})
        && (s[j].role == Third ==> s[i].role in {Destination, Source, Third})
        && (s[i].role == s[j].role ==> !Before(Vantage(s[j]), Vantage(s[i])))
  {
    ShowsSorted(obs);
    SortedIsSorted(obs);
    hide Sorted;
    hide LocalizeFault;
    var s := Sorted(obs);
    forall i, j | 0 <= i < j < |s|
      ensures !KeyBefore(s[j], s[i])
    {
    }
    hide Vantage;
    hide Before;
  }

  // The trail: a numbered step for each observation, then the verdict.
  lemma TrailShows(obs: seq<Observation>)
    requires obs != []
    ensures var r := LocalizeFault(obs);
      && |r.trail| == |obs| + 1 == |r.observations| + 1
      && (forall i :: 0 <= i < |obs| ==> StepShows(r.trail[i], i + 1, r.observations[i]))
      && r.trail[|obs|] == Step(|obs| + 1, "controller", None, Concluded(r.verdict), r.status,
                                if |obs| >= 2 then Corroborated else SingleSource, r.confidence)
      && r.verdict.localization == r.localization && r.verdict.vantageCount == |obs|
  {
    ShowsSorted(obs);
    SameMembersSorted(obs, StatusFailed);
    var s := Sorted(obs);
    hide Sorted;
    hide DecisionFor;
    hide ConfidenceFor;
    hide WithStatus;
    hide FirstOf;
    forall i | 0 <= i < |s|
      ensures StepShows(Links(s)[i], i + 1, s[i])
    {
      LinkShows(i + 1, s[i]);
    }
    hide Link;
    hide StepShows;
  }

  // The node, or without one the agent; the summary and the first piece of evidence, as far as there are any.
  ghost predicate StepShows(step: Step, order: nat, o: Observation) {
    && step.order == order && step.role == Some(o.role) && step.status == o.status && step.quality == o.quality
    && step.vantage == (if o.nodeId in {None, Some("")} then o.agentId else o.nodeId.value)
    && step.note == Seen(if o.evidence == [] then o.summary
                         else if o.summary == "" then o.evidence[0] else o.summary + " | " + o.evidence[0])
    && exists n {:trigger Nearest(o.confidence, n)} :: Nearest(o.confidence, n) && step.confidence == n as real / 100.0
  }

  lemma LinkShows(order: nat, o: Observation)
    ensures StepShows(Link(order, o), order, o)
  {
    var n := RoundHalfEven(o.confidence * 100.0);
    assert Nearest(o.confidence, n);
  }

  // Without observations: nothing is known.
  lemma EmptyReport()
    ensures LocalizeFault([]) == Localized(LocInconclusive, StatusUnknown, Verdict(LocInconclusive, None, [], 0), 0.05,
      0, 0, 0, 0, [], [Step(1, "controller", None, NothingCollected, StatusUnknown, Unknown, 0.05)])
  {
  }
}
