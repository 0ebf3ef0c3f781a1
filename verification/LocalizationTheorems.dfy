// What the localization does not depend on, and what its verdict means.
module LocalizationTheorems {
  import opened Results
  import opened Monitoring
  import opened TextOrder
  import opened Localization

  // ---------- The order of the input does not matter ----------

  predicate Ordered(s: seq<Observation>) {
    forall i, j :: 0 <= i < j < |s| ==> !KeyBefore(s[j], s[i])
  }

  predicate DistinctKeys(s: seq<Observation>) {
    forall i, j :: 0 <= i < j < |s| ==> !SameKey(s[i], s[j])
  }

  lemma KeyTransitive(a: Observation, b: Observation, c: Observation)
    requires !KeyBefore(b, a) && !KeyBefore(c, b)
    ensures !KeyBefore(c, a)
  {
    var x, y, z := Vantage(a), Vantage(b), Vantage(c);
    hide Vantage;
    BeforeTotal(x, y);
    BeforeTotal(y, z);
    if Before(z, x) {
      if Before(x, y) {
        BeforeTransitive(z, x, y);
      }
    }
  }

  lemma KeyTotal(a: Observation, b: Observation)
    ensures KeyBefore(a, b) || KeyBefore(b, a) || SameKey(a, b)
    ensures !(KeyBefore(a, b) && KeyBefore(b, a))
  {
    BeforeTotal(Vantage(a), Vantage(b));
    BeforeIrreflexive(Vantage(a));
    if Before(Vantage(a), Vantage(b)) && Before(Vantage(b), Vantage(a)) {
      BeforeTransitive(Vantage(a), Vantage(b), Vantage(a));
    }
  }

  lemma Snoc<T>(s: seq<T>)
    requires s != []
    ensures s == s[..|s| - 1] + [s[|s| - 1]]
    ensures multiset(s) == multiset(s[..|s| - 1]) + multiset{s[|s| - 1]}
    ensures multiset(s[..|s| - 1]) == multiset(s) - multiset{s[|s| - 1]}
  {
    assert s == s[..|s| - 1] + [s[|s| - 1]];
  }

  lemma InBoth<T>(a: seq<T>, b: seq<T>, x: T)
    requires multiset(a) == multiset(b)
    ensures x in a <==> x in b
    ensures |a| == |b|
  {
    assert x in a <==> x in multiset(a);
    assert x in b <==> x in multiset(b);
    assert |multiset(a)| == |a| && |multiset(b)| == |b|;
  }

  lemma {:induction false} InsertPermutes(s: seq<Observation>, o: Observation)
    ensures multiset(Insert(s, o)) == multiset(s) + multiset{o}
  {
    hide KeyBefore;
    if s != [] {
      Snoc(s);
      InsertPermutes(s[..|s| - 1], o);
    }
  }

  lemma {:induction false} InsertMembers(s: seq<Observation>, o: Observation)
    ensures forall x :: x in Insert(s, o) ==> x in s || x == o
  {
    hide KeyBefore;
    if s != [] {
      var n := |s| - 1;
      InsertMembers(s[..n], o);
      assert s == s[..n] + [s[n]];
    }
  }

  lemma {:induction false} InsertIsOrdered(s: seq<Observation>, o: Observation)
    requires Ordered(s)
    ensures Ordered(Insert(s, o))
  {
    hide KeyBefore;
    if s != [] {
      var n := |s| - 1;
      if KeyBefore(o, s[n]) {
        var front := Insert(s[..n], o);
        InsertIsOrdered(s[..n], o);
        InsertMembers(s[..n], o);
        KeyTotal(o, s[n]);
        forall i | 0 <= i < |front|
          ensures !KeyBefore(s[n], front[i])
        {
          assert front[i] in front;
        }
      } else {
        forall i | 0 <= i < |s|
          ensures !KeyBefore(o, s[i])
        {
          if i < n {
            KeyTransitive(s[i], s[n], o);
          }
        }
      }
    }
  }

  lemma {:induction false} SortedIsSorted(obs: seq<Observation>)
    ensures Ordered(Sorted(obs)) && multiset(Sorted(obs)) == multiset(obs)
  {
    hide Insert;
    hide KeyBefore;
    if obs != [] {
      var n := |obs| - 1;
      SortedIsSorted(obs[..n]);
      InsertIsOrdered(Sorted(obs[..n]), obs[n]);
      InsertPermutes(Sorted(obs[..n]), obs[n]);
      Snoc(obs);
    }
  }

  // Two ordered arrangements of the same observations with distinct keys are one.
  lemma {:induction false} OrderedIsUnique(a: seq<Observation>, b: seq<Observation>)
    requires Ordered(a) && Ordered(b) && DistinctKeys(a) && multiset(a) == multiset(b)
    ensures a == b
  {
    hide Ordered;
    hide DistinctKeys;
    if a == [] {
      assert |multiset(b)| == |b|;
    } else {
      var n := |a| - 1;
      InBoth(a, b, a[n]);
      InBoth(a, b, b[n]);
      var j :| 0 <= j < |b| && b[j] == a[n];
      var i :| 0 <= i < |a| && a[i] == b[n];
      LastIsSame(a, b, i, j);
      Snoc(a);
      Snoc(b);
      OrderedPrefix(a, n);
      OrderedPrefix(b, n);
      DistinctPrefix(a, n);
      OrderedIsUnique(a[..n], b[..n]);
    }
  }

  lemma OrderedPrefix(s: seq<Observation>, n: nat)
    requires Ordered(s) && n <= |s|
    ensures Ordered(s[..n])
  {
    hide KeyBefore;
  }

  lemma DistinctPrefix(s: seq<Observation>, n: nat)
    requires DistinctKeys(s) && n <= |s|
    ensures DistinctKeys(s[..n])
  {
    hide SameKey;
  }

  lemma LastIsSame(a: seq<Observation>, b: seq<Observation>, i: nat, j: nat)
    requires Ordered(a) && Ordered(b) && DistinctKeys(a) && |a| == |b| && a != []
    requires i < |a| && a[i] == b[|b| - 1] && j < |b| && b[j] == a[|a| - 1]
    ensures a[|a| - 1] == b[|b| - 1]
  {
    var n := |a| - 1;
    hide KeyBefore;
    hide SameKey;
    if i < n && j < n {
      assert !KeyBefore(a[n], a[i]) && !KeyBefore(b[n], b[j]);
      KeyTotal(a[n], a[i]);
      SameKeySym(a[n], a[i]);
    }
  }

  lemma SameKeySym(a: Observation, b: Observation)
    ensures SameKey(a, b) == SameKey(b, a)
  {
  }

  lemma {:induction false} DistinctUnderReorder(a: seq<Observation>, b: seq<Observation>)
    requires DistinctKeys(a) && multiset(a) == multiset(b)
    ensures DistinctKeys(b)
  {
    hide SameKey;
    forall i, j | 0 <= i < j < |b|
      ensures !SameKey(b[i], b[j])
    {
      InBoth(a, b, b[i]);
      InBoth(a, b, b[j]);
      var k :| 0 <= k < |a| && a[k] == b[i];
      var m :| 0 <= m < |a| && a[m] == b[j];
      if k == m {
        TwiceIn(b, i, j);
        OnceIn(a, k);
      } else {
        SameKeySym(b[i], b[j]);
      }
    }
  }

  lemma TwiceIn(s: seq<Observation>, i: nat, j: nat)
    requires i < j < |s| && s[i] == s[j]
    ensures multiset(s)[s[i]] >= 2
  {
    assert s == s[..j] + s[j..];
    assert s[..j][i] == s[i] && s[j..][0] == s[j];
    assert s[i] in multiset(s[..j]) && s[i] in multiset(s[j..]);
  }

  lemma OnceIn(s: seq<Observation>, k: nat)
    requires DistinctKeys(s) && k < |s|
    ensures multiset(s)[s[k]] == 1
  {
    assert s == s[..k] + [s[k]] + s[k + 1..];
    assert SameKey(s[k], s[k]);
    hide SameKey;
    forall i | 0 <= i < k
      ensures s[..k][i] != s[k]
    {
      assert !SameKey(s[i], s[k]);
    }
    forall i | k < i < |s|
      ensures s[i] != s[k]
    {
      assert !SameKey(s[k], s[i]);
    }
    assert s[k] !in multiset(s[..k]) && s[k] !in multiset(s[k + 1..]);
  }

  // Reordering the observations changes nothing in the report, trail included.
  lemma OrderDoesNotMatter(a: seq<Observation>, b: seq<Observation>)
    requires DistinctKeys(a) && multiset(a) == multiset(b)
    ensures LocalizeFault(a) == LocalizeFault(b)
  {
    SortedIsSorted(a);
    SortedIsSorted(b);
    DistinctUnderReorder(a, Sorted(a));
    OrderedIsUnique(Sorted(a), Sorted(b));
  }

  // ---------- What the verdict means ----------

  predicate Any(obs: seq<Observation>, status: DiagnosticStatus) {
    exists o :: o in obs && o.status == status
  }

  predicate All(obs: seq<Observation>, status: DiagnosticStatus) {
    forall o :: o in obs ==> o.status == status
  }

  lemma {:induction false} WithStatusIs(obs: seq<Observation>, status: DiagnosticStatus)
    ensures var w := WithStatus(obs, status);
      && (forall o :: o in w <==> o in obs && o.status == status)
      && |w| <= |obs| && (|w| == |obs| <==> All(obs, status)) && (w == [] <==> !Any(obs, status))
  {
    if obs != [] {
      var n := |obs| - 1;
      assert obs == obs[..n] + [obs[n]];
      WithStatusIs(obs[..n], status);
      if obs[n].status == status {
        assert obs[n] in obs;
      } else {
        assert obs[n] in obs;
      }
    }
  }

  lemma SameMembersSorted(obs: seq<Observation>, status: DiagnosticStatus)
    ensures Any(Sorted(obs), status) == Any(obs, status)
    ensures All(Sorted(obs), status) == All(obs, status)
    ensures |Sorted(obs)| == |obs|
  {
    SortedIsSorted(obs);
    assert |multiset(Sorted(obs))| == |multiset(obs)|;
    forall o: Observation
      ensures o in Sorted(obs) <==> o in obs
    {
      assert o in Sorted(obs) <==> o in multiset(Sorted(obs));
    }
  }

  // Healthy exactly when something was observed and nothing failed or was degraded. Observations that are
  // all unknown are healthy, too.
  lemma {:induction false} HealthyExactlyIf(obs: seq<Observation>)
    ensures LocalizeFault(obs).localization == LocHealthy
       <==> obs != [] && !Any(obs, StatusFailed) && !Any(obs, StatusDegraded)
  {
    SameMembersSorted(obs, StatusFailed);
    SameMembersSorted(obs, StatusDegraded);
    WithStatusIs(Sorted(obs), StatusFailed);
    WithStatusIs(Sorted(obs), StatusDegraded);
    hide Sorted;
    hide WithStatus;
    hide Any;
  }

  // The status of the report is the worst observed; unknown only without observations.
  lemma StatusIsWorst(obs: seq<Observation>)
    ensures var status := LocalizeFault(obs).status;
      && (status == StatusFailed <==> Any(obs, StatusFailed))
      && (status == StatusDegraded <==> !Any(obs, StatusFailed) && Any(obs, StatusDegraded))
      && (status == StatusUnknown <==> obs == [])
  {
    SameMembersSorted(obs, StatusFailed);
    SameMembersSorted(obs, StatusDegraded);
    WithStatusIs(Sorted(obs), StatusFailed);
    WithStatusIs(Sorted(obs), StatusDegraded);
    NothingObserved();
    hide Sorted;
    hide WithStatus;
    hide Any;
  }

  lemma NothingObserved()
    ensures !Any([], StatusFailed) && !Any([], StatusDegraded)
  {
  }

  lemma {:induction false} FirstIs(obs: seq<Observation>, role: Role)
    ensures var f := FirstOf(obs, role);
      && (f.Some? ==> f.value in obs && f.value.role == role)
      && (f.None? ==> forall o :: o in obs ==> o.role != role)
  {
    if obs != [] {
      assert obs == [obs[0]] + obs[1..];
      FirstIs(obs[1..], role);
    }
  }

  // The fault is at the target exactly when the first destination vantage failed or every vantage did.
  lemma {:induction false} TargetSideExactlyIf(obs: seq<Observation>)
    ensures LocalizeFault(obs).localization == LocTargetSide
       <==> obs != [] && (Failed(FirstOf(Sorted(obs), Destination)) || All(obs, StatusFailed))
  {
    SameMembersSorted(obs, StatusFailed);
    WithStatusIs(Sorted(obs), StatusFailed);
    WithStatusIs(Sorted(obs), StatusDegraded);
    FirstIs(Sorted(obs), Destination);
    var sorted := Sorted(obs);
    hide Sorted;
    hide WithStatus;
    hide FirstOf;
    if sorted != [] {
      assert sorted[0] in sorted;
      TargetSide(sorted);
    }
  }

  lemma TargetSide(sorted: seq<Observation>)
    requires sorted != []
    ensures DecisionFor(sorted).localization == LocTargetSide
       <==> Failed(FirstOf(sorted, Destination)) || All(sorted, StatusFailed)
  {
    WithStatusIs(sorted, StatusFailed);
    WithStatusIs(sorted, StatusDegraded);
    FirstIs(sorted, Destination);
    hide WithStatus;
    hide FirstOf;
    assert sorted[0] in sorted;
  }

  lemma {:induction false} InsertCounts(s: seq<Observation>, o: Observation, status: DiagnosticStatus)
    ensures |WithStatus(Insert(s, o), status)| == |WithStatus(s, status)| + (if o.status == status then 1 else 0)
  {
    hide KeyBefore;
    if s == [] {
      assert Insert(s, o)[..0] == [];
    } else {
      var n := |s| - 1;
      InsertCounts(s[..n], o, status);
      assert (s + [o])[..|s|] == s;
      assert (Insert(s[..n], o) + [s[n]])[..|Insert(s[..n], o)|] == Insert(s[..n], o);
    }
  }

  lemma {:induction false} SortedCounts(obs: seq<Observation>, status: DiagnosticStatus)
    ensures |WithStatus(Sorted(obs), status)| == |WithStatus(obs, status)|
  {
    hide Insert;
    if obs != [] {
      var n := |obs| - 1;
      SortedCounts(obs[..n], status);
      InsertCounts(Sorted(obs[..n]), obs[n], status);
    }
  }

  // The counts of the report are those of the observations.
  lemma CountsAreRight(obs: seq<Observation>)
    ensures var r := LocalizeFault(obs);
      && r.vantageCount == |obs|
      && r.failedCount == |WithStatus(obs, StatusFailed)|
      && r.degradedCount == |WithStatus(obs, StatusDegraded)|
      && r.reachableCount == |WithStatus(obs, StatusHealthy)|
  {
    SortedCounts(obs, StatusFailed);
    SortedCounts(obs, StatusDegraded);
    SortedCounts(obs, StatusHealthy);
    SameMembersSorted(obs, StatusFailed);
    hide Sorted;
    hide DecisionFor;
    hide Links;
  }

  lemma {:induction false} TwoFailed(obs: seq<Observation>, a: Observation, b: Observation)
    requires a in WithStatus(obs, StatusFailed) && b in WithStatus(obs, StatusFailed) && a != b
    ensures |WithStatus(obs, StatusFailed)| >= 2
  {
    var w := WithStatus(obs, StatusFailed);
    hide WithStatus;
    var i :| 0 <= i < |w| && w[i] == a;
    var j :| 0 <= j < |w| && w[j] == b;
    assert i != j;
  }

  // A shared path is blamed only if two vantages fail or, when none does, two are degraded.
  lemma {:induction false} SharedMeansSeveral(obs: seq<Observation>)
    requires LocalizeFault(obs).localization == LocPathShared
    ensures var r := LocalizeFault(obs);
      r.failedCount >= 2 || (r.failedCount == 0 && r.degradedCount >= 2)
  {
    var sorted := Sorted(obs);
    var source, third := FirstOf(sorted, Source), FirstOf(sorted, Third);
    FirstIs(sorted, Source);
    FirstIs(sorted, Third);
    WithStatusIs(sorted, StatusFailed);
    hide Sorted;
    hide WithStatus;
    hide FirstOf;
    if Failed(source) && Failed(third) {
      TwoFailed(sorted, source.value, third.value);
    }
  }

  // The source is blamed only if a source vantage fails or is degraded.
  lemma {:induction false} SourceSideBlamesSource(obs: seq<Observation>)
    requires LocalizeFault(obs).localization == LocSourceSide
    ensures exists o :: o in obs && o.role == Source && (o.status == StatusFailed || o.status == StatusDegraded)
  {
    var sorted := Sorted(obs);
    SortedIsSorted(obs);
    FirstIs(sorted, Source);
    WithStatusIs(sorted, StatusFailed);
    WithStatusIs(sorted, StatusDegraded);
    var unreach, degrad := WithStatus(sorted, StatusFailed), WithStatus(sorted, StatusDegraded);
    var source := FirstOf(sorted, Source);
    hide Sorted;
    hide WithStatus;
    hide FirstOf;
    hide Links;
    hide ConfidenceFor;
    var o := if unreach == [] then degrad[0] else if Failed(source) then source.value else unreach[0];
    assert unreach != [] ==> unreach[0] in unreach;
    assert degrad != [] ==> degrad[0] in degrad;
    assert o in multiset(sorted);
  }

  // An isolated vantage need not be the only one that fails: with several failures it is blamed exactly when the
  // destination answers its own host, the source vantage does not fail and the third one does.
  lemma {:induction false} IsolatedAmongSeveral(obs: seq<Observation>)
    requires LocalizeFault(obs).failedCount > 1
    ensures var dest, source, third :=
        FirstOf(Sorted(obs), Destination), FirstOf(Sorted(obs), Source), FirstOf(Sorted(obs), Third);
      (LocalizeFault(obs).localization == LocVantageIsolated) <==>
      (dest.Some? && dest.value.status == StatusHealthy && !Failed(source) && Failed(third))
  {
    hide Sorted;
    hide WithStatus;
    hide FirstOf;
    hide Links;
  }

  // One observation from each of the four roles.
  function FourRoles(dest: DiagnosticStatus, source: DiagnosticStatus, third: DiagnosticStatus,
                     peer: DiagnosticStatus): seq<Observation>
  {
    [Observation("a", None, Destination, dest, Verified, 0.95, "", []),
     Observation("b", None, Source, source, Verified, 0.95, "", []),
     Observation("c", None, Third, third, Verified, 0.95, "", []),
     Observation("d", None, Peer, peer, Verified, 0.95, "", [])]
  }

  lemma FourRolesSorted(dest: DiagnosticStatus, source: DiagnosticStatus, third: DiagnosticStatus,
                        peer: DiagnosticStatus)
    ensures var obs := FourRoles(dest, source, third, peer);
      && Sorted(obs) == obs
      && FirstOf(obs, Destination) == Some(obs[0]) && FirstOf(obs, Source) == Some(obs[1])
      && FirstOf(obs, Third) == Some(obs[2])
  {
    var obs := FourRoles(dest, source, third, peer);
    InOrder(obs[..1]);
    InOrder(obs[..2]);
    InOrder(obs[..3]);
    InOrder(obs);
    assert obs[..1][..0] == [] && obs[..2][..1] == obs[..1] && obs[..3][..2] == obs[..2];
    assert obs[1..][0] == obs[1] && obs[1..][1..] == obs[2..] && obs[2..][0] == obs[2];
  }

  // An observation not before the last of a sorted list goes to its end.
  lemma InOrder(obs: seq<Observation>)
    requires obs != [] && Sorted(obs[..|obs| - 1]) == obs[..|obs| - 1]
    requires |obs| > 1 ==> !KeyBefore(obs[|obs| - 1], obs[|obs| - 2])
    ensures Sorted(obs) == obs
  {
    hide KeyBefore;
  }

  // Such a list: the third vantage and a peer fail, and still the verdict is an isolated vantage.
  lemma IsolatedWithTwoFailures()
    ensures var r := LocalizeFault(FourRoles(StatusHealthy, StatusHealthy, StatusFailed, StatusFailed));
      r.failedCount == 2 && r.localization == LocVantageIsolated
  {
    var obs := FourRoles(StatusHealthy, StatusHealthy, StatusFailed, StatusFailed);
    FourRolesSorted(StatusHealthy, StatusHealthy, StatusFailed, StatusFailed);
    TwoOfFourFailed();
    CountsAreRight(obs);
    hide WithStatus;
    hide LocalizeFault;
    hide Sorted;
    IsolatedAmongSeveral(obs);
  }

  lemma TwoOfFourFailed()
    ensures |WithStatus(FourRoles(StatusHealthy, StatusHealthy, StatusFailed, StatusFailed), StatusFailed)| == 2
  {
    var obs := FourRoles(StatusHealthy, StatusHealthy, StatusFailed, StatusFailed);
    assert obs[..1][..0] == [] && obs[..2][..1] == obs[..1] && obs[..3][..2] == obs[..2];
    assert WithStatus(obs[..1], StatusFailed) == [];
    assert WithStatus(obs[..2], StatusFailed) == [];
    assert |WithStatus(obs[..3], StatusFailed)| == 1;
  }

  // ---------- Confidence ----------

  lemma ConfidenceInRange(obs: seq<Observation>)
    ensures 0.05 <= LocalizeFault(obs).confidence <= 0.99
  {
    hide Sorted;
    hide DecisionFor;
    hide Links;
    hide EvidenceFactor;
    hide Round2;
  }

  lemma RoundMonotone(x: real, y: real)
    requires x <= y
    ensures RoundHalfEven(x) <= RoundHalfEven(y)
  {
  }

  lemma ClampMonotone(x: real, y: real)
    requires x <= y
    ensures Clamp(x) <= Clamp(y)
  {
    RoundMonotone(x * 100.0, y * 100.0);
    hide RoundHalfEven;
  }

  predicate RaisedOne(a: Observation, b: Observation) {
    b == a.(confidence := b.confidence) && a.confidence <= b.confidence
  }

  // The same observations with confidences that are no lower.
  predicate Raised(a: seq<Observation>, b: seq<Observation>) {
    |a| == |b| && forall i :: 0 <= i < |a| ==> RaisedOne(a[i], b[i])
  }

  lemma RaisedKeys(a: Observation, b: Observation, c: Observation, d: Observation)
    requires RaisedOne(a, b) && RaisedOne(c, d)
    ensures KeyBefore(a, c) == KeyBefore(b, d)
  {
  }

  lemma RaisedConcat(a: seq<Observation>, b: seq<Observation>, c: seq<Observation>, d: seq<Observation>)
    requires Raised(a, b) && Raised(c, d)
    ensures Raised(a + c, b + d)
  {
  }

  lemma {:induction false} InsertRaised(s: seq<Observation>, t: seq<Observation>, o: Observation, p: Observation)
    requires Raised(s, t) && RaisedOne(o, p)
    ensures Raised(Insert(s, o), Insert(t, p))
  {
    hide KeyBefore;
    hide RaisedOne;
    if s != [] {
      var n := |s| - 1;
      RaisedKeys(o, p, s[n], t[n]);
      InsertRaised(s[..n], t[..n], o, p);
    }
  }

  lemma {:induction false} SortedRaised(a: seq<Observation>, b: seq<Observation>)
    requires Raised(a, b)
    ensures Raised(Sorted(a), Sorted(b))
  {
    hide Insert;
    hide RaisedOne;
    if a != [] {
      var n := |a| - 1;
      SortedRaised(a[..n], b[..n]);
      InsertRaised(Sorted(a[..n]), Sorted(b[..n]), a[n], b[n]);
    }
  }

  lemma {:induction false} WithStatusRaised(a: seq<Observation>, b: seq<Observation>, status: DiagnosticStatus)
    requires Raised(a, b)
    ensures Raised(WithStatus(a, status), WithStatus(b, status))
  {
    if a != [] {
      var n := |a| - 1;
      assert RaisedOne(a[n], b[n]);
      WithStatusRaised(a[..n], b[..n], status);
      hide RaisedOne;
      RaisedConcat(WithStatus(a[..n], status), WithStatus(b[..n], status),
                   if a[n].status == status then [a[n]] else [], if b[n].status == status then [b[n]] else []);
    }
  }

  predicate RaisedOption(a: Option<Observation>, b: Option<Observation>) {
    a.Some? == b.Some? && (a.Some? ==> RaisedOne(a.value, b.value))
  }

  lemma {:induction false} FirstRaised(a: seq<Observation>, b: seq<Observation>, role: Role)
    requires Raised(a, b)
    ensures RaisedOption(FirstOf(a, role), FirstOf(b, role))
  {
    if a != [] {
      assert RaisedOne(a[0], b[0]);
      FirstRaised(a[1..], b[1..], role);
    }
  }

  predicate RaisedDecision(x: Decision, y: Decision) {
    x.localization == y.localization && x.base == y.base && Raised(x.drivers, y.drivers) && x.base > 0.0
  }

  lemma DegradedRaised(g: seq<Observation>, g': seq<Observation>)
    requires Raised(g, g')
    ensures RaisedDecision(DecideDegraded(g), DecideDegraded(g'))
  {
    assert g != [] ==> RaisedOne(g[0], g'[0]);
  }

  lemma BeyondRaised(d: Observation, s: Option<Observation>, t: Option<Observation>, u: seq<Observation>,
                     d': Observation, s': Option<Observation>, t': Option<Observation>, u': seq<Observation>)
    requires RaisedOne(d, d') && RaisedOption(s, s') && RaisedOption(t, t') && Raised(u, u')
    ensures RaisedDecision(DecideBeyondTarget(d, s, t, u), DecideBeyondTarget(d', s', t', u'))
  {
    assert Failed(s) == Failed(s') && Failed(t) == Failed(t');
    hide RaisedOne;
    RaisedConcat([d], [d'], u, u');
    var x, y := DecideBeyondTarget(d, s, t, u), DecideBeyondTarget(d', s', t', u');
    assert x.localization == y.localization && x.base == y.base;
  }

  lemma OutsideRaised(u: seq<Observation>, r: seq<Observation>, a: seq<Observation>,
                      u': seq<Observation>, r': seq<Observation>, a': seq<Observation>)
    requires Raised(u, u') && Raised(r, r') && Raised(a, a')
    ensures RaisedDecision(DecideFromOutside(u, r, a), DecideFromOutside(u', r', a'))
  {
    assert u != [] ==> RaisedOne(u[0], u'[0]);
    RaisedConcat(u, u', r, r');
  }

  lemma DecideRaised(d: Option<Observation>, s: Option<Observation>, t: Option<Observation>,
                     u: seq<Observation>, g: seq<Observation>, r: seq<Observation>, a: seq<Observation>,
                     d': Option<Observation>, s': Option<Observation>, t': Option<Observation>,
                     u': seq<Observation>, g': seq<Observation>, r': seq<Observation>, a': seq<Observation>)
    requires RaisedOption(d, d') && RaisedOption(s, s') && RaisedOption(t, t')
    requires Raised(u, u') && Raised(g, g') && Raised(r, r') && Raised(a, a')
    ensures RaisedDecision(Decide(d, s, t, u, g, r, a), Decide(d', s', t', u', g', r', a'))
  {
    hide DecideDegraded;
    hide DecideBeyondTarget;
    hide DecideFromOutside;
    DegradedRaised(g, g');
    OutsideRaised(u, r, a, u', r', a');
    assert Failed(d) == Failed(d');
    if d.Some? {
      BeyondRaised(d.value, s, t, u, d'.value, s', t', u');
      RaisedConcat([d.value], [d'.value], u, u');
    }
    assert (u == []) == (u' == []) && (g == []) == (g' == []);
    hide RaisedOne;
  }

  lemma DecisionRaised(a: seq<Observation>, b: seq<Observation>)
    requires Raised(a, b)
    ensures RaisedDecision(DecisionFor(a), DecisionFor(b))
  {
    hide Raised;
    hide RaisedDecision;
    hide RaisedOption;
    hide Decide;
    hide WithStatus;
    hide FirstOf;
    FirstRaised(a, b, Destination);
    FirstRaised(a, b, Source);
    FirstRaised(a, b, Third);
    WithStatusRaised(a, b, StatusFailed);
    WithStatusRaised(a, b, StatusDegraded);
    WithStatusRaised(a, b, StatusHealthy);
    DecideRaised(FirstOf(a, Destination), FirstOf(a, Source), FirstOf(a, Third),
                 WithStatus(a, StatusFailed), WithStatus(a, StatusDegraded), WithStatus(a, StatusHealthy), a,
                 FirstOf(b, Destination), FirstOf(b, Source), FirstOf(b, Third),
                 WithStatus(b, StatusFailed), WithStatus(b, StatusDegraded), WithStatus(b, StatusHealthy), b);
  }

  lemma {:induction false} TotalRaised(a: seq<Observation>, b: seq<Observation>)
    requires Raised(a, b)
    ensures Total(a) <= Total(b)
  {
    if a != [] {
      var n := |a| - 1;
      assert RaisedOne(a[n], b[n]);
      TotalRaised(a[..n], b[..n]);
    }
  }

  lemma DivideMonotone(x: real, y: real, n: real)
    requires x <= y && n > 0.0
    ensures x / n <= y / n
  {
  }

  lemma ScaleMonotone(base: real, x: real, y: real)
    requires x <= y && base > 0.0
    ensures Scaled(base, x) <= Scaled(base, y)
  {
    var p, q := 0.6 + 0.4 * x, 0.6 + 0.4 * y;
    assert p <= q;
    assert base * (q - p) >= 0.0;
  }

  lemma FactorRaised(a: seq<Observation>, b: seq<Observation>)
    requires Raised(a, b)
    ensures EvidenceFactor(a) <= EvidenceFactor(b)
  {
    TotalRaised(a, b);
    if a != [] {
      DivideMonotone(Total(a), Total(b), |a| as real);
    }
  }

  lemma ConfidenceOfRaised(a: Decision, b: Decision)
    requires RaisedDecision(a, b)
    ensures ConfidenceFor(a) <= ConfidenceFor(b)
  {
    hide Clamp;
    hide EvidenceFactor;
    hide Scaled;
    FactorRaised(a.drivers, b.drivers);
    ScaleMonotone(a.base, EvidenceFactor(a.drivers), EvidenceFactor(b.drivers));
    ClampMonotone(Scaled(a.base, EvidenceFactor(a.drivers)), Scaled(b.base, EvidenceFactor(b.drivers)));
  }

  // More confident observations never make the verdict another one or less confident.
  lemma ConfidenceNeverDrops(a: seq<Observation>, b: seq<Observation>)
    requires Raised(a, b)
    ensures LocalizeFault(a).confidence <= LocalizeFault(b).confidence
    ensures LocalizeFault(a).localization == LocalizeFault(b).localization
  {
    SortedRaised(a, b);
    DecisionRaised(Sorted(a), Sorted(b));
    hide Sorted;
    hide DecisionFor;
    ConfidenceOfRaised(DecisionFor(Sorted(a)), DecisionFor(Sorted(b)));
    hide ConfidenceFor;
    hide Links;
  }
}
