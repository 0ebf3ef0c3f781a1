// What a GETNEXT walk returns from an agent's table: RFC 3416 section 4.2.2.
module Mib {
  import opened Results
  import opened Bytes
  import opened Dotted
  import opened Asn1

  // ---------- Lexicographic order of object identifiers ----------

  predicate Less(a: Arcs, b: Arcs) {
    b != [] && (a == [] || a[0] < b[0] || (a[0] == b[0] && Less(a[1..], b[1..])))
  }

  lemma {:induction false} LessTransitive(a: Arcs, b: Arcs, c: Arcs)
    requires Less(a, b) && Less(b, c)
    ensures Less(a, c)
  {
    if a != [] && a[0] == b[0] == c[0] {
      LessTransitive(a[1..], b[1..], c[1..]);
    }
  }

  lemma {:induction false} LessIrreflexive(a: Arcs)
    ensures !Less(a, a)
  {
    if a != [] {
      LessIrreflexive(a[1..]);
    }
  }

  // a comes first if it is a proper beginning of b, or its arc is the smaller one where they first differ.
  lemma {:induction false} LessMeans(a: Arcs, b: Arcs)
    ensures Less(a, b) <==> exists k ::
      0 <= k <= |a| && k < |b| && a[..k] == b[..k] && (k == |a| || a[k] < b[k])
  {
    forall k | 0 < k <= |a| && k < |b| && a[..k] == b[..k]
      ensures a[0] == b[0]
    {
      assert a[0] == a[..k][0] == b[..k][0] == b[0];
    }
    if a != [] && b != [] && a[0] == b[0] {
      LessMeans(a[1..], b[1..]);
      if Less(a, b) {
        var k :| 0 <= k <= |a[1..]| && k < |b[1..]| && a[1..][..k] == b[1..][..k]
          && (k == |a[1..]| || a[1..][k] < b[1..][k]);
        assert a[..k + 1] == [a[0]] + a[1..][..k] && b[..k + 1] == [b[0]] + b[1..][..k];
        assert a[..k + 1] == b[..k + 1];
      }
      if k :| 0 <= k <= |a| && k < |b| && a[..k] == b[..k] && (k == |a| || a[k] < b[k]) {
        assert k > 0;
        assert a[1..][..k - 1] == a[..k][1..] && b[1..][..k - 1] == b[..k][1..];
      }
    } else {
      assert a[..0] == b[..0];
    }
  }

  // Everything strictly under an OID is greater than it.
  lemma {:induction false} UnderIsGreater(base: Arcs, oid: Arcs)
    requires Under(base, oid)
    ensures Less(base, oid)
  {
    if base != [] {
      assert oid[..|base|][0] == base[0] == oid[0];
      assert oid[1..][..|base| - 1] == oid[..|base|][1..];
      UnderIsGreater(base[1..], oid[1..]);
    }
  }

  // A subtree is contiguous: what lies between the base and a member is a member.
  lemma {:induction false} SubtreeContiguous(base: Arcs, x: Arcs, y: Arcs)
    requires Less(base, x) && Less(x, y) && Under(base, y)
    ensures Under(base, x)
  {
    if base == [] {
    } else {
      assert y[..|base|][0] == base[0] == y[0];
      assert y[1..][..|base| - 1] == y[..|base|][1..];
      assert x[0] == base[0];
      SubtreeContiguous(base[1..], x[1..], y[1..]);
      assert x[..|base|] == [x[0]] + x[1..][..|base| - 1];
      assert base == [base[0]] + base[1..];
    }
  }

  // ---------- The agent's table ----------

  datatype Entry = Entry(oid: Arcs, tag: byte, body: bytes) {
    function Value(): Scalar {
      DecodeValue(tag, body)
    }
  }

  predicate Ascending(t: seq<Entry>) {
    forall i, j :: 0 <= i < j < |t| ==> Less(t[i].oid, t[j].oid)
  }

  // The first entry after oid, or |t|.
  function Successor(t: seq<Entry>, oid: Arcs): (k: nat)
    ensures k <= |t|
    ensures forall i :: 0 <= i < k ==> !Less(oid, t[i].oid)
    ensures k < |t| ==> Less(oid, t[k].oid)
  {
    if t == [] || Less(oid, t[0].oid) then 0
    else
      var k := Successor(t[1..], oid);
      assert forall i :: 0 < i < k + 1 ==> t[i] == t[1..][i - 1];
      k + 1
  }

  lemma SuccessorOfEntry(t: seq<Entry>, i: nat)
    requires Ascending(t) && i < |t|
    ensures Successor(t, t[i].oid) == i + 1
  {
    hide Successor;
    hide Less;
    var k := Successor(t, t[i].oid);
    LessIrreflexive(t[i].oid);
    InOrder(t, i, if k < i then k else i + 1);
    hide Ascending;
    if k < i {
      LessTransitive(t[i].oid, t[k].oid, t[i].oid);
    }
  }

  lemma InOrder(t: seq<Entry>, i: nat, j: nat)
    requires Ascending(t)
    ensures i < j < |t| ==> Less(t[i].oid, t[j].oid)
    ensures j < i < |t| ==> Less(t[j].oid, t[i].oid)
  {
  }

  // The varbind a GETNEXT for oid is answered with.
  function NextBinding(t: seq<Entry>, oid: Arcs): (Arcs, Scalar) {
    var k := Successor(t, oid);
    if k < |t| then (t[k].oid, t[k].Value()) else (oid, Text(END_OF_MIB_VIEW_TEXT))
  }

  // ---------- The loop of walk against the table ----------

  predicate IsException(v: Scalar) {
    v == Text(NO_SUCH_OBJECT_TEXT) || v == Text(NO_SUCH_INSTANCE_TEXT)
  }

  function Keep(out: map<string, Scalar>, base: Arcs, e: Entry): map<string, Scalar>
    requires Under(base, e.oid)
  {
    if IsException(e.Value()) then out else out[Render(e.oid[|base|..]) := e.Value()]
  }

  function TableWalk(t: seq<Entry>, base: Arcs, current: Arcs, left: nat, out: map<string,
                     Scalar>): Result<map<string, Scalar>>
    decreases left
  {
    if left == 0 then Err(SnmpError)
    else
      var k := Successor(t, current);
      if k == |t| || t[k].Value() == Text(END_OF_MIB_VIEW_TEXT) || !Under(base, t[k].oid) then Ok(out)
      else TableWalk(t, base, t[k].oid, left - 1, Keep(out, base, t[k]))
  }

  // ---------- What it should return ----------

  // All instances strictly under base, by index suffix.
  function Subtree(t: seq<Entry>, base: Arcs): map<string, Scalar> {
    if t == [] then map[]
    else
      var init, last := t[..|t| - 1], t[|t| - 1];
      if Under(base, last.oid) then Subtree(init, base)[Render(last.oid[|base|..]) := last.Value()]
      else Subtree(init, base)
  }

  function Count(t: seq<Entry>, base: Arcs): nat {
    if t == [] then 0 else Count(t[..|t| - 1], base) + (if Under(base, t[|t| - 1].oid) then 1 else 0)
  }

  // No instance under base reads as one of the three exception names.
  predicate NoSentinel(t: seq<Entry>, base: Arcs) {
    forall i :: 0 <= i < |t| && Under(base, t[i].oid) ==>
      !IsException(t[i].Value()) && t[i].Value() != Text(END_OF_MIB_VIEW_TEXT)
  }

  // ---------- Walk completeness ----------

  // Between the start of the subtree and entry k there are only members.
  predicate AtEntry(t: seq<Entry>, base: Arcs, k: nat) {
    && Ascending(t) && k <= |t|
    && (forall i :: 0 <= i < k && Less(base, t[i].oid) ==> Under(base, t[i].oid))
    && (k < |t| ==> Less(base, t[k].oid))
  }

  lemma StartAt(t: seq<Entry>, base: Arcs)
    requires Ascending(t)
    ensures AtEntry(t, base, Successor(t, base))
    ensures Subtree(t[..Successor(t, base)], base) == map[]
    ensures Count(t[..Successor(t, base)], base) == 0
  {
    NothingBefore(t, base, Successor(t, base));
  }

  lemma {:induction false} NothingBefore(t: seq<Entry>, base: Arcs, k: nat)
    requires k <= Successor(t, base)
    ensures Subtree(t[..k], base) == map[] && Count(t[..k], base) == 0
  {
    if k > 0 {
      assert t[..k][..k - 1] == t[..k - 1];
      NothingBefore(t, base, k - 1);
      if Under(base, t[k - 1].oid) {
        UnderIsGreater(base, t[k - 1].oid);
      }
    }
  }

  lemma GrowsByMember(t: seq<Entry>, base: Arcs, k: nat)
    requires k < |t|
    ensures t[..k + 1][..k] == t[..k]
    ensures Count(t[..k + 1], base) == Count(t[..k], base) + (if Under(base, t[k].oid) then 1 else 0)
    ensures Subtree(t[..k + 1], base) ==
      if Under(base, t[k].oid) then Subtree(t[..k], base)[Render(t[k].oid[|base|..]) := t[k].Value()]
      else Subtree(t[..k], base)
  {
    assert t[..k + 1][..k] == t[..k];
  }

  // After a non-member nothing more is under base.
  lemma {:induction false} NothingAfter(t: seq<Entry>, base: Arcs, k: nat, n: nat)
    requires AtEntry(t, base, k) && k <= n <= |t|
    requires k < |t| ==> !Under(base, t[k].oid)
    ensures Subtree(t[..n], base) == Subtree(t[..k], base)
    ensures Count(t[..n], base) == Count(t[..k], base)
    decreases n
  {
    if n > k {
      NothingAfter(t, base, k, n - 1);
      GrowsByMember(t, base, n - 1);
      if Under(base, t[n - 1].oid) {
        assert n - 1 > k;
        SubtreeContiguous(base, t[k].oid, t[n - 1].oid);
      }
    }
  }

  lemma NextAt(t: seq<Entry>, base: Arcs, k: nat)
    requires AtEntry(t, base, k) && k < |t| && Under(base, t[k].oid)
    ensures AtEntry(t, base, k + 1)
  {
    if k + 1 < |t| {
      LessTransitive(base, t[k].oid, t[k + 1].oid);
    }
  }

  lemma {:induction false} CountGrows(t: seq<Entry>, base: Arcs, k: nat)
    requires k <= |t|
    ensures Count(t[..k], base) <= Count(t, base)
    decreases |t| - k
  {
    if k < |t| {
      GrowsByMember(t, base, k);
      CountGrows(t, base, k + 1);
    } else {
      assert t[..k] == t;
    }
  }

  // From entry k on, with everything before it collected.
  lemma {:induction false} WalkFromEntry(t: seq<Entry>, base: Arcs, current: Arcs, k: nat, left: nat)
    requires AtEntry(t, base, k) && k == Successor(t, current) && NoSentinel(t, base)
    ensures TableWalk(t, base, current, left, Subtree(t[..k], base)) ==
      if Count(t, base) - Count(t[..k], base) < left then Ok(Subtree(t, base)) else Err(SnmpError)
    decreases left
  {
    hide Render;
    hide DecodeValue;
    assert t[..|t|] == t;
    CountGrows(t, base, k);
    if left > 0 {
      if k == |t| || !Under(base, t[k].oid) {
        NothingAfter(t, base, k, |t|);
        hide Subtree;
      } else {
        SuccessorOfEntry(t, k);
        NextAt(t, base, k);
        GrowsByMember(t, base, k);
        WalkFromEntry(t, base, t[k].oid, k + 1, left - 1);
      }
    }
  }

  // Against any agent answering GETNEXT with the successor in a fixed table none of whose
  // values under base reads as an exception name, the walk returns exactly the instances
  // under base when there are fewer than maxOids of them, and raises otherwise.
  lemma WalkComplete(t: seq<Entry>, base: Arcs, maxOids: nat)
    requires Ascending(t) && NoSentinel(t, base)
    ensures TableWalk(t, base, base, maxOids, map[]) ==
      if Count(t, base) < maxOids then Ok(Subtree(t, base)) else Err(SnmpError)
  {
    hide *;
    StartAt(t, base);
    WalkFromEntry(t, base, base, Successor(t, base), maxOids);
  }

  // ---------- The sentinel values ----------

  // Every instance under base has its own key in the subtree table.
  lemma {:induction false} SubtreeHas(t: seq<Entry>, base: Arcs, i: nat, n: nat)
    requires i < n <= |t| && Under(base, t[i].oid)
    ensures Render(t[i].oid[|base|..]) in Subtree(t[..n], base)
    decreases n
  {
    hide Render;
    GrowsByMember(t, base, n - 1);
    if i < n - 1 {
      SubtreeHas(t, base, i, n - 1);
    }
  }

  // A key the walk has once returned names an instance it has passed.
  predicate Passed(t: seq<Entry>, base: Arcs, key: string, k: nat) {
    exists i :: 0 <= i < k && i < |t| && Under(base, t[i].oid) && Render(t[i].oid[|base|..]) == key
      && !IsException(t[i].Value()) && t[i].Value() != Text(END_OF_MIB_VIEW_TEXT)
  }

  lemma {:induction false} WalkReturnsPassed(t: seq<Entry>, base: Arcs, current: Arcs, k: nat, left: nat,
                                             out: map<string, Scalar>)
    requires Ascending(t) && k == Successor(t, current)
    requires forall key :: key in out ==> Passed(t, base, key, k)
    ensures var r := TableWalk(t, base, current, left, out);
      r.Ok? ==> forall key :: key in r.value ==> Passed(t, base, key, |t|)
    decreases left
  {
    hide Render;
    hide DecodeValue;
    if left > 0 && k < |t| && t[k].Value() != Text(END_OF_MIB_VIEW_TEXT) && Under(base, t[k].oid) {
      SuccessorOfEntry(t, k);
      var more := Keep(out, base, t[k]);
      forall key | key in more
        ensures Passed(t, base, key, k + 1)
      {
        if key in out {
          var i :| 0 <= i < k && i < |t| && Under(base, t[i].oid) && Render(t[i].oid[|base|..]) == key
            && !IsException(t[i].Value()) && t[i].Value() != Text(END_OF_MIB_VIEW_TEXT);
        }
      }
      WalkReturnsPassed(t, base, t[k].oid, k + 1, left - 1, more);
    } else {
      forall key | key in out
        ensures Passed(t, base, key, |t|)
      {
        var i :| 0 <= i < k && i < |t| && Under(base, t[i].oid) && Render(t[i].oid[|base|..]) == key
          && !IsException(t[i].Value()) && t[i].Value() != Text(END_OF_MIB_VIEW_TEXT);
      }
    }
  }

  lemma SameSuffix(t: seq<Entry>, base: Arcs, i: nat, j: nat)
    requires Ascending(t) && i < |t| && j < |t| && Under(base, t[i].oid) && Under(base, t[j].oid)
    requires Render(t[i].oid[|base|..]) == Render(t[j].oid[|base|..])
    ensures i == j
  {
    hide Render;
    RenderInjective(t[i].oid[|base|..], t[j].oid[|base|..]);
    assert t[i].oid == base + t[i].oid[|base|..] && t[j].oid == base + t[j].oid[|base|..];
    LessIrreflexive(t[i].oid);
  }

  // Because decode_value folds the exceptions into ordinary strings, the walk is complete exactly
  // when no value under base spells one of them (and the table is short enough).
  lemma WalkCompleteIff(t: seq<Entry>, base: Arcs, maxOids: nat)
    requires Ascending(t)
    ensures TableWalk(t, base, base, maxOids, map[]) == Ok(Subtree(t, base)) <==>
      (NoSentinel(t, base) && Count(t, base) < maxOids)
  {
    hide Render;
    hide DecodeValue;
    if NoSentinel(t, base) {
      WalkComplete(t, base, maxOids);
    } else {
      var j :| 0 <= j < |t| && Under(base, t[j].oid)
        && (IsException(t[j].Value()) || t[j].Value() == Text(END_OF_MIB_VIEW_TEXT));
      assert t[..|t|] == t;
      SubtreeHas(t, base, j, |t|);
      WalkReturnsPassed(t, base, base, Successor(t, base), maxOids, map[]);
      var key := Render(t[j].oid[|base|..]);
      if Passed(t, base, key, |t|) {
        var i :| 0 <= i < |t| && Under(base, t[i].oid) && Render(t[i].oid[|base|..]) == key
          && !IsException(t[i].Value()) && t[i].Value() != Text(END_OF_MIB_VIEW_TEXT);
        SameSuffix(t, base, i, j);
      }
    }
  }

  // The table read declaratively: one key per instance under base, carrying that instance's value.
  lemma {:induction false} SubtreeMeaning(t: seq<Entry>, base: Arcs, n: nat)
    requires Ascending(t) && n <= |t|
    ensures forall i :: 0 <= i < n && Under(base, t[i].oid) ==>
      Render(t[i].oid[|base|..]) in Subtree(t[..n], base)
      && Subtree(t[..n], base)[Render(t[i].oid[|base|..])] == t[i].Value()
    ensures forall key :: key in Subtree(t[..n], base) ==>
      exists i :: 0 <= i < n && Under(base, t[i].oid) && Render(t[i].oid[|base|..]) == key
    decreases n
  {
    hide Render;
    hide DecodeValue;
    if n > 0 {
      SubtreeMeaning(t, base, n - 1);
      GrowsByMember(t, base, n - 1);
      hide Subtree;
      if Under(base, t[n - 1].oid) {
        forall i | 0 <= i < n - 1 && Under(base, t[i].oid)
          ensures Render(t[i].oid[|base|..]) != Render(t[n - 1].oid[|base|..])
        {
          if Render(t[i].oid[|base|..]) == Render(t[n - 1].oid[|base|..]) {
            SameSuffix(t, base, i, n - 1);
          }
        }
      }
    }
  }

  // A counterexample to unconditional completeness: an ordinary string value that
  // spells END_OF_MIB_VIEW_TEXT ends the walk before its instance is collected.
  lemma SentinelHidesInstance(maxOids: nat)
    requires maxOids > 0
    ensures var t := [Entry([1, 3, 1], OCTET_STRING, END_OF_MIB_VIEW_TEXT)];
      Ascending(t) && TableWalk(t, [1, 3], [1, 3], maxOids, map[]) == Ok(map[]) && Subtree(t, [1, 3]) != map[]
  {
    var e := Entry([1, 3, 1], OCTET_STRING, END_OF_MIB_VIEW_TEXT);
    var t := [e];
    assert [1, 3] == [1, 3, 1][..2];
    assert Under([1, 3], [1, 3, 1]);
    UnderIsGreater([1, 3], [1, 3, 1]);
    assert Successor(t, [1, 3]) == 0;
    assert e.Value() == Text(END_OF_MIB_VIEW_TEXT);
    hide Render;
    assert t[..|t| - 1] == [] && t[|t| - 1] == e;
    assert Render([1, 3, 1][2..]) in Subtree(t, [1, 3]);
  }
}
