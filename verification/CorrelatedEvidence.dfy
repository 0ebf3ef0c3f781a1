// Of all the telemetry that speaks for a binding, which it shows: the last to match, of each kind.
module CorrelatedEvidence {
  import opened Results
  import opened TextOrder
  import opened Topology
  import opened Augmentation
  import opened Correlation

  // ---------- The last to match ----------

  predicate LastNeighbor(nbs: seq<Neighbor>, hosts: seq<Host>, id: string, ev: LldpEvidence) {
    exists j :: 0 <= j < |nbs| && FromNeighbor(hosts, id, nbs[j], ev)
      && forall m :: j < m < |nbs| ==> !ShownTo(hosts, id, nbs[m])
  }

  predicate FromEntry(hosts: seq<Host>, id: string, e: MacEntry, ev: MacEvidence) {
    LearnedFor(hosts, id, e) && e.mac.Some? && ev == MacFrom(e)
  }

  predicate LastEntry(es: seq<MacEntry>, hosts: seq<Host>, id: string, ev: MacEvidence) {
    exists j :: 0 <= j < |es| && FromEntry(hosts, id, es[j], ev)
      && forall m :: j < m < |es| ==> !LearnedFor(hosts, id, es[m])
  }

  predicate ShownLast(t: Telemetry, hosts: seq<Host>, key: Key, ev: LldpEvidence) {
    t.nodeId == key.1 && LastNeighbor(t.lldp, hosts, key.0, ev)
  }

  predicate LearnedLast(t: Telemetry, hosts: seq<Host>, key: Key, ev: MacEvidence) {
    t.nodeId == key.1 && LastEntry(t.macTable, hosts, key.0, ev)
  }

  // Of the last capture of the switch in which a neighbor matched, the last such neighbor.
  predicate LatestLldp(switches: seq<Telemetry>, hosts: seq<Host>, key: Key, ev: LldpEvidence) {
    exists i :: 0 <= i < |switches| && ShownLast(switches[i], hosts, key, ev)
      && forall m :: i < m < |switches| ==> !NeighborSeen(switches[m], hosts, key)
  }

  predicate LatestMac(switches: seq<Telemetry>, hosts: seq<Host>, key: Key, ev: MacEvidence) {
    exists i :: 0 <= i < |switches| && LearnedLast(switches[i], hosts, key, ev)
      && forall m :: i < m < |switches| ==> !EntrySeen(switches[m], hosts, key)
  }

  lemma LastNeighborSnoc(nbs: seq<Neighbor>, hosts: seq<Host>, id: string, ev: LldpEvidence)
    requires nbs != []
    ensures FromNeighbor(hosts, id, nbs[|nbs| - 1], ev) ==> LastNeighbor(nbs, hosts, id, ev)
    ensures !ShownTo(hosts, id, nbs[|nbs| - 1]) && LastNeighbor(nbs[..|nbs| - 1], hosts, id, ev)
      ==> LastNeighbor(nbs, hosts, id, ev)
  {
    hide ShownTo;
    hide FromNeighbor;
    var n := |nbs| - 1;
    if !ShownTo(hosts, id, nbs[n]) && LastNeighbor(nbs[..n], hosts, id, ev) {
      var j :| 0 <= j < n && FromNeighbor(hosts, id, nbs[..n][j], ev)
        && forall m :: j < m < n ==> !ShownTo(hosts, id, nbs[..n][m]);
      forall m | j < m < |nbs|
        ensures !ShownTo(hosts, id, nbs[m])
      {
        assert m < n ==> nbs[..n][m] == nbs[m];
      }
      assert FromNeighbor(hosts, id, nbs[j], ev);
    }
  }

  lemma LastEntrySnoc(es: seq<MacEntry>, hosts: seq<Host>, id: string, ev: MacEvidence)
    requires es != []
    ensures FromEntry(hosts, id, es[|es| - 1], ev) ==> LastEntry(es, hosts, id, ev)
    ensures !LearnedFor(hosts, id, es[|es| - 1]) && LastEntry(es[..|es| - 1], hosts, id, ev)
      ==> LastEntry(es, hosts, id, ev)
  {
    hide LearnedFor;
    hide FromEntry;
    var n := |es| - 1;
    if !LearnedFor(hosts, id, es[n]) && LastEntry(es[..n], hosts, id, ev) {
      var j :| 0 <= j < n && FromEntry(hosts, id, es[..n][j], ev)
        && forall m :: j < m < n ==> !LearnedFor(hosts, id, es[..n][m]);
      forall m | j < m < |es|
        ensures !LearnedFor(hosts, id, es[m])
      {
        assert m < n ==> es[..n][m] == es[m];
      }
      assert FromEntry(hosts, id, es[j], ev);
    }
  }

  lemma LatestLldpSnoc(switches: seq<Telemetry>, hosts: seq<Host>, key: Key, ev: LldpEvidence)
    requires switches != []
    ensures ShownLast(switches[|switches| - 1], hosts, key, ev) ==> LatestLldp(switches, hosts, key, ev)
    ensures !NeighborSeen(switches[|switches| - 1], hosts, key)
      ==> LatestLldp(switches[..|switches| - 1], hosts, key, ev) ==> LatestLldp(switches, hosts, key, ev)
  {
    hide NeighborSeen;
    hide ShownLast;
    var n := |switches| - 1;
    if !NeighborSeen(switches[n], hosts, key) && LatestLldp(switches[..n], hosts, key, ev) {
      var i :| 0 <= i < n && ShownLast(switches[..n][i], hosts, key, ev)
        && forall m :: i < m < n ==> !NeighborSeen(switches[..n][m], hosts, key);
      forall m | i < m < |switches|
        ensures !NeighborSeen(switches[m], hosts, key)
      {
        assert m < n ==> switches[..n][m] == switches[m];
      }
      assert ShownLast(switches[i], hosts, key, ev);
    }
  }

  lemma LatestMacSnoc(switches: seq<Telemetry>, hosts: seq<Host>, key: Key, ev: MacEvidence)
    requires switches != []
    ensures LearnedLast(switches[|switches| - 1], hosts, key, ev) ==> LatestMac(switches, hosts, key, ev)
    ensures !EntrySeen(switches[|switches| - 1], hosts, key)
      ==> LatestMac(switches[..|switches| - 1], hosts, key, ev) ==> LatestMac(switches, hosts, key, ev)
  {
    hide EntrySeen;
    hide LearnedLast;
    var n := |switches| - 1;
    if !EntrySeen(switches[n], hosts, key) && LatestMac(switches[..n], hosts, key, ev) {
      var i :| 0 <= i < n && LearnedLast(switches[..n][i], hosts, key, ev)
        && forall m :: i < m < n ==> !EntrySeen(switches[..n][m], hosts, key);
      forall m | i < m < |switches|
        ensures !EntrySeen(switches[m], hosts, key)
      {
        assert m < n ==> switches[..n][m] == switches[m];
      }
      assert LearnedLast(switches[i], hosts, key, ev);
    }
  }

  // ---------- The collected evidence ----------

  lemma {:induction false} NeighborsLeaveLast(partial: Partial, switchId: string, nbs: seq<Neighbor>,
                                              hosts: seq<Host>, key: Key)
    ensures var was, now := SlotOf(partial, key), SlotOf(AllLldp(partial, switchId, nbs, hosts), key);
      && now.mac == was.mac
      && (if key.1 == switchId && SomeNeighbor(nbs, hosts, key.0) then
            now.lldp.Some? && LastNeighbor(nbs, hosts, key.0, now.lldp.value)
          else now.lldp == was.lldp)
  {
    hide LastNeighbor;
    hide SlotOf;
    hide ShownTo;
    hide FromNeighbor;
    if nbs != [] {
      var n := |nbs| - 1;
      var rest := AllLldp(partial, switchId, nbs[..n], hosts);
      NeighborsLeaveLast(partial, switchId, nbs[..n], hosts, key);
      AddLldpIs(rest, switchId, nbs[n], hosts, key);
      SeenSnoc(nbs, hosts, key.0);
      hide SomeNeighbor;
      var now := SlotOf(AllLldp(partial, switchId, nbs, hosts), key);
      if now.lldp.Some? {
        LastNeighborSnoc(nbs, hosts, key.0, now.lldp.value);
      }
    }
  }

  lemma {:induction false} EntriesLeaveLast(partial: Partial, switchId: string, es: seq<MacEntry>,
                                            hosts: seq<Host>, key: Key)
    ensures var was, now := SlotOf(partial, key), SlotOf(AllMac(partial, switchId, es, hosts), key);
      && now.lldp == was.lldp
      && (if key.1 == switchId && SomeEntry(es, hosts, key.0) then
            now.mac.Some? && LastEntry(es, hosts, key.0, now.mac.value)
          else now.mac == was.mac)
  {
    hide LastEntry;
    hide SlotOf;
    hide LearnedFor;
    if es != [] {
      var n := |es| - 1;
      var rest := AllMac(partial, switchId, es[..n], hosts);
      EntriesLeaveLast(partial, switchId, es[..n], hosts, key);
      AddMacIs(rest, switchId, es[n], hosts, key);
      EntrySnoc(es, hosts, key.0);
      hide SomeEntry;
      var now := SlotOf(AllMac(partial, switchId, es, hosts), key);
      if now.mac.Some? {
        LastEntrySnoc(es, hosts, key.0, now.mac.value);
      }
    }
  }

  // The nested loops leave for each pair the last match of either kind.
  lemma {:induction false} LatestWins(switches: seq<Telemetry>, hosts: seq<Host>, key: Key)
    ensures var slot := SlotOf(Collect(switches, hosts), key);
      && (slot.lldp.Some? ==> LatestLldp(switches, hosts, key, slot.lldp.value))
      && (slot.mac.Some? ==> LatestMac(switches, hosts, key, slot.mac.value))
  {
    if switches != [] {
      hide SlotOf;
      hide SomeNeighbor;
      hide SomeEntry;
      hide LastNeighbor;
      hide LastEntry;
      hide LatestLldp;
      hide LatestMac;
      var n := |switches| - 1;
      var t := switches[n];
      LatestWins(switches[..n], hosts, key);
      var rest := Collect(switches[..n], hosts);
      NeighborsLeaveLast(rest, t.nodeId, t.lldp, hosts, key);
      EntriesLeaveLast(AllLldp(rest, t.nodeId, t.lldp, hosts), t.nodeId, t.macTable, hosts, key);
      var slot := SlotOf(Collect(switches, hosts), key);
      if slot.lldp.Some? {
        LatestLldpSnoc(switches, hosts, key, slot.lldp.value);
      }
      if slot.mac.Some? {
        LatestMacSnoc(switches, hosts, key, slot.mac.value);
      }
    }
  }

  // ---------- The bindings ----------

  // The identity and the port of the neighbor, and its sentence first.
  predicate ShowsNeighbor(b: Binding, ev: LldpEvidence) {
    b.identity == ev.identity && b.port == ev.port
    && |b.evidence| >= 1 && b.evidence[..1] == [LldpSentence(KeyOf(b), ev)]
  }

  // The index of the line, and its sentence; without a neighbor also its address and port.
  predicate ShowsEntry(b: Binding, ev: MacEvidence, shown: bool) {
    && b.ifIndex == ev.ifIndex
    && (shown ==> |b.evidence| >= 1 && b.evidence[1..] == [MacSentence(KeyOf(b), ev), BOTH_SENTENCE])
    && (!shown ==> b.identity == ev.identity && b.port == ev.port && b.evidence == [MacSentence(KeyOf(b), ev)])
  }

  // A binding shows the identity and the port of the last neighbor to match and the index of the last line to
  // match; without a neighbor those of the line. Its sentences are those of what it shows.
  lemma BindingShowsLatest(switches: seq<Telemetry>, hosts: seq<Host>, bs: seq<Binding>, i: nat)
    requires Filled(Collect(switches, hosts)) && BindingsOf(Collect(switches, hosts), bs) && i < |bs|
    ensures var shown, learned := AnyNeighbor(switches, hosts, KeyOf(bs[i])), AnyEntry(switches, hosts, KeyOf(bs[i]));
      && |bs[i].evidence| == (if shown && learned then 3 else 1)
      && (shown ==> exists ev :: LatestLldp(switches, hosts, KeyOf(bs[i]), ev) && ShowsNeighbor(bs[i], ev))
      && (learned ==> exists ev :: LatestMac(switches, hosts, KeyOf(bs[i]), ev) && ShowsEntry(bs[i], ev, shown))
      && (!learned ==> bs[i].ifIndex == None)
  {
    var key := KeyOf(bs[i]);
    LatestWins(switches, hosts, key);
    EvidenceIs(switches, hosts, key);
    hide Collect;
    hide AnyNeighbor;
    hide AnyEntry;
    hide LatestLldp;
    hide LatestMac;
    hide LldpSentence;
    hide MacSentence;
  }

  // ---------- What matching means ----------

  // The host of the ID shares an address with the neighbor, or else a name; the identity is the least they share.
  predicate SharedIdentity(h: Host, nb: Neighbor, identity: string, byMac: bool) {
    if exists m :: m in h.macs && m in nb.macs then byMac && LeastShared(identity, h.macs, nb.macs)
    else !byMac && LeastShared(identity, h.names, nb.names)
  }

  predicate LeastShared(identity: string, a: set<string>, b: set<string>) {
    identity in a && identity in b && forall other :: other in a && other in b && other != identity ==>
      Before(identity, other)
  }

  lemma EvidenceMeans(hosts: seq<Host>, id: string, nb: Neighbor, ev: LldpEvidence)
    requires FromNeighbor(hosts, id, nb, ev)
    ensures exists k :: 0 <= k < |hosts| && hosts[k].nodeId == id
                        && SharedIdentity(hosts[k], nb, ev.identity, ev.byMac) && ev.port == nb.port
  {
    hide LeastOf;
    var k :| 0 <= k < |hosts| && LldpBy(hosts[k], id, nb) && ev == LldpFrom(hosts[k], nb);
    var h := hosts[k];
    var macs, names := h.macs * nb.macs, h.names * nb.names;
    if macs != {} {
      LeastOfIs(macs);
      var m :| m in macs;
      assert m in h.macs && m in nb.macs;
      LeastIsShared(ev.identity, h.macs, nb.macs);
    } else {
      LeastOfIs(names);
      forall m
        ensures !(m in h.macs && m in nb.macs)
      {
        assert m !in macs;
      }
      LeastIsShared(ev.identity, h.names, nb.names);
    }
    assert SharedIdentity(h, nb, ev.identity, ev.byMac);
  }

  lemma LeastOfIs(keys: set<string>)
    requires keys != {}
    ensures Least(LeastOf(keys), keys)
  {
  }

  lemma LeastIsShared(identity: string, a: set<string>, b: set<string>)
    requires Least(identity, a * b)
    ensures LeastShared(identity, a, b)
  {
    forall other | other in a && other in b && other != identity
      ensures Before(identity, other)
    {
      assert other in a * b;
    }
  }

  predicate Shares(h: Host, nb: Neighbor, x: string) {
    (x in h.macs && x in nb.macs) || (x in h.names && x in nb.names)
  }

  // A neighbor is shown to a host of the ID exactly if they share an address or a name; a line is learned for it
  // exactly if its address is one of the host's.
  lemma MatchingMeans(hosts: seq<Host>, id: string, nb: Neighbor, e: MacEntry)
    ensures ShownTo(hosts, id, nb) <==>
      exists k, x :: 0 <= k < |hosts| && hosts[k].nodeId == id && Shares(hosts[k], nb, x)
    ensures LearnedFor(hosts, id, e) <==>
      exists k :: 0 <= k < |hosts| && hosts[k].nodeId == id && e.mac.Some? && e.mac.value in hosts[k].macs
  {
    if ShownTo(hosts, id, nb) {
      var k :| 0 <= k < |hosts| && LldpBy(hosts[k], id, nb);
      var x :| x in (if hosts[k].macs * nb.macs != {} then hosts[k].macs * nb.macs else hosts[k].names * nb.names);
      assert hosts[k].nodeId == id && Shares(hosts[k], nb, x);
    }
    if k, x :| 0 <= k < |hosts| && hosts[k].nodeId == id && Shares(hosts[k], nb, x) {
      assert x in hosts[k].macs * nb.macs || x in hosts[k].names * nb.names;
      assert LldpBy(hosts[k], id, nb);
    }
    if LearnedFor(hosts, id, e) {
      var k :| 0 <= k < |hosts| && MacBy(hosts[k], id, e);
      assert hosts[k].nodeId == id;
    }
    if k :| 0 <= k < |hosts| && hosts[k].nodeId == id && e.mac.Some? && e.mac.value in hosts[k].macs {
      assert MacBy(hosts[k], id, e);
    }
  }

  function LldpConfidence(byMac: bool): string {
    if byMac then "0.90" else "0.82"
  }

  // How sure a binding is: 0.95 for both kinds, 0.90 for a neighbor with a shared address, 0.82 for one with a shared
  // name only, 0.75 for a table line; and the method it names.
  lemma ConfidenceMeans(switches: seq<Telemetry>, hosts: seq<Host>, bs: seq<Binding>, i: nat)
    requires Filled(Collect(switches, hosts)) && BindingsOf(Collect(switches, hosts), bs) && i < |bs|
    ensures var shown, learned := AnyNeighbor(switches, hosts, KeyOf(bs[i])), AnyEntry(switches, hosts, KeyOf(bs[i]));
      && (shown && learned ==> bs[i].confidence == "0.95" && bs[i].correlation == "lldp_and_mac")
      && (!shown ==> bs[i].confidence == "0.75" && bs[i].correlation == "mac_table")
      && (!learned ==> bs[i].correlation == "lldp")
      && (!learned ==>
            exists ev :: LatestLldp(switches, hosts, KeyOf(bs[i]), ev) && bs[i].confidence == LldpConfidence(ev.byMac))
  {
    var key := KeyOf(bs[i]);
    LatestWins(switches, hosts, key);
    EvidenceIs(switches, hosts, key);
    hide Collect;
    hide AnyNeighbor;
    hide AnyEntry;
    hide LatestLldp;
    hide LatestMac;
    hide LldpSentence;
    hide MacSentence;
  }

  // ---------- Who is a host ----------

  // A node that is a host, an agent or a service, or names an agent, with the names and addresses found for it.
  predicate IsFor(n: Node, identify: Node -> (set<string>, set<string>), h: Host) {
    && (n.role in {HostNode, AgentNode, ServiceNode} || (n.agentId.Some? && n.agentId.value != ""))
    && h == Host(n.nodeId, identify(n).0, identify(n).1)
  }

  // The hosts are those of such nodes.
  lemma {:induction false} HostsAre(nodes: seq<Node>, identify: Node -> (set<string>, set<string>), h: Host)
    ensures h in Hosts(nodes, identify) <==> exists i :: 0 <= i < |nodes| && IsFor(nodes[i], identify, h)
  {
    if nodes != [] {
      var n := |nodes| - 1;
      HostsAre(nodes[..n], identify, h);
      if i :| 0 <= i < n && IsFor(nodes[..n][i], identify, h) {
        assert IsFor(nodes[i], identify, h);
      }
      if i :| 0 <= i < |nodes| && IsFor(nodes[i], identify, h) {
        assert i < n ==> IsFor(nodes[..n][i], identify, h);
      }
    }
  }
}
