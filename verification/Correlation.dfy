// Which switch port each host is on, from LLDP neighbors and MAC tables.
module Correlation {
  import opened Results
  import opened TextOrder
  import opened Topology
  import opened Augmentation

  // A host with the names and MAC addresses it goes by.
  datatype Host = Host(nodeId: string, names: set<string>, macs: set<string>)

  // An LLDP neighbor with the names and MAC address it shows.
  datatype Neighbor = Neighbor(names: set<string>, macs: set<string>, port: string)

  // A line of the MAC table, its numbers as texts; no address if it is not of MAC shape.
  datatype MacEntry = MacEntry(mac: Option<string>, bridgePort: string, ifIndex: Option<string>)

  datatype Telemetry = Telemetry(nodeId: string, lldp: seq<Neighbor>, macTable: seq<MacEntry>)

  // byMac tells an address match (confidence 0.90) from a name match (0.82).
  datatype LldpEvidence = LldpEvidence(identity: string, port: string, byMac: bool)

  datatype MacEvidence = MacEvidence(identity: string, port: string, ifIndex: Option<string>)

  datatype Slot = Slot(lldp: Option<LldpEvidence>, mac: Option<MacEvidence>)

  type Partial = map<Key, Slot>

  const NO_EVIDENCE := Slot(None, None)

  // ---------- The hosts ----------

  predicate IsHost(n: Node) {
    n.role == HostNode || n.role == AgentNode || n.role == ServiceNode || (n.agentId.Some? && n.agentId.value != "")
  }

  // The hosts of a graph; identify gives names and addresses of a node.
  function Hosts(nodes: seq<Node>, identify: Node -> (set<string>, set<string>)): seq<Host> {
    if nodes == [] then []
    else
      var n := |nodes| - 1;
      var rest := Hosts(nodes[..n], identify);
      if IsHost(nodes[n]) then rest + [Host(nodes[n].nodeId, identify(nodes[n]).0, identify(nodes[n]).1)] else rest
  }

  // ---------- The evidence ----------

  predicate LldpMatches(h: Host, nb: Neighbor) {
    h.macs * nb.macs != {} || h.names * nb.names != {}
  }

  predicate MacMatches(h: Host, e: MacEntry) {
    e.mac.Some? && e.mac.value in h.macs
  }

  // sorted(common)[0]
  function LeastOf(keys: set<string>): (key: string)
    requires keys != {}
    ensures Least(key, keys)
  {
    HasLeast(keys);
    OneLeast(keys);
    var key :| Least(key, keys);
    key
  }

  lemma OneLeast(keys: set<string>)
    ensures forall a, b :: Least(a, keys) && Least(b, keys) ==> a == b
  {
    forall a, b | Least(a, keys) && Least(b, keys)
      ensures a == b
    {
      if a != b {
        BeforeTransitive(a, b, a);
        BeforeIrreflexive(a);
      }
    }
  }

  function LldpFrom(h: Host, nb: Neighbor): LldpEvidence
    requires LldpMatches(h, nb)
  {
    if h.macs * nb.macs != {} then LldpEvidence(LeastOf(h.macs * nb.macs), nb.port, true)
    else LldpEvidence(LeastOf(h.names * nb.names), nb.port, false)
  }

  function MacFrom(e: MacEntry): MacEvidence
    requires e.mac.Some?
  {
    MacEvidence(e.mac.value, PortOf(e), e.ifIndex)
  }

  function PortOf(e: MacEntry): string {
    if e.ifIndex.Some? then "ifIndex " + e.ifIndex.value else "bridge-port " + e.bridgePort
  }

  function SlotOf(partial: Partial, key: Key): Slot {
    if key in partial then partial[key] else NO_EVIDENCE
  }

  // One neighbor or table line against the hosts in order; a later one replaces what an earlier one left.
  function AddLldp(partial: Partial, switchId: string, nb: Neighbor, hosts: seq<Host>): Partial {
    if hosts == [] then partial
    else
      var n := |hosts| - 1;
      var rest := AddLldp(partial, switchId, nb, hosts[..n]);
      var key := (hosts[n].nodeId, switchId);
      if LldpMatches(hosts[n], nb) then rest[key := SlotOf(rest, key).(lldp := Some(LldpFrom(hosts[n], nb)))]
      else rest
  }

  function AddMac(partial: Partial, switchId: string, e: MacEntry, hosts: seq<Host>): Partial {
    if hosts == [] then partial
    else
      var n := |hosts| - 1;
      var rest := AddMac(partial, switchId, e, hosts[..n]);
      var key := (hosts[n].nodeId, switchId);
      if MacMatches(hosts[n], e) then rest[key := SlotOf(rest, key).(mac := Some(MacFrom(e)))] else rest
  }

  function AllLldp(partial: Partial, switchId: string, nbs: seq<Neighbor>, hosts: seq<Host>): Partial {
    if nbs == [] then partial
    else AddLldp(AllLldp(partial, switchId, nbs[..|nbs| - 1], hosts), switchId, nbs[|nbs| - 1], hosts)
  }

  function AllMac(partial: Partial, switchId: string, es: seq<MacEntry>, hosts: seq<Host>): Partial {
    if es == [] then partial
    else AddMac(AllMac(partial, switchId, es[..|es| - 1], hosts), switchId, es[|es| - 1], hosts)
  }

  function Collect(switches: seq<Telemetry>, hosts: seq<Host>): Partial {
    if switches == [] then map[]
    else
      var t := switches[|switches| - 1];
      AllMac(AllLldp(Collect(switches[..|switches| - 1], hosts), t.nodeId, t.lldp, hosts), t.nodeId, t.macTable, hosts)
  }

  // ---------- The bindings ----------

  function LldpSentence(key: Key, ev: LldpEvidence): string {
    "LLDP on switch " + key.1 + " port " + ev.port + " reports neighbor '" + ev.identity + "' matching node " + key.0
  }

  function MacSentence(key: Key, ev: MacEvidence): string {
    "MAC table on " + key.1 + ": " + ev.identity + " learned on " + ev.port
  }

  const BOTH_SENTENCE := "Corroborated by LLDP and MAC table"

  function BindingFor(key: Key, slot: Slot): Binding
    requires slot.lldp.Some? || slot.mac.Some?
  {
    if slot.lldp.Some? && slot.mac.Some? then
      var lldp, mac := slot.lldp.value, slot.mac.value;
      Binding(key.0, lldp.identity, key.1, lldp.port, mac.ifIndex, "lldp_and_mac", "0.95", Corroborated,
              [LldpSentence(key, lldp), MacSentence(key, mac), BOTH_SENTENCE])
    else if slot.lldp.Some? then
      var lldp := slot.lldp.value;
      Binding(key.0, lldp.identity, key.1, lldp.port, None, "lldp", if lldp.byMac then "0.90" else "0.82",
              SingleSource, [LldpSentence(key, lldp)])
    else
      var mac := slot.mac.value;
      Binding(key.0, mac.identity, key.1, mac.port, mac.ifIndex, "mac_table", "0.75", SingleSource,
              [MacSentence(key, mac)])
  }

  predicate KeyLess(a: Key, b: Key) {
    Before(a.0, b.0) || (a.0 == b.0 && Before(a.1, b.1))
  }

  predicate Filled(partial: Partial) {
    forall key :: key in partial ==> partial[key].lldp.Some? || partial[key].mac.Some?
  }

  // The bindings of the slots, one each, ascending by host and switch.
  predicate BindingsOf(partial: Partial, bs: seq<Binding>)
    requires Filled(partial)
  {
    && |bs| == |partial|
    && (forall i :: 0 <= i < |bs| ==>
          KeyOf(bs[i]) in partial && bs[i] == BindingFor(KeyOf(bs[i]), partial[KeyOf(bs[i])]))
    && (forall i, j :: 0 <= i < j < |bs| ==> KeyLess(KeyOf(bs[i]), KeyOf(bs[j])))
  }

  // ---------- What the evidence is ----------

  predicate LldpBy(h: Host, id: string, nb: Neighbor) {
    h.nodeId == id && LldpMatches(h, nb)
  }

  predicate MacBy(h: Host, id: string, e: MacEntry) {
    h.nodeId == id && MacMatches(h, e)
  }

  predicate ShownTo(hosts: seq<Host>, id: string, nb: Neighbor) {
    exists k :: 0 <= k < |hosts| && LldpBy(hosts[k], id, nb)
  }

  predicate LearnedFor(hosts: seq<Host>, id: string, e: MacEntry) {
    exists k :: 0 <= k < |hosts| && MacBy(hosts[k], id, e)
  }

  // The evidence is that of a host of this ID against this neighbor.
  predicate FromNeighbor(hosts: seq<Host>, id: string, nb: Neighbor, ev: LldpEvidence) {
    exists k :: 0 <= k < |hosts| && LldpBy(hosts[k], id, nb) && ev == LldpFrom(hosts[k], nb)
  }

  lemma ShownToSnoc(hosts: seq<Host>, id: string, nb: Neighbor)
    requires hosts != []
    ensures ShownTo(hosts, id, nb) <==>
      ShownTo(hosts[..|hosts| - 1], id, nb) || LldpBy(hosts[|hosts| - 1], id, nb)
    ensures forall ev :: FromNeighbor(hosts[..|hosts| - 1], id, nb, ev) ==> FromNeighbor(hosts, id, nb, ev)
  {
    hide LldpMatches;
    hide LldpFrom;
    var n := |hosts| - 1;
    if k :| 0 <= k < n && LldpBy(hosts[..n][k], id, nb) {
      assert LldpBy(hosts[k], id, nb);
    }
    if k :| 0 <= k < |hosts| && LldpBy(hosts[k], id, nb) {
      assert k < n ==> LldpBy(hosts[..n][k], id, nb);
    }
    forall ev | FromNeighbor(hosts[..n], id, nb, ev)
      ensures FromNeighbor(hosts, id, nb, ev)
    {
      var k :| 0 <= k < n && LldpBy(hosts[..n][k], id, nb) && ev == LldpFrom(hosts[..n][k], nb);
      assert LldpBy(hosts[k], id, nb);
    }
  }

  lemma {:induction false} AddLldpIs(partial: Partial, switchId: string, nb: Neighbor, hosts: seq<Host>, key: Key)
    ensures var was, now := SlotOf(partial, key), SlotOf(AddLldp(partial, switchId, nb, hosts), key);
      && now.mac == was.mac
      && (if key.1 == switchId && ShownTo(hosts, key.0, nb) then
            now.lldp.Some? && FromNeighbor(hosts, key.0, nb, now.lldp.value)
          else now.lldp == was.lldp)
    ensures Filled(partial) ==> Filled(AddLldp(partial, switchId, nb, hosts))
  {
    hide LldpMatches;
    hide LldpFrom;
    if hosts != [] {
      var n := |hosts| - 1;
      AddLldpIs(partial, switchId, nb, hosts[..n], key);
      ShownToSnoc(hosts, key.0, nb);
      if key == (hosts[n].nodeId, switchId) && LldpMatches(hosts[n], nb) {
        assert LldpBy(hosts[n], key.0, nb);
      }
    }
  }

  lemma LearnedForSnoc(hosts: seq<Host>, id: string, e: MacEntry)
    requires hosts != []
    ensures LearnedFor(hosts, id, e) <==>
      LearnedFor(hosts[..|hosts| - 1], id, e) || MacBy(hosts[|hosts| - 1], id, e)
  {
    hide MacBy;
    var n := |hosts| - 1;
    if k :| 0 <= k < n && MacBy(hosts[..n][k], id, e) {
      assert MacBy(hosts[k], id, e);
    }
    if k :| 0 <= k < |hosts| && MacBy(hosts[k], id, e) {
      assert k < n ==> MacBy(hosts[..n][k], id, e);
    }
  }

  lemma {:induction false} AddMacIs(partial: Partial, switchId: string, e: MacEntry, hosts: seq<Host>, key: Key)
    ensures var was, now := SlotOf(partial, key), SlotOf(AddMac(partial, switchId, e, hosts), key);
      && now.lldp == was.lldp
      && (if key.1 == switchId && LearnedFor(hosts, key.0, e) then e.mac.Some? && now.mac == Some(MacFrom(e))
          else now.mac == was.mac)
    ensures Filled(partial) ==> Filled(AddMac(partial, switchId, e, hosts))
  {
    if hosts != [] {
      var n := |hosts| - 1;
      AddMacIs(partial, switchId, e, hosts[..n], key);
      LearnedForSnoc(hosts, key.0, e);
    }
  }

  // ---------- Over all telemetry ----------

  predicate SomeNeighbor(nbs: seq<Neighbor>, hosts: seq<Host>, id: string) {
    exists j :: 0 <= j < |nbs| && ShownTo(hosts, id, nbs[j])
  }

  predicate SomeEntry(es: seq<MacEntry>, hosts: seq<Host>, id: string) {
    exists j :: 0 <= j < |es| && LearnedFor(hosts, id, es[j])
  }

  predicate NeighborSeen(t: Telemetry, hosts: seq<Host>, key: Key) {
    t.nodeId == key.1 && SomeNeighbor(t.lldp, hosts, key.0)
  }

  predicate EntrySeen(t: Telemetry, hosts: seq<Host>, key: Key) {
    t.nodeId == key.1 && SomeEntry(t.macTable, hosts, key.0)
  }

  lemma {:induction false} AllLldpIs(partial: Partial, switchId: string, nbs: seq<Neighbor>, hosts: seq<Host>, key: Key)
    ensures var was, now := SlotOf(partial, key), SlotOf(AllLldp(partial, switchId, nbs, hosts), key);
      && now.mac == was.mac
      && (now.lldp.Some? <==> was.lldp.Some? || NeighborSeen(Telemetry(switchId, nbs, []), hosts, key))
    ensures Filled(partial) ==> Filled(AllLldp(partial, switchId, nbs, hosts))
  {
    hide Filled;
    hide SlotOf;
    hide ShownTo;
    hide FromNeighbor;
    if nbs != [] {
      var n := |nbs| - 1;
      var rest := AllLldp(partial, switchId, nbs[..n], hosts);
      AllLldpIs(partial, switchId, nbs[..n], hosts, key);
      AddLldpIs(rest, switchId, nbs[n], hosts, key);
      SeenSnoc(nbs, hosts, key.0);
    }
  }

  lemma SeenSnoc(nbs: seq<Neighbor>, hosts: seq<Host>, id: string)
    requires nbs != []
    ensures SomeNeighbor(nbs, hosts, id) <==>
      SomeNeighbor(nbs[..|nbs| - 1], hosts, id) || ShownTo(hosts, id, nbs[|nbs| - 1])
  {
    hide ShownTo;
    var n := |nbs| - 1;
    if j :| 0 <= j < n && ShownTo(hosts, id, nbs[..n][j]) {
      assert ShownTo(hosts, id, nbs[j]);
    }
    if j :| 0 <= j < |nbs| && ShownTo(hosts, id, nbs[j]) {
      assert j < n ==> ShownTo(hosts, id, nbs[..n][j]);
    }
  }

  lemma {:induction false} AllMacIs(partial: Partial, switchId: string, es: seq<MacEntry>, hosts: seq<Host>, key: Key)
    ensures var was, now := SlotOf(partial, key), SlotOf(AllMac(partial, switchId, es, hosts), key);
      && now.lldp == was.lldp
      && (now.mac.Some? <==> was.mac.Some? || EntrySeen(Telemetry(switchId, [], es), hosts, key))
    ensures Filled(partial) ==> Filled(AllMac(partial, switchId, es, hosts))
  {
    hide Filled;
    hide SlotOf;
    hide LearnedFor;
    if es != [] {
      var n := |es| - 1;
      var rest := AllMac(partial, switchId, es[..n], hosts);
      AllMacIs(partial, switchId, es[..n], hosts, key);
      AddMacIs(rest, switchId, es[n], hosts, key);
      EntrySnoc(es, hosts, key.0);
    }
  }

  lemma EntrySnoc(es: seq<MacEntry>, hosts: seq<Host>, id: string)
    requires es != []
    ensures SomeEntry(es, hosts, id) <==>
      SomeEntry(es[..|es| - 1], hosts, id) || LearnedFor(hosts, id, es[|es| - 1])
  {
    hide LearnedFor;
    var n := |es| - 1;
    if j :| 0 <= j < n && LearnedFor(hosts, id, es[..n][j]) {
      assert LearnedFor(hosts, id, es[j]);
    }
    if j :| 0 <= j < |es| && LearnedFor(hosts, id, es[j]) {
      assert j < n ==> LearnedFor(hosts, id, es[..n][j]);
    }
  }

  predicate AnyNeighbor(switches: seq<Telemetry>, hosts: seq<Host>, key: Key) {
    exists i :: 0 <= i < |switches| && NeighborSeen(switches[i], hosts, key)
  }

  predicate AnyEntry(switches: seq<Telemetry>, hosts: seq<Host>, key: Key) {
    exists i :: 0 <= i < |switches| && EntrySeen(switches[i], hosts, key)
  }

  lemma AnySnoc(switches: seq<Telemetry>, hosts: seq<Host>, key: Key)
    requires switches != []
    ensures AnyNeighbor(switches, hosts, key) <==>
      AnyNeighbor(switches[..|switches| - 1], hosts, key) || NeighborSeen(switches[|switches| - 1], hosts, key)
    ensures AnyEntry(switches, hosts, key) <==>
      AnyEntry(switches[..|switches| - 1], hosts, key) || EntrySeen(switches[|switches| - 1], hosts, key)
  {
    hide NeighborSeen;
    hide EntrySeen;
    var n := |switches| - 1;
    if i :| 0 <= i < n && NeighborSeen(switches[..n][i], hosts, key) {
      assert NeighborSeen(switches[i], hosts, key);
    }
    if i :| 0 <= i < |switches| && NeighborSeen(switches[i], hosts, key) {
      assert i < n ==> NeighborSeen(switches[..n][i], hosts, key);
    }
    if i :| 0 <= i < n && EntrySeen(switches[..n][i], hosts, key) {
      assert EntrySeen(switches[i], hosts, key);
    }
    if i :| 0 <= i < |switches| && EntrySeen(switches[i], hosts, key) {
      assert i < n ==> EntrySeen(switches[..n][i], hosts, key);
    }
  }

  lemma SeenByParts(t: Telemetry, hosts: seq<Host>, key: Key)
    ensures NeighborSeen(t, hosts, key) == NeighborSeen(Telemetry(t.nodeId, t.lldp, []), hosts, key)
    ensures EntrySeen(t, hosts, key) == EntrySeen(Telemetry(t.nodeId, [], t.macTable), hosts, key)
  {
  }

  // A pair has LLDP evidence exactly when a neighbor of the switch matched the host, and MAC evidence exactly
  // when a line of its table did.
  lemma {:induction false} EvidenceIs(switches: seq<Telemetry>, hosts: seq<Host>, key: Key)
    ensures var slot := SlotOf(Collect(switches, hosts), key);
      && (slot.lldp.Some? <==> AnyNeighbor(switches, hosts, key))
      && (slot.mac.Some? <==> AnyEntry(switches, hosts, key))
    ensures Filled(Collect(switches, hosts))
  {
    if switches != [] {
      hide Filled;
      hide SlotOf;
      hide NeighborSeen;
      hide EntrySeen;
      hide AnyNeighbor;
      hide AnyEntry;
      var n := |switches| - 1;
      var t := switches[n];
      EvidenceIs(switches[..n], hosts, key);
      var rest := Collect(switches[..n], hosts);
      AllLldpIs(rest, t.nodeId, t.lldp, hosts, key);
      AllMacIs(AllLldp(rest, t.nodeId, t.lldp, hosts), t.nodeId, t.macTable, hosts, key);
      AnySnoc(switches, hosts, key);
      SeenByParts(t, hosts, key);
    }
  }

  // ---------- The loops ----------

  method CollectEvidence(switches: seq<Telemetry>, hosts: seq<Host>) returns (partial: Partial)
    ensures partial == Collect(switches, hosts)
  {
    partial := map[];
    for i := 0 to |switches|
      invariant partial == Collect(switches[..i], hosts)
    {
      var t := switches[i];
      assert switches[..i + 1][..i] == switches[..i];
      var before := partial;
      for j := 0 to |t.lldp|
        invariant partial == AllLldp(before, t.nodeId, t.lldp[..j], hosts)
      {
        assert t.lldp[..j + 1][..j] == t.lldp[..j];
        partial := MatchNeighbor(partial, t.nodeId, t.lldp[j], hosts);
      }
      assert t.lldp[..|t.lldp|] == t.lldp;
      var between := partial;
      for j := 0 to |t.macTable|
        invariant partial == AllMac(between, t.nodeId, t.macTable[..j], hosts)
      {
        assert t.macTable[..j + 1][..j] == t.macTable[..j];
        partial := MatchEntry(partial, t.nodeId, t.macTable[j], hosts);
      }
      assert t.macTable[..|t.macTable|] == t.macTable;
    }
    assert switches[..|switches|] == switches;
  }

  // The innermost loop over the hosts for a neighbor.
  method MatchNeighbor(start: Partial, switchId: string, nb: Neighbor, hosts: seq<Host>) returns (partial: Partial)
    ensures partial == AddLldp(start, switchId, nb, hosts)
  {
    hide LeastOf;
    partial := start;
    for k := 0 to |hosts|
      invariant partial == AddLldp(start, switchId, nb, hosts[..k])
    {
      var h := hosts[k];
      assert hosts[..k + 1][..k] == hosts[..k];
      var found: Option<LldpEvidence> := None;
      if h.macs * nb.macs != {} {
        found := Some(LldpEvidence(LeastOf(h.macs * nb.macs), nb.port, true));
      } else if h.names * nb.names != {} {
        found := Some(LldpEvidence(LeastOf(h.names * nb.names), nb.port, false));
      }
      if found.None? {
        continue;
      }
      var key := (h.nodeId, switchId);
      if key !in partial {
        partial := partial[key := NO_EVIDENCE];
      }
      partial := partial[key := partial[key].(lldp := found)];
    }
    assert hosts[..|hosts|] == hosts;
  }

  // The innermost loop over the hosts for a line of the MAC table.
  method MatchEntry(start: Partial, switchId: string, e: MacEntry, hosts: seq<Host>) returns (partial: Partial)
    ensures partial == AddMac(start, switchId, e, hosts)
  {
    partial := start;
    if e.mac.None? {
      AddMacNothing(start, switchId, e, hosts);
      return;
    }
    for k := 0 to |hosts|
      invariant partial == AddMac(start, switchId, e, hosts[..k])
    {
      var h := hosts[k];
      assert hosts[..k + 1][..k] == hosts[..k];
      if e.mac.value !in h.macs {
        continue;
      }
      var key := (h.nodeId, switchId);
      if key !in partial {
        partial := partial[key := NO_EVIDENCE];
      }
      partial := partial[key := partial[key].(mac := Some(MacEvidence(e.mac.value, PortOf(e), e.ifIndex)))];
    }
    assert hosts[..|hosts|] == hosts;
  }

  lemma {:induction false} AddMacNothing(start: Partial, switchId: string, e: MacEntry, hosts: seq<Host>)
    requires e.mac.None?
    ensures AddMac(start, switchId, e, hosts) == start
  {
    if hosts != [] {
      AddMacNothing(start, switchId, e, hosts[..|hosts| - 1]);
    }
  }

  // ---------- The sorted list ----------

  predicate LeastKey(key: Key, keys: set<Key>) {
    key in keys && forall k :: k in keys && k != key ==> KeyLess(key, k)
  }

  lemma KeyLessTransitive(a: Key, b: Key, c: Key)
    requires KeyLess(a, b) && KeyLess(b, c)
    ensures KeyLess(a, c)
  {
    if Before(a.0, b.0) && Before(b.0, c.0) {
      BeforeTransitive(a.0, b.0, c.0);
    }
    if Before(a.1, b.1) && Before(b.1, c.1) {
      BeforeTransitive(a.1, b.1, c.1);
    }
  }

  lemma KeyLessTotal(a: Key, b: Key)
    ensures KeyLess(a, b) || a == b || KeyLess(b, a)
  {
    BeforeTotal(a.0, b.0);
    BeforeTotal(a.1, b.1);
  }

  lemma {:induction false} HasLeastKey(keys: set<Key>)
    requires keys != {}
    ensures exists key :: LeastKey(key, keys)
    decreases |keys|
  {
    var one :| one in keys;
    if keys == {one} {
      assert LeastKey(one, keys);
    } else {
      HasLeastKey(keys - {one});
      var best :| LeastKey(best, keys - {one});
      KeyLessTotal(one, best);
      hide KeyLess;
      if KeyLess(one, best) {
        forall k | k in keys && k != one
          ensures KeyLess(one, k)
        {
          if k != best {
            KeyLessTransitive(one, best, k);
          }
        }
        assert LeastKey(one, keys);
      } else {
        assert LeastKey(best, keys);
      }
    }
  }

  // Builds the bindings in the order of their keys.
  method SortBindings(partial: Partial) returns (bs: seq<Binding>)
    requires Filled(partial)
    ensures BindingsOf(partial, bs)
  {
    bs := [];
    var rest := partial.Keys;
    while rest != {}
      invariant rest <= partial.Keys && |bs| + |rest| == |partial|
      invariant forall i :: 0 <= i < |bs| ==>
        KeyOf(bs[i]) in partial && bs[i] == BindingFor(KeyOf(bs[i]), partial[KeyOf(bs[i])])
      invariant forall i, j :: 0 <= i < j < |bs| ==> KeyLess(KeyOf(bs[i]), KeyOf(bs[j]))
      invariant forall i, key :: 0 <= i < |bs| && key in rest ==> KeyLess(KeyOf(bs[i]), key)
      decreases |rest|
    {
      hide KeyLess;
      HasLeastKey(rest);
      var key :| LeastKey(key, rest);
      assert KeyOf(BindingFor(key, partial[key])) == key;
      bs := bs + [BindingFor(key, partial[key])];
      rest := rest - {key};
    }
  }

  method CorrelateHostPorts(nodes: seq<Node>, identify: Node -> (set<string>, set<string>), switches: seq<Telemetry>)
    returns (bs: seq<Binding>)
    ensures Filled(Collect(switches, Hosts(nodes, identify)))
    ensures BindingsOf(Collect(switches, Hosts(nodes, identify)), bs)
  {
    var hosts := Hosts(nodes, identify);
    EvidenceIs(switches, hosts, ("", ""));
    var partial := CollectEvidence(switches, hosts);
    bs := SortBindings(partial);
  }

  // ---------- What the bindings are ----------

  lemma KeysAreUnique(partial: Partial, bs: seq<Binding>)
    requires Filled(partial) && BindingsOf(partial, bs)
    ensures UniqueKeys(bs)
  {
    forall i, j | 0 <= i < j < |bs|
      ensures KeyOf(bs[i]) != KeyOf(bs[j])
    {
      BeforeIrreflexive(KeyOf(bs[i]).0);
      BeforeIrreflexive(KeyOf(bs[i]).1);
    }
  }

  // A pair is bound exactly when there is evidence of either kind for it.
  predicate Bound(bs: seq<Binding>, key: Key) {
    exists i :: 0 <= i < |bs| && KeyOf(bs[i]) == key
  }

  function BoundKeys(bs: seq<Binding>): set<Key> {
    set i | 0 <= i < |bs| :: KeyOf(bs[i])
  }

  lemma {:induction false} CountKeys(bs: seq<Binding>)
    requires UniqueKeys(bs)
    ensures |BoundKeys(bs)| == |bs|
  {
    if bs != [] {
      var n := |bs| - 1;
      CountKeys(bs[..n]);
      assert forall i :: 0 <= i < n ==> bs[..n][i] == bs[i];
      assert BoundKeys(bs) == BoundKeys(bs[..n]) + {KeyOf(bs[n])};
    }
  }

  lemma AllKeysBound(partial: Partial, bs: seq<Binding>)
    requires Filled(partial) && BindingsOf(partial, bs)
    ensures BoundKeys(bs) == partial.Keys
  {
    KeysAreUnique(partial, bs);
    CountKeys(bs);
    var keys := BoundKeys(bs);
    assert partial.Keys == keys + (partial.Keys - keys);
    assert |partial.Keys| == |keys| + |partial.Keys - keys|;
  }

  // Every binding of a correlation, and every pair with evidence: bound once, corroborated exactly when both
  // kinds of evidence were seen, and at the confidence of what was seen.
  lemma CorrelationIs(switches: seq<Telemetry>, hosts: seq<Host>, bs: seq<Binding>, key: Key)
    requires Filled(Collect(switches, hosts)) && BindingsOf(Collect(switches, hosts), bs)
    ensures UniqueKeys(bs)
    ensures Bound(bs, key) <==> AnyNeighbor(switches, hosts, key) || AnyEntry(switches, hosts, key)
    ensures forall i :: 0 <= i < |bs| && KeyOf(bs[i]) == key ==>
      (bs[i].correlation == "lldp_and_mac" <==> AnyNeighbor(switches, hosts, key) && AnyEntry(switches, hosts, key))
      && (bs[i].quality == Corroborated <==> AnyNeighbor(switches, hosts, key) && AnyEntry(switches, hosts, key))
      && (bs[i].confidence == "0.95" <==> AnyNeighbor(switches, hosts, key) && AnyEntry(switches, hosts, key))
      && (bs[i].confidence == "0.75" <==> !AnyNeighbor(switches, hosts, key))
  {
    var partial := Collect(switches, hosts);
    EvidenceIs(switches, hosts, key);
    KeysAreUnique(partial, bs);
    AllKeysBound(partial, bs);
    hide Collect;
    hide AnyNeighbor;
    hide AnyEntry;
    hide KeyLess;
    assert key in BoundKeys(bs) <==> Bound(bs, key);
  }

  // ---------- Correlating and then augmenting ----------

  lemma {:induction false} HostsAreNodes(nodes: seq<Node>, identify: Node -> (set<string>, set<string>))
    ensures forall k :: 0 <= k < |Hosts(nodes, identify)| ==> Hosts(nodes, identify)[k].nodeId in Ids(nodes)
  {
    if nodes != [] {
      var n := |nodes| - 1;
      HostsAreNodes(nodes[..n], identify);
      IdsOfSnoc(nodes[..n], nodes[n]);
      assert nodes == nodes[..n] + [nodes[n]];
      hide Ids;
    }
  }

  lemma EvidenceNamesBoth(switches: seq<Telemetry>, hosts: seq<Host>, key: Key)
    requires AnyNeighbor(switches, hosts, key) || AnyEntry(switches, hosts, key)
    ensures exists k :: 0 <= k < |hosts| && hosts[k].nodeId == key.0
    ensures exists i :: 0 <= i < |switches| && switches[i].nodeId == key.1
  {
    if AnyNeighbor(switches, hosts, key) {
      var i :| 0 <= i < |switches| && NeighborSeen(switches[i], hosts, key);
      var j :| 0 <= j < |switches[i].lldp| && ShownTo(hosts, key.0, switches[i].lldp[j]);
      var k :| 0 <= k < |hosts| && LldpBy(hosts[k], key.0, switches[i].lldp[j]);
      assert hosts[k].nodeId == key.0 && switches[i].nodeId == key.1;
    } else {
      var i :| 0 <= i < |switches| && EntrySeen(switches[i], hosts, key);
      var j :| 0 <= j < |switches[i].macTable| && LearnedFor(hosts, key.0, switches[i].macTable[j]);
      var k :| 0 <= k < |hosts| && MacBy(hosts[k], key.0, switches[i].macTable[j]);
      assert hosts[k].nodeId == key.0 && switches[i].nodeId == key.1;
    }
  }

  // The bindings correlated on a valid topology augment it to a valid one exactly when no switch was taken for
  // its own neighbor.
  lemma {:induction false} CorrelatedAugments(g: Graph, identify: Node -> (set<string>, set<string>),
                                              switches: seq<Telemetry>,
                           bs: seq<Binding>)
    requires Valid(g) && forall i :: 0 <= i < |switches| ==> switches[i].nodeId != ""
    requires Filled(Collect(switches, Hosts(g.nodes, identify)))
    requires BindingsOf(Collect(switches, Hosts(g.nodes, identify)), bs)
    ensures Augment(g, bs).Ok? <==> forall i :: 0 <= i < |bs| ==> bs[i].host != bs[i].switch
  {
    var hosts := Hosts(g.nodes, identify);
    SucceedsExactlyIf(g, bs);
    HostsAreNodes(g.nodes, identify);
    hide Hosts;
    hide Valid;
    hide Augment;
    hide Ids;
    hide Switches;
    hide Collect;
    forall i | 0 <= i < |bs|
      ensures Sound(g, bs, bs[i]) <==> bs[i].host != bs[i].switch
    {
      var key := KeyOf(bs[i]);
      CorrelationIs(switches, hosts, bs, key);
      assert Bound(bs, key);
      EvidenceNamesBoth(switches, hosts, key);
      hide AnyNeighbor;
      hide AnyEntry;
    }
  }
}
