// What a walk costs, and where what it returns comes from, whatever the network does.
module WalkBounds {
  import opened Results
  import opened Bytes
  import opened Dotted
  import opened Asn1
  import opened Message
  import opened Transport
  import opened Engine
  import opened ClockTheorems

  // ---------- Sends and waiting ----------

  // At most `requests` requests were sent out, each in all its attempts.
  predicate Within(cfg: Config, w: World, later: World, requests: nat) {
    && w.sends <= later.sends <= w.sends + requests * Attempts(cfg)
    && w.now <= later.now <= w.now + Budget(Patience(cfg), requests)
  }

  lemma WithinNone(cfg: Config, w: World, requests: nat)
    ensures Within(cfg, w, w, requests)
  {
    assert requests * Attempts(cfg) >= 0;
  }

  lemma WithinAdds(cfg: Config, w: World, mid: World, later: World, a: nat, b: nat)
    requires Within(cfg, w, mid, a) && Within(cfg, mid, later, b)
    ensures Within(cfg, w, later, a + b)
  {
    assert (a + b) * Attempts(cfg) == a * Attempts(cfg) + b * Attempts(cfg);
    BudgetAdds(Patience(cfg), a, b);
  }

  lemma {:induction false} BudgetAdds(timeout: Delay, a: nat, b: nat)
    ensures Budget(timeout, a + b) == Budget(timeout, a) + Budget(timeout, b)
  {
    if a > 0 {
      BudgetAdds(timeout, a - 1, b);
    }
  }

  lemma {:induction false} BudgetOfBudget(timeout: Delay, a: nat, b: nat)
    ensures Budget(Budget(timeout, a), b) == Budget(timeout, b * a)
  {
    if b > 0 {
      BudgetOfBudget(timeout, a, b - 1);
      assert b * a == a + (b - 1) * a;
      BudgetAdds(timeout, a, (b - 1) * a);
    }
  }

  lemma SendWithin(cfg: Config, env: Env, w: World, message: bytes, msgId: int)
    ensures Within(cfg, w, Send(cfg, env, w, message, msgId).0, 1)
  {
    TransactBounds(env.net, w.sends, w.now, message, msgId, cfg.timeout, Attempts(cfg));
    BudgetIsProduct(cfg.timeout, Attempts(cfg));
    hide Transact;
    assert Budget(Patience(cfg), 1) == Patience(cfg) + Budget(Patience(cfg), 0);
  }

  lemma RequestWithin(cfg: Config, env: Env, s: State, w: World, tag: byte, oids: seq<string>)
    ensures Within(cfg, w, SendRequest(cfg, env, s, w, tag, oids).0, 1)
  {
    hide Request;
    hide EncRequestPdu;
    hide Send;
    WithinNone(cfg, w, 1);
    var w1 := if UsePriv(cfg) then w.(draws := w.draws + 1) else w;
    WithinNone(cfg, w1, 1);
    var pdu := EncRequestPdu(tag, s.reqId, oids);
    if pdu.Ok? {
      var message := Request(cfg, s, pdu.value, w.now, env.salts(w.draws));
      if message.Ok? {
        SendWithin(cfg, env, w1, message.value, s.msgId);
      }
    }
  }

  // What is left to discover: one request for an engine that is new.
  function ToDiscover(s: State): nat {
    if s.discovered then 0 else 1
  }

  lemma DiscoverWithin(cfg: Config, env: Env, s: State, w: World)
    ensures var t := Discover(cfg, env, s, w);
      Within(cfg, w, t.world, ToDiscover(s)) && (t.result.Ok? ==> t.state.discovered)
  {
    hide DiscoveryMessage;
    hide Send;
    hide FinishDiscovery;
    WithinNone(cfg, w, ToDiscover(s));
    if !s.discovered {
      var message := DiscoveryMessage(cfg, TakeIds(s));
      if message.Ok? {
        SendWithin(cfg, env, w, message.value, TakeIds(s).msgId);
        var sent := Send(cfg, env, w, message.value, TakeIds(s).msgId);
        if sent.1.Ok? {
          FinishedIsDiscovered(cfg, TakeIds(s), sent.1.value, sent.0.now);
        }
      }
    }
  }

  lemma FinishedIsDiscovered(cfg: Config, s: State, reply: bytes, now: real)
    ensures var done := FinishDiscovery(cfg, s, reply, now);
      done.1.Ok? ==> done.0.discovered
  {
    hide DecodeMessage;
    hide Localize;
    hide Learn;
  }

  lemma GetNextWithin(cfg: Config, env: Env, s: State, w: World, oid: string)
    ensures var t := GetNext(cfg, env, s, w, oid);
      Within(cfg, w, t.world, ToDiscover(s) + 1) && (t.result.Ok? ==> t.state.discovered)
  {
    hide Discover;
    hide SendRequest;
    hide HandleReply;
    hide Within;
    DiscoverWithin(cfg, env, s, w);
    var found := Discover(cfg, env, s, w);
    if found.result.Err? {
      WithinNone(cfg, found.world, 1);
      WithinAdds(cfg, w, found.world, found.world, ToDiscover(s), 1);
    } else {
      var s1 := TakeIds(found.state);
      var sent := SendRequest(cfg, env, s1, found.world, GET_NEXT_REQUEST, [oid]);
      RequestWithin(cfg, env, s1, found.world, GET_NEXT_REQUEST, [oid]);
      WithinAdds(cfg, w, found.world, sent.0, ToDiscover(s), 1);
      if sent.1.Ok? {
        hide Advances;
        HandleReplyLegitimate(cfg, s1, sent.1.value, sent.0.now);
        StaysDiscovered(s1, HandleReply(cfg, s1, sent.1.value, sent.0.now).0);
      }
    }
  }

  lemma {:induction false} WalkFromWithin(cfg: Config, env: Env, s: State, w: World, prefix: string, current: string,
                                          left: nat, out: map<string, Scalar>)
    ensures Within(cfg, w, WalkFrom(cfg, env, s, w, prefix, current, left, out).world, ToDiscover(s) + left)
    decreases left
  {
    hide GetNext;
    hide Within;
    hide StartsWith;
    if left == 0 {
      WithinNone(cfg, w, ToDiscover(s));
    } else {
      GetNextWithin(cfg, env, s, w, current);
      var t := GetNext(cfg, env, s, w, current);
      WithinNone(cfg, t.world, left - 1);
      WithinAdds(cfg, w, t.world, t.world, ToDiscover(s) + 1, left - 1);
      if t.result.Ok? {
        var VarBind(oid, value) := t.result.value;
        if !(value == Text(END_OF_MIB_VIEW_TEXT) || !StartsWith(oid, prefix) || oid == current) {
          var next := Collect(out, prefix, oid, value);
          WalkFromWithin(cfg, env, t.state, t.world, prefix, oid, left - 1, next);
          WithinAdds(cfg, w, t.world, WalkFrom(cfg, env, t.state, t.world, prefix, oid, left - 1, next).world,
                     ToDiscover(s) + 1, left - 1);
        }
      }
    }
  }

  // A walk, discovery included, sends at most (maxOids + 1) * (retries + 1) datagrams and waits for at most as many
  // timeouts, whatever the network does.
  lemma WalkWithin(cfg: Config, env: Env, s: State, w: World, baseOid: string, maxOids: nat)
    ensures var t := WalkTurn(cfg, env, s, w, baseOid, maxOids);
      && w.sends <= t.world.sends <= w.sends + (maxOids + 1) * Attempts(cfg)
      && w.now <= t.world.now <= w.now + Budget(cfg.timeout, (maxOids + 1) * Attempts(cfg))
  {
    hide WalkFrom;
    hide Strip;
    var base := Strip(baseOid);
    WalkFromWithin(cfg, env, s, w, base + ".", base, maxOids, map[]);
    assert (ToDiscover(s) + maxOids) * Attempts(cfg) <= (maxOids + 1) * Attempts(cfg) by {
      MoreRequests(ToDiscover(s) + maxOids, maxOids + 1, Attempts(cfg));
    }
    BudgetGrows(Patience(cfg), ToDiscover(s) + maxOids, maxOids + 1);
    BudgetOfBudget(cfg.timeout, Attempts(cfg), maxOids + 1);
  }

  lemma MoreRequests(a: nat, b: nat, n: nat)
    requires a <= b
    ensures a * n <= b * n
  {
  }

  // ---------- Where the result comes from ----------

  // The response a GETNEXT returns the first binding of.
  function AcceptedBy(cfg: Config, env: Env, s: State, w: World, oid: string): Option<Acceptance> {
    var found := Discover(cfg, env, s, w);
    var h := HandlingOf(cfg, env, found.state, found.world, GET_NEXT_REQUEST, [oid]);
    var t := Exchange(cfg, env, s, w, GET_NEXT_REQUEST, [oid]);
    if t.result.Ok? && h.Some? then Some(Acceptance(h.value, t.result.value)) else None
  }

  // The responses a walk accepts, in order.
  function WalkAccepted(cfg: Config, env: Env, s: State, w: World, prefix: string, current: string, left: nat)
    : seq<Acceptance>
    decreases left
  {
    if left == 0 then []
    else
      var t := GetNext(cfg, env, s, w, current);
      match AcceptedBy(cfg, env, s, w, current)
      case None => []
      case Some(a) =>
        if t.result.Err? || Stops(t.result.value, prefix, current) then [a]
        else [a] + WalkAccepted(cfg, env, t.state, t.world, prefix, t.result.value.oid, left - 1)
  }

  // The binding that ends the loop.
  predicate Stops(v: VarBind, prefix: string, current: string) {
    v.value == Text(END_OF_MIB_VIEW_TEXT) || !StartsWith(v.oid, prefix) || v.oid == current
  }

  // A binding a GETNEXT returns is the first of a legitimate response.
  lemma GetNextAccepted(cfg: Config, env: Env, s: State, w: World, oid: string)
    ensures var t, a := GetNext(cfg, env, s, w, oid), AcceptedBy(cfg, env, s, w, oid);
      && (a.Some? ==> Legitimate(cfg, a.value))
      && (t.result.Ok? ==> a.Some? && a.value.parsed.pdu.varbinds != []
                           && t.result.value == a.value.parsed.pdu.varbinds[0])
  {
    hide Discover;
    hide Ask;
    hide HandlingOf;
    hide Legitimate;
    DiscoverWithin(cfg, env, s, w);
    var found := Discover(cfg, env, s, w);
    if found.result.Ok? {
      hide Within;
      AskLegitimate(cfg, env, found.state, found.world, oid);
    }
  }

  lemma AskLegitimate(cfg: Config, env: Env, s: State, w: World, oid: string)
    requires s.discovered
    ensures var t := Ask(cfg, env, s, w, GET_NEXT_REQUEST, [oid]);
      var h := HandlingOf(cfg, env, s, w, GET_NEXT_REQUEST, [oid]);
      t.result.Ok? ==> h.Some? && Legitimate(cfg, Acceptance(h.value, t.result.value))
  {
    hide HandlingOf;
    hide Ask;
    hide Legitimate;
    hide Advances;
    ExchangeLegitimate(cfg, env, s, w, GET_NEXT_REQUEST, [oid]);
    AlreadyDiscovered(cfg, env, s, w);
  }

  // The entry is what some accepted response said.
  predicate Said(accepted: seq<Acceptance>, prefix: string, key: string, value: Scalar) {
    exists i :: 0 <= i < |accepted| && accepted[i].parsed.pdu.varbinds != []
      && accepted[i].parsed.pdu.varbinds[0] == VarBind(prefix + key, value)
  }

  lemma SaidLater(a: Acceptance, rest: seq<Acceptance>, prefix: string, key: string, value: Scalar)
    requires Said(rest, prefix, key, value)
    ensures Said([a] + rest, prefix, key, value)
  {
    var i :| 0 <= i < |rest| && rest[i].parsed.pdu.varbinds != []
      && rest[i].parsed.pdu.varbinds[0] == VarBind(prefix + key, value);
    assert ([a] + rest)[i + 1] == rest[i];
  }

  lemma SaidNow(a: Acceptance, rest: seq<Acceptance>, prefix: string, oid: string, value: Scalar)
    requires a.parsed.pdu.varbinds != [] && a.parsed.pdu.varbinds[0] == VarBind(oid, value)
    requires StartsWith(oid, prefix)
    ensures Said([a] + rest, prefix, oid[|prefix|..], value)
  {
    assert oid == prefix + oid[|prefix|..];
    assert ([a] + rest)[0] == a;
  }

  // Every entry a walk returns that it did not begin with is the first binding of a legitimate response it
  // accepted, under the base and with that value.
  lemma {:induction false} WalkSaid(cfg: Config, env: Env, s: State, w: World, prefix: string, current: string,
                                    left: nat, out: map<string, Scalar>)
    ensures var r := WalkFrom(cfg, env, s, w, prefix, current, left, out).result;
      var accepted := WalkAccepted(cfg, env, s, w, prefix, current, left);
      && (forall i :: 0 <= i < |accepted| ==> Legitimate(cfg, accepted[i]))
      && (r.Ok? ==> forall key :: key in r.value ==>
            (key in out && r.value[key] == out[key]) || Said(accepted, prefix, key, r.value[key]))
    decreases left
  {
    hide GetNext;
    hide AcceptedBy;
    hide Legitimate;
    hide StartsWith;
    hide Said;
    if left > 0 {
      GetNextAccepted(cfg, env, s, w, current);
      var t := GetNext(cfg, env, s, w, current);
      if t.result.Ok? {
        var VarBind(oid, value) := t.result.value;
        var a := AcceptedBy(cfg, env, s, w, current).value;
        if !Stops(t.result.value, prefix, current) {
          var rest := WalkAccepted(cfg, env, t.state, t.world, prefix, oid, left - 1);
          var next := Collect(out, prefix, oid, value);
          WalkGoesOn(cfg, env, s, w, prefix, current, left, out);
          WalkSaid(cfg, env, t.state, t.world, prefix, oid, left - 1, next);
          SaidNow(a, rest, prefix, oid, value);
          hide WalkFrom;
          hide WalkAccepted;
          var r := WalkFrom(cfg, env, s, w, prefix, current, left, out).result;
          if r.Ok? {
            forall key | key in r.value
              ensures (key in out && r.value[key] == out[key]) || Said([a] + rest, prefix, key, r.value[key])
            {
              if Said(rest, prefix, key, r.value[key]) {
                SaidLater(a, rest, prefix, key, r.value[key]);
              }
            }
          }
        }
      }
    }
  }

  // One round of a walk that does not end it.
  lemma WalkGoesOn(cfg: Config, env: Env, s: State, w: World, prefix: string, current: string, left: nat,
                   out: map<string, Scalar>)
    requires left > 0 && GetNext(cfg, env, s, w, current).result.Ok? && AcceptedBy(cfg, env, s, w, current).Some?
    requires !Stops(GetNext(cfg, env, s, w, current).result.value, prefix, current)
    ensures var t, a := GetNext(cfg, env, s, w, current), AcceptedBy(cfg, env, s, w, current).value;
      var VarBind(oid, value) := t.result.value;
      && WalkFrom(cfg, env, s, w, prefix, current, left, out)
         == WalkFrom(cfg, env, t.state, t.world, prefix, oid, left - 1, Collect(out, prefix, oid, value))
      && WalkAccepted(cfg, env, s, w, prefix, current, left)
         == [a] + WalkAccepted(cfg, env, t.state, t.world, prefix, oid, left - 1)
  {
    hide GetNext;
    hide AcceptedBy;
    hide StartsWith;
  }

  // Every entry of the table a walk returns comes from a legitimate response it accepted.
  lemma WalkEntriesWereSaid(cfg: Config, env: Env, s: State, w: World, baseOid: string, maxOids: nat)
    ensures var r := WalkTurn(cfg, env, s, w, baseOid, maxOids).result;
      var prefix := Strip(baseOid) + ".";
      var accepted := WalkAccepted(cfg, env, s, w, prefix, Strip(baseOid), maxOids);
      && (forall i :: 0 <= i < |accepted| ==> Legitimate(cfg, accepted[i]))
      && (r.Ok? ==> forall key :: key in r.value ==> Said(accepted, prefix, key, r.value[key]))
  {
    hide WalkFrom;
    hide WalkAccepted;
    hide Legitimate;
    hide Said;
    hide Strip;
    WalkSaid(cfg, env, s, w, Strip(baseOid) + ".", Strip(baseOid), maxOids, map[]);
  }

  // ---------- When a walk ends ----------

  // What one GETNEXT decides: an error ends the walk with it; the end of the view, an identifier that is not below
  // the base or the one just asked for end it with the entries so far; anything else goes on, with the value kept
  // unless it is one of the two other exceptions. No round left is an error.
  lemma WalkStopsExactlyIf(cfg: Config, env: Env, s: State, w: World, prefix: string, current: string, left: nat,
                           out: map<string, Scalar>)
    ensures left == 0 ==> WalkFrom(cfg, env, s, w, prefix, current, left, out) == Turn(s, w, Err(SnmpError))
    ensures left > 0 ==>
      var t, after := GetNext(cfg, env, s, w, current), WalkFrom(cfg, env, s, w, prefix, current, left, out);
      if t.result.Err? then after == Turn(t.state, t.world, Err(t.result.error))
      else
        var VarBind(oid, value) := t.result.value;
        if value == Text(END_OF_MIB_VIEW_TEXT) || |oid| < |prefix| || oid[..|prefix|] != prefix || oid == current then
          after == Turn(t.state, t.world, Ok(out))
        else
          var kept := if value in {Text(NO_SUCH_OBJECT_TEXT), Text(NO_SUCH_INSTANCE_TEXT)} then out
                      else out[oid[|prefix|..] := value];
          after == WalkFrom(cfg, env, t.state, t.world, prefix, oid, left - 1, kept)
  {
    hide GetNext;
  }
}
