// Each request has ids of its own until the counters have gone round, so no datagram is accepted twice.
module FreshReplies {
  import opened Results
  import opened Bytes
  import opened Message
  import opened Transport
  import opened Engine
  import opened ClockTheorems

  // A counter after n steps.
  function Ahead(id: int, n: nat): int {
    (id + n) % ID_PERIOD
  }

  const ID_PERIOD := 0x8000_0000

  lemma AheadAgain(id: int, a: nat, b: nat)
    ensures Ahead(Ahead(id, a), b) == Ahead(id, a + b)
  {
  }

  lemma AheadDiffers(id: int, a: nat, b: nat)
    requires a < b < a + ID_PERIOD
    ensures Ahead(id, a) != Ahead(id, b)
  {
  }

  // The ids of the n-th request from here.
  function TakeTimes(s: State, n: nat): State {
    if n == 0 then s else TakeIds(TakeTimes(s, n - 1))
  }

  // Two requests have different ids of either kind, unless a whole period of requests lies between them.
  lemma IdsDiffer(s: State, a: nat, b: nat)
    requires 0 < a < b < a + ID_PERIOD
    ensures TakeTimes(s, a).msgId != TakeTimes(s, b).msgId && TakeTimes(s, a).reqId != TakeTimes(s, b).reqId
    ensures 0 <= TakeTimes(s, a).msgId < ID_PERIOD && 0 <= TakeTimes(s, a).reqId < ID_PERIOD
  {
    TakenTimes(s, a);
    TakenTimes(s, b);
    AheadDiffers(s.msgId, a, b);
    AheadDiffers(s.reqId, a, b);
  }

  lemma {:induction false} TakenTimes(s: State, n: nat)
    requires n > 0
    ensures TakeTimes(s, n) == s.(msgId := Ahead(s.msgId, n), reqId := Ahead(s.reqId, n))
  {
    if n > 1 {
      TakenTimes(s, n - 1);
      AheadAgain(s.msgId, n - 1, 1);
      AheadAgain(s.reqId, n - 1, 1);
    } else {
      assert TakeTimes(s, 0) == s;
    }
  }

  // ---------- Over runs ----------

  // Handling a reply leaves the ids alone.
  lemma HandleReplyKeepsIds(cfg: Config, s: State, reply: bytes, now: real)
    ensures HandleReply(cfg, s, reply, now).0.reqId == s.reqId
  {
    hide DecodeMessage;
    hide InWindow;
  }

  // One call takes the next id, or none if it is no exchange.
  lemma CallTakesId(cfg: Config, env: Env, s: State, w: World, call: Call)
    requires s.discovered
    ensures After(cfg, env, s, w, call).0.discovered
    ensures call.Idle? ==> After(cfg, env, s, w, call).0 == s
    ensures call.Poll? ==> After(cfg, env, s, w, call).0.reqId == Ahead(s.reqId, 1)
  {
    hide HandleReply;
    hide SendRequest;
    if call.Poll? {
      ExchangeLegitimate(cfg, env, s, w, call.tag, call.oids);
      hide Legitimate;
      var h := HandlingOf(cfg, env, s, w, call.tag, call.oids);
      if h.Some? {
        HandleReplyKeepsIds(cfg, h.value.checked, h.value.reply, h.value.now);
      }
    }
  }

  // The response was to one of the next n requests, not before the `first`.
  predicate OfNext(a: Acceptance, id: int, first: nat, n: nat) {
    exists k: nat :: first <= k <= n && a.handling.checked.reqId == Ahead(id, k)
  }

  lemma OfNextFrom(a: Acceptance, id: int, first: nat, n: nat, step: nat)
    requires OfNext(a, Ahead(id, step), first, n)
    ensures OfNext(a, id, first + step, n + step)
  {
    var k: nat :| first <= k <= n && a.handling.checked.reqId == Ahead(Ahead(id, step), k);
    AheadAgain(id, step, k);
    assert a.handling.checked.reqId == Ahead(id, k + step);
  }

  lemma OfNextWider(a: Acceptance, id: int, first: nat, n: nat)
    requires OfNext(a, id, first, n) && first > 0
    ensures OfNext(a, id, 1, n + 1)
  {
    var k: nat :| first <= k <= n && a.handling.checked.reqId == Ahead(id, k);
    assert a.handling.checked.reqId == Ahead(id, k);
  }

  predicate AllOfNext(accepted: seq<Acceptance>, id: int, n: nat) {
    forall i :: 0 <= i < |accepted| ==> OfNext(accepted[i], id, 1, n)
  }

  predicate IdsDistinct(accepted: seq<Acceptance>) {
    forall i, j :: 0 <= i < j < |accepted| ==>
      accepted[i].handling.checked.reqId != accepted[j].handling.checked.reqId
  }

  lemma AfterIdle(accepted: seq<Acceptance>, id: int, n: nat)
    requires AllOfNext(accepted, id, n)
    ensures AllOfNext(accepted, id, n + 1)
  {
    forall i | 0 <= i < |accepted|
      ensures OfNext(accepted[i], id, 1, n + 1)
    {
      OfNextWider(accepted[i], id, 1, n);
    }
  }

  lemma AfterPoll(here: seq<Acceptance>, rest: seq<Acceptance>, id: int, n: nat)
    requires AllOfNext(rest, Ahead(id, 1), n) && IdsDistinct(rest) && n < ID_PERIOD
    requires |here| <= 1 && forall a :: a in here ==> a.handling.checked.reqId == Ahead(id, 1)
    ensures AllOfNext(here + rest, id, n + 1) && IdsDistinct(here + rest)
  {
    hide Ahead;
    forall i | 0 <= i < |rest|
      ensures OfNext(rest[i], id, 1, n + 1) && rest[i].handling.checked.reqId != Ahead(id, 1)
    {
      OfNextFrom(rest[i], id, 1, n, 1);
      var k: nat :| 2 <= k <= n + 1 && rest[i].handling.checked.reqId == Ahead(id, k);
      AheadDiffers(id, 1, k);
      assert OfNext(rest[i], id, 1, n + 1);
    }
    hide OfNext;
    forall i | 0 <= i < |here|
      ensures OfNext(here[i], id, 1, n + 1)
    {
      assert here[i] in here;
      IsOfNext(here[i], id, 1, n + 1);
    }
  }

  lemma IsOfNext(a: Acceptance, id: int, k: nat, n: nat)
    requires 1 <= k <= n && a.handling.checked.reqId == Ahead(id, k)
    ensures OfNext(a, id, 1, n)
  {
  }

  lemma AcceptedStep(cfg: Config, env: Env, s: State, w: World, calls: seq<Call>) returns (here: seq<Acceptance>)
    requires calls != []
    ensures calls[0].Idle? ==> here == []
    ensures |here| <= 1 && forall a :: a in here ==> a.handling.checked.reqId == Ahead(s.reqId, 1)
    ensures var next := After(cfg, env, s, w, calls[0]);
      Accepted(cfg, env, s, w, calls) == here + Accepted(cfg, env, next.0, next.1, calls[1..])
  {
    hide SendRequest;
    hide Exchange;
    if calls[0].Idle? {
      return [];
    }
    var t := Exchange(cfg, env, s, w, calls[0].tag, calls[0].oids);
    var h := HandlingOf(cfg, env, s, w, calls[0].tag, calls[0].oids);
    here := if t.result.Ok? && h.Some? then [Acceptance(h.value, t.result.value)] else [];
  }

  lemma {:induction false} AcceptedIds(cfg: Config, env: Env, s: State, w: World, calls: seq<Call>)
    requires s.discovered && |calls| <= ID_PERIOD
    ensures AllOfNext(Accepted(cfg, env, s, w, calls), s.reqId, |calls|)
    ensures IdsDistinct(Accepted(cfg, env, s, w, calls))
    decreases |calls|
  {
    hide *;
    if calls == [] {
      NoneAccepted(cfg, env, s, w, s.reqId);
    } else {
      var next := After(cfg, env, s, w, calls[0]);
      CallTakesId(cfg, env, s, w, calls[0]);
      AcceptedIds(cfg, env, next.0, next.1, calls[1..]);
      var rest := Accepted(cfg, env, next.0, next.1, calls[1..]);
      var here := AcceptedStep(cfg, env, s, w, calls);
      if calls[0].Poll? {
        AfterPoll(here, rest, s.reqId, |calls| - 1);
      } else {
        AfterIdle(rest, s.reqId, |calls| - 1);
        assert here + rest == rest;
      }
    }
  }

  lemma NoneAccepted(cfg: Config, env: Env, s: State, w: World, id: int)
    ensures AllOfNext(Accepted(cfg, env, s, w, []), id, 0) && IdsDistinct(Accepted(cfg, env, s, w, []))
  {
  }

  // In a run of at most 2^31 calls after discovery, whatever the network does, no two accepted responses answer the
  // same request, and no datagram is accepted twice.
  lemma NoReplyTwice(cfg: Config, env: Env, s: State, w: World, calls: seq<Call>, i: nat, j: nat)
    requires s.discovered && |calls| <= ID_PERIOD
    requires i < j < |Accepted(cfg, env, s, w, calls)|
    ensures var a, b := Accepted(cfg, env, s, w, calls)[i], Accepted(cfg, env, s, w, calls)[j];
      a.parsed.pdu.requestId != b.parsed.pdu.requestId && a.handling.reply != b.handling.reply
  {
    var accepted := Accepted(cfg, env, s, w, calls);
    AcceptedIds(cfg, env, s, w, calls);
    ClockOverRuns(cfg, env, s, w, calls);
    hide AllOfNext;
    hide Accepted;
    assert accepted[i] in accepted && accepted[j] in accepted;
    ReadUnderItsId(cfg, s, accepted[i]);
    ReadUnderItsId(cfg, s, accepted[j]);
    hide DecodeMessage;
    hide Legitimate;
    hide Advances;
  }

  lemma ReadUnderItsId(cfg: Config, s: State, a: Acceptance)
    requires Legitimate(cfg, a) && Advances(s, a.handling.checked)
    ensures a.parsed.pdu.requestId == a.handling.checked.reqId
    ensures DecodeMessage(cfg.mac, a.handling.reply, Keys(s.authKey, s.privKey), UseAuth(cfg)) == Ok(a.parsed)
  {
    hide DigestChecked;
    hide HandleReply;
    AcceptKeepsParsed(cfg, a.handling.checked, a.handling.reply, a.handling.now);
    hide DecodeMessage;
  }
}
