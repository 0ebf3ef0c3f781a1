// The engine clock over any sequence of exchanges, and which replies may move it. RFC 3414 section 3.2 step 7
// lets only authenticated messages do so; here it is those that pass the checks, digest included if flagged.
module ClockTheorems {
  import opened Results
  import opened Bytes
  import opened Asn1
  import opened Asn1Theorems
  import opened Message
  import opened Authentication
  import opened MessageTheorems
  import opened MessageSizes
  import opened Transport
  import opened Engine

  // (boots, time) pairs in lexicographic order.
  predicate NotLater(b1: int, t1: int, b2: int, t2: int) {
    b1 < b2 || (b1 == b2 && t1 <= t2)
  }

  // The clock of t is not behind that of s, and it is the same engine under the same keys.
  predicate Advances(s: State, t: State) {
    && NotLater(s.boots, s.engineTime, t.boots, t.engineTime)
    && t.engineId == s.engineId && t.discovered == s.discovered
    && (s.ref.Some? ==> t.ref.Some?)
    && t.authKey == s.authKey && t.privKey == s.privKey && t.contextEngineId == s.contextEngineId
  }

  // A reply handled, with the state and the time it was checked at.
  datatype Handling = Handling(checked: State, now: real, reply: bytes)

  // An accepted response.
  datatype Acceptance = Acceptance(handling: Handling, parsed: Parsed)

  // What the message itself says about being authenticated.
  predicate Flagged(parsed: Parsed) {
    Has(parsed.env.flags, FLAG_AUTH)
  }

  function Handled(cfg: Config, h: Handling): (State, Result<Parsed>) {
    HandleReply(cfg, h.checked, h.reply, h.now)
  }

  // Under authentication: the digest of a flagged reply is right, and an unflagged reply is accepted as it is,
  // whatever the authentication key.
  ghost predicate DigestChecked(cfg: Config, a: Acceptance) {
    var s := a.handling.checked;
    UseAuth(cfg) ==>
      if Flagged(a.parsed) then s.authKey.Some? && Authentic(cfg.mac, s.authKey.value, a.handling.reply)
      else forall key: Option<bytes> :: Handled(cfg, a.handling.(checked := s.(authKey := key))).1 == Ok(a.parsed)
  }

  // The engine ID is the stored one or is left empty, and the clock is newer or in the window.
  predicate InOrder(cfg: Config, h: Handling, parsed: Parsed) {
    var s := h.checked;
    && parsed.pdu.requestId == s.reqId
    && (parsed.env.engineId == [] || parsed.env.engineId == s.engineId)
    && (UseAuth(cfg) ==>
        parsed.env.boots > s.boots ||
        (parsed.env.boots == s.boots &&
         -TIME_WINDOW_SECONDS <= parsed.env.engineTime - CurrentTime(s, h.now) <= TIME_WINDOW_SECONDS))
  }

  ghost predicate Legitimate(cfg: Config, a: Acceptance) {
    && Handled(cfg, a.handling).1 == Ok(a.parsed)
    && a.parsed.pdu.errorStatus == 0
    && InOrder(cfg, a.handling, a.parsed)
    && DigestChecked(cfg, a)
  }

  lemma AcceptInOrder(cfg: Config, s: State, parsed: Parsed, now: real, reply: bytes)
    ensures Advances(s, Accept(cfg, s, parsed, now).0)
    ensures Accept(cfg, s, parsed, now).1.Ok? ==>
      Accept(cfg, s, parsed, now).1.value == parsed && parsed.pdu.errorStatus == 0
    ensures Accept(cfg, s, parsed, now).1.Ok? || Accept(cfg, s, parsed, now).0 != s ==>
      InOrder(cfg, Handling(s, now, reply), parsed)
  {
    hide CurrentTime;
  }

  // Under authentication, a response of the same boot cannot move the estimate of the
  // device's clock by more than 150 s, whatever it claims and whether or not it is an error.
  lemma EstimateMovesLittle(cfg: Config, s: State, parsed: Parsed, now: real)
    requires UseAuth(cfg) && s.ref.Some?
    ensures var t := Accept(cfg, s, parsed, now).0;
      t.boots == s.boots ==> -TIME_WINDOW_SECONDS <= CurrentTime(t, now) - CurrentTime(s, now) <= TIME_WINDOW_SECONDS
  {
  }

  // Under authentication, a reply is accepted exactly when it reads without its digest, passes the other checks
  // and, if it is flagged, has the right digest. Only such a reply moves the clock.
  lemma AcceptedExactlyIf(cfg: Config, s: State, reply: bytes, now: real)
    requires UseAuth(cfg) && s.authKey.Some?
    ensures var plain := DecodeMessage(cfg.mac, reply, Keys(s.authKey, s.privKey), false);
      var h := HandleReply(cfg, s, reply, now);
      var right := plain.Ok? && (Flagged(plain.value) ==> Authentic(cfg.mac, s.authKey.value, reply));
      && (h.1.Ok? <==> right && Accept(cfg, s, plain.value, now).1.Ok?)
      && (h.1.Ok? ==> h.1 == plain)
      && (if right then h == Accept(cfg, s, plain.value, now) else h.0 == s)
  {
    hide DecodeMessage;
    hide Authentic;
    hide Accept;
    ReadExactlyIf(cfg.mac, reply, s.authKey.value, s.privKey);
    var plain := DecodeMessage(cfg.mac, reply, Keys(s.authKey, s.privKey), false);
    if plain.Ok? {
      AcceptReturns(cfg, s, plain.value, now);
    }
  }

  lemma AcceptReturns(cfg: Config, s: State, parsed: Parsed, now: real)
    ensures var r := Accept(cfg, s, parsed, now).1;
      r.Ok? ==> r == Ok(parsed)
  {
    hide InWindow;
  }

  lemma HandleReplyLegitimate(cfg: Config, s: State, reply: bytes, now: real)
    ensures Advances(s, HandleReply(cfg, s, reply, now).0)
    ensures HandleReply(cfg, s, reply, now).1.Ok? ==>
      Legitimate(cfg, Acceptance(Handling(s, now, reply), HandleReply(cfg, s, reply, now).1.value))
  {
    hide DecodeMessage;
    hide Accept;
    hide Advances;
    hide InOrder;
    hide DigestChecked;
    var parsed := DecodeMessage(cfg.mac, reply, Keys(s.authKey, s.privKey), UseAuth(cfg));
    if parsed.Ok? {
      AcceptInOrder(cfg, s, parsed.value, now, reply);
      if Accept(cfg, s, parsed.value, now).1.Ok? {
        DigestIsChecked(cfg, s, reply, now);
      }
    } else {
      AdvancesSelf(s);
    }
  }

  lemma DigestIsChecked(cfg: Config, s: State, reply: bytes, now: real)
    requires HandleReply(cfg, s, reply, now).1.Ok?
    ensures DigestChecked(cfg, Acceptance(Handling(s, now, reply), HandleReply(cfg, s, reply, now).1.value))
  {
    var parsed := HandleReply(cfg, s, reply, now).1.value;
    AcceptKeepsParsed(cfg, s, reply, now);
    if UseAuth(cfg) {
      if Flagged(parsed) {
        hide DecodeMessage;
        hide Accept;
        hide Authentic;
        if s.authKey.Some? {
          ReadExactlyIf(cfg.mac, reply, s.authKey.value, s.privKey);
        } else {
          FlaggedNeedsKey(cfg.mac, reply, s.privKey);
        }
      } else {
        hide DecodeMessage;
        forall key: Option<bytes>
          ensures HandleReply(cfg, s.(authKey := key), reply, now).1 == Ok(parsed)
        {
          UnflaggedIgnoresKey(cfg.mac, reply, s.privKey, s.authKey, key, true, true);
          AcceptIgnoresKey(cfg, s, parsed, now, key);
          hide Accept;
        }
      }
    }
  }

  lemma AcceptKeepsParsed(cfg: Config, s: State, reply: bytes, now: real)
    requires HandleReply(cfg, s, reply, now).1.Ok?
    ensures DecodeMessage(cfg.mac, reply, Keys(s.authKey, s.privKey), UseAuth(cfg))
         == HandleReply(cfg, s, reply, now).1
  {
    hide DecodeMessage;
    hide InWindow;
  }

  lemma AcceptIgnoresKey(cfg: Config, s: State, parsed: Parsed, now: real, key: Option<bytes>)
    ensures Accept(cfg, s.(authKey := key), parsed, now).1 == Accept(cfg, s, parsed, now).1
  {
  }

  // Whether a reply is authenticated, that is flagged with the right digest, once it is accepted: exactly when it
  // is flagged.
  lemma AuthenticatedExactlyIfFlagged(cfg: Config, s: State, reply: bytes, now: real)
    requires UseAuth(cfg) && HandleReply(cfg, s, reply, now).1.Ok?
    ensures var parsed := HandleReply(cfg, s, reply, now).1.value;
      (Flagged(parsed) && s.authKey.Some? && Authentic(cfg.mac, s.authKey.value, reply)) <==> Flagged(parsed)
  {
    DigestIsChecked(cfg, s, reply, now);
    hide HandleReply;
    hide Authentic;
  }

  // A reply that is not flagged and that no key signed is accepted, and with a later boot count adopted, by every
  // engine that sent the request, at every security level and under every key.
  lemma UnflaggedReplyIsAccepted(cfg: Config, s: State, h: Header, c: Content, salt: Salt, now: real)
    requires SmallHeader(h) && SmallContent(c) && h.flags == FLAG_REPORTABLE
    requires c.requestId == s.reqId && (h.engineId == s.engineId || h.engineId == [])
    requires h.boots > s.boots || (h.boots == s.boots &&
             -TIME_WINDOW_SECONDS <= h.engineTime - CurrentTime(s, now) <= TIME_WINDOW_SECONDS)
    ensures ValidBindings(c.bindings)
    ensures EncodeMessage(cfg.mac, h, EncContent(c), NO_KEYS, salt).Ok?
    ensures var reply := EncodeMessage(cfg.mac, h, EncContent(c), NO_KEYS, salt).value;
      var handled := HandleReply(cfg, s, reply, now);
      && handled.1.Ok? && !Flagged(handled.1.value) && handled.1.value.pdu == ReadContent(c)
      && (h.boots > s.boots ==>
            handled.0 == s.(boots := h.boots, engineTime := h.engineTime, ref := Some(now)))
  {
    hide EncodeMessage;
    hide DecodeMessage;
    hide EncContent;
    hide ReadContent;
    hide CurrentTime;
    hide OidBody;
    hide Has;
    ReportableOnly();
    assert Sendable(h, NO_KEYS);
    SmallRoundTrip(cfg.mac, h, c, NO_KEYS, salt);
    var reply := EncodeMessage(cfg.mac, h, EncContent(c), NO_KEYS, salt).value;
    KeysUnused(cfg.mac, reply, NO_KEYS, Keys(s.authKey, s.privKey), UseAuth(cfg));
    SameRequestId(c);
  }

  // So for every engine with a request outstanding there is an unflagged reply that moves its clock.
  lemma UnflaggedReplyMovesClock(cfg: Config, s: State, now: real) returns (reply: bytes)
    requires 0 <= s.msgId < 0x1_0000_0000 && 0 <= s.reqId < 0x1_0000_0000
    requires Small(s.engineId) && 0 <= s.boots < 0xFFFF_FFFF
    ensures var handled := HandleReply(cfg, s, reply, now);
      && handled.1.Ok? && !Flagged(handled.1.value)
      && handled.0 == s.(boots := s.boots + 1, engineTime := 0, ref := Some(now))
  {
    hide EncodeMessage;
    hide EncContent;
    hide ReadContent;
    hide HandleReply;
    hide CurrentTime;
    var h := Header(s.msgId, s.engineId, s.boots + 1, 0, [], FLAG_REPORTABLE);
    var c := Content([], [], GET_RESPONSE, s.reqId, 0, 0, [Binding([1, 3], NULL, [])]);
    ShortOid();
    assert SmallHeader(h) && SmallContent(c);
    UnflaggedReplyIsAccepted(cfg, s, h, c, Zeros(8), now);
    reply := EncodeMessage(cfg.mac, h, EncContent(c), NO_KEYS, Zeros(8)).value;
  }

  lemma ShortOid()
    ensures Encodable([1, 3]) && Small(OidBody([1, 3]))
  {
    hide Base128All;
    Base128AllSize([40 * 1 + 3] + [1, 3][2..]);
  }

  lemma SameRequestId(c: Content)
    ensures ReadContent(c).requestId == c.requestId && ReadContent(c).errorStatus == c.errorStatus
  {
  }

  lemma AdvancesSelf(s: State)
    ensures Advances(s, s)
  {
  }

  lemma AdvancesTransitive(s: State, t: State, u: State)
    requires Advances(s, t) && Advances(t, u)
    ensures Advances(s, u)
  {
  }

  lemma TakeIdsAdvances(s: State)
    ensures Advances(s, TakeIds(s))
  {
  }

  lemma AlreadyDiscovered(cfg: Config, env: Env, s: State, w: World)
    requires s.discovered
    ensures Discover(cfg, env, s, w) == Turn(s, w, Ok(true))
  {
    hide Send;
    hide FinishDiscovery;
    hide DiscoveryMessage;
  }

  // The reply that an exchange of a discovered engine handles, if its request has one.
  function HandlingOf(cfg: Config, env: Env, s: State, w: World, tag: byte, oids: seq<string>): Option<Handling> {
    var sent := SendRequest(cfg, env, TakeIds(s), w, tag, oids);
    if sent.1.Err? then None else Some(Handling(TakeIds(s), sent.0.now, sent.1.value))
  }

  // One exchange of a discovered engine, whatever the network does: the state and the result are those of handling
  // the reply, and without one nothing but the ids changes.
  lemma ExchangeLegitimate(cfg: Config, env: Env, s: State, w: World, tag: byte, oids: seq<string>)
    requires s.discovered
    ensures var t, h := Exchange(cfg, env, s, w, tag, oids), HandlingOf(cfg, env, s, w, tag, oids);
      && Advances(s, t.state)
      && (h.None? ==> t.state == TakeIds(s) && t.result.Err?)
      && (h.Some? ==> (t.state, t.result) == Handled(cfg, h.value) && t.world.now == h.value.now)
      && (t.result.Ok? ==> h.Some? && Legitimate(cfg, Acceptance(h.value, t.result.value)))
  {
    hide SendRequest;
    hide HandleReply;
    hide Advances;
    hide Legitimate;
    TakeIdsAdvances(s);
    var t := Exchange(cfg, env, s, w, tag, oids);
    var sent := SendRequest(cfg, env, TakeIds(s), w, tag, oids);
    if sent.1.Ok? {
      HandleReplyLegitimate(cfg, TakeIds(s), sent.1.value, sent.0.now);
      AdvancesTransitive(s, TakeIds(s), t.state);
    }
  }

  // ---------- Runs ----------

  datatype Call = Poll(tag: byte, oids: seq<string>) | Idle(seconds: Delay)

  function After(cfg: Config, env: Env, s: State, w: World, call: Call): (State, World) {
    match call
    case Poll(tag, oids) => var t := Exchange(cfg, env, s, w, tag, oids); (t.state, t.world)
    case Idle(seconds) => (s, w.(now := w.now + seconds))
  }

  function Run(cfg: Config, env: Env, s: State, w: World, calls: seq<Call>): (State, World)
    decreases |calls|
  {
    if calls == [] then (s, w)
    else
      var next := After(cfg, env, s, w, calls[0]);
      Run(cfg, env, next.0, next.1, calls[1..])
  }

  // Every reply handled in the run, in order.
  function Handlings(cfg: Config, env: Env, s: State, w: World, calls: seq<Call>): seq<Handling>
    decreases |calls|
  {
    if calls == [] then []
    else
      var next := After(cfg, env, s, w, calls[0]);
      var here :=
        if calls[0].Idle? then []
        else
          match HandlingOf(cfg, env, s, w, calls[0].tag, calls[0].oids)
          case None => []
          case Some(h) => [h];
      here + Handlings(cfg, env, next.0, next.1, calls[1..])
  }

  // Every response accepted in the run, in order.
  function Accepted(cfg: Config, env: Env, s: State, w: World, calls: seq<Call>): seq<Acceptance>
    decreases |calls|
  {
    if calls == [] then []
    else
      var next := After(cfg, env, s, w, calls[0]);
      var here :=
        if calls[0].Idle? then []
        else
          var t := Exchange(cfg, env, s, w, calls[0].tag, calls[0].oids);
          var h := HandlingOf(cfg, env, s, w, calls[0].tag, calls[0].oids);
          if t.result.Ok? && h.Some? then [Acceptance(h.value, t.result.value)] else [];
      here + Accepted(cfg, env, next.0, next.1, calls[1..])
  }

  // Over every sequence of exchanges after discovery: the stored clock never goes back, the
  // engine ID and the keys never change, and every accepted response passed its checks, the digest included
  // exactly when it is flagged.
  lemma {:induction false} ClockOverRuns(cfg: Config, env: Env, s: State, w: World, calls: seq<Call>)
    requires s.discovered
    ensures Advances(s, Run(cfg, env, s, w, calls).0)
    ensures forall a :: a in Accepted(cfg, env, s, w, calls) ==>
      Legitimate(cfg, a) && Advances(s, a.handling.checked)
    decreases |calls|
  {
    hide Advances;
    hide Legitimate;
    hide Exchange;
    hide HandlingOf;
    hide TakeIds;
    AdvancesSelf(s);
    if calls != [] {
      var next := After(cfg, env, s, w, calls[0]);
      if calls[0].Poll? {
        ExchangeLegitimate(cfg, env, s, w, calls[0].tag, calls[0].oids);
        TakeIdsAdvances(s);
        HandlingStart(cfg, env, s, w, calls[0].tag, calls[0].oids);
      }
      StaysDiscovered(s, next.0);
      ClockOverRuns(cfg, env, next.0, next.1, calls[1..]);
      AdvancesTransitive(s, next.0, Run(cfg, env, s, w, calls).0);
      forall a | a in Accepted(cfg, env, next.0, next.1, calls[1..])
        ensures Advances(s, a.handling.checked)
      {
        AdvancesTransitive(s, next.0, a.handling.checked);
      }
    }
  }

  lemma HandlingStart(cfg: Config, env: Env, s: State, w: World, tag: byte, oids: seq<string>)
    ensures var h := HandlingOf(cfg, env, s, w, tag, oids);
      h.Some? ==> h.value.checked == TakeIds(s)
  {
    hide SendRequest;
  }

  // A handled reply that may have moved the clock, accepted or not: in order, and with the right digest if flagged.
  predicate MovedRightly(cfg: Config, h: Handling) {
    var s := h.checked;
    var read := DecodeMessage(cfg.mac, h.reply, Keys(s.authKey, s.privKey), UseAuth(cfg));
    Handled(cfg, h).0 != s ==>
      && read.Ok? && InOrder(cfg, h, read.value)
      && (UseAuth(cfg) && Flagged(read.value) ==> s.authKey.Some? && Authentic(cfg.mac, s.authKey.value, h.reply))
  }

  lemma HandlingMovesRightly(cfg: Config, h: Handling)
    ensures MovedRightly(cfg, h)
  {
    hide DecodeMessage;
    hide Accept;
    hide InOrder;
    hide Authentic;
    hide Flagged;
    var s := h.checked;
    var read := DecodeMessage(cfg.mac, h.reply, Keys(s.authKey, s.privKey), UseAuth(cfg));
    if read.Ok? {
      AcceptInOrder(cfg, s, read.value, h.now, h.reply);
      if UseAuth(cfg) {
        DigestOfRead(cfg, s, h.reply);
      }
    }
  }

  lemma DigestOfRead(cfg: Config, s: State, reply: bytes)
    requires DecodeMessage(cfg.mac, reply, Keys(s.authKey, s.privKey), true).Ok?
    ensures Flagged(DecodeMessage(cfg.mac, reply, Keys(s.authKey, s.privKey), true).value) ==>
      s.authKey.Some? && Authentic(cfg.mac, s.authKey.value, reply)
  {
    hide DecodeMessage;
    hide Authentic;
    if s.authKey.Some? {
      ReadExactlyIf(cfg.mac, reply, s.authKey.value, s.privKey);
    } else {
      FlaggedNeedsKey(cfg.mac, reply, s.privKey);
    }
  }

  // The clock of s, apart from the ids.
  predicate SameClock(s: State, t: State) {
    s.boots == t.boots && s.engineTime == t.engineTime && s.ref == t.ref
  }

  // Over every run, a clock that is not the one it began with was moved by a handled reply, and every handled
  // reply that moved it did so rightly.
  lemma {:induction false} ClockMovesOverRuns(cfg: Config, env: Env, s: State, w: World, calls: seq<Call>)
    requires s.discovered
    ensures forall h :: h in Handlings(cfg, env, s, w, calls) ==> MovedRightly(cfg, h)
    ensures !SameClock(s, Run(cfg, env, s, w, calls).0) ==>
      exists h :: h in Handlings(cfg, env, s, w, calls) && Handled(cfg, h).0 != h.checked
    decreases |calls|
  {
    hide Advances;
    hide Legitimate;
    hide Exchange;
    hide HandleReply;
    hide MovedRightly;
    hide SendRequest;
    hide NextId;
    if calls != [] {
      var next := After(cfg, env, s, w, calls[0]);
      if calls[0].Poll? {
        ExchangeLegitimate(cfg, env, s, w, calls[0].tag, calls[0].oids);
        var h := HandlingOf(cfg, env, s, w, calls[0].tag, calls[0].oids);
        if h.Some? {
          HandlingMovesRightly(cfg, h.value);
          assert h.value in Handlings(cfg, env, s, w, calls);
        }
      } else {
        AdvancesSelf(s);
      }
      StaysDiscovered(s, next.0);
      ClockMovesOverRuns(cfg, env, next.0, next.1, calls[1..]);
      if h :| h in Handlings(cfg, env, next.0, next.1, calls[1..]) && Handled(cfg, h).0 != h.checked {
        assert h in Handlings(cfg, env, s, w, calls);
      }
    }
  }

  lemma StaysDiscovered(s: State, t: State)
    requires s.discovered && Advances(s, t)
    ensures t.discovered
  {
  }
}
