// What an engine puts into its requests and learns from replies: clock, window, flags, keys and context.
module Requests {
  import opened Results
  import opened Bytes
  import opened Dotted
  import opened Asn1
  import opened Message
  import opened MessageTheorems
  import opened Password
  import opened Transport
  import opened Engine
  import opened Mib
  import opened Agent

  // ---------- The clock ----------

  // The stored time and the whole seconds since, but never more than 2147483647.
  lemma CurrentTimeIs(s: State, now: real, seconds: nat)
    requires s.ref.Some? && s.ref.value + seconds as real <= now < s.ref.value + seconds as real + 1.0
    ensures CurrentTime(s, now) ==
      if s.engineTime + seconds < 2147483647 then s.engineTime + seconds else 2147483647
  {
  }

  // A reply is in the window if there is no authentication, from a later boot, or from this one and at most 150
  // seconds away from the estimate.
  lemma WindowIs(cfg: Config, s: State, env: Envelope, now: real)
    ensures InWindow(cfg, s, env, now) <==>
      (cfg.level == NoAuthNoPriv || env.boots > s.boots
       || (env.boots == s.boots && CurrentTime(s, now) - 150 <= env.engineTime <= CurrentTime(s, now) + 150))
  {
    hide CurrentTime;
  }

  // When a parsed reply is accepted, and what of it is stored.
  lemma AcceptIs(cfg: Config, s: State, parsed: Parsed, now: real)
    ensures var t, env := Accept(cfg, s, parsed, now), parsed.env;
      var inOrder := parsed.pdu.requestId == s.reqId && env.engineId in {[], s.engineId} && InWindow(cfg, s, env, now);
      && (t.1 == Ok(parsed) <==> inOrder && parsed.pdu.errorStatus == 0)
      && t.1 in {Ok(parsed), Err(SnmpError)}
      && (inOrder && (env.boots > s.boots || (env.boots == s.boots && env.engineTime > s.engineTime)) ==>
            t.0 == s.(boots := env.boots, engineTime := env.engineTime, ref := Some(now)))
      && (t.0 != s ==> inOrder && (env.boots > s.boots || (env.boots == s.boots && env.engineTime > s.engineTime)))
  {
    hide InWindow;
  }

  // ---------- Discovery ----------

  ghost predicate KeyFor(hash: Hash, pw: bytes, engineId: bytes, key: bytes) {
    exists fold: bytes :: Folds(fold, pw) && key == hash(hash(fold) + engineId + hash(fold))
  }

  predicate Folds(fold: bytes, pw: bytes) {
    pw != [] && |fold| == 1048576 && forall i :: 0 <= i < |fold| ==> fold[i] == pw[i % |pw|]
  }

  lemma KeyIsFor(hash: Hash, pw: bytes, engineId: bytes)
    ensures LocalizedKey(hash, pw, engineId).Ok? ==>
      KeyFor(hash, pw, engineId, LocalizedKey(hash, pw, engineId).value)
    ensures LocalizedKey(hash, pw, engineId).Ok? <==> pw != []
  {
    if pw != [] {
      var fold := Repeated(pw, 1048576);
      assert Folds(fold, pw);
      LocalizedKeyIs(hash, pw, engineId, fold);
      hide LocalizedKey;
    }
  }

  // The first 16 octets of such a key.
  ghost predicate PrivKeyFor(hash: Hash, pw: bytes, engineId: bytes, priv: bytes) {
    exists key :: KeyFor(hash, pw, engineId, key) && priv == Slice(key, 0, 16)
  }

  // What an engine holds after a report: its identity and clock, the time it came, the context unless one was
  // configured, and keys made from the passwords for it.
  lemma DiscoveryLearns(cfg: Config, s: State, reply: bytes, now: real)
    requires FinishDiscovery(cfg, s, reply, now).1.Ok?
    ensures DecodeMessage(cfg.mac, reply, NO_KEYS, false).Ok?
    ensures var t := FinishDiscovery(cfg, s, reply, now).0;
      var env := DecodeMessage(cfg.mac, reply, NO_KEYS, false).value.env;
      && t.discovered && t.engineId == env.engineId != [] && t.boots == env.boots && t.engineTime == env.engineTime
      && t.ref == Some(now) && t.msgId == s.msgId && t.reqId == s.reqId
      && t.contextEngineId == (if s.contextEngineId == [] then env.engineId else s.contextEngineId)
      && (cfg.level != NoAuthNoPriv ==>
            t.authKey.Some? && KeyFor(cfg.hash, cfg.authPassword, env.engineId, t.authKey.value))
      && (cfg.level == AuthPriv ==>
            t.privKey.Some? && PrivKeyFor(cfg.hash, cfg.privPassword, env.engineId, t.privKey.value))
  {
    hide DecodeMessage;
    hide LocalizedKey;
    hide KeyFor;
    hide Slice;
    var env := DecodeMessage(cfg.mac, reply, NO_KEYS, false).value.env;
    KeyIsFor(cfg.hash, cfg.authPassword, env.engineId);
    KeyIsFor(cfg.hash, cfg.privPassword, env.engineId);
  }

  // ---------- Requests ----------

  // Bit 0 for authentication, bit 1 for privacy, and bit 2, which asks for reports.
  lemma FlagsAre(cfg: Config)
    ensures Flags(cfg) == match cfg.level case NoAuthNoPriv => 4 case AuthNoPriv => 5 case AuthPriv => 7
  {
  }

  // A device in step reads in a request its own engine ID and boots, and a time that is at most 150 seconds behind
  // its clock as long as the request is not under way for more than 147 seconds less the timeout.
  lemma RequestIsTimely(cfg: Config, d: Device, s: State, w: World, arcs: Arcs, salt: Salt, stamp: real)
    returns (request: bytes, p: Parsed)
    requires Matched(cfg, d) && InSync(cfg, d, s, w) && SmallOid(arcs)
    requires ClockInRange(d, w.now) && w.now <= stamp <= w.now + 147.0 - cfg.timeout
    ensures var s1 := TakeIds(s);
      var pdu := EncRequestPdu(GET_NEXT_REQUEST, s1.reqId, [Render(arcs)]);
      pdu.Ok? && Request(cfg, s1, pdu.value, w.now, salt) == Ok(request)
    ensures DecodeMessage(cfg.mac, request, d.keys, d.keys.auth.Some?) == Ok(p)
    ensures p.env.engineId == d.engineId && p.env.boots == d.boots
    ensures Clock(d, stamp) - 150 <= p.env.engineTime <= Clock(d, stamp)
  {
    hide Matched;
    hide SmallOid;
    hide Render;
    hide EncRequestPdu;
    hide Request;
    hide DecodeMessage;
    hide CurrentTime;
    hide ReadContent;
    hide RequestContent;
    var s1 := TakeIds(s);
    TakenIds(s);
    hide NextId;
    EstimateBounds(d, s1, cfg.timeout, w.now);
    request, p := RequestReaches(cfg, d, s1, arcs, w.now, salt);
  }
}
