// Discovery against an honest agent, and the walk of an engine that has just been built.
module Discovery {
  import opened Results
  import opened Bytes
  import opened Dotted
  import opened Asn1
  import opened Asn1Theorems
  import opened Message
  import opened Authentication
  import opened MessageTheorems
  import opened MessageSizes
  import opened Password
  import opened Transport
  import opened Engine
  import ClockTheorems
  import opened Mib
  import opened Agent

  const SYS_DESCR_ARCS: Arcs := [1, 3, 6, 1, 2, 1, 1, 1, 0]

  // The device holds the keys the engine will localize from its passwords.
  predicate SharesPasswords(cfg: Config, d: Device) {
    var auth := LocalizedKey(cfg.hash, cfg.authPassword, d.engineId);
    var priv := LocalizedKey(cfg.hash, cfg.privPassword, d.engineId);
    && (UseAuth(cfg) ==> (auth.Ok? && d.keys.auth == Some(auth.value)))
    && (UsePriv(cfg) ==> (priv.Ok? && d.keys.priv == Some(Slice(priv.value, 0, 16))))
  }

  predicate Undiscovered(s: State) {
    !s.discovered && s.authKey == None && s.privKey == None && Small(s.contextEngineId)
  }

  // ---------- The two fixed object identifiers ----------

  lemma FixedOids()
    ensures SmallOid(SYS_DESCR_ARCS) && SmallOid(USM_STATS_UNKNOWN_ENGINE_IDS)
  {
    hide Base128All;
    Base128AllSize([40 * 1 + 3] + SYS_DESCR_ARCS[2..]);
    Base128AllSize([40 * 1 + 3] + USM_STATS_UNKNOWN_ENGINE_IDS[2..]);
  }

  lemma RenderStep(a: nat, rest: Arcs, text: string)
    requires a < 10 && rest != [] && Render(rest) == text
    ensures Render([a] + rest) == [DigitChar(a)] + "." + text
  {
    assert ([a] + rest)[1..] == rest;
  }

  lemma SysDescrTail()
    ensures Render([1, 1, 1, 0]) == "1.1.1.0"
  {
    assert Render([0]) == "0";
    hide Render;
    RenderStep(1, [0], "0");
    assert [1, 0] == [1] + [0];
    RenderStep(1, [1, 0], "1.0");
    assert [1, 1, 0] == [1] + [1, 0];
    RenderStep(1, [1, 1, 0], "1.1.0");
    assert [1, 1, 1, 0] == [1] + [1, 1, 0];
  }

  lemma SysDescrMiddle()
    ensures Render([6, 1, 2, 1, 1, 1, 0]) == "6.1.2.1.1.1.0"
  {
    hide Render;
    SysDescrTail();
    RenderStep(2, [1, 1, 1, 0], "1.1.1.0");
    assert [2, 1, 1, 1, 0] == [2] + [1, 1, 1, 0];
    RenderStep(1, [2, 1, 1, 1, 0], "2.1.1.1.0");
    assert [1, 2, 1, 1, 1, 0] == [1] + [2, 1, 1, 1, 0];
    RenderStep(6, [1, 2, 1, 1, 1, 0], "1.2.1.1.1.0");
    assert [6, 1, 2, 1, 1, 1, 0] == [6] + [1, 2, 1, 1, 1, 0];
  }

  lemma SysDescrText()
    ensures Render(SYS_DESCR_ARCS) == SYS_DESCR
  {
    hide Render;
    SysDescrMiddle();
    RenderStep(3, [6, 1, 2, 1, 1, 1, 0], "6.1.2.1.1.1.0");
    assert [3, 6, 1, 2, 1, 1, 1, 0] == [3] + [6, 1, 2, 1, 1, 1, 0];
    RenderStep(1, [3, 6, 1, 2, 1, 1, 1, 0], "3.6.1.2.1.1.1.0");
    assert SYS_DESCR_ARCS == [1] + [3, 6, 1, 2, 1, 1, 1, 0];
  }

  // ---------- The discovery request and the report ----------

  function DiscoveryContent(reqId: int): Content {
    Content([], [], GET_REQUEST, reqId, 0, 0, [Binding(SYS_DESCR_ARCS, NULL, [])])
  }

  lemma DiscoveryIsContent(cfg: Config, s: State)
    ensures ValidBindings(DiscoveryContent(s.reqId).bindings)
    ensures DiscoveryMessage(cfg, s)
         == EncodeMessage(cfg.mac, DiscoveryHeader(s.msgId), EncContent(DiscoveryContent(s.reqId)), NO_KEYS, Zeros(8))
  {
    hide EncRequestPdu;
    hide EncPdu;
    hide EncBindings;
    hide EncodeMessage;
    hide Render;
    FixedOids();
    SysDescrText();
    RequestPduIs(GET_REQUEST, s.reqId, SYS_DESCR_ARCS);
  }

  lemma DiscoveryIsSmall(s: State)
    requires 0 <= s.msgId < 0x8000_0000 && 0 <= s.reqId < 0x8000_0000
    ensures SmallHeader(DiscoveryHeader(s.msgId)) && SmallContent(DiscoveryContent(s.reqId))
    ensures Sendable(DiscoveryHeader(s.msgId), NO_KEYS)
  {
    hide OidBody;
    FixedOids();
    ReportableOnly();
  }

  lemma DiscoveryReaches(cfg: Config, d: Device, s: State) returns (request: bytes, p: Parsed)
    requires 0 <= s.msgId < 0x8000_0000 && 0 <= s.reqId < 0x8000_0000
    ensures DiscoveryMessage(cfg, s) == Ok(request)
    ensures DecodeMessage(cfg.mac, request, d.keys, d.keys.auth.Some?) == Ok(p)
    ensures p.env.engineId == [] && p.env.msgId == s.msgId && p.env.username == [] && p.pdu.requestId == s.reqId
  {
    hide DiscoveryMessage;
    hide EncodeMessage;
    hide DecodeMessage;
    hide EncContent;
    hide ReadBindings;
    hide SmallContent;
    hide SmallHeader;
    hide Sendable;
    DiscoveryIsContent(cfg, s);
    DiscoveryIsSmall(s);
    var h, c := DiscoveryHeader(s.msgId), DiscoveryContent(s.reqId);
    SmallRoundTrip(cfg.mac, h, c, NO_KEYS, Zeros(8));
    request := EncodeMessage(cfg.mac, h, EncContent(c), NO_KEYS, Zeros(8)).value;
    p := DecodeMessage(cfg.mac, request, NO_KEYS, true).value;
    KeysUnused(cfg.mac, request, NO_KEYS, d.keys, d.keys.auth.Some?);
  }

  lemma ReportIsSmall(cfg: Config, d: Device, p: Parsed, stamp: real)
    requires Matched(cfg, d) && ClockInRange(d, stamp)
    requires 0 <= p.env.msgId < 0x8000_0000 && p.env.username == [] && 0 <= p.pdu.requestId < 0x8000_0000
    ensures SmallHeader(ReportHeader(d, p, stamp)) && SmallContent(ReportContent(d, p))
    ensures Sendable(ReportHeader(d, p, stamp), NO_KEYS)
  {
    hide OidBody;
    hide ValidTable;
    FixedOids();
    ReportableOnly();
  }

  lemma ReportReads(cfg: Config, d: Device, s: State, request: bytes, p: Parsed, stamp: real, salt: Salt)
    returns (q: Parsed)
    requires Matched(cfg, d) && ClockInRange(d, stamp)
    requires 0 <= s.msgId < 0x8000_0000 && 0 <= s.reqId < 0x8000_0000
    requires DecodeMessage(cfg.mac, request, d.keys, d.keys.auth.Some?) == Ok(p)
    requires p.env.engineId == [] && p.env.msgId == s.msgId && p.env.username == [] && p.pdu.requestId == s.reqId
    ensures Respond(cfg.mac, d, request, stamp, salt).Ok?
    ensures |Respond(cfg.mac, d, request, stamp, salt).value| <= MAX_MESSAGE_SIZE
    ensures DecodeMessage(cfg.mac, Respond(cfg.mac, d, request, stamp, salt).value, NO_KEYS, false) == Ok(q)
    ensures PeekMsgId(Respond(cfg.mac, d, request, stamp, salt).value) == Ok(s.msgId)
    ensures q.env.engineId == d.engineId && q.env.boots == d.boots && q.env.engineTime == Clock(d, stamp)
  {
    hide EncodeMessage;
    hide DecodeMessage;
    hide EncContent;
    hide ReadContent;
    hide SmallContent;
    hide SmallHeader;
    hide Sendable;
    hide ValidTable;
    hide PeekMsgId;
    hide Clock;
    hide AnswerBindings;
    ReportIsSmall(cfg, d, p, stamp);
    ReportValid(d, p);
    var h, c := ReportHeader(d, p, stamp), ReportContent(d, p);
    SmallRoundTrip(cfg.mac, h, c, NO_KEYS, salt);
    var reply := EncodeMessage(cfg.mac, h, EncContent(c), NO_KEYS, salt).value;
    assert Respond(cfg.mac, d, request, stamp, salt) == Ok(reply);
    VerifyOff(cfg.mac, reply, NO_KEYS, false);
    q := DecodeMessage(cfg.mac, reply, NO_KEYS, true).value;
    PeekAgrees(cfg.mac, reply, NO_KEYS, true);
  }

  // ---------- What discovery leaves behind ----------

  lemma LocalizeShares(cfg: Config, d: Device, s: State)
    requires SharesPasswords(cfg, d) && s.engineId == d.engineId && s.authKey == None && s.privKey == None
    requires d.keys.auth.Some? == UseAuth(cfg) && d.keys.priv.Some? == UsePriv(cfg)
    ensures Localize(cfg, s) == (s.(authKey := d.keys.auth, privKey := d.keys.priv), Ok(true))
  {
    hide LocalizedKey;
    assert d.keys.auth.None? ==> d.keys.auth == None;
    assert d.keys.priv.None? ==> d.keys.priv == None;
  }

  lemma LearnInSync(cfg: Config, d: Device, s: State, env: Envelope, w: World, stamp: real)
    requires Matched(cfg, d) && Small(s.contextEngineId)
    requires w.now - cfg.timeout <= stamp <= w.now && ClockInRange(d, stamp)
    requires env.engineId == d.engineId && env.boots == d.boots && env.engineTime == Clock(d, stamp)
    ensures InSync(cfg, d, Learn(s, env, w.now).(authKey := d.keys.auth, privKey := d.keys.priv, discovered := true), w)
  {
    hide ValidTable;
  }

  // A new engine discovers the device within the time of its attempts and is in sync with it.
  lemma DiscoverySucceeds(cfg: Config, env: Env, d: Device, s: State, w: World)
    requires Matched(cfg, d) && Honest(cfg, env, d) && SharesPasswords(cfg, d) && Undiscovered(s)
    requires ClockInRange(d, w.now) && ClockInRange(d, w.now + Patience(cfg))
    ensures var t := Discover(cfg, env, s, w);
      && t.result == Ok(true) && InSync(cfg, d, t.state, t.world)
      && w.now <= t.world.now <= w.now + Patience(cfg)
  {
    hide DiscoveryMessage;
    hide DecodeMessage;
    hide Send;
    hide Respond;
    hide PeekMsgId;
    hide Clock;
    hide Honest;
    hide Localize;
    hide Learn;
    hide SharesPasswords;
    hide InSync;
    hide NextId;
    hide ValidTable;
    hide RepliesWith;
    hide ArrivalIn;
    hide Patience;
    hide ClockInRange;
    var s1 := TakeIds(s);
    TakenIds(s);
    var request, p := DiscoveryReaches(cfg, d, s1);
    var at := HonestAnswer(cfg, env, d, w.sends, w.now, request, s1.msgId);
    StampInRange(cfg, env, d, w, request, s1.msgId, at);
    var q := ReportReads(cfg, d, s1, request, p, at.stamp, at.salt);
    AnswerArrives(cfg, env, d, w, request, s1.msgId, at);
    var w' := ArrivalIn(cfg, env, w, request, s1.msgId, at);
    var learned := Learn(s1, q.env, w'.now);
    LearnKeeps(s1, q.env, w'.now);
    LocalizeShares(cfg, d, learned);
    LearnInSync(cfg, d, s1, q.env, w', at.stamp);
  }

  lemma LearnKeeps(s: State, env: Envelope, now: real)
    ensures Learn(s, env, now).engineId == env.engineId
    ensures Learn(s, env, now).authKey == s.authKey && Learn(s, env, now).privKey == s.privKey
  {
  }

  // Once discovery has succeeded, an exchange goes on exactly as if it had been done before.
  lemma {:induction false} DiscoveryOnce(cfg: Config, env: Env, s: State, w: World, prefix: string, current: string,
                                         left: nat, out: map<string, Scalar>)
    requires left > 0
    requires Discover(cfg, env, s, w).result == Ok(true) && Discover(cfg, env, s, w).state.discovered
    ensures var t := Discover(cfg, env, s, w);
      WalkFrom(cfg, env, s, w, prefix, current, left, out)
        == WalkFrom(cfg, env, t.state, t.world, prefix, current, left, out)
  {
    hide Ask;
    hide Discover;
    var t := Discover(cfg, env, s, w);
    ClockTheorems.AlreadyDiscovered(cfg, env, t.state, t.world);
    assert GetNext(cfg, env, s, w, current) == GetNext(cfg, env, t.state, t.world, current);
    hide GetNext;
  }

  lemma InSyncDiscovered(cfg: Config, d: Device, s: State, w: World)
    requires InSync(cfg, d, s, w)
    ensures s.discovered
  {
  }

  // From a new engine: discovery, key localization and the walk over the wire are the walk of the device's table.
  lemma NewEngineFollowsTable(cfg: Config, env: Env, d: Device, s: State, w: World, base: Arcs, maxOids: nat)
    requires Matched(cfg, d) && Honest(cfg, env, d) && SharesPasswords(cfg, d) && Undiscovered(s) && SmallOid(base)
    requires ClockInRange(d, w.now) && ClockInRange(d, w.now + Budget(Patience(cfg), maxOids + 1))
    ensures WalkTurn(cfg, env, s, w, Render(base), maxOids).result == TableWalk(d.table, base, base, maxOids, map[])
  {
    hide WalkFrom;
    hide TableWalk;
    hide Discover;
    hide Render;
    hide Honest;
    hide InSync;
    hide OidBody;
    hide Undiscovered;
    hide SharesPasswords;
    hide Matched;
    hide ClockInRange;
    StripRender(base);
    if maxOids == 0 {
      NoRounds(cfg, env, s, w, Render(base) + ".", Render(base), map[]);
      NoTableRounds(d.table, base, map[]);
    } else {
      var horizon := w.now + Budget(Patience(cfg), maxOids + 1);
      ClockStays(d, w.now, w.now + Patience(cfg), horizon);
      DiscoverySucceeds(cfg, env, d, s, w);
      var t := Discover(cfg, env, s, w);
      InSyncDiscovered(cfg, d, t.state, t.world);
      DiscoveryOnce(cfg, env, s, w, Render(base) + ".", Render(base), maxOids, map[]);
      ClockStays(d, w.now, t.world.now, horizon);
      ClockStays(d, w.now, t.world.now + Budget(Patience(cfg), maxOids), horizon);
      WalkFollowsTable(cfg, env, d, t.state, t.world, base, base, maxOids, map[]);
    }
  }

  lemma NoTableRounds(t: seq<Entry>, base: Arcs, out: map<string, Scalar>)
    ensures TableWalk(t, base, base, 0, out) == Err(SnmpError)
  {
  }

  // So it returns exactly the instances strictly under base, or raises when there are maxOids of them or more.
  lemma NewEngineWalk(cfg: Config, env: Env, d: Device, s: State, w: World, base: Arcs, maxOids: nat)
    requires Matched(cfg, d) && Honest(cfg, env, d) && SharesPasswords(cfg, d) && Undiscovered(s) && SmallOid(base)
    requires ClockInRange(d, w.now) && ClockInRange(d, w.now + Budget(Patience(cfg), maxOids + 1))
    requires NoSentinel(d.table, base)
    ensures WalkTurn(cfg, env, s, w, Render(base), maxOids).result ==
      if Count(d.table, base) < maxOids then Ok(Subtree(d.table, base)) else Err(SnmpError)
  {
    hide WalkTurn;
    hide TableWalk;
    hide Honest;
    hide Undiscovered;
    hide SharesPasswords;
    hide SmallOid;
    NewEngineFollowsTable(cfg, env, d, s, w, base, maxOids);
    MatchedTable(cfg, d);
    hide Matched;
    WalkComplete(d.table, base, maxOids);
  }

  // It returns exactly those if and only if no exception text stands below the base and they are fewer.
  lemma NewEngineWalkIff(cfg: Config, env: Env, d: Device, s: State, w: World, base: Arcs, maxOids: nat)
    requires Matched(cfg, d) && Honest(cfg, env, d) && SharesPasswords(cfg, d) && Undiscovered(s) && SmallOid(base)
    requires ClockInRange(d, w.now) && ClockInRange(d, w.now + Budget(Patience(cfg), maxOids + 1))
    ensures WalkTurn(cfg, env, s, w, Render(base), maxOids).result == Ok(Subtree(d.table, base)) <==>
      (NoSentinel(d.table, base) && Count(d.table, base) < maxOids)
  {
    hide WalkTurn;
    hide TableWalk;
    hide NoSentinel;
    hide Honest;
    hide Undiscovered;
    hide SharesPasswords;
    hide SmallOid;
    NewEngineFollowsTable(cfg, env, d, s, w, base, maxOids);
    MatchedTable(cfg, d);
    hide Matched;
    WalkCompleteIff(d.table, base, maxOids);
  }

  lemma NoRounds(cfg: Config, env: Env, s: State, w: World, prefix: string, current: string, out: map<string, Scalar>)
    ensures WalkFrom(cfg, env, s, w, prefix, current, 0, out).result == Err(SnmpError)
  {
  }
}
