// The engine against an honest agent: discovery, every exchange and the walk succeed,
// through encoding, encryption, signature, transport and the time window.
module Agent {
  import opened Results
  import opened Bytes
  import opened Dotted
  import opened Asn1
  import opened Asn1Theorems
  import opened Message
  import opened Authentication
  import opened MessageTheorems
  import opened MessageSizes
  import opened Password
  import opened Transport
  import opened Engine
  import opened Mib

  // ---------- The agent ----------

  // A device with a fixed table and a clock that runs at the rate of the host's.
  datatype Device = Device(engineId: bytes, boots: int, offset: real, table: seq<Entry>, keys: Keys)

  const REPORT: byte := 0xA8
  const USM_STATS_UNKNOWN_ENGINE_IDS := [1, 3, 6, 1, 6, 3, 15, 1, 1, 3, 0]

  function Clock(d: Device, now: real): int {
    (now + d.offset).Floor
  }

  function AnswerBinding(t: seq<Entry>, oid: string): Result<Binding> {
    var arcs :- ParseDotted(oid);
    var k := Successor(t, arcs);
    Ok(if k < |t| then Binding(t[k].oid, t[k].tag, t[k].body) else Binding(arcs, END_OF_MIB_VIEW, []))
  }

  function AnswerBindings(t: seq<Entry>, varbinds: seq<VarBind>): Result<seq<Binding>> {
    if varbinds == [] then Ok([])
    else
      var first :- AnswerBinding(t, varbinds[0].oid);
      var rest :- AnswerBindings(t, varbinds[1..]);
      Ok([first] + rest)
  }

  function ReplyHeader(d: Device, p: Parsed, now: real): Header {
    Header(p.env.msgId, d.engineId, d.boots, Clock(d, now), p.env.username, p.env.flags)
  }

  function ReplyContent(d: Device, p: Parsed, bs: seq<Binding>): Content {
    Content(if p.pdu.contextEngineId == [] then d.engineId else p.pdu.contextEngineId,
            p.pdu.contextName, GET_RESPONSE, p.pdu.requestId, 0, 0, bs)
  }

  function ReportHeader(d: Device, p: Parsed, now: real): Header {
    Header(p.env.msgId, d.engineId, d.boots, Clock(d, now), p.env.username, FLAG_REPORTABLE)
  }

  function ReportContent(d: Device, p: Parsed): Content {
    Content(d.engineId, [], REPORT, p.pdu.requestId, 0, 0, [Binding(USM_STATS_UNKNOWN_ENGINE_IDS, COUNTER32, [1])])
  }

  // The answer to a request: a report while the engine ID is unknown to the sender, else a response.
  function Respond(mac: Mac, d: Device, request: bytes, now: real, salt: Salt): Result<bytes> {
    var p :- DecodeMessage(mac, request, d.keys, d.keys.auth.Some?);
    if p.env.engineId != d.engineId then
      ReportValid(d, p);
      EncodeMessage(mac, ReportHeader(d, p, now), EncContent(ReportContent(d, p)), NO_KEYS, salt)
    else
      var bs :- AnswerBindings(d.table, p.pdu.varbinds);
      if !ValidBindings(bs) then Err(SnmpError)
      else EncodeMessage(mac, ReplyHeader(d, p, now), EncContent(ReplyContent(d, p, bs)), d.keys, salt)
  }

  lemma ReportValid(d: Device, p: Parsed)
    ensures ValidBindings(ReportContent(d, p).bindings)
  {
  }

  // Where the answer to a request comes in: the attempt, the datagram of that attempt, and when and with which salt
  // the device made it.
  datatype Arrival = Arrival(attempt: nat, datagram: nat, stamp: real, salt: Salt)

  // Whatever was lost, malformed or foreign before it, the answer comes in time in the attempt it was made in: no
  // attempt before and no datagram before is taken for it.
  predicate RepliesWith(cfg: Config, net: Network, d: Device, n: nat, now: real, request: bytes, id: int, at: Arrival)
  {
    var start := Reach(net, n, now, request, id, cfg.timeout, at.attempt);
    var attempt := net(start.0, start.1, request);
    var r := Respond(cfg.mac, d, request, at.stamp, at.salt);
    && at.attempt < Attempts(cfg) && attempt.Sent?
    && NoneBefore(net, n, now, request, id, cfg.timeout, at.attempt)
    && at.datagram < |attempt.events| && InTime(attempt.events, at.datagram, cfg.timeout)
    && start.1 <= at.stamp <= start.1 + ArrivalTime(attempt.events, at.datagram)
    && (r.Ok? && |r.value| <= MAX_MESSAGE_SIZE && PeekMsgId(r.value) == Ok(id) ==>
          attempt.events[at.datagram].data == r.value
          && forall j :: 0 <= j < at.datagram ==> !Answers(attempt.events[j], id))
  }

  // A request first sent as the n-th datagram, at `now`, is answered if the answer fits in one datagram.
  ghost predicate Answered(cfg: Config, env: Env, d: Device, n: nat, now: real, request: bytes, id: int) {
    exists at: Arrival :: RepliesWith(cfg, env.net, d, n, now, request, id, at)
  }

  // Every request is answered.
  ghost predicate Honest(cfg: Config, env: Env, d: Device) {
    forall n: nat, now: real, request: bytes, id: int :: Answered(cfg, env, d, n, now, request, id)
  }

  // There are such networks: the one that answers at once.
  lemma HonestExists(cfg: Config, d: Device, salts: nat -> Salt)
    requires cfg.retries >= 0 && cfg.timeout > 0.0
    ensures Honest(cfg, PromptEnv(cfg, d, salts), d)
  {
    hide Respond;
    hide PeekMsgId;
    forall n: nat, now: real, request: bytes, id: int
      ensures Answered(cfg, PromptEnv(cfg, d, salts), d, n, now, request, id)
    {
      assert RepliesWith(cfg, PromptEnv(cfg, d, salts).net, d, n, now, request, id, Arrival(0, 0, now, Zeros(8)));
    }
  }

  function PromptEnv(cfg: Config, d: Device, salts: nat -> Salt): Env {
    Env((n: nat, now: real, request: bytes) => Sent([Prompt(cfg, d, now, request)]), salts)
  }

  // The answer as a datagram, at once; an empty one without an answer.
  function Prompt(cfg: Config, d: Device, now: real, request: bytes): Event {
    var r := Respond(cfg.mac, d, request, now, Zeros(8));
    Arrive(0.0, if r.Ok? then r.value else [])
  }

  // And one that loses every other datagram, and lets a malformed one come before each answer.
  function LossyEnv(cfg: Config, d: Device, salts: nat -> Salt): Env {
    Env((n: nat, now: real, request: bytes) =>
          if n % 2 == 0 then Sent([]) else Sent([Arrive(0.0, []), Prompt(cfg, d, now, request)]), salts)
  }

  lemma EmptyIsMalformed(id: int)
    ensures !Answers(Arrive(0.0, []), id)
  {
    hide Children;
    assert Received([]) == [];
  }

  lemma HonestThoughLossy(cfg: Config, d: Device, salts: nat -> Salt)
    requires cfg.retries >= 1 && cfg.timeout > 0.0
    ensures Honest(cfg, LossyEnv(cfg, d, salts), d)
  {
    hide Respond;
    hide PeekMsgId;
    forall n: nat, now: real, request: bytes, id: int
      ensures Answered(cfg, LossyEnv(cfg, d, salts), d, n, now, request, id)
    {
      LossyReplies(cfg, d, salts, n, now, request, id);
    }
  }

  lemma SecondAtOnce(answer: Event, timeout: Delay, id: int)
    requires answer.Arrive? && answer.wait == 0.0 && timeout > 0.0
    ensures var events := [Arrive(0.0, []), answer];
      && InTime(events, 1, timeout) && ArrivalTime(events, 1) == 0.0
      && forall j :: 0 <= j < 1 ==> !Answers(events[j], id)
  {
    EmptyIsMalformed(id);
    hide Answers;
    var events := [Arrive(0.0, []), answer];
    assert events[1..] == [answer];
    assert ArrivalTime(events, 0) == 0.0 && ArrivalTime([answer], 0) == 0.0;
  }

  lemma LossyReplies(cfg: Config, d: Device, salts: nat -> Salt, n: nat, now: real, request: bytes, id: int)
    requires cfg.retries >= 1 && cfg.timeout > 0.0
    ensures Answered(cfg, LossyEnv(cfg, d, salts), d, n, now, request, id)
  {
    hide Respond;
    hide Answers;
    hide InTime;
    var net := LossyEnv(cfg, d, salts).net;
    assert Reach(net, n, now, request, id, cfg.timeout, 0) == (n, now);
    if n % 2 == 0 {
      var later := now + cfg.timeout;
      assert AttemptReply(net, n, now, request, id, cfg.timeout, 0) == None;
      assert Reach(net, n, now, request, id, cfg.timeout, 1) == (n + 1, later);
      assert (n + 1) % 2 == 1;
      SecondAtOnce(Prompt(cfg, d, later, request), cfg.timeout, id);
      assert RepliesWith(cfg, net, d, n, now, request, id, Arrival(1, 1, later, Zeros(8)));
    } else {
      SecondAtOnce(Prompt(cfg, d, now, request), cfg.timeout, id);
      assert RepliesWith(cfg, net, d, n, now, request, id, Arrival(0, 1, now, Zeros(8)));
    }
  }

  predicate ValidTable(t: seq<Entry>) {
    && Ascending(t)
    && forall i :: 0 <= i < |t| ==> Encodable(t[i].oid) && Small(OidBody(t[i].oid)) && Small(t[i].body)
  }

  // Engine and device have matching security levels; the timeout leaves room in the 150 s window.
  predicate Matched(cfg: Config, d: Device) {
    && d.keys.auth.Some? == UseAuth(cfg) && d.keys.priv.Some? == UsePriv(cfg)
    && (d.keys.priv.Some? ==> |d.keys.priv.value| >= 16)
    && d.engineId != [] && Small(d.engineId) && Small(cfg.username) && Small(cfg.contextName)
    && 0 <= d.boots < 0x8000_0000
    && ValidTable(d.table)
    && 0.0 < cfg.timeout <= 148.0 && cfg.retries >= 0
  }

  // The device's clock reads a 31-bit number.
  predicate ClockInRange(d: Device, now: real) {
    0.0 <= now + d.offset < 2147483647.0
  }

  // The stored time is at most one timeout and one tick older than the device's clock at `ref`.
  predicate ClockInSync(d: Device, s: State, timeout: real) {
    && s.boots == d.boots && s.ref.Some? && 0 <= s.engineTime
    && s.ref.value + d.offset - timeout - 1.0 < s.engineTime as real <= s.ref.value + d.offset
  }

  predicate InSync(cfg: Config, d: Device, s: State, w: World) {
    && s.discovered && s.engineId == d.engineId && s.authKey == d.keys.auth && s.privKey == d.keys.priv
    && Small(s.contextEngineId)
    && ClockInSync(d, s, cfg.timeout) && s.ref.value <= w.now
  }

  // ---------- The clock never drifts out of the window ----------

  lemma EstimateBounds(d: Device, s: State, timeout: real, now: real)
    requires ClockInSync(d, s, timeout) && s.ref.value <= now && ClockInRange(d, now)
    ensures var est := CurrentTime(s, now);
      && 0 <= est < 0x8000_0000
      && now + d.offset - timeout - 2.0 < est as real <= now + d.offset
  {
    var elapsed := Truncate(now - s.ref.value);
    assert elapsed as real <= now - s.ref.value < elapsed as real + 1.0;
  }

  lemma HonestWithinWindow(cfg: Config, d: Device, s: State, env: Envelope, now: real, stamp: real)
    requires ClockInSync(d, s, cfg.timeout) && s.ref.value <= now && ClockInRange(d, now) && ClockInRange(d, stamp)
    requires cfg.timeout <= 148.0 && now - cfg.timeout <= stamp <= now
    requires env.boots == d.boots && env.engineTime == Clock(d, stamp)
    ensures InWindow(cfg, s, env, now)
    ensures ClockInSync(d, Adopt(s, env, now), cfg.timeout)
    ensures Adopt(s, env, now).ref.value <= now
  {
    EstimateBounds(d, s, cfg.timeout, now);
    hide CurrentTime;
    assert env.engineTime as real <= stamp + d.offset < env.engineTime as real + 1.0;
  }

  // ---------- Messages between the two ----------

  // The plaintext peek agrees with the full parse.
  lemma PeekAgrees(mac: Mac, data: bytes, keys: Keys, verify: bool)
    requires DecodeMessage(mac, data, keys, verify).Ok?
    ensures PeekMsgId(data) == Ok(DecodeMessage(mac, data, keys, verify).value.env.msgId)
  {
    hide Decode;
    hide Children;
    hide ParseInt;
    hide VerifyAuth;
    hide ScopedBody;
    hide OpenPdu;
    hide UsmFields;
  }

  function RequestContent(cfg: Config, s: State, arcs: Arcs): Content {
    Content(s.contextEngineId, cfg.contextName, GET_NEXT_REQUEST, s.reqId, 0, 0, [Binding(arcs, NULL, [])])
  }

  lemma OneBinding(b: Binding)
    requires Encodable(b.oid)
    ensures ValidBindings([b])
    ensures EncBindings([b]) == [EncSeq([EncArcs(b.oid), Tlv(b.tag, b.body)])]
    ensures ReadBindings([b]) == [VarBind(Render(b.oid), DecodeValue(b.tag, b.body))]
  {
    hide Tlv;
    hide OidBody;
    hide EncSeq;
    hide Render;
    hide DecodeValue;
    assert [b][1..] == [];
    assert EncBindings([]) == [] && ReadBindings([]) == [];
  }

  // What enc_request_pdu builds for one OID is the encoding of the request content.
  lemma RequestPduIs(tag: byte, requestId: int, arcs: Arcs)
    requires Encodable(arcs)
    ensures ValidBindings([Binding(arcs, NULL, [])])
    ensures EncRequestPdu(tag, requestId, [Render(arcs)])
         == Ok(EncPdu(tag, requestId, 0, 0, EncBindings([Binding(arcs, NULL, [])])))
  {
    hide Tlv;
    hide EncArcs;
    hide EncPdu;
    hide EncSeq;
    hide Render;
    hide ParseDotted;
    hide EncOid;
    OidTextRoundTrip(arcs);
    OneBinding(Binding(arcs, NULL, []));
    assert [Render(arcs)][1..] == [];
    assert EncNullBinds([]) == Ok([]);
    assert EncNullBinds([Render(arcs)]) == Ok([EncSeq([EncArcs(arcs), EncNull()])] + []);
  }

  lemma RequestIsContent(cfg: Config, s: State, arcs: Arcs, now: real, salt: Salt)
    requires Encodable(arcs)
    ensures EncRequestPdu(GET_NEXT_REQUEST, s.reqId, [Render(arcs)]).Ok?
    ensures ValidBindings(RequestContent(cfg, s, arcs).bindings)
    ensures Request(cfg, s, EncRequestPdu(GET_NEXT_REQUEST, s.reqId, [Render(arcs)]).value, now, salt)
         == EncodeMessage(cfg.mac, RequestHeader(cfg, s, now), EncContent(RequestContent(cfg, s, arcs)),
                          Keys(s.authKey, s.privKey), salt)
  {
    hide EncRequestPdu;
    hide EncPdu;
    hide EncBindings;
    hide EncodeMessage;
    hide RequestHeader;
    hide Render;
    RequestPduIs(GET_NEXT_REQUEST, s.reqId, arcs);
  }

  predicate SmallOid(arcs: Arcs) {
    Encodable(arcs) && Small(OidBody(arcs))
  }

  lemma FlagsMeanLevel(cfg: Config)
    ensures Has(Flags(cfg), FLAG_AUTH) == UseAuth(cfg)
    ensures Has(Flags(cfg), FLAG_PRIV) == UsePriv(cfg)
  {
  }

  lemma RequestIsSmall(cfg: Config, d: Device, s: State, arcs: Arcs, now: real)
    requires Matched(cfg, d) && SmallOid(arcs) && 0 <= s.msgId < 0x8000_0000 && 0 <= s.reqId < 0x8000_0000
    requires s.engineId == d.engineId && s.boots == d.boots && Small(s.contextEngineId)
    requires 0 <= CurrentTime(s, now) < 0x8000_0000
    ensures SmallHeader(RequestHeader(cfg, s, now)) && SmallContent(RequestContent(cfg, s, arcs))
    ensures Sendable(RequestHeader(cfg, s, now), d.keys)
  {
    hide CurrentTime;
    hide OidBody;
    hide Flags;
    hide Has;
    FlagsMeanLevel(cfg);
    Pow2Of32();
  }

  // The device reads the request as it was meant.
  lemma RequestReaches(cfg: Config, d: Device, s: State, arcs: Arcs, now: real, salt: Salt)
    returns (request: bytes, p: Parsed)
    requires Matched(cfg, d) && SmallOid(arcs) && 0 <= s.msgId < 0x8000_0000 && 0 <= s.reqId < 0x8000_0000
    requires s.engineId == d.engineId && s.boots == d.boots && Small(s.contextEngineId)
    requires s.authKey == d.keys.auth && s.privKey == d.keys.priv
    requires 0 <= CurrentTime(s, now) < 0x8000_0000
    ensures EncRequestPdu(GET_NEXT_REQUEST, s.reqId, [Render(arcs)]).Ok?
    ensures Request(cfg, s, EncRequestPdu(GET_NEXT_REQUEST, s.reqId, [Render(arcs)]).value, now, salt) == Ok(request)
    ensures DecodeMessage(cfg.mac, request, d.keys, d.keys.auth.Some?) == Ok(p)
    ensures p.env.engineId == d.engineId && p.env.msgId == s.msgId
      && p.env.username == cfg.username && p.env.flags == Flags(cfg)
    ensures p.env.boots == s.boots && p.env.engineTime == CurrentTime(s, now)
    ensures p.pdu == ReadContent(RequestContent(cfg, s, arcs))
  {
    hide EncRequestPdu;
    hide Request;
    hide EncodeMessage;
    hide DecodeMessage;
    hide EncContent;
    hide ReadContent;
    hide Render;
    hide Flags;
    hide CurrentTime;
    hide SmallContent;
    hide SmallHeader;
    hide Sendable;
    hide Small;
    hide OidBody;
    hide ValidTable;
    var h, c := RequestHeader(cfg, s, now), RequestContent(cfg, s, arcs);
    RequestIsContent(cfg, s, arcs, now, salt);
    RequestIsSmall(cfg, d, s, arcs, now);
    SmallRoundTrip(cfg.mac, h, c, d.keys, salt);
    assert Keys(s.authKey, s.privKey) == d.keys;
    request := EncodeMessage(cfg.mac, h, EncContent(c), d.keys, salt).value;
    VerifyOff(cfg.mac, request, d.keys, d.keys.auth.Some?);
    p := DecodeMessage(cfg.mac, request, d.keys, true).value;
  }

  // The binding the device puts in its answer.
  function Answer(t: seq<Entry>, arcs: Arcs): Binding {
    var k := Successor(t, arcs);
    if k < |t| then Binding(t[k].oid, t[k].tag, t[k].body) else Binding(arcs, END_OF_MIB_VIEW, [])
  }

  lemma AnswerIs(t: seq<Entry>, arcs: Arcs)
    requires ValidTable(t) && SmallOid(arcs)
    ensures SmallOid(Answer(t, arcs).oid) && Small(Answer(t, arcs).body)
    ensures AnswerBindings(t, ReadBindings([Binding(arcs, NULL, [])])) == Ok([Answer(t, arcs)])
    ensures ReadBindings([Answer(t, arcs)]) == [VarBind(Render(NextBinding(t, arcs).0), NextBinding(t, arcs).1)]
  {
    hide OidBody;
    hide Render;
    hide ParseDotted;
    hide ReadBindings;
    hide DecodeValue;
    OneBinding(Binding(arcs, NULL, []));
    ParseRender(arcs);
    var v := VarBind(Render(arcs), DecodeValue(NULL, []));
    assert [v][1..] == [] && AnswerBindings(t, []) == Ok([]);
    assert [Answer(t, arcs)] + [] == [Answer(t, arcs)];
    assert AnswerBinding(t, v.oid) == Ok(Answer(t, arcs));
    OneBinding(Answer(t, arcs));
    assert DecodeValue(END_OF_MIB_VIEW, []) == Text(END_OF_MIB_VIEW_TEXT) by {
      ExceptionText();
    }
  }

  lemma ExceptionText()
    ensures DecodeValue(END_OF_MIB_VIEW, []) == Text(END_OF_MIB_VIEW_TEXT)
  {
  }

  lemma ReplyIsSmall(cfg: Config, d: Device, s: State, arcs: Arcs, p: Parsed, stamp: real)
    requires Matched(cfg, d) && SmallOid(arcs) && 0 <= s.msgId < 0x8000_0000 && 0 <= s.reqId < 0x8000_0000
    requires Small(s.contextEngineId) && ClockInRange(d, stamp)
    requires p.env.msgId == s.msgId && p.env.username == cfg.username && p.env.flags == Flags(cfg)
    requires p.pdu == ReadContent(RequestContent(cfg, s, arcs))
    ensures SmallHeader(ReplyHeader(d, p, stamp)) && SmallContent(ReplyContent(d, p, [Answer(d.table, arcs)]))
    ensures Sendable(ReplyHeader(d, p, stamp), d.keys)
  {
    hide OidBody;
    hide Flags;
    hide Has;
    hide ReadBindings;
    hide Answer;
    FlagsMeanLevel(cfg);
    AnswerIs(d.table, arcs);
    Pow2Of32();
  }

  // The reply that comes back decodes to the answer.
  lemma ReplyReads(cfg: Config, d: Device, s: State, arcs: Arcs, request: bytes, p: Parsed, stamp: real, salt: Salt)
    returns (q: Parsed)
    requires Matched(cfg, d) && SmallOid(arcs) && 0 <= s.msgId < 0x8000_0000 && 0 <= s.reqId < 0x8000_0000
    requires Small(s.contextEngineId) && ClockInRange(d, stamp)
    requires DecodeMessage(cfg.mac, request, d.keys, d.keys.auth.Some?) == Ok(p)
    requires p.env.engineId == d.engineId && p.env.msgId == s.msgId
      && p.env.username == cfg.username && p.env.flags == Flags(cfg)
    requires p.pdu == ReadContent(RequestContent(cfg, s, arcs))
    ensures Respond(cfg.mac, d, request, stamp, salt).Ok?
    ensures |Respond(cfg.mac, d, request, stamp, salt).value| <= MAX_MESSAGE_SIZE
    ensures DecodeMessage(cfg.mac, Respond(cfg.mac, d, request, stamp, salt).value, d.keys, UseAuth(cfg)) == Ok(q)
    ensures PeekMsgId(Respond(cfg.mac, d, request, stamp, salt).value) == Ok(s.msgId)
    ensures q.env.engineId == d.engineId && q.env.boots == d.boots && q.env.engineTime == Clock(d, stamp)
    ensures q.pdu.requestId == s.reqId && q.pdu.errorStatus == 0
    ensures q.pdu.varbinds == [VarBind(Render(NextBinding(d.table, arcs).0), NextBinding(d.table, arcs).1)]
  {
    hide EncodeMessage;
    hide DecodeMessage;
    hide EncContent;
    hide Render;
    hide Flags;
    hide SmallContent;
    hide SmallHeader;
    hide Sendable;
    hide Small;
    hide OidBody;
    hide ValidTable;
    hide AnswerBindings;
    hide ReadBindings;
    hide Answer;
    hide NextBinding;
    hide PeekMsgId;
    hide Clock;
    hide ValidBindings;
    MatchedTable(cfg, d);
    AnswerIs(d.table, arcs);
    var bs := [Answer(d.table, arcs)];
    var h, c := ReplyHeader(d, p, stamp), ReplyContent(d, p, bs);
    ReplyIsSmall(cfg, d, s, arcs, p, stamp);
    SmallRoundTrip(cfg.mac, h, c, d.keys, salt);
    var reply := EncodeMessage(cfg.mac, h, EncContent(c), d.keys, salt).value;
    assert Respond(cfg.mac, d, request, stamp, salt) == Ok(reply);
    VerifyOff(cfg.mac, reply, d.keys, UseAuth(cfg));
    q := DecodeMessage(cfg.mac, reply, d.keys, true).value;
    PeekAgrees(cfg.mac, reply, d.keys, true);
  }

  lemma MatchedTable(cfg: Config, d: Device)
    requires Matched(cfg, d)
    ensures ValidTable(d.table)
  {
  }

  // ---------- Transport ----------

  // When the answer comes in, and how many datagrams were sent by then.
  function ArrivalIn(cfg: Config, env: Env, w: World, message: bytes, id: int, at: Arrival): World {
    var start := Reach(env.net, w.sends, w.now, message, id, cfg.timeout, at.attempt);
    var attempt := env.net(start.0, start.1, message);
    if attempt.Sent? && at.datagram < |attempt.events| then
      w.(now := start.1 + ArrivalTime(attempt.events, at.datagram), sends := start.0 + 1)
    else w
  }

  // The attempts yield the answer as it was sent.
  lemma AnswerArrives(cfg: Config, env: Env, d: Device, w: World, message: bytes, id: int, at: Arrival)
    requires RepliesWith(cfg, env.net, d, w.sends, w.now, message, id, at)
    requires var r := Respond(cfg.mac, d, message, at.stamp, at.salt);
      r.Ok? && |r.value| <= MAX_MESSAGE_SIZE && PeekMsgId(r.value) == Ok(id)
    ensures var later := ArrivalIn(cfg, env, w, message, id, at);
      && Send(cfg, env, w, message, id) == (later, Ok(Respond(cfg.mac, d, message, at.stamp, at.salt).value))
      && later.now - cfg.timeout <= at.stamp <= later.now && w.now <= at.stamp
      && later.now <= w.now + Patience(cfg)
  {
    hide Respond;
    hide PeekMsgId;
    hide Reach;
    hide NoneBefore;
    var start := Reach(env.net, w.sends, w.now, message, id, cfg.timeout, at.attempt);
    var events := env.net(start.0, start.1, message).events;
    var reply := Respond(cfg.mac, d, message, at.stamp, at.salt).value;
    TransactFrom(env.net, w.sends, w.now, message, id, cfg.timeout, Attempts(cfg), at.attempt);
    BudgetGrows(cfg.timeout, at.attempt + 1, Attempts(cfg));
    assert Received(reply) == reply;
    assert FirstAnswer(events, at.datagram, cfg.timeout, id);
    ListenMeaning(events, cfg.timeout, id);
  }

  // ---------- One GETNEXT ----------

  lemma TakenIds(s: State)
    ensures 0 <= TakeIds(s).msgId < 0x8000_0000 && 0 <= TakeIds(s).reqId < 0x8000_0000
  {
  }

  // The reply, parsed, passes every check and leaves the engine in sync.
  lemma ReplyAccepted(cfg: Config, d: Device, s: State, reply: bytes, q: Parsed, now: real, stamp: real)
    requires ClockInSync(d, s, cfg.timeout) && s.ref.value <= now && ClockInRange(d, now) && ClockInRange(d, stamp)
    requires cfg.timeout <= 148.0 && now - cfg.timeout <= stamp <= now
    requires s.engineId == d.engineId && Keys(s.authKey, s.privKey) == d.keys
    requires DecodeMessage(cfg.mac, reply, d.keys, UseAuth(cfg)) == Ok(q)
    requires q.env.engineId == d.engineId && q.env.boots == d.boots && q.env.engineTime == Clock(d, stamp)
    requires q.pdu.requestId == s.reqId && q.pdu.errorStatus == 0
    ensures HandleReply(cfg, s, reply, now) == (Adopt(s, q.env, now), Ok(q))
    ensures ClockInSync(d, Adopt(s, q.env, now), cfg.timeout) && Adopt(s, q.env, now).ref.value <= now
  {
    hide DecodeMessage;
    hide InWindow;
    hide Clock;
    HonestWithinWindow(cfg, d, s, q.env, now, stamp);
  }

  // Where the answer to a message comes in.
  lemma HonestAnswer(cfg: Config, env: Env, d: Device, n: nat, now: real, message: bytes, id: int) returns (at: Arrival)
    requires Honest(cfg, env, d)
    ensures RepliesWith(cfg, env.net, d, n, now, message, id, at)
  {
    hide RepliesWith;
    assert Answered(cfg, env, d, n, now, message, id);
    var a: Arrival :| RepliesWith(cfg, env.net, d, n, now, message, id, a);
    at := a;
  }

  // A GETNEXT by an engine in sync: it is answered with the successor, within the time of its attempts,
  // and the engine stays in sync.
  lemma GetNextAnswered(cfg: Config, env: Env, d: Device, s: State, w: World, arcs: Arcs)
    requires Matched(cfg, d) && Honest(cfg, env, d) && InSync(cfg, d, s, w) && SmallOid(arcs)
    requires ClockInRange(d, w.now) && ClockInRange(d, w.now + Patience(cfg))
    ensures var t := GetNext(cfg, env, s, w, Render(arcs));
      && t.result == Ok(VarBind(Render(NextBinding(d.table, arcs).0), NextBinding(d.table, arcs).1))
      && InSync(cfg, d, t.state, t.world)
      && w.now <= t.world.now <= w.now + Patience(cfg)
  {
    hide EncRequestPdu;
    hide Request;
    hide DecodeMessage;
    hide HandleReply;
    hide Send;
    hide Respond;
    hide PeekMsgId;
    hide Render;
    hide NextBinding;
    hide OidBody;
    hide ValidTable;
    hide Small;
    hide CurrentTime;
    hide Clock;
    hide ReadContent;
    hide RequestContent;
    hide Honest;
    hide SmallOid;
    hide NextId;
    hide RepliesWith;
    hide ArrivalIn;
    hide Patience;
    hide ClockInRange;
    var s1 := TakeIds(s);
    TakenIds(s);
    EstimateBounds(d, s1, cfg.timeout, w.now);
    var salt := env.salts(w.draws);
    var request, p := RequestReaches(cfg, d, s1, arcs, w.now, salt);
    var w1 := if UsePriv(cfg) then w.(draws := w.draws + 1) else w;
    var at := HonestAnswer(cfg, env, d, w.sends, w.now, request, s1.msgId);
    StampInRange(cfg, env, d, w1, request, s1.msgId, at);
    var q := ReplyReads(cfg, d, s1, arcs, request, p, at.stamp, at.salt);
    var reply := Respond(cfg.mac, d, request, at.stamp, at.salt).value;
    AnswerArrives(cfg, env, d, w1, request, s1.msgId, at);
    var later := ArrivalIn(cfg, env, w1, request, s1.msgId, at);
    ClockStays(d, w.now, later.now, w.now + Patience(cfg));
    ReplyAccepted(cfg, d, s1, reply, q, later.now, at.stamp);
  }

  // The device made its answer while the request was under way.
  lemma StampInRange(cfg: Config, env: Env, d: Device, w: World, message: bytes, id: int, at: Arrival)
    requires RepliesWith(cfg, env.net, d, w.sends, w.now, message, id, at)
    requires ClockInRange(d, w.now) && ClockInRange(d, w.now + Patience(cfg))
    ensures ClockInRange(d, at.stamp) && w.now <= at.stamp <= w.now + Patience(cfg)
  {
    hide Respond;
    hide PeekMsgId;
    hide Reach;
    hide NoneBefore;
    TransactFrom(env.net, w.sends, w.now, message, id, cfg.timeout, Attempts(cfg), at.attempt);
    BudgetGrows(cfg.timeout, at.attempt + 1, Attempts(cfg));
  }

  // ---------- The walk ----------

  lemma WalkStep(t: seq<Entry>, base: Arcs, k: nat, out: map<string, Scalar>)
    requires base != [] && k < |t|
    ensures StartsWith(Render(t[k].oid), Render(base) + ".") <==> Under(base, t[k].oid)
    ensures Under(base, t[k].oid) ==>
      Collect(out, Render(base) + ".", Render(t[k].oid), t[k].Value()) == Keep(out, base, t[k])
  {
    hide Render;
    hide DecodeValue;
    PrefixIsSubtree(base, t[k].oid);
  }

  // The engine's walk against the device is the walk of the device's table.
  lemma {:induction false} WalkFollowsTable(cfg: Config, env: Env, d: Device, s: State, w: World, base: Arcs,
                                            current: Arcs,
                                            left: nat, out: map<string, Scalar>)
    requires Matched(cfg, d) && Honest(cfg, env, d) && InSync(cfg, d, s, w)
    requires base != [] && SmallOid(current)
    requires ClockInRange(d, w.now) && ClockInRange(d, w.now + Budget(Patience(cfg), left))
    ensures WalkFrom(cfg, env, s, w, Render(base) + ".", Render(current), left, out).result
         == TableWalk(d.table, base, current, left, out)
    decreases left
  {
    hide GetNext;
    hide Render;
    hide DecodeValue;
    hide OidBody;
    hide Honest;
    hide InSync;
    hide Collect;
    hide Keep;
    hide StartsWith;
    hide Under;
    hide Matched;
    hide ClockInRange;
    hide SmallOid;
    if left > 0 {
      ClockStays(d, w.now, w.now + Patience(cfg), w.now + Budget(Patience(cfg), left));
      GetNextAnswered(cfg, env, d, s, w, current);
      var t := GetNext(cfg, env, s, w, Render(current));
      var k := Successor(d.table, current);
      if k < |d.table| {
        TableEntry(cfg, d, k);
        WalkStep(d.table, base, k, out);
        NotSame(d.table, current, k);
        if d.table[k].Value() != Text(END_OF_MIB_VIEW_TEXT) && Under(base, d.table[k].oid) {
          assert t.world.now + Budget(Patience(cfg), left - 1) <= w.now + Budget(Patience(cfg), left);
          ClockStays(d, w.now, t.world.now, w.now + Budget(Patience(cfg), left));
          ClockStays(d, w.now, t.world.now + Budget(Patience(cfg), left - 1), w.now + Budget(Patience(cfg), left));
          WalkFollowsTable(cfg, env, d, t.state, t.world, base, d.table[k].oid, left - 1, Keep(out, base, d.table[k]));
        }
      }
    }
  }

  lemma ClockStays(d: Device, a: real, b: real, c: real)
    requires a <= b <= c && ClockInRange(d, a) && ClockInRange(d, c)
    ensures ClockInRange(d, b)
  {
  }

  lemma TableEntry(cfg: Config, d: Device, k: nat)
    requires Matched(cfg, d) && k < |d.table|
    ensures SmallOid(d.table[k].oid)
  {
    hide OidBody;
  }

  lemma NotSame(t: seq<Entry>, current: Arcs, k: nat)
    requires k < |t| && Less(current, t[k].oid)
    ensures Render(t[k].oid) != Render(current)
  {
    hide Render;
    LessIrreflexive(current);
    if Render(t[k].oid) == Render(current) {
      RenderInjective(t[k].oid, current);
    }
  }

  // Walk completeness, end to end: an engine in sync with an honest device returns exactly the
  // instances strictly under base, or raises when there are maxOids of them or more.
  lemma WalkEndToEnd(cfg: Config, env: Env, d: Device, s: State, w: World, base: Arcs, maxOids: nat)
    requires Matched(cfg, d) && Honest(cfg, env, d) && InSync(cfg, d, s, w) && SmallOid(base)
    requires ClockInRange(d, w.now) && ClockInRange(d, w.now + Budget(Patience(cfg), maxOids))
    requires NoSentinel(d.table, base)
    ensures WalkTurn(cfg, env, s, w, Render(base), maxOids).result ==
      if Count(d.table, base) < maxOids then Ok(Subtree(d.table, base)) else Err(SnmpError)
  {
    hide WalkFrom;
    hide TableWalk;
    hide Render;
    hide Subtree;
    hide Honest;
    hide InSync;
    hide OidBody;
    StripRender(base);
    WalkFollowsTable(cfg, env, d, s, w, base, base, maxOids, map[]);
    MatchedTable(cfg, d);
    WalkComplete(d.table, base, maxOids);
  }

  // The same exact condition as for the table's walk, over the wire.
  lemma WalkEndToEndIff(cfg: Config, env: Env, d: Device, s: State, w: World, base: Arcs, maxOids: nat)
    requires Matched(cfg, d) && Honest(cfg, env, d) && InSync(cfg, d, s, w) && SmallOid(base)
    requires ClockInRange(d, w.now) && ClockInRange(d, w.now + Budget(Patience(cfg), maxOids))
    ensures WalkTurn(cfg, env, s, w, Render(base), maxOids).result == Ok(Subtree(d.table, base)) <==>
      (NoSentinel(d.table, base) && Count(d.table, base) < maxOids)
  {
    hide WalkFrom;
    hide TableWalk;
    hide Render;
    hide Subtree;
    hide NoSentinel;
    hide Honest;
    hide InSync;
    hide OidBody;
    StripRender(base);
    WalkFollowsTable(cfg, env, d, s, w, base, base, maxOids, map[]);
    MatchedTable(cfg, d);
    WalkCompleteIff(d.table, base, maxOids);
  }
}
