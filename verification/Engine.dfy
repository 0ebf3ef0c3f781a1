// SnmpV3Engine of ingest/snmp_engine.py: discovery, exchanges and the engine clock.
// Each method of the class is proved to do what a function of the state before says.
module Engine {
  import opened Results
  import opened Bytes
  import opened Dotted
  import opened Asn1
  import opened Message
  import opened Password
  import opened Transport

  const TIME_WINDOW_SECONDS := 150
  const MAX_ENGINE_TIME := 2147483647
  const SYS_DESCR := "1.3.6.1.2.1.1.1.0"

  datatype Level = NoAuthNoPriv | AuthNoPriv | AuthPriv

  // What the constructor is given; passwords and names as octets.
  datatype Config = Config(username: bytes, level: Level, mac: Mac, hash: Hash, authPassword: bytes,
    privPassword: bytes, contextName: bytes, timeout: Delay, retries: int)

  datatype State = State(engineId: bytes, boots: int, engineTime: int, ref: Option<real>, msgId: int, reqId: int,
    discovered: bool, contextEngineId: bytes, authKey: Option<bytes>, privKey: Option<bytes>)

  // The host's clock and counters, and the things that answer it.
  datatype World = World(now: real, sends: nat, draws: nat)

  datatype Env = Env(net: Network, salts: nat -> Salt)

  // What a call leaves behind and returns.
  datatype Turn<T> = Turn(state: State, world: World, result: Result<T>)

  predicate UseAuth(cfg: Config) {
    cfg.level != NoAuthNoPriv
  }

  predicate UsePriv(cfg: Config) {
    cfg.level == AuthPriv
  }

  function Flags(cfg: Config): byte {
    FLAG_REPORTABLE + (if UseAuth(cfg) then FLAG_AUTH else 0) + (if UsePriv(cfg) then FLAG_PRIV else 0)
  }

  // (value + 1) & 0x7FFFFFFF
  function NextId(value: int): int {
    (value + 1) % 0x8000_0000
  }

  function TakeIds(s: State): State {
    s.(reqId := NextId(s.reqId), msgId := NextId(s.msgId))
  }

  // int(x): towards zero.
  function Truncate(x: real): int {
    if x >= 0.0 then x.Floor else -((-x).Floor)
  }

  function CurrentTime(s: State, now: real): int {
    if s.ref.None? then s.engineTime
    else
      var t := s.engineTime + Truncate(now - s.ref.value);
      if t < MAX_ENGINE_TIME then t else MAX_ENGINE_TIME
  }

  function Attempts(cfg: Config): nat {
    if cfg.retries + 1 < 0 then 0 else cfg.retries + 1
  }

  // The longest that one request can take.
  function Patience(cfg: Config): Delay {
    Budget(cfg.timeout, Attempts(cfg))
  }

  function Send(cfg: Config, env: Env, w: World, message: bytes, msgId: int): (World, Result<bytes>) {
    var o := Transact(env.net, w.sends, w.now, message, msgId, cfg.timeout, Attempts(cfg));
    (w.(now := o.now, sends := o.sends), if o.reply.Some? then Ok(o.reply.value) else Err(SnmpError))
  }

  // ---------- Discovery ----------

  const NO_KEYS := Keys(None, None)

  function DiscoveryHeader(msgId: int): Header {
    Header(msgId, [], 0, 0, [], FLAG_REPORTABLE)
  }

  function DiscoveryMessage(cfg: Config, s: State): Result<bytes> {
    var pdu :- EncRequestPdu(GET_REQUEST, s.reqId, [SYS_DESCR]);
    EncodeMessage(cfg.mac, DiscoveryHeader(s.msgId), EncodeScopedPdu([], [], pdu), NO_KEYS, Zeros(8))
  }

  // What discovery stores from the reply, before the keys are localized.
  function Learn(s: State, env: Envelope, now: real): State {
    s.(engineId := env.engineId, boots := env.boots, engineTime := env.engineTime, ref := Some(now),
       contextEngineId := if s.contextEngineId == [] then env.engineId else s.contextEngineId)
  }

  function LocalizeAuth(cfg: Config, s: State): (State, Result<bool>) {
    if !UseAuth(cfg) then (s, Ok(true))
    else
      var key := LocalizedKey(cfg.hash, cfg.authPassword, s.engineId);
      if key.Err? then (s, Err(key.error)) else (s.(authKey := Some(key.value)), Ok(true))
  }

  function LocalizePriv(cfg: Config, s: State): (State, Result<bool>) {
    if !UsePriv(cfg) then (s, Ok(true))
    else
      var key := LocalizedKey(cfg.hash, cfg.privPassword, s.engineId);
      if key.Err? then (s, Err(key.error)) else (s.(privKey := Some(Slice(key.value, 0, 16))), Ok(true))
  }

  function Localize(cfg: Config, s: State): (State, Result<bool>) {
    var auth := LocalizeAuth(cfg, s);
    if auth.1.Err? then auth else LocalizePriv(cfg, auth.0)
  }

  function FinishDiscovery(cfg: Config, s: State, reply: bytes, now: real): (State, Result<bool>) {
    var parsed := DecodeMessage(cfg.mac, reply, NO_KEYS, false);
    if parsed.Err? then (s, Err(parsed.error))
    else if parsed.value.env.engineId == [] then (s, Err(SnmpError))
    else
      var keyed := Localize(cfg, Learn(s, parsed.value.env, now));
      if keyed.1.Err? then keyed else (keyed.0.(discovered := true), Ok(true))
  }

  function Discover(cfg: Config, env: Env, s: State, w: World): Turn<bool> {
    if s.discovered then Turn(s, w, Ok(true))
    else
      var s1 := TakeIds(s);
      var message := DiscoveryMessage(cfg, s1);
      if message.Err? then Turn(s1, w, Err(message.error))
      else
        var sent := Send(cfg, env, w, message.value, s1.msgId);
        if sent.1.Err? then Turn(s1, sent.0, Err(sent.1.error))
        else
          var done := FinishDiscovery(cfg, s1, sent.1.value, sent.0.now);
          Turn(done.0, sent.0, done.1)
  }

  // ---------- One exchange ----------

  function RequestHeader(cfg: Config, s: State, now: real): Header {
    Header(s.msgId, s.engineId, s.boots, CurrentTime(s, now), cfg.username, Flags(cfg))
  }

  function Request(cfg: Config, s: State, pdu: bytes, now: real, salt: Salt): Result<bytes> {
    EncodeMessage(cfg.mac, RequestHeader(cfg, s, now), EncodeScopedPdu(s.contextEngineId, cfg.contextName, pdu),
                  Keys(s.authKey, s.privKey), salt)
  }

  // _check_time_window: the response is neither from an earlier boot nor more than 150 s off.
  predicate InWindow(cfg: Config, s: State, env: Envelope, now: real) {
    !UseAuth(cfg) ||
    (env.boots >= s.boots &&
     (env.boots == s.boots ==> -TIME_WINDOW_SECONDS <= env.engineTime - CurrentTime(s, now) <= TIME_WINDOW_SECONDS))
  }

  predicate Newer(s: State, env: Envelope) {
    env.boots > s.boots || (env.boots == s.boots && env.engineTime > s.engineTime)
  }

  function Adopt(s: State, env: Envelope, now: real): State {
    if Newer(s, env) then s.(boots := env.boots, engineTime := env.engineTime, ref := Some(now)) else s
  }

  // The checks on a parsed response; the clock moves even when the response carries an error status.
  function Accept(cfg: Config, s: State, parsed: Parsed, now: real): (State, Result<Parsed>) {
    if parsed.pdu.requestId != s.reqId then (s, Err(SnmpError))
    else if parsed.env.engineId != [] && parsed.env.engineId != s.engineId then (s, Err(SnmpError))
    else if !InWindow(cfg, s, parsed.env, now) then (s, Err(SnmpError))
    else (Adopt(s, parsed.env, now), if parsed.pdu.errorStatus != 0 then Err(SnmpError) else Ok(parsed))
  }

  function HandleReply(cfg: Config, s: State, reply: bytes, now: real): (State, Result<Parsed>) {
    var parsed := DecodeMessage(cfg.mac, reply, Keys(s.authKey, s.privKey), UseAuth(cfg));
    if parsed.Err? then (s, Err(parsed.error)) else Accept(cfg, s, parsed.value, now)
  }

  // The request under the ids taken, sent until a reply matches.
  function SendRequest(cfg: Config, env: Env, s: State, w: World, tag: byte, oids: seq<string>)
    : (World, Result<bytes>)
  {
    var pdu := EncRequestPdu(tag, s.reqId, oids);
    if pdu.Err? then (w, Err(pdu.error))
    else
      var w1 := if UsePriv(cfg) then w.(draws := w.draws + 1) else w;
      var message := Request(cfg, s, pdu.value, w.now, env.salts(w.draws));
      if message.Err? then (w1, Err(message.error)) else Send(cfg, env, w1, message.value, s.msgId)
  }

  // From taking the ids on, with discovery done.
  function Ask(cfg: Config, env: Env, s: State, w: World, tag: byte, oids: seq<string>): Turn<Parsed> {
    var s1 := TakeIds(s);
    var sent := SendRequest(cfg, env, s1, w, tag, oids);
    if sent.1.Err? then Turn(s1, sent.0, Err(sent.1.error))
    else
      var done := HandleReply(cfg, s1, sent.1.value, sent.0.now);
      Turn(done.0, sent.0, done.1)
  }

  function Exchange(cfg: Config, env: Env, s: State, w: World, tag: byte, oids: seq<string>): Turn<Parsed> {
    var found := Discover(cfg, env, s, w);
    if found.result.Err? then Turn(found.state, found.world, Err(found.result.error))
    else Ask(cfg, env, found.state, found.world, tag, oids)
  }

  function GetNext(cfg: Config, env: Env, s: State, w: World, oid: string): Turn<VarBind> {
    var t := Exchange(cfg, env, s, w, GET_NEXT_REQUEST, [oid]);
    Turn(t.state, t.world,
         if t.result.Err? then Err(t.result.error)
         else if t.result.value.pdu.varbinds == [] then Err(SnmpError)
         else Ok(t.result.value.pdu.varbinds[0]))
  }

  // ---------- The walk ----------

  // The rounds of the walk loop that are left; `out` is the table so far.
  function WalkFrom(cfg: Config, env: Env, s: State, w: World, prefix: string, current: string, left: nat,
                    out: map<string, Scalar>): Turn<map<string, Scalar>>
    decreases left
  {
    if left == 0 then Turn(s, w, Err(SnmpError))
    else
      var t := GetNext(cfg, env, s, w, current);
      if t.result.Err? then Turn(t.state, t.world, Err(t.result.error))
      else
        var VarBind(oid, value) := t.result.value;
        if value == Text(END_OF_MIB_VIEW_TEXT) || !StartsWith(oid, prefix) || oid == current then
          Turn(t.state, t.world, Ok(out))
        else WalkFrom(cfg, env, t.state, t.world, prefix, oid, left - 1, Collect(out, prefix, oid, value))
  }

  function Collect(out: map<string, Scalar>, prefix: string, oid: string, value: Scalar): map<string, Scalar>
    requires StartsWith(oid, prefix)
  {
    if value == Text(NO_SUCH_OBJECT_TEXT) || value == Text(NO_SUCH_INSTANCE_TEXT) then out
    else out[oid[|prefix|..] := value]
  }

  function WalkTurn(cfg: Config, env: Env, s: State, w: World, baseOid: string, maxOids: int)
    : Turn<map<string, Scalar>>
  {
    var base := Strip(baseOid);
    WalkFrom(cfg, env, s, w, base + ".", base, if maxOids < 0 then 0 else maxOids, map[])
  }

  // ---------- The object ----------

  class SnmpV3Engine {
    const cfg: Config
    var engineId: bytes
    var boots: int
    var engineTime: int
    var ref: Option<real>
    var msgId: int
    var reqId: int
    var discovered: bool
    var contextEngineId: bytes
    var authKey: Option<bytes>
    var privKey: Option<bytes>

    function Abs(): State
      reads this
    {
      State(engineId, boots, engineTime, ref, msgId, reqId, discovered, contextEngineId, authKey, privKey)
    }

    static function WorldOf(host: Host): World
      reads host
    {
      World(host.now, host.sends, host.draws)
    }

    static function EnvOf(host: Host): Env {
      Env(host.net, host.salts)
    }

    constructor (cfg: Config, contextEngineId: bytes, msgId: int, reqId: int)
      ensures this.cfg == cfg
      ensures Abs() == State([], 0, 0, None, msgId, reqId, false, contextEngineId, None, None)
    {
      this.cfg := cfg;
      this.contextEngineId := contextEngineId;
      this.msgId := msgId;
      this.reqId := reqId;
      engineId, boots, engineTime, ref, discovered := [], 0, 0, None, false;
      authKey, privKey := None, None;
    }

    method NextIds()
      modifies this`msgId, this`reqId
      ensures Abs() == TakeIds(old(Abs()))
    {
      reqId := NextId(reqId);
      msgId := NextId(msgId);
    }

    method LocalizeKeys() returns (r: Result<bool>)
      modifies this`authKey, this`privKey
      ensures (Abs(), r) == Localize(cfg, old(Abs()))
    {
      if UseAuth(cfg) {
        var key := PasswordToKey(cfg.hash, cfg.authPassword, engineId);
        if key.Err? {
          return Err(key.error);
        }
        authKey := Some(key.value);
      }
      if UsePriv(cfg) {
        var key := PasswordToKey(cfg.hash, cfg.privPassword, engineId);
        if key.Err? {
          return Err(key.error);
        }
        privKey := Some(Slice(key.value, 0, 16));
      }
      return Ok(true);
    }

    method DiscoverEngine(host: Host) returns (r: Result<bool>)
      modifies this, host
      ensures Turn(Abs(), WorldOf(host), r) == Discover(cfg, EnvOf(host), old(Abs()), old(WorldOf(host)))
    {
      hide DiscoveryMessage;
      hide DecodeMessage;
      hide Localize;
      hide Transact;
      if discovered {
        return Ok(true);
      }
      NextIds();
      var message := DiscoveryMessage(cfg, Abs());
      if message.Err? {
        return Err(message.error);
      }
      var reply := host.SendRecv(message.value, msgId, cfg.timeout, cfg.retries);
      if reply.Err? {
        return Err(reply.error);
      }
      var parsed := DecodeMessage(cfg.mac, reply.value, NO_KEYS, false);
      if parsed.Err? {
        return Err(parsed.error);
      }
      if parsed.value.env.engineId == [] {
        return Err(SnmpError);
      }
      engineId := parsed.value.env.engineId;
      boots := parsed.value.env.boots;
      engineTime := parsed.value.env.engineTime;
      ref := Some(host.now);
      if contextEngineId == [] {
        contextEngineId := engineId;
      }
      r := LocalizeKeys();
      if r.Err? {
        return;
      }
      discovered := true;
      return Ok(true);
    }

    // The part of _exchange after the reply has been parsed.
    method AcceptParsed(parsed: Parsed, now: real) returns (r: Result<Parsed>)
      modifies this`boots, this`engineTime, this`ref
      ensures (Abs(), r) == Accept(cfg, old(Abs()), parsed, now)
    {
      if parsed.pdu.requestId != reqId {
        return Err(SnmpError);
      }
      if parsed.env.engineId != [] && parsed.env.engineId != engineId {
        return Err(SnmpError);
      }
      if UseAuth(cfg) {
        if parsed.env.boots < boots {
          return Err(SnmpError);
        }
        var skew := parsed.env.engineTime - CurrentTime(Abs(), now);
        if parsed.env.boots == boots && (if skew < 0 then -skew else skew) > TIME_WINDOW_SECONDS {
          return Err(SnmpError);
        }
      }
      if parsed.env.boots > boots || (parsed.env.boots == boots && parsed.env.engineTime > engineTime) {
        boots := parsed.env.boots;
        engineTime := parsed.env.engineTime;
        ref := Some(now);
      }
      if parsed.pdu.errorStatus != 0 {
        return Err(SnmpError);
      }
      return Ok(parsed);
    }

    method DoExchange(host: Host, tag: byte, oids: seq<string>) returns (r: Result<Parsed>)
      modifies this, host
      ensures Turn(Abs(), WorldOf(host), r) == Exchange(cfg, EnvOf(host), old(Abs()), old(WorldOf(host)), tag, oids)
    {
      hide Discover;
      hide EncRequestPdu;
      hide Request;
      hide Accept;
      hide DecodeMessage;
      hide Transact;
      var found := DiscoverEngine(host);
      if found.Err? {
        return Err(found.error);
      }
      NextIds();
      var pdu := EncRequestPdu(tag, reqId, oids);
      if pdu.Err? {
        return Err(pdu.error);
      }
      var salt := host.salts(host.draws);
      var sentAt := host.now;
      if UsePriv(cfg) {
        salt := host.Urandom();
      }
      var message := Request(cfg, Abs(), pdu.value, sentAt, salt);
      if message.Err? {
        return Err(message.error);
      }
      var reply := host.SendRecv(message.value, msgId, cfg.timeout, cfg.retries);
      if reply.Err? {
        return Err(reply.error);
      }
      var parsed := DecodeMessage(cfg.mac, reply.value, Keys(authKey, privKey), UseAuth(cfg));
      if parsed.Err? {
        return Err(parsed.error);
      }
      r := AcceptParsed(parsed.value, host.now);
    }

    method DoGetNext(host: Host, oid: string) returns (r: Result<VarBind>)
      modifies this, host
      ensures Turn(Abs(), WorldOf(host), r) == GetNext(cfg, EnvOf(host), old(Abs()), old(WorldOf(host)), oid)
    {
      hide Exchange;
      var parsed := DoExchange(host, GET_NEXT_REQUEST, [oid]);
      if parsed.Err? {
        return Err(parsed.error);
      }
      if parsed.value.pdu.varbinds == [] {
        return Err(SnmpError);
      }
      return Ok(parsed.value.pdu.varbinds[0]);
    }

    method Walk(host: Host, baseOid: string, maxOids: int) returns (r: Result<map<string, Scalar>>)
      modifies this, host
      ensures Turn(Abs(), WorldOf(host), r)
        == WalkTurn(cfg, EnvOf(host), old(Abs()), old(WorldOf(host)), baseOid, maxOids)
    {
      hide GetNext;
      var base := Strip(baseOid);
      var prefix := base + ".";
      var out: map<string, Scalar> := map[];
      var current := base;
      var i := 0;
      while i < maxOids
        invariant 0 <= i && (i <= maxOids || i == 0)
        invariant WalkTurn(cfg, EnvOf(host), old(Abs()), old(WorldOf(host)), baseOid, maxOids)
               == WalkFrom(cfg, EnvOf(host), Abs(), WorldOf(host), prefix, current,
                             if maxOids < 0 then 0 else maxOids - i, out)
      {
        var next := DoGetNext(host, current);
        if next.Err? {
          return Err(next.error);
        }
        var oid, value := next.value.oid, next.value.value;
        if value == Text(END_OF_MIB_VIEW_TEXT) || !StartsWith(oid, prefix) || oid == current {
          return Ok(out);
        }
        if value != Text(NO_SUCH_OBJECT_TEXT) && value != Text(NO_SUCH_INSTANCE_TEXT) {
          out := out[oid[|prefix|..] := value];
        }
        current := oid;
        i := i + 1;
      }
      return Err(SnmpError);
    }
  }
}
