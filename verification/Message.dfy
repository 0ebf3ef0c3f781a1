// SNMPv3 messages: encode_message, decode_message and auth_params_offset of ingest/snmp_engine.py.
module Message {
  import opened Results
  import opened Bytes
  import opened Dotted
  import opened Asn1
  import opened Cfb

  const AUTH_PARAM_LEN := 12
  const PRIV_PARAM_LEN := 8
  const MAX_MESSAGE_SIZE := 65507
  const USM_SECURITY_MODEL := 3
  const SNMP_VERSION_3 := 3

  const FLAG_AUTH: byte := 0x01
  const FLAG_PRIV: byte := 0x02
  const FLAG_REPORTABLE: byte := 0x04

  // flags & bit
  predicate Has(flags: byte, bit: byte)
    requires bit > 0
  {
    (flags / bit) % 2 == 1
  }

  // hmac.new(key, message, hash).digest(): any keyed function with at least 16 octets of output.
  type Mac = f: (bytes, bytes) -> bytes | forall k, m :: 16 <= |f(k, m)| witness (k, m) => Zeros(16)

  // ---------- Encoding ----------

  // What encode_message is told about the message; the salt stands for os.urandom(8).
  datatype Header = Header(msgId: int, engineId: bytes, boots: int, engineTime: int, username: bytes, flags: byte)

  datatype Keys = Keys(auth: Option<bytes>, priv: Option<bytes>)

  type Salt = s: bytes | |s| == PRIV_PARAM_LEN witness Zeros(8)

  // v.to_bytes(4, "big")
  function FourOctets(v: int): Result<bytes> {
    if 0 <= v < Pow2(32) then Ok(ToBig(v, 4)) else Err(OverflowError)
  }

  function Iv(boots: int, engineTime: int, salt: bytes): Result<bytes> {
    var b :- FourOctets(boots);
    var t :- FourOctets(engineTime);
    Ok(b + t + salt)
  }

  function SecurityBody(h: Header, authParams: bytes, privParams: bytes): bytes {
    EncSeq([
      EncOct(h.engineId), EncInt(h.boots), EncInt(h.engineTime),
      EncOct(h.username), EncOct(authParams), EncOct(privParams)])
  }

  function GlobalData(h: Header): bytes {
    EncSeq([EncInt(h.msgId), EncInt(MAX_MESSAGE_SIZE), EncOct([h.flags]), EncInt(USM_SECURITY_MODEL)])
  }

  function Frame(h: Header, authParams: bytes, privParams: bytes, msgData: bytes): bytes {
    EncSeq([EncInt(SNMP_VERSION_3), GlobalData(h), EncOct(SecurityBody(h, authParams, privParams)), msgData])
  }

  // (msg_data, priv_params)
  function Protect(h: Header, scopedPdu: bytes, keys: Keys, salt: Salt): Result<(bytes, bytes)> {
    if Has(h.flags, FLAG_PRIV) then
      if keys.priv.None? then Err(SnmpError)
      else
        var iv :- Iv(h.boots, h.engineTime, salt);
        var cipher :- AesCfbEncrypt(Slice(keys.priv.value, 0, 16), iv, scopedPdu);
        Ok((EncOct(cipher), salt))
    else Ok((scopedPdu, []))
  }

  // message[:offset] + patch + message[offset + 12:]
  function Patch(message: bytes, offset: nat, patch: bytes): bytes {
    Slice(message, 0, offset) + patch + Slice(message, offset + AUTH_PARAM_LEN, |message|)
  }

  function Digest(mac: Mac, key: bytes, message: bytes): (d: bytes)
    ensures |d| == AUTH_PARAM_LEN
  {
    mac(key, message)[..AUTH_PARAM_LEN]
  }

  function Sign(mac: Mac, keys: Keys, message: bytes): Result<bytes> {
    if keys.auth.None? then Err(SnmpError)
    else
      var offset :- AuthParamsOffset(message);
      Ok(Patch(message, offset, Digest(mac, keys.auth.value, message)))
  }

  function EncodeMessage(mac: Mac, h: Header, scopedPdu: bytes, keys: Keys, salt: Salt): Result<bytes> {
    var data :- Protect(h, scopedPdu, keys, salt);
    var message := Frame(h, if Has(h.flags, FLAG_AUTH) then Zeros(AUTH_PARAM_LEN) else [], data.1, data.0);
    if Has(h.flags, FLAG_AUTH) then Sign(mac, keys, message) else Ok(message)
  }

  function EncodeScopedPdu(contextEngineId: bytes, contextName: bytes, pdu: bytes): bytes {
    EncSeq([EncOct(contextEngineId), EncOct(contextName), pdu])
  }

  // ---------- Locating the authentication parameters ----------

  // The n-th TLV from offset on, counting from 0.
  function NthItem(buf: bytes, offset: nat, n: nat): (r: Result<Item>)
    ensures r.Ok? ==> offset + 2 + |r.value.value| <= r.value.next <= |buf|
    decreases n
  {
    var item :- Decode(buf, offset);
    if n == 0 then Ok(item) else NthItem(buf, item.next, n - 1)
  }

  function AuthParamsOffset(data: bytes): Result<nat> {
    var outer :- Decode(data, 0);
    var sec :- NthItem(data, outer.Start(), 2);
    var inner :- Decode(sec.value, 0);
    var auth :- NthItem(inner.value, 0, 4);
    Ok(sec.Start() + inner.Start() + auth.Start())
  }

  // ---------- Decoding ----------

  datatype Envelope = Envelope(version: int, msgId: int, flags: byte, engineId: bytes, boots: int,
    engineTime: int, username: bytes, authParams: bytes, privParams: bytes)

  datatype VarBind = VarBind(oid: string, value: Scalar)

  datatype Pdu = Pdu(contextEngineId: bytes, contextName: bytes, tag: byte, requestId: int,
    errorStatus: int, errorIndex: int, varbinds: seq<VarBind>)

  datatype Parsed = Parsed(env: Envelope, pdu: Pdu)

  // children[i][1]
  function ValueAt(children: seq<Child>, i: nat): Result<bytes> {
    if i < |children| then Ok(children[i].value) else Err(IndexError)
  }

  function TopLevel(data: bytes): Result<seq<Child>> {
    var outer :- Decode(data, 0);
    if outer.tag != SEQUENCE then Err(SnmpError) else Children(outer.value)
  }

  function UsmFields(ch: seq<Child>): Result<seq<Child>> {
    var octets :- ValueAt(ch, 2);
    var inner :- Decode(octets, 0);
    Children(inner.value)
  }

  function OpenEnvelope(ch: seq<Child>): Result<Envelope> {
    var version :- ValueAt(ch, 0);
    var global :- ValueAt(ch, 1);
    var gd :- Children(global);
    var msgId :- ValueAt(gd, 0);
    var flags :- ValueAt(gd, 2);
    var sec :- UsmFields(ch);
    if |sec| < 6 then Err(IndexError)
    else Ok(Envelope(ParseInt(version), ParseInt(msgId), if flags == [] then 0 else flags[0], sec[0].value,
                     ParseInt(sec[1].value), ParseInt(sec[2].value), sec[3].value, sec[4].value, sec[5].value))
  }

  // Whether the digest over the message with a zeroed field is the one it carries.
  function VerifyAuth(mac: Mac, data: bytes, env: Envelope, authKey: Option<bytes>): Result<bool> {
    if authKey.None? then Err(SnmpError)
    else
      var offset :- AuthParamsOffset(data);
      if Digest(mac, authKey.value, Patch(data, offset, Zeros(AUTH_PARAM_LEN))) == env.authParams
      then Ok(true) else Err(SnmpError)
  }

  function ScopedBody(ch: seq<Child>, env: Envelope, privKey: Option<bytes>): Result<bytes> {
    if |ch| < 4 then Err(IndexError)
    else if Has(env.flags, FLAG_PRIV) && ch[3].tag == OCTET_STRING then
      if privKey.None? then Err(SnmpError)
      else
        var iv :- Iv(env.boots, env.engineTime, env.privParams);
        var plain :- AesCfbDecrypt(Slice(privKey.value, 0, 16), iv, ch[3].value);
        var scoped :- Decode(plain, 0);
        Ok(scoped.value)
    else Ok(ch[3].value)
  }

  function OpenVarBinds(items: seq<Child>): Result<seq<VarBind>> {
    if items == [] then Ok([])
    else
      var parts :- Children(items[0].value);
      var oid :- ValueAt(parts, 0);
      var value :- At(parts, 1);
      var rest :- OpenVarBinds(items[1..]);
      Ok([VarBind(ParseOid(oid), DecodeValue(value.tag, value.value))] + rest)
  }

  function OpenPdu(scopedBody: bytes): Result<Pdu> {
    var sch :- Children(scopedBody);
    var contextEngineId :- ValueAt(sch, 0);
    var contextName :- ValueAt(sch, 1);
    var pdu :- At(sch, 2);
    var pch :- Children(pdu.value);
    var requestId :- ValueAt(pch, 0);
    var errorStatus :- ValueAt(pch, 1);
    var errorIndex :- ValueAt(pch, 2);
    var binds :- ValueAt(pch, 3);
    var items :- Children(binds);
    var varbinds :- OpenVarBinds(items);
    Ok(Pdu(contextEngineId, contextName, pdu.tag,
           ParseInt(requestId), ParseInt(errorStatus), ParseInt(errorIndex), varbinds))
  }

  function DecodeMessage(mac: Mac, data: bytes, keys: Keys, verify: bool): Result<Parsed> {
    var ch :- TopLevel(data);
    var env :- OpenEnvelope(ch);
    var _ :- if Has(env.flags, FLAG_AUTH) && verify then VerifyAuth(mac, data, env, keys.auth) else Ok(true);
    var body :- ScopedBody(ch, env, keys.priv);
    var pdu :- OpenPdu(body);
    Ok(Parsed(env, pdu))
  }

  // peek_msg_id
  function PeekMsgId(data: bytes): Result<int> {
    var outer :- Decode(data, 0);
    var ch :- Children(outer.value);
    var global :- ValueAt(ch, 1);
    var gd :- Children(global);
    var msgId :- ValueAt(gd, 0);
    Ok(ParseInt(msgId))
  }
}
