// What a message is on the wire: tags and numbers written out, the order of the fields as in RFC 3412 section 6 and
// RFC 3414 section 2.4, and the encryption as RFC 3826 section 3.1 has it.
module WireFormat {
  import opened Results
  import opened Bytes
  import opened Dotted
  import opened Asn1
  import opened Asn1Theorems
  import opened Cfb
  import opened Message
  import opened Signature
  import opened MessageTheorems
  import opened MessageSizes
  import opened Engine
  import opened Agent
  import opened Discovery

  // ---------- The layout ----------

  function SecurityLayout(h: Header, authParams: bytes, privParams: bytes): bytes {
    Tlv(0x30, Tlv(0x04, h.engineId) + Tlv(0x02, IntBody(h.boots)) + Tlv(0x02, IntBody(h.engineTime))
              + Tlv(0x04, h.username) + Tlv(0x04, authParams) + Tlv(0x04, privParams))
  }

  // Version 3, the message ID, 65507 octets at most, the flags, security model 3.
  function Layout(h: Header, authParams: bytes, privParams: bytes, msgData: bytes): bytes {
    Tlv(0x30, Tlv(0x02, [3])
              + Tlv(0x30, Tlv(0x02, IntBody(h.msgId)) + Tlv(0x02, [0x00, 0xFF, 0xE3])
                          + Tlv(0x04, [h.flags]) + Tlv(0x02, [3]))
              + Tlv(0x04, SecurityLayout(h, authParams, privParams)) + msgData)
  }

  lemma Join1(a: bytes)
    ensures Join([a]) == a
  {
    assert [a][1..] == [];
  }

  lemma Join2(a: bytes, b: bytes)
    ensures Join([a, b]) == a + b
  {
    assert [a, b][1..] == [b];
    Join1(b);
  }

  lemma Join4(a: bytes, b: bytes, c: bytes, d: bytes)
    ensures Join([a, b, c, d]) == a + b + c + d
  {
    assert [a, b, c, d][1..] == [b, c, d];
    assert [b, c, d][1..] == [c, d];
    assert [c, d][1..] == [d];
    assert [d][1..] == [];
    assert Join([d]) == d + Join([]);
    assert Join([c, d]) == c + Join([d]);
    assert Join([b, c, d]) == b + Join([c, d]);
  }

  lemma Join3(a: bytes, b: bytes, c: bytes)
    ensures Join([a, b, c]) == a + b + c
  {
    assert [a, b, c][1..] == [b, c];
    Join2(b, c);
  }

  lemma Join6(a: bytes, b: bytes, c: bytes, d: bytes, e: bytes, f: bytes)
    ensures Join([a, b, c, d, e, f]) == a + b + c + d + e + f
  {
    Join4(c, d, e, f);
    assert [a, b, c, d, e, f][1..] == [b, c, d, e, f];
    assert [b, c, d, e, f][1..] == [c, d, e, f];
  }

  lemma SmallNumber(n: nat)
    requires n < 128
    ensures IntBody(n) == [n as byte]
  {
    if n > 0 {
      BitLengthBound(n, 7);
      BitLengthBound(n, 0);
      Pow2Of8();
      assert Pow2(8) == 2 * Pow2(7);
      OneOctet(n);
    }
  }

  lemma OneOctet(n: nat)
    requires n < 256
    ensures n < Pow2(8 * 1) && ToBig(n, 1) == [n as byte]
  {
    Pow2Of8();
    assert ToBig(n / 256, 0) == [];
  }

  lemma MaxSizeOctets()
    ensures IntBody(65507) == [0x00, 0xFF, 0xE3]
  {
    Pow2Of8();
    Pow2Octet(8);
    assert Pow2(16) == 2 * Pow2(15);
    BitLengthBound(65507, 16);
    BitLengthBound(65507, 15);
    OneOctet(255);
    assert 65507 / 256 == 255 && 65507 % 256 == 0xE3;
    assert ToBig(65507, 2) == [0xFF, 0xE3];
  }

  lemma FrameIs(h: Header, authParams: bytes, privParams: bytes, msgData: bytes)
    ensures Frame(h, authParams, privParams, msgData) == Layout(h, authParams, privParams, msgData)
  {
    hide Tlv;
    hide IntBody;
    hide Join;
    SmallNumber(3);
    MaxSizeOctets();
    var security := [EncOct(h.engineId), EncInt(h.boots), EncInt(h.engineTime), EncOct(h.username),
                     EncOct(authParams), EncOct(privParams)];
    Join6(security[0], security[1], security[2], security[3], security[4], security[5]);
    var global := [EncInt(h.msgId), EncInt(MAX_MESSAGE_SIZE), EncOct([h.flags]), EncInt(USM_SECURITY_MODEL)];
    Join4(global[0], global[1], global[2], global[3]);
    Join4(EncInt(SNMP_VERSION_3), GlobalData(h), EncOct(SecurityBody(h, authParams, privParams)), msgData);
  }

  // ---------- The initialization vector ----------

  // Boots and time in four octets each, most significant first, and the salt.
  predicate IsVector(v: bytes, boots: int, engineTime: int, salt: bytes) {
    |v| == 8 + |salt| && FromBig(v[..4]) == boots && FromBig(v[4..8]) == engineTime && v[8..] == salt
  }

  lemma FourOctetsAre(v: int)
    ensures FourOctets(v).Ok? ==> |FourOctets(v).value| == 4 && FromBig(FourOctets(v).value) == v
  {
    hide Pow2;
    hide ToBig;
    if 0 <= v < Pow2(32) {
      FromBigToBig(v, 4);
    }
  }

  lemma IvIsVector(boots: int, engineTime: int, salt: bytes)
    ensures Iv(boots, engineTime, salt).Ok? ==> IsVector(Iv(boots, engineTime, salt).value, boots, engineTime, salt)
  {
    hide FourOctets;
    hide FromBig;
    FourOctetsAre(boots);
    FourOctetsAre(engineTime);
    if Iv(boots, engineTime, salt).Ok? {
      var b, t := FourOctets(boots).value, FourOctets(engineTime).value;
      var v := b + t + salt;
      assert v[..4] == b && v[4..8] == t && v[8..] == salt;
    }
  }

  // ---------- What is sent ----------

  // The cipher text is what AES turns back into the scoped PDU, under the vector of the header's clock and the salt.
  ghost predicate Encrypted(h: Header, scopedPdu: bytes, key: bytes, salt: bytes, cipher: bytes) {
    exists v :: IsVector(v, h.boots, h.engineTime, salt) && AesCfbDecrypt(Slice(key, 0, 16), v, cipher) == Ok(scopedPdu)
  }

  // Without privacy the scoped PDU goes as it is; with it, as an octet string of its encryption, with the salt in the
  // privacy parameters.
  ghost predicate Carries(h: Header, scopedPdu: bytes, keys: Keys, salt: bytes, msgData: bytes, privParams: bytes) {
    if h.flags / 2 % 2 == 0 then msgData == scopedPdu && privParams == []
    else
      && privParams == salt && keys.priv.Some?
      && exists cipher :: msgData == Tlv(0x04, cipher) && Encrypted(h, scopedPdu, keys.priv.value, salt, cipher)
  }

  // Without authentication there are no authentication parameters; with it, they are the first 12 octets of the
  // digest of the message in which they are zero.
  ghost predicate Sealed(mac: Mac, h: Header, keys: Keys, privParams: bytes, msgData: bytes, message: bytes) {
    if h.flags % 2 == 0 then message == Layout(h, [], privParams, msgData)
    else
      var zeroed := Layout(h, Zeros(12), privParams, msgData);
      && keys.auth.Some?
      && exists p: nat :: ZeroField(zeroed, p) && message == Splice(zeroed, p, mac(keys.auth.value, zeroed)[..12])
  }

  // The authentication field stands at p and holds 12 zero octets.
  predicate ZeroField(message: bytes, p: nat) {
    AuthParamsOffset(message) == Ok(p) && p + 12 <= |message| && message[p..p + 12] == Zeros(12)
  }

  lemma FlagBits(flags: byte)
    ensures Has(flags, FLAG_AUTH) <==> flags % 2 == 1
    ensures Has(flags, FLAG_PRIV) <==> flags / 2 % 2 == 1
    ensures Has(flags, FLAG_REPORTABLE) <==> flags / 4 % 2 == 1
  {
  }

  lemma ProtectCarries(h: Header, scopedPdu: bytes, keys: Keys, salt: Salt)
    requires Protect(h, scopedPdu, keys, salt).Ok?
    ensures var data := Protect(h, scopedPdu, keys, salt).value;
      Carries(h, scopedPdu, keys, salt, data.0, data.1)
  {
    hide Iv;
    hide AesCfbEncrypt;
    hide AesCfbDecrypt;
    hide IsVector;
    hide Tlv;
    hide Has;
    FlagBits(h.flags);
    if Has(h.flags, FLAG_PRIV) {
      var iv := Iv(h.boots, h.engineTime, salt).value;
      IvIsVector(h.boots, h.engineTime, salt);
      AesCfbRoundTrip(Slice(keys.priv.value, 0, 16), iv, scopedPdu);
      var cipher := AesCfbEncrypt(Slice(keys.priv.value, 0, 16), iv, scopedPdu).value;
      assert Encrypted(h, scopedPdu, keys.priv.value, salt, cipher);
    }
  }

  // What encode_message makes of a scoped PDU, for every header, keys and salt for which it returns.
  lemma OnTheWire(mac: Mac, h: Header, contextEngineId: bytes, contextName: bytes, pdu: bytes, keys: Keys, salt: Salt)
    requires var r := EncodeMessage(mac, h, EncodeScopedPdu(contextEngineId, contextName, pdu), keys, salt);
      r.Ok? && Representable(|r.value|)
    ensures var scopedPdu := Tlv(0x30, Tlv(0x04, contextEngineId) + Tlv(0x04, contextName) + pdu);
      exists msgData, privParams :: Carries(h, scopedPdu, keys, salt, msgData, privParams)
        && Sealed(mac, h, keys, privParams, msgData,
                  EncodeMessage(mac, h, EncodeScopedPdu(contextEngineId, contextName, pdu), keys, salt).value)
  {
    hide Protect;
    hide Sign;
    hide Frame;
    hide Carries;
    hide Sealed;
    hide Tlv;
    hide Has;
    hide Layout;
    hide EncodeScopedPdu;
    var scopedPdu := EncodeScopedPdu(contextEngineId, contextName, pdu);
    ScopedPduIs(contextEngineId, contextName, pdu);
    var data := Protect(h, scopedPdu, keys, salt).value;
    ProtectCarries(h, scopedPdu, keys, salt);
    FlagBits(h.flags);
    var message := EncodeMessage(mac, h, scopedPdu, keys, salt).value;
    if Has(h.flags, FLAG_AUTH) {
      var child := CarriedIsTlv(h, scopedPdu, keys, salt);
      SealedIfSigned(mac, h, keys, data.1, child, message);
    } else {
      SealedIfPlain(mac, h, keys, data.1, data.0);
    }
  }

  lemma ScopedPduIs(contextEngineId: bytes, contextName: bytes, pdu: bytes)
    ensures EncodeScopedPdu(contextEngineId, contextName, pdu)
         == Tlv(0x30, Tlv(0x04, contextEngineId) + Tlv(0x04, contextName) + pdu)
  {
    hide Tlv;
    Join3(EncOct(contextEngineId), EncOct(contextName), pdu);
  }

  lemma CarriedIsTlv(h: Header, scopedPdu: bytes, keys: Keys, salt: Salt) returns (child: Child)
    requires Protect(h, scopedPdu, keys, salt).Ok? && exists body :: scopedPdu == Tlv(0x30, body)
    ensures Protect(h, scopedPdu, keys, salt).value.0 == Tlv(child.tag, child.value)
  {
    hide Tlv;
    hide Iv;
    hide AesCfbEncrypt;
    hide Has;
    if Has(h.flags, FLAG_PRIV) {
      var iv := Iv(h.boots, h.engineTime, salt).value;
      child := Child(OCTET_STRING, AesCfbEncrypt(Slice(keys.priv.value, 0, 16), iv, scopedPdu).value);
    } else {
      var body :| scopedPdu == Tlv(0x30, body);
      child := Child(0x30, body);
    }
  }

  lemma SealedIfPlain(mac: Mac, h: Header, keys: Keys, privParams: bytes, msgData: bytes)
    requires h.flags % 2 == 0
    ensures Sealed(mac, h, keys, privParams, msgData, Frame(h, [], privParams, msgData))
  {
    FrameIs(h, [], privParams, msgData);
    hide Frame;
    hide Layout;
  }

  lemma PatchIsNotShorter(message: bytes, offset: nat, patch: bytes)
    requires |patch| == AUTH_PARAM_LEN
    ensures |Patch(message, offset, patch)| >= |message|
  {
  }

  lemma SealedIfSigned(mac: Mac, h: Header, keys: Keys, privParams: bytes, data: Child, message: bytes)
    requires h.flags % 2 == 1 && Representable(|message|)
    requires Sign(mac, keys, Frame(h, Zeros(AUTH_PARAM_LEN), privParams, Tlv(data.tag, data.value))) == Ok(message)
    ensures Sealed(mac, h, keys, privParams, Tlv(data.tag, data.value), message)
  {
    hide Tlv;
    hide Frame;
    hide Layout;
    hide Patch;
    hide Splice;
    hide Pow2;
    hide TopLevel;
    hide OpenEnvelope;
    hide FrameItems;
    hide AuthParamsOffset;
    hide EnvelopeOf;
    var msgData := Tlv(data.tag, data.value);
    var zeroed := Frame(h, Zeros(AUTH_PARAM_LEN), privParams, msgData);
    FrameIs(h, Zeros(AUTH_PARAM_LEN), privParams, msgData);
    var p := AuthParamsOffset(zeroed).value;
    var digest := Digest(mac, keys.auth.value, zeroed);
    PatchIsNotShorter(zeroed, p, digest);
    FrameRoundTrip(h, Zeros(AUTH_PARAM_LEN), privParams, data);
    EnvelopeAuthParams(h, Zeros(AUTH_PARAM_LEN), privParams);
    OffsetPointsAtField(zeroed);
    PatchIsSplice(zeroed, p, digest);
    assert ZeroField(zeroed, p);
  }

  lemma EnvelopeAuthParams(h: Header, authParams: bytes, privParams: bytes)
    ensures EnvelopeOf(h, authParams, privParams).authParams == authParams
  {
  }

  // ---------- What is read ----------

  // decode_message decrypts what is encrypted under the vector of the clock and the salt that the message itself
  // carries, and takes everything else as it is.
  lemma FromTheWire(mac: Mac, data: bytes, keys: Keys, verify: bool)
    requires DecodeMessage(mac, data, keys, verify).Ok?
    ensures TopLevel(data).Ok? && |TopLevel(data).value| >= 4
    ensures var p, msgData := DecodeMessage(mac, data, keys, verify).value, TopLevel(data).value[3];
      if p.env.flags / 2 % 2 == 1 && msgData.tag == 0x04 then
        keys.priv.Some? && exists v, plain ::
          Decrypted(keys.priv.value, p.env, msgData.value, v, plain)
          && Decode(plain, 0).Ok? && OpenPdu(Decode(plain, 0).value.value) == Ok(p.pdu)
      else OpenPdu(msgData.value) == Ok(p.pdu)
  {
    hide TopLevel;
    hide OpenEnvelope;
    hide VerifyAuth;
    hide OpenPdu;
    hide Iv;
    hide AesCfbDecrypt;
    hide IsVector;
    hide Has;
    hide Decode;
    var ch := TopLevel(data).value;
    var env := OpenEnvelope(ch).value;
    FlagBits(env.flags);
    if Has(env.flags, FLAG_PRIV) && ch[3].tag == OCTET_STRING {
      IvIsVector(env.boots, env.engineTime, env.privParams);
      var v := Iv(env.boots, env.engineTime, env.privParams).value;
      var plain := AesCfbDecrypt(Slice(keys.priv.value, 0, 16), v, ch[3].value).value;
      assert Decrypted(keys.priv.value, env, ch[3].value, v, plain);
    }
  }

  predicate Decrypted(key: bytes, env: Envelope, cipher: bytes, v: bytes, plain: bytes) {
    IsVector(v, env.boots, env.engineTime, env.privParams) && AesCfbDecrypt(Slice(key, 0, 16), v, cipher) == Ok(plain)
  }

  // ---------- Requests ----------

  // A request for one identifier: its ID, two zeros, and the identifier with no value.
  lemma RequestPduOctets(tag: byte, requestId: int, arcs: Arcs)
    requires Encodable(arcs)
    ensures EncRequestPdu(tag, requestId, [Render(arcs)]) == Ok(
      Tlv(tag, Tlv(0x02, IntBody(requestId)) + Tlv(0x02, [0]) + Tlv(0x02, [0])
               + Tlv(0x30, Tlv(0x30, Tlv(0x06, OidBody(arcs)) + Tlv(0x05, [])))))
  {
    hide Tlv;
    hide IntBody;
    hide OidBody;
    hide EncRequestPdu;
    hide Render;
    hide EncBindings;
    RequestPduIs(tag, requestId, arcs);
    OneBinding(MessageTheorems.Binding(arcs, NULL, []));
    SmallNumber(0);
    Join2(EncArcs(arcs), Tlv(NULL, []));
    Join1(EncSeq([EncArcs(arcs), Tlv(NULL, [])]));
  }

  lemma ShortTlv(tag: byte, body: bytes)
    requires |body| < 128
    ensures Tlv(tag, body) == [tag, |body| as byte] + body
  {
  }

  // 1.3.6.1.2.1.1.1.0
  lemma SysDescrOctets()
    ensures OidBody(SYS_DESCR_ARCS) == [0x2B, 0x06, 0x01, 0x02, 0x01, 0x01, 0x01, 0x00]
  {
    var arcs: seq<nat> := [43, 6, 1, 2, 1, 1, 1, 0];
    assert [40 * SYS_DESCR_ARCS[0] + SYS_DESCR_ARCS[1]] + SYS_DESCR_ARCS[2..] == arcs;
    SmallArcs(arcs);
    hide Base128All;
  }

  lemma {:induction false} SmallArcs(arcs: seq<nat>)
    requires forall i :: 0 <= i < |arcs| ==> arcs[i] < 128
    ensures |Base128All(arcs)| == |arcs| && forall i :: 0 <= i < |arcs| ==> Base128All(arcs)[i] as nat == arcs[i]
  {
    if arcs != [] {
      SmallArcs(arcs[1..]);
      assert Base128(arcs[0]) == [arcs[0] as byte];
      assert forall i :: 0 < i < |arcs| ==> arcs[i] == arcs[1..][i - 1];
    }
  }

  // Seven bits an octet, most significant first; the top bit is set in all octets but the last.
  function SevenBits(octets: bytes): nat {
    if octets == [] then 0 else SevenBits(octets[..|octets| - 1]) * 128 + octets[|octets| - 1] as nat % 128
  }

  lemma {:induction false} SeptetsAre(v: nat)
    ensures SevenBits(Septets(v)) == v && forall i :: 0 <= i < |Septets(v)| ==> Septets(v)[i] >= 128
  {
    if v > 0 {
      SeptetsAre(v / 128);
      var s := Septets(v);
      assert s[..|s| - 1] == Septets(v / 128);
    }
  }

  lemma Base128Octets(v: nat)
    ensures var s := Base128(v);
      && s != [] && SevenBits(s) == v
      && s[|s| - 1] < 128 && forall i :: 0 <= i < |s| - 1 ==> s[i] >= 128
  {
    SeptetsAre(v / 128);
    SevenBitsMore(Septets(v / 128), (v % 128) as byte);
    hide Septets;
    hide SevenBits;
  }

  lemma SevenBitsMore(s: bytes, b: byte)
    ensures SevenBits(s + [b]) == SevenBits(s) * 128 + b as nat % 128
  {
    assert (s + [b])[..|s|] == s;
  }

  function DiscoveryBinds(): bytes {
    [0x30, 0x0E, 0x30, 0x0C, 0x06, 0x08, 0x2B, 0x06, 0x01, 0x02, 0x01, 0x01, 0x01, 0x00, 0x05, 0x00]
  }

  function DiscoveryScoped(q: byte): bytes {
    [0x30, 0x1F, 0x04, 0x00, 0x04, 0x00, 0xA0, 0x19, 0x02, 0x01, q, 0x02, 0x01, 0x00, 0x02, 0x01, 0x00]
    + DiscoveryBinds()
  }

  lemma DiscoveryBindsAre()
    ensures Tlv(0x30, Tlv(0x30, Tlv(0x06, [0x2B, 0x06, 0x01, 0x02, 0x01, 0x01, 0x01, 0x00]) + Tlv(0x05, [])))
         == DiscoveryBinds()
  {
    hide Tlv;
    var oid: bytes := [0x2B, 0x06, 0x01, 0x02, 0x01, 0x01, 0x01, 0x00];
    ShortTlv(0x06, oid);
    ShortTlv(0x05, []);
    var bind := Tlv(0x06, oid) + Tlv(0x05, []);
    assert bind == [0x06, 0x08] + oid + [0x05, 0x00];
    ShortTlv(0x30, bind);
    ShortTlv(0x30, Tlv(0x30, bind));
  }

  lemma DiscoveryScopedIs(q: byte)
    ensures Tlv(0x30, Tlv(0x04, []) + Tlv(0x04, [])
                      + Tlv(0xA0, Tlv(0x02, [q]) + Tlv(0x02, [0]) + Tlv(0x02, [0]) + DiscoveryBinds()))
         == DiscoveryScoped(q)
  {
    hide Tlv;
    ShortTlv(0x02, [q]);
    ShortTlv(0x02, [0]);
    ShortTlv(0x04, []);
    var fields := Tlv(0x02, [q]) + Tlv(0x02, [0]) + Tlv(0x02, [0]) + DiscoveryBinds();
    assert fields == [0x02, 0x01, q, 0x02, 0x01, 0x00, 0x02, 0x01, 0x00] + DiscoveryBinds();
    ShortTlv(0xA0, fields);
    var scoped := Tlv(0x04, []) + Tlv(0x04, []) + Tlv(0xA0, fields);
    assert scoped == [0x04, 0x00, 0x04, 0x00, 0xA0, 0x19] + fields;
    ShortTlv(0x30, scoped);
  }

  function DiscoverySecurity(): bytes {
    [0x30, 0x0E, 0x04, 0x00, 0x02, 0x01, 0x00, 0x02, 0x01, 0x00, 0x04, 0x00, 0x04, 0x00, 0x04, 0x00]
  }

  lemma DiscoverySecurityIs(h: Header)
    requires h.engineId == [] && h.boots == 0 && h.engineTime == 0 && h.username == []
    ensures SecurityLayout(h, [], []) == DiscoverySecurity()
  {
    hide Tlv;
    hide IntBody;
    SmallNumber(0);
    ShortTlv(0x02, [0]);
    ShortTlv(0x04, []);
    var fields := Tlv(0x04, []) + Tlv(0x02, [0]) + Tlv(0x02, [0]) + Tlv(0x04, []) + Tlv(0x04, []) + Tlv(0x04, []);
    assert fields == DiscoverySecurity()[2..];
    ShortTlv(0x30, fields);
  }

  function DiscoveryGlobal(m: byte): bytes {
    [0x30, 0x0E, 0x02, 0x01, m, 0x02, 0x03, 0x00, 0xFF, 0xE3, 0x04, 0x01, 0x04, 0x02, 0x01, 0x03]
  }

  lemma DiscoveryGlobalIs(m: byte)
    ensures Tlv(0x30, Tlv(0x02, [m]) + Tlv(0x02, [0x00, 0xFF, 0xE3]) + Tlv(0x04, [4]) + Tlv(0x02, [3]))
         == DiscoveryGlobal(m)
  {
    hide Tlv;
    ShortTlv(0x02, [m]);
    ShortTlv(0x02, [0x00, 0xFF, 0xE3]);
    ShortTlv(0x04, [4]);
    ShortTlv(0x02, [3]);
    var fields := Tlv(0x02, [m]) + Tlv(0x02, [0x00, 0xFF, 0xE3]) + Tlv(0x04, [4]) + Tlv(0x02, [3]);
    assert fields == DiscoveryGlobal(m)[2..];
    ShortTlv(0x30, fields);
  }

  lemma DiscoveryLayout(h: Header, q: byte)
    requires h.engineId == [] && h.boots == 0 && h.engineTime == 0 && h.username == [] && h.flags == 4
    requires 0 <= h.msgId < 128
    ensures Layout(h, [], [], DiscoveryScoped(q))
         == [0x30, 0x46, 0x02, 0x01, 0x03] + DiscoveryGlobal(h.msgId as byte) + [0x04, 0x10] + DiscoverySecurity()
            + DiscoveryScoped(q)
  {
    hide Tlv;
    hide IntBody;
    hide SecurityLayout;
    SmallNumber(h.msgId);
    DiscoveryGlobalIs(h.msgId as byte);
    DiscoverySecurityIs(h);
    ShortTlv(0x02, [3]);
    ShortTlv(0x04, DiscoverySecurity());
    var body := Tlv(0x02, [3]) + DiscoveryGlobal(h.msgId as byte) + Tlv(0x04, DiscoverySecurity()) + DiscoveryScoped(q);
    ShortTlv(0x30, body);
  }

  // The discovery request, octet by octet.
  lemma DiscoveryOctets(cfg: Config, s: State)
    requires 0 <= s.msgId < 128 && 0 <= s.reqId < 128
    ensures DiscoveryMessage(cfg, s) == Ok([0x30, 0x46, 0x02, 0x01, 0x03] + DiscoveryGlobal(s.msgId as byte)
                                           + [0x04, 0x10] + DiscoverySecurity() + DiscoveryScoped(s.reqId as byte))
  {
    hide Tlv;
    hide IntBody;
    hide OidBody;
    hide Render;
    hide EncRequestPdu;
    hide Frame;
    hide EncodeScopedPdu;
    hide Layout;
    hide DiscoveryScoped;
    hide DiscoveryGlobal;
    hide DiscoverySecurity;
    hide Has;
    var q := s.reqId as byte;
    SysDescrText();
    FixedOids();
    SysDescrOctets();
    SmallNumber(s.reqId);
    RequestPduOctets(GET_REQUEST, s.reqId, SYS_DESCR_ARCS);
    DiscoveryBindsAre();
    var pdu := EncRequestPdu(GET_REQUEST, s.reqId, [SYS_DESCR]).value;
    ScopedPduIs([], [], pdu);
    DiscoveryScopedIs(q);
    var h := DiscoveryHeader(s.msgId);
    FrameIs(h, [], [], DiscoveryScoped(q));
    DiscoveryLayout(h, q);
    FlagBits(FLAG_REPORTABLE);
    assert DiscoveryMessage(cfg, s) == Ok(Layout(h, [], [], DiscoveryScoped(q)));
  }
}
