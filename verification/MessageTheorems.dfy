// decode_message undoes encode_message: through nesting, encryption and signature.
module MessageTheorems {
  import opened Results
  import opened Bytes
  import opened Dotted
  import opened Asn1
  import opened Asn1Theorems
  import opened Cfb
  import opened Message
  import opened Signature

  // ---------- What is put in, and what must come out ----------

  datatype Binding = Binding(oid: Arcs, tag: byte, body: bytes)

  // The scoped PDU of a request or a response.
  datatype Content = Content(contextEngineId: bytes, contextName: bytes, tag: byte, requestId: int,
    errorStatus: int, errorIndex: int, bindings: seq<Binding>)

  predicate ValidBindings(bs: seq<Binding>) {
    forall i :: 0 <= i < |bs| ==> Encodable(bs[i].oid)
  }

  function EncBindings(bs: seq<Binding>): seq<bytes>
    requires ValidBindings(bs)
  {
    if bs == [] then []
    else
      assert Encodable(bs[0].oid);
      assert forall i :: 0 <= i < |bs[1..]| ==> bs[1..][i] == bs[i + 1];
      [EncSeq([EncArcs(bs[0].oid), Tlv(bs[0].tag, bs[0].body)])] + EncBindings(bs[1..])
  }

  function EncContent(c: Content): bytes
    requires ValidBindings(c.bindings)
  {
    EncodeScopedPdu(c.contextEngineId, c.contextName,
                    EncPdu(c.tag, c.requestId, c.errorStatus, c.errorIndex, EncBindings(c.bindings)))
  }

  function ReadBindings(bs: seq<Binding>): seq<VarBind> {
    if bs == [] then []
    else [VarBind(Render(bs[0].oid), DecodeValue(bs[0].tag, bs[0].body))] + ReadBindings(bs[1..])
  }

  function ReadContent(c: Content): Pdu {
    Pdu(c.contextEngineId, c.contextName, c.tag, c.requestId, c.errorStatus, c.errorIndex, ReadBindings(c.bindings))
  }

  // ---------- Joined TLVs ----------

  function Encs(items: seq<Child>): seq<bytes> {
    seq(|items|, i requires 0 <= i < |items| => Tlv(items[i].tag, items[i].value))
  }

  lemma {:induction false} JoinTlvs(items: seq<Child>)
    ensures Join(Encs(items)) == Tlvs(items)
  {
    hide Tlv;
    if items != [] {
      JoinTlvs(items[1..]);
      assert Encs(items)[1..] == Encs(items[1..]);
    }
  }

  lemma SeqOfItems(parts: seq<bytes>, items: seq<Child>)
    requires |parts| == |items|
    requires forall i :: 0 <= i < |items| ==> parts[i] == Tlv(items[i].tag, items[i].value)
    ensures EncSeq(parts) == Tlv(SEQUENCE, Tlvs(items))
  {
    hide Tlv;
    JoinTlvs(items);
    assert parts == Encs(items);
  }

  lemma {:induction false} MemberFits(items: seq<Child>, i: nat)
    requires i < |items|
    ensures |items[i].value| + 2 <= |Tlvs(items)|
  {
    TlvGrows(items[0].tag, items[0].value);
    hide Tlv;
    if i > 0 {
      MemberFits(items[1..], i - 1);
    }
  }

  // ---------- The PDU ----------

  function BindItems(b: Binding): seq<Child>
    requires Encodable(b.oid)
  {
    [Child(OBJECT_IDENTIFIER, OidBody(b.oid)), Child(b.tag, b.body)]
  }

  function BindListItems(bs: seq<Binding>): seq<Child>
    requires ValidBindings(bs)
  {
    if bs == [] then []
    else
      assert Encodable(bs[0].oid);
      assert forall i :: 0 <= i < |bs[1..]| ==> bs[1..][i] == bs[i + 1];
      [Child(SEQUENCE, Tlvs(BindItems(bs[0])))] + BindListItems(bs[1..])
  }

  lemma {:induction false} BindListEncodes(bs: seq<Binding>)
    requires ValidBindings(bs)
    ensures EncBindings(bs) == Encs(BindListItems(bs))
  {
    hide Tlv;
    hide OidBody;
    if bs != [] {
      assert Encodable(bs[0].oid);
      assert forall i :: 0 <= i < |bs[1..]| ==> bs[1..][i] == bs[i + 1];
      SeqOfItems([EncArcs(bs[0].oid), Tlv(bs[0].tag, bs[0].body)], BindItems(bs[0]));
      BindListEncodes(bs[1..]);
    }
  }

  lemma BindRoundTrip(b: Binding)
    requires Encodable(b.oid) && Representable(|Tlvs(BindItems(b))|)
    ensures Children(Tlvs(BindItems(b))) == Ok(BindItems(b))
    ensures ParseOid(OidBody(b.oid)) == Render(b.oid)
  {
    hide *;
    ChildrenOfTlvs(BindItems(b));
    OidTextRoundTrip(b.oid);
  }

  lemma {:induction false} BindListRoundTrip(bs: seq<Binding>)
    requires ValidBindings(bs) && Representable(|Tlvs(BindListItems(bs))|)
    ensures OpenVarBinds(BindListItems(bs)) == Ok(ReadBindings(bs))
  {
    hide Children;
    hide Tlv;
    hide OidBody;
    hide ParseOid;
    hide DecodeValue;
    hide Pow2;
    if bs != [] {
      assert Encodable(bs[0].oid);
      assert forall i :: 0 <= i < |bs[1..]| ==> bs[1..][i] == bs[i + 1];
      var items := BindListItems(bs);
      assert items[1..] == BindListItems(bs[1..]);
      MemberFits(items, 0);
      BindRoundTrip(bs[0]);
      BindListRoundTrip(bs[1..]);
    }
  }

  function PduItems(c: Content): seq<Child>
    requires ValidBindings(c.bindings)
  {
    [
      Child(INTEGER, IntBody(c.requestId)), Child(INTEGER, IntBody(c.errorStatus)),
      Child(INTEGER, IntBody(c.errorIndex)), Child(SEQUENCE, Tlvs(BindListItems(c.bindings)))
    ]
  }

  function ScopedItems(c: Content): seq<Child>
    requires ValidBindings(c.bindings)
  {
    [Child(OCTET_STRING, c.contextEngineId), Child(OCTET_STRING, c.contextName), Child(c.tag, Tlvs(PduItems(c)))]
  }

  lemma FourTlvs(a: Child, b: Child, c: Child, d: Child)
    ensures Tlvs([a, b, c, d])
         == Tlv(a.tag, a.value) + Tlv(b.tag, b.value) + Tlv(c.tag, c.value) + Tlv(d.tag, d.value)
  {
    hide Tlv;
    assert [a, b, c, d][1..] == [b, c, d];
    assert [b, c, d][1..] == [c, d];
    assert [c, d][1..] == [d];
    assert [d][1..] == [];
    assert Tlvs([d]) == Tlv(d.tag, d.value);
    assert Tlvs([c, d]) == Tlv(c.tag, c.value) + Tlvs([d]);
    assert Tlvs([b, c, d]) == Tlv(b.tag, b.value) + Tlvs([c, d]);
  }

  lemma PduEncodes(c: Content)
    requires ValidBindings(c.bindings)
    ensures EncPdu(c.tag, c.requestId, c.errorStatus, c.errorIndex, EncBindings(c.bindings))
      == Tlv(c.tag, Tlvs(PduItems(c)))
  {
    hide Tlv;
    hide IntBody;
    hide EncBindings;
    hide BindListItems;
    BindListEncodes(c.bindings);
    JoinTlvs(BindListItems(c.bindings));
    var items := PduItems(c);
    FourTlvs(items[0], items[1], items[2], items[3]);
  }

  lemma ContentEncodes(c: Content)
    requires ValidBindings(c.bindings)
    ensures EncContent(c) == Tlv(SEQUENCE, Tlvs(ScopedItems(c)))
  {
    hide Tlv;
    hide EncPdu;
    hide PduItems;
    PduEncodes(c);
    var pdu := EncPdu(c.tag, c.requestId, c.errorStatus, c.errorIndex, EncBindings(c.bindings));
    SeqOfItems([EncOct(c.contextEngineId), EncOct(c.contextName), pdu], ScopedItems(c));
  }

  lemma PduChildren(c: Content)
    requires ValidBindings(c.bindings) && Representable(|Tlvs(ScopedItems(c))|)
    ensures Children(Tlvs(ScopedItems(c))) == Ok(ScopedItems(c))
    ensures Children(Tlvs(PduItems(c))) == Ok(PduItems(c))
    ensures Children(Tlvs(BindListItems(c.bindings))) == Ok(BindListItems(c.bindings))
    ensures Representable(|Tlvs(BindListItems(c.bindings))|)
  {
    hide Tlv;
    hide Tlvs;
    hide IntBody;
    hide DecodeChildren;
    hide Children;
    hide Pow2;
    hide BindListItems;
    MemberFits(ScopedItems(c), 2);
    MemberFits(PduItems(c), 3);
    ChildrenOfTlvs(ScopedItems(c));
    ChildrenOfTlvs(PduItems(c));
    ChildrenOfTlvs(BindListItems(c.bindings));
  }

  // The scoped PDU reads back, every field and every varbind.
  lemma PduRoundTrip(c: Content)
    requires ValidBindings(c.bindings) && Representable(|Tlvs(ScopedItems(c))|)
    ensures OpenPdu(Tlvs(ScopedItems(c))) == Ok(ReadContent(c))
  {
    hide Tlvs;
    hide Children;
    hide IntBody;
    hide ParseInt;
    hide BindListItems;
    hide OpenVarBinds;
    hide ReadBindings;
    hide Pow2;
    PduChildren(c);
    BindListRoundTrip(c.bindings);
    IntRoundTrip(c.requestId);
    IntRoundTrip(c.errorStatus);
    IntRoundTrip(c.errorIndex);
  }

  // ---------- The frame ----------

  function GlobalItems(h: Header): seq<Child> {
    [
      Child(INTEGER, IntBody(h.msgId)), Child(INTEGER, IntBody(MAX_MESSAGE_SIZE)),
      Child(OCTET_STRING, [h.flags]), Child(INTEGER, IntBody(USM_SECURITY_MODEL))
    ]
  }

  function SecurityItems(h: Header, authParams: bytes, privParams: bytes): seq<Child> {
    [
      Child(OCTET_STRING, h.engineId),
      Child(INTEGER, IntBody(h.boots)),
      Child(INTEGER, IntBody(h.engineTime)),
      Child(OCTET_STRING, h.username),
      Child(OCTET_STRING, authParams),
      Child(OCTET_STRING, privParams)
    ]
  }

  function FrameItems(h: Header, authParams: bytes, privParams: bytes, data: Child): seq<Child> {
    [
      Child(INTEGER, IntBody(SNMP_VERSION_3)), Child(SEQUENCE, Tlvs(GlobalItems(h))),
      Child(OCTET_STRING, Tlv(SEQUENCE, Tlvs(SecurityItems(h, authParams, privParams)))), data
    ]
  }

  lemma SecurityEncodes(h: Header, authParams: bytes, privParams: bytes)
    ensures SecurityBody(h, authParams, privParams) == Tlv(SEQUENCE, Tlvs(SecurityItems(h, authParams, privParams)))
  {
    hide Tlv;
    hide IntBody;
    SeqOfItems([EncOct(h.engineId), EncInt(h.boots), EncInt(h.engineTime), EncOct(h.username),
                EncOct(authParams), EncOct(privParams)],
               SecurityItems(h, authParams, privParams));
  }

  lemma GlobalEncodes(h: Header)
    ensures GlobalData(h) == Tlv(SEQUENCE, Tlvs(GlobalItems(h)))
  {
    hide Tlv;
    hide IntBody;
    SeqOfItems([EncInt(h.msgId), EncInt(MAX_MESSAGE_SIZE), EncOct([h.flags]), EncInt(USM_SECURITY_MODEL)],
               GlobalItems(h));
  }

  lemma FrameEncodes(h: Header, authParams: bytes, privParams: bytes, data: Child)
    ensures Frame(h, authParams, privParams, Tlv(data.tag, data.value))
         == Tlv(SEQUENCE, Tlvs(FrameItems(h, authParams, privParams, data)))
  {
    hide Tlv;
    hide IntBody;
    hide SecurityBody;
    hide SecurityItems;
    hide GlobalData;
    hide GlobalItems;
    SecurityEncodes(h, authParams, privParams);
    GlobalEncodes(h);
    SeqOfItems([EncInt(SNMP_VERSION_3), GlobalData(h), EncOct(SecurityBody(h, authParams, privParams)),
                Tlv(data.tag, data.value)],
               FrameItems(h, authParams, privParams, data));
  }

  function EnvelopeOf(h: Header, authParams: bytes, privParams: bytes): Envelope {
    Envelope(SNMP_VERSION_3, h.msgId, h.flags, h.engineId, h.boots, h.engineTime, h.username, authParams, privParams)
  }

  lemma FrameSizes(h: Header, authParams: bytes, privParams: bytes, data: Child)
    requires Representable(|Tlv(SEQUENCE, Tlvs(FrameItems(h, authParams, privParams, data)))|)
    ensures Representable(|Tlvs(FrameItems(h, authParams, privParams, data))|)
    ensures Representable(|Tlvs(GlobalItems(h))|)
    ensures Representable(|Tlvs(SecurityItems(h, authParams, privParams))|)
    ensures Representable(|data.value|)
  {
    hide Tlv;
    hide Tlvs;
    hide IntBody;
    hide Pow2;
    hide GlobalItems;
    hide SecurityItems;
    var items := FrameItems(h, authParams, privParams, data);
    TlvGrows(SEQUENCE, Tlvs(items));
    MemberFits(items, 1);
    MemberFits(items, 2);
    MemberFits(items, 3);
    TlvGrows(SEQUENCE, Tlvs(SecurityItems(h, authParams, privParams)));
  }

  lemma DecodeWhole(tag: byte, body: bytes)
    requires Representable(|body|)
    ensures Decode(Tlv(tag, body), 0) == Ok(Item(tag, body, |Tlv(tag, body)|))
  {
    hide Tlv;
    hide Decode;
    DecodeTlv([], tag, body, []);
    assert [] + Tlv(tag, body) + [] == Tlv(tag, body);
  }

  lemma UsmRoundTrip(h: Header, authParams: bytes, privParams: bytes, data: Child)
    requires Representable(|Tlvs(SecurityItems(h, authParams, privParams))|)
    ensures UsmFields(FrameItems(h, authParams, privParams, data)) == Ok(SecurityItems(h, authParams, privParams))
  {
    hide Tlv;
    hide Tlvs;
    hide IntBody;
    hide Decode;
    hide Children;
    hide SecurityItems;
    hide GlobalItems;
    DecodeWhole(SEQUENCE, Tlvs(SecurityItems(h, authParams, privParams)));
    ChildrenOfTlvs(SecurityItems(h, authParams, privParams));
  }

  lemma EnvelopeRoundTrip(h: Header, authParams: bytes, privParams: bytes, data: Child)
    requires Representable(|Tlvs(SecurityItems(h, authParams, privParams))|) && Representable(|Tlvs(GlobalItems(h))|)
    ensures OpenEnvelope(FrameItems(h, authParams, privParams, data)) == Ok(EnvelopeOf(h, authParams, privParams))
  {
    hide Tlv;
    hide Tlvs;
    hide IntBody;
    hide ParseInt;
    hide UsmFields;
    hide Children;
    hide Pow2;
    UsmRoundTrip(h, authParams, privParams, data);
    ChildrenOfTlvs(GlobalItems(h));
    IntRoundTrip(SNMP_VERSION_3);
    IntRoundTrip(h.msgId);
    IntRoundTrip(h.boots);
    IntRoundTrip(h.engineTime);
  }

  // An assembled message opens to its own four parts and its own header fields.
  lemma FrameRoundTrip(h: Header, authParams: bytes, privParams: bytes, data: Child)
    requires Representable(|Frame(h, authParams, privParams, Tlv(data.tag, data.value))|)
    ensures var items := FrameItems(h, authParams, privParams, data);
      && TopLevel(Frame(h, authParams, privParams, Tlv(data.tag, data.value))) == Ok(items)
      && OpenEnvelope(items) == Ok(EnvelopeOf(h, authParams, privParams))
      && Representable(|data.value|)
  {
    hide Tlv;
    hide Tlvs;
    hide Decode;
    hide Children;
    hide OpenEnvelope;
    hide FrameItems;
    hide Frame;
    hide Pow2;
    var items := FrameItems(h, authParams, privParams, data);
    FrameEncodes(h, authParams, privParams, data);
    FrameSizes(h, authParams, privParams, data);
    DecodeWhole(SEQUENCE, Tlvs(items));
    ChildrenOfTlvs(items);
    EnvelopeRoundTrip(h, authParams, privParams, data);
  }

  // ---------- Signing ----------

  // Signing a message with a zeroed field gives one that differs in that field only, and verifies.
  lemma SignedMessage(mac: Mac, keys: Keys, m: bytes)
    requires keys.auth.Some?
    requires TopLevel(m).Ok? && OpenEnvelope(TopLevel(m).value).Ok?
    requires OpenEnvelope(TopLevel(m).value).value.authParams == Zeros(AUTH_PARAM_LEN)
    ensures Sign(mac, keys, m).Ok?
    ensures var s := Sign(mac, keys, m).value;
      var ch, env := TopLevel(m).value, OpenEnvelope(TopLevel(m).value).value;
      var d := Digest(mac, keys.auth.value, m);
      && |s| == |m| && |ch| > 2
      && (exists sec :: |sec| == |ch[2].value| && TopLevel(s) == Ok(ch[2 := Child(ch[2].tag, sec)]))
      && OpenEnvelope(TopLevel(s).value) == Ok(env.(authParams := d))
      && VerifyAuth(mac, s, env.(authParams := d), keys.auth) == Ok(true)
  {
    hide TopLevel;
    hide OpenEnvelope;
    hide AuthParamsOffset;
    hide Splice;
    hide Patch;
    hide Digest;
    OffsetPointsAtField(m);
    var p := AuthParamsOffset(m).value;
    var d := Digest(mac, keys.auth.value, m);
    var zeros := Zeros(AUTH_PARAM_LEN);
    PatchIsSplice(m, p, d);
    var s := Splice(m, p, d);
    SpliceKeepsParse(m, d);
    PatchIsSplice(s, p, zeros);
    SpliceTwice(m, p, d, zeros);
    SpliceIdentity(m, p, zeros);
  }

  // ---------- The whole message ----------

  predicate ClockFits(h: Header) {
    0 <= h.boots < Pow2(32) && 0 <= h.engineTime < Pow2(32)
  }

  // The keys the flags call for are there; for privacy the key has its 16
  // octets and the engine clock fits the initialisation vector.
  predicate Sendable(h: Header, keys: Keys) {
    && (Has(h.flags, FLAG_AUTH) ==> keys.auth.Some?)
    && (Has(h.flags, FLAG_PRIV) ==> keys.priv.Some? && |keys.priv.value| >= 16 && ClockFits(h))
  }

  lemma IvIs16(boots: int, engineTime: int, salt: Salt)
    requires 0 <= boots < Pow2(32) && 0 <= engineTime < Pow2(32)
    ensures Iv(boots, engineTime, salt).Ok? && |Iv(boots, engineTime, salt).value| == 16
  {
    hide ToBig;
    hide Pow2;
  }

  lemma CfbSucceeds(key: bytes, iv: bytes, plain: bytes)
    requires |key| == 16 && |iv| == 16
    ensures AesCfbEncrypt(key, iv, plain).Ok?
  {
    hide Encrypt;
    hide AesFunction;
  }

  // The msgData element: the scoped PDU itself, or the octet string holding its encryption.
  function MsgData(h: Header, c: Content, keys: Keys, salt: Salt): Child
    requires ValidBindings(c.bindings) && Sendable(h, keys)
  {
    if Has(h.flags, FLAG_PRIV) then
      IvIs16(h.boots, h.engineTime, salt);
      CfbSucceeds(keys.priv.value[..16], Iv(h.boots, h.engineTime, salt).value, EncContent(c));
      hide AesCfbEncrypt;
      hide Iv;
      hide EncContent;
      Child(OCTET_STRING, AesCfbEncrypt(keys.priv.value[..16], Iv(h.boots, h.engineTime, salt).value,
                          EncContent(c)).value)
    else Child(SEQUENCE, Tlvs(ScopedItems(c)))
  }

  function PrivParams(h: Header, salt: Salt): bytes {
    if Has(h.flags, FLAG_PRIV) then salt else []
  }

  lemma ProtectGives(h: Header, c: Content, keys: Keys, salt: Salt)
    requires ValidBindings(c.bindings) && Sendable(h, keys)
    ensures var data := MsgData(h, c, keys, salt);
      Protect(h, EncContent(c), keys, salt) == Ok((Tlv(data.tag, data.value), PrivParams(h, salt)))
  {
    hide Tlv;
    hide Tlvs;
    hide EncContent;
    hide ScopedItems;
    hide AesCfbEncrypt;
    hide Iv;
    hide Pow2;
    ContentEncodes(c);
    if Has(h.flags, FLAG_PRIV) {
      IvIs16(h.boots, h.engineTime, salt);
      var iv := Iv(h.boots, h.engineTime, salt).value;
      assert Slice(keys.priv.value, 0, 16) == keys.priv.value[..16];
      CfbSucceeds(keys.priv.value[..16], iv, EncContent(c));
    }
  }

  // What decode_message makes of the msgData element: the scoped PDU body again.
  lemma UnprotectGives(h: Header, c: Content, keys: Keys, salt: Salt, ch: seq<Child>, env: Envelope)
    requires ValidBindings(c.bindings) && Sendable(h, keys)
    requires |ch| == 4 && ch[3] == MsgData(h, c, keys, salt) && Representable(|ch[3].value|)
    requires env.flags == h.flags && env.boots == h.boots && env.engineTime == h.engineTime
    requires env.privParams == PrivParams(h, salt)
    ensures ScopedBody(ch, env, keys.priv) == Ok(Tlvs(ScopedItems(c)))
    ensures Representable(|Tlvs(ScopedItems(c))|)
  {
    hide Tlv;
    hide Tlvs;
    hide EncContent;
    hide ScopedItems;
    hide AesCfbEncrypt;
    hide AesCfbDecrypt;
    hide Decode;
    hide Iv;
    hide Pow2;
    if Has(h.flags, FLAG_PRIV) {
      IvIs16(h.boots, h.engineTime, salt);
      var iv := Iv(h.boots, h.engineTime, salt).value;
      var key := keys.priv.value[..16];
      assert Slice(keys.priv.value, 0, 16) == key;
      CfbSucceeds(key, iv, EncContent(c));
      AesCfbRoundTrip(key, iv, EncContent(c));
      ContentEncodes(c);
      TlvGrows(SEQUENCE, Tlvs(ScopedItems(c)));
      DecodeWhole(SEQUENCE, Tlvs(ScopedItems(c)));
    }
  }

  // The assembled message before it is signed.
  function Unsigned(h: Header, c: Content, keys: Keys, salt: Salt): bytes
    requires ValidBindings(c.bindings) && Sendable(h, keys)
  {
    var data := MsgData(h, c, keys, salt);
    Frame(h, if Has(h.flags, FLAG_AUTH) then Zeros(AUTH_PARAM_LEN) else [], PrivParams(h, salt),
          Tlv(data.tag, data.value))
  }

  function AuthParams(mac: Mac, h: Header, c: Content, keys: Keys, salt: Salt): bytes
    requires ValidBindings(c.bindings) && Sendable(h, keys)
  {
    if Has(h.flags, FLAG_AUTH) then Digest(mac, keys.auth.value, Unsigned(h, c, keys, salt)) else []
  }

  // For every combination of the auth and priv flags with their keys, every salt, msgID,
  // clock and content: encoding succeeds, and decoding with verification on accepts the
  // message and recovers every field and every varbind.
  lemma MessageRoundTrip(mac: Mac, h: Header, c: Content, keys: Keys, salt: Salt)
    requires ValidBindings(c.bindings) && Sendable(h, keys)
    requires Representable(|Unsigned(h, c, keys, salt)|)
    ensures EncodeMessage(mac, h, EncContent(c), keys, salt).Ok?
    ensures |EncodeMessage(mac, h, EncContent(c), keys, salt).value| == |Unsigned(h, c, keys, salt)|
    ensures DecodeMessage(mac, EncodeMessage(mac, h, EncContent(c), keys, salt).value, keys, true)
         == Ok(Parsed(EnvelopeOf(h, AuthParams(mac, h, c, keys, salt), PrivParams(h, salt)), ReadContent(c)))
  {
    hide TopLevel;
    hide OpenEnvelope;
    hide Frame;
    hide Sign;
    hide VerifyAuth;
    hide ScopedBody;
    hide OpenPdu;
    hide MsgData;
    hide EncContent;
    hide Protect;
    hide Digest;
    hide Tlv;
    hide Tlvs;
    hide ScopedItems;
    hide ReadContent;
    hide Pow2;
    var data := MsgData(h, c, keys, salt);
    var zeroed := if Has(h.flags, FLAG_AUTH) then Zeros(AUTH_PARAM_LEN) else [];
    var m := Frame(h, zeroed, PrivParams(h, salt), Tlv(data.tag, data.value));
    ProtectGives(h, c, keys, salt);
    FrameRoundTrip(h, zeroed, PrivParams(h, salt), data);
    var env := EnvelopeOf(h, AuthParams(mac, h, c, keys, salt), PrivParams(h, salt));
    var message := EncodeMessage(mac, h, EncContent(c), keys, salt);
    if Has(h.flags, FLAG_AUTH) {
      SignedMessage(mac, keys, m);
    }
    assert message.Ok? && TopLevel(message.value).Ok?;
    var ch := TopLevel(message.value).value;
    assert OpenEnvelope(ch) == Ok(env);
    assert |ch| == 4 && ch[3] == data;
    UnprotectGives(h, c, keys, salt, ch, env);
    PduRoundTrip(c);
  }

  lemma ContentNotEmpty(c: Content)
    requires ValidBindings(c.bindings)
    ensures EncContent(c) != []
  {
    hide Tlv;
    hide EncContent;
    hide ScopedItems;
    ContentEncodes(c);
    TlvGrows(SEQUENCE, Tlvs(ScopedItems(c)));
  }

  // encode_message raises for every other header and keys.
  lemma NotSendable(mac: Mac, h: Header, c: Content, keys: Keys, salt: Salt)
    requires ValidBindings(c.bindings) && !Sendable(h, keys)
    ensures EncodeMessage(mac, h, EncContent(c), keys, salt).Err?
  {
    hide EncContent;
    hide Frame;
    hide ToBig;
    hide Pow2;
    hide AuthParamsOffset;
    hide Encrypt;
    hide AesFunction;
    ContentNotEmpty(c);
    if Has(h.flags, FLAG_PRIV) && keys.priv.Some? && |keys.priv.value| < 16 {
      assert Slice(keys.priv.value, 0, 16) == keys.priv.value;
    }
  }
}
