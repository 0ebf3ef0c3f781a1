// Messages whose fields are at most 10000 octets each fit in one datagram.
module MessageSizes {
  import opened Results
  import opened Bytes
  import opened Dotted
  import opened Asn1
  import opened Asn1Theorems
  import opened Cfb
  import opened Message
  import opened MessageTheorems

  const FIELD_LIMIT: nat := 10000

  lemma Pow2Of32()
    ensures Pow2(32) == 0x1_0000_0000
    ensures 0x100_0000_0000 == Pow2(40) <= Pow2(1016)
  {
    Pow2Of8();
    Pow2Octet(8);
    Pow2Octet(16);
    Pow2Octet(24);
    Pow2Octet(32);
    Pow2Monotone(40, 1016);
  }

  lemma TlvSize(tag: byte, body: bytes)
    requires |body| < 0x100_0000_0000
    ensures |Tlv(tag, body)| <= |body| + 10
  {
    hide Pow2;
    hide BitLength;
    hide ToBig;
    hide FromBig;
    Pow2Of32();
    BitLengthBound(|body|, 40);
  }

  // The sum of the values plus the longest header for each.
  function Room(items: seq<Child>): nat {
    if items == [] then 0 else |items[0].value| + 10 + Room(items[1..])
  }

  lemma {:induction false} TlvsSize(items: seq<Child>)
    requires Room(items) < 0x100_0000_0000
    ensures |Tlvs(items)| <= Room(items)
  {
    hide Tlv;
    if items != [] {
      TlvSize(items[0].tag, items[0].value);
      TlvsSize(items[1..]);
    }
  }

  lemma RoomOfOne(a: Child)
    ensures Room([a]) == |a.value| + 10
  {
    assert [a][1..] == [];
    assert Room([a]) == |a.value| + 10 + Room([]);
  }

  lemma RoomOfTwo(a: Child, b: Child)
    ensures Room([a, b]) == |a.value| + |b.value| + 20
  {
    assert [a, b][1..] == [b];
    RoomOfOne(b);
  }

  lemma RoomOfThree(a: Child, b: Child, c: Child)
    ensures Room([a, b, c]) == |a.value| + |b.value| + |c.value| + 30
  {
    assert [a, b, c][1..] == [b, c];
    RoomOfTwo(b, c);
  }

  lemma RoomOfFour(a: Child, b: Child, c: Child, d: Child)
    ensures Room([a, b, c, d]) == |a.value| + |b.value| + |c.value| + |d.value| + 40
  {
    assert [a, b, c, d][1..] == [b, c, d];
    RoomOfThree(b, c, d);
  }

  lemma RoomOfSix(a: Child, b: Child, c: Child, d: Child, e: Child, f: Child)
    ensures Room([a, b, c, d, e, f])
         == |a.value| + |b.value| + |c.value| + |d.value| + |e.value| + |f.value| + 60
  {
    assert [a, b, c, d, e, f][1..] == [b, c, d, e, f];
    assert [b, c, d, e, f][1..] == [c, d, e, f];
    RoomOfFour(c, d, e, f);
  }

  lemma IntBodySize(v: int)
    requires 0 <= v < 0x1_0000_0000
    ensures |IntBody(v)| <= 5
  {
    Pow2Of32();
    BitLengthBound(v, 32);
    hide Pow2;
    hide BitLength;
    hide ToBig;
  }

  predicate Small(s: bytes) {
    |s| <= FIELD_LIMIT
  }

  predicate SmallHeader(h: Header) {
    && Small(h.engineId) && Small(h.username)
    && 0 <= h.msgId < 0x1_0000_0000 && 0 <= h.boots < 0x1_0000_0000 && 0 <= h.engineTime < 0x1_0000_0000
  }

  // One variable binding, as in a GETNEXT and its answer.
  predicate SmallContent(c: Content) {
    && Small(c.contextEngineId) && Small(c.contextName)
    && 0 <= c.requestId < 0x1_0000_0000 && c.errorStatus == 0 && c.errorIndex == 0
    && |c.bindings| == 1 && Encodable(c.bindings[0].oid)
    && Small(OidBody(c.bindings[0].oid)) && Small(c.bindings[0].body)
  }

  lemma BindingSize(b: Binding)
    requires Encodable(b.oid) && Small(OidBody(b.oid)) && Small(b.body)
    ensures |Tlvs(BindItems(b))| <= 2 * FIELD_LIMIT + 20
  {
    hide Tlv;
    hide Tlvs;
    hide OidBody;
    var inner := BindItems(b);
    RoomOfTwo(inner[0], inner[1]);
    TlvsSize(inner);
  }

  lemma {:induction false} BindListSize(bs: seq<Binding>)
    requires |bs| == 1 && Encodable(bs[0].oid) && Small(OidBody(bs[0].oid)) && Small(bs[0].body)
    ensures ValidBindings(bs) && |Tlvs(BindListItems(bs))| <= 2 * FIELD_LIMIT + 30
  {
    hide Tlv;
    hide Tlvs;
    hide OidBody;
    hide BindItems;
    BindingSize(bs[0]);
    assert bs[1..] == [];
    assert BindListItems(bs[1..]) == [];
    var only := Child(SEQUENCE, Tlvs(BindItems(bs[0])));
    assert BindListItems(bs) == [only];
    RoomOfOne(only);
    TlvsSize([only]);
  }

  lemma ScopedSize(c: Content)
    requires SmallContent(c)
    ensures ValidBindings(c.bindings) && |Tlvs(ScopedItems(c))| <= 4 * FIELD_LIMIT + 115
  {
    hide Tlv;
    hide Tlvs;
    hide Room;
    hide IntBody;
    hide BindListItems;
    hide OidBody;
    BindListSize(c.bindings);
    IntBodySize(c.requestId);
    IntBodySize(0);
    var pdu := PduItems(c);
    RoomOfFour(pdu[0], pdu[1], pdu[2], pdu[3]);
    TlvsSize(pdu);
    var scoped := ScopedItems(c);
    RoomOfThree(scoped[0], scoped[1], scoped[2]);
    TlvsSize(scoped);
  }

  lemma SecuritySize(h: Header, authParams: bytes, privParams: bytes)
    requires SmallHeader(h) && |authParams| <= 12 && |privParams| <= 8
    ensures |Tlv(SEQUENCE, Tlvs(SecurityItems(h, authParams, privParams)))| <= 2 * FIELD_LIMIT + 100
    ensures |Tlvs(GlobalItems(h))| <= 56
  {
    hide Tlv;
    hide Tlvs;
    hide Room;
    hide IntBody;
    IntBodySize(h.boots);
    IntBodySize(h.engineTime);
    IntBodySize(h.msgId);
    IntBodySize(MAX_MESSAGE_SIZE);
    IntBodySize(USM_SECURITY_MODEL);
    var sec := SecurityItems(h, authParams, privParams);
    RoomOfSix(sec[0], sec[1], sec[2], sec[3], sec[4], sec[5]);
    TlvsSize(sec);
    TlvSize(SEQUENCE, Tlvs(sec));
    var global := GlobalItems(h);
    RoomOfFour(global[0], global[1], global[2], global[3]);
    TlvsSize(global);
  }

  lemma MsgDataSize(h: Header, c: Content, keys: Keys, salt: Salt)
    requires SmallContent(c) && ValidBindings(c.bindings) && Sendable(h, keys)
    ensures |MsgData(h, c, keys, salt).value| <= 4 * FIELD_LIMIT + 125
  {
    hide Tlv;
    hide Tlvs;
    hide EncContent;
    hide ScopedItems;
    hide AesCfbEncrypt;
    hide Iv;
    hide Pow2;
    ScopedSize(c);
    ContentEncodes(c);
    TlvSize(SEQUENCE, Tlvs(ScopedItems(c)));
    if Has(h.flags, FLAG_PRIV) {
      IvIs16(h.boots, h.engineTime, salt);
      CfbSucceeds(keys.priv.value[..16], Iv(h.boots, h.engineTime, salt).value, EncContent(c));
      AesCfbRoundTrip(keys.priv.value[..16], Iv(h.boots, h.engineTime, salt).value, EncContent(c));
    }
  }

  lemma FrameSize(h: Header, authParams: bytes, privParams: bytes, data: Child)
    requires SmallHeader(h) && |authParams| <= 12 && |privParams| <= 8 && |data.value| <= 4 * FIELD_LIMIT + 125
    ensures |Frame(h, authParams, privParams, Tlv(data.tag, data.value))| <= MAX_MESSAGE_SIZE
    ensures Representable(|Frame(h, authParams, privParams, Tlv(data.tag, data.value))|)
  {
    hide Tlv;
    hide Tlvs;
    hide Room;
    hide IntBody;
    hide SecurityItems;
    hide GlobalItems;
    hide Frame;
    hide Pow2;
    Pow2Of32();
    FrameEncodes(h, authParams, privParams, data);
    SecuritySize(h, authParams, privParams);
    IntBodySize(SNMP_VERSION_3);
    var items := FrameItems(h, authParams, privParams, data);
    RoomOfFour(items[0], items[1], items[2], items[3]);
    TlvsSize(items);
    TlvSize(SEQUENCE, Tlvs(items));
  }

  // The round trip for messages of ordinary size, which fit in one datagram.
  lemma SmallRoundTrip(mac: Mac, h: Header, c: Content, keys: Keys, salt: Salt)
    requires SmallHeader(h) && SmallContent(c) && Sendable(h, keys)
    ensures ValidBindings(c.bindings)
    ensures EncodeMessage(mac, h, EncContent(c), keys, salt).Ok?
    ensures |EncodeMessage(mac, h, EncContent(c), keys, salt).value| <= MAX_MESSAGE_SIZE
    ensures DecodeMessage(mac, EncodeMessage(mac, h, EncContent(c), keys, salt).value, keys, true)
         == Ok(Parsed(EnvelopeOf(h, AuthParams(mac, h, c, keys, salt), PrivParams(h, salt)), ReadContent(c)))
  {
    hide EncodeMessage;
    hide DecodeMessage;
    hide MsgData;
    hide Frame;
    hide EncContent;
    hide ReadContent;
    hide Sendable;
    hide SmallContent;
    hide SmallHeader;
    hide Representable;
    SmallIsValid(c);
    MsgDataSize(h, c, keys, salt);
    PrivParamsSize(h, salt);
    FrameSize(h, if Has(h.flags, FLAG_AUTH) then Zeros(AUTH_PARAM_LEN) else [], PrivParams(h, salt),
              MsgData(h, c, keys, salt));
    MessageRoundTrip(mac, h, c, keys, salt);
  }

  lemma SmallIsValid(c: Content)
    requires SmallContent(c)
    ensures ValidBindings(c.bindings)
  {
    hide OidBody;
  }

  lemma PrivParamsSize(h: Header, salt: Salt)
    ensures |PrivParams(h, salt)| <= 8
  {
  }
}
