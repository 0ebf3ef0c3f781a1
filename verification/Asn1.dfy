// The BER codec of ingest/asn1.py: what each call computes. The properties are in Asn1Theorems.
// Loops of the source are methods here, proved equal to the function that specifies them.
module Asn1 {
  import opened Results
  import opened Bytes
  import opened Dotted

  const INTEGER: byte := 0x02
  const OCTET_STRING: byte := 0x04
  const NULL: byte := 0x05
  const OBJECT_IDENTIFIER: byte := 0x06
  const SEQUENCE: byte := 0x30
  const IP_ADDRESS: byte := 0x40
  const COUNTER32: byte := 0x41
  const GAUGE32: byte := 0x42
  const TIME_TICKS: byte := 0x43
  const OPAQUE: byte := 0x44
  const COUNTER64: byte := 0x46
  const NO_SUCH_OBJECT: byte := 0x80
  const NO_SUCH_INSTANCE: byte := 0x81
  const END_OF_MIB_VIEW: byte := 0x82
  const GET_REQUEST: byte := 0xA0
  const GET_NEXT_REQUEST: byte := 0xA1
  const GET_RESPONSE: byte := 0xA2

  // A length that takes at most 127 octets, as many as the long form can count.
  predicate Representable(n: nat) {
    n < Pow2(1016)
  }

  // ---------- Encoding ----------

  function OctetCount(v: nat): nat {
    (BitLength(v) + 7) / 8
  }

  // v.to_bytes((v.bit_length() + 7) // 8, "big")
  function Magnitude(v: nat): (s: bytes)
    ensures |s| == OctetCount(v)
  {
    BitLengthBound(v, 8 * OctetCount(v));
    ToBig(v, OctetCount(v))
  }

  function EncodeLength(length: nat): bytes {
    if length < 0x80 then [length as byte]
    else
      var body := Magnitude(length);
      [(0x80 + |body| % 0x80) as byte] + body
  }

  function Tlv(tag: byte, body: bytes): bytes {
    [tag] + EncodeLength(|body|) + body
  }

  function IntBody(value: int): bytes {
    if value == 0 then [0]
    else if value > 0 then
      var body := Magnitude(value);
      if body != [] && body[0] >= 0x80 then [0] + body else body
    else
      var length := (BitLength(-value) + 8) / 8;
      BitLengthBound(-value, 8 * length);
      ToBig(value + Pow2(8 * length), length)
  }

  function EncInt(value: int): bytes {
    Tlv(INTEGER, IntBody(value))
  }

  function EncOct(value: bytes): bytes {
    Tlv(OCTET_STRING, value)
  }

  function EncNull(): bytes {
    Tlv(NULL, [])
  }

  // Base-128 digits of v, each with the continuation bit.
  function Septets(v: nat): bytes {
    if v == 0 then [] else Septets(v / 128) + [(0x80 + v % 128) as byte]
  }

  function Base128(v: nat): bytes {
    Septets(v / 128) + [(v % 128) as byte]
  }

  function Base128All(arcs: seq<nat>): bytes {
    if arcs == [] then [] else Base128(arcs[0]) + Base128All(arcs[1..])
  }

  function OidBody(arcs: seq<nat>): bytes
    requires |arcs| >= 2
  {
    Base128All([40 * arcs[0] + arcs[1]] + arcs[2..])
  }

  function EncArcs(arcs: seq<nat>): bytes
    requires |arcs| >= 2
  {
    Tlv(OBJECT_IDENTIFIER, OidBody(arcs))
  }

  function EncOid(oid: string): Result<bytes> {
    var arcs :- ParseDotted(oid);
    if |arcs| < 2 then Err(BerError) else Ok(EncArcs(arcs))
  }

  function Join(items: seq<bytes>): bytes {
    if items == [] then [] else items[0] + Join(items[1..])
  }

  function EncSeq(items: seq<bytes>): bytes {
    Tlv(SEQUENCE, Join(items))
  }

  // [enc_seq([enc_oid(o), enc_null()]) for o in oids]: the first bad OID raises.
  function EncNullBinds(oids: seq<string>): Result<seq<bytes>> {
    if oids == [] then Ok([])
    else
      var oid :- EncOid(oids[0]);
      var rest :- EncNullBinds(oids[1..]);
      Ok([EncSeq([oid, EncNull()])] + rest)
  }

  function EncPdu(tag: byte, requestId: int, errorStatus: int, errorIndex: int, binds: seq<bytes>): bytes {
    Tlv(tag, EncInt(requestId) + EncInt(errorStatus) + EncInt(errorIndex) + EncSeq(binds))
  }

  function EncRequestPdu(tag: byte, requestId: int, oids: seq<string>): Result<bytes> {
    var binds :- EncNullBinds(oids);
    Ok(EncPdu(tag, requestId, 0, 0, binds))
  }

  // ---------- Decoding ----------

  // (tag, value_bytes, next_offset)
  datatype Item = Item(tag: byte, value: bytes, next: nat) {
    // next_offset - len(value): where the value starts.
    function Start(): nat {
      if |value| <= next then next - |value| else 0
    }
  }

  datatype Child = Child(tag: byte, value: bytes)

  function Decode(buf: bytes, offset: nat): (r: Result<Item>)
    ensures r.Ok? ==> offset + 2 + |r.value.value| <= r.value.next <= |buf|
  {
    if offset >= |buf| then Err(BerError)
    else if offset + 1 >= |buf| then Err(IndexError)
    else
      var length := buf[offset + 1] as nat;
      if length < 0x80 then Value(buf, buf[offset], offset + 2, length)
      else if length == 0x80 then Err(BerError)
      else
        var start := offset + 2 + (length - 0x80);
        Value(buf, buf[offset], start, FromBig(Slice(buf, offset + 2, start)))
  }

  function Value(buf: bytes, tag: byte, start: nat, length: nat): Result<Item> {
    if start + length > |buf| then Err(BerError)
    else Ok(Item(tag, buf[start..start + length], start + length))
  }

  function DecodeChildren(value: bytes, offset: nat): Result<seq<Child>>
    decreases |value| - offset
  {
    if offset >= |value| then Ok([])
    else
      var item :- Decode(value, offset);
      var rest :- DecodeChildren(value, item.next);
      Ok([Child(item.tag, item.value)] + rest)
  }

  function Children(value: bytes): Result<seq<Child>> {
    DecodeChildren(value, 0)
  }

  function ParseInt(value: bytes): int {
    if value == [] then 0
    else if value[0] >= 0x80 then FromBig(value) - Pow2(8 * |value|)
    else FromBig(value)
  }

  function ParseUint(value: bytes): nat {
    FromBig(value)
  }

  function Groups(value: bytes, acc: nat): seq<nat> {
    if value == [] then []
    else
      var next := acc * 128 + (value[0] % 128) as nat;
      if value[0] < 0x80 then [next] + Groups(value[1..], 0) else Groups(value[1..], next)
  }

  function SplitFirst(groups: seq<nat>): seq<nat> {
    if groups == [] then []
    else
      var a := if groups[0] / 40 < 2 then groups[0] / 40 else 2;
      [a, groups[0] - 40 * a] + groups[1..]
  }

  function ParseArcs(value: bytes): seq<nat> {
    SplitFirst(Groups(value, 0))
  }

  function ParseOid(value: bytes): string {
    Render(ParseArcs(value))
  }

  // What decode_value returns. Text carries the octets of the string; an
  // exception tag yields the same Text as an octet string spelling its name.
  datatype Scalar =
    | Number(n: int)
    | Oid(text: string)
    | Address(octets: bytes)
    | Text(octets: bytes)
    | Hex(octets: bytes)
    | Nothing

  const NO_SUCH_OBJECT_TEXT: bytes := [110, 111, 83, 117, 99, 104, 79, 98, 106, 101, 99, 116]
  const NO_SUCH_INSTANCE_TEXT: bytes := [110, 111, 83, 117, 99, 104, 73, 110, 115, 116, 97, 110, 99, 101]
  const END_OF_MIB_VIEW_TEXT: bytes := [101, 110, 100, 79, 102, 77, 105, 98, 86, 105, 101, 119]

  function DecodeValue(tag: byte, value: bytes): Scalar {
    if tag == NO_SUCH_OBJECT then Text(NO_SUCH_OBJECT_TEXT)
    else if tag == NO_SUCH_INSTANCE then Text(NO_SUCH_INSTANCE_TEXT)
    else if tag == END_OF_MIB_VIEW then Text(END_OF_MIB_VIEW_TEXT)
    else if tag == INTEGER then Number(ParseInt(value))
    else if tag in {COUNTER32, GAUGE32, TIME_TICKS, COUNTER64} then Number(ParseUint(value))
    else if tag == OBJECT_IDENTIFIER then Oid(ParseOid(value))
    else if tag == IP_ADDRESS then Address(value)
    else if tag == OCTET_STRING || tag == OPAQUE then Text(value)
    else if tag == NULL then Nothing
    else Hex(value)
  }

  // ---------- The loops of the source ----------

  // After some rounds of the digit loop: the digits taken so far, least
  // significant first, and their big-endian form with continuation bits.
  predicate DigitsTaken(value: nat, v: nat, digits: bytes, tail: bytes) {
    && |tail| == |digits|
    && (forall i :: 0 <= i < |digits| ==>
      tail[|digits| - 1 - i] == (if i == 0 then digits[i] else 0x80 + digits[i] % 0x80))
    && if digits == [] then v == value else Base128(value) == Septets(v) + tail
  }

  lemma DigitStep(value: nat, v: nat, digits: bytes, tail: bytes)
    requires v > 0 && DigitsTaken(value, v, digits, tail)
    ensures var d := (v % 128) as byte;
      DigitsTaken(value, v / 128, digits + [d], [if digits == [] then d else 0x80 + d] + tail)
  {
    var d: byte := (v % 128) as byte;
    if digits != [] {
      Assoc(Septets(v / 128), [0x80 + d], tail);
    } else {
      assert [d] + tail == [d];
    }
  }

  method Base128Loop(value: nat) returns (out: bytes)
    ensures out == Base128(value)
  {
    hide Base128;
    if value == 0 {
      Base128Zero();
      return [0];
    }
    var v: nat := value;
    var digits: bytes := [];
    ghost var tail: bytes := [];
    while v > 0
      invariant v > 0 || digits != []
      invariant DigitsTaken(value, v, digits, tail)
    {
      DigitStep(value, v, digits, tail);
      tail := [if digits == [] then (v % 128) as byte else 0x80 + (v % 128) as byte] + tail;
      digits := digits + [(v % 128) as byte];
      v := v / 128;
    }
    assert Septets(0) + tail == tail;
    out := [];
    var i := |digits|;
    while i > 0
      invariant 0 <= i <= |digits|
      invariant out == tail[..|digits| - i]
    {
      i := i - 1;
      out := out + [if i == 0 then digits[i] else 0x80 + digits[i] % 0x80];
    }
  }

  lemma Base128Zero()
    ensures Base128(0) == [0]
  {
  }

  method EncodeOid(oid: string) returns (r: Result<bytes>)
    ensures r == EncOid(oid)
  {
    var parsed := ParseDotted(oid);
    if parsed.Err? {
      return Err(parsed.error);
    }
    var parts := parsed.value;
    if |parts| < 2 {
      return Err(BerError);
    }
    ghost var numbers := [40 * parts[0] + parts[1]] + parts[2..];
    var body := Base128Loop(40 * parts[0] + parts[1]);
    var i := 2;
    assert numbers[1..] == parts[2..];
    while i < |parts|
      invariant 2 <= i <= |parts|
      invariant OidBody(parts) == body + Base128All(parts[i..])
    {
      var group := Base128Loop(parts[i]);
      assert parts[i..][1..] == parts[i + 1..];
      Assoc(body, group, Base128All(parts[i + 1..]));
      body := body + group;
      i := i + 1;
    }
    assert parts[i..] == [] && body + [] == body;
    return Ok(Tlv(OBJECT_IDENTIFIER, body));
  }

  function Prepend(out: seq<Child>, rest: Result<seq<Child>>): Result<seq<Child>> {
    if rest.Ok? then Ok(out + rest.value) else rest
  }

  lemma PrependNothing(rest: Result<seq<Child>>)
    ensures Prepend([], rest) == rest
  {
    if rest.Ok? {
      assert [] + rest.value == rest.value;
    }
  }

  lemma PrependMore(out: seq<Child>, child: Child, rest: Result<seq<Child>>)
    ensures Prepend(out, Prepend([child], rest)) == Prepend(out + [child], rest)
  {
    if rest.Ok? {
      Assoc(out, [child], rest.value);
    }
  }

  method DecodeAll(value: bytes) returns (r: Result<seq<Child>>)
    ensures r == Children(value)
  {
    var out: seq<Child> := [];
    var offset := 0;
    PrependNothing(Children(value));
    while offset < |value|
      invariant Children(value) == Prepend(out, DecodeChildren(value, offset))
      decreases |value| - offset
    {
      var item := Decode(value, offset);
      if item.Err? {
        return Err(item.error);
      }
      var child := Child(item.value.tag, item.value.value);
      PrependMore(out, child, DecodeChildren(value, item.value.next));
      out := out + [child];
      offset := item.value.next;
    }
    assert out + [] == out;
    return Ok(out);
  }

  method ParseGroups(value: bytes) returns (groups: seq<nat>)
    ensures groups == Groups(value, 0)
  {
    groups := [];
    var acc: nat := 0;
    assert value[0..] == value;
    for i := 0 to |value|
      invariant Groups(value, 0) == groups + Groups(value[i..], acc)
    {
      assert value[i..][1..] == value[i + 1..];
      acc := acc * 128 + (value[i] % 128) as nat;
      if value[i] < 0x80 {
        groups := groups + [acc];
        acc := 0;
      }
    }
  }
}
