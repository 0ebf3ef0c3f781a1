// What the values of a table are to the caller, type by type, and the walk in these terms.
module Values {
  import opened Results
  import opened Bytes
  import opened Dotted
  import opened Asn1
  import opened Asn1Theorems
  import opened Mib
  import opened Transport
  import opened Engine
  import opened Agent
  import opened Discovery

  // RFC 2578 section 7.1, and what else may stand in a variable binding.
  datatype Typed =
    | Integer32(z: int)
    | Counter32(count: nat)
    | Gauge32(count: nat)
    | TimeTicks(count: nat)
    | Counter64(count: nat)
    | ObjectId(arcs: Arcs)
    | IpAddress(octets: bytes)
    | OctetString(octets: bytes)
    | Opaque(octets: bytes)
    | NoValue
    | NoSuchObject
    | NoSuchInstance
    | EndOfMibView
    | Other(tag: byte, octets: bytes)

  const KNOWN_TAGS: set<byte> := {0x02, 0x04, 0x05, 0x06, 0x40, 0x41, 0x42, 0x43, 0x44, 0x46, 0x80, 0x81, 0x82}

  predicate Proper(v: Typed) {
    (v.ObjectId? ==> Encodable(v.arcs)) && (v.Other? ==> v.tag !in KNOWN_TAGS)
  }

  function TagOf(v: Typed): byte {
    match v
    case Integer32(_) => 0x02
    case Counter32(_) => 0x41
    case Gauge32(_) => 0x42
    case TimeTicks(_) => 0x43
    case Counter64(_) => 0x46
    case ObjectId(_) => 0x06
    case IpAddress(_) => 0x40
    case OctetString(_) => 0x04
    case Opaque(_) => 0x44
    case NoValue => 0x05
    case NoSuchObject => 0x80
    case NoSuchInstance => 0x81
    case EndOfMibView => 0x82
    case Other(tag, _) => tag
  }

  function BodyOf(v: Typed): bytes
    requires Proper(v)
  {
    match v
    case Integer32(z) => IntBody(z)
    case Counter32(n) => IntBody(n)
    case Gauge32(n) => IntBody(n)
    case TimeTicks(n) => IntBody(n)
    case Counter64(n) => IntBody(n)
    case ObjectId(arcs) => OidBody(arcs)
    case IpAddress(octets) => octets
    case OctetString(octets) => octets
    case Opaque(octets) => octets
    case Other(_, octets) => octets
    case _ => []
  }

  // The octets of a text of ASCII characters.
  function Ascii(text: string): bytes
    requires forall i :: 0 <= i < |text| ==> text[i] as int < 128
  {
    seq(|text|, i requires 0 <= i < |text| => text[i] as byte)
  }

  // What the caller gets.
  function Meaning(v: Typed): Scalar {
    match v
    case Integer32(z) => Number(z)
    case Counter32(n) => Number(n)
    case Gauge32(n) => Number(n)
    case TimeTicks(n) => Number(n)
    case Counter64(n) => Number(n)
    case ObjectId(arcs) => Oid(Render(arcs))
    case IpAddress(octets) => Address(octets)
    case OctetString(octets) => Text(octets)
    case Opaque(octets) => Text(octets)
    case NoValue => Nothing
    case NoSuchObject => Text(Ascii("noSuchObject"))
    case NoSuchInstance => Text(Ascii("noSuchInstance"))
    case EndOfMibView => Text(Ascii("endOfMibView"))
    case Other(_, octets) => Hex(octets)
  }

  // ---------- One value ----------

  lemma ExceptionTexts()
    ensures NO_SUCH_OBJECT_TEXT == Ascii("noSuchObject")
    ensures NO_SUCH_INSTANCE_TEXT == Ascii("noSuchInstance")
    ensures END_OF_MIB_VIEW_TEXT == Ascii("endOfMibView")
  {
  }

  lemma MagnitudeIs(n: nat)
    ensures FromBig(Magnitude(n)) == n
  {
    hide ToBig;
    hide FromBig;
    BitLengthBound(n, 8 * OctetCount(n));
    FromBigToBig(n, OctetCount(n));
  }

  // An unsigned number is read the same from its signed body, padded or not, as from its plain octets.
  lemma UnsignedBody(n: nat)
    ensures ParseUint(IntBody(n)) == n
  {
    hide FromBig;
    MagnitudeIs(n);
    hide Magnitude;
    if n == 0 {
      ZeroOctet();
    } else {
      PrependZero(Magnitude(n));
    }
  }

  lemma ZeroOctet()
    ensures FromBig([0]) == 0
  {
    assert [0 as byte][..0] == [];
  }

  // The four unsigned types, from any big-endian octets of the number.
  lemma UnsignedDecodes(tag: byte, body: bytes)
    requires tag == 0x41 || tag == 0x42 || tag == 0x43 || tag == 0x46
    ensures DecodeValue(tag, body) == Number(FromBig(body))
  {
    hide FromBig;
  }

  lemma GaugeOf1000()
    ensures DecodeValue(0x42, [0x03, 0xE8]) == Number(1000)
  {
    assert [0x03 as byte, 0xE8][..1] == [0x03] && [0x03 as byte][..0] == [];
    UnsignedDecodes(0x42, [0x03, 0xE8]);
  }

  // Every value of every type is read as what it means.
  lemma ValueRoundTrip(v: Typed)
    requires Proper(v)
    ensures DecodeValue(TagOf(v), BodyOf(v)) == Meaning(v)
  {
    hide IntBody;
    hide ParseInt;
    hide ParseUint;
    hide OidBody;
    hide ParseOid;
    hide Render;
    hide Ascii;
    ExceptionTexts();
    match v {
      case Integer32(z) => IntRoundTrip(z);
      case Counter32(n) => UnsignedBody(n);
      case Gauge32(n) => UnsignedBody(n);
      case TimeTicks(n) => UnsignedBody(n);
      case Counter64(n) => UnsignedBody(n);
      case ObjectId(arcs) => OidTextRoundTrip(arcs);
      case _ =>
    }
  }

  // ---------- A table of values ----------

  datatype Row = Row(oid: Arcs, value: Typed)

  predicate ProperRows(rows: seq<Row>) {
    forall i :: 0 <= i < |rows| ==> Proper(rows[i].value)
  }

  function Table(rows: seq<Row>): (t: seq<Entry>)
    requires ProperRows(rows)
    ensures |t| == |rows|
    ensures forall i :: 0 <= i < |rows| ==>
      t[i] == Entry(rows[i].oid, TagOf(rows[i].value), BodyOf(rows[i].value))
  {
    seq(|rows|, i requires 0 <= i < |rows| => Entry(rows[i].oid, TagOf(rows[i].value), BodyOf(rows[i].value)))
  }

  // Where a row below the base stands in the result.
  function Suffix(base: Arcs, row: Row): string
    requires Under(base, row.oid)
  {
    Render(row.oid[|base|..])
  }

  predicate Shown(m: map<string, Scalar>, base: Arcs, row: Row)
    requires Under(base, row.oid)
  {
    Suffix(base, row) in m && m[Suffix(base, row)] == Meaning(row.value)
  }

  predicate IsKey(rows: seq<Row>, base: Arcs, key: string) {
    exists i :: 0 <= i < |rows| && Under(base, rows[i].oid) && Suffix(base, rows[i]) == key
  }

  // The rows below the base, each under its suffix with what its value means, and nothing else.
  predicate Shows(m: map<string, Scalar>, rows: seq<Row>, base: Arcs) {
    && (forall i :: 0 <= i < |rows| && Under(base, rows[i].oid) ==> Shown(m, base, rows[i]))
    && (forall key :: key in m ==> IsKey(rows, base, key))
  }

  // No value below the base reads as the name of an exception.
  predicate NoExceptionNames(rows: seq<Row>, base: Arcs) {
    forall i :: 0 <= i < |rows| && Under(base, rows[i].oid) ==>
      Meaning(rows[i].value) !in {
        Text(Ascii("noSuchObject")), Text(Ascii("noSuchInstance")), Text(Ascii("endOfMibView"))}
  }

  function RowsBelow(rows: seq<Row>, base: Arcs): set<int> {
    set i | 0 <= i < |rows| && Under(base, rows[i].oid)
  }

  lemma EntryMeans(rows: seq<Row>, i: nat)
    requires ProperRows(rows) && i < |rows|
    ensures Table(rows)[i].Value() == Meaning(rows[i].value) && Table(rows)[i].oid == rows[i].oid
  {
    ValueRoundTrip(rows[i].value);
    hide DecodeValue;
    hide Meaning;
  }

  lemma SubtreeShows(rows: seq<Row>, base: Arcs)
    requires ProperRows(rows) && Ascending(Table(rows))
    ensures Shows(Subtree(Table(rows), base), rows, base)
  {
    var t := Table(rows);
    assert t[..|t|] == t;
    SubtreeMeaning(t, base, |t|);
    hide Subtree;
    hide Render;
    hide Meaning;
    var m := Subtree(t, base);
    forall i | 0 <= i < |rows| && Under(base, rows[i].oid)
      ensures Shown(m, base, rows[i])
    {
      EntryMeans(rows, i);
    }
    forall key | key in m
      ensures IsKey(rows, base, key)
    {
      var i :| 0 <= i < |t| && Under(base, t[i].oid) && Render(t[i].oid[|base|..]) == key;
      assert Suffix(base, rows[i]) == key;
    }
  }

  // There is one such map.
  lemma ShowsDetermines(m: map<string, Scalar>, n: map<string, Scalar>, rows: seq<Row>, base: Arcs)
    requires Shows(m, rows, base) && Shows(n, rows, base)
    ensures m == n
  {
    hide Suffix;
    hide Meaning;
    forall key | key in m
      ensures key in n && n[key] == m[key]
    {
      assert IsKey(rows, base, key);
      var i :| 0 <= i < |rows| && Under(base, rows[i].oid) && Suffix(base, rows[i]) == key;
      assert Shown(m, base, rows[i]) && Shown(n, base, rows[i]);
    }
    forall key | key in n
      ensures key in m
    {
      assert IsKey(rows, base, key);
      var i :| 0 <= i < |rows| && Under(base, rows[i].oid) && Suffix(base, rows[i]) == key;
      assert Shown(m, base, rows[i]);
    }
  }

  lemma {:induction false} CountIs(rows: seq<Row>, base: Arcs, n: nat)
    requires ProperRows(rows) && n <= |rows|
    ensures Count(Table(rows)[..n], base) == |RowsBelow(rows[..n], base)|
  {
    hide Under;
    if n == 0 {
      assert RowsBelow(rows[..0], base) == {};
    } else {
      CountIs(rows, base, n - 1);
      CountStep(Table(rows), base, n);
      RowsBelowStep(rows, base, n);
      hide Count;
      hide RowsBelow;
    }
  }

  lemma CountStep(t: seq<Entry>, base: Arcs, n: nat)
    requires 0 < n <= |t|
    ensures Count(t[..n], base) == Count(t[..n - 1], base) + (if Under(base, t[n - 1].oid) then 1 else 0)
  {
    assert t[..n][..n - 1] == t[..n - 1];
    hide Under;
  }

  lemma RowsBelowStep(rows: seq<Row>, base: Arcs, n: nat)
    requires 0 < n <= |rows|
    ensures |RowsBelow(rows[..n], base)|
         == |RowsBelow(rows[..n - 1], base)| + (if Under(base, rows[n - 1].oid) then 1 else 0)
  {
    hide Under;
    var before, now := RowsBelow(rows[..n - 1], base), RowsBelow(rows[..n], base);
    if Under(base, rows[n - 1].oid) {
      assert now == before + {n - 1};
    } else {
      assert now == before;
    }
  }

  lemma SentinelMeans(rows: seq<Row>, base: Arcs)
    requires ProperRows(rows)
    ensures NoSentinel(Table(rows), base) <==> NoExceptionNames(rows, base)
  {
    hide Meaning;
    hide Ascii;
    ExceptionTexts();
    forall i | 0 <= i < |rows|
      ensures Table(rows)[i].Value() == Meaning(rows[i].value) && Table(rows)[i].oid == rows[i].oid
    {
      EntryMeans(rows, i);
    }
    hide DecodeValue;
    hide Under;
  }

  // A new engine that walks an honest device with such a table gets the values below the base, each as what it
  // means, if and only if none reads as the name of an exception and they are fewer than maxOids.
  lemma NewEngineReadsValues(cfg: Config, env: Env, d: Device, rows: seq<Row>, s: State, w: World, base: Arcs,
                             maxOids: nat)
    requires ProperRows(rows) && d.table == Table(rows)
    requires Matched(cfg, d) && Honest(cfg, env, d) && SharesPasswords(cfg, d) && Undiscovered(s) && SmallOid(base)
    requires ClockInRange(d, w.now) && ClockInRange(d, w.now + Budget(Patience(cfg), maxOids + 1))
    ensures var r := WalkTurn(cfg, env, s, w, Render(base), maxOids).result;
      (r.Ok? && Shows(r.value, rows, base)) <==> (NoExceptionNames(rows, base) && |RowsBelow(rows, base)| < maxOids)
  {
    hide *;
    NewEngineWalkIff(cfg, env, d, s, w, base, maxOids);
    TableAscends(cfg, d);
    SubtreeShows(rows, base);
    SentinelMeans(rows, base);
    CountAll(rows, base);
    var r := WalkTurn(cfg, env, s, w, Render(base), maxOids).result;
    if r.Ok? && Shows(r.value, rows, base) {
      ShowsDetermines(r.value, Subtree(d.table, base), rows, base);
    }
  }

  lemma TableAscends(cfg: Config, d: Device)
    requires Matched(cfg, d)
    ensures Ascending(d.table)
  {
    hide Ascending;
    hide OidBody;
  }

  lemma CountAll(rows: seq<Row>, base: Arcs)
    requires ProperRows(rows)
    ensures Count(Table(rows), base) == |RowsBelow(rows, base)|
  {
    CountIs(rows, base, |rows|);
    assert rows[..|rows|] == rows && Table(rows)[..|rows|] == Table(rows);
  }
}
