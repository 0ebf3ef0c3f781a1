// The BER decoder undoes the BER encoder: framing, integers and object identifiers.
module Asn1Theorems {
  import opened Results
  import opened Bytes
  import opened Dotted
  import opened Asn1

  // ---------- One TLV ----------

  // What a successful decode looks like: a header of at least two octets, then the value.
  lemma DecodeBounds(buf: bytes, offset: nat)
    requires Decode(buf, offset).Ok?
    ensures var item := Decode(buf, offset).value;
      && offset + 2 + |item.value| <= item.next <= |buf|
      && item.tag == buf[offset]
      && item.value == buf[item.next - |item.value|..item.next]
  {
  }

  lemma SliceOfSlice(buf: bytes, lo: nat, hi: nat, a: nat, b: nat)
    requires lo <= hi <= |buf| && a <= b <= hi - lo
    ensures buf[lo..hi][a..b] == buf[lo + a..lo + b]
  {
    forall i | 0 <= i < b - a
      ensures buf[lo..hi][a..b][i] == buf[lo + a..lo + b][i]
    {
    }
  }

  lemma ValueWindow(buf: bytes, lo: nat, hi: nat, tag: byte, start: nat, length: nat)
    requires lo <= hi <= |buf| && Value(buf[lo..hi], tag, start, length).Ok?
    ensures var item := Value(buf[lo..hi], tag, start, length).value;
      && start + length <= hi - lo
      && Value(buf, tag, lo + start, length) == Ok(Item(item.tag, item.value, lo + item.next))
  {
    SliceOfSlice(buf, lo, hi, start, start + length);
  }

  // Only the window [lo, hi) matters: surrounding bytes do not change the decode.
  lemma DecodeWindow(buf: bytes, lo: nat, hi: nat, offset: nat)
    requires lo <= hi <= |buf|
    requires Decode(buf[lo..hi], offset).Ok?
    ensures var item := Decode(buf[lo..hi], offset).value;
      Decode(buf, lo + offset) == Ok(Item(item.tag, item.value, lo + item.next))
  {
    hide Value;
    hide FromBig;
    var win := buf[lo..hi];
    assert win[offset] == buf[lo + offset] && win[offset + 1] == buf[lo + offset + 1];
    var length := win[offset + 1] as nat;
    if length < 0x80 {
      ValueWindow(buf, lo, hi, win[offset], offset + 2, length);
    } else {
      var start := offset + 2 + (length - 0x80);
      var n := FromBig(Slice(win, offset + 2, start));
      ValueWindow(buf, lo, hi, win[offset], start, n);
      SliceOfSlice(buf, lo, hi, offset + 2, start);
      assert Slice(win, offset + 2, start) == Slice(buf, lo + offset + 2, lo + start);
    }
  }

  lemma MagnitudeRoundTrip(v: nat)
    ensures FromBig(Magnitude(v)) == v
  {
    BitLengthBound(v, 8 * OctetCount(v));
    FromBigToBig(v, OctetCount(v));
  }

  lemma LongMagnitude(n: nat)
    requires n > 0 && Representable(n)
    ensures 1 <= |Magnitude(n)| <= 127
  {
    BitLengthBound(n, 1016);
    BitLengthBound(n, 0);
  }

  // The short form holds the length; the long form holds how many octets follow and then the length.
  lemma LengthForm(n: nat)
    requires Representable(n)
    ensures var h := EncodeLength(n);
      && h != []
      && (n < 0x80 ==> h == [n as byte])
      && (n >= 0x80 ==> 2 <= |h| <= 128 && h[0] as nat == 0x80 + (|h| - 1) && FromBig(h[1..]) == n)
  {
    hide Magnitude;
    hide FromBig;
    hide Pow2;
    if n >= 0x80 {
      LongMagnitude(n);
      MagnitudeRoundTrip(n);
      assert EncodeLength(n)[1..] == Magnitude(n);
    }
  }

  // A tag, a length and enough octets: the value is what follows the length.
  lemma DecodeAt(buf: bytes, offset: nat, n: nat)
    requires Representable(n)
    requires offset + 1 + |EncodeLength(n)| + n <= |buf|
    requires buf[offset + 1..offset + 1 + |EncodeLength(n)|] == EncodeLength(n)
    ensures var start := offset + 1 + |EncodeLength(n)|;
      Decode(buf, offset) == Ok(Item(buf[offset], buf[start..start + n], start + n))
  {
    hide EncodeLength;
    hide FromBig;
    LengthForm(n);
    var h := EncodeLength(n);
    assert buf[offset + 1] == h[0];
    if n >= 0x80 {
      SliceOfSlice(buf, offset + 1, offset + 1 + |h|, 1, |h|);
      assert Slice(buf, offset + 2, offset + 1 + |h|) == h[1..];
    }
  }

  lemma TlvParts(pre: bytes, tag: byte, body: bytes, post: bytes)
    ensures var buf := pre + Tlv(tag, body) + post;
      var start := |pre| + 1 + |EncodeLength(|body|)|;
      && |pre| + |Tlv(tag, body)| == start + |body| <= |buf|
      && buf[|pre|] == tag
      && buf[|pre| + 1..start] == EncodeLength(|body|)
      && buf[start..start + |body|] == body
  {
    hide EncodeLength;
    var h := EncodeLength(|body|);
    var buf := pre + Tlv(tag, body) + post;
    assert buf == pre + [tag] + h + body + post;
    Middle(pre + [tag], h, body + post);
    Middle(pre + [tag] + h, body, post);
    assert pre + [tag] + h + (body + post) == buf;
  }

  lemma Middle(a: bytes, b: bytes, c: bytes)
    ensures (a + b + c)[|a|..|a| + |b|] == b
  {
  }

  // X.690 section 8.1.3: a TLV decodes to itself wherever it stands.
  lemma {:induction false} DecodeTlv(pre: bytes, tag: byte, body: bytes, post: bytes)
    requires Representable(|body|)
    ensures Decode(pre + Tlv(tag, body) + post, |pre|) == Ok(Item(tag, body, |pre| + |Tlv(tag, body)|))
  {
    hide Decode;
    hide EncodeLength;
    TlvParts(pre, tag, body, post);
    DecodeAt(pre + Tlv(tag, body) + post, |pre|, |body|);
  }

  // One octet more and the length octet reads as the indefinite form, which is refused: no longer body of
  // 128 length octets comes back.
  lemma LongerIsRefused(pre: bytes, tag: byte, body: bytes, post: bytes)
    requires OctetCount(|body|) == 128
    ensures Decode(pre + Tlv(tag, body) + post, |pre|) == Err(BerError)
  {
    BitLengthBound(|body|, 7);
    Pow2Of8();
    hide Magnitude;
    hide Pow2;
    hide BitLength;
    var buf := pre + Tlv(tag, body) + post;
    assert EncodeLength(|body|)[0] == 0x80;
    assert buf[|pre| + 1] == Tlv(tag, body)[1] == EncodeLength(|body|)[0];
  }

  lemma TlvGrows(tag: byte, body: bytes)
    ensures |body| + 2 <= |Tlv(tag, body)|
  {
  }

  // ---------- A sequence of TLVs ----------

  function Tlvs(items: seq<Child>): bytes {
    if items == [] then [] else Tlv(items[0].tag, items[0].value) + Tlvs(items[1..])
  }

  lemma DecodeFirst(buf: bytes, offset: nat, kid: Child, next: nat, rest: seq<Child>)
    requires offset < |buf|
    requires Decode(buf, offset) == Ok(Item(kid.tag, kid.value, next))
    requires DecodeChildren(buf, next) == Ok(rest)
    ensures DecodeChildren(buf, offset) == Ok([kid] + rest)
  {
    hide Decode;
  }

  // buf[offset..] is head followed by rest.
  predicate Continues(buf: bytes, offset: nat, head: bytes, rest: bytes) {
    && offset + |head| <= |buf|
    && buf[offset..offset + |head|] == head
    && buf[offset + |head|..] == rest
  }

  lemma Split(buf: bytes, offset: nat, head: bytes, rest: bytes)
    requires offset <= |buf| && buf[offset..] == head + rest
    ensures Continues(buf, offset, head, rest)
  {
    assert |buf| == offset + |head| + |rest|;
    forall i | 0 <= i < |head|
      ensures buf[offset + i] == head[i]
    {
      assert buf[offset..][i] == (head + rest)[i];
    }
    forall i | 0 <= i < |rest|
      ensures buf[offset + |head| + i] == rest[i]
    {
      assert buf[offset..][|head| + i] == (head + rest)[|head| + i];
    }
  }

  lemma DecodeHead(buf: bytes, offset: nat, kid: Child, rest: bytes)
    requires Representable(|kid.value|)
    requires offset <= |buf| && buf[offset..] == Tlv(kid.tag, kid.value) + rest
    ensures var next := offset + |Tlv(kid.tag, kid.value)|;
      && offset < next <= |buf| && buf[next..] == rest
      && Decode(buf, offset) == Ok(Item(kid.tag, kid.value, next))
  {
    hide Decode;
    hide Tlv;
    var head := Tlv(kid.tag, kid.value);
    Split(buf, offset, head, rest);
    TlvGrows(kid.tag, kid.value);
    DecodeTlv([], kid.tag, kid.value, []);
    assert [] + head + [] == head;
    DecodeWindow(buf, offset, offset + |head|, 0);
  }

  lemma {:induction false} DecodeTlvs(buf: bytes, offset: nat, items: seq<Child>)
    requires offset <= |buf| && buf[offset..] == Tlvs(items)
    requires Representable(|Tlvs(items)|)
    ensures DecodeChildren(buf, offset) == Ok(items)
    decreases |items|
  {
    hide *;
    if items == [] {
      DecodeNone(buf, offset);
    } else {
      TlvsStep(items);
      var kid := items[0];
      DecodeHead(buf, offset, kid, Tlvs(items[1..]));
      var next := offset + |Tlv(kid.tag, kid.value)|;
      DecodeTlvs(buf, next, items[1..]);
      DecodeFirst(buf, offset, kid, next, items[1..]);
      assert [kid] + items[1..] == items;
    }
  }

  lemma DecodeNone(buf: bytes, offset: nat)
    requires offset <= |buf| && buf[offset..] == Tlvs([])
    ensures DecodeChildren(buf, offset) == Ok([])
  {
  }

  lemma TlvsStep(items: seq<Child>)
    requires items != [] && Representable(|Tlvs(items)|)
    ensures Tlvs(items) == Tlv(items[0].tag, items[0].value) + Tlvs(items[1..])
    ensures Representable(|items[0].value|) && Representable(|Tlvs(items[1..])|)
  {
    hide Pow2;
    TlvGrows(items[0].tag, items[0].value);
  }

  lemma {:induction false} ChildrenOfTlvs(items: seq<Child>)
    requires Representable(|Tlvs(items)|)
    ensures Children(Tlvs(items)) == Ok(items)
  {
    assert Tlvs(items)[0..] == Tlvs(items);
    DecodeTlvs(Tlvs(items), 0, items);
  }

  // Where the children of an accepted buffer begin and end.
  function Cuts(value: bytes, offset: nat): (cuts: seq<nat>)
    requires DecodeChildren(value, offset).Ok?
    ensures |cuts| == |DecodeChildren(value, offset).value| + 1
    decreases |value| - offset
  {
    if offset >= |value| then [offset]
    else [offset] + Cuts(value, Decode(value, offset).value.next)
  }

  // Child k spans value[lo..hi]: a header of at least two octets, then its value.
  predicate Spans(value: bytes, kid: Child, lo: nat, hi: nat) {
    && lo + 2 + |kid.value| <= hi <= |value|
    && value[lo] == kid.tag
    && value[hi - |kid.value|..hi] == kid.value
  }

  // The spans of the children tile the buffer.
  lemma {:induction false} ChildrenPartition(value: bytes, offset: nat)
    requires DecodeChildren(value, offset).Ok? && offset <= |value|
    ensures var cuts, kids := Cuts(value, offset), DecodeChildren(value, offset).value;
      && cuts[0] == offset && cuts[|kids|] == |value|
      && forall i :: 0 <= i < |kids| ==> Spans(value, kids[i], cuts[i], cuts[i + 1])
    decreases |value| - offset
  {
    if offset < |value| {
      DecodeBounds(value, offset);
      var item := Decode(value, offset).value;
      ChildrenPartition(value, item.next);
      var cuts, kids := Cuts(value, item.next), DecodeChildren(value, item.next).value;
      var kid := Child(item.tag, item.value);
      assert Cuts(value, offset) == [offset] + cuts;
      assert DecodeChildren(value, offset).value == [kid] + kids;
      forall i | 0 <= i < |kids| + 1
        ensures Spans(value, ([kid] + kids)[i], ([offset] + cuts)[i], ([offset] + cuts)[i + 1])
      {
        if i == 0 {
          assert Spans(value, kid, offset, item.next);
        } else {
          assert Spans(value, kids[i - 1], cuts[i - 1], cuts[i]);
        }
      }
    }
  }

  // ---------- Trees ----------

  datatype Tree = Leaf(tag: byte, body: bytes) | Node(tag: byte, kids: seq<Tree>)

  function EncodeTree(t: Tree): bytes
    decreases t, 1
  {
    Tlv(t.tag, TreeBody(t))
  }

  function TreeBody(t: Tree): bytes
    decreases t, 0
  {
    match t
    case Leaf(_, body) => body
    case Node(_, kids) => EncodeForest(kids)
  }

  function EncodeForest(kids: seq<Tree>): bytes
    decreases kids, 0
  {
    if kids == [] then [] else EncodeTree(kids[0]) + EncodeForest(kids[1..])
  }

  // Unwrapping (tag, value) with decode_children, level by level, meets exactly the tree t.
  predicate ReadsAs(t: Tree, tag: byte, value: bytes) {
    t.tag == tag &&
    match t
    case Leaf(_, body) => value == body
    case Node(_, kids) => Children(value).Ok? && ForestReadsAs(kids, Children(value).value)
  }

  predicate ForestReadsAs(kids: seq<Tree>, children: seq<Child>) {
    if kids == [] then children == []
    else
      && children != []
      && ReadsAs(kids[0], children[0].tag, children[0].value)
      && ForestReadsAs(kids[1..], children[1..])
  }

  function ForestItems(kids: seq<Tree>): seq<Child> {
    if kids == [] then [] else [Child(kids[0].tag, TreeBody(kids[0]))] + ForestItems(kids[1..])
  }

  lemma {:induction false} ForestIsTlvs(kids: seq<Tree>)
    ensures EncodeForest(kids) == Tlvs(ForestItems(kids))
  {
    if kids != [] {
      ForestIsTlvs(kids[1..]);
      var items := ForestItems(kids);
      assert items[0] == Child(kids[0].tag, TreeBody(kids[0])) && items[1..] == ForestItems(kids[1..]);
    }
  }

  lemma {:induction false} TreeReads(t: Tree)
    requires Representable(|EncodeTree(t)|)
    ensures ReadsAs(t, t.tag, TreeBody(t))
    decreases t, 1
  {
    TlvGrows(t.tag, TreeBody(t));
    match t
    case Leaf(_, _) =>
    case Node(_, kids) =>
      ForestReads(kids);
      ForestIsTlvs(kids);
      ChildrenOfTlvs(ForestItems(kids));
  }

  lemma {:induction false} ForestReads(kids: seq<Tree>)
    requires Representable(|EncodeForest(kids)|)
    ensures ForestReadsAs(kids, ForestItems(kids))
    decreases kids, 0
  {
    if kids != [] {
      TreeReads(kids[0]);
      ForestReads(kids[1..]);
      assert ForestItems(kids)[1..] == ForestItems(kids[1..]);
    }
  }

  // Every TLV tree, at any offset inside any bytes, decodes back to itself and
  // reports exactly where it ends.
  lemma TreeRoundTrip(pre: bytes, t: Tree, post: bytes)
    requires Representable(|EncodeTree(t)|)
    ensures var r := Decode(pre + EncodeTree(t) + post, |pre|);
      && r.Ok?
      && r.value.next == |pre| + |EncodeTree(t)|
      && ReadsAs(t, r.value.tag, r.value.value)
  {
    TlvGrows(t.tag, TreeBody(t));
    DecodeTlv(pre, t.tag, TreeBody(t), post);
    TreeReads(t);
  }

  // ---------- Integers ----------

  lemma ParseIntRange(s: bytes)
    requires s != []
    ensures 0 <= ParseInt(s) + Pow2(8 * |s| - 1)
    ensures ParseInt(s) < Pow2(8 * |s| - 1)
  {
    FromBigHead(s);
    FromBigBound(s);
    HalfRange(s[0] as nat, |s|, FromBig(s));
  }

  lemma HalfRange(head: nat, n: nat, v: nat)
    requires n > 0 && head < 256
    requires head * Pow2(8 * (n - 1)) <= v < (head + 1) * Pow2(8 * (n - 1))
    ensures Pow2(8 * n) == 2 * Pow2(8 * n - 1)
    ensures head >= 0x80 ==> v >= Pow2(8 * n - 1)
    ensures head < 0x80 ==> v < Pow2(8 * n - 1)
  {
    var p := Pow2(8 * (n - 1));
    Pow2Octet(8 * (n - 1));
    assert 8 * (n - 1) + 8 == 8 * n;
    assert Pow2(8 * n) == 2 * Pow2(8 * n - 1);
    if head >= 0x80 {
      Scale(128, head, p);
    } else {
      Scale(head + 1, 128, p);
    }
  }

  lemma Scale(a: nat, b: nat, p: nat)
    requires a <= b
    ensures a * p <= b * p
  {
  }

  // Two's complement of a given width is one-to-one.
  lemma ParseIntInjective(s: bytes, t: bytes)
    requires s != [] && |s| == |t| && ParseInt(s) == ParseInt(t)
    ensures s == t
  {
    FromBigBound(s);
    FromBigBound(t);
    ToBigFromBig(s);
    ToBigFromBig(t);
  }

  lemma BodyOfPositive(v: int)
    requires v > 0
    ensures Magnitude(v) != []
    ensures Pow2(8 * |Magnitude(v)| - 8) <= v < Pow2(8 * |Magnitude(v)|)
    ensures Magnitude(v)[0] >= 0x80 <==> v >= Pow2(8 * |Magnitude(v)| - 1)
  {
    var body := Magnitude(v);
    BitLengthBound(v, 0);
    BitLengthBound(v, 8 * |body|);
    BitLengthBound(v, 8 * |body| - 8);
    MagnitudeRoundTrip(v);
    FromBigHead(body);
    HalfRange(body[0] as nat, |body|, v);
  }

  lemma PrependZero(s: bytes)
    ensures FromBig([0] + s) == FromBig(s)
  {
    if s == [] {
      assert ([0] + s)[..0] == [];
    } else {
      PrependZero(s[..|s| - 1]);
      assert ([0] + s)[..|s|] == [0] + s[..|s| - 1];
    }
  }

  lemma SignedWidth(m: nat)
    requires m > 0
    ensures var n := (BitLength(m) + 8) / 8;
      && n > 0
      && m < Pow2(8 * n - 1) && Pow2(8 * n) == 2 * Pow2(8 * n - 1)
      && (n > 1 ==> Pow2(8 * n - 9) <= m)
  {
    hide *;
    var l := BitLength(m);
    var n := (l + 8) / 8;
    assert n > 0 && 8 * n < l + 9 && l < 8 * n;
    BitLengthBound(m, 8 * n - 1);
    Pow2Step(8 * n);
    if n > 1 {
      BitLengthBound(m, 8 * n - 9);
    }
  }

  lemma Pow2Step(n: nat)
    requires n > 0
    ensures Pow2(n) == 2 * Pow2(n - 1)
  {
  }

  lemma BodyOfNegative(v: int)
    requires v < 0
    ensures var n := (BitLength(-v) + 8) / 8;
      && n > 0 && |IntBody(v)| == n
      && FromBig(IntBody(v)) == v + Pow2(8 * n)
      && -v < Pow2(8 * n - 1)
      && (n > 1 ==> Pow2(8 * n - 9) <= -v)
  {
    hide FromBig;
    hide ToBig;
    hide BitLength;
    hide Pow2;
    SignedWidth(-v);
    var n := (BitLength(-v) + 8) / 8;
    FromBigToBig(v + Pow2(8 * n), n);
  }

  lemma PositiveRoundTrip(v: int)
    requires v > 0
    ensures IntBody(v) != [] && ParseInt(IntBody(v)) == v
  {
    hide Magnitude;
    hide FromBig;
    hide Pow2;
    BodyOfPositive(v);
    MagnitudeRoundTrip(v);
    PrependZero(Magnitude(v));
  }

  lemma NegativeRoundTrip(v: int)
    requires v < 0
    ensures IntBody(v) != [] && ParseInt(IntBody(v)) == v
  {
    hide IntBody;
    hide FromBig;
    hide Pow2;
    hide BitLength;
    BodyOfNegative(v);
    var s := IntBody(v);
    FromBigHead(s);
    HalfRange(s[0] as nat, |s|, FromBig(s));
  }

  // parse_int undoes _int_body on every integer.
  lemma IntRoundTrip(v: int)
    ensures IntBody(v) != []
    ensures ParseInt(IntBody(v)) == v
  {
    if v == 0 {
      OneOctet(0);
    } else if v > 0 {
      PositiveRoundTrip(v);
    } else {
      NegativeRoundTrip(v);
    }
  }

  // v is -2^(8k-1) for some k: the most negative number of k octets.
  predicate MostNegative(v: int, k: nat) {
    k > 0 && v + Pow2(8 * k - 1) == 0
  }

  lemma WidthPow(m: nat, n: nat)
    requires 0 < m < n
    ensures Pow2(8 * m - 1) < Pow2(8 * n - 8)
  {
    Pow2Monotone(8 * m, 8 * n - 8);
    assert Pow2(8 * m) == 2 * Pow2(8 * m - 1);
  }

  // Any other encoding of v is at least as long, except that a most negative
  // number gets one octet more than it needs.
  lemma PositiveAgainst(v: int, s: bytes)
    requires v > 0 && s != [] && ParseInt(s) == v
    ensures |IntBody(v)| <= |s|
  {
    hide ParseInt;
    hide FromBig;
    hide BitLength;
    hide Magnitude;
    ParseIntRange(s);
    BodyOfPositive(v);
    var n := |Magnitude(v)|;
    if |s| < n {
      hide Pow2;
      WidthPow(|s|, n);
    } else if |s| == n {
      assert v < Pow2(8 * n - 1);
    }
  }

  lemma NegativeAgainst(v: int, s: bytes)
    requires v < 0 && s != [] && ParseInt(s) == v
    ensures |IntBody(v)| <= |s| || (MostNegative(v, |s|) && |IntBody(v)| == |s| + 1)
  {
    hide ParseInt;
    hide FromBig;
    hide BitLength;
    hide IntBody;
    hide Pow2;
    ParseIntRange(s);
    BodyOfNegative(v);
    var n := |IntBody(v)|;
    if |s| < n - 1 {
      WidthPow(|s|, n - 1);
      Pow2Monotone(8 * (n - 1) - 8, 8 * n - 9);
    }
  }

  // Any other encoding of v is at least as long, except that a most negative
  // number gets one octet more than it needs.
  lemma IntBodyAgainst(v: int, s: bytes)
    requires s != [] && ParseInt(s) == v
    ensures |IntBody(v)| <= |s| || (MostNegative(v, |s|) && |IntBody(v)| == |s| + 1)
  {
    if v > 0 {
      PositiveAgainst(v, s);
    } else if v < 0 {
      NegativeAgainst(v, s);
    }
  }

  lemma MostNegativeIsPadded(v: int, k: nat)
    requires MostNegative(v, k)
    ensures |IntBody(v)| == k + 1
    ensures exists s: bytes :: |s| == k && ParseInt(s) == v
  {
    BitLengthBound(-v, 8 * k - 1);
    assert Pow2(8 * k) == 2 * Pow2(8 * k - 1);
    BitLengthBound(-v, 8 * k);
    var s := ToBig(Pow2(8 * k - 1), k);
    FromBigToBig(Pow2(8 * k - 1), k);
    FromBigHead(s);
    HalfRange(s[0] as nat, k, FromBig(s));
    assert |s| == k && ParseInt(s) == v;
  }

  // X.690 section 8.3.2 asks for the shortest encoding. _int_body gives it for
  // every integer except -2^(8k-1).
  lemma IntBodyShortest(v: int)
    ensures (forall s: bytes :: s != [] && ParseInt(s) == v ==> |IntBody(v)| <= |s|)
       <==> !(exists k: nat :: MostNegative(v, k))
  {
    if k: nat :| MostNegative(v, k) {
      MostNegativeIsPadded(v, k);
      var s: bytes :| |s| == k && ParseInt(s) == v;
      assert s != [] && |IntBody(v)| > |s|;
    } else {
      forall s: bytes | s != [] && ParseInt(s) == v
        ensures |IntBody(v)| <= |s|
      {
        IntBodyAgainst(v, s);
      }
    }
  }

  lemma OneOctet(b: byte)
    ensures FromBig([b]) == b as nat
    ensures b >= 0x80 ==> ParseInt([b]) == b as int - 256
  {
    assert [b][..0] == [];
    Pow2Of8();
  }

  lemma TwoOctets(s: bytes)
    requires |s| == 2
    ensures FromBig(s) == s[0] as nat * 256 + s[1] as nat
  {
    assert s[..1] == [s[0]];
    OneOctet(s[0]);
  }

  // -128 becomes FF 80, although 80 alone reads back as -128.
  lemma Minus128IsNotShortest()
    ensures IntBody(-128) == [0xFF, 0x80]
    ensures ParseInt([0x80]) == -128
  {
    Pow2Of8();
    Pow2Octet(8);
    assert Pow2(7) == 128 by {
      assert Pow2(8) == 2 * Pow2(7);
    }
    MostNegativeIsPadded(-128, 1);
    BodyOfNegative(-128);
    var s := IntBody(-128);
    TwoOctets(s);
    assert s[0] as nat * 256 + s[1] as nat == 65536 - 128;
    assert s == [0xFF, 0x80];
    OneOctet(0x80);
    assert ParseInt([0x80]) == (0x80 as byte) as int - 256;
  }

  // ---------- Object identifiers ----------

  lemma {:induction false} SeptetsAccumulate(v: nat, tail: bytes)
    ensures Groups(Septets(v) + tail, 0) == Groups(tail, v)
  {
    if v == 0 {
      assert Septets(v) + tail == tail;
    } else {
      var d := (0x80 + v % 128) as byte;
      SeptetsAccumulate(v / 128, [d] + tail);
      assert Septets(v) + tail == Septets(v / 128) + ([d] + tail);
      assert ([d] + tail)[1..] == tail;
      assert (d % 128) as nat == v % 128;
    }
  }

  // A base-128 group ends itself: whatever follows starts a fresh group.
  lemma Base128Delimits(v: nat, tail: bytes)
    ensures Groups(Base128(v) + tail, 0) == [v] + Groups(tail, 0)
  {
    var d := (v % 128) as byte;
    SeptetsAccumulate(v / 128, [d] + tail);
    assert Base128(v) + tail == Septets(v / 128) + ([d] + tail);
    assert ([d] + tail)[1..] == tail;
    assert (d % 128) as nat == v % 128;
  }

  lemma {:induction false} GroupsOfBase128All(numbers: seq<nat>)
    ensures Groups(Base128All(numbers), 0) == numbers
  {
    if numbers != [] {
      Base128Delimits(numbers[0], Base128All(numbers[1..]));
      GroupsOfBase128All(numbers[1..]);
    }
  }

  // Numbers below 128 take one octet each.
  lemma {:induction false} Base128AllSize(numbers: seq<nat>)
    requires forall i :: 0 <= i < |numbers| ==> numbers[i] < 128
    ensures |Base128All(numbers)| == |numbers|
  {
    if numbers != [] {
      assert Septets(numbers[0] / 128) == [];
      Base128AllSize(numbers[1..]);
    }
  }

  // Arc lists X.660 allows: first arc 2, or 0/1 with a second arc below 40.
  predicate Encodable(arcs: Arcs) {
    |arcs| >= 2 && (arcs[0] == 2 || (arcs[0] < 2 && arcs[1] < 40))
  }

  // parse_oid undoes enc_oid on exactly the encodable arc lists.
  lemma OidRoundTrip(arcs: Arcs)
    requires |arcs| >= 2
    ensures ParseArcs(OidBody(arcs)) == arcs <==> Encodable(arcs)
  {
    GroupsOfBase128All([40 * arcs[0] + arcs[1]] + arcs[2..]);
    hide Groups;
    hide Base128All;
    SplitFirstRoundTrip(arcs[0], arcs[1], arcs[2..]);
    assert arcs == [arcs[0], arcs[1]] + arcs[2..];
  }

  lemma SplitFirstRoundTrip(a: nat, b: nat, rest: Arcs)
    ensures SplitFirst([40 * a + b] + rest) == [a, b] + rest <==> (a == 2 || (a < 2 && b < 40))
  {
    var groups := [40 * a + b] + rest;
    assert groups[0] == 40 * a + b && groups[1..] == rest;
    var s := SplitFirst(groups);
    assert s[0] == (if (40 * a + b) / 40 < 2 then (40 * a + b) / 40 else 2);
    if s == [a, b] + rest {
      assert s[0] == a;
    }
  }

  lemma OidTextRoundTrip(arcs: Arcs)
    requires Encodable(arcs)
    ensures EncOid(Render(arcs)) == Ok(EncArcs(arcs))
    ensures ParseOid(OidBody(arcs)) == Render(arcs)
  {
    ParseRender(arcs);
    OidRoundTrip(arcs);
  }
}
