// Signing by splicing: where the 12 octets are, what replacing them changes, and when verification accepts.
module Signature {
  import opened Results
  import opened Bytes
  import opened Asn1
  import opened Asn1Theorems
  import opened Message

  function Splice(buf: bytes, p: nat, d: bytes): (r: bytes)
    requires p + |d| <= |buf|
    ensures |r| == |buf|
  {
    buf[..p] + d + buf[p + |d|..]
  }

  lemma SpliceAt(buf: bytes, p: nat, d: bytes, i: nat)
    requires p + |d| <= |buf| && i < |buf|
    ensures Splice(buf, p, d)[i] == if p <= i < p + |d| then d[i - p] else buf[i]
  {
  }

  lemma SpliceInside(buf: bytes, p: nat, d: bytes, lo: nat, hi: nat)
    requires lo <= p && p + |d| <= hi <= |buf|
    ensures Splice(buf, p, d)[lo..hi] == Splice(buf[lo..hi], p - lo, d)
  {
    forall i | 0 <= i < hi - lo
      ensures Splice(buf, p, d)[lo..hi][i] == Splice(buf[lo..hi], p - lo, d)[i]
    {
      SpliceAt(buf, p, d, lo + i);
      SpliceAt(buf[lo..hi], p - lo, d, i);
    }
  }

  lemma SpliceOutside(buf: bytes, p: nat, d: bytes, lo: nat, hi: nat)
    requires p + |d| <= |buf| && lo <= hi <= |buf| && (hi <= p || p + |d| <= lo)
    ensures Splice(buf, p, d)[lo..hi] == buf[lo..hi]
  {
    forall i | 0 <= i < hi - lo
      ensures Splice(buf, p, d)[lo..hi][i] == buf[lo..hi][i]
    {
      SpliceAt(buf, p, d, lo + i);
    }
  }

  // ---------- What a patch does to one decode ----------

  // The octets [p, p+n) lie in the value of the item.
  predicate InValue(item: Item, p: nat, n: nat) {
    item.Start() + |item.value| == item.next && item.Start() <= p && p + n <= item.next
  }

  function Patched(item: Item, p: nat, d: bytes): Item
    requires InValue(item, p, |d|)
  {
    item.(value := Splice(item.value, p - item.Start(), d))
  }

  // The result of Decode is fixed by the header octets.
  lemma DecodeByHeader(buf: bytes, other: bytes, offset: nat)
    requires Decode(buf, offset).Ok? && |other| == |buf|
    requires var item := Decode(buf, offset).value;
      other[offset..item.next - |item.value|] == buf[offset..item.next - |item.value|]
    ensures var item := Decode(buf, offset).value;
      Decode(other, offset) == Ok(Item(item.tag, other[item.next - |item.value|..item.next], item.next))
  {
    hide *;
    HeaderForm(buf, offset);
    DecodeLies(buf, offset);
    var item := Decode(buf, offset).value;
    var start := item.next - |item.value|;
    SamePoint(buf, other, offset, start, offset);
    SamePoint(buf, other, offset, start, offset + 1);
    if 0x80 <= buf[offset + 1] {
      SameSlice(buf, other, offset, start, offset + 2, start);
    }
    HeaderDecides(other, item.tag, offset, start, |item.value|);
  }

  lemma SameSlice(a: bytes, b: bytes, lo: nat, hi: nat, x: nat, y: nat)
    requires lo <= x <= y <= hi <= |a| && hi <= |b| && a[lo..hi] == b[lo..hi]
    ensures Slice(a, x, y) == Slice(b, x, y)
  {
    SliceOfSlice(a, lo, hi, x - lo, y - lo);
    SliceOfSlice(b, lo, hi, x - lo, y - lo);
  }

  // Any buffer with such a header, and room for the value, decodes there.
  lemma HeaderDecides(buf: bytes, tag: byte, offset: nat, start: nat, n: nat)
    requires offset + 2 <= start && start + n <= |buf| && buf[offset] == tag
    requires var length := buf[offset + 1] as nat;
      if length < 0x80 then start == offset + 2 && n == length
      else length > 0x80 && start == offset + 2 + (length - 0x80) && n == FromBig(Slice(buf, offset + 2, start))
    ensures Decode(buf, offset) == Ok(Item(tag, buf[start..start + n], start + n))
  {
    hide FromBig;
    hide Value;
    ValueOf(buf, tag, start, n);
  }

  lemma ValueOf(buf: bytes, tag: byte, start: nat, length: nat)
    requires start + length <= |buf|
    ensures Value(buf, tag, start, length) == Ok(Item(tag, buf[start..start + length], start + length))
  {
  }

  lemma SamePoint(a: bytes, b: bytes, lo: nat, hi: nat, i: nat)
    requires lo <= i < hi <= |a| && hi <= |b| && a[lo..hi] == b[lo..hi]
    ensures a[i] == b[i]
  {
    assert a[lo..hi][i - lo] == b[lo..hi][i - lo];
  }

  // How the header determines tag, start and length of the value.
  lemma HeaderForm(buf: bytes, offset: nat)
    requires Decode(buf, offset).Ok?
    ensures var item := Decode(buf, offset).value;
      var start, length := item.next - |item.value|, buf[offset + 1] as nat;
      && item.tag == buf[offset]
      && offset + 2 <= start
      && if length < 0x80 then start == offset + 2 && |item.value| == length
         else length > 0x80 && start == offset + 2 + (length - 0x80)
              && |item.value| == FromBig(Slice(buf, offset + 2, start))
  {
    hide FromBig;
  }

  lemma DecodePatchedValue(buf: bytes, offset: nat, p: nat, d: bytes)
    requires Decode(buf, offset).Ok? && InValue(Decode(buf, offset).value, p, |d|)
    requires p + |d| <= |buf|
    ensures Decode(Splice(buf, p, d), offset) == Ok(Patched(Decode(buf, offset).value, p, d))
  {
    hide Decode;
    hide Splice;
    hide Lies;
    DecodeLies(buf, offset);
    LiesForm(buf, Decode(buf, offset).value);
    var item := Decode(buf, offset).value;
    var start := item.next - |item.value|;
    SpliceOutside(buf, p, d, offset, start);
    SpliceInside(buf, p, d, start, item.next);
    DecodeByHeader(buf, Splice(buf, p, d), offset);
  }

  lemma DecodePatchedAfter(buf: bytes, offset: nat, p: nat, d: bytes)
    requires Decode(buf, offset).Ok? && Decode(buf, offset).value.next <= p && p + |d| <= |buf|
    ensures Decode(Splice(buf, p, d), offset) == Decode(buf, offset)
  {
    hide *;
    DecodeLies(buf, offset);
    LiesForm(buf, Decode(buf, offset).value);
    var item := Decode(buf, offset).value;
    var start := item.next - |item.value|;
    SpliceOutside(buf, p, d, offset, start);
    SpliceOutside(buf, p, d, start, item.next);
    DecodeByHeader(buf, Splice(buf, p, d), offset);
  }

  lemma DecodePatchedBefore(buf: bytes, offset: nat, p: nat, d: bytes)
    requires Decode(buf, offset).Ok? && p + |d| <= offset
    requires p + |d| <= |buf|
    ensures Decode(Splice(buf, p, d), offset) == Decode(buf, offset)
  {
    hide *;
    DecodeLies(buf, offset);
    LiesForm(buf, Decode(buf, offset).value);
    var item := Decode(buf, offset).value;
    var start := item.next - |item.value|;
    SpliceOutside(buf, p, d, offset, start);
    SpliceOutside(buf, p, d, start, item.next);
    DecodeByHeader(buf, Splice(buf, p, d), offset);
  }

  // ---------- What a patch does to a run of TLVs ----------

  lemma {:induction false} NthItemBounds(buf: bytes, offset: nat, n: nat)
    requires NthItem(buf, offset, n).Ok?
    ensures var item := NthItem(buf, offset, n).value;
      && offset + 2 + |item.value| <= item.next <= |buf|
      && item.value == buf[item.next - |item.value|..item.next]
      && Decode(buf, offset).Ok?
      && (n > 0 ==> Decode(buf, offset).value.next + 2 + |item.value| <= item.next)
    decreases n
  {
    hide Decode;
    DecodeBounds(buf, offset);
    if n > 0 {
      NthItemBounds(buf, Decode(buf, offset).value.next, n - 1);
    }
  }

  lemma {:induction false} NthItemPatched(buf: bytes, offset: nat, n: nat, p: nat, d: bytes)
    requires NthItem(buf, offset, n).Ok? && InValue(NthItem(buf, offset, n).value, p, |d|)
    requires p + |d| <= |buf|
    ensures NthItem(Splice(buf, p, d), offset, n) == Ok(Patched(NthItem(buf, offset, n).value, p, d))
    decreases n
  {
    hide Decode;
    hide Splice;
    NthItemBounds(buf, offset, n);
    if n == 0 {
      DecodePatchedValue(buf, offset, p, d);
    } else {
      DecodePatchedAfter(buf, offset, p, d);
      NthItemPatched(buf, Decode(buf, offset).value.next, n - 1, p, d);
    }
  }

  lemma {:induction false} ChildrenPatchedBefore(buf: bytes, offset: nat, p: nat, d: bytes)
    requires DecodeChildren(buf, offset).Ok? && p + |d| <= offset && p + |d| <= |buf|
    ensures DecodeChildren(Splice(buf, p, d), offset) == DecodeChildren(buf, offset)
    decreases |buf| - offset
  {
    if offset < |buf| {
      DecodePatchedBefore(buf, offset, p, d);
      DecodeBounds(buf, offset);
      hide Decode;
      hide Splice;
      ChildrenPatchedBefore(buf, Decode(buf, offset).value.next, p, d);
    }
  }

  // Child n is the n-th TLV.
  lemma {:induction false} ChildIsNthItem(buf: bytes, offset: nat, n: nat)
    requires DecodeChildren(buf, offset).Ok? && n < |DecodeChildren(buf, offset).value|
    ensures NthItem(buf, offset, n).Ok?
    ensures var item, kid := NthItem(buf, offset, n).value, DecodeChildren(buf, offset).value[n];
      kid == Child(item.tag, item.value)
    decreases n
  {
    hide Decode;
    if n > 0 {
      DecodeBounds(buf, offset);
      ChildIsNthItem(buf, Decode(buf, offset).value.next, n - 1);
    }
  }

  lemma {:induction false} ChildrenPatched(buf: bytes, offset: nat, n: nat, p: nat, d: bytes)
    requires DecodeChildren(buf, offset).Ok? && n < |DecodeChildren(buf, offset).value|
    requires NthItem(buf, offset, n).Ok? && InValue(NthItem(buf, offset, n).value, p, |d|)
    requires p + |d| <= |buf|
    ensures var kids, item := DecodeChildren(buf, offset).value, NthItem(buf, offset, n).value;
      DecodeChildren(Splice(buf, p, d), offset) == Ok(kids[n := Child(item.tag, Patched(item, p, d).value)])
    decreases n
  {
    hide Decode;
    hide Splice;
    NthItemBounds(buf, offset, n);
    DecodeBounds(buf, offset);
    var head := Decode(buf, offset).value;
    var tail := DecodeChildren(buf, head.next).value;
    var kids := DecodeChildren(buf, offset).value;
    assert kids == [Child(head.tag, head.value)] + tail;
    var item := NthItem(buf, offset, n).value;
    var kid := Child(item.tag, Patched(item, p, d).value);
    if n == 0 {
      DecodePatchedValue(buf, offset, p, d);
      ChildrenPatchedBefore(buf, head.next, p, d);
      assert kids[0 := kid] == [kid] + tail;
    } else {
      DecodePatchedAfter(buf, offset, p, d);
      ChildrenPatched(buf, head.next, n - 1, p, d);
      assert kids[n := kid] == [Child(head.tag, head.value)] + tail[n - 1 := kid];
    }
  }

  // A TLV inside a window is the same TLV in the whole buffer.
  lemma {:induction false} NthItemWindow(buf: bytes, lo: nat, hi: nat, offset: nat, n: nat)
    requires lo <= hi <= |buf| && NthItem(buf[lo..hi], offset, n).Ok?
    ensures var item := NthItem(buf[lo..hi], offset, n).value;
      NthItem(buf, lo + offset, n) == Ok(Item(item.tag, item.value, lo + item.next))
    decreases n
  {
    hide Decode;
    DecodeWindow(buf, lo, hi, offset);
    if n > 0 {
      NthItemWindow(buf, lo, hi, Decode(buf[lo..hi], offset).value.next, n - 1);
    }
  }

  // ---------- The authentication field of a message ----------

  // The item's value is the stretch of buf it claims to be.
  predicate Lies(buf: bytes, item: Item) {
    && item.Start() + |item.value| == item.next <= |buf|
    && buf[item.Start()..item.next] == item.value
  }

  lemma DecodeLies(buf: bytes, offset: nat)
    requires Decode(buf, offset).Ok?
    ensures Lies(buf, Decode(buf, offset).value)
  {
    DecodeBounds(buf, offset);
    hide Decode;
  }

  lemma NthItemLies(buf: bytes, offset: nat, n: nat)
    requires NthItem(buf, offset, n).Ok?
    ensures Lies(buf, NthItem(buf, offset, n).value)
    ensures offset < NthItem(buf, offset, n).value.Start()
  {
    NthItemBounds(buf, offset, n);
    hide NthItem;
  }

  // The chain of TLVs that auth_params_offset walks.
  predicate IsPath(data: bytes, outer: Item, sec: Item, inner: Item, auth: Item) {
    && Decode(data, 0) == Ok(outer)
    && NthItem(data, outer.Start(), 2) == Ok(sec)
    && Decode(sec.value, 0) == Ok(inner)
    && NthItem(inner.value, 0, 4) == Ok(auth)
  }

  lemma PathLies(data: bytes, outer: Item, sec: Item, inner: Item, auth: Item)
    requires IsPath(data, outer, sec, inner, auth)
    ensures AuthParamsOffset(data) == Ok(sec.Start() + inner.Start() + auth.Start())
    ensures Lies(data, outer) && Lies(data, sec) && outer.Start() < sec.Start()
    ensures Lies(sec.value, inner) && Lies(inner.value, auth)
  {
    hide Decode;
    hide NthItem;
    hide Lies;
    DecodeLies(data, 0);
    NthItemLies(data, outer.Start(), 2);
    DecodeLies(sec.value, 0);
    NthItemLies(inner.value, 0, 4);
  }

  // Nested stretches are stretches of the whole.
  lemma NestedField(data: bytes, sec: Item, inner: Item, auth: Item)
    requires Lies(data, sec) && Lies(sec.value, inner) && Lies(inner.value, auth)
    ensures var offset, n := sec.Start() + inner.Start() + auth.Start(), |auth.value|;
      && offset + n <= |data|
      && data[offset..offset + n] == auth.value
      && InValue(sec, offset, n)
      && InValue(inner, offset - sec.Start(), n)
      && InValue(auth, offset - sec.Start() - inner.Start(), n)
  {
    SliceOfSlice(sec.value, inner.Start(), inner.next, auth.Start(), auth.next);
    SliceOfSlice(data, sec.Start(), sec.next, inner.Start() + auth.Start(), inner.Start() + auth.next);
  }

  // The security parameters as the children of the message body see them.
  lemma BodyPath(data: bytes)
    requires TopLevel(data).Ok? && |TopLevel(data).value| > 2
    ensures Decode(data, 0).Ok?
    ensures var outer := Decode(data, 0).value;
      && NthItem(outer.value, 0, 2).Ok?
      && var within := NthItem(outer.value, 0, 2).value;
      && TopLevel(data).value[2] == Child(within.tag, within.value)
      && NthItem(data, outer.Start(), 2) == Ok(Item(within.tag, within.value, outer.Start() + within.next))
  {
    hide *;
    TopLevelForm(data);
    DecodeLies(data, 0);
    var outer := Decode(data, 0).value;
    ChildIsNthItem(outer.value, 0, 2);
    LiesForm(data, outer);
    NthItemWindow(data, outer.Start(), outer.next, 0, 2);
  }

  lemma TopLevelForm(data: bytes)
    requires TopLevel(data).Ok?
    ensures Decode(data, 0).Ok? && TopLevel(data) == DecodeChildren(Decode(data, 0).value.value, 0)
  {
    hide Decode;
    hide DecodeChildren;
  }

  lemma LiesForm(buf: bytes, item: Item)
    requires Lies(buf, item)
    ensures item.Start() <= item.next <= |buf| && buf[item.Start()..item.next] == item.value
  {
  }

  lemma FieldPath(ch: seq<Child>)
    requires OpenEnvelope(ch).Ok?
    ensures |ch| > 2 && Decode(ch[2].value, 0).Ok?
    ensures var inner := Decode(ch[2].value, 0).value;
      && NthItem(inner.value, 0, 4).Ok?
      && NthItem(inner.value, 0, 4).value.value == OpenEnvelope(ch).value.authParams
  {
    hide Decode;
    hide NthItem;
    hide DecodeChildren;
    hide ParseInt;
    var inner := Decode(ch[2].value, 0).value;
    ChildIsNthItem(inner.value, 0, 4);
  }

  // decode_message and auth_params_offset reach the same field by different routes.
  lemma EnvelopePath(data: bytes) returns (outer: Item, sec: Item, inner: Item, auth: Item)
    requires TopLevel(data).Ok? && OpenEnvelope(TopLevel(data).value).Ok?
    ensures IsPath(data, outer, sec, inner, auth)
    ensures auth.value == OpenEnvelope(TopLevel(data).value).value.authParams
    ensures |TopLevel(data).value| > 2 && TopLevel(data).value[2] == Child(sec.tag, sec.value)
    ensures outer.Start() <= sec.next
      && NthItem(outer.value, 0, 2) == Ok(Item(sec.tag, sec.value, sec.next - outer.Start()))
  {
    hide Decode;
    hide NthItem;
    hide TopLevel;
    hide OpenEnvelope;
    FieldPath(TopLevel(data).value);
    BodyPath(data);
    outer := Decode(data, 0).value;
    sec := NthItem(data, outer.Start(), 2).value;
    inner := Decode(sec.value, 0).value;
    auth := NthItem(inner.value, 0, 4).value;
  }

  // auth_params_offset succeeds on every message whose envelope opens, and points at the field.
  lemma OffsetPointsAtField(data: bytes)
    requires TopLevel(data).Ok? && OpenEnvelope(TopLevel(data).value).Ok?
    ensures var field := OpenEnvelope(TopLevel(data).value).value.authParams;
      && AuthParamsOffset(data).Ok?
      && AuthParamsOffset(data).value + |field| <= |data|
      && data[AuthParamsOffset(data).value..AuthParamsOffset(data).value + |field|] == field
  {
    hide *;
    var outer, sec, inner, auth := EnvelopePath(data);
    PathLies(data, outer, sec, inner, auth);
    NestedField(data, sec, inner, auth);
  }

  lemma SpliceAll(buf: bytes, d: bytes)
    requires |d| == |buf|
    ensures Splice(buf, 0, d) == d
  {
  }

  lemma PatchedStays(item: Item, p: nat, d: bytes)
    requires InValue(item, p, |d|)
    ensures var other := Patched(item, p, d);
      other.tag == item.tag && other.next == item.next && |other.value| == |item.value| && other.Start() == item.Start()
  {
  }

  // Where the field sits in each TLV of the path.
  predicate Covers(data: bytes, outer: Item, sec: Item, inner: Item, auth: Item, p: nat, n: nat) {
    && p == sec.Start() + inner.Start() + auth.Start() && n == |auth.value| && p + n <= |data|
    && InValue(outer, p, n) && InValue(sec, p, n)
    && InValue(inner, p - sec.Start(), n)
    && inner.Start() <= p - sec.Start()
    && InValue(auth, p - sec.Start() - inner.Start(), n)
  }

  // Replacing the field moves nothing on the path.
  lemma PatchedPath(data: bytes, outer: Item, sec: Item, inner: Item, auth: Item, p: nat, d: bytes)
    requires IsPath(data, outer, sec, inner, auth)
    requires Covers(data, outer, sec, inner, auth, p, |d|)
    ensures IsPath(Splice(data, p, d), Patched(outer, p, d), Patched(sec, p, d),
                   Patched(inner, p - sec.Start(), d), auth.(value := d))
  {
    hide Decode;
    hide NthItem;
    DecodePatchedValue(data, 0, p, d);
    NthItemPatched(data, outer.Start(), 2, p, d);
    DecodePatchedValue(sec.value, 0, p - sec.Start(), d);
    NthItemPatched(inner.value, 0, 4, p - sec.Start() - inner.Start(), d);
    SpliceAll(auth.value, d);
    PatchedStays(outer, p, d);
  }

  lemma OuterCovers(data: bytes, outer: Item, sec: Item, inner: Item, auth: Item)
    requires Lies(data, outer) && Lies(data, sec) && Lies(sec.value, inner) && Lies(inner.value, auth)
    requires outer.Start() <= sec.next && Lies(outer.value, Item(sec.tag, sec.value, sec.next - outer.Start()))
    requires outer.Start() < sec.Start()
    ensures Covers(data, outer, sec, inner, auth, sec.Start() + inner.Start() + auth.Start(), |auth.value|)
  {
    NestedField(data, sec, inner, auth);
  }

  lemma FieldsPatched(ch: seq<Child>, ch': seq<Child>, inner: Item, auth: Item, p: nat, d: bytes)
    requires |ch| == |ch'| > 2 && OpenEnvelope(ch).Ok?
    requires ch'[0] == ch[0] && ch'[1] == ch[1]
    requires Decode(ch[2].value, 0) == Ok(inner) && NthItem(inner.value, 0, 4) == Ok(auth)
    requires p + |d| <= |ch[2].value| && InValue(inner, p, |d|) && |d| == |auth.value|
    requires p == inner.Start() + auth.Start() && InValue(auth, auth.Start(), |d|)
    requires ch'[2].value == Splice(ch[2].value, p, d)
    ensures OpenEnvelope(ch') == Ok(OpenEnvelope(ch).value.(authParams := d))
  {
    hide Decode;
    hide NthItem;
    hide Splice;
    hide DecodeChildren;
    hide ParseInt;
    DecodePatchedValue(ch[2].value, 0, p, d);
    NthItemLies(inner.value, 0, 4);
    ChildrenPatched(inner.value, 0, 4, p - inner.Start(), d);
    SpliceAll(auth.value, d);
    assert UsmFields(ch') == Ok(UsmFields(ch).value[4 := Child(auth.tag, d)]);
  }

  // The splice: replacing the 12 octets at auth_params_offset by 12 others leaves the offset,
  // the children of the message and every other field of the envelope as they were.
  lemma SpliceKeepsParse(data: bytes, d: bytes)
    requires TopLevel(data).Ok? && OpenEnvelope(TopLevel(data).value).Ok?
    requires |d| == |OpenEnvelope(TopLevel(data).value).value.authParams|
    ensures AuthParamsOffset(data).Ok? && AuthParamsOffset(data).value + |d| <= |data|
    ensures var other := Splice(data, AuthParamsOffset(data).value, d);
      var ch, env := TopLevel(data).value, OpenEnvelope(TopLevel(data).value).value;
      && AuthParamsOffset(other) == AuthParamsOffset(data)
      && |ch| > 2 && |other| == |data|
      && (exists sec :: |sec| == |ch[2].value| && TopLevel(other) == Ok(ch[2 := Child(ch[2].tag, sec)]))
      && OpenEnvelope(TopLevel(other).value) == Ok(env.(authParams := d))
  {
    hide *;
    var outer, sec, inner, auth := EnvelopePath(data);
    PathLies(data, outer, sec, inner, auth);
    NthItemLies(outer.value, 0, 2);
    OuterCovers(data, outer, sec, inner, auth);
    var p := sec.Start() + inner.Start() + auth.Start();
    CoversFits(data, outer, sec, inner, auth, p, |d|);
    PatchedPath(data, outer, sec, inner, auth, p, d);
    PatchedOffset(data, outer, sec, inner, auth, p, d);
    PathParts(data, outer, sec, inner, auth);
    PathParts(Splice(data, p, d), Patched(outer, p, d), Patched(sec, p, d), Patched(inner, p - sec.Start(), d),
              auth.(value := d));
    var v := PatchedTopLevel(data, outer, sec, inner, auth, p, d);
    var ch := TopLevel(data).value;
    CoversParts(data, outer, sec, inner, auth, p, |d|);
    FieldsPatched(ch, ch[2 := Child(ch[2].tag, v)], inner, auth, p - sec.Start(), d);
  }

  lemma CoversFits(data: bytes, outer: Item, sec: Item, inner: Item, auth: Item, p: nat, n: nat)
    requires Covers(data, outer, sec, inner, auth, p, n)
    ensures p + n <= |data| && InValue(outer, p, n) && InValue(sec, p, n)
    ensures sec.Start() <= p && InValue(inner, p - sec.Start(), n)
  {
  }

  lemma CoversParts(data: bytes, outer: Item, sec: Item, inner: Item, auth: Item, p: nat, n: nat)
    requires Covers(data, outer, sec, inner, auth, p, n)
    ensures sec.Start() <= p && p - sec.Start() + n <= |sec.value|
    ensures InValue(inner, p - sec.Start(), n) && InValue(auth, auth.Start(), n)
    ensures p - sec.Start() == inner.Start() + auth.Start()
  {
  }

  lemma PathParts(data: bytes, outer: Item, sec: Item, inner: Item, auth: Item)
    requires IsPath(data, outer, sec, inner, auth)
    ensures Decode(data, 0) == Ok(outer)
    ensures Decode(sec.value, 0) == Ok(inner) && NthItem(inner.value, 0, 4) == Ok(auth)
  {
    hide Decode;
    hide NthItem;
  }

  lemma PatchedOffset(data: bytes, outer: Item, sec: Item, inner: Item, auth: Item, p: nat, d: bytes)
    requires Covers(data, outer, sec, inner, auth, p, |d|)
    requires IsPath(data, outer, sec, inner, auth)
    requires IsPath(Splice(data, p, d), Patched(outer, p, d), Patched(sec, p, d),
                    Patched(inner, p - sec.Start(), d), auth.(value := d))
    ensures AuthParamsOffset(Splice(data, p, d)) == AuthParamsOffset(data)
  {
    hide Decode;
    hide NthItem;
    PathLies(data, outer, sec, inner, auth);
    PathLies(Splice(data, p, d), Patched(outer, p, d), Patched(sec, p, d), Patched(inner, p - sec.Start(), d),
             auth.(value := d));
    PatchedStays(sec, p, d);
    PatchedStays(inner, p - sec.Start(), d);
  }

  lemma PatchedTopLevel(data: bytes, outer: Item, sec: Item, inner: Item, auth: Item, p: nat, d: bytes)
    returns (v: bytes)
    requires TopLevel(data).Ok? && Decode(data, 0) == Ok(outer)
    requires |TopLevel(data).value| > 2 && TopLevel(data).value[2] == Child(sec.tag, sec.value)
    requires outer.Start() <= sec.next
      && NthItem(outer.value, 0, 2) == Ok(Item(sec.tag, sec.value, sec.next - outer.Start()))
    requires Lies(outer.value, Item(sec.tag, sec.value, sec.next - outer.Start())) && Lies(data, sec)
    requires Covers(data, outer, sec, inner, auth, p, |d|)
    requires Decode(Splice(data, p, d), 0) == Ok(Patched(outer, p, d))
    ensures v == Splice(sec.value, p - sec.Start(), d) && |v| == |sec.value|
    ensures TopLevel(Splice(data, p, d)) == Ok(TopLevel(data).value[2 := Child(sec.tag, v)])
  {
    hide Decode;
    hide NthItem;
    hide DecodeChildren;
    var within := Item(sec.tag, sec.value, sec.next - outer.Start());
    ChildrenPatched(outer.value, 0, 2, p - outer.Start(), d);
    PatchedStays(outer, p, d);
    v := Patched(within, p - outer.Start(), d).value;
  }

  // ---------- Verification ----------

  lemma PatchIsSplice(data: bytes, offset: nat, d: bytes)
    requires |d| == AUTH_PARAM_LEN && offset + AUTH_PARAM_LEN <= |data|
    ensures Patch(data, offset, d) == Splice(data, offset, d)
  {
  }

  // Zero the field, then write the digest of the result into it.
  function Resign(mac: Mac, key: bytes, data: bytes, offset: nat): bytes {
    var zeroed := Patch(data, offset, Zeros(AUTH_PARAM_LEN));
    Patch(zeroed, offset, Digest(mac, key, zeroed))
  }

  lemma SpliceTwice(data: bytes, p: nat, d: bytes, e: bytes)
    requires |d| == |e| && p + |d| <= |data|
    ensures Splice(Splice(data, p, d), p, e) == Splice(data, p, e)
  {
  }

  lemma SpliceIdentity(data: bytes, p: nat, d: bytes)
    requires p + |d| <= |data|
    ensures Splice(data, p, d) == data <==> data[p..p + |d|] == d
  {
    if Splice(data, p, d) == data {
      SpliceInside(data, p, d, p, p + |d|);
      SpliceAll(data[p..p + |d|], d);
    } else {
      var i :| 0 <= i < |data| && Splice(data, p, d)[i] != data[i];
      SpliceAt(data, p, d, i);
      assert data[p..p + |d|][i - p] != d[i - p];
    }
  }

  // For every message whose envelope opens, received or built: verification accepts exactly
  // when the field is 12 octets long and re-signing reproduces the message byte for byte.
  lemma AcceptsIffResigned(mac: Mac, data: bytes, key: bytes)
    requires TopLevel(data).Ok? && OpenEnvelope(TopLevel(data).value).Ok?
    ensures AuthParamsOffset(data).Ok?
    ensures var env := OpenEnvelope(TopLevel(data).value).value;
      VerifyAuth(mac, data, env, Some(key)).Ok? <==>
      (|env.authParams| == AUTH_PARAM_LEN && Resign(mac, key, data, AuthParamsOffset(data).value) == data)
  {
    OffsetPointsAtField(data);
    var env := OpenEnvelope(TopLevel(data).value).value;
    hide TopLevel;
    hide OpenEnvelope;
    hide AuthParamsOffset;
    hide Splice;
    hide Patch;
    var offset := AuthParamsOffset(data).value;
    if |env.authParams| == AUTH_PARAM_LEN {
      var zeros := Zeros(AUTH_PARAM_LEN);
      PatchIsSplice(data, offset, zeros);
      var zeroed := Splice(data, offset, zeros);
      var digest := Digest(mac, key, zeroed);
      PatchIsSplice(zeroed, offset, digest);
      SpliceTwice(data, offset, zeros, digest);
      SpliceIdentity(data, offset, digest);
    }
  }
}
