// Bytes as machine bit vectors: exclusive or and doubling become single operations, so that what the cipher
// computes of given bytes can be worked out.
module BitVectors {
  import opened Bytes
  import opened Aes

  function Bits(a: byte): bv8 {
    a as bv8
  }

  function Octet(x: bv8): byte {
    (x as nat) as byte
  }

  lemma BitsOfOctet(x: bv8)
    ensures Bits(Octet(x)) == x
  {
  }

  lemma OctetOfBits(a: byte)
    ensures Octet(Bits(a)) == a
  {
    var x := CountTo(a as nat);
    NatAndBack(x);
  }

  lemma NatAndBack(x: bv8)
    ensures (x as nat) as bv8 == x
  {
  }

  // Every number below 256 is that of a bit vector.
  lemma {:induction false} CountTo(n: nat) returns (x: bv8)
    requires n < 256
    ensures x as nat == n
  {
    if n == 0 {
      x := 0;
    } else {
      x := CountTo(n - 1);
      PlusOne(x);
      x := x + 1;
    }
  }

  lemma PlusOne(x: bv8)
    ensures x as nat < 255 ==> (x + 1) as nat == x as nat + 1
  {
  }

  lemma SameOctet(a: byte, b: byte)
    requires Bits(a) == Bits(b)
    ensures a == b
  {
    OctetOfBits(a);
    OctetOfBits(b);
    hide Bits;
  }

  // ---------- Exclusive or ----------

  predicate Halves(v: nat, half: nat, odd: bool) {
    v == 2 * half + (if odd then 1 else 0)
  }

  lemma ShiftHalves(x: bv8)
    ensures Halves(x as nat, (x >> 1) as nat, x & 1 == 1)
  {
  }

  lemma ShiftXor(x: bv8, y: bv8)
    ensures (x >> 1) ^ (y >> 1) == (x ^ y) >> 1
    ensures (x ^ y) & 1 == 1 <==> ((x & 1 == 1) != (y & 1 == 1))
  {
  }

  lemma XorNatHalves(a: nat, b: nat, s: nat, a2: nat, b2: nat, s2: nat, p: bool, q: bool)
    requires Halves(a, a2, p) && Halves(b, b2, q) && Halves(s, s2, p != q) && XorNat(a2, b2) == s2
    ensures XorNat(a, b) == s
  {
  }

  predicate SameXor(x: bv8, y: bv8) {
    XorNat(x as nat, y as nat) == (x ^ y) as nat
  }

  lemma SameXorIf(x: bv8, y: bv8)
    requires SameXor(x >> 1, y >> 1)
    ensures SameXor(x, y)
  {
    hide XorNat;
    hide Halves;
    ShiftHalves(x);
    ShiftHalves(y);
    ShiftHalves(x ^ y);
    ShiftXor(x, y);
    XorNatHalves(x as nat, y as nat, (x ^ y) as nat, (x >> 1) as nat, (y >> 1) as nat, ((x ^ y) >> 1) as nat,
                 x & 1 == 1, y & 1 == 1);
  }

  // n shifts leave nothing.
  predicate Within(x: bv8, n: nat) {
    if n == 0 then x == 0 else Within(x >> 1, n - 1)
  }

  lemma WithinMore(x: bv8, n: nat)
    requires Within(x, n)
    ensures if n == 0 then x == 0 else Within(x >> 1, n - 1)
  {
  }

  lemma Shifts(x: bv8)
    ensures x >> 7 >> 1 == 0 && x >> 6 >> 1 == x >> 7 && x >> 5 >> 1 == x >> 6 && x >> 4 >> 1 == x >> 5
    ensures x >> 3 >> 1 == x >> 4 && x >> 2 >> 1 == x >> 3 && x >> 1 >> 1 == x >> 2
  {
  }

  lemma WithinEight(x: bv8)
    ensures Within(x, 8)
  {
    Shifts(x);
    assert Within(x >> 7 >> 1, 0);
    assert Within(x >> 7, 1);
    assert Within(x >> 6, 2);
    assert Within(x >> 5, 3);
    assert Within(x >> 4, 4);
    assert Within(x >> 3, 5);
    assert Within(x >> 2, 6);
    assert Within(x >> 1, 7);
  }

  lemma SameXorNone()
    ensures SameXor(0, 0)
  {
  }

  lemma {:induction false} SameXorWithin(x: bv8, y: bv8, n: nat)
    requires Within(x, n) && Within(y, n)
    ensures SameXor(x, y)
  {
    hide *;
    WithinMore(x, n);
    WithinMore(y, n);
    if n == 0 {
      SameXorNone();
    } else {
      SameXorWithin(x >> 1, y >> 1, n - 1);
      SameXorIf(x, y);
    }
  }

  lemma XorAsBits(a: byte, b: byte)
    ensures Bits(Xor(a, b)) == Bits(a) ^ Bits(b)
  {
    hide *;
    WithinEight(Bits(a));
    WithinEight(Bits(b));
    SameXorWithin(Bits(a), Bits(b), 8);
    XorIsSame(a, b);
  }

  lemma XorIsSame(a: byte, b: byte)
    requires SameXor(Bits(a), Bits(b))
    ensures Bits(Xor(a, b)) == Bits(a) ^ Bits(b)
  {
    hide XorNat;
    NatOfBits(a);
    NatOfBits(b);
    BitsOfOctet(Bits(a) ^ Bits(b));
  }

  lemma NatOfBits(a: byte)
    ensures Bits(a) as nat == a as nat
  {
    OctetOfBits(a);
  }

  lemma XorsAsBits()
    ensures forall a, b :: Bits(Xor(a, b)) == Bits(a) ^ Bits(b)
  {
    forall a, b
      ensures Bits(Xor(a, b)) == Bits(a) ^ Bits(b)
    {
      XorAsBits(a, b);
    }
  }

  // ---------- Doubling ----------

  // Shifted, and reduced by x^8 + x^4 + x^3 + x + 1.
  function Double(x: bv8): bv8 {
    (x << 1) ^ (if x & 0x80 == 0x80 then 0x1B else 0)
  }

  lemma TopBitOf(x: bv8)
    ensures x & 0x80 == 0x80 <==> x as nat >= 128
    ensures (x << 1) as nat == 2 * x as nat - (if x as nat >= 128 then 256 else 0)
  {
    LowSeven(x);
    ShiftedLowSeven(x);
  }

  lemma LowSeven(x: bv8)
    ensures x as nat == (x & 0x7F) as nat + (if x & 0x80 == 0x80 then 128 else 0)
    ensures (x & 0x7F) as nat < 128
  {
  }

  lemma ShiftedLowSeven(x: bv8)
    ensures (x << 1) as nat == 2 * (x & 0x7F) as nat
  {
  }

  lemma {:induction false} XorNatAbove(s: nat, b: nat, n: nat)
    requires s < Pow2(n) && b < Pow2(n)
    ensures XorNat(Pow2(n) + s, b) == Pow2(n) + XorNat(s, b)
  {
    if n > 0 {
      XorNatAbove(s / 2, b / 2, n - 1);
      assert (Pow2(n) + s) / 2 == Pow2(n - 1) + s / 2;
    } else {
      assert XorNat(1, 0) == 2 * XorNat(0, 0) + 1;
    }
  }

  lemma XtimeByXor(a: byte)
    ensures a < 128 ==> Xtime(a) as nat == 2 * a as nat
    ensures a >= 128 ==> Xtime(a) == Xor((2 * a as nat - 256) as byte, 0x1B)
  {
    if a >= 128 {
      Pow2Of8();
      XorNatAbove(2 * a as nat - 256, 0x1B, 8);
      hide XorNat;
    }
  }

  lemma XtimeAsBits(a: byte)
    ensures Bits(Xtime(a)) == Double(Bits(a))
  {
    hide Xtime;
    hide Xor;
    XtimeByXor(a);
    TopBitOf(Bits(a));
    NatOfBits(a);
    var shifted := Octet(Bits(a) << 1);
    BitsOfOctet(Bits(a) << 1);
    if a >= 128 {
      XorAsBits(shifted, 0x1B);
      hide Bits;
    }
  }

  lemma XtimesAsBits()
    ensures forall a :: Bits(Xtime(a)) == Double(Bits(a))
  {
    forall a
      ensures Bits(Xtime(a)) == Double(Bits(a))
    {
      XtimeAsBits(a);
    }
  }
}
