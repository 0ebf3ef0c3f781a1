// The constants of the cipher as FIPS-197 defines them: the S-box is the affine map of the inverse in GF(2^8), and
// the round constants are the powers of {02}.
module GaloisField {
  import opened Bytes
  import opened SboxTable
  import opened Aes
  import opened AesTheorems
  import opened BitVectors

  // ---------- The laws of multiplication ----------

  lemma XorRegroups(p: byte, q: byte, r: byte, s: byte)
    ensures Xor(Xor(p, q), Xor(r, s)) == Xor(Xor(p, r), Xor(q, s))
  {
    XorBits();
    hide Xor;
    SameBits(Xor(Xor(p, q), Xor(r, s)), Xor(Xor(p, r), Xor(q, s)));
  }

  lemma XorSelf(a: byte)
    ensures Xor(a, a) == 0 && Xor(a, 0) == a && Xor(0, a) == a
  {
    XorBits();
    ZeroBits();
    hide Xor;
    SameBits(Xor(a, a), 0);
    SameBits(Xor(a, 0), a);
    SameBits(Xor(0, a), a);
  }

  // The summand of the lowest bit.
  function Part(a: byte, b: nat): byte {
    if b % 2 == 1 then a else 0
  }

  lemma GfMulIs(a: byte, b: nat)
    ensures GfMul(a, b) == Xor(Part(a, b), GfMul(Xtime(a), b / 2))
    ensures GfMul(a, 0) == 0
  {
    hide Xtime;
    if b == 0 {
      XorSelf(0);
    }
    hide Xor;
  }

  lemma XorNatIs(b: nat, c: nat)
    ensures XorNat(b, c) / 2 == XorNat(b / 2, c / 2)
    ensures XorNat(b, c) % 2 == (if b % 2 == c % 2 then 0 else 1)
  {
  }

  lemma PartXor(a: byte, b: nat, c: nat, d: nat)
    requires d % 2 == (if b % 2 == c % 2 then 0 else 1)
    ensures Part(a, d) == Xor(Part(a, b), Part(a, c))
  {
    XorSelf(a);
    XorSelf(0);
    hide Xor;
  }

  lemma {:induction false} GfMulXor(a: byte, b: nat, c: nat)
    ensures GfMul(a, XorNat(b, c)) == Xor(GfMul(a, b), GfMul(a, c))
    decreases b + c
  {
    hide *;
    GfMulIs(a, b);
    GfMulIs(a, c);
    GfMulIs(a, XorNat(b, c));
    XorNatIs(b, c);
    PartXor(a, b, c, XorNat(b, c));
    var p, q, r, s := Part(a, b), Part(a, c), GfMul(Xtime(a), b / 2), GfMul(Xtime(a), c / 2);
    XorRegroups(p, q, r, s);
    if b + c > 0 {
      GfMulXor(Xtime(a), b / 2, c / 2);
    } else {
      XorSelf(0);
      XorOfNone();
    }
  }

  lemma XorOfNone()
    ensures XorNat(0, 0) == 0
  {
  }

  lemma {:induction false} XtimeOfGfMul(a: byte, b: nat)
    ensures GfMul(Xtime(a), b) == Xtime(GfMul(a, b))
    decreases b
  {
    hide *;
    GfMulIs(a, b);
    GfMulIs(Xtime(a), b);
    if b == 0 {
      XtimeZero();
    } else {
      XtimeOfGfMul(Xtime(a), b / 2);
      XtimeLinear(Part(a, b), GfMul(Xtime(a), b / 2));
      XtimeOfPart(a, b);
    }
  }

  lemma XtimeOfPart(a: byte, b: nat)
    ensures Xtime(Part(a, b)) == Part(Xtime(a), b)
  {
    XtimeZero();
    hide Xtime;
  }

  lemma {:induction false} XorNatAboveBoth(s: nat, b: nat, n: nat)
    requires s < Pow2(n) && b < Pow2(n)
    ensures XorNat(Pow2(n) + s, Pow2(n) + b) == XorNat(s, b)
  {
    if n > 0 {
      XorNatAboveBoth(s / 2, b / 2, n - 1);
      assert (Pow2(n) + s) / 2 == Pow2(n - 1) + s / 2;
      assert (Pow2(n) + b) / 2 == Pow2(n - 1) + b / 2;
      XorNatIs(Pow2(n) + s, Pow2(n) + b);
      XorNatIs(s, b);
    } else {
      assert XorNat(1, 1) == 2 * XorNat(0, 0);
    }
  }

  // x^8 + x^4 + x^3 + x + 1
  const MODULUS: nat := 0x11B

  lemma XtimeReduces(b: byte)
    ensures Xtime(b) as nat == if b < 128 then 2 * b as nat else XorNat(2 * b as nat, MODULUS)
  {
    XtimeByXor(b);
    if b >= 128 {
      Pow2Of8();
      XorNatAboveBoth(2 * b as nat - 256, 0x1B, 8);
      hide XorNat;
    }
    hide Xtime;
  }

  lemma GfMulTwice(a: byte, b: nat)
    ensures GfMul(a, 2 * b) == GfMul(Xtime(a), b)
  {
    GfMulIs(a, 2 * b);
    hide Xtime;
    XorSelf(GfMul(Xtime(a), b));
    hide Xor;
    hide GfMul;
  }

  lemma EightDoublings(x: bv8)
    ensures var x1 := Double(x);
      var x3 := Double(Double(x1));
      var x4 := Double(x3);
      x ^ (x1 ^ (x3 ^ (x4 ^ Double(Double(Double(Double(x4))))))) == 0
  {
  }

  lemma ModulusIsZero(a: byte)
    ensures GfMul(a, MODULUS) == 0
  {
    hide GfMul;
    hide Xtime;
    hide Xor;
    hide Bits;
    hide Double;
    var x1 := Xtime(a);
    var x2 := Xtime(x1);
    var x3 := Xtime(x2);
    var x4 := Xtime(x3);
    var x5 := Xtime(x4);
    var x6 := Xtime(x5);
    var x7 := Xtime(x6);
    var x8 := Xtime(x7);
    GfMulIs(a, 0x11B);
    GfMulIs(x1, 0x8D);
    GfMulTwice(x2, 0x23);
    GfMulIs(x3, 0x23);
    GfMulIs(x4, 0x11);
    GfMulTwice(x5, 4);
    GfMulTwice(x6, 2);
    GfMulTwice(x7, 1);
    GfMulOne(x8);
    SumOfDoublings(a, x1, x2, x3, x4, x5, x6, x7, x8);
  }

  lemma SumOfDoublings(a: byte, x1: byte, x2: byte, x3: byte, x4: byte, x5: byte, x6: byte, x7: byte, x8: byte)
    requires x1 == Xtime(a) && x2 == Xtime(x1) && x3 == Xtime(x2) && x4 == Xtime(x3)
    requires x5 == Xtime(x4) && x6 == Xtime(x5) && x7 == Xtime(x6) && x8 == Xtime(x7)
    ensures Xor(a, Xor(x1, Xor(x3, Xor(x4, x8)))) == 0
  {
    hide *;
    XtimesAsBits();
    XorsAsBits();
    EightDoublings(Bits(a));
    BitsOfZero();
    SameOctet(Xor(a, Xor(x1, Xor(x3, Xor(x4, x8)))), 0);
  }

  lemma BitsOfZero()
    ensures Bits(0) == 0
  {
  }

  lemma GfMulOne(a: byte)
    ensures GfMul(a, 1) == a
  {
    GfMulIs(a, 1);
    GfMulIs(Xtime(a), 0);
    XorSelf(a);
    hide GfMul;
    hide Xor;
  }

  lemma GfMulByXtime(a: byte, b: byte)
    ensures GfMul(a, Xtime(b) as nat) == Xtime(GfMul(a, b as nat))
  {
    hide *;
    XtimeReduces(b);
    GfMulTwice(a, b as nat);
    XtimeOfGfMul(a, b as nat);
    if b >= 128 {
      GfMulXor(a, 2 * b as nat, MODULUS);
      ModulusIsZero(a);
      XorSelf(GfMul(a, 2 * b as nat));
    }
  }

  lemma {:induction false} GfMulAssociative(a: byte, b: byte, c: nat)
    ensures GfMul(GfMul(a, b as nat), c) == GfMul(a, GfMul(b, c) as nat)
    decreases c
  {
    hide *;
    var ab := GfMul(a, b as nat);
    GfMulIs(ab, c);
    GfMulIs(b, c);
    if c == 0 {
      GfMulIs(a, 0);
    } else {
      GfMulAssociative(a, Xtime(b), c / 2);
      GfMulByXtime(a, b);
      XorAsNat(Part(b, c), GfMul(Xtime(b), c / 2));
      GfMulXor(a, Part(b, c) as nat, GfMul(Xtime(b), c / 2) as nat);
      GfMulPart(a, b, c);
    }
  }

  lemma XorAsNat(a: byte, b: byte)
    ensures Xor(a, b) as nat == XorNat(a as nat, b as nat)
  {
    hide XorNat;
  }

  lemma GfMulPart(a: byte, b: byte, c: nat)
    ensures GfMul(a, Part(b, c) as nat) == Part(GfMul(a, b as nat), c)
  {
    GfMulIs(a, 0);
    hide GfMul;
  }

  // ---------- Working out a product ----------

  function Summand(x: bv8, odd: bool): bv8 {
    if odd then x else 0
  }

  function FourSummands(x: bv8, p: bool, q: bool, r: bool, s: bool): bv8 {
    var x1 := Double(x);
    var x2 := Double(x1);
    Summand(x, p) ^ (Summand(x1, q) ^ (Summand(x2, r) ^ Summand(Double(x2), s)))
  }

  function Product4(x: bv8, b: bv8): bv8 {
    FourSummands(x, b & 1 == 1, b & 2 == 2, b & 4 == 4, b & 8 == 8)
  }

  function Double4(x: bv8): bv8 {
    Double(Double(Double(Double(x))))
  }

  function Product(x: bv8, b: bv8): bv8 {
    Product4(x, b) ^ Product4(Double4(x), b >> 4)
  }

  // The summands of four bits.
  function Sum4(a: byte, b: nat): byte {
    var x1 := Xtime(a);
    var x2 := Xtime(x1);
    Xor(Part(a, b), Xor(Part(x1, b / 2), Xor(Part(x2, b / 2 / 2), Part(Xtime(x2), b / 2 / 2 / 2))))
  }

  function Xtime4(a: byte): byte {
    Xtime(Xtime(Xtime(Xtime(a))))
  }

  lemma XorAssociative(a: byte, b: byte, c: byte)
    ensures Xor(a, Xor(b, c)) == Xor(Xor(a, b), c)
  {
    XorBits();
    hide Xor;
    SameBits(Xor(a, Xor(b, c)), Xor(Xor(a, b), c));
  }

  lemma GfMulBy4(a: byte, b: nat)
    ensures GfMul(a, b) == Xor(Sum4(a, b), GfMul(Xtime4(a), b / 2 / 2 / 2 / 2))
  {
    hide GfMul;
    hide Xtime;
    hide Xor;
    hide Part;
    var x1 := Xtime(a);
    var x2 := Xtime(x1);
    var x3 := Xtime(x2);
    var b1, b2, b3 := b / 2, b / 2 / 2, b / 2 / 2 / 2;
    GfMulIs(a, b);
    GfMulIs(x1, b1);
    GfMulIs(x2, b2);
    GfMulIs(x3, b3);
    var rest := GfMul(Xtime(x3), b3 / 2);
    var p, p1, p2, p3 := Part(a, b), Part(x1, b1), Part(x2, b2), Part(x3, b3);
    XorAssociative(p2, p3, rest);
    XorAssociative(p1, Xor(p2, p3), rest);
    XorAssociative(p, Xor(p1, Xor(p2, p3)), rest);
  }

  lemma Sum4AsBits(a: byte, b: nat, p: bool, q: bool, r: bool, s: bool)
    requires (b % 2 == 1 <==> p) && (b / 2 % 2 == 1 <==> q)
    requires (b / 2 / 2 % 2 == 1 <==> r) && (b / 2 / 2 / 2 % 2 == 1 <==> s)
    ensures Bits(Sum4(a, b)) == FourSummands(Bits(a), p, q, r, s)
  {
    hide Xtime;
    hide Xor;
    hide Bits;
    hide FourSummands;
    hide Part;
    hide Summand;
    var x1 := Xtime(a);
    var x2 := Xtime(x1);
    PartAsBits(a, b, p);
    PartAsBits(x1, b / 2, q);
    PartAsBits(x2, b / 2 / 2, r);
    PartAsBits(Xtime(x2), b / 2 / 2 / 2, s);
    FourAsBits(a, Part(a, b), Part(x1, b / 2), Part(x2, b / 2 / 2), Part(Xtime(x2), b / 2 / 2 / 2), p, q, r, s);
  }

  lemma FourAsBits(a: byte, w: byte, w1: byte, w2: byte, w3: byte, p: bool, q: bool, r: bool, s: bool)
    requires Bits(w) == Summand(Bits(a), p) && Bits(w1) == Summand(Bits(Xtime(a)), q)
    requires Bits(w2) == Summand(Bits(Xtime(Xtime(a))), r) && Bits(w3) == Summand(Bits(Xtime(Xtime(Xtime(a)))), s)
    ensures Bits(Xor(w, Xor(w1, Xor(w2, w3)))) == FourSummands(Bits(a), p, q, r, s)
  {
    XtimeAsBits(a);
    XtimeAsBits(Xtime(a));
    XtimeAsBits(Xtime(Xtime(a)));
    SumAsBits(w, w1, w2, w3);
    hide Xtime;
    hide Xor;
    hide Bits;
    hide Double;
    hide Summand;
  }

  lemma PartAsBits(x: byte, b: nat, odd: bool)
    requires b % 2 == 1 <==> odd
    ensures Bits(Part(x, b)) == Summand(Bits(x), odd)
  {
    BitsOfZero();
    hide Bits;
  }

  lemma SumAsBits(p: byte, q: byte, r: byte, s: byte)
    ensures Bits(Xor(p, Xor(q, Xor(r, s)))) == Bits(p) ^ (Bits(q) ^ (Bits(r) ^ Bits(s)))
  {
    hide Xor;
    hide Bits;
    XorAsBits(r, s);
    XorAsBits(q, Xor(r, s));
    XorAsBits(p, Xor(q, Xor(r, s)));
  }

  predicate LowFour(b: nat, y: bv8) {
    && (b % 2 == 1 <==> y & 1 == 1) && (b / 2 % 2 == 1 <==> y & 2 == 2)
    && (b / 2 / 2 % 2 == 1 <==> y & 4 == 4) && (b / 2 / 2 / 2 % 2 == 1 <==> y & 8 == 8)
  }

  lemma BitsAreLow(y: bv8)
    ensures LowFour(y as nat, y)
    ensures y as nat / 2 / 2 / 2 / 2 == (y >> 4) as nat
  {
    ShiftHalves(y);
    ShiftHalves(y >> 1);
    ShiftHalves(y >> 1 >> 1);
    ShiftHalves(y >> 1 >> 1 >> 1);
    FourShifts(y);
    HalfOf(y as nat, (y >> 1) as nat, y & 1 == 1);
    HalfOf((y >> 1) as nat, (y >> 1 >> 1) as nat, y & 2 == 2);
    HalfOf((y >> 1 >> 1) as nat, (y >> 1 >> 1 >> 1) as nat, y & 4 == 4);
    HalfOf((y >> 1 >> 1 >> 1) as nat, (y >> 4) as nat, y & 8 == 8);
    hide Halves;
  }

  lemma FourShifts(y: bv8)
    ensures (y >> 1) & 1 == 1 <==> y & 2 == 2
    ensures (y >> 1 >> 1) & 1 == 1 <==> y & 4 == 4
    ensures (y >> 1 >> 1 >> 1) & 1 == 1 <==> y & 8 == 8
    ensures y >> 1 >> 1 >> 1 >> 1 == y >> 4
  {
  }

  lemma HalfOf(v: nat, half: nat, odd: bool)
    requires Halves(v, half, odd)
    ensures v / 2 == half && (v % 2 == 1 <==> odd)
  {
  }

  lemma GfMulAsBits(a: byte, b: byte)
    ensures Bits(GfMul(a, b as nat)) == Product(Bits(a), Bits(b))
  {
    hide GfMul;
    hide Sum4;
    hide Xtime;
    hide Xor;
    hide Product4;
    hide Double;
    hide Bits;
    hide LowFour;
    var y := Bits(b);
    var y4 := y >> 4;
    NatOfBits(b);
    BitsAreLow(y);
    BitsAreLow(y4);
    NoneLeft(y);
    var x4 := Xtime4(a);
    var b4 := b as nat / 2 / 2 / 2 / 2;
    GfMulBy4(a, b as nat);
    GfMulBy4(x4, b4);
    GfMulIs(Xtime4(x4), 0);
    XorSelf(Sum4(x4, b4));
    Sum4IsProduct4(a, b as nat, y);
    Sum4IsProduct4(x4, b4, y4);
    XorAsBits(Sum4(a, b as nat), Sum4(x4, b4));
    XtimesAsBits();
  }

  lemma NoneLeft(y: bv8)
    ensures (y >> 4 >> 4) as nat == 0
  {
  }

  lemma Sum4IsProduct4(a: byte, b: nat, y: bv8)
    requires LowFour(b, y)
    ensures Bits(Sum4(a, b)) == Product4(Bits(a), y)
  {
    Sum4AsBits(a, b, y & 1 == 1, y & 2 == 2, y & 4 == 4, y & 8 == 8);
    hide *;
  }
}
