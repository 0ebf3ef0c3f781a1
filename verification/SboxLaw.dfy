// FIPS-197 section 5.1.1: the S-box takes a byte to the affine map of its inverse in GF(2^8), and 0 to {63}; and
// section 5.2: the round constants are the powers of {02}.
module SboxLaw {
  import opened Bytes
  import opened SboxTable
  import opened Aes
  import AesTheorems
  import opened BitVectors
  import opened GaloisField

  function Rotated(x: bv8, k: nat): bv8
    requires k <= 8
  {
    (x << k) | (x >> (8 - k))
  }

  // Bit i is the sum of bits i, i + 4, i + 5, i + 6 and i + 7 modulo 8, and of bit i of {63}.
  function Affine(x: bv8): bv8 {
    x ^ Rotated(x, 1) ^ Rotated(x, 2) ^ Rotated(x, 3) ^ Rotated(x, 4) ^ 0x63
  }

  // ---------- The entries of the table, with the inverse of each byte ----------

  ghost predicate Lawful(b: byte) {
    if b == 0 then Bits(Sbox(b)) == 0x63
    else exists y :: Product(Bits(b), y) == 1 && Affine(y) == Bits(Sbox(b))
  }

  lemma OfZero()
    ensures Lawful(0)
  {
  }

  lemma Inverse(b: byte, y: bv8)
    requires b != 0 && Product(Bits(b), y) == 1 && Affine(y) == Bits(Sbox(b))
    ensures Lawful(b)
  {
    hide Sbox;
    hide Product;
    hide Affine;
  }

  lemma Lawful0(b: byte)
    requires 0x00 <= b <= 0x0F
    ensures Lawful(b)
  {
    hide Lawful;
    OfZero(); Inverse(0x01, 0x01); Inverse(0x02, 0x8D); Inverse(0x03, 0xF6);
    Inverse(0x04, 0xCB); Inverse(0x05, 0x52); Inverse(0x06, 0x7B); Inverse(0x07, 0xD1);
    Inverse(0x08, 0xE8); Inverse(0x09, 0x4F); Inverse(0x0A, 0x29); Inverse(0x0B, 0xC0);
    Inverse(0x0C, 0xB0); Inverse(0x0D, 0xE1); Inverse(0x0E, 0xE5); Inverse(0x0F, 0xC7);
  }

  lemma Lawful1(b: byte)
    requires 0x10 <= b <= 0x1F
    ensures Lawful(b)
  {
    hide Lawful;
    Inverse(0x10, 0x74); Inverse(0x11, 0xB4); Inverse(0x12, 0xAA); Inverse(0x13, 0x4B);
    Inverse(0x14, 0x99); Inverse(0x15, 0x2B); Inverse(0x16, 0x60); Inverse(0x17, 0x5F);
    Inverse(0x18, 0x58); Inverse(0x19, 0x3F); Inverse(0x1A, 0xFD); Inverse(0x1B, 0xCC);
    Inverse(0x1C, 0xFF); Inverse(0x1D, 0x40); Inverse(0x1E, 0xEE); Inverse(0x1F, 0xB2);
  }

  lemma Lawful2(b: byte)
    requires 0x20 <= b <= 0x2F
    ensures Lawful(b)
  {
    hide Lawful;
    Inverse(0x20, 0x3A); Inverse(0x21, 0x6E); Inverse(0x22, 0x5A); Inverse(0x23, 0xF1);
    Inverse(0x24, 0x55); Inverse(0x25, 0x4D); Inverse(0x26, 0xA8); Inverse(0x27, 0xC9);
    Inverse(0x28, 0xC1); Inverse(0x29, 0x0A); Inverse(0x2A, 0x98); Inverse(0x2B, 0x15);
    Inverse(0x2C, 0x30); Inverse(0x2D, 0x44); Inverse(0x2E, 0xA2); Inverse(0x2F, 0xC2);
  }

  lemma Lawful3(b: byte)
    requires 0x30 <= b <= 0x3F
    ensures Lawful(b)
  {
    hide Lawful;
    Inverse(0x30, 0x2C); Inverse(0x31, 0x45); Inverse(0x32, 0x92); Inverse(0x33, 0x6C);
    Inverse(0x34, 0xF3); Inverse(0x35, 0x39); Inverse(0x36, 0x66); Inverse(0x37, 0x42);
    Inverse(0x38, 0xF2); Inverse(0x39, 0x35); Inverse(0x3A, 0x20); Inverse(0x3B, 0x6F);
    Inverse(0x3C, 0x77); Inverse(0x3D, 0xBB); Inverse(0x3E, 0x59); Inverse(0x3F, 0x19);
  }

  lemma Lawful4(b: byte)
    requires 0x40 <= b <= 0x4F
    ensures Lawful(b)
  {
    hide Lawful;
    Inverse(0x40, 0x1D); Inverse(0x41, 0xFE); Inverse(0x42, 0x37); Inverse(0x43, 0x67);
    Inverse(0x44, 0x2D); Inverse(0x45, 0x31); Inverse(0x46, 0xF5); Inverse(0x47, 0x69);
    Inverse(0x48, 0xA7); Inverse(0x49, 0x64); Inverse(0x4A, 0xAB); Inverse(0x4B, 0x13);
    Inverse(0x4C, 0x54); Inverse(0x4D, 0x25); Inverse(0x4E, 0xE9); Inverse(0x4F, 0x09);
  }

  lemma Lawful5(b: byte)
    requires 0x50 <= b <= 0x5F
    ensures Lawful(b)
  {
    hide Lawful;
    Inverse(0x50, 0xED); Inverse(0x51, 0x5C); Inverse(0x52, 0x05); Inverse(0x53, 0xCA);
    Inverse(0x54, 0x4C); Inverse(0x55, 0x24); Inverse(0x56, 0x87); Inverse(0x57, 0xBF);
    Inverse(0x58, 0x18); Inverse(0x59, 0x3E); Inverse(0x5A, 0x22); Inverse(0x5B, 0xF0);
    Inverse(0x5C, 0x51); Inverse(0x5D, 0xEC); Inverse(0x5E, 0x61); Inverse(0x5F, 0x17);
  }

  lemma Lawful6(b: byte)
    requires 0x60 <= b <= 0x6F
    ensures Lawful(b)
  {
    hide Lawful;
    Inverse(0x60, 0x16); Inverse(0x61, 0x5E); Inverse(0x62, 0xAF); Inverse(0x63, 0xD3);
    Inverse(0x64, 0x49); Inverse(0x65, 0xA6); Inverse(0x66, 0x36); Inverse(0x67, 0x43);
    Inverse(0x68, 0xF4); Inverse(0x69, 0x47); Inverse(0x6A, 0x91); Inverse(0x6B, 0xDF);
    Inverse(0x6C, 0x33); Inverse(0x6D, 0x93); Inverse(0x6E, 0x21); Inverse(0x6F, 0x3B);
  }

  lemma Lawful7(b: byte)
    requires 0x70 <= b <= 0x7F
    ensures Lawful(b)
  {
    hide Lawful;
    Inverse(0x70, 0x79); Inverse(0x71, 0xB7); Inverse(0x72, 0x97); Inverse(0x73, 0x85);
    Inverse(0x74, 0x10); Inverse(0x75, 0xB5); Inverse(0x76, 0xBA); Inverse(0x77, 0x3C);
    Inverse(0x78, 0xB6); Inverse(0x79, 0x70); Inverse(0x7A, 0xD0); Inverse(0x7B, 0x06);
    Inverse(0x7C, 0xA1); Inverse(0x7D, 0xFA); Inverse(0x7E, 0x81); Inverse(0x7F, 0x82);
  }

  lemma Lawful8(b: byte)
    requires 0x80 <= b <= 0x8F
    ensures Lawful(b)
  {
    hide Lawful;
    Inverse(0x80, 0x83); Inverse(0x81, 0x7E); Inverse(0x82, 0x7F); Inverse(0x83, 0x80);
    Inverse(0x84, 0x96); Inverse(0x85, 0x73); Inverse(0x86, 0xBE); Inverse(0x87, 0x56);
    Inverse(0x88, 0x9B); Inverse(0x89, 0x9E); Inverse(0x8A, 0x95); Inverse(0x8B, 0xD9);
    Inverse(0x8C, 0xF7); Inverse(0x8D, 0x02); Inverse(0x8E, 0xB9); Inverse(0x8F, 0xA4);
  }

  lemma Lawful9(b: byte)
    requires 0x90 <= b <= 0x9F
    ensures Lawful(b)
  {
    hide Lawful;
    Inverse(0x90, 0xDE); Inverse(0x91, 0x6A); Inverse(0x92, 0x32); Inverse(0x93, 0x6D);
    Inverse(0x94, 0xD8); Inverse(0x95, 0x8A); Inverse(0x96, 0x84); Inverse(0x97, 0x72);
    Inverse(0x98, 0x2A); Inverse(0x99, 0x14); Inverse(0x9A, 0x9F); Inverse(0x9B, 0x88);
    Inverse(0x9C, 0xF9); Inverse(0x9D, 0xDC); Inverse(0x9E, 0x89); Inverse(0x9F, 0x9A);
  }

  lemma LawfulA(b: byte)
    requires 0xA0 <= b <= 0xAF
    ensures Lawful(b)
  {
    hide Lawful;
    Inverse(0xA0, 0xFB); Inverse(0xA1, 0x7C); Inverse(0xA2, 0x2E); Inverse(0xA3, 0xC3);
    Inverse(0xA4, 0x8F); Inverse(0xA5, 0xB8); Inverse(0xA6, 0x65); Inverse(0xA7, 0x48);
    Inverse(0xA8, 0x26); Inverse(0xA9, 0xC8); Inverse(0xAA, 0x12); Inverse(0xAB, 0x4A);
    Inverse(0xAC, 0xCE); Inverse(0xAD, 0xE7); Inverse(0xAE, 0xD2); Inverse(0xAF, 0x62);
  }

  lemma LawfulB(b: byte)
    requires 0xB0 <= b <= 0xBF
    ensures Lawful(b)
  {
    hide Lawful;
    Inverse(0xB0, 0x0C); Inverse(0xB1, 0xE0); Inverse(0xB2, 0x1F); Inverse(0xB3, 0xEF);
    Inverse(0xB4, 0x11); Inverse(0xB5, 0x75); Inverse(0xB6, 0x78); Inverse(0xB7, 0x71);
    Inverse(0xB8, 0xA5); Inverse(0xB9, 0x8E); Inverse(0xBA, 0x76); Inverse(0xBB, 0x3D);
    Inverse(0xBC, 0xBD); Inverse(0xBD, 0xBC); Inverse(0xBE, 0x86); Inverse(0xBF, 0x57);
  }

  lemma LawfulC(b: byte)
    requires 0xC0 <= b <= 0xCF
    ensures Lawful(b)
  {
    hide Lawful;
    Inverse(0xC0, 0x0B); Inverse(0xC1, 0x28); Inverse(0xC2, 0x2F); Inverse(0xC3, 0xA3);
    Inverse(0xC4, 0xDA); Inverse(0xC5, 0xD4); Inverse(0xC6, 0xE4); Inverse(0xC7, 0x0F);
    Inverse(0xC8, 0xA9); Inverse(0xC9, 0x27); Inverse(0xCA, 0x53); Inverse(0xCB, 0x04);
    Inverse(0xCC, 0x1B); Inverse(0xCD, 0xFC); Inverse(0xCE, 0xAC); Inverse(0xCF, 0xE6);
  }

  lemma LawfulD(b: byte)
    requires 0xD0 <= b <= 0xDF
    ensures Lawful(b)
  {
    hide Lawful;
    Inverse(0xD0, 0x7A); Inverse(0xD1, 0x07); Inverse(0xD2, 0xAE); Inverse(0xD3, 0x63);
    Inverse(0xD4, 0xC5); Inverse(0xD5, 0xDB); Inverse(0xD6, 0xE2); Inverse(0xD7, 0xEA);
    Inverse(0xD8, 0x94); Inverse(0xD9, 0x8B); Inverse(0xDA, 0xC4); Inverse(0xDB, 0xD5);
    Inverse(0xDC, 0x9D); Inverse(0xDD, 0xF8); Inverse(0xDE, 0x90); Inverse(0xDF, 0x6B);
  }

  lemma LawfulE(b: byte)
    requires 0xE0 <= b <= 0xEF
    ensures Lawful(b)
  {
    hide Lawful;
    Inverse(0xE0, 0xB1); Inverse(0xE1, 0x0D); Inverse(0xE2, 0xD6); Inverse(0xE3, 0xEB);
    Inverse(0xE4, 0xC6); Inverse(0xE5, 0x0E); Inverse(0xE6, 0xCF); Inverse(0xE7, 0xAD);
    Inverse(0xE8, 0x08); Inverse(0xE9, 0x4E); Inverse(0xEA, 0xD7); Inverse(0xEB, 0xE3);
    Inverse(0xEC, 0x5D); Inverse(0xED, 0x50); Inverse(0xEE, 0x1E); Inverse(0xEF, 0xB3);
  }

  lemma LawfulF(b: byte)
    requires 0xF0 <= b <= 0xFF
    ensures Lawful(b)
  {
    hide Lawful;
    Inverse(0xF0, 0x5B); Inverse(0xF1, 0x23); Inverse(0xF2, 0x38); Inverse(0xF3, 0x34);
    Inverse(0xF4, 0x68); Inverse(0xF5, 0x46); Inverse(0xF6, 0x03); Inverse(0xF7, 0x8C);
    Inverse(0xF8, 0xDD); Inverse(0xF9, 0x9C); Inverse(0xFA, 0x7D); Inverse(0xFB, 0xA0);
    Inverse(0xFC, 0xCD); Inverse(0xFD, 0x1A); Inverse(0xFE, 0x41); Inverse(0xFF, 0x1C);
  }

  lemma AllLawful(b: byte)
    ensures Lawful(b)
  {
    hide Lawful;
    if b < 0x10 {
      Lawful0(b);
    } else if b < 0x20 {
      Lawful1(b);
    } else if b < 0x30 {
      Lawful2(b);
    } else if b < 0x40 {
      Lawful3(b);
    } else if b < 0x50 {
      Lawful4(b);
    } else if b < 0x60 {
      Lawful5(b);
    } else if b < 0x70 {
      Lawful6(b);
    } else if b < 0x80 {
      Lawful7(b);
    } else if b < 0x90 {
      Lawful8(b);
    } else if b < 0xA0 {
      Lawful9(b);
    } else if b < 0xB0 {
      LawfulA(b);
    } else if b < 0xC0 {
      LawfulB(b);
    } else if b < 0xD0 {
      LawfulC(b);
    } else if b < 0xE0 {
      LawfulD(b);
    } else if b < 0xF0 {
      LawfulE(b);
    } else {
      LawfulF(b);
    }
  }

  // ---------- The law ----------

  lemma HasInverse(b: byte) returns (c: byte)
    requires b != 0
    ensures GfMul(b, c as nat) == 1 && Bits(Sbox(b)) == Affine(Bits(c))
  {
    AllLawful(b);
    hide Product;
    hide Affine;
    hide Sbox;
    hide GfMul;
    var y :| Product(Bits(b), y) == 1 && Affine(y) == Bits(Sbox(b));
    hide Lawful;
    c := Octet(y);
    BitsOfOctet(y);
    GfMulAsBits(b, c);
    BitsOfOne();
    hide Bits;
    SameOctet(GfMul(b, c as nat), 1);
  }

  lemma BitsOfOne()
    ensures Bits(1) == 1
  {
  }

  // One is neutral on the left, too.
  lemma OneTimes(b: byte)
    ensures GfMul(1, b as nat) == b
  {
    hide GfMul;
    GfMulAsBits(1, b);
    BitsOfOne();
    ProductOfOne(Bits(b));
    hide Product;
    hide Bits;
    SameOctet(GfMul(1, b as nat), b);
  }

  lemma ProductOfOne(y: bv8)
    ensures Product(1, y) == y
  {
  }

  // An inverse on the right is one on the left.
  lemma InverseOnLeft(b: byte, c: byte)
    requires GfMul(b, c as nat) == 1
    ensures GfMul(c, b as nat) == 1
  {
    hide GfMul;
    hide Sbox;
    if c == 0 {
      GfMulIs(b, 0);
    } else {
      var d := HasInverse(c);
      GfMulAssociative(b, c, d as nat);
      OneTimes(d);
      GfMulOne(b);
    }
  }

  predicate IsInverse(b: byte, c: byte) {
    GfMul(b, c as nat) == 1
  }

  // Every byte but 0 has one inverse, and the table holds the affine map of it.
  lemma SboxIsAffineOfInverse(b: byte, c: byte)
    ensures Sbox(0) == 0x63
    ensures b != 0 ==> exists d: byte :: IsInverse(b, d)
    ensures IsInverse(b, c) ==> Bits(Sbox(b)) == Affine(Bits(c))
  {
    assert Sbox(0) == 0x63;
    hide GfMul;
    hide Sbox;
    hide Affine;
    hide Bits;
    if b != 0 {
      var d := HasInverse(b);
      assert IsInverse(b, d);
      if GfMul(b, c as nat) == 1 {
        InverseOnLeft(b, c);
        GfMulAssociative(c, b, d as nat);
        OneTimes(d);
        GfMulOne(c);
      }
    } else {
      ZeroTimes(c as nat);
    }
  }

  lemma {:induction false} ZeroTimes(c: nat)
    ensures GfMul(0, c) == 0
    decreases c
  {
    GfMulIs(0, c);
    hide GfMul;
    hide Xor;
    if c > 0 {
      AesTheorems.XtimeZero();
      ZeroTimes(c / 2);
      XorSelf(0);
    }
  }

  lemma RoundConstants()
    ensures |RCON| == 10 && RCON[0] == 1
    ensures forall i :: 0 <= i < 9 ==> RCON[i + 1] == GfMul(RCON[i], 2)
  {
    hide GfMul;
    Doubled(0x01, 0x02);
    Doubled(0x02, 0x04);
    Doubled(0x04, 0x08);
    Doubled(0x08, 0x10);
    Doubled(0x10, 0x20);
    Doubled(0x20, 0x40);
    Doubled(0x40, 0x80);
    Doubled(0x80, 0x1B);
    Doubled(0x1B, 0x36);
  }

  lemma Doubled(a: byte, d: byte)
    requires Bits(d) == Double(Bits(a))
    ensures GfMul(a, 2) == d
  {
    hide Bits;
    hide Double;
    hide Xtime;
    GfMulSmall(a);
    hide GfMul;
    XtimeAsBits(a);
    SameOctet(d, Xtime(a));
  }
}
