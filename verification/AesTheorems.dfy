// For every key the AES-128 block function is one-to-one.
module AesTheorems {
  import opened Bytes
  import opened SboxTable
  import opened Aes

  // ---------- Doubling in GF(2^8) is linear ----------

  lemma HalfStep(a: nat, i: nat)
    ensures Bit(2 * a, i + 1) == Bit(a, i)
    ensures !Bit(2 * a, 0)
  {
  }

  lemma {:induction false} LowBits(s: nat, n: nat, i: nat)
    requires i < n
    ensures Bit(s % Pow2(n), i) == Bit(s, i)
  {
    ModHalf(s, Pow2(n - 1));
    if i > 0 {
      LowBits(s / 2, n - 1, i - 1);
    }
  }

  lemma ModHalf(s: nat, p: nat)
    requires p > 0
    ensures (s % (2 * p)) / 2 == (s / 2) % p
    ensures (s % (2 * p)) % 2 == s % 2
  {
    var q := s / (2 * p);
    var r := s % (2 * p);
    assert s == 2 * p * q + r;
    assert s == 2 * (p * q) + r;
    assert s / 2 == p * q + r / 2;
    ModUnique(s / 2, p, q, r / 2);
  }

  lemma ModUnique(s: nat, p: nat, q: nat, r: nat)
    requires p > 0 && s == p * q + r && r < p
    ensures s % p == r
  {
    var d := s / p - q;
    assert s == p * (s / p) + s % p;
    assert p * d == r - s % p;
    MulAtLeast(p, d);
  }

  lemma MulAtLeast(p: int, d: int)
    requires p > 0
    ensures d > 0 ==> p * d >= p
    ensures d < 0 ==> p * d + p <= 0
  {
  }

  // 0x1B has bits 0, 1, 3 and 4.
  lemma BitsOf1B(i: nat)
    requires i < 8
    ensures Bit(0x1B, i) <==> i == 0 || i == 1 || i == 3 || i == 4
  {
    assert Bit(0x1B, i) == if i == 0 then true else Bit(13, i - 1);
    if i >= 1 {
      assert Bit(13, i - 1) == if i == 1 then true else Bit(6, i - 2);
    }
    if i >= 2 {
      assert Bit(6, i - 2) == if i == 2 then false else Bit(3, i - 3);
    }
    if i >= 3 {
      assert Bit(3, i - 3) == if i == 3 then true else Bit(1, i - 4);
    }
    if i >= 4 {
      assert Bit(1, i - 4) == if i == 4 then true else Bit(0, i - 5);
    }
    if i >= 5 {
      ZeroBit(i - 5);
    }
  }

  lemma {:induction false} TopBit(a: nat, n: nat)
    requires a < Pow2(n + 1)
    ensures Bit(a, n) <==> a >= Pow2(n)
  {
    if n > 0 {
      TopBit(a / 2, n - 1);
    }
  }

  lemma Pow2Of7()
    ensures Pow2(7) == 128
  {
    Pow2Of8();
    assert Pow2(8) == 2 * Pow2(7);
  }

  // Multiplying by x modulo x^8 + x^4 + x^3 + x + 1, bit by bit.
  lemma XtimeBit(a: byte, i: nat)
    requires i < 8
    ensures On(Xtime(a), i) ==
      ((i > 0 && On(a, i - 1)) != (On(a, 7) && (i == 0 || i == 1 || i == 3 || i == 4)))
  {
    Pow2Of8();
    Pow2Of7();
    TopBit(a as nat, 7);
    var s := 2 * a as nat;
    HalfStep(a as nat, if i > 0 then i - 1 else 0);
    if s >= 0x100 {
      LowBits(XorNat(s, 0x1B), 8, i);
      XorNatBit(s, 0x1B, i);
      BitsOf1B(i);
    }
  }

  // The bits of the sum are the differing bits.
  lemma XtimeLinear(a: byte, b: byte)
    ensures Xtime(Xor(a, b)) == Xor(Xtime(a), Xtime(b))
  {
    var s := Xor(a, b);
    XorBits();
    hide Xor;
    hide Xtime;
    hide On;
    forall i: nat | i < 8
      ensures On(Xtime(s), i) == On(Xor(Xtime(a), Xtime(b)), i)
    {
      XtimeBit(a, i);
      XtimeBit(b, i);
      XtimeBit(s, i);
      if i > 0 {
        assert On(s, i - 1) == (On(a, i - 1) != On(b, i - 1));
      }
      assert On(s, 7) == (On(a, 7) != On(b, 7));
    }
    SameBits(Xtime(s), Xor(Xtime(a), Xtime(b)));
  }

  lemma XtimeZero()
    ensures Xtime(0) == 0
  {
  }

  // ---------- MixColumns is one-to-one ----------

  lemma XorEqual(a: byte, b: byte)
    requires Xor(a, b) == 0
    ensures a == b
  {
    XorBits();
    ZeroBits();
    hide Xor;
    forall i: nat | i < 8
      ensures On(a, i) == On(b, i)
    {
      assert !On(Xor(a, b), i);
    }
    SameBits(a, b);
  }

  // A column that MixColumns sends to zero is zero: the rows sum to d0+d1+d2+d3, which
  // is therefore zero, and then each row says d_k = x (d_k + d_{k+1}).
  lemma KernelSum(d0: byte, d1: byte, d2: byte, d3: byte)
    requires Row0(d0, d1, d2, d3) == 0 && Row0(d1, d2, d3, d0) == 0
    requires Row0(d2, d3, d0, d1) == 0 && Row0(d3, d0, d1, d2) == 0
    ensures Xor(Xor(d0, d1), Xor(d2, d3)) == 0
  {
    XorBits();
    ZeroBits();
    hide Xor;
    hide Xtime;
    forall i: nat | i < 8
      ensures On(Xor(Xor(d0, d1), Xor(d2, d3)), i) == On(0, i)
    {
      assert !On(Row0(d0, d1, d2, d3), i) && !On(Row0(d1, d2, d3, d0), i);
      assert !On(Row0(d2, d3, d0, d1), i) && !On(Row0(d3, d0, d1, d2), i);
    }
    SameBits(Xor(Xor(d0, d1), Xor(d2, d3)), 0);
  }

  function Row0(a: byte, b: byte, c: byte, d: byte): byte {
    Xor(Xor(Xor(Xtime(a), Xor(Xtime(b), b)), c), d)
  }

  lemma KernelRow(d0: byte, d1: byte, d2: byte, d3: byte)
    requires Row0(d0, d1, d2, d3) == 0
    requires Xor(Xor(d0, d1), Xor(d2, d3)) == 0
    ensures d0 == Xor(Xtime(d0), Xtime(d1))
  {
    XorBits();
    ZeroBits();
    hide Xor;
    hide Xtime;
    forall i: nat | i < 8
      ensures On(d0, i) == On(Xor(Xtime(d0), Xtime(d1)), i)
    {
      assert !On(Row0(d0, d1, d2, d3), i) && !On(Xor(Xor(d0, d1), Xor(d2, d3)), i);
    }
    SameBits(d0, Xor(Xtime(d0), Xtime(d1)));
  }

  lemma RotateSum(d0: byte, d1: byte, d2: byte, d3: byte)
    requires Xor(Xor(d0, d1), Xor(d2, d3)) == 0
    ensures Xor(Xor(d1, d2), Xor(d3, d0)) == 0
  {
    XorBits();
    hide Xor;
    SameBits(Xor(Xor(d1, d2), Xor(d3, d0)), Xor(Xor(d0, d1), Xor(d2, d3)));
  }

  // Opposite entries agree, because x (d0+d1+d2+d3) = 0.
  lemma KernelOpposite(d0: byte, d1: byte, d2: byte, d3: byte)
    requires d0 == Xor(Xtime(d0), Xtime(d1)) && d2 == Xor(Xtime(d2), Xtime(d3))
    requires Xor(Xor(d0, d1), Xor(d2, d3)) == 0
    ensures d0 == d2
  {
    XtimeLinear(d0, d1);
    XtimeLinear(d2, d3);
    XtimeLinear(Xor(d0, d1), Xor(d2, d3));
    XtimeZero();
    XorEqual(d0, d2);
  }

  lemma KernelIsZero(d0: byte, d1: byte, d2: byte, d3: byte)
    requires Row0(d0, d1, d2, d3) == 0 && Row0(d1, d2, d3, d0) == 0
    requires Row0(d2, d3, d0, d1) == 0 && Row0(d3, d0, d1, d2) == 0
    ensures d0 == d1 == d2 == d3 == 0
  {
    hide Row0;
    hide Xor;
    hide Xtime;
    KernelSum(d0, d1, d2, d3);
    RotateSum(d0, d1, d2, d3);
    RotateSum(d1, d2, d3, d0);
    RotateSum(d2, d3, d0, d1);
    KernelRow(d0, d1, d2, d3);
    KernelRow(d1, d2, d3, d0);
    KernelRow(d2, d3, d0, d1);
    KernelRow(d3, d0, d1, d2);
    KernelOpposite(d0, d1, d2, d3);
    KernelOpposite(d1, d2, d3, d0);
    SelfXor(Xtime(d0), Xtime(d1));
    XorSelfZero(Xtime(d0));
  }

  lemma SelfXor(a: byte, b: byte)
    ensures Xor(a, b) == Xor(b, a)
  {
    XorBits();
    hide Xor;
    SameBits(Xor(a, b), Xor(b, a));
  }

  lemma XorSelfZero(a: byte)
    ensures Xor(a, a) == 0
  {
    XorBits();
    ZeroBits();
    hide Xor;
    SameBits(Xor(a, a), 0);
  }

  lemma RowDifference(a0: byte, a1: byte, a2: byte, a3: byte, b0: byte, b1: byte, b2: byte, b3: byte)
    requires MixRow(a0, a1, a2, a3) == MixRow(b0, b1, b2, b3)
    ensures Row0(Xor(a0, b0), Xor(a1, b1), Xor(a2, b2), Xor(a3, b3)) == 0
  {
    hide MixRow;
    hide Xor;
    hide Xtime;
    MixRowByXtime(a0, a1, a2, a3);
    MixRowByXtime(b0, b1, b2, b3);
    XtimeLinear(a0, b0);
    XtimeLinear(a1, b1);
    RowsCancel(Xtime(a0), Xtime(a1), a1, a2, a3, Xtime(b0), Xtime(b1), b1, b2, b3);
  }

  lemma RowsCancel(p: byte, q: byte, a1: byte, a2: byte, a3: byte, s: byte, t: byte, b1: byte, b2: byte, b3: byte)
    requires Xor(Xor(Xor(p, Xor(q, a1)), a2), a3) == Xor(Xor(Xor(s, Xor(t, b1)), b2), b3)
    ensures Xor(Xor(Xor(Xor(p, s), Xor(Xor(q, t), Xor(a1, b1))), Xor(a2, b2)), Xor(a3, b3)) == 0
  {
    var l, r := Xor(Xor(Xor(p, Xor(q, a1)), a2), a3), Xor(Xor(Xor(s, Xor(t, b1)), b2), b3);
    var d := Xor(Xor(Xor(Xor(p, s), Xor(Xor(q, t), Xor(a1, b1))), Xor(a2, b2)), Xor(a3, b3));
    XorSelfZero(l);
    XorBits();
    hide Xor;
    forall i: nat | i < 8
      ensures On(d, i) == On(Xor(l, r), i)
    {
      SumBits(p, q, a1, a2, a3, i);
      SumBits(s, t, b1, b2, b3, i);
    }
    SameBits(d, Xor(l, r));
  }

  lemma SumBits(p: byte, q: byte, a1: byte, a2: byte, a3: byte, i: nat)
    ensures On(Xor(Xor(Xor(p, Xor(q, a1)), a2), a3), i)
         == ((((On(p, i) != (On(q, i) != On(a1, i))) != On(a2, i))) != On(a3, i))
  {
    XorBits();
    hide Xor;
  }

  lemma MixColumnInjective(v: Word, w: Word)
    requires MixColumn(v) == MixColumn(w)
    ensures v == w
  {
    hide MixRow;
    hide Xor;
    RowDifference(v.b0, v.b1, v.b2, v.b3, w.b0, w.b1, w.b2, w.b3);
    RowDifference(v.b1, v.b2, v.b3, v.b0, w.b1, w.b2, w.b3, w.b0);
    RowDifference(v.b2, v.b3, v.b0, v.b1, w.b2, w.b3, w.b0, w.b1);
    RowDifference(v.b3, v.b0, v.b1, v.b2, w.b3, w.b0, w.b1, w.b2);
    KernelIsZero(Xor(v.b0, w.b0), Xor(v.b1, w.b1), Xor(v.b2, w.b2), Xor(v.b3, w.b3));
    XorEqual(v.b0, w.b0);
    XorEqual(v.b1, w.b1);
    XorEqual(v.b2, w.b2);
    XorEqual(v.b3, w.b3);
  }

  lemma MixColumnsInjective(s: State, t: State)
    requires MixColumns(s) == MixColumns(t)
    ensures s == t
  {
    hide MixColumn;
    MixColumnInjective(s.c0, t.c0);
    MixColumnInjective(s.c1, t.c1);
    MixColumnInjective(s.c2, t.c2);
    MixColumnInjective(s.c3, t.c3);
  }

  // ---------- The other steps ----------

  lemma SubWordInjective(v: Word, w: Word)
    requires SubWord(v) == SubWord(w)
    ensures v == w
  {
    hide Sbox;
    hide InvSbox;
    SboxInvertible(v.b0);
    SboxInvertible(v.b1);
    SboxInvertible(v.b2);
    SboxInvertible(v.b3);
    SboxInvertible(w.b0);
    SboxInvertible(w.b1);
    SboxInvertible(w.b2);
    SboxInvertible(w.b3);
  }

  lemma SubBytesInjective(s: State, t: State)
    requires SubBytes(s) == SubBytes(t)
    ensures s == t
  {
    hide SubWord;
    SubWordInjective(s.c0, t.c0);
    SubWordInjective(s.c1, t.c1);
    SubWordInjective(s.c2, t.c2);
    SubWordInjective(s.c3, t.c3);
  }

  lemma XorWordInjective(v: Word, w: Word, k: Word)
    requires XorWord(v, k) == XorWord(w, k)
    ensures v == w
  {
    hide Xor;
    XorInjective(v.b0, w.b0, k.b0);
    XorInjective(v.b1, w.b1, k.b1);
    XorInjective(v.b2, w.b2, k.b2);
    XorInjective(v.b3, w.b3, k.b3);
  }

  lemma AddRoundKeyInjective(s: State, t: State, k: State)
    requires AddRoundKey(s, k) == AddRoundKey(t, k)
    ensures s == t
  {
    hide XorWord;
    XorWordInjective(s.c0, t.c0, k.c0);
    XorWordInjective(s.c1, t.c1, k.c1);
    XorWordInjective(s.c2, t.c2, k.c2);
    XorWordInjective(s.c3, t.c3, k.c3);
  }

  lemma ShiftRowsInjective(s: State, t: State)
    requires ShiftRows(s) == ShiftRows(t)
    ensures s == t
  {
    assert ShiftRows(s).c0 == ShiftRows(t).c0 && ShiftRows(s).c1 == ShiftRows(t).c1;
    assert ShiftRows(s).c2 == ShiftRows(t).c2 && ShiftRows(s).c3 == ShiftRows(t).c3;
  }

  lemma RoundInjective(s: State, t: State, k: State, last: bool)
    requires AddRoundKey(if last then ShiftRows(SubBytes(s)) else MixColumns(ShiftRows(SubBytes(s))), k)
          == AddRoundKey(if last then ShiftRows(SubBytes(t)) else MixColumns(ShiftRows(SubBytes(t))), k)
    ensures s == t
  {
    hide *;
    var u, v := ShiftRows(SubBytes(s)), ShiftRows(SubBytes(t));
    AddRoundKeyInjective(if last then u else MixColumns(u), if last then v else MixColumns(v), k);
    if !last {
      MixColumnsInjective(u, v);
    }
    ShiftRowsInjective(SubBytes(s), SubBytes(t));
    SubBytesInjective(s, t);
  }

  lemma LoadInjective(x: Block, y: Block)
    requires Load(x) == Load(y)
    ensures x == y
  {
    forall i | 0 <= i < 16
      ensures x[i] == y[i]
    {
      assert WordOf(x, 0) == WordOf(y, 0) && WordOf(x, 4) == WordOf(y, 4);
      assert WordOf(x, 8) == WordOf(y, 8) && WordOf(x, 12) == WordOf(y, 12);
      if i < 4 { } else if i < 8 { } else if i < 12 { } else { }
    }
  }

  lemma StoreInjective(s: State, t: State)
    requires Store(s) == Store(t)
    ensures s == t
  {
    var x, y := Store(s), Store(t);
    assert x[0..4] == WordBytes(s.c0) && y[0..4] == WordBytes(t.c0);
    assert x[4..8] == WordBytes(s.c1) && y[4..8] == WordBytes(t.c1);
    assert x[8..12] == WordBytes(s.c2) && y[8..12] == WordBytes(t.c2);
    assert x[12..16] == WordBytes(s.c3) && y[12..16] == WordBytes(t.c3);
  }

  lemma {:induction false} RoundsInjective(key: Block, x: Block, y: Block, n: nat)
    requires n <= 10 && Rounds(key, x, n) == Rounds(key, y, n)
    ensures x == y
  {
    hide AddRoundKey;
    hide MixColumns;
    hide ShiftRows;
    hide SubBytes;
    hide RoundKey;
    hide Load;
    if n == 0 {
      AddRoundKeyInjective(Load(x), Load(y), RoundKey(key, 0));
      LoadInjective(x, y);
    } else {
      RoundInjective(Rounds(key, x, n - 1), Rounds(key, y, n - 1), RoundKey(key, n), n == 10);
      RoundsInjective(key, x, y, n - 1);
    }
  }

  // FIPS-197 section 5.3: the cipher can be inverted.
  lemma CipherInjective(key: Block, x: Block, y: Block)
    requires Cipher(key, x) == Cipher(key, y)
    ensures x == y
  {
    hide Rounds;
    StoreInjective(Rounds(key, x, 10), Rounds(key, y, 10));
    RoundsInjective(key, x, y, 10);
  }
}
