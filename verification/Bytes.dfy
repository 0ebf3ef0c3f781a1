// Bytes, powers of two, Python's big-endian integer conversions and bitwise xor.
module Bytes {

  newtype byte = x: int | 0 <= x < 256

  type bytes = seq<byte>

  function Zeros(n: nat): (s: bytes)
    ensures |s| == n
  {
    seq(n, _ => 0)
  }

  // s[lo:hi] in Python: both bounds are clipped to the length.
  function Slice(s: bytes, lo: nat, hi: nat): bytes {
    var h := if hi < |s| then hi else |s|;
    if lo < h then s[lo..h] else []
  }

  // ---------- Powers of two ----------

  function Pow2(n: nat): (p: nat)
    ensures 1 <= p
  {
    if n == 0 then 1 else 2 * Pow2(n - 1)
  }

  lemma {:induction false} Pow2Monotone(m: nat, n: nat)
    requires m <= n
    ensures Pow2(m) <= Pow2(n)
    decreases n
  {
    if m < n {
      Pow2Monotone(m, n - 1);
    }
  }

  lemma Pow2Octet(n: nat)
    ensures Pow2(n + 8) == 256 * Pow2(n)
  {
    assert Pow2(n + 4) == 16 * Pow2(n) by {
      assert Pow2(n + 2) == 4 * Pow2(n);
      assert Pow2((n + 2) + 2) == 4 * Pow2(n + 2);
    }
    assert Pow2((n + 4) + 2) == 4 * Pow2(n + 4);
    assert Pow2((n + 6) + 2) == 4 * Pow2(n + 6);
  }

  // int.bit_length() of a non-negative integer.
  function BitLength(v: nat): nat {
    if v == 0 then 0 else 1 + BitLength(v / 2)
  }

  lemma {:induction false} BitLengthBound(v: nat, n: nat)
    ensures v < Pow2(n) <==> BitLength(v) <= n
  {
    if v > 0 && n > 0 {
      BitLengthBound(v / 2, n - 1);
    }
  }

  // ---------- Big-endian integers ----------

  // int.from_bytes(s, "big")
  function FromBig(s: bytes): nat {
    if s == [] then 0 else FromBig(s[..|s| - 1]) * 256 + s[|s| - 1] as nat
  }

  // v.to_bytes(n, "big"); the source raises OverflowError when v does not fit.
  function ToBig(v: nat, n: nat): (s: bytes)
    requires v < Pow2(8 * n)
    ensures |s| == n
  {
    if n == 0 then []
    else
      Pow2Octet(8 * (n - 1));
      ToBig(v / 256, n - 1) + [(v % 256) as byte]
  }

  lemma {:induction false} FromBigToBig(v: nat, n: nat)
    requires v < Pow2(8 * n)
    ensures FromBig(ToBig(v, n)) == v
  {
    if n > 0 {
      Pow2Octet(8 * (n - 1));
      FromBigToBig(v / 256, n - 1);
      var s := ToBig(v, n);
      assert s[..n - 1] == ToBig(v / 256, n - 1);
    }
  }

  lemma {:induction false} FromBigBound(s: bytes)
    ensures FromBig(s) < Pow2(8 * |s|)
  {
    if s != [] {
      FromBigBound(s[..|s| - 1]);
      Pow2Octet(8 * (|s| - 1));
    }
  }

  lemma {:induction false} ToBigFromBig(s: bytes)
    ensures FromBig(s) < Pow2(8 * |s|)
    ensures ToBig(FromBig(s), |s|) == s
  {
    FromBigBound(s);
    if s != [] {
      var init := s[..|s| - 1];
      ToBigFromBig(init);
      assert s == init + [s[|s| - 1]];
      assert FromBig(s) / 256 == FromBig(init) && FromBig(s) % 256 == s[|s| - 1] as nat;
    }
  }

  // The leading octet decides which half of the range the number is in.
  lemma {:induction false} FromBigHead(s: bytes)
    requires s != []
    ensures s[0] as nat * Pow2(8 * (|s| - 1)) <= FromBig(s) < (s[0] as nat + 1) * Pow2(8 * (|s| - 1))
  {
    if |s| == 1 {
      assert s[..0] == [];
    } else {
      var init := s[..|s| - 1];
      FromBigHead(init);
      Pow2Octet(8 * (|init| - 1));
      assert 8 * (|init| - 1) + 8 == 8 * (|s| - 1);
      AppendDigit(s[0] as nat, Pow2(8 * (|init| - 1)), FromBig(init), s[|s| - 1] as nat);
    }
  }

  lemma AppendDigit(h: nat, p: nat, v: nat, d: nat)
    requires h * p <= v < (h + 1) * p && d < 256
    ensures h * (256 * p) <= v * 256 + d < (h + 1) * (256 * p)
  {
    assert h * (256 * p) == 256 * (h * p);
    assert (h + 1) * (256 * p) == 256 * ((h + 1) * p);
  }

  // ---------- Bitwise exclusive or ----------

  function Bit(a: nat, i: nat): bool {
    if i == 0 then a % 2 == 1 else Bit(a / 2, i - 1)
  }

  function XorNat(a: nat, b: nat): nat
    decreases a + b
  {
    if a == 0 && b == 0 then 0
    else 2 * XorNat(a / 2, b / 2) + (if a % 2 == b % 2 then 0 else 1)
  }

  lemma {:induction false} XorNatBound(a: nat, b: nat, n: nat)
    requires a < Pow2(n) && b < Pow2(n)
    ensures XorNat(a, b) < Pow2(n)
  {
    if n > 0 && !(a == 0 && b == 0) {
      XorNatBound(a / 2, b / 2, n - 1);
    }
  }

  lemma Pow2Of8()
    ensures Pow2(8) == 256
  {
    Pow2Octet(0);
  }

  function Xor(a: byte, b: byte): byte {
    Pow2Of8();
    XorNatBound(a as nat, b as nat, 8);
    XorNat(a as nat, b as nat) as byte
  }

  lemma {:induction false} ZeroBit(i: nat)
    ensures !Bit(0, i)
  {
    if i > 0 {
      ZeroBit(i - 1);
    }
  }

  lemma {:induction false} XorNatBit(a: nat, b: nat, i: nat)
    ensures Bit(XorNat(a, b), i) == (Bit(a, i) != Bit(b, i))
  {
    if a == 0 && b == 0 {
      ZeroBit(i);
    } else if i > 0 {
      XorNatBit(a / 2, b / 2, i - 1);
    }
  }

  lemma {:induction false} SameBitsNat(a: nat, b: nat, n: nat)
    requires a < Pow2(n) && b < Pow2(n)
    requires forall i :: 0 <= i < n ==> Bit(a, i) == Bit(b, i)
    ensures a == b
  {
    if n > 0 {
      assert Bit(a, 0) == Bit(b, 0);
      forall i | 0 <= i < n - 1
        ensures Bit(a / 2, i) == Bit(b / 2, i)
      {
        assert Bit(a, i + 1) == Bit(b, i + 1);
      }
      SameBitsNat(a / 2, b / 2, n - 1);
    }
  }

  predicate On(a: byte, i: nat) {
    Bit(a as nat, i)
  }

  lemma SameBits(a: byte, b: byte)
    requires forall i :: 0 <= i < 8 ==> On(a, i) == On(b, i)
    ensures a == b
  {
    Pow2Of8();
    var m: nat, n: nat := a as nat, b as nat;
    forall i: nat | 0 <= i < 8
      ensures Bit(m, i) == Bit(n, i)
    {
      assert On(a, i) == On(b, i);
    }
    SameBitsNat(m, n, 8);
  }

  // Xor is bitwise: what every algebraic law below is read off.
  lemma XorBits()
    ensures forall a, b, i: nat {:trigger On(Xor(a, b), i)} :: On(Xor(a, b), i) == (On(a, i) != On(b, i))
  {
    forall a: byte, b: byte, i: nat
      ensures On(Xor(a, b), i) == (On(a, i) != On(b, i))
    {
      XorNatBit(a as nat, b as nat, i);
    }
  }

  lemma XorCancels(a: byte, b: byte)
    ensures Xor(Xor(a, b), b) == a
  {
    XorBits();
    SameBits(Xor(Xor(a, b), b), a);
  }

  lemma XorInjective(a: byte, b: byte, k: byte)
    requires Xor(a, k) == Xor(b, k)
    ensures a == b
  {
    XorCancels(a, k);
    XorCancels(b, k);
  }
}
