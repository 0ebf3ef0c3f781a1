// The example of FIPS-197 appendix C.1, worked out round by round: what the cipher makes of one key and one block.
module AesKnownAnswer {
  import opened Results
  import opened Bytes
  import opened SboxTable
  import opened Aes
  import opened BitVectors

  const KEY: Block := [0x00, 0x01, 0x02, 0x03, 0x04, 0x05, 0x06, 0x07, 0x08, 0x09, 0x0A, 0x0B, 0x0C, 0x0D, 0x0E, 0x0F]
  const INPUT: Block := [0x00, 0x11, 0x22, 0x33, 0x44, 0x55, 0x66, 0x77, 0x88, 0x99, 0xAA, 0xBB, 0xCC, 0xDD, 0xEE, 0xFF]

  // ---------- One step, on given values ----------

  predicate IsXor(a: Word, b: Word, c: Word) {
    && Bits(c.b0) == Bits(a.b0) ^ Bits(b.b0) && Bits(c.b1) == Bits(a.b1) ^ Bits(b.b1)
    && Bits(c.b2) == Bits(a.b2) ^ Bits(b.b2) && Bits(c.b3) == Bits(a.b3) ^ Bits(b.b3)
  }

  lemma XorWordIs(a: Word, b: Word, c: Word)
    requires IsXor(a, b, c)
    ensures XorWord(a, b) == c
  {
    hide Xor;
    hide Bits;
    XorsAsBits();
    SameOctet(Xor(a.b0, b.b0), c.b0);
    SameOctet(Xor(a.b1, b.b1), c.b1);
    SameOctet(Xor(a.b2, b.b2), c.b2);
    SameOctet(Xor(a.b3, b.b3), c.b3);
  }

  // The first word of a round key from that before, substituted and rotated, and the round constant.
  predicate IsFirst(a: Word, core: Word, r: byte, c: Word) {
    && Bits(c.b0) == Bits(a.b0) ^ (Bits(core.b0) ^ Bits(r)) && Bits(c.b1) == Bits(a.b1) ^ Bits(core.b1)
    && Bits(c.b2) == Bits(a.b2) ^ Bits(core.b2) && Bits(c.b3) == Bits(a.b3) ^ Bits(core.b3)
  }

  function Substituted(w: Word): Word {
    SubWord(Word(w.b1, w.b2, w.b3, w.b0))
  }

  lemma FirstIs(a: Word, w: Word, n: nat, c: Word)
    requires 1 <= n <= 10 && IsFirst(a, Substituted(w), RCON[n - 1], c)
    ensures XorWord(a, ScheduleCore(w, n)) == c
  {
    hide Xor;
    hide Sbox;
    hide Bits;
    var core := ScheduleCore(w, n);
    XorsAsBits();
    XorZero(Sbox(w.b2));
    XorZero(Sbox(w.b3));
    XorZero(Sbox(w.b0));
    SameOctet(Xor(a.b0, core.b0), c.b0);
    SameOctet(Xor(a.b1, core.b1), c.b1);
    SameOctet(Xor(a.b2, core.b2), c.b2);
    SameOctet(Xor(a.b3, core.b3), c.b3);
  }

  predicate IsMix(a: byte, b: byte, c: byte, d: byte, m: byte) {
    Bits(m) == Double(Bits(a)) ^ (Double(Bits(b)) ^ Bits(b)) ^ Bits(c) ^ Bits(d)
  }

  lemma MixRowIs(a: byte, b: byte, c: byte, d: byte, m: byte)
    requires IsMix(a, b, c, d, m)
    ensures MixRow(a, b, c, d) == m
  {
    hide Xor;
    hide Xtime;
    hide Bits;
    hide Double;
    hide MixRow;
    MixRowByXtime(a, b, c, d);
    XtimeAsBits(a);
    XtimeAsBits(b);
    XorsAsBits();
    SameOctet(Xor(Xor(Xor(Xtime(a), Xor(Xtime(b), b)), c), d), m);
  }

  predicate IsMixed(w: Word, m: Word) {
    && IsMix(w.b0, w.b1, w.b2, w.b3, m.b0) && IsMix(w.b1, w.b2, w.b3, w.b0, m.b1)
    && IsMix(w.b2, w.b3, w.b0, w.b1, m.b2) && IsMix(w.b3, w.b0, w.b1, w.b2, m.b3)
  }

  lemma MixColumnIs(w: Word, m: Word)
    requires IsMixed(w, m)
    ensures MixColumn(w) == m
  {
    hide MixRow;
    hide IsMix;
    MixRowIs(w.b0, w.b1, w.b2, w.b3, m.b0);
    MixRowIs(w.b1, w.b2, w.b3, w.b0, m.b1);
    MixRowIs(w.b2, w.b3, w.b0, w.b1, m.b2);
    MixRowIs(w.b3, w.b0, w.b1, w.b2, m.b3);
  }

  // ---------- The values of the example ----------

  // The round keys.
  const K0 := State(Word(0x00, 0x01, 0x02, 0x03), Word(0x04, 0x05, 0x06, 0x07),
                    Word(0x08, 0x09, 0x0A, 0x0B), Word(0x0C, 0x0D, 0x0E, 0x0F))
  const K1 := State(Word(0xD6, 0xAA, 0x74, 0xFD), Word(0xD2, 0xAF, 0x72, 0xFA),
                    Word(0xDA, 0xA6, 0x78, 0xF1), Word(0xD6, 0xAB, 0x76, 0xFE))
  const K2 := State(Word(0xB6, 0x92, 0xCF, 0x0B), Word(0x64, 0x3D, 0xBD, 0xF1),
                    Word(0xBE, 0x9B, 0xC5, 0x00), Word(0x68, 0x30, 0xB3, 0xFE))
  const K3 := State(Word(0xB6, 0xFF, 0x74, 0x4E), Word(0xD2, 0xC2, 0xC9, 0xBF),
                    Word(0x6C, 0x59, 0x0C, 0xBF), Word(0x04, 0x69, 0xBF, 0x41))
  const K4 := State(Word(0x47, 0xF7, 0xF7, 0xBC), Word(0x95, 0x35, 0x3E, 0x03),
                    Word(0xF9, 0x6C, 0x32, 0xBC), Word(0xFD, 0x05, 0x8D, 0xFD))
  const K5 := State(Word(0x3C, 0xAA, 0xA3, 0xE8), Word(0xA9, 0x9F, 0x9D, 0xEB),
                    Word(0x50, 0xF3, 0xAF, 0x57), Word(0xAD, 0xF6, 0x22, 0xAA))
  const K6 := State(Word(0x5E, 0x39, 0x0F, 0x7D), Word(0xF7, 0xA6, 0x92, 0x96),
                    Word(0xA7, 0x55, 0x3D, 0xC1), Word(0x0A, 0xA3, 0x1F, 0x6B))
  const K7 := State(Word(0x14, 0xF9, 0x70, 0x1A), Word(0xE3, 0x5F, 0xE2, 0x8C),
                    Word(0x44, 0x0A, 0xDF, 0x4D), Word(0x4E, 0xA9, 0xC0, 0x26))
  const K8 := State(Word(0x47, 0x43, 0x87, 0x35), Word(0xA4, 0x1C, 0x65, 0xB9),
                    Word(0xE0, 0x16, 0xBA, 0xF4), Word(0xAE, 0xBF, 0x7A, 0xD2))
  const K9 := State(Word(0x54, 0x99, 0x32, 0xD1), Word(0xF0, 0x85, 0x57, 0x68),
                    Word(0x10, 0x93, 0xED, 0x9C), Word(0xBE, 0x2C, 0x97, 0x4E))
  const K10 := State(Word(0x13, 0x11, 0x1D, 0x7F), Word(0xE3, 0x94, 0x4A, 0x17),
                     Word(0xF3, 0x07, 0xA7, 0x8B), Word(0x4D, 0x2B, 0x30, 0xC5))

  // The last word of each, rotated and substituted.
  const C0 := Word(0xD7, 0xAB, 0x76, 0xFE)
  const C1 := Word(0x62, 0x38, 0xBB, 0xF6)
  const C2 := Word(0x04, 0x6D, 0xBB, 0x45)
  const C3 := Word(0xF9, 0x08, 0x83, 0xF2)
  const C4 := Word(0x6B, 0x5D, 0x54, 0x54)
  const C5 := Word(0x42, 0x93, 0xAC, 0x95)
  const C6 := Word(0x0A, 0xC0, 0x7F, 0x67)
  const C7 := Word(0xD3, 0xBA, 0xF7, 0x2F)
  const C8 := Word(0x08, 0xDA, 0xB5, 0xE4)
  const C9 := Word(0x71, 0x88, 0x2F, 0xAE)

  // The states after each round, and in it after SubBytes and ShiftRows and after MixColumns.
  const S0 := State(Word(0x00, 0x10, 0x20, 0x30), Word(0x40, 0x50, 0x60, 0x70),
                    Word(0x80, 0x90, 0xA0, 0xB0), Word(0xC0, 0xD0, 0xE0, 0xF0))
  const S1 := State(Word(0x89, 0xD8, 0x10, 0xE8), Word(0x85, 0x5A, 0xCE, 0x68),
                    Word(0x2D, 0x18, 0x43, 0xD8), Word(0xCB, 0x12, 0x8F, 0xE4))
  const S2 := State(Word(0x49, 0x15, 0x59, 0x8F), Word(0x55, 0xE5, 0xD7, 0xA0),
                    Word(0xDA, 0xCA, 0x94, 0xFA), Word(0x1F, 0x0A, 0x63, 0xF7))
  const S3 := State(Word(0xFA, 0x63, 0x6A, 0x28), Word(0x25, 0xB3, 0x39, 0xC9),
                    Word(0x40, 0x66, 0x8A, 0x31), Word(0x57, 0x24, 0x4D, 0x17))
  const S4 := State(Word(0x24, 0x72, 0x40, 0x23), Word(0x69, 0x66, 0xB3, 0xFA),
                    Word(0x6E, 0xD2, 0x75, 0x32), Word(0x88, 0x42, 0x5B, 0x6C))
  const S5 := State(Word(0xC8, 0x16, 0x77, 0xBC), Word(0x9B, 0x7A, 0xC9, 0x3B),
                    Word(0x25, 0x02, 0x79, 0x92), Word(0xB0, 0x26, 0x19, 0x96))
  const S6 := State(Word(0xC6, 0x2F, 0xE1, 0x09), Word(0xF7, 0x5E, 0xED, 0xC3),
                    Word(0xCC, 0x79, 0x39, 0x5D), Word(0x84, 0xF9, 0xCF, 0x5D))
  const S7 := State(Word(0xD1, 0x87, 0x6C, 0x0F), Word(0x79, 0xC4, 0x30, 0x0A),
                    Word(0xB4, 0x55, 0x94, 0xAD), Word(0xD6, 0x6F, 0xF4, 0x1F))
  const S8 := State(Word(0xFD, 0xE3, 0xBA, 0xD2), Word(0x05, 0xE5, 0xD0, 0xD7),
                    Word(0x35, 0x47, 0x96, 0x4E), Word(0xF1, 0xFE, 0x37, 0xF1))
  const S9 := State(Word(0xBD, 0x6E, 0x7C, 0x3D), Word(0xF2, 0xB5, 0x77, 0x9E),
                    Word(0x0B, 0x61, 0x21, 0x6E), Word(0x8B, 0x10, 0xB6, 0x89))
  const S10 := State(Word(0x69, 0xC4, 0xE0, 0xD8), Word(0x6A, 0x7B, 0x04, 0x30),
                     Word(0xD8, 0xCD, 0xB7, 0x80), Word(0x70, 0xB4, 0xC5, 0x5A))

  const T1 := State(Word(0x63, 0x53, 0xE0, 0x8C), Word(0x09, 0x60, 0xE1, 0x04),
                    Word(0xCD, 0x70, 0xB7, 0x51), Word(0xBA, 0xCA, 0xD0, 0xE7))
  const T2 := State(Word(0xA7, 0xBE, 0x1A, 0x69), Word(0x97, 0xAD, 0x73, 0x9B),
                    Word(0xD8, 0xC9, 0xCA, 0x45), Word(0x1F, 0x61, 0x8B, 0x61))
  const T3 := State(Word(0x3B, 0xD9, 0x22, 0x68), Word(0xFC, 0x74, 0xFB, 0x73),
                    Word(0x57, 0x67, 0xCB, 0xE0), Word(0xC0, 0x59, 0x0E, 0x2D))
  const T4 := State(Word(0x2D, 0x6D, 0x7E, 0xF0), Word(0x3F, 0x33, 0xE3, 0x34),
                    Word(0x09, 0x36, 0x02, 0xDD), Word(0x5B, 0xFB, 0x12, 0xC7))
  const T5 := State(Word(0x36, 0x33, 0x9D, 0x50), Word(0xF9, 0xB5, 0x39, 0x26),
                    Word(0x9F, 0x2C, 0x09, 0x2D), Word(0xC4, 0x40, 0x6D, 0x23))
  const T6 := State(Word(0xE8, 0xDA, 0xB6, 0x90), Word(0x14, 0x77, 0xD4, 0x65),
                    Word(0x3F, 0xF7, 0xF5, 0xE2), Word(0xE7, 0x47, 0xDD, 0x4F))
  const T7 := State(Word(0xB4, 0x58, 0x12, 0x4C), Word(0x68, 0xB6, 0x8A, 0x01),
                    Word(0x4B, 0x99, 0xF8, 0x2E), Word(0x5F, 0x15, 0x55, 0x4C))
  const T8 := State(Word(0x3E, 0x1C, 0x22, 0xC0), Word(0xB6, 0xFC, 0xBF, 0x76),
                    Word(0x8D, 0xA8, 0x50, 0x67), Word(0xF6, 0x17, 0x04, 0x95))
  const T9 := State(Word(0x54, 0xD9, 0x90, 0xA1), Word(0x6B, 0xA0, 0x9A, 0xB5),
                    Word(0x96, 0xBB, 0xF4, 0x0E), Word(0xA1, 0x11, 0x70, 0x2F))
  const T10 := State(Word(0x7A, 0xD5, 0xFD, 0xA7), Word(0x89, 0xEF, 0x4E, 0x27),
                     Word(0x2B, 0xCA, 0x10, 0x0B), Word(0x3D, 0x9F, 0xF5, 0x9F))

  const M1 := State(Word(0x5F, 0x72, 0x64, 0x15), Word(0x57, 0xF5, 0xBC, 0x92),
                    Word(0xF7, 0xBE, 0x3B, 0x29), Word(0x1D, 0xB9, 0xF9, 0x1A))
  const M2 := State(Word(0xFF, 0x87, 0x96, 0x84), Word(0x31, 0xD8, 0x6A, 0x51),
                    Word(0x64, 0x51, 0x51, 0xFA), Word(0x77, 0x3A, 0xD0, 0x09))
  const M3 := State(Word(0x4C, 0x9C, 0x1E, 0x66), Word(0xF7, 0x71, 0xF0, 0x76),
                    Word(0x2C, 0x3F, 0x86, 0x8E), Word(0x53, 0x4D, 0xF2, 0x56))
  const M4 := State(Word(0x63, 0x85, 0xB7, 0x9F), Word(0xFC, 0x53, 0x8D, 0xF9),
                    Word(0x97, 0xBE, 0x47, 0x8E), Word(0x75, 0x47, 0xD6, 0x91))
  const M5 := State(Word(0xF4, 0xBC, 0xD4, 0x54), Word(0x32, 0xE5, 0x54, 0xD0),
                    Word(0x75, 0xF1, 0xD6, 0xC5), Word(0x1D, 0xD0, 0x3B, 0x3C))
  const M6 := State(Word(0x98, 0x16, 0xEE, 0x74), Word(0x00, 0xF8, 0x7F, 0x55),
                    Word(0x6B, 0x2C, 0x04, 0x9C), Word(0x8E, 0x5A, 0xD0, 0x36))
  const M7 := State(Word(0xC5, 0x7E, 0x1C, 0x15), Word(0x9A, 0x9B, 0xD2, 0x86),
                    Word(0xF0, 0x5F, 0x4B, 0xE0), Word(0x98, 0xC6, 0x34, 0x39))
  const M8 := State(Word(0xBA, 0xA0, 0x3D, 0xE7), Word(0xA1, 0xF9, 0xB5, 0x6E),
                    Word(0xD5, 0x51, 0x2C, 0xBA), Word(0x5F, 0x41, 0x4D, 0x23))
  const M9 := State(Word(0xE9, 0xF7, 0x4E, 0xEC), Word(0x02, 0x30, 0x20, 0xF6),
                    Word(0x1B, 0xF2, 0xCC, 0xF2), Word(0x35, 0x3C, 0x21, 0xC7))

  const ROUND_KEYS := [K0, K1, K2, K3, K4, K5, K6, K7, K8, K9, K10]
  const CORES := [C0, C1, C2, C3, C4, C5, C6, C7, C8, C9]
  const STATES := [S0, S1, S2, S3, S4, S5, S6, S7, S8, S9, S10]
  const SHIFTED := [T1, T2, T3, T4, T5, T6, T7, T8, T9, T10]
  const MIXED := [M1, M2, M3, M4, M5, M6, M7, M8, M9]

  // ---------- The key schedule ----------

  predicate NextKey(r: byte, k: State, core: Word, next: State) {
    && IsFirst(k.c0, core, r, next.c0) && IsXor(k.c1, next.c0, next.c1)
    && IsXor(k.c2, next.c1, next.c2) && IsXor(k.c3, next.c2, next.c3)
  }

  predicate KeyOk(n: nat)
    requires 1 <= n <= 10
  {
    Substituted(ROUND_KEYS[n - 1].c3) == CORES[n - 1]
    && NextKey(RCON[n - 1], ROUND_KEYS[n - 1], CORES[n - 1], ROUND_KEYS[n])
  }

  lemma Key1()
    ensures Substituted(K0.c3) == C0 && RCON[0] == 0x01
    ensures NextKey(0x01, K0, C0, K1)
  {
  }

  lemma Key2()
    ensures Substituted(K1.c3) == C1 && RCON[1] == 0x02
    ensures NextKey(0x02, K1, C1, K2)
  {
  }

  lemma Key3()
    ensures Substituted(K2.c3) == C2 && RCON[2] == 0x04
    ensures NextKey(0x04, K2, C2, K3)
  {
  }

  lemma Key4()
    ensures Substituted(K3.c3) == C3 && RCON[3] == 0x08
    ensures NextKey(0x08, K3, C3, K4)
  {
  }

  lemma Key5()
    ensures Substituted(K4.c3) == C4 && RCON[4] == 0x10
    ensures NextKey(0x10, K4, C4, K5)
  {
  }

  lemma Key6()
    ensures Substituted(K5.c3) == C5 && RCON[5] == 0x20
    ensures NextKey(0x20, K5, C5, K6)
  {
  }

  lemma Key7()
    ensures Substituted(K6.c3) == C6 && RCON[6] == 0x40
    ensures NextKey(0x40, K6, C6, K7)
  {
  }

  lemma Key8()
    ensures Substituted(K7.c3) == C7 && RCON[7] == 0x80
    ensures NextKey(0x80, K7, C7, K8)
  {
  }

  lemma Key9()
    ensures Substituted(K8.c3) == C8 && RCON[8] == 0x1B
    ensures NextKey(0x1B, K8, C8, K9)
  {
  }

  lemma Key10()
    ensures Substituted(K9.c3) == C9 && RCON[9] == 0x36
    ensures NextKey(0x36, K9, C9, K10)
  {
  }

  lemma EachKeyOk(n: nat)
    requires 1 <= n <= 10
    ensures KeyOk(n)
  {
    hide NextKey;
    hide Substituted;
    if n == 1 {
      Key1();
    } else if n == 2 {
      Key2();
    } else if n == 3 {
      Key3();
    } else if n == 4 {
      Key4();
    } else if n == 5 {
      Key5();
    } else if n == 6 {
      Key6();
    } else if n == 7 {
      Key7();
    } else if n == 8 {
      Key8();
    } else if n == 9 {
      Key9();
    } else {
      Key10();
    }
  }

  lemma KeyWordIs(i: nat)
    requires 4 <= i < 44
    ensures KeyWord(KEY, i) == XorWord(KeyWord(KEY, i - 4),
      if i % 4 == 0 then ScheduleCore(KeyWord(KEY, i - 1), i / 4) else KeyWord(KEY, i - 1))
  {
  }

  lemma NextRoundKey(n: nat, k: State, next: State)
    requires 1 <= n <= 10 && RoundKey(KEY, n - 1) == k && NextKey(RCON[n - 1], k, Substituted(k.c3), next)
    ensures RoundKey(KEY, n) == next
  {
    hide KeyWord;
    hide Substituted;
    hide IsFirst;
    hide IsXor;
    hide XorWord;
    hide ScheduleCore;
    FirstIs(k.c0, k.c3, n, next.c0);
    XorWordIs(k.c1, next.c0, next.c1);
    XorWordIs(k.c2, next.c1, next.c2);
    XorWordIs(k.c3, next.c2, next.c3);
    KeyWordIs(4 * n);
    KeyWordIs(4 * n + 1);
    KeyWordIs(4 * n + 2);
    KeyWordIs(4 * n + 3);
  }

  lemma FirstRoundKey()
    ensures RoundKey(KEY, 0) == ROUND_KEYS[0]
  {
  }

  lemma {:induction false} RoundKeyIs(n: nat)
    requires n <= 10
    ensures RoundKey(KEY, n) == ROUND_KEYS[n]
  {
    hide RoundKey;
    hide NextKey;
    hide Substituted;
    if n == 0 {
      FirstRoundKey();
    } else {
      RoundKeyIs(n - 1);
      EachKeyOk(n);
      NextRoundKey(n, ROUND_KEYS[n - 1], ROUND_KEYS[n]);
    }
  }

  // ---------- The rounds ----------

  predicate IsSum(s: State, k: State, t: State) {
    IsXor(s.c0, k.c0, t.c0) && IsXor(s.c1, k.c1, t.c1) && IsXor(s.c2, k.c2, t.c2) && IsXor(s.c3, k.c3, t.c3)
  }

  lemma AddRoundKeyIs(s: State, k: State, t: State)
    requires IsSum(s, k, t)
    ensures AddRoundKey(s, k) == t
  {
    hide IsXor;
    hide XorWord;
    XorWordIs(s.c0, k.c0, t.c0);
    XorWordIs(s.c1, k.c1, t.c1);
    XorWordIs(s.c2, k.c2, t.c2);
    XorWordIs(s.c3, k.c3, t.c3);
  }

  predicate AllMixed(s: State, m: State) {
    IsMixed(s.c0, m.c0) && IsMixed(s.c1, m.c1) && IsMixed(s.c2, m.c2) && IsMixed(s.c3, m.c3)
  }

  lemma MixColumnsIs(s: State, m: State)
    requires AllMixed(s, m)
    ensures MixColumns(s) == m
  {
    hide IsMixed;
    hide MixColumn;
    MixColumnIs(s.c0, m.c0);
    MixColumnIs(s.c1, m.c1);
    MixColumnIs(s.c2, m.c2);
    MixColumnIs(s.c3, m.c3);
  }

  predicate RoundOk(n: nat)
    requires 1 <= n <= 10
  {
    && ShiftRows(SubBytes(STATES[n - 1])) == SHIFTED[n - 1]
    && (n < 10 ==> AllMixed(SHIFTED[n - 1], MIXED[n - 1]))
    && IsSum(if n < 10 then MIXED[n - 1] else SHIFTED[n - 1], ROUND_KEYS[n], STATES[n])
  }

  lemma Shifted1()
    ensures ShiftRows(SubBytes(S0)) == T1
  {
  }

  lemma Mixed1()
    ensures AllMixed(T1, M1)
  {
  }

  lemma Sum1()
    ensures IsSum(M1, K1, S1)
  {
  }

  lemma Shifted2()
    ensures ShiftRows(SubBytes(S1)) == T2
  {
  }

  lemma Mixed2()
    ensures AllMixed(T2, M2)
  {
  }

  lemma Sum2()
    ensures IsSum(M2, K2, S2)
  {
  }

  lemma Shifted3()
    ensures ShiftRows(SubBytes(S2)) == T3
  {
  }

  lemma Mixed3()
    ensures AllMixed(T3, M3)
  {
  }

  lemma Sum3()
    ensures IsSum(M3, K3, S3)
  {
  }

  lemma Shifted4()
    ensures ShiftRows(SubBytes(S3)) == T4
  {
  }

  lemma Mixed4()
    ensures AllMixed(T4, M4)
  {
  }

  lemma Sum4()
    ensures IsSum(M4, K4, S4)
  {
  }

  lemma Shifted5()
    ensures ShiftRows(SubBytes(S4)) == T5
  {
  }

  lemma Mixed5()
    ensures AllMixed(T5, M5)
  {
  }

  lemma Sum5()
    ensures IsSum(M5, K5, S5)
  {
  }

  lemma Shifted6()
    ensures ShiftRows(SubBytes(S5)) == T6
  {
  }

  lemma Mixed6()
    ensures AllMixed(T6, M6)
  {
  }

  lemma Sum6()
    ensures IsSum(M6, K6, S6)
  {
  }

  lemma Shifted7()
    ensures ShiftRows(SubBytes(S6)) == T7
  {
  }

  lemma Mixed7()
    ensures AllMixed(T7, M7)
  {
  }

  lemma Sum7()
    ensures IsSum(M7, K7, S7)
  {
  }

  lemma Shifted8()
    ensures ShiftRows(SubBytes(S7)) == T8
  {
  }

  lemma Mixed8()
    ensures AllMixed(T8, M8)
  {
  }

  lemma Sum8()
    ensures IsSum(M8, K8, S8)
  {
  }

  lemma Shifted9()
    ensures ShiftRows(SubBytes(S8)) == T9
  {
  }

  lemma Mixed9()
    ensures AllMixed(T9, M9)
  {
  }

  lemma Sum9()
    ensures IsSum(M9, K9, S9)
  {
  }

  lemma Shifted10()
    ensures ShiftRows(SubBytes(S9)) == T10
  {
  }

  lemma Sum10()
    ensures IsSum(T10, K10, S10)
  {
  }

  lemma EachRoundOk(n: nat)
    requires 1 <= n <= 10
    ensures RoundOk(n)
  {
    hide SubBytes;
    hide ShiftRows;
    hide AllMixed;
    hide IsSum;
    if n == 1 {
      Shifted1();
      Mixed1();
      Sum1();
    } else if n == 2 {
      Shifted2();
      Mixed2();
      Sum2();
    } else if n == 3 {
      Shifted3();
      Mixed3();
      Sum3();
    } else if n == 4 {
      Shifted4();
      Mixed4();
      Sum4();
    } else if n == 5 {
      Shifted5();
      Mixed5();
      Sum5();
    } else if n == 6 {
      Shifted6();
      Mixed6();
      Sum6();
    } else if n == 7 {
      Shifted7();
      Mixed7();
      Sum7();
    } else if n == 8 {
      Shifted8();
      Mixed8();
      Sum8();
    } else if n == 9 {
      Shifted9();
      Mixed9();
      Sum9();
    } else {
      Shifted10();
      Sum10();
    }
  }

  lemma RoundZero()
    ensures IsSum(Load(INPUT), ROUND_KEYS[0], STATES[0])
  {
  }

  lemma {:induction false} RoundsAre(n: nat)
    requires n <= 10
    ensures Rounds(KEY, INPUT, n) == STATES[n]
  {
    hide RoundKey;
    hide Load;
    hide ShiftRows;
    hide SubBytes;
    hide MixColumns;
    hide AddRoundKey;
    hide AllMixed;
    hide IsSum;
    RoundKeyIs(n);
    if n == 0 {
      RoundZero();
      AddRoundKeyIs(Load(INPUT), ROUND_KEYS[0], STATES[0]);
    } else {
      RoundsAre(n - 1);
      EachRoundOk(n);
      var mixed := if n < 10 then MIXED[n - 1] else SHIFTED[n - 1];
      if n < 10 {
        MixColumnsIs(SHIFTED[n - 1], mixed);
      }
      AddRoundKeyIs(mixed, ROUND_KEYS[n], STATES[n]);
    }
  }

  // tests/test_snmp_engine.py:175
  lemma KnownAnswer()
    ensures EncryptBlock(KEY, INPUT) == Ok([0x69, 0xC4, 0xE0, 0xD8, 0x6A, 0x7B, 0x04, 0x30,
                                           0xD8, 0xCD, 0xB7, 0x80, 0x70, 0xB4, 0xC5, 0x5A])
  {
    hide Rounds;
    RoundsAre(10);
    LastState();
  }

  lemma LastState()
    ensures Store(STATES[10]) == [0x69, 0xC4, 0xE0, 0xD8, 0x6A, 0x7B, 0x04, 0x30,
                                 0xD8, 0xCD, 0xB7, 0x80, 0x70, 0xB4, 0xC5, 0x5A]
  {
  }
}
