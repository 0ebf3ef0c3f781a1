// The AES S-box table of ingest/aes.py and its inverse (FIPS-197, figures 7 and 14).
module SboxTable {
  import opened Bytes

  const SBOX_0: bytes := [0x63, 0x7C, 0x77, 0x7B, 0xF2, 0x6B, 0x6F, 0xC5, 0x30, 0x01, 0x67, 0x2B, 0xFE, 0xD7, 0xAB, 0x76]
  const SBOX_1: bytes := [0xCA, 0x82, 0xC9, 0x7D, 0xFA, 0x59, 0x47, 0xF0, 0xAD, 0xD4, 0xA2, 0xAF, 0x9C, 0xA4, 0x72, 0xC0]
  const SBOX_2: bytes := [0xB7, 0xFD, 0x93, 0x26, 0x36, 0x3F, 0xF7, 0xCC, 0x34, 0xA5, 0xE5, 0xF1, 0x71, 0xD8, 0x31, 0x15]
  const SBOX_3: bytes := [0x04, 0xC7, 0x23, 0xC3, 0x18, 0x96, 0x05, 0x9A, 0x07, 0x12, 0x80, 0xE2, 0xEB, 0x27, 0xB2, 0x75]
  const SBOX_4: bytes := [0x09, 0x83, 0x2C, 0x1A, 0x1B, 0x6E, 0x5A, 0xA0, 0x52, 0x3B, 0xD6, 0xB3, 0x29, 0xE3, 0x2F, 0x84]
  const SBOX_5: bytes := [0x53, 0xD1, 0x00, 0xED, 0x20, 0xFC, 0xB1, 0x5B, 0x6A, 0xCB, 0xBE, 0x39, 0x4A, 0x4C, 0x58, 0xCF]
  const SBOX_6: bytes := [0xD0, 0xEF, 0xAA, 0xFB, 0x43, 0x4D, 0x33, 0x85, 0x45, 0xF9, 0x02, 0x7F, 0x50, 0x3C, 0x9F, 0xA8]
  const SBOX_7: bytes := [0x51, 0xA3, 0x40, 0x8F, 0x92, 0x9D, 0x38, 0xF5, 0xBC, 0xB6, 0xDA, 0x21, 0x10, 0xFF, 0xF3, 0xD2]
  const SBOX_8: bytes := [0xCD, 0x0C, 0x13, 0xEC, 0x5F, 0x97, 0x44, 0x17, 0xC4, 0xA7, 0x7E, 0x3D, 0x64, 0x5D, 0x19, 0x73]
  const SBOX_9: bytes := [0x60, 0x81, 0x4F, 0xDC, 0x22, 0x2A, 0x90, 0x88, 0x46, 0xEE, 0xB8, 0x14, 0xDE, 0x5E, 0x0B, 0xDB]
  const SBOX_A: bytes := [0xE0, 0x32, 0x3A, 0x0A, 0x49, 0x06, 0x24, 0x5C, 0xC2, 0xD3, 0xAC, 0x62, 0x91, 0x95, 0xE4, 0x79]
  const SBOX_B: bytes := [0xE7, 0xC8, 0x37, 0x6D, 0x8D, 0xD5, 0x4E, 0xA9, 0x6C, 0x56, 0xF4, 0xEA, 0x65, 0x7A, 0xAE, 0x08]
  const SBOX_C: bytes := [0xBA, 0x78, 0x25, 0x2E, 0x1C, 0xA6, 0xB4, 0xC6, 0xE8, 0xDD, 0x74, 0x1F, 0x4B, 0xBD, 0x8B, 0x8A]
  const SBOX_D: bytes := [0x70, 0x3E, 0xB5, 0x66, 0x48, 0x03, 0xF6, 0x0E, 0x61, 0x35, 0x57, 0xB9, 0x86, 0xC1, 0x1D, 0x9E]
  const SBOX_E: bytes := [0xE1, 0xF8, 0x98, 0x11, 0x69, 0xD9, 0x8E, 0x94, 0x9B, 0x1E, 0x87, 0xE9, 0xCE, 0x55, 0x28, 0xDF]
  const SBOX_F: bytes := [0x8C, 0xA1, 0x89, 0x0D, 0xBF, 0xE6, 0x42, 0x68, 0x41, 0x99, 0x2D, 0x0F, 0xB0, 0x54, 0xBB, 0x16]

  // _SBOX[b]
  function Sbox(b: byte): byte {
    var c := b as nat % 16;
    match b as nat / 16
    case 0 => SBOX_0[c]
    case 1 => SBOX_1[c]
    case 2 => SBOX_2[c]
    case 3 => SBOX_3[c]
    case 4 => SBOX_4[c]
    case 5 => SBOX_5[c]
    case 6 => SBOX_6[c]
    case 7 => SBOX_7[c]
    case 8 => SBOX_8[c]
    case 9 => SBOX_9[c]
    case 10 => SBOX_A[c]
    case 11 => SBOX_B[c]
    case 12 => SBOX_C[c]
    case 13 => SBOX_D[c]
    case 14 => SBOX_E[c]
    case _ => SBOX_F[c]
  }

  const INVERSE_0: bytes := [0x52, 0x09, 0x6A, 0xD5, 0x30, 0x36, 0xA5, 0x38, 0xBF, 0x40, 0xA3, 0x9E, 0x81, 0xF3, 0xD7, 0xFB]
  const INVERSE_1: bytes := [0x7C, 0xE3, 0x39, 0x82, 0x9B, 0x2F, 0xFF, 0x87, 0x34, 0x8E, 0x43, 0x44, 0xC4, 0xDE, 0xE9, 0xCB]
  const INVERSE_2: bytes := [0x54, 0x7B, 0x94, 0x32, 0xA6, 0xC2, 0x23, 0x3D, 0xEE, 0x4C, 0x95, 0x0B, 0x42, 0xFA, 0xC3, 0x4E]
  const INVERSE_3: bytes := [0x08, 0x2E, 0xA1, 0x66, 0x28, 0xD9, 0x24, 0xB2, 0x76, 0x5B, 0xA2, 0x49, 0x6D, 0x8B, 0xD1, 0x25]
  const INVERSE_4: bytes := [0x72, 0xF8, 0xF6, 0x64, 0x86, 0x68, 0x98, 0x16, 0xD4, 0xA4, 0x5C, 0xCC, 0x5D, 0x65, 0xB6, 0x92]
  const INVERSE_5: bytes := [0x6C, 0x70, 0x48, 0x50, 0xFD, 0xED, 0xB9, 0xDA, 0x5E, 0x15, 0x46, 0x57, 0xA7, 0x8D, 0x9D, 0x84]
  const INVERSE_6: bytes := [0x90, 0xD8, 0xAB, 0x00, 0x8C, 0xBC, 0xD3, 0x0A, 0xF7, 0xE4, 0x58, 0x05, 0xB8, 0xB3, 0x45, 0x06]
  const INVERSE_7: bytes := [0xD0, 0x2C, 0x1E, 0x8F, 0xCA, 0x3F, 0x0F, 0x02, 0xC1, 0xAF, 0xBD, 0x03, 0x01, 0x13, 0x8A, 0x6B]
  const INVERSE_8: bytes := [0x3A, 0x91, 0x11, 0x41, 0x4F, 0x67, 0xDC, 0xEA, 0x97, 0xF2, 0xCF, 0xCE, 0xF0, 0xB4, 0xE6, 0x73]
  const INVERSE_9: bytes := [0x96, 0xAC, 0x74, 0x22, 0xE7, 0xAD, 0x35, 0x85, 0xE2, 0xF9, 0x37, 0xE8, 0x1C, 0x75, 0xDF, 0x6E]
  const INVERSE_A: bytes := [0x47, 0xF1, 0x1A, 0x71, 0x1D, 0x29, 0xC5, 0x89, 0x6F, 0xB7, 0x62, 0x0E, 0xAA, 0x18, 0xBE, 0x1B]
  const INVERSE_B: bytes := [0xFC, 0x56, 0x3E, 0x4B, 0xC6, 0xD2, 0x79, 0x20, 0x9A, 0xDB, 0xC0, 0xFE, 0x78, 0xCD, 0x5A, 0xF4]
  const INVERSE_C: bytes := [0x1F, 0xDD, 0xA8, 0x33, 0x88, 0x07, 0xC7, 0x31, 0xB1, 0x12, 0x10, 0x59, 0x27, 0x80, 0xEC, 0x5F]
  const INVERSE_D: bytes := [0x60, 0x51, 0x7F, 0xA9, 0x19, 0xB5, 0x4A, 0x0D, 0x2D, 0xE5, 0x7A, 0x9F, 0x93, 0xC9, 0x9C, 0xEF]
  const INVERSE_E: bytes := [0xA0, 0xE0, 0x3B, 0x4D, 0xAE, 0x2A, 0xF5, 0xB0, 0xC8, 0xEB, 0xBB, 0x3C, 0x83, 0x53, 0x99, 0x61]
  const INVERSE_F: bytes := [0x17, 0x2B, 0x04, 0x7E, 0xBA, 0x77, 0xD6, 0x26, 0xE1, 0x69, 0x14, 0x63, 0x55, 0x21, 0x0C, 0x7D]

  // The entry that holds b.
  function InvSbox(b: byte): byte {
    var c := b as nat % 16;
    match b as nat / 16
    case 0 => INVERSE_0[c]
    case 1 => INVERSE_1[c]
    case 2 => INVERSE_2[c]
    case 3 => INVERSE_3[c]
    case 4 => INVERSE_4[c]
    case 5 => INVERSE_5[c]
    case 6 => INVERSE_6[c]
    case 7 => INVERSE_7[c]
    case 8 => INVERSE_8[c]
    case 9 => INVERSE_9[c]
    case 10 => INVERSE_A[c]
    case 11 => INVERSE_B[c]
    case 12 => INVERSE_C[c]
    case 13 => INVERSE_D[c]
    case 14 => INVERSE_E[c]
    case _ => INVERSE_F[c]
  }

  lemma Row0(c: nat)
    requires c < 16
    ensures InvSbox(SBOX_0[c]) as int == 0 + c
  {
  }

  lemma Row1(c: nat)
    requires c < 16
    ensures InvSbox(SBOX_1[c]) as int == 16 + c
  {
  }

  lemma Row2(c: nat)
    requires c < 16
    ensures InvSbox(SBOX_2[c]) as int == 32 + c
  {
  }

  lemma Row3(c: nat)
    requires c < 16
    ensures InvSbox(SBOX_3[c]) as int == 48 + c
  {
  }

  lemma Row4(c: nat)
    requires c < 16
    ensures InvSbox(SBOX_4[c]) as int == 64 + c
  {
  }

  lemma Row5(c: nat)
    requires c < 16
    ensures InvSbox(SBOX_5[c]) as int == 80 + c
  {
  }

  lemma Row6(c: nat)
    requires c < 16
    ensures InvSbox(SBOX_6[c]) as int == 96 + c
  {
  }

  lemma Row7(c: nat)
    requires c < 16
    ensures InvSbox(SBOX_7[c]) as int == 112 + c
  {
  }

  lemma Row8(c: nat)
    requires c < 16
    ensures InvSbox(SBOX_8[c]) as int == 128 + c
  {
  }

  lemma Row9(c: nat)
    requires c < 16
    ensures InvSbox(SBOX_9[c]) as int == 144 + c
  {
  }

  lemma RowA(c: nat)
    requires c < 16
    ensures InvSbox(SBOX_A[c]) as int == 160 + c
  {
  }

  lemma RowB(c: nat)
    requires c < 16
    ensures InvSbox(SBOX_B[c]) as int == 176 + c
  {
  }

  lemma RowC(c: nat)
    requires c < 16
    ensures InvSbox(SBOX_C[c]) as int == 192 + c
  {
  }

  lemma RowD(c: nat)
    requires c < 16
    ensures InvSbox(SBOX_D[c]) as int == 208 + c
  {
  }

  lemma RowE(c: nat)
    requires c < 16
    ensures InvSbox(SBOX_E[c]) as int == 224 + c
  {
  }

  lemma RowF(c: nat)
    requires c < 16
    ensures InvSbox(SBOX_F[c]) as int == 240 + c
  {
  }

  // The table is a permutation of the bytes.
  lemma SboxInvertible(b: byte)
    ensures InvSbox(Sbox(b)) == b
  {
    hide InvSbox;
    var c := b as nat % 16;
    match b as nat / 16 {
      case 0 => Row0(c);
      case 1 => Row1(c);
      case 2 => Row2(c);
      case 3 => Row3(c);
      case 4 => Row4(c);
      case 5 => Row5(c);
      case 6 => Row6(c);
      case 7 => Row7(c);
      case 8 => Row8(c);
      case 9 => Row9(c);
      case 10 => RowA(c);
      case 11 => RowB(c);
      case 12 => RowC(c);
      case 13 => RowD(c);
      case 14 => RowE(c);
      case _ => RowF(c);
    }
  }
}
