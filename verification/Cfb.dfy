// 128-bit CFB mode, for any block function: RFC 3826 sections 3.1.2.1 to 3.1.4 and the loops of ingest/aes.py.
module Cfb {
  import opened Results
  import opened Bytes
  import opened Aes

  type BlockFunction = f: bytes -> bytes | forall x :: |f(x)| == 16 witness x => Zeros(16)

  // zip stops at the shorter argument.
  function XorSeq(a: bytes, k: bytes): (r: bytes)
    ensures |r| == if |a| <= |k| then |a| else |k|
  {
    if a == [] || k == [] then [] else [Xor(a[0], k[0])] + XorSeq(a[1..], k[1..])
  }

  function Encrypt(f: BlockFunction, iv: bytes, plain: bytes): (cipher: bytes)
    decreases |plain|
  {
    if |plain| <= 16 then XorSeq(plain, f(iv))
    else
      var seg := XorSeq(plain[..16], f(iv));
      seg + Encrypt(f, seg, plain[16..])
  }

  function Decrypt(f: BlockFunction, iv: bytes, cipher: bytes): (plain: bytes)
    decreases |cipher|
  {
    if |cipher| <= 16 then XorSeq(cipher, f(iv))
    else XorSeq(cipher[..16], f(iv)) + Decrypt(f, cipher[..16], cipher[16..])
  }

  // ---------- Encryption and decryption undo each other ----------

  lemma {:induction false} XorSeqCancels(a: bytes, k: bytes)
    requires |a| <= |k|
    ensures XorSeq(XorSeq(a, k), k) == a
  {
    if a != [] {
      XorCancels(a[0], k[0]);
      XorSeqCancels(a[1..], k[1..]);
      assert XorSeq(a, k)[1..] == XorSeq(a[1..], k[1..]);
    }
  }

  lemma {:induction false} LengthPreserved(f: BlockFunction, iv: bytes, s: bytes)
    ensures |Encrypt(f, iv, s)| == |s| && |Decrypt(f, iv, s)| == |s|
    decreases |s|
  {
    if |s| > 16 {
      LengthPreserved(f, XorSeq(s[..16], f(iv)), s[16..]);
      LengthPreserved(f, s[..16], s[16..]);
    }
  }

  lemma EncryptSplit(f: BlockFunction, iv: bytes, seg: bytes, rest: bytes)
    requires |seg| == 16 && rest != []
    ensures Encrypt(f, iv, seg + rest) == XorSeq(seg, f(iv)) + Encrypt(f, XorSeq(seg, f(iv)), rest)
  {
    hide XorSeq;
    assert (seg + rest)[..16] == seg && (seg + rest)[16..] == rest;
  }

  lemma DecryptSplit(f: BlockFunction, iv: bytes, seg: bytes, rest: bytes)
    requires |seg| == 16 && rest != []
    ensures Decrypt(f, iv, seg + rest) == XorSeq(seg, f(iv)) + Decrypt(f, seg, rest)
  {
    hide XorSeq;
    assert (seg + rest)[..16] == seg && (seg + rest)[16..] == rest;
  }

  lemma {:induction false} DecryptEncrypt(f: BlockFunction, iv: bytes, plain: bytes)
    ensures Decrypt(f, iv, Encrypt(f, iv, plain)) == plain
    decreases |plain|
  {
    hide XorSeq;
    if |plain| <= 16 {
      XorSeqCancels(plain, f(iv));
    } else {
      var seg := XorSeq(plain[..16], f(iv));
      var rest := Encrypt(f, seg, plain[16..]);
      XorSeqCancels(plain[..16], f(iv));
      LengthPreserved(f, seg, plain[16..]);
      DecryptEncrypt(f, seg, plain[16..]);
      DecryptSplit(f, iv, seg, rest);
      assert plain[..16] + plain[16..] == plain;
    }
  }

  lemma {:induction false} EncryptDecrypt(f: BlockFunction, iv: bytes, cipher: bytes)
    ensures Encrypt(f, iv, Decrypt(f, iv, cipher)) == cipher
    decreases |cipher|
  {
    hide XorSeq;
    if |cipher| <= 16 {
      XorSeqCancels(cipher, f(iv));
    } else {
      var seg := XorSeq(cipher[..16], f(iv));
      var rest := Decrypt(f, cipher[..16], cipher[16..]);
      XorSeqCancels(cipher[..16], f(iv));
      LengthPreserved(f, cipher[..16], cipher[16..]);
      EncryptDecrypt(f, cipher[..16], cipher[16..]);
      EncryptSplit(f, iv, seg, rest);
      assert cipher[..16] + cipher[16..] == cipher;
    }
  }

  // ---------- Streaming ----------

  lemma {:induction false} XorSeqPrefix(a: bytes, k: bytes, n: nat)
    requires n <= |a| <= |k|
    ensures XorSeq(a[..n], k) == XorSeq(a, k)[..n]
  {
    if n > 0 {
      XorSeqPrefix(a[1..], k[1..], n - 1);
      assert a[..n][1..] == a[1..][..n - 1];
      assert XorSeq(a, k)[..n] == [Xor(a[0], k[0])] + XorSeq(a[1..], k[1..])[..n - 1];
    }
  }

  lemma PrefixWithinBlock(f: BlockFunction, iv: bytes, plain: bytes, n: nat)
    requires n <= 16 && n <= |plain| && |Encrypt(f, iv, plain)| == |plain|
    ensures Encrypt(f, iv, plain[..n]) == Encrypt(f, iv, plain)[..n]
  {
    hide XorSeq;
    var head := if |plain| <= 16 then plain else plain[..16];
    XorSeqPrefix(head, f(iv), n);
    assert plain[..n] == head[..n];
    assert Encrypt(f, iv, plain)[..n] == XorSeq(head, f(iv))[..n];
  }

  // Encrypting a prefix gives the prefix of the ciphertext.
  lemma {:induction false} EncryptPrefix(f: BlockFunction, iv: bytes, plain: bytes, n: nat)
    requires n <= |plain|
    ensures |Encrypt(f, iv, plain)| == |plain|
    ensures Encrypt(f, iv, plain[..n]) == Encrypt(f, iv, plain)[..n]
    decreases |plain|
  {
    hide *;
    LengthPreserved(f, iv, plain);
    if n <= 16 {
      PrefixWithinBlock(f, iv, plain, n);
    } else {
      var head, tail := plain[..16], plain[16..];
      var seg := XorSeq(head, f(iv));
      EncryptPrefix(f, seg, tail, n - 16);
      EncryptSplit(f, iv, head, tail);
      EncryptSplit(f, iv, head, tail[..n - 16]);
      assert plain == head + tail && plain[..n] == head + tail[..n - 16];
      TakePast(seg, Encrypt(f, seg, tail), n);
    }
  }

  lemma TakePast(a: bytes, b: bytes, n: nat)
    requires |a| <= n <= |a| + |b|
    ensures (a + b)[..n] == a + b[..n - |a|]
  {
  }

  // ---------- Error propagation ----------

  // The ciphertext block that the keystream of block b is computed from.
  function Feedback(iv: bytes, cipher: bytes, b: nat): bytes
    requires 16 * b <= |cipher|
  {
    if b == 0 then iv else cipher[16 * (b - 1)..16 * b]
  }

  lemma {:induction false} XorSeqAt(a: bytes, k: bytes, i: nat)
    requires i < |a| && i < |k|
    ensures XorSeq(a, k)[i] == Xor(a[i], k[i])
  {
    if i > 0 {
      XorSeqAt(a[1..], k[1..], i - 1);
    }
  }

  // Plaintext byte i of block b: the ciphertext byte against a keystream that
  // depends on the previous ciphertext block only.
  lemma {:induction false} DecryptAt(f: BlockFunction, iv: bytes, cipher: bytes, b: nat, i: nat)
    requires i < 16 && 16 * b + i < |cipher|
    ensures |Decrypt(f, iv, cipher)| == |cipher|
    ensures Decrypt(f, iv, cipher)[16 * b + i] == Xor(cipher[16 * b + i], f(Feedback(iv, cipher, b))[i])
    decreases b
  {
    LengthPreserved(f, iv, cipher);
    hide XorSeq;
    hide Xor;
    if b == 0 {
      XorSeqAt(if |cipher| <= 16 then cipher else cipher[..16], f(iv), i);
    } else {
      DecryptAt(f, cipher[..16], cipher[16..], b - 1, i);
      FeedbackShift(iv, cipher, b);
      hide Feedback;
      var k := 16 * (b - 1) + i;
      assert 16 * b + i == 16 + k;
      var head := XorSeq(cipher[..16], f(iv));
      BlockLength(cipher[..16], f(iv));
      assert Decrypt(f, iv, cipher) == head + Decrypt(f, cipher[..16], cipher[16..]);
      hide Decrypt;
      AfterAt(head, Decrypt(f, cipher[..16], cipher[16..]), k);
      assert cipher[16 + k] == cipher[16..][k];
    }
  }

  lemma AfterAt(head: bytes, rest: bytes, k: nat)
    requires |head| == 16 && k < |rest|
    ensures (head + rest)[16 + k] == rest[k]
  {
  }

  lemma BlockLength(a: bytes, k: bytes)
    requires |a| <= |k|
    ensures |XorSeq(a, k)| == |a|
  {
  }

  lemma FeedbackShift(iv: bytes, cipher: bytes, b: nat)
    requires b > 0 && 16 * b <= |cipher|
    ensures Feedback(cipher[..16], cipher[16..], b - 1) == Feedback(iv, cipher, b)
  {
    if b > 1 {
      var lo, hi := 16 * (b - 2), 16 * (b - 1);
      assert cipher[16..][lo..hi] == cipher[lo + 16..hi + 16];
    }
  }

  predicate AgreeOutside(c: bytes, d: bytes, k: nat) {
    |c| == |d| && forall j :: 0 <= j < |c| && !(16 * k <= j < 16 * (k + 1)) ==> c[j] == d[j]
  }

  lemma SameFeedback(iv: bytes, c: bytes, d: bytes, k: nat, b: nat)
    requires AgreeOutside(c, d, k) && b != k + 1 && 16 * b <= |c|
    ensures Feedback(iv, c, b) == Feedback(iv, d, b)
  {
    if b > 0 {
      forall j | 16 * (b - 1) <= j < 16 * b
        ensures c[j] == d[j]
      {
      }
      assert c[16 * (b - 1)..16 * b] == d[16 * (b - 1)..16 * b];
    }
  }

  // Changing ciphertext block k alters plaintext blocks k and k+1 only, and
  // block k by exactly the same difference.
  lemma ErrorStaysLocal(f: BlockFunction, iv: bytes, c: bytes, d: bytes, k: nat, b: nat, i: nat)
    requires AgreeOutside(c, d, k)
    requires i < 16 && 16 * b + i < |c|
    ensures |Decrypt(f, iv, c)| == |Decrypt(f, iv, d)| == |c|
    ensures b != k && b != k + 1 ==> Decrypt(f, iv, c)[16 * b + i] == Decrypt(f, iv, d)[16 * b + i]
    ensures b == k ==>
      Xor(Decrypt(f, iv, c)[16 * b + i], Decrypt(f, iv, d)[16 * b + i]) == Xor(c[16 * b + i], d[16 * b + i])
  {
    DecryptAt(f, iv, c, b, i);
    DecryptAt(f, iv, d, b, i);
    hide Decrypt;
    hide Xor;
    hide Feedback;
    if b != k + 1 {
      SameFeedback(iv, c, d, k, b);
      XorPads(c[16 * b + i], d[16 * b + i], f(Feedback(iv, c, b))[i]);
    }
  }

  lemma XorPads(a: byte, b: byte, k: byte)
    ensures Xor(Xor(a, k), Xor(b, k)) == Xor(a, b)
  {
    XorBits();
    hide Xor;
    SameBits(Xor(Xor(a, k), Xor(b, k)), Xor(a, b));
  }

  // ---------- AES-128 in this mode ----------

  // The cipher, made total: the source only ever calls it on 16 bytes.
  function CipherTotal(key: Block, x: bytes): Block {
    if |x| == 16 then Cipher(key, x) else Zeros(16)
  }

  function AesFunction(key: Block): BlockFunction {
    hide CipherTotal;
    (x: bytes) => CipherTotal(key, x)
  }

  // The first block raises ValueError when the key is not 16 bytes; no block is
  // processed, and nothing raised, when there is no data.
  function AesCfbEncrypt(key: bytes, iv: bytes, plain: bytes): Result<bytes> {
    if |iv| != 16 then Err(ValueError)
    else if plain == [] then Ok([])
    else if |key| != 16 then Err(ValueError)
    else Ok(Encrypt(AesFunction(key), iv, plain))
  }

  function AesCfbDecrypt(key: bytes, iv: bytes, cipher: bytes): Result<bytes> {
    if |iv| != 16 then Err(ValueError)
    else if cipher == [] then Ok([])
    else if |key| != 16 then Err(ValueError)
    else Ok(Decrypt(AesFunction(key), iv, cipher))
  }

  lemma AesCfbRoundTrip(key: bytes, iv: bytes, plain: bytes)
    requires AesCfbEncrypt(key, iv, plain).Ok?
    ensures AesCfbDecrypt(key, iv, AesCfbEncrypt(key, iv, plain).value) == Ok(plain)
    ensures |AesCfbEncrypt(key, iv, plain).value| == |plain|
  {
    hide Encrypt;
    hide Decrypt;
    hide AesFunction;
    if plain != [] {
      LengthPreserved(AesFunction(key), iv, plain);
      DecryptEncrypt(AesFunction(key), iv, plain);
    }
  }

  lemma EncryptUnrolls(f: BlockFunction, iv: bytes, out: bytes, rest: bytes)
    requires rest != []
    ensures var seg := if |rest| <= 16 then rest else rest[..16];
      var c := XorSeq(seg, f(iv));
      out + Encrypt(f, iv, rest) == (out + c) + (if |rest| <= 16 then [] else Encrypt(f, c, rest[16..]))
  {
  }

  lemma DecryptUnrolls(f: BlockFunction, iv: bytes, out: bytes, rest: bytes)
    requires rest != []
    ensures var seg := if |rest| <= 16 then rest else rest[..16];
      out + Decrypt(f, iv, rest)
        == (out + XorSeq(seg, f(iv))) + (if |rest| <= 16 then [] else Decrypt(f, seg, rest[16..]))
  {
  }

  lemma SliceIsTake(s: bytes, i: nat)
    requires i < |s|
    ensures Slice(s, i, i + 16) == if |s[i..]| <= 16 then s[i..] else s[i..][..16]
    ensures |s[i..]| > 16 ==> i + 16 <= |s| && s[i..][16..] == s[i + 16..]
    ensures |s[i..]| == 16 ==> s[i + 16..] == []
  {
  }

  method Aes128CfbEncrypt(key: bytes, iv: bytes, plain: bytes) returns (r: Result<bytes>)
    ensures r == AesCfbEncrypt(key, iv, plain)
  {
    hide Encrypt;
    hide Cipher;
    hide XorSeq;
    if |iv| != 16 {
      return Err(ValueError);
    }
    var out: bytes := [];
    var feedback := iv;
    var i := 0;
    while i < |plain|
      invariant |feedback| == 16 && (i > 0 ==> |key| == 16)
      invariant i < |plain| && |key| == 16 ==>
        Encrypt(AesFunction(key), iv, plain) == out + Encrypt(AesFunction(key), feedback, plain[i..])
      invariant i >= |plain| && plain != [] ==> Encrypt(AesFunction(key), iv, plain) == out
      invariant plain == [] ==> out == []
      decreases |plain| - i
    {
      var block := Aes128EncryptBlock(key, feedback);
      if block.Err? {
        return Err(block.error);
      }
      var keystream := block.value;
      var seg := Slice(plain, i, i + 16);
      var cipherSeg := XorSeq(seg, keystream);
      SliceIsTake(plain, i);
      EncryptUnrolls(AesFunction(key), feedback, out, plain[i..]);
      out := out + cipherSeg;
      if |cipherSeg| == 16 {
        feedback := cipherSeg;
      }
      i := i + 16;
    }
    return Ok(out);
  }

  method Aes128CfbDecrypt(key: bytes, iv: bytes, cipher: bytes) returns (r: Result<bytes>)
    ensures r == AesCfbDecrypt(key, iv, cipher)
  {
    hide Decrypt;
    hide Cipher;
    hide XorSeq;
    if |iv| != 16 {
      return Err(ValueError);
    }
    var out: bytes := [];
    var feedback := iv;
    var i := 0;
    while i < |cipher|
      invariant |feedback| == 16 && (i > 0 ==> |key| == 16)
      invariant i < |cipher| && |key| == 16 ==>
        Decrypt(AesFunction(key), iv, cipher) == out + Decrypt(AesFunction(key), feedback, cipher[i..])
      invariant i >= |cipher| && cipher != [] ==> Decrypt(AesFunction(key), iv, cipher) == out
      invariant cipher == [] ==> out == []
      decreases |cipher| - i
    {
      var block := Aes128EncryptBlock(key, feedback);
      if block.Err? {
        return Err(block.error);
      }
      var keystream := block.value;
      var seg := Slice(cipher, i, i + 16);
      var plainSeg := XorSeq(seg, keystream);
      SliceIsTake(cipher, i);
      DecryptUnrolls(AesFunction(key), feedback, out, cipher[i..]);
      out := out + plainSeg;
      if |seg| == 16 {
        feedback := seg;
      }
      i := i + 16;
    }
    return Ok(out);
  }
}
