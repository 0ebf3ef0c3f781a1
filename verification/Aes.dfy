// AES-128 as FIPS-197 section 5 defines it, and the in-place loops of
// ingest/aes.py proved to compute it.
module Aes {
  import opened Results
  import opened Bytes
  import opened SboxTable

  const RCON: bytes := [0x01, 0x02, 0x04, 0x08, 0x10, 0x20, 0x40, 0x80, 0x1B, 0x36]

  function Xtime(a: byte): byte {
    var s := 2 * a as nat;
    if s >= 0x100 then
      XorNatBelow512(s);
      (XorNat(s, 0x1B) % 0x100) as byte
    else s as byte
  }

  lemma XorNatBelow512(s: nat)
    requires s < 512
    ensures XorNat(s, 0x1B) < 512
  {
    Pow2Of8();
    XorNatBound(s, 0x1B, 9);
  }

  // ---------- FIPS-197: the state is four columns of four bytes ----------

  datatype Word = Word(b0: byte, b1: byte, b2: byte, b3: byte) {
    function At(r: nat): byte
      requires r < 4
    {
      if r == 0 then b0 else if r == 1 then b1 else if r == 2 then b2 else b3
    }
  }

  datatype State = State(c0: Word, c1: Word, c2: Word, c3: Word) {
    function Column(c: nat): Word
      requires c < 4
    {
      if c == 0 then c0 else if c == 1 then c1 else if c == 2 then c2 else c3
    }

    // The byte the source calls state[r][c].
    function Cell(r: nat, c: nat): byte
      requires r < 4 && c < 4
    {
      Column(c).At(r)
    }
  }

  function XorWord(a: Word, b: Word): Word {
    Word(Xor(a.b0, b.b0), Xor(a.b1, b.b1), Xor(a.b2, b.b2), Xor(a.b3, b.b3))
  }

  function SubWord(w: Word): Word {
    Word(Sbox(w.b0), Sbox(w.b1), Sbox(w.b2), Sbox(w.b3))
  }

  function SubBytes(s: State): State {
    State(SubWord(s.c0), SubWord(s.c1), SubWord(s.c2), SubWord(s.c3))
  }

  // Section 5.1.2: row r moves r places to the left.
  function ShiftRows(s: State): State {
    State(
      Word(s.c0.b0, s.c1.b1, s.c2.b2, s.c3.b3),
      Word(s.c1.b0, s.c2.b1, s.c3.b2, s.c0.b3),
      Word(s.c2.b0, s.c3.b1, s.c0.b2, s.c1.b3),
      Word(s.c3.b0, s.c0.b1, s.c1.b2, s.c2.b3))
  }

  // Section 4.2: multiplication in GF(2^8), by doubling.
  function GfMul(a: byte, b: nat): byte
    decreases b
  {
    if b == 0 then 0
    else Xor(if b % 2 == 1 then a else 0, GfMul(Xtime(a), b / 2))
  }

  // Section 5.1.3: one row of the matrix, {02} {03} {01} {01} against a rotated column.
  function MixRow(a: byte, b: byte, c: byte, d: byte): byte {
    Xor(Xor(GfMul(a, 2), GfMul(b, 3)), Xor(c, d))
  }

  function MixColumn(w: Word): Word {
    Word(
      MixRow(w.b0, w.b1, w.b2, w.b3),
      MixRow(w.b1, w.b2, w.b3, w.b0),
      MixRow(w.b2, w.b3, w.b0, w.b1),
      MixRow(w.b3, w.b0, w.b1, w.b2))
  }

  function MixColumns(s: State): State {
    State(MixColumn(s.c0), MixColumn(s.c1), MixColumn(s.c2), MixColumn(s.c3))
  }

  function AddRoundKey(s: State, k: State): State {
    State(XorWord(s.c0, k.c0), XorWord(s.c1, k.c1), XorWord(s.c2, k.c2), XorWord(s.c3, k.c3))
  }

  type Block = s: bytes | |s| == 16 witness Zeros(16)

  function WordOf(s: bytes, i: nat): Word
    requires i + 4 <= |s|
  {
    Word(s[i], s[i + 1], s[i + 2], s[i + 3])
  }

  // Section 3.4: the input fills the state column by column.
  function Load(block: Block): State {
    State(WordOf(block, 0), WordOf(block, 4), WordOf(block, 8), WordOf(block, 12))
  }

  function WordBytes(w: Word): bytes {
    [w.b0, w.b1, w.b2, w.b3]
  }

  function Store(s: State): Block {
    WordBytes(s.c0) + WordBytes(s.c1) + WordBytes(s.c2) + WordBytes(s.c3)
  }

  // SubWord(RotWord(temp)) xor Rcon[n]
  function ScheduleCore(temp: Word, n: nat): Word
    requires 1 <= n <= 10
  {
    XorWord(SubWord(Word(temp.b1, temp.b2, temp.b3, temp.b0)), Word(RCON[n - 1], 0, 0, 0))
  }

  // Section 5.2: word i of the key schedule.
  function KeyWord(key: Block, i: nat): Word
    requires i < 44
  {
    if i < 4 then WordOf(key, 4 * i)
    else
      var temp := KeyWord(key, i - 1);
      XorWord(KeyWord(key, i - 4), if i % 4 == 0 then ScheduleCore(temp, i / 4) else temp)
  }

  function RoundKey(key: Block, round: nat): State
    requires round <= 10
  {
    State(KeyWord(key, 4 * round), KeyWord(key, 4 * round + 1), KeyWord(key, 4 * round + 2),
          KeyWord(key, 4 * round + 3))
  }

  // Figure 5: the state after the given number of rounds.
  function Rounds(key: Block, input: Block, n: nat): State
    requires n <= 10
  {
    if n == 0 then AddRoundKey(Load(input), RoundKey(key, 0))
    else
      var s := ShiftRows(SubBytes(Rounds(key, input, n - 1)));
      AddRoundKey(if n == 10 then s else MixColumns(s), RoundKey(key, n))
  }

  function Cipher(key: Block, input: Block): Block {
    Store(Rounds(key, input, 10))
  }

  // ---------- aes128_encrypt_block ----------

  function EncryptBlock(key: bytes, block: bytes): Result<bytes> {
    if |block| != 16 || |key| != 16 then Err(ValueError) else Ok(Cipher(key, block))
  }

  // The matrix state[row][col] of the source, column by column.
  function Flat(state: array2<byte>): State
    requires state.Length0 == 4 && state.Length1 == 4
    reads state
  {
    State(ColumnOf(state, 0), ColumnOf(state, 1), ColumnOf(state, 2), ColumnOf(state, 3))
  }

  function ColumnOf(state: array2<byte>, c: nat): Word
    requires state.Length0 == 4 && state.Length1 == 4 && c < 4
    reads state
  {
    Word(state[0, c], state[1, c], state[2, c], state[3, c])
  }

  lemma FlatCells(state: array2<byte>)
    requires state.Length0 == 4 && state.Length1 == 4
    ensures forall r, c :: 0 <= r < 4 && 0 <= c < 4 ==> state[r, c] == Flat(state).Cell(r, c)
  {
  }

  lemma SameState(s: State, t: State)
    requires forall r, c :: 0 <= r < 4 && 0 <= c < 4 ==> s.Cell(r, c) == t.Cell(r, c)
    ensures s == t
  {
    SameColumn(s, t, 0);
    SameColumn(s, t, 1);
    SameColumn(s, t, 2);
    SameColumn(s, t, 3);
  }

  lemma SameColumn(s: State, t: State, c: nat)
    requires c < 4
    requires forall r, c :: 0 <= r < 4 && 0 <= c < 4 ==> s.Cell(r, c) == t.Cell(r, c)
    ensures s.Column(c) == t.Column(c)
  {
    assert s.Cell(0, c) == t.Cell(0, c);
    assert s.Cell(1, c) == t.Cell(1, c);
    assert s.Cell(2, c) == t.Cell(2, c);
    assert s.Cell(3, c) == t.Cell(3, c);
  }

  lemma FlatIs(state: array2<byte>, s: State)
    requires state.Length0 == 4 && state.Length1 == 4
    requires forall r, c :: 0 <= r < 4 && 0 <= c < 4 ==> state[r, c] == s.Cell(r, c)
    ensures Flat(state) == s
  {
    FlatCells(state);
    SameState(Flat(state), s);
  }

  method AddRoundKeyInPlace(state: array2<byte>, rk: State)
    requires state.Length0 == 4 && state.Length1 == 4
    modifies state
    ensures Flat(state) == AddRoundKey(old(Flat(state)), rk)
  {
    hide Xor;
    ghost var s := Flat(state);
    ghost var t := AddRoundKey(s, rk);
    FlatCells(state);
    for r := 0 to 4
      invariant forall i, j :: 0 <= i < 4 && 0 <= j < 4 ==> state[i, j] == if i < r then t.Cell(i, j) else s.Cell(i, j)
    {
      for c := 0 to 4
        invariant forall i, j :: 0 <= i < 4 && 0 <= j < 4 ==>
          state[i, j] == if i < r || (i == r && j < c) then t.Cell(i, j) else s.Cell(i, j)
      {
        assert t.Cell(r, c) == Xor(s.Cell(r, c), rk.Cell(r, c));
        state[r, c] := Xor(state[r, c], rk.Cell(r, c));
      }
    }
    FlatIs(state, t);
  }

  method SubBytesInPlace(state: array2<byte>)
    requires state.Length0 == 4 && state.Length1 == 4
    modifies state
    ensures Flat(state) == SubBytes(old(Flat(state)))
  {
    hide Sbox;
    ghost var s := Flat(state);
    ghost var t := SubBytes(s);
    FlatCells(state);
    for r := 0 to 4
      invariant forall i, j :: 0 <= i < 4 && 0 <= j < 4 ==> state[i, j] == if i < r then t.Cell(i, j) else s.Cell(i, j)
    {
      for c := 0 to 4
        invariant forall i, j :: 0 <= i < 4 && 0 <= j < 4 ==>
          state[i, j] == if i < r || (i == r && j < c) then t.Cell(i, j) else s.Cell(i, j)
      {
        assert t.Cell(r, c) == Sbox(s.Cell(r, c));
        state[r, c] := Sbox(state[r, c]);
      }
    }
    FlatIs(state, t);
  }

  // Row r of the shifted state is row r rotated left by r.
  lemma ShiftRowsRow(s: State, r: nat)
    requires r < 4
    ensures var row := [s.Cell(r, 0), s.Cell(r, 1), s.Cell(r, 2), s.Cell(r, 3)];
      var t := ShiftRows(s);
      row[r..] + row[..r] == [t.Cell(r, 0), t.Cell(r, 1), t.Cell(r, 2), t.Cell(r, 3)]
  {
  }

  // The body of the row loop: state[r] = state[r][r:] + state[r][:r].
  method RotateRow(state: array2<byte>, r: nat)
    requires state.Length0 == 4 && state.Length1 == 4 && r < 4
    modifies state
    ensures forall i, j :: 0 <= i < 4 && 0 <= j < 4 ==>
      state[i, j] == if i == r then ShiftRows(old(Flat(state))).Cell(i, j) else old(state[i, j])
  {
    ghost var s := Flat(state);
    FlatCells(state);
    ShiftRowsRow(s, r);
    hide ShiftRows;
    var row := [state[r, 0], state[r, 1], state[r, 2], state[r, 3]];
    row := row[r..] + row[..r];
    state[r, 0], state[r, 1], state[r, 2], state[r, 3] := row[0], row[1], row[2], row[3];
  }

  // A row of the shifted state depends on that row only.
  lemma ShiftRowsByRow(s: State, t: State, r: nat)
    requires r < 4
    requires forall c :: 0 <= c < 4 ==> s.Cell(r, c) == t.Cell(r, c)
    ensures forall c :: 0 <= c < 4 ==> ShiftRows(s).Cell(r, c) == ShiftRows(t).Cell(r, c)
  {
    assert s.Cell(r, 0) == t.Cell(r, 0) && s.Cell(r, 1) == t.Cell(r, 1);
    assert s.Cell(r, 2) == t.Cell(r, 2) && s.Cell(r, 3) == t.Cell(r, 3);
  }

  method ShiftRowsInPlace(state: array2<byte>)
    requires state.Length0 == 4 && state.Length1 == 4
    modifies state
    ensures Flat(state) == ShiftRows(old(Flat(state)))
  {
    ghost var s := Flat(state);
    ghost var t := ShiftRows(s);
    FlatCells(state);
    ShiftRowsRow(s, 0);
    hide ShiftRows;
    for r := 1 to 4
      invariant forall i, j :: 0 <= i < 4 && 0 <= j < 4 ==> state[i, j] == if i < r then t.Cell(i, j) else s.Cell(i, j)
    {
      FlatCells(state);
      ShiftRowsByRow(Flat(state), s, r);
      RotateRow(state, r);
    }
    FlatIs(state, t);
  }

  lemma GfMulSmall(a: byte)
    ensures GfMul(a, 2) == Xtime(a)
    ensures GfMul(a, 3) == Xor(Xtime(a), a)
  {
    hide Xtime;
    assert GfMul(Xtime(a), 1) == Xor(Xtime(a), 0);
    XorBits();
    hide Xor;
    SameBits(Xor(0, Xor(Xtime(a), 0)), Xtime(a)) by {
      ZeroBits();
    }
    SameBits(Xor(a, Xor(Xtime(a), 0)), Xor(Xtime(a), a)) by {
      ZeroBits();
    }
  }

  lemma ZeroBits()
    ensures forall i: nat {:trigger On(0, i)} :: !On(0, i)
  {
    forall i: nat
      ensures !On(0, i)
    {
      ZeroBit(i);
    }
  }

  // The four lines of the MixColumns loop are the four rows of the matrix.
  lemma MixRowByXtime(a: byte, b: byte, c: byte, d: byte)
    ensures MixRow(a, b, c, d) == Xor(Xor(Xor(Xtime(a), Xor(Xtime(b), b)), c), d)
    ensures MixRow(a, b, c, d) == Xor(Xor(Xor(d, Xtime(a)), Xor(Xtime(b), b)), c)
    ensures MixRow(a, b, c, d) == Xor(Xor(Xor(c, d), Xtime(a)), Xor(Xtime(b), b))
    ensures MixRow(a, b, c, d) == Xor(Xor(Xor(Xor(Xtime(b), b), c), d), Xtime(a))
  {
    GfMulSmall(a);
    GfMulSmall(b);
    XorBits();
    hide Xor;
    hide Xtime;
    hide GfMul;
    var m := MixRow(a, b, c, d);
    SameBits(m, Xor(Xor(Xor(Xtime(a), Xor(Xtime(b), b)), c), d));
    SameBits(m, Xor(Xor(Xor(d, Xtime(a)), Xor(Xtime(b), b)), c));
    SameBits(m, Xor(Xor(Xor(c, d), Xtime(a)), Xor(Xtime(b), b)));
    SameBits(m, Xor(Xor(Xor(Xor(Xtime(b), b), c), d), Xtime(a)));
  }

  lemma MixColumnByXtime(a0: byte, a1: byte, a2: byte, a3: byte)
    ensures MixColumn(Word(a0, a1, a2, a3)) == Word(
      Xor(Xor(Xor(Xtime(a0), Xor(Xtime(a1), a1)), a2), a3),
      Xor(Xor(Xor(a0, Xtime(a1)), Xor(Xtime(a2), a2)), a3),
      Xor(Xor(Xor(a0, a1), Xtime(a2)), Xor(Xtime(a3), a3)),
      Xor(Xor(Xor(Xor(Xtime(a0), a0), a1), a2), Xtime(a3)))
  {
    hide Xor;
    hide Xtime;
    hide MixRow;
    MixRowByXtime(a0, a1, a2, a3);
    MixRowByXtime(a1, a2, a3, a0);
    MixRowByXtime(a2, a3, a0, a1);
    MixRowByXtime(a3, a0, a1, a2);
  }

  // The body of the column loop.
  method MixColumnInPlace(state: array2<byte>, c: nat)
    requires state.Length0 == 4 && state.Length1 == 4 && c < 4
    modifies state
    ensures ColumnOf(state, c) == MixColumn(old(ColumnOf(state, c)))
    ensures forall j: nat :: j < 4 && j != c ==> ColumnOf(state, j) == old(ColumnOf(state, j))
  {
    hide Xor;
    hide Xtime;
    hide MixColumn;
    var a0, a1, a2, a3 := state[0, c], state[1, c], state[2, c], state[3, c];
    MixColumnByXtime(a0, a1, a2, a3);
    state[0, c] := Xor(Xor(Xor(Xtime(a0), Xor(Xtime(a1), a1)), a2), a3);
    state[1, c] := Xor(Xor(Xor(a0, Xtime(a1)), Xor(Xtime(a2), a2)), a3);
    state[2, c] := Xor(Xor(Xor(a0, a1), Xtime(a2)), Xor(Xtime(a3), a3));
    state[3, c] := Xor(Xor(Xor(Xor(Xtime(a0), a0), a1), a2), Xtime(a3));
  }

  method MixColumnsInPlace(state: array2<byte>)
    requires state.Length0 == 4 && state.Length1 == 4
    modifies state
    ensures Flat(state) == MixColumns(old(Flat(state)))
  {
    hide MixColumn;
    hide ColumnOf;
    ghost var s := Flat(state);
    for c := 0 to 4
      invariant forall j: nat :: j < 4 ==> ColumnOf(state, j) == if j < c then MixColumn(s.Column(j)) else s.Column(j)
    {
      MixColumnInPlace(state, c);
    }
  }

  lemma XorZero(a: byte)
    ensures Xor(a, 0) == a
  {
    XorBits();
    ZeroBits();
    hide Xor;
    SameBits(Xor(a, 0), a);
  }

  // One turn of the word loop of _expand_key.
  method NextWord(words: seq<Word>, i: nat) returns (w: Word)
    requires 4 <= i == |words| < 44
    ensures w == XorWord(words[i - 4], if i % 4 == 0 then ScheduleCore(words[i - 1], i / 4) else words[i - 1])
  {
    hide Sbox;
    hide Xor;
    var temp := words[i - 1];
    if i % 4 == 0 {
      temp := Word(temp.b1, temp.b2, temp.b3, temp.b0);
      temp := Word(Sbox(temp.b0), Sbox(temp.b1), Sbox(temp.b2), Sbox(temp.b3));
      temp := temp.(b0 := Xor(temp.b0, RCON[i / 4 - 1]));
      XorZero(temp.b1);
      XorZero(temp.b2);
      XorZero(temp.b3);
    }
    w := XorWord(words[i - 4], temp);
  }

  method ExpandKey(key: Block) returns (roundKeys: seq<State>)
    ensures |roundKeys| == 11
    ensures forall n :: 0 <= n < 11 ==> roundKeys[n] == RoundKey(key, n)
  {
    hide XorWord;
    hide ScheduleCore;
    var words := [WordOf(key, 0), WordOf(key, 4), WordOf(key, 8), WordOf(key, 12)];
    for i := 4 to 44
      invariant |words| == i
      invariant forall k :: 0 <= k < i ==> words[k] == KeyWord(key, k)
    {
      var w := NextWord(words, i);
      words := words + [w];
    }
    roundKeys := GroupWords(key, words);
  }

  method GroupWords(ghost key: Block, words: seq<Word>) returns (roundKeys: seq<State>)
    requires |words| == 44
    requires forall k :: 0 <= k < 44 ==> words[k] == KeyWord(key, k)
    ensures |roundKeys| == 11
    ensures forall n :: 0 <= n < 11 ==> roundKeys[n] == RoundKey(key, n)
  {
    hide KeyWord;
    roundKeys := [];
    for r := 0 to 11
      invariant |roundKeys| == r
      invariant forall n :: 0 <= n < r ==> roundKeys[n] == RoundKey(key, n)
    {
      var rk := State(words[r * 4], words[r * 4 + 1], words[r * 4 + 2], words[r * 4 + 3]);
      roundKeys := roundKeys + [rk];
    }
  }

  method Aes128EncryptBlock(key: bytes, block: bytes) returns (r: Result<bytes>)
    ensures r == EncryptBlock(key, block)
  {
    hide AddRoundKey;
    hide SubBytes;
    hide ShiftRows;
    hide MixColumns;
    hide RoundKey;
    hide Store;
    if |block| != 16 {
      return Err(ValueError);
    }
    if |key| != 16 {
      return Err(ValueError);
    }
    var roundKeys := ExpandKey(key);
    var state := ToState(block);
    AddRoundKeyInPlace(state, roundKeys[0]);
    for rnd := 1 to 11
      invariant Flat(state) == Rounds(key, block, rnd - 1)
    {
      SubBytesInPlace(state);
      ShiftRowsInPlace(state);
      if rnd != 10 {
        MixColumnsInPlace(state);
      }
      AddRoundKeyInPlace(state, roundKeys[rnd]);
    }
    var out := FromState(state);
    return Ok(out);
  }

  // _to_state
  method ToState(block: Block) returns (state: array2<byte>)
    ensures fresh(state) && state.Length0 == 4 && state.Length1 == 4
    ensures Flat(state) == Load(block)
  {
    state := new byte[4, 4]((r, c) requires 0 <= r < 4 && 0 <= c < 4 => block[c * 4 + r]);
  }

  // _from_state
  method FromState(state: array2<byte>) returns (block: bytes)
    requires state.Length0 == 4 && state.Length1 == 4
    ensures block == Store(Flat(state))
  {
    hide Flat;
    hide Store;
    var out := new byte[16](_ => 0);
    for r := 0 to 4
      invariant forall i, j :: 0 <= i < r && 0 <= j < 4 ==> out[Index(i, j)] == state[i, j]
    {
      for c := 0 to 4
        invariant forall i, j :: 0 <= i < r && 0 <= j < 4 ==> out[Index(i, j)] == state[i, j]
        invariant forall j :: 0 <= j < c ==> out[Index(r, j)] == state[r, j]
      {
        out[Index(r, c)] := state[r, c];
      }
    }
    block := out[..];
    FlatCells(state);
    StoreCells(block, Flat(state));
  }

  function Index(r: nat, c: nat): nat
    requires r < 4 && c < 4
    ensures Index(r, c) < 16
  {
    c * 4 + r
  }

  lemma StoreCells(block: Block, s: State)
    requires forall r, c :: 0 <= r < 4 && 0 <= c < 4 ==> block[Index(r, c)] == s.Cell(r, c)
    ensures block == Store(s)
  {
    StoreColumn(block, s, 0);
    StoreColumn(block, s, 1);
    StoreColumn(block, s, 2);
    StoreColumn(block, s, 3);
    assert block == block[0..4] + block[4..8] + block[8..12] + block[12..16];
  }

  lemma StoreColumn(block: Block, s: State, c: nat)
    requires c < 4
    requires forall r, c :: 0 <= r < 4 && 0 <= c < 4 ==> block[Index(r, c)] == s.Cell(r, c)
    ensures block[4 * c..4 * c + 4] == WordBytes(s.Column(c))
  {
    assert block[Index(0, c)] == s.Cell(0, c);
    assert block[Index(1, c)] == s.Cell(1, c);
    assert block[Index(2, c)] == s.Cell(2, c);
    assert block[Index(3, c)] == s.Cell(3, c);
  }
}
