/**
 The AES context: the two arrays of round keys that the key schedule fills once and that
 encryption and decryption walk in the same direction.
 */
module AesContext {
  import opened AesTables
  import opened Fips197
  import opened Aes

  const KEY_WORDS := 64

  /** The round constants, in the top byte of a word. */
  const RCON: seq<bv32> := [
    0x01000000, 0x02000000, 0x04000000, 0x08000000, 0x10000000,
    0x20000000, 0x40000000, 0x80000000, 0x1B000000, 0x36000000
  ]

  lemma RconIsPowerOfX(i: nat)
    requires i < 10
    ensures Unpack(RCON[i]) == Rcon(i + 1)
  {
    hide XTime, Unpack;
    assert PowerOfX(1) == 0x02 && PowerOfX(2) == 0x04 by { PowersOfX(); }
    PowersOfX();
    Tops();
  }

  lemma PowersOfX()
    ensures PowerOfX(0) == 0x01 && PowerOfX(1) == 0x02 && PowerOfX(2) == 0x04 && PowerOfX(3) == 0x08
    ensures PowerOfX(4) == 0x10 && PowerOfX(5) == 0x20 && PowerOfX(6) == 0x40 && PowerOfX(7) == 0x80
    ensures PowerOfX(8) == 0x1B && PowerOfX(9) == 0x36
  {
    assert PowerOfX(1) == XTime(PowerOfX(0));
    assert PowerOfX(2) == XTime(PowerOfX(1));
    assert PowerOfX(3) == XTime(PowerOfX(2));
    assert PowerOfX(4) == XTime(PowerOfX(3));
    assert PowerOfX(5) == XTime(PowerOfX(4));
    assert PowerOfX(6) == XTime(PowerOfX(5));
    assert PowerOfX(7) == XTime(PowerOfX(6));
    assert PowerOfX(8) == XTime(PowerOfX(7));
  }

  lemma Tops()
    ensures Unpack(0x01000000) == Col(0x01, 0, 0, 0) && Unpack(0x02000000) == Col(0x02, 0, 0, 0)
    ensures Unpack(0x04000000) == Col(0x04, 0, 0, 0) && Unpack(0x08000000) == Col(0x08, 0, 0, 0)
    ensures Unpack(0x10000000) == Col(0x10, 0, 0, 0) && Unpack(0x20000000) == Col(0x20, 0, 0, 0)
    ensures Unpack(0x40000000) == Col(0x40, 0, 0, 0) && Unpack(0x80000000) == Col(0x80, 0, 0, 0)
    ensures Unpack(0x1B000000) == Col(0x1B, 0, 0, 0) && Unpack(0x36000000) == Col(0x36, 0, 0, 0)
  {
  }

  // ---- words of the key schedule ----

  /** The words of a cipher key, four bytes each. */
  function KeyCols(key: seq<bv8>): (cols: seq<Col>)
    requires |key| % 4 == 0
    ensures |cols| == |key| / 4
  {
    seq(|key| / 4, i requires 0 <= i < |key| / 4 => Col(key[4 * i], key[4 * i + 1], key[4 * i + 2], key[4 * i + 3]))
  }

  function SubRot(w: bv32): bv32 { Place(FSb(Byte1(w)), FSb(Byte2(w)), FSb(Byte3(w)), FSb(Byte0(w))) }
  function SubOnly(w: bv32): bv32 { Place(FSb(Byte0(w)), FSb(Byte1(w)), FSb(Byte2(w)), FSb(Byte3(w))) }

  lemma AddColShuffle(a: Col, b: Col, c: Col)
    ensures AddCol(AddCol(a, b), c) == AddCol(a, AddCol(c, b))
  {
    hide Add;
    forall x: bv8, y: bv8, z: bv8
      ensures Add(Add(x, y), z) == Add(x, Add(z, y))
    {
      AddShuffle(x, y, z);
    }
  }

  lemma AddShuffle(x: bv8, y: bv8, z: bv8)
    ensures Add(Add(x, y), z) == Add(x, Add(z, y))
  {
    assert (x ^ y) ^ z == x ^ (z ^ y);
  }

  /** A word at a multiple of the key length: rotate, substitute, add the round constant. */
  lemma CoreWord(key: seq<Col>, j: nat, back: bv32, prev: bv32, c: nat)
    requires |key| in {4, 6, 8} && j >= |key| && j % |key| == 0 && j / |key| == c + 1 && c < 10
    requires Unpack(back) == ScheduleWord(key, j - |key|) && Unpack(prev) == ScheduleWord(key, j - 1)
    ensures Unpack(Xor(Xor(back, RCON[c]), SubRot(prev))) == ScheduleWord(key, j)
  {
    hide Xor, Place, AddCol, FSb, Byte0, Byte1, Byte2, Byte3, PowerOfX;
    RconIsPowerOfX(c);
    UnpackPlace(FSb(Byte1(prev)), FSb(Byte2(prev)), FSb(Byte3(prev)), FSb(Byte0(prev)));
    UnpackXor(back, RCON[c]);
    UnpackXor(Xor(back, RCON[c]), SubRot(prev));
    AddColShuffle(Unpack(back), Unpack(RCON[c]), Unpack(SubRot(prev)));
  }

  lemma PlainWord(key: seq<Col>, j: nat, back: bv32, prev: bv32)
    requires |key| in {4, 6, 8} && j >= |key| && j % |key| != 0 && !(|key| > 6 && j % |key| == 4)
    requires Unpack(back) == ScheduleWord(key, j - |key|) && Unpack(prev) == ScheduleWord(key, j - 1)
    ensures Unpack(Xor(back, prev)) == ScheduleWord(key, j)
  {
    hide Xor, AddCol, Unpack;
    UnpackXor(back, prev);
  }

  lemma SubbedWord(key: seq<Col>, j: nat, back: bv32, prev: bv32)
    requires |key| == 8 && j >= 8 && j % 8 == 4
    requires Unpack(back) == ScheduleWord(key, j - 8) && Unpack(prev) == ScheduleWord(key, j - 1)
    ensures Unpack(Xor(back, SubOnly(prev))) == ScheduleWord(key, j)
  {
    hide Xor, Place, AddCol, FSb, Byte0, Byte1, Byte2, Byte3;
    UnpackPlace(FSb(Byte0(prev)), FSb(Byte1(prev)), FSb(Byte2(prev)), FSb(Byte3(prev)));
    UnpackXor(back, SubOnly(prev));
  }

  // ---- arrays of round keys ----

  function KeyAt(rk: seq<bv32>, i: nat): Words
    requires 4 * i + 4 <= |rk|
  {
    Words(rk[4 * i], rk[4 * i + 1], rk[4 * i + 2], rk[4 * i + 3])
  }

  function KeyStates(rk: seq<bv32>, nr: nat): (k: seq<State>)
    requires 4 * nr + 4 <= |rk|
    ensures |k| == nr + 1
  {
    seq(nr + 1, i requires 0 <= i <= nr => StateOf(KeyAt(rk, i)))
  }

  /** The first n words of an array follow the schedule of a key. */
  ghost predicate Scheduled(rk: seq<bv32>, key: seq<Col>, n: nat) {
    && |key| in {4, 6, 8}
    && n <= |rk|
    && forall j :: 0 <= j < n ==> Unpack(rk[j]) == ScheduleWord(key, j)
  }

  lemma ScheduledPrefix(rk: seq<bv32>, key: seq<Col>, n: nat)
    requires exists m :: m >= n && Scheduled(rk, key, m)
    ensures Scheduled(rk, key, n)
  {
  }

  lemma ScheduledKeys(rk: seq<bv32>, key: seq<Col>)
    requires |key| in {4, 6, 8}
    requires Scheduled(rk, key, 4 * RoundCount(|key|) + 4)
    ensures KeyStates(rk, RoundCount(|key|)) == RoundKeys(key)
  {
    hide Unpack, ScheduleWord;
  }

  class Context {
    const erk: array<bv32>
    const drk: array<bv32>
    var nr: int

    ghost predicate Valid()
      reads this
    {
      erk.Length == KEY_WORDS && drk.Length == KEY_WORDS && erk != drk
    }

    ghost predicate Ready()
      reads this
    {
      Valid() && nr in {10, 12, 14}
    }

    constructor ()
      ensures Valid() && fresh(erk) && fresh(drk)
    {
      erk := new bv32[KEY_WORDS];
      drk := new bv32[KEY_WORDS];
      nr := 0;
    }

    ghost function EncryptKeys(): (k: seq<State>)
      requires Ready()
      reads this, erk
    {
      KeyStates(erk[..], nr)
    }

    ghost function DecryptKeys(): (k: seq<State>)
      requires Ready()
      reads this, drk
    {
      KeyStates(drk[..], nr)
    }

    /** Stores word n of the schedule. */
    method Append(n: nat, w: bv32, ghost key: seq<Col>)
      requires Valid() && n < KEY_WORDS
      requires Scheduled(erk[..], key, n)
      requires Unpack(w) == ScheduleWord(key, n)
      modifies erk
      ensures Scheduled(erk[..], key, n + 1)
    {
      hide Unpack, ScheduleWord;
      erk[n] := w;
    }

    // RK[n] = RK[back] ^ RCON[c] ^ (RK[prev] substituted and rotated)
    method AppendCore(n: nat, back: nat, c: nat, prev: nat, ghost key: seq<Col>)
      requires Valid() && n < KEY_WORDS && c < 10
      requires Scheduled(erk[..], key, n)
      requires prev == n - 1 && back == n - |key| && n % |key| == 0 && n / |key| == c + 1
      modifies erk
      ensures Scheduled(erk[..], key, n + 1)
    {
      hide Unpack, ScheduleWord, Xor, SubRot;
      CoreWord(key, n, erk[back], erk[prev], c);
      Append(n, Xor(Xor(erk[back], RCON[c]), SubRot(erk[prev])), key);
    }

    // RK[n] = RK[back] ^ RK[prev]
    method AppendPlain(n: nat, back: nat, prev: nat, ghost key: seq<Col>)
      requires Valid() && n < KEY_WORDS
      requires Scheduled(erk[..], key, n)
      requires prev == n - 1 && back == n - |key| && n % |key| != 0 && !(|key| > 6 && n % |key| == 4)
      modifies erk
      ensures Scheduled(erk[..], key, n + 1)
    {
      hide Unpack, ScheduleWord, Xor;
      PlainWord(key, n, erk[back], erk[prev]);
      Append(n, Xor(erk[back], erk[prev]), key);
    }

    // RK[n] = RK[back] ^ (RK[prev] substituted)
    method AppendSubbed(n: nat, back: nat, prev: nat, ghost key: seq<Col>)
      requires Valid() && n < KEY_WORDS && |key| == 8
      requires Scheduled(erk[..], key, n)
      requires prev == n - 1 && back == n - 8 && n % 8 == 4
      modifies erk
      ensures Scheduled(erk[..], key, n + 1)
    {
      hide Unpack, ScheduleWord, Xor, SubOnly;
      SubbedWord(key, n, erk[back], erk[prev]);
      Append(n, Xor(erk[back], SubOnly(erk[prev])), key);
    }

    method Expand128(ghost key: seq<Col>)
      requires Valid() && |key| == 4 && Scheduled(erk[..], key, 4)
      modifies erk
      ensures Scheduled(erk[..], key, 44)
    {
      hide Scheduled;
      var rk := 0;
      for i := 0 to 10
        invariant rk == 4 * i
        invariant Scheduled(erk[..], key, 4 * i + 4)
      {
        AppendCore(rk + 4, rk, i, rk + 3, key);
        AppendPlain(rk + 5, rk + 1, rk + 4, key);
        AppendPlain(rk + 6, rk + 2, rk + 5, key);
        AppendPlain(rk + 7, rk + 3, rk + 6, key);
        rk := rk + 4;
      }
    }

    method Expand192(ghost key: seq<Col>)
      requires Valid() && |key| == 6 && Scheduled(erk[..], key, 6)
      modifies erk
      ensures Scheduled(erk[..], key, 54)
    {
      hide Scheduled;
      var rk := 0;
      for i := 0 to 8
        invariant rk == 6 * i
        invariant Scheduled(erk[..], key, 6 * i + 6)
      {
        AppendCore(rk + 6, rk, i, rk + 5, key);
        AppendPlain(rk + 7, rk + 1, rk + 6, key);
        AppendPlain(rk + 8, rk + 2, rk + 7, key);
        AppendPlain(rk + 9, rk + 3, rk + 8, key);
        AppendPlain(rk + 10, rk + 4, rk + 9, key);
        AppendPlain(rk + 11, rk + 5, rk + 10, key);
        rk := rk + 6;
      }
    }

    method Expand256(ghost key: seq<Col>)
      requires Valid() && |key| == 8 && Scheduled(erk[..], key, 8)
      modifies erk
      ensures Scheduled(erk[..], key, 64)
    {
      hide Scheduled;
      var rk := 0;
      for i := 0 to 7
        invariant rk == 8 * i
        invariant Scheduled(erk[..], key, 8 * i + 8)
      {
        AppendCore(rk + 8, rk, i, rk + 7, key);
        AppendPlain(rk + 9, rk + 1, rk + 8, key);
        AppendPlain(rk + 10, rk + 2, rk + 9, key);
        AppendPlain(rk + 11, rk + 3, rk + 10, key);
        AppendSubbed(rk + 12, rk + 4, rk + 11, key);
        AppendPlain(rk + 13, rk + 5, rk + 12, key);
        AppendPlain(rk + 14, rk + 6, rk + 13, key);
        AppendPlain(rk + 15, rk + 7, rk + 14, key);
        rk := rk + 8;
      }
    }

    /**
     The decryption keys: the round keys in reverse order, those between the first and the
     last passed through the key-schedule tables.
     */
    method DeriveDecryptionKeys()
      requires Ready()
      modifies drk
      ensures EqInvKeys(EncryptKeys(), DecryptKeys())
    {
      hide KColumn, KeyStates, EqInvKeys;
      CopyKey(0, 4 * nr);
      UnmixMiddleKeys();
      CopyKey(4 * nr, 0);
      DerivedKeys(erk[..], drk[..], nr);
    }

    /** rk, the word of erk read next, walks back eight words and forward four. */
    method UnmixMiddleKeys()
      requires Ready()
      modifies drk
      ensures drk[..4] == old(drk[..4])
      ensures forall q :: 4 <= q < 4 * nr ==> drk[q] == KColumn(erk[4 * (nr - q / 4) + q % 4])
    {
      hide KColumn;
      var sk, rk := 4, 4 * nr + 4;
      for i := 1 to nr
        invariant sk == 4 * i && rk == 4 * (nr - i) + 8
        invariant drk[..4] == old(drk[..4])
        invariant forall q :: 4 <= q < 4 * i ==> drk[q] == KColumn(erk[4 * (nr - q / 4) + q % 4])
      {
        rk := rk - 8;
        UnmixKey(sk, rk);
        sk, rk := sk + 4, rk + 4;
      }
    }

    method UnmixKey(sk: nat, rk: nat)
      requires Valid() && sk + 4 <= KEY_WORDS && rk + 4 <= KEY_WORDS
      modifies drk
      ensures forall q :: sk <= q < sk + 4 ==> drk[q] == KColumn(erk[rk + q - sk])
      ensures forall q :: 0 <= q < KEY_WORDS && !(sk <= q < sk + 4) ==> drk[q] == old(drk[q])
    {
      hide KColumn;
      drk[sk] := KColumn(erk[rk]);
      drk[sk + 1] := KColumn(erk[rk + 1]);
      drk[sk + 2] := KColumn(erk[rk + 2]);
      drk[sk + 3] := KColumn(erk[rk + 3]);
    }

    method CopyKey(sk: nat, rk: nat)
      requires Valid() && sk + 4 <= KEY_WORDS && rk + 4 <= KEY_WORDS
      modifies drk
      ensures drk[..] == old(drk[..sk]) + erk[rk..rk + 4] + old(drk[sk + 4..])
    {
      drk[sk], drk[sk + 1], drk[sk + 2], drk[sk + 3] := erk[rk], erk[rk + 1], erk[rk + 2], erk[rk + 3];
    }

    /** Returns 0 and fills the context, or returns 1 and leaves it as it was. */
    method SetKey(key: array<bv8>, nbits: int) returns (r: int)
      requires Valid()
      requires nbits in {128, 192, 256} ==> 8 * key.Length == nbits
      modifies this, erk, drk
      ensures Valid()
      ensures r == if nbits in {128, 192, 256} then 0 else 1
      ensures r == 0 ==> Ready() && nr == RoundCount(nbits / 32)
      ensures r == 0 ==> EncryptKeys() == RoundKeys(KeyCols(key[..]))
      ensures r == 0 ==> EqInvKeys(EncryptKeys(), DecryptKeys())
      ensures r == 1 ==> nr == old(nr) && erk[..] == old(erk[..]) && drk[..] == old(drk[..])
    {
      match nbits {
        case 128 => nr := 10;
        case 192 => nr := 12;
        case 256 => nr := 14;
        case _ => return 1;
      }
      hide Scheduled, EqInvKeys, RoundKeys;
      ghost var cols := KeyCols(key[..]);
      LoadKey(key, nbits);
      match nbits {
        case 128 => Expand128(cols);
        case 192 => Expand192(cols);
        case _ => Expand256(cols);
      }
      ScheduledPrefix(erk[..], cols, 4 * nr + 4);
      ScheduledKeys(erk[..], cols);
      DeriveDecryptionKeys();
      return 0;
    }

    method LoadKey(key: array<bv8>, nbits: int)
      requires Valid() && nbits in {128, 192, 256} && 8 * key.Length == nbits
      modifies erk
      ensures Scheduled(erk[..], KeyCols(key[..]), nbits / 32)
    {
      ghost var cols := KeyCols(key[..]);
      for i := 0 to nbits / 32
        invariant Scheduled(erk[..], cols, i)
      {
        hide Unpack, Pack;
        var c := Col(key[4 * i], key[4 * i + 1], key[4 * i + 2], key[4 * i + 3]);
        UnpackPack(c);
        Append(i, Pack(c), cols);
      }
    }

    /** AES_FROUND number i. */
    method ForwardRound(i: nat, y: Words, ghost s: State) returns (x: Words)
      requires Ready() && 1 <= i < nr
      requires StateOf(y) == Rounds(s, EncryptKeys(), i - 1)
      ensures StateOf(x) == Rounds(s, EncryptKeys(), i)
    {
      hide FRound, StateOf, AddRoundKey, MixColumns, ShiftRows, SubBytes;
      var k := KeyAt(erk[..], i);
      x := FRound(k, y);
      FRoundIsARound(k, y);
    }

    /** AES_RROUND number i. */
    method BackwardRound(i: nat, y: Words, ghost s: State) returns (x: Words)
      requires Ready() && 1 <= i < nr
      requires StateOf(y) == EqInvRounds(s, DecryptKeys(), i - 1)
      ensures StateOf(x) == EqInvRounds(s, DecryptKeys(), i)
    {
      hide RRound, StateOf, AddRoundKey, InvMixColumns, InvShiftRows, InvSubBytes;
      var k := KeyAt(drk[..], i);
      x := RRound(k, y);
      RRoundIsAnInverseRound(k, y);
    }

    method ForwardStart(input: array<bv8>) returns (x: Words)
      requires Ready() && input.Length == 16
      ensures StateOf(x) == Rounds(BlockState(input[..]), EncryptKeys(), 0)
    {
      hide StateOf, AddRoundKey, BlockState, XorWords;
      x := GetBlock(input);
      var k := KeyAt(erk[..], 0);
      XorWordsAdds(x, k);
      x := XorWords(x, k);
    }

    method ForwardLast(y: Words, output: array<bv8>, ghost s: State)
      requires Ready() && output.Length == 16
      requires StateOf(y) == Rounds(s, EncryptKeys(), nr - 1)
      modifies output
      ensures BlockState(output[..]) == Cipher(s, EncryptKeys())
    {
      hide StateOf, AddRoundKey, MixColumns, ShiftRows, SubBytes, BlockState, FLastRound, Rounds;
      var k := KeyAt(erk[..], nr);
      LastRounds(k, y);
      PutBlock(FLastRound(k, y), output);
    }

    /** input and output may be the same array. */
    method Encrypt(input: array<bv8>, output: array<bv8>)
      requires Ready() && input.Length == 16 && output.Length == 16
      modifies output
      ensures BlockState(output[..]) == Cipher(old(BlockState(input[..])), EncryptKeys())
    {
      hide StateOf, BlockState, Rounds, Cipher, KeyStates;
      ghost var s := BlockState(input[..]);
      var x := ForwardStart(input);
      var y := ForwardRound(1, x, s);
      x := ForwardRound(2, y, s);
      y := ForwardRound(3, x, s);
      x := ForwardRound(4, y, s);
      y := ForwardRound(5, x, s);
      x := ForwardRound(6, y, s);
      y := ForwardRound(7, x, s);
      x := ForwardRound(8, y, s);
      y := ForwardRound(9, x, s);
      if nr > 10 {
        x := ForwardRound(10, y, s);
        y := ForwardRound(11, x, s);
      }
      if nr > 12 {
        x := ForwardRound(12, y, s);
        y := ForwardRound(13, x, s);
      }
      ForwardLast(y, output, s);
    }

    method BackwardStart(input: array<bv8>) returns (x: Words)
      requires Ready() && input.Length == 16
      ensures StateOf(x) == EqInvRounds(BlockState(input[..]), DecryptKeys(), 0)
    {
      hide StateOf, AddRoundKey, BlockState, XorWords;
      x := GetBlock(input);
      var k := KeyAt(drk[..], 0);
      XorWordsAdds(x, k);
      x := XorWords(x, k);
    }

    method BackwardLast(y: Words, output: array<bv8>, ghost s: State)
      requires Ready() && output.Length == 16
      requires StateOf(y) == EqInvRounds(s, DecryptKeys(), nr - 1)
      modifies output
      ensures BlockState(output[..]) == EqInvCipher(s, DecryptKeys())
    {
      hide StateOf, AddRoundKey, InvMixColumns, InvShiftRows, InvSubBytes, BlockState, RLastRound, EqInvRounds;
      var k := KeyAt(drk[..], nr);
      LastRounds(k, y);
      PutBlock(RLastRound(k, y), output);
    }

    /** input and output may be the same array. */
    method Decrypt(input: array<bv8>, output: array<bv8>)
      requires Ready() && input.Length == 16 && output.Length == 16
      modifies output
      ensures BlockState(output[..]) == EqInvCipher(old(BlockState(input[..])), DecryptKeys())
    {
      hide StateOf, BlockState, EqInvRounds, EqInvCipher, KeyStates;
      ghost var s := BlockState(input[..]);
      var x := BackwardStart(input);
      var y := BackwardRound(1, x, s);
      x := BackwardRound(2, y, s);
      y := BackwardRound(3, x, s);
      x := BackwardRound(4, y, s);
      y := BackwardRound(5, x, s);
      x := BackwardRound(6, y, s);
      y := BackwardRound(7, x, s);
      x := BackwardRound(8, y, s);
      y := BackwardRound(9, x, s);
      if nr > 10 {
        x := BackwardRound(10, y, s);
        y := BackwardRound(11, x, s);
      }
      if nr > 12 {
        x := BackwardRound(12, y, s);
        y := BackwardRound(13, x, s);
      }
      BackwardLast(y, output, s);
    }
  }

  /**
   What the routines are for: under any key of 128, 192 or 256 bits, decryption gives back
   the block that encryption was given, and what encryption gave is the cipher of FIPS 197.
   */
  method EncryptThenDecrypt(key: array<bv8>, nbits: int, plain: array<bv8>)
    returns (cipher: array<bv8>, back: array<bv8>)
    requires nbits in {128, 192, 256} && 8 * key.Length == nbits && plain.Length == 16
    ensures cipher.Length == 16 && back.Length == 16
    ensures BlockState(cipher[..]) == Cipher(BlockState(plain[..]), RoundKeys(KeyCols(key[..])))
    ensures back[..] == plain[..]
  {
    hide BlockState, Cipher, EqInvCipher, InvCipher, RoundKeys, EqInvKeys;
    var ctx := new Context();
    cipher, back := new bv8[16], new bv8[16];
    var r := ctx.SetKey(key, nbits);
    ghost var k, d := ctx.EncryptKeys(), ctx.DecryptKeys();
    ctx.Encrypt(plain, cipher);
    ctx.Decrypt(cipher, back);
    EqInvCipherIsInvCipher(BlockState(cipher[..]), k, d);
    InvCipherInvertsCipher(BlockState(plain[..]), k);
    BlockStateInjective(back[..], plain[..]);
  }

  /** The words copied and unmixed by the loop are the keys of the equivalent inverse cipher. */
  lemma DerivedKeys(erk: seq<bv32>, drk: seq<bv32>, nr: nat)
    requires nr >= 1 && 4 * nr + 4 <= |erk| == |drk|
    requires drk[..4] == erk[4 * nr..4 * nr + 4] && drk[4 * nr..4 * nr + 4] == erk[..4]
    requires forall q :: 4 <= q < 4 * nr ==> drk[q] == KColumn(erk[4 * (nr - q / 4) + q % 4])
    ensures EqInvKeys(KeyStates(erk, nr), KeyStates(drk, nr))
  {
    hide KColumn, StateOf, KeyAt, InvMixColumns;
    forall i | 0 < i < nr
      ensures StateOf(KeyAt(drk, i)) == InvMixColumns(StateOf(KeyAt(erk, nr - i)))
    {
      DerivedKey(erk, drk, nr, i);
    }
    SameKey(drk, 0, erk, nr);
    SameKey(drk, nr, erk, 0);
  }

  lemma DerivedKey(erk: seq<bv32>, drk: seq<bv32>, nr: nat, i: nat)
    requires 0 < i < nr && 4 * nr + 4 <= |erk| == |drk|
    requires forall q :: 4 <= q < 4 * nr ==> drk[q] == KColumn(erk[4 * (nr - q / 4) + q % 4])
    ensures StateOf(KeyAt(drk, i)) == InvMixColumns(StateOf(KeyAt(erk, nr - i)))
  {
    hide KColumn, Unpack, InvMixCol;
    var m := 4 * (nr - i);
    assert drk[4 * i] == KColumn(erk[m]);
    assert drk[4 * i + 1] == KColumn(erk[m + 1]);
    assert drk[4 * i + 2] == KColumn(erk[m + 2]);
    assert drk[4 * i + 3] == KColumn(erk[m + 3]);
    KColumnUnmixes(erk[m]);
    KColumnUnmixes(erk[m + 1]);
    KColumnUnmixes(erk[m + 2]);
    KColumnUnmixes(erk[m + 3]);
  }

  lemma SameKey(a: seq<bv32>, i: nat, b: seq<bv32>, j: nat)
    requires 4 * i + 4 <= |a| && 4 * j + 4 <= |b|
    requires a[4 * i..4 * i + 4] == b[4 * j..4 * j + 4]
    ensures KeyAt(a, i) == KeyAt(b, j)
  {
    var x, y := a[4 * i..4 * i + 4], b[4 * j..4 * j + 4];
    assert x[0] == y[0] && x[1] == y[1] && x[2] == y[2] && x[3] == y[3];
  }
}
