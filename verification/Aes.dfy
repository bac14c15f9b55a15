/**
 The AES routines of the wireless driver: table-driven rounds on 32-bit words, with the
 decryption keys prepared once by the key schedule. They are proved to compute the cipher
 and the inverse cipher of FIPS 197.
 */
module Aes {
  import opened AesTables
  import opened Fips197

  // ---- words and bytes ----

  function Byte0(w: bv32): bv8 { (w >> 24) as bv8 }
  function Byte1(w: bv32): bv8 { ((w >> 16) & 0xFF) as bv8 }
  function Byte2(w: bv32): bv8 { ((w >> 8) & 0xFF) as bv8 }
  function Byte3(w: bv32): bv8 { (w & 0xFF) as bv8 }

  /** Most significant byte first, as GET_UINT32 reads a word. */
  function Pack(c: Col): bv32 {
    (c.b0 as bv32 << 24) | (c.b1 as bv32 << 16) | (c.b2 as bv32 << 8) | c.b3 as bv32
  }

  /** As PUT_UINT32 writes a word. */
  function Unpack(w: bv32): Col {
    Col(Byte0(w), Byte1(w), Byte2(w), Byte3(w))
  }

  lemma UnpackPack(c: Col)
    ensures Unpack(Pack(c)) == c
  {
  }

  function Xor(v: bv32, w: bv32): bv32 { v ^ w }

  function Xor4(u: bv32, v: bv32, w: bv32, x: bv32): bv32 { Xor(Xor(Xor(u, v), w), x) }

  lemma BytesOfXor(v: bv32, w: bv32)
    ensures Byte0(v ^ w) == Add(Byte0(v), Byte0(w))
    ensures Byte1(v ^ w) == Add(Byte1(v), Byte1(w))
    ensures Byte2(v ^ w) == Add(Byte2(v), Byte2(w))
    ensures Byte3(v ^ w) == Add(Byte3(v), Byte3(w))
  {
  }

  lemma UnpackXor(v: bv32, w: bv32)
    ensures Unpack(Xor(v, w)) == AddCol(Unpack(v), Unpack(w))
  {
    hide Byte0, Byte1, Byte2, Byte3, Add;
    BytesOfXor(v, w);
  }

  lemma UnpackRespell(w: bv32)
    ensures Unpack(Respell(w)) == Col(Byte3(w), Byte0(w), Byte1(w), Byte2(w))
  {
  }

  // ---- what the table entries hold ----

  // Byte by byte, over all 256 entries; equality as two inequalities.

  lemma Forward0(x: bv8)
    ensures Byte0(FT0(x)) <= Mul2(FSb(x)) <= Byte0(FT0(x))
  {
  }

  lemma Forward1(x: bv8)
    ensures Byte1(FT0(x)) <= FSb(x) <= Byte1(FT0(x))
  {
  }

  lemma Forward2(x: bv8)
    ensures Byte2(FT0(x)) <= FSb(x) <= Byte2(FT0(x))
  {
  }

  lemma Forward3(x: bv8)
    ensures Byte3(FT0(x)) <= Mul3(FSb(x)) <= Byte3(FT0(x))
  {
  }

  lemma Reverse0(x: bv8)
    ensures Byte0(RT0(x)) <= MulE(RSb(x)) <= Byte0(RT0(x))
  {
  }

  lemma Reverse1(x: bv8)
    ensures Byte1(RT0(x)) <= Mul9(RSb(x)) <= Byte1(RT0(x))
  {
  }

  lemma Reverse2(x: bv8)
    ensures Byte2(RT0(x)) <= MulD(RSb(x)) <= Byte2(RT0(x))
  {
  }

  lemma Reverse3(x: bv8)
    ensures Byte3(RT0(x)) <= MulB(RSb(x)) <= Byte3(RT0(x))
  {
  }

  lemma Squeezed(a: bv8, b: bv8)
    requires a <= b <= a
    ensures a == b
  {
  }

  lemma ForwardBytes(x: bv8)
    ensures Byte0(FT0(x)) == Mul2(FSb(x)) && Byte1(FT0(x)) == Byte2(FT0(x)) == FSb(x) && Byte3(FT0(x)) == Mul3(FSb(x))
  {
    hide FT0, FSb, Byte0, Byte1, Byte2, Byte3, Mul2, Mul3;
    Squeezed(Byte0(FT0(x)), Mul2(FSb(x))) by { Forward0(x); }
    Squeezed(Byte1(FT0(x)), FSb(x)) by { Forward1(x); }
    Squeezed(Byte2(FT0(x)), FSb(x)) by { Forward2(x); }
    Squeezed(Byte3(FT0(x)), Mul3(FSb(x))) by { Forward3(x); }
  }

  lemma ReverseBytes(x: bv8)
    ensures Byte0(RT0(x)) == MulE(RSb(x)) && Byte1(RT0(x)) == Mul9(RSb(x))
    ensures Byte2(RT0(x)) == MulD(RSb(x)) && Byte3(RT0(x)) == MulB(RSb(x))
  {
    hide RT0, RSb, Byte0, Byte1, Byte2, Byte3, Mul9, MulB, MulD, MulE;
    Squeezed(Byte0(RT0(x)), MulE(RSb(x))) by { Reverse0(x); }
    Squeezed(Byte1(RT0(x)), Mul9(RSb(x))) by { Reverse1(x); }
    Squeezed(Byte2(RT0(x)), MulD(RSb(x))) by { Reverse2(x); }
    Squeezed(Byte3(RT0(x)), MulB(RSb(x))) by { Reverse3(x); }
  }

  lemma ForwardEntries(x: bv8)
    ensures var s := FSb(x);
            && Unpack(FT0(x)) == Col(Mul2(s), s, s, Mul3(s))
            && Unpack(FT1(x)) == Col(Mul3(s), Mul2(s), s, s)
            && Unpack(FT2(x)) == Col(s, Mul3(s), Mul2(s), s)
            && Unpack(FT3(x)) == Col(s, s, Mul3(s), Mul2(s))
  {
    hide FT0, FSb, Byte0, Byte1, Byte2, Byte3, Mul2, Mul3, Respell;
    ForwardBytes(x);
    UnpackRespell(FT0(x));
    UnpackRespell(FT1(x));
    UnpackRespell(FT2(x));
  }

  lemma ReverseEntries(x: bv8)
    ensures var r := RSb(x);
            && Unpack(RT0(x)) == Col(MulE(r), Mul9(r), MulD(r), MulB(r))
            && Unpack(RT1(x)) == Col(MulB(r), MulE(r), Mul9(r), MulD(r))
            && Unpack(RT2(x)) == Col(MulD(r), MulB(r), MulE(r), Mul9(r))
            && Unpack(RT3(x)) == Col(Mul9(r), MulD(r), MulB(r), MulE(r))
  {
    hide RT0, RSb, Byte0, Byte1, Byte2, Byte3, Mul9, MulB, MulD, MulE, Respell;
    ReverseBytes(x);
    UnpackRespell(RT0(x));
    UnpackRespell(RT1(x));
    UnpackRespell(RT2(x));
  }

  // ---- one column of a round ----

  function FColumn(k: bv32, y0: bv32, y1: bv32, y2: bv32, y3: bv32): bv32 {
    Xor(Xor4(k, FT0(Byte0(y0)), FT1(Byte1(y1)), FT2(Byte2(y2))), FT3(Byte3(y3)))
  }

  function RColumn(k: bv32, y0: bv32, y1: bv32, y2: bv32, y3: bv32): bv32 {
    Xor(Xor4(k, RT0(Byte0(y0)), RT1(Byte1(y1)), RT2(Byte2(y2))), RT3(Byte3(y3)))
  }

  function KColumn(w: bv32): bv32 {
    Xor4(KT0(Byte0(w)), KT1(Byte1(w)), KT2(Byte2(w)), KT3(Byte3(w)))
  }

  /** Four bytes placed in their columns of a word, as the last round and the key schedule do. */
  function Place(a: bv8, b: bv8, c: bv8, d: bv8): bv32 {
    (a as bv32 << 24) ^ (b as bv32 << 16) ^ (c as bv32 << 8) ^ d as bv32
  }

  lemma UnpackPlace(a: bv8, b: bv8, c: bv8, d: bv8)
    ensures Unpack(Place(a, b, c, d)) == Col(a, b, c, d)
  {
  }

  lemma KeyLast(k: bv8, a: bv8, b: bv8, c: bv8, d: bv8)
    ensures Add(Add(Add(Add(k, a), b), c), d) == Add(Add4(a, b, c, d), k)
  {
    assert (((k ^ a) ^ b) ^ c) ^ d == (((a ^ b) ^ c) ^ d) ^ k;
  }

  lemma KeyLastCol(k: Col, a: Col, b: Col, c: Col, d: Col)
    ensures AddCol(AddCol(AddCol(AddCol(k, a), b), c), d)
         == AddCol(Col(Add4(a.b0, b.b0, c.b0, d.b0), Add4(a.b1, b.b1, c.b1, d.b1),
                       Add4(a.b2, b.b2, c.b2, d.b2), Add4(a.b3, b.b3, c.b3, d.b3)), k)
  {
    hide Add, Add4;
    KeyLast(k.b0, a.b0, b.b0, c.b0, d.b0);
    KeyLast(k.b1, a.b1, b.b1, c.b1, d.b1);
    KeyLast(k.b2, a.b2, b.b2, c.b2, d.b2);
    KeyLast(k.b3, a.b3, b.b3, c.b3, d.b3);
  }

  /** Unpacking a xor of five words adds their columns. */
  lemma UnpackSum(k: bv32, a: bv32, b: bv32, c: bv32, d: bv32)
    ensures Unpack(Xor(Xor4(k, a, b, c), d))
         == AddCol(AddCol(AddCol(AddCol(Unpack(k), Unpack(a)), Unpack(b)), Unpack(c)), Unpack(d))
  {
    hide Unpack, AddCol, Xor;
    UnpackXor(k, a);
    UnpackXor(Xor(k, a), b);
    UnpackXor(Xor(Xor(k, a), b), c);
    UnpackXor(Xor4(k, a, b, c), d);
  }

  lemma FColumnMixes(k: bv32, y0: bv32, y1: bv32, y2: bv32, y3: bv32)
    ensures Unpack(FColumn(k, y0, y1, y2, y3))
         == AddCol(MixCol(SubCol(Col(Byte0(y0), Byte1(y1), Byte2(y2), Byte3(y3)))), Unpack(k))
  {
    hide Xor, Xor4, Unpack, AddCol, FSb, FT0, FT1, FT2, FT3, Byte0, Byte1, Byte2, Byte3, Mul2, Mul3, Add, Add4;
    ForwardEntries(Byte0(y0));
    ForwardEntries(Byte1(y1));
    ForwardEntries(Byte2(y2));
    ForwardEntries(Byte3(y3));
    var a, b, c, d := FT0(Byte0(y0)), FT1(Byte1(y1)), FT2(Byte2(y2)), FT3(Byte3(y3));
    UnpackSum(k, a, b, c, d);
    KeyLastCol(Unpack(k), Unpack(a), Unpack(b), Unpack(c), Unpack(d));
  }

  lemma RColumnUnmixes(k: bv32, y0: bv32, y1: bv32, y2: bv32, y3: bv32)
    ensures Unpack(RColumn(k, y0, y1, y2, y3))
         == AddCol(InvMixCol(InvSubCol(Col(Byte0(y0), Byte1(y1), Byte2(y2), Byte3(y3)))), Unpack(k))
  {
    hide Xor, Xor4, Unpack, AddCol, RSb, RT0, RT1, RT2, RT3, Byte0, Byte1, Byte2, Byte3, Mul9, MulB, MulD, MulE, Add;
    hide Add4;
    ReverseEntries(Byte0(y0));
    ReverseEntries(Byte1(y1));
    ReverseEntries(Byte2(y2));
    ReverseEntries(Byte3(y3));
    var a, b, c, d := RT0(Byte0(y0)), RT1(Byte1(y1)), RT2(Byte2(y2)), RT3(Byte3(y3));
    UnpackSum(k, a, b, c, d);
    KeyLastCol(Unpack(k), Unpack(a), Unpack(b), Unpack(c), Unpack(d));
  }

  lemma UnpackSum4(a: bv32, b: bv32, c: bv32, d: bv32)
    ensures Unpack(Xor4(a, b, c, d)) == AddCol(AddCol(AddCol(Unpack(a), Unpack(b)), Unpack(c)), Unpack(d))
  {
    hide Unpack, AddCol, Xor;
    UnpackXor(a, b);
    UnpackXor(Xor(a, b), c);
    UnpackXor(Xor(Xor(a, b), c), d);
  }

  /** The key-schedule tables cancel their own S-box: only the unmixing is left. */
  lemma KColumnUnmixes(w: bv32)
    ensures Unpack(KColumn(w)) == InvMixCol(Unpack(w))
  {
    hide Xor, Xor4, FSb, RSb, RT0, RT1, RT2, RT3, Byte0, Byte1, Byte2, Byte3, Mul9, MulB, MulD, MulE, Add;
    SBoxesInverse(Byte0(w));
    SBoxesInverse(Byte1(w));
    SBoxesInverse(Byte2(w));
    SBoxesInverse(Byte3(w));
    ReverseEntries(FSb(Byte0(w)));
    ReverseEntries(FSb(Byte1(w)));
    ReverseEntries(FSb(Byte2(w)));
    ReverseEntries(FSb(Byte3(w)));
    UnpackSum4(KT0(Byte0(w)), KT1(Byte1(w)), KT2(Byte2(w)), KT3(Byte3(w)));
  }

  // ---- states as four words ----

  datatype Words = Words(w0: bv32, w1: bv32, w2: bv32, w3: bv32)

  function StateOf(x: Words): State {
    State(Unpack(x.w0), Unpack(x.w1), Unpack(x.w2), Unpack(x.w3))
  }

  function XorWords(x: Words, k: Words): Words {
    Words(Xor(x.w0, k.w0), Xor(x.w1, k.w1), Xor(x.w2, k.w2), Xor(x.w3, k.w3))
  }

  /** AES_FROUND with the round key k. */
  function FRound(k: Words, y: Words): Words {
    Words(FColumn(k.w0, y.w0, y.w1, y.w2, y.w3), FColumn(k.w1, y.w1, y.w2, y.w3, y.w0),
          FColumn(k.w2, y.w2, y.w3, y.w0, y.w1), FColumn(k.w3, y.w3, y.w0, y.w1, y.w2))
  }

  /** AES_RROUND with the round key k. */
  function RRound(k: Words, y: Words): Words {
    Words(RColumn(k.w0, y.w0, y.w3, y.w2, y.w1), RColumn(k.w1, y.w1, y.w0, y.w3, y.w2),
          RColumn(k.w2, y.w2, y.w1, y.w0, y.w3), RColumn(k.w3, y.w3, y.w2, y.w1, y.w0))
  }

  /** A column of the last round of encryption, and of decryption. */
  function FLast(k: bv32, y0: bv32, y1: bv32, y2: bv32, y3: bv32): bv32 {
    Xor(k, Place(FSb(Byte0(y0)), FSb(Byte1(y1)), FSb(Byte2(y2)), FSb(Byte3(y3))))
  }

  function RLast(k: bv32, y0: bv32, y1: bv32, y2: bv32, y3: bv32): bv32 {
    Xor(k, Place(RSb(Byte0(y0)), RSb(Byte1(y1)), RSb(Byte2(y2)), RSb(Byte3(y3))))
  }

  lemma XorWordsAdds(x: Words, k: Words)
    ensures StateOf(XorWords(x, k)) == AddRoundKey(StateOf(x), StateOf(k))
  {
    hide Unpack, AddCol, Xor;
    UnpackXor(x.w0, k.w0);
    UnpackXor(x.w1, k.w1);
    UnpackXor(x.w2, k.w2);
    UnpackXor(x.w3, k.w3);
  }

  lemma FRoundIsARound(k: Words, y: Words)
    ensures StateOf(FRound(k, y)) == AddRoundKey(MixColumns(ShiftRows(SubBytes(StateOf(y)))), StateOf(k))
  {
    hide FColumn, AddCol, MixCol, Byte0, Byte1, Byte2, Byte3, FSb;
    FColumnMixes(k.w0, y.w0, y.w1, y.w2, y.w3);
    FColumnMixes(k.w1, y.w1, y.w2, y.w3, y.w0);
    FColumnMixes(k.w2, y.w2, y.w3, y.w0, y.w1);
    FColumnMixes(k.w3, y.w3, y.w0, y.w1, y.w2);
  }

  lemma RRoundIsAnInverseRound(k: Words, y: Words)
    ensures StateOf(RRound(k, y)) == AddRoundKey(InvMixColumns(InvSubBytes(InvShiftRows(StateOf(y)))), StateOf(k))
  {
    hide RColumn, AddCol, InvMixCol, Byte0, Byte1, Byte2, Byte3, RSb;
    RColumnUnmixes(k.w0, y.w0, y.w3, y.w2, y.w1);
    RColumnUnmixes(k.w1, y.w1, y.w0, y.w3, y.w2);
    RColumnUnmixes(k.w2, y.w2, y.w1, y.w0, y.w3);
    RColumnUnmixes(k.w3, y.w3, y.w2, y.w1, y.w0);
  }

  lemma AddColCommutes(a: Col, b: Col)
    ensures AddCol(a, b) == AddCol(b, a)
  {
    assert forall x: bv8, y: bv8 :: Add(x, y) == x ^ y == y ^ x == Add(y, x);
  }

  lemma LastColumns(k: bv32, y0: bv32, y1: bv32, y2: bv32, y3: bv32)
    ensures Unpack(FLast(k, y0, y1, y2, y3))
         == AddCol(SubCol(Col(Byte0(y0), Byte1(y1), Byte2(y2), Byte3(y3))), Unpack(k))
    ensures Unpack(RLast(k, y0, y1, y2, y3))
         == AddCol(InvSubCol(Col(Byte0(y0), Byte1(y1), Byte2(y2), Byte3(y3))), Unpack(k))
  {
    hide Xor, Place, Unpack, AddCol, Byte0, Byte1, Byte2, Byte3, FSb, RSb;
    var f := Place(FSb(Byte0(y0)), FSb(Byte1(y1)), FSb(Byte2(y2)), FSb(Byte3(y3)));
    var r := Place(RSb(Byte0(y0)), RSb(Byte1(y1)), RSb(Byte2(y2)), RSb(Byte3(y3)));
    UnpackPlace(FSb(Byte0(y0)), FSb(Byte1(y1)), FSb(Byte2(y2)), FSb(Byte3(y3)));
    UnpackPlace(RSb(Byte0(y0)), RSb(Byte1(y1)), RSb(Byte2(y2)), RSb(Byte3(y3)));
    UnpackXor(k, f);
    UnpackXor(k, r);
    AddColCommutes(Unpack(k), Unpack(f));
    AddColCommutes(Unpack(k), Unpack(r));
  }

  function FLastRound(k: Words, y: Words): Words {
    Words(FLast(k.w0, y.w0, y.w1, y.w2, y.w3), FLast(k.w1, y.w1, y.w2, y.w3, y.w0),
          FLast(k.w2, y.w2, y.w3, y.w0, y.w1), FLast(k.w3, y.w3, y.w0, y.w1, y.w2))
  }

  function RLastRound(k: Words, y: Words): Words {
    Words(RLast(k.w0, y.w0, y.w3, y.w2, y.w1), RLast(k.w1, y.w1, y.w0, y.w3, y.w2),
          RLast(k.w2, y.w2, y.w1, y.w0, y.w3), RLast(k.w3, y.w3, y.w2, y.w1, y.w0))
  }

  lemma LastRounds(k: Words, y: Words)
    ensures StateOf(FLastRound(k, y)) == AddRoundKey(ShiftRows(SubBytes(StateOf(y))), StateOf(k))
    ensures StateOf(RLastRound(k, y)) == AddRoundKey(InvSubBytes(InvShiftRows(StateOf(y))), StateOf(k))
  {
    hide FLast, RLast, AddCol, Byte0, Byte1, Byte2, Byte3, FSb, RSb;
    LastColumns(k.w0, y.w0, y.w1, y.w2, y.w3);
    LastColumns(k.w1, y.w1, y.w2, y.w3, y.w0);
    LastColumns(k.w2, y.w2, y.w3, y.w0, y.w1);
    LastColumns(k.w3, y.w3, y.w0, y.w1, y.w2);
    LastColumns(k.w0, y.w0, y.w3, y.w2, y.w1);
    LastColumns(k.w1, y.w1, y.w0, y.w3, y.w2);
    LastColumns(k.w2, y.w2, y.w1, y.w0, y.w3);
    LastColumns(k.w3, y.w3, y.w2, y.w1, y.w0);
  }

  // ---- blocks of sixteen bytes ----

  function BlockState(b: seq<bv8>): State
    requires |b| == 16
  {
    State(Col(b[0], b[1], b[2], b[3]), Col(b[4], b[5], b[6], b[7]),
          Col(b[8], b[9], b[10], b[11]), Col(b[12], b[13], b[14], b[15]))
  }

  lemma BlockStateInjective(a: seq<bv8>, b: seq<bv8>)
    requires |a| == |b| == 16
    requires BlockState(a) == BlockState(b)
    ensures a == b
  {
    SameQuarter(a, b, 0);
    SameQuarter(a, b, 4);
    SameQuarter(a, b, 8);
    SameQuarter(a, b, 12);
  }

  lemma SameQuarter<T>(a: seq<T>, b: seq<T>, i: nat)
    requires i + 4 <= |a| && i + 4 <= |b|
    requires a[i] == b[i] && a[i + 1] == b[i + 1] && a[i + 2] == b[i + 2] && a[i + 3] == b[i + 3]
    ensures forall j :: i <= j < i + 4 ==> a[j] == b[j]
  {
  }

  method GetBlock(input: array<bv8>) returns (x: Words)
    requires input.Length == 16
    ensures StateOf(x) == BlockState(input[..])
  {
    hide Pack, Unpack;
    var c0, c1 := Col(input[0], input[1], input[2], input[3]), Col(input[4], input[5], input[6], input[7]);
    var c2, c3 := Col(input[8], input[9], input[10], input[11]), Col(input[12], input[13], input[14], input[15]);
    UnpackPack(c0);
    UnpackPack(c1);
    UnpackPack(c2);
    UnpackPack(c3);
    x := Words(Pack(c0), Pack(c1), Pack(c2), Pack(c3));
  }

  method PutWord(w: bv32, output: array<bv8>, i: nat)
    requires i + 4 <= output.Length
    modifies output
    ensures output[..] == old(output[..i]) + [Byte0(w), Byte1(w), Byte2(w), Byte3(w)] + old(output[i + 4..])
  {
    output[i], output[i + 1], output[i + 2], output[i + 3] := Byte0(w), Byte1(w), Byte2(w), Byte3(w);
  }

  method PutBlock(x: Words, output: array<bv8>)
    requires output.Length == 16
    modifies output
    ensures BlockState(output[..]) == StateOf(x)
  {
    hide Byte0, Byte1, Byte2, Byte3;
    PutWord(x.w0, output, 0);
    PutWord(x.w1, output, 4);
    PutWord(x.w2, output, 8);
    PutWord(x.w3, output, 12);
  }
}
