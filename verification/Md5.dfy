/**
 MD5 as the driver computes it, piece by piece, against RFC 1321: for any way of cutting a
 message into pieces, the digest is that of the whole message.
 */
module Md5 {
  import opened HashBlocks

  // ---- the words of RFC 1321, section 3.4 ----

  function Rotl(w: bv32, s: nat): bv32
    requires s <= 32
  {
    (w << s) | (w >> (32 - s))
  }

  function F1(x: bv32, y: bv32, z: bv32): bv32 { (x & y) | (!x & z) }

  function F2(x: bv32, y: bv32, z: bv32): bv32 { (x & z) | (y & !z) }

  function F3(x: bv32, y: bv32, z: bv32): bv32 { x ^ y ^ z }

  function F4(x: bv32, y: bv32, z: bv32): bv32 { y ^ (x | !z) }

  /** A mask of one bit, and that bit of a word. */
  predicate Single(m: bv32) {
    || m == 0x1 || m == 0x2 || m == 0x4 || m == 0x8 || m == 0x10 || m == 0x20 || m == 0x40 || m == 0x80
    || m == 0x100 || m == 0x200 || m == 0x400 || m == 0x800 || m == 0x1000 || m == 0x2000 || m == 0x4000 || m == 0x8000
    || m == 0x10000 || m == 0x20000 || m == 0x40000 || m == 0x80000
    || m == 0x100000 || m == 0x200000 || m == 0x400000 || m == 0x800000
    || m == 0x1000000 || m == 0x2000000 || m == 0x4000000 || m == 0x8000000
    || m == 0x10000000 || m == 0x20000000 || m == 0x40000000 || m == 0x80000000
  }

  predicate Bit(x: bv32, m: bv32) { x & m == m }

  predicate Clear(x: bv32, m: bv32) { x & m == 0 }

  predicate Agree(x: bv32, y: bv32, m: bv32) { x & m == y & m }

  lemma AgreeBits(x: bv32, y: bv32, m: bv32)
    requires Agree(x, y, m)
    ensures Bit(x, m) == Bit(y, m)
  {
  }

  lemma SetOrClear(x: bv32, m: bv32)
    requires Single(m)
    ensures Bit(x, m) != Clear(x, m)
  {
  }

  // Where the bits of a mask are all set, or all clear, in a word.

  lemma ChoiceSet(x: bv32, y: bv32, z: bv32, m: bv32)
    requires Bit(x, m)
    ensures Agree(F1(x, y, z), y, m) && Agree(F2(y, z, x), y, m)
  {
  }

  lemma ChoiceClear(x: bv32, y: bv32, z: bv32, m: bv32)
    requires Clear(x, m)
    ensures Agree(F1(x, y, z), z, m) && Agree(F2(y, z, x), z, m)
  {
  }

  lemma ParityBoth(x: bv32, y: bv32, z: bv32, m: bv32)
    requires Bit(x, m) && Bit(y, m)
    ensures Agree(F3(x, y, z), z, m)
  {
  }

  lemma ParityNone(x: bv32, y: bv32, z: bv32, m: bv32)
    requires Clear(x, m) && Clear(y, m)
    ensures Agree(F3(x, y, z), z, m)
  {
  }

  lemma ParityOne(x: bv32, y: bv32, z: bv32, m: bv32)
    requires Bit(x, m) && Clear(y, m)
    ensures Agree(F3(x, y, z), !z, m)
  {
  }

  lemma ParityOther(x: bv32, y: bv32, z: bv32, m: bv32)
    requires Clear(x, m) && Bit(y, m)
    ensures Agree(F3(x, y, z), !z, m)
  {
  }

  lemma LastSame(x: bv32, y: bv32, z: bv32, m: bv32)
    requires Bit(z, m) && Clear(x, m)
    ensures Agree(F4(x, y, z), y, m)
  {
  }

  lemma LastSet(x: bv32, y: bv32, z: bv32, m: bv32)
    requires Bit(x, m)
    ensures Agree(F4(x, y, z), !y, m)
  {
  }

  lemma LastClear(x: bv32, y: bv32, z: bv32, m: bv32)
    requires Clear(z, m)
    ensures Agree(F4(x, y, z), !y, m)
  {
  }

  lemma NotClear(x: bv32, m: bv32)
    requires Clear(x, m)
    ensures Bit(!x, m)
  {
  }

  lemma NotSet(x: bv32, m: bv32)
    requires Bit(x, m)
    ensures Clear(!x, m)
  {
  }

  lemma NotBits(x: bv32, m: bv32)
    requires Single(m)
    ensures Bit(!x, m) == !Bit(x, m)
  {
    hide Bit, Clear, Single;
    SetOrClear(x, m);
    SetOrClear(!x, m);
    if Bit(x, m) {
      NotSet(x, m);
    } else {
      NotClear(x, m);
    }
  }

  lemma ChoiceBits(x: bv32, y: bv32, z: bv32, m: bv32)
    requires Single(m)
    ensures Bit(F1(x, y, z), m) == Bit(F2(y, z, x), m) == if Bit(x, m) then Bit(y, m) else Bit(z, m)
  {
    hide F1, F2, Single, Bit, Clear, Agree;
    SetOrClear(x, m);
    if Bit(x, m) {
      ChoiceSet(x, y, z, m);
      AgreeBits(F1(x, y, z), y, m);
      AgreeBits(F2(y, z, x), y, m);
    } else {
      ChoiceClear(x, y, z, m);
      AgreeBits(F1(x, y, z), z, m);
      AgreeBits(F2(y, z, x), z, m);
    }
  }

  lemma ParityBits(x: bv32, y: bv32, z: bv32, m: bv32)
    requires Single(m)
    ensures Bit(F3(x, y, z), m) == ((Bit(x, m) != Bit(y, m)) != Bit(z, m))
  {
    hide F3, Single, Bit, Clear, Agree;
    SetOrClear(x, m);
    SetOrClear(y, m);
    if Bit(x, m) {
      if Bit(y, m) {
        ParityBoth(x, y, z, m);
      } else {
        ParityOne(x, y, z, m);
      }
    } else if Bit(y, m) {
      ParityOther(x, y, z, m);
    } else {
      ParityNone(x, y, z, m);
    }
    AgreeBits(F3(x, y, z), if Bit(x, m) == Bit(y, m) then z else !z, m);
    NotBits(z, m);
  }

  lemma LastBits(x: bv32, y: bv32, z: bv32, m: bv32)
    requires Single(m)
    ensures Bit(F4(x, y, z), m) == if Bit(z, m) && !Bit(x, m) then Bit(y, m) else !Bit(y, m)
  {
    hide F4, Single, Bit, Clear, Agree;
    SetOrClear(x, m);
    SetOrClear(z, m);
    if Bit(x, m) {
      LastSet(x, y, z, m);
    } else if Bit(z, m) {
      LastSame(x, y, z, m);
    } else {
      LastClear(x, y, z, m);
    }
    AgreeBits(F4(x, y, z), if Bit(z, m) && !Bit(x, m) then y else !y, m);
    NotBits(y, m);
  }

  /** Bit by bit: x chooses between y and z; z between x and y; the parity; y turned round unless z and not x. */
  lemma RoundBits(t: nat, x: bv32, y: bv32, z: bv32, m: bv32)
    requires Single(m)
    ensures var a, b, c := Bit(x, m), Bit(y, m), Bit(z, m);
            Bit(Round(t, x, y, z), m)
            == if t < 16 then (if a then b else c)
               else if t < 32 then (if c then a else b)
               else if t < 48 then (a != b) != c
               else if c && !a then b else !b
  {
    hide Bit, F1, F2, F3, F4;
    ChoiceBits(x, y, z, m);
    ChoiceBits(z, x, y, m);
    ParityBits(x, y, z, m);
    LastBits(x, y, z, m);
  }

  function Add(x: bv32, y: bv32): bv32 { x + y }

  /** The function of the round that step i is in. */
  function Round(i: nat, x: bv32, y: bv32, z: bv32): bv32 {
    if i < 16 then F1(x, y, z) else if i < 32 then F2(x, y, z) else if i < 48 then F3(x, y, z) else F4(x, y, z)
  }

  const TABLE: seq<seq<bv32>> := [
    [0xd76aa478, 0xe8c7b756, 0x242070db, 0xc1bdceee, 0xf57c0faf, 0x4787c62a, 0xa8304613, 0xfd469501],
    [0x698098d8, 0x8b44f7af, 0xffff5bb1, 0x895cd7be, 0x6b901122, 0xfd987193, 0xa679438e, 0x49b40821],
    [0xf61e2562, 0xc040b340, 0x265e5a51, 0xe9b6c7aa, 0xd62f105d, 0x02441453, 0xd8a1e681, 0xe7d3fbc8],
    [0x21e1cde6, 0xc33707d6, 0xf4d50d87, 0x455a14ed, 0xa9e3e905, 0xfcefa3f8, 0x676f02d9, 0x8d2a4c8a],
    [0xfffa3942, 0x8771f681, 0x6d9d6122, 0xfde5380c, 0xa4beea44, 0x4bdecfa9, 0xf6bb4b60, 0xbebfbc70],
    [0x289b7ec6, 0xeaa127fa, 0xd4ef3085, 0x04881d05, 0xd9d4d039, 0xe6db99e5, 0x1fa27cf8, 0xc4ac5665],
    [0xf4292244, 0x432aff97, 0xab9423a7, 0xfc93a039, 0x655b59c3, 0x8f0ccc92, 0xffeff47d, 0x85845dd1],
    [0x6fa87e4f, 0xfe2ce6e0, 0xa3014314, 0x4e0811a1, 0xf7537e82, 0xbd3af235, 0x2ad7d2bb, 0xeb86d391]
  ]

  function T(i: nat): bv32
    requires i < 64
  {
    TABLE[i / 8][i % 8]
  }

  /** The words that the RFC lists for the sixteen steps of each round, and the four shifts that go round. */
  const RFC_K: seq<seq<nat>> := [
    [0, 1, 2, 3, 4, 5, 6, 7, 8, 9, 10, 11, 12, 13, 14, 15],
    [1, 6, 11, 0, 5, 10, 15, 4, 9, 14, 3, 8, 13, 2, 7, 12],
    [5, 8, 11, 14, 1, 4, 7, 10, 13, 0, 3, 6, 9, 12, 15, 2],
    [0, 7, 14, 5, 12, 3, 10, 1, 8, 15, 6, 13, 4, 11, 2, 9]]

  const RFC_S: seq<seq<nat>> := [[7, 12, 17, 22], [5, 9, 14, 20], [4, 11, 16, 23], [6, 10, 15, 21]]

  function RfcK(i: nat): (k: nat)
    requires i < 64
    ensures k < 16
  {
    RFC_K[i / 16][i % 16]
  }

  function RfcS(i: nat): (s: nat)
    requires i < 64
    ensures s <= 32
  {
    RFC_S[i / 16][i % 4]
  }

  /** The registers A, B, C, D. */
  type Regs = r: seq<bv32> | |r| == 4 witness [0, 0, 0, 0]

  type Words = x: seq<bv32> | |x| == 16 witness seq(16, _ => 0 as bv32)

  /** The operation [abcd k s i]: a = b + ((a + f(b, c, d) + X[k] + T[i]) <<< s). */
  function RfcValue(i: nat, a: bv32, b: bv32, c: bv32, d: bv32, xk: bv32): bv32
    requires i < 64
  {
    Add(b, Rotl(Add(a, Add(Add(Round(i, b, c, d), xk), T(i))), RfcS(i)))
  }

  /** Which register is a goes round: A, D, C, B. */
  function RfcStep(r: Regs, x: Words, i: nat): Regs
    requires i < 64
  {
    var a := (4 - i % 4) % 4;
    var b, c, d := (a + 1) % 4, (a + 2) % 4, (a + 3) % 4;
    r[a := RfcValue(i, r[a], r[b], r[c], r[d], x[RfcK(i)])]
  }

  function RfcSteps(r: Regs, x: Words, n: nat): Regs
    requires n <= 64
  {
    if n == 0 then r else RfcStep(RfcSteps(r, x, n - 1), x, n - 1)
  }

  /** One block: the 64 steps, added to what was there. */
  function RfcBlock(r: Regs, x: Words): Regs {
    var t := RfcSteps(r, x, 64);
    [Add(r[0], t[0]), Add(r[1], t[1]), Add(r[2], t[2]), Add(r[3], t[3])]
  }

  // ---- the driver's transform ----

  const LSHIFT_VAL: seq<nat> := [7, 12, 17, 22, 5, 9, 14, 20, 4, 11, 16, 23, 6, 10, 15, 21]

  /** The word that step i uses, as the four loops compute it. */
  function WordIndex(i: nat): (k: nat)
    ensures k < 16
  {
    if i < 16 then i
    else if i < 32 then (5 * (i % 16) + 1) % 16
    else if i < 48 then (3 * (i % 16) + 5) % 16
    else 7 * (i % 16) % 16
  }

  function Shift(i: nat): (s: nat)
    requires i < 64
    ensures s <= 32
  {
    LSHIFT_VAL[i / 16 * 4 + i % 4]
  }

  /** The formulas give the words and the shifts that the RFC lists. */
  lemma WordsAgree(i: nat)
    requires i < 64
    ensures WordIndex(i) == RfcK(i)
  {
    var j := i % 16;
    assert i == i / 16 * 16 + j;
    match j
    case 0 => case 1 => case 2 => case 3 => case 4 => case 5 => case 6 => case 7 =>
    case 8 => case 9 => case 10 => case 11 => case 12 => case 13 => case 14 => case 15 =>
  }

  lemma ShiftsAgree(i: nat)
    requires i < 64
    ensures Shift(i) == RfcS(i)
  {
    match i % 4
    case 0 => case 1 => case 2 => case 3 =>
  }

  /** MD5Step: the new value of the first register. */
  function Mixed(i: nat, reg: Regs, data: bv32): bv32
    requires i < 64
  {
    Add(Rotl(Add(reg[0], Add(Add(Round(i, reg[1], reg[2], reg[3]), data), T(i))), Shift(i)), reg[1])
  }

  lemma Swapped(a: bv32, b: bv32)
    ensures Add(a, b) == Add(b, a)
  {
  }

  lemma MixedIsRfc(i: nat, reg: Regs, data: bv32)
    requires i < 64
    ensures Mixed(i, reg, data) == RfcValue(i, reg[0], reg[1], reg[2], reg[3], data)
  {
    hide Add, Rotl, Round;
    ShiftsAgree(i);
    hide Shift, RfcS;
    var f := Round(i, reg[1], reg[2], reg[3]);
    Swapped(Rotl(Add(reg[0], Add(Add(f, data), T(i))), RfcS(i)), reg[1]);
  }

  /** After i steps the driver's registers are those of the RFC, turned by i. */
  ghost predicate Turned(reg: Regs, r: Regs, i: nat) {
    var a := (4 - i % 4) % 4;
    reg[0] == r[a] && reg[1] == r[(a + 1) % 4] && reg[2] == r[(a + 2) % 4] && reg[3] == r[(a + 3) % 4]
  }

  lemma TurnedNext(reg: Regs, r: Regs, x: Words, i: nat)
    requires i < 64 && Turned(reg, r, i)
    ensures Turned([reg[3], Mixed(i, reg, x[WordIndex(i)]), reg[1], reg[2]], RfcStep(r, x, i), i + 1)
  {
    hide Mixed, RfcValue, WordIndex, RfcK;
    WordsAgree(i);
    MixedIsRfc(i, reg, x[WordIndex(i)]);
    match i % 4
    case 0 => case 1 => case 2 => case 3 =>
  }

  /** One turn of a loop of MD5Transform: a step, and the registers shifted by one. */
  method Turn(reg: Regs, x: Words, i: nat, ghost r: Regs) returns (reg': Regs)
    requires i < 64 && Turned(reg, r, i)
    ensures Turned(reg', RfcStep(r, x, i), i + 1)
  {
    TurnedNext(reg, r, x, i);
    hide *;
    var w := Mixed(i, reg, x[WordIndex(i)]);
    reg' := [reg[3], w, reg[1], reg[2]];
  }

  /** MD5Transform on the state in place. */
  method Transform(buf: array<bv32>, x: Words)
    requires buf.Length == 4
    modifies buf
    ensures buf[..] == RfcBlock(old(buf[..]), x)
  {
    hide RfcStep, Turned, Add;
    ghost var start: Regs := buf[..];
    var reg: Regs := buf[..];
    assert Turned(reg, start, 0) by { TurnedStart(start); }
    var i := 0;
    while i < 64
      invariant i <= 64 && Turned(reg, RfcSteps(start, x, i), i)
      invariant buf[..] == start
    {
      reg := Turn(reg, x, i, RfcSteps(start, x, i));
      i := i + 1;
    }
    TurnedBack(reg, RfcSteps(start, x, 64));
    buf[0], buf[1] := Add(buf[0], reg[0]), Add(buf[1], reg[1]);
    buf[2], buf[3] := Add(buf[2], reg[2]), Add(buf[3], reg[3]);
    assert buf[..] == [buf[0], buf[1], buf[2], buf[3]];
  }

  lemma TurnedStart(r: Regs)
    ensures Turned(r, r, 0)
  {
  }

  lemma TurnedBack(reg: Regs, r: Regs)
    requires Turned(reg, r, 64)
    ensures reg == r
  {
    assert reg[0] == r[0] && reg[1] == r[1] && reg[2] == r[2] && reg[3] == r[3];
  }

  // ---- messages ----

  /** Word i of a block, low byte first. */
  function LeWord(block: seq<bv8>, i: nat): bv32
    requires 4 * i + 3 < |block|
  {
    block[4 * i] as bv32 | (block[4 * i + 1] as bv32 << 8)
    | (block[4 * i + 2] as bv32 << 16) | (block[4 * i + 3] as bv32 << 24)
  }

  function WordsOf(block: seq<bv8>): Words
    requires |block| == 64
  {
    seq(16, i requires 0 <= i < 16 => LeWord(block, i))
  }

  function Compress(r: Regs, block: seq<bv8>): Regs {
    if |block| == 64 then RfcBlock(r, WordsOf(block)) else r
  }

  const START: Regs := [0x67452301, 0xefcdab89, 0x98badcfe, 0x10325476]

  /** The length in bits, modulo 2^64, low byte first. */
  function LengthBytes(n: nat): (r: seq<bv8>)
    ensures |r| == 8
  {
    seq(8, i requires 0 <= i < 8 => ByteAt(8 * n, i))
  }

  function WordBytes(w: bv32): (r: seq<bv8>)
    ensures |r| == 4
  {
    [(w & 0xff) as bv8, ((w >> 8) & 0xff) as bv8, ((w >> 16) & 0xff) as bv8, ((w >> 24) & 0xff) as bv8]
  }

  /** The padded message with its length. */
  function Full(message: seq<bv8>): (r: seq<bv8>)
    ensures |r| % 64 == 0
  {
    Padded(message) + LengthBytes(|message|)
  }

  /** The digest of a message by RFC 1321. */
  function Digest(message: seq<bv8>): (d: seq<bv8>)
    ensures |d| == 16
  {
    var r := Fold(Compress, START, Full(message));
    WordBytes(r[0]) + WordBytes(r[1]) + WordBytes(r[2]) + WordBytes(r[3])
  }

  class Context {
    const buf: array<bv32>
    const input: array<bv8>
    var low: nat             // LenInBitCount
    var high: nat
    ghost var message: seq<bv8>

    /** The whole blocks are in buf, the rest is at the front of input, and the length is in the counter. */
    ghost predicate Valid()
      reads this, buf, input
    {
      && buf.Length == 4 && input.Length == 64
      && Counts(low, high, |message|)
      && buf[..] == Fold(Compress, START, Whole(message))
      && input[..|message| % 64] == Rest(message)
    }

    constructor ()
      ensures Valid() && fresh(buf) && fresh(input) && message == []
    {
      buf := new bv32[4](i requires 0 <= i < 4 => START[i]);
      input := new bv8[64](_ => 0);
      low, high, message := 0, 0, [];
      new;
      assert buf[..] == START;
    }

    /** NdisMoveMemory into the block. */
    method Move(at: nat, data: seq<bv8>)
      requires at + |data| <= input.Length
      modifies input
      ensures input[..] == old(input[..at]) + data + old(input[at + |data|..])
    {
      for i := 0 to |data|
        invariant input[..] == old(input[..at]) + data[..i] + old(input[at + i..])
      {
        input[at + i] := data[i];
      }
    }

    /** The block in input goes into buf. */
    method TransformInput()
      requires buf.Length == 4 && input.Length == 64
      modifies buf
      ensures buf[..] == Compress(old(buf[..]), input[..])
    {
      hide RfcBlock, LeWord;
      Transform(buf, WordsOf(input[..]));
    }

    /** What is at hand when the message so far is in whole blocks. */
    ghost predicate AtBoundary(done: seq<bv8>)
      reads this, buf, input
    {
      buf.Length == 4 && input.Length == 64 && |done| % 64 == 0 && buf[..] == Fold(Compress, START, done)
    }

    /** A whole block is taken in. */
    method TakeBlock(block: seq<bv8>, ghost done: seq<bv8>)
      requires AtBoundary(done) && |block| == 64
      modifies buf, input
      ensures AtBoundary(done + block)
    {
      hide Fold, Compress;
      Move(0, block);
      assert input[..] == block;
      TransformInput();
      FoldNext(Compress, START, done, block);
    }

    /** Data after a whole number of blocks: the loop over blocks, and the rest into the buffer. */
    method TakeData(data: seq<bv8>, ghost done: seq<bv8>)
      requires AtBoundary(done)
      modifies buf, input
      ensures buf.Length == 4 && input.Length == 64
      ensures buf[..] == Fold(Compress, START, Whole(done + data)) && input[..|done + data| % 64] == Rest(done + data)
    {
      hide Fold, Compress;
      var pos, times := 0, |data| / 64;
      assert done + data[..0] == done;
      for i := times downto 0
        invariant pos == 64 * (times - i) && AtBoundary(done + data[..pos])
      {
        assert (done + data[..pos]) + data[pos..pos + 64] == done + data[..pos + 64];
        TakeBlock(data[pos..pos + 64], done + data[..pos]);
        pos := pos + 64;
      }
      var rest := data[pos..];
      if rest != [] {
        Move(0, rest);
      }
      assert done + data == (done + data[..pos]) + rest;
      AddedToWhole(done + data[..pos], rest);
      assert input[..|rest|] == rest;
    }

    /**
     MD5Update. The length of a piece is a 32-bit number, and so is its sum with the place in the block: the result
     says whether that sum wraps around and the copy goes past the end of the block.
     */
    method Update(data: seq<bv8>) returns (overrun: bool)
      requires Valid() && |data| < WORD
      modifies this, buf, input
      ensures overrun <==> Overruns(|old(message)| % 64, |data|)
      ensures !overrun ==> Valid() && message == old(message) + data
    {
      hide Fold, Compress;
      CountsNext(low, high, |message|, |data|);
      CountsPlace(low, high, |message|);
      var place := low / 8 % 64;
      MisjudgedIff(place, |data|);
      hide Misjudged, CountLow, CountHigh, Counts;
      low, high := CountLow(low, |data|), CountHigh(low, high, |data|);
      if Misjudged(place, |data|) {
        return true;
      }
      Take(place, data);
      return false;
    }

    /** The data behind what is already in the block. */
    method Take(place: nat, data: seq<bv8>)
      requires buf.Length == 4 && input.Length == 64 && place == |message| % 64
      requires |data| < WORD && (place == 0 || place + |data| < WORD)
      requires buf[..] == Fold(Compress, START, Whole(message)) && input[..place] == Rest(message)
      modifies buf, input, this`message
      ensures message == old(message) + data
      ensures buf[..] == Fold(Compress, START, Whole(message)) && input[..|message| % 64] == Rest(message)
    {
      hide Fold, Compress;
      ghost var was := message;
      message := message + data;
      if place != 0 {
        if (place + |data|) % WORD < 64 {
          AddedWithin(was, data);
          Move(place, data);
          assert input[..place + |data|] == old(input[..place]) + data;
          return;
        }
        TakeHead(data[..64 - place], was);
        assert (was + data[..64 - place]) + data[64 - place..] == message;
        TakeData(data[64 - place..], was + data[..64 - place]);
      } else {
        assert Whole(was) == was;
        TakeData(data, was);
      }
    }

    /** The bytes that complete the block at hand. */
    method TakeHead(head: seq<bv8>, ghost was: seq<bv8>)
      requires buf.Length == 4 && input.Length == 64 && 0 < |was| % 64 && |head| == 64 - |was| % 64
      requires buf[..] == Fold(Compress, START, Whole(was)) && input[..|was| % 64] == Rest(was)
      modifies buf, input
      ensures AtBoundary(was + head)
    {
      hide Fold, Compress;
      Move(64 - |head|, head);
      assert input[..] == Rest(was) + head;
      TransformInput();
      FoldNext(Compress, START, Whole(was), Rest(was) + head);
      assert Whole(was) + (Rest(was) + head) == was + head;
    }

    /** The length field of the last block, from the two counter words. */
    method PutLength(ghost n: nat)
      requires input.Length == 64 && Counts(low, high, n)
      modifies input
      ensures input[..] == old(input[..56]) + LengthBytes(n)
    {
      hide ByteAt, Counts;
      for i := 0 to 4
        invariant forall k :: 0 <= k < 56 ==> input[k] == old(input[k])
        invariant forall k :: 56 <= k < 56 + i || 60 <= k < 60 + i ==> input[k] == LengthBytes(n)[k - 56]
      {
        CounterBytes(low, high, n, i);
        input[56 + i] := ByteAt(low, i);
        input[60 + i] := ByteAt(high, i);
      }
    }

    /** The padding when the one bit and the length fit into the block at hand. */
    method PadShort()
      requires Valid() && |message| % 64 < 56
      modifies buf, input
      ensures buf.Length == 4 && buf[..] == Fold(Compress, START, Full(message))
    {
      hide Fold, Compress, LengthBytes, Padded;
      CountsPlace(low, high, |message|);
      var r := low / 8 % 64;
      PaddedShort(message, LengthBytes(|message|));
      Move(r, [0x80] + Zeros(56 - r - 1));
      assert input[..56] == Rest(message) + [0x80] + Zeros(55 - r);
      PutLength(|message|);
      FoldNext(Compress, START, Whole(message), input[..]);
      TransformInput();
    }

    /** The padding when they take another block. */
    method PadLong()
      requires Valid() && |message| % 64 >= 56
      modifies buf, input
      ensures buf.Length == 4 && buf[..] == Fold(Compress, START, Full(message))
    {
      hide Fold, Compress, LengthBytes, Padded, Zeros;
      CountsPlace(low, high, |message|);
      hide Counts, Whole, Rest;
      var r := low / 8 % 64;
      ghost var tail := LengthBytes(|message|);
      PaddedTwice(message, tail);
      var head := [0x80] + Zeros(64 - r - 1);
      TakeHead(head, message);
      Move(0, Zeros(56));
      PutLength(|message|);
      assert input[..] == Zeros(56) + tail;
      FoldNext(Compress, START, message + head, Zeros(56) + tail);
      TransformInput();
    }

    /** The place in the block comes from the counter. */
    method Pad()
      requires Valid()
      modifies buf, input
      ensures buf.Length == 4 && buf[..] == Fold(Compress, START, Full(message))
    {
      hide Fold, Compress, Full;
      CountsPlace(low, high, |message|);
      if low / 8 % 64 < 56 {
        PadShort();
      } else {
        PadLong();
      }
    }

    /** MD5Final: the digest of everything put in. */
    method Final() returns (digest: seq<bv8>)
      requires Valid()
      modifies buf, input
      ensures digest == Digest(message)
    {
      hide Fold, Compress, Full, WordBytes;
      Pad();
      digest := WordBytes(buf[0]) + WordBytes(buf[1]) + WordBytes(buf[2]) + WordBytes(buf[3]);
    }
  }

  function Joined(pieces: seq<seq<bv8>>): seq<bv8> {
    if pieces == [] then [] else Joined(pieces[..|pieces| - 1]) + pieces[|pieces| - 1]
  }

  /** Piece i goes past the end of the block. */
  predicate OverrunsAt(pieces: seq<seq<bv8>>, i: nat)
    requires i < |pieces|
  {
    Overruns(|Joined(pieces[..i])| % 64, |pieces[i]|)
  }

  lemma NoPieces(pieces: seq<seq<bv8>>)
    ensures Joined(pieces[..0]) == []
  {
  }

  lemma JoinedNext(pieces: seq<seq<bv8>>, i: nat)
    requires i < |pieces|
    ensures Joined(pieces[..i + 1]) == Joined(pieces[..i]) + pieces[i]
    ensures OverrunsAt(pieces, i) <==> Overruns(|Joined(pieces[..i])| % 64, |pieces[i]|)
  {
    assert pieces[..i + 1][..i] == pieces[..i];
  }

  /**
   However a message is cut into pieces, the digest is that of the message, unless a piece goes past the end of the
   block.
   */
  method DigestOfPieces(pieces: seq<seq<bv8>>) returns (overrun: bool, digest: seq<bv8>)
    requires forall i :: 0 <= i < |pieces| ==> |pieces[i]| < WORD
    ensures overrun <==> exists i :: 0 <= i < |pieces| && OverrunsAt(pieces, i)
    ensures !overrun ==> digest == Digest(Joined(pieces))
  {
    hide Digest, Fold, Compress, Counts, Whole, Rest, Joined, OverrunsAt, Overruns;
    var ctx := new Context();
    digest := [];
    NoPieces(pieces);
    for i := 0 to |pieces|
      invariant ctx.Valid() && fresh(ctx) && fresh(ctx.buf) && fresh(ctx.input) && ctx.message == Joined(pieces[..i])
      invariant forall k :: 0 <= k < i ==> !OverrunsAt(pieces, k)
    {
      JoinedNext(pieces, i);
      overrun := ctx.Update(pieces[i]);
      if overrun {
        return;
      }
    }
    assert pieces[..|pieces|] == pieces;
    overrun := false;
    digest := ctx.Final();
  }

  /** md5_mac: the key on both sides of the data. */
  method Mac(key: seq<bv8>, data: seq<bv8>) returns (overrun: bool, mac: seq<bv8>)
    requires |key| < WORD && |data| < WORD
    ensures overrun <==> Overruns(|key| % 64, |data|) || Overruns((|key| + |data|) % 64, |key|)
    ensures !overrun ==> mac == Digest(key + data + key)
  {
    hide Digest;
    overrun, mac := DigestOfPieces([key, data, key]);
    JoinedThree(key, data, key);
    OverrunsThree(key, data, key);
  }

  lemma OverrunsThree(a: seq<bv8>, b: seq<bv8>, c: seq<bv8>)
    ensures !OverrunsAt([a, b, c], 0)
    ensures OverrunsAt([a, b, c], 1) <==> Overruns(|a| % 64, |b|)
    ensures OverrunsAt([a, b, c], 2) <==> Overruns((|a| + |b|) % 64, |c|)
  {
    JoinedThree(a, b, c);
    assert [a, b, c][..0] == [] && [a, b, c][..1] == [a] && [a, b, c][..2] == [a, b];
  }

  /** A single piece, or one behind a whole block. */
  lemma NeverOverruns(a: seq<bv8>, b: seq<bv8>)
    requires |a| == 64
    ensures !OverrunsAt([b], 0) && !OverrunsAt([a, b], 0) && !OverrunsAt([a, b], 1)
  {
    JoinedThree(a, b, b);
    assert [b][..0] == [] && [a, b][..0] == [] && [a, b][..1] == [a];
  }

  lemma JoinedThree(a: seq<bv8>, b: seq<bv8>, c: seq<bv8>)
    ensures Joined([a, b, c]) == a + b + c && Joined([a, b]) == a + b && Joined([a]) == a
  {
    assert [a, b, c][..2] == [a, b] && [a, b][..1] == [a] && [a][..0] == [];
    assert Joined([a]) == [] + a == a;
    assert Joined([a, b]) == Joined([a]) + b;
  }

  // ---- HMAC-MD5, RFC 2104 ----

  function Xor(x: bv8, y: bv8): bv8 { x ^ y }

  /** The key filled up with zeros. */
  function KeyByte(key: seq<bv8>, i: nat): bv8 { if i < |key| then key[i] else 0 }

  function Masked(key: seq<bv8>, mask: bv8): (r: seq<bv8>)
    requires |key| <= 64
    ensures |r| == 64
  {
    seq(64, i requires 0 <= i < 64 => Xor(KeyByte(key, i), mask))
  }

  /** The key itself, or its digest if it is longer than a block. */
  function HmacKey(key: seq<bv8>): (k: seq<bv8>)
    ensures |k| <= 64
  {
    if |key| > 64 then Digest(key) else key
  }

  function HmacMd5(key: seq<bv8>, text: seq<bv8>): seq<bv8> {
    var k := HmacKey(key);
    Digest(Masked(k, 0x5c) + Digest(Masked(k, 0x36) + text))
  }

  /** The key in a zeroed block, every byte of it masked. */
  method PadKey(key: seq<bv8>, mask: bv8) returns (pad: seq<bv8>)
    requires |key| <= 64
    ensures pad == Masked(key, mask)
  {
    var block := new bv8[64](_ => 0);
    for i := 0 to |key|
      invariant forall j :: 0 <= j < 64 ==> block[j] == if j < i then key[j] else 0
    {
      block[i] := key[i];
    }
    for i := 0 to 64
      invariant forall j :: 0 <= j < 64 ==> block[j] == if j < i then Xor(KeyByte(key, j), mask) else KeyByte(key, j)
    {
      hide Xor;
      block[i] := Xor(block[i], mask);
    }
    pad := block[..];
  }

  /** hmac_md5: what follows the padded key starts a block, so nothing goes past its end. */
  method Hmac(key: seq<bv8>, data: seq<bv8>) returns (mac: seq<bv8>)
    requires |key| < WORD && |data| < WORD
    ensures mac == HmacMd5(key, data)
  {
    hide Digest, Masked, OverrunsAt;
    var k, overrun := key, false;
    if |key| > 64 {
      NeverOverruns(Masked([], 0), key);
      overrun, k := DigestOfPieces([key]);
      JoinedThree(key, [], []);
    }
    var ipad := PadKey(k, 0x36);
    var opad := PadKey(k, 0x5c);
    JoinedThree(ipad, data, []);
    NeverOverruns(ipad, data);
    overrun, mac := DigestOfPieces([ipad, data]);
    JoinedThree(opad, mac, []);
    NeverOverruns(opad, mac);
    overrun, mac := DigestOfPieces([opad, mac]);
  }
}
