/**
 SHA-1 as the driver computes it, piece by piece, against RFC 3174. A message of 2^64 bits
 or more is refused when its length no longer fits the counter.
 */
module Sha1 {
  import opened HashBlocks
  import Md5

  // ---- the words of RFC 3174, sections 5 and 6.1 ----

  function Add(x: bv32, y: bv32): bv32 { x + y }

  function Rotl(w: bv32, s: nat): bv32
    requires s <= 32
  {
    (w << s) | (w >> (32 - s))
  }

  function F(t: nat, b: bv32, c: bv32, d: bv32): bv32 {
    if t < 20 then (b & c) | (!b & d)
    else if t < 40 then b ^ c ^ d
    else if t < 60 then Majority(b, c, d)
    else b ^ c ^ d
  }

  function K(t: nat): bv32 {
    if t < 20 then 0x5a827999 else if t < 40 then 0x6ed9eba1 else if t < 60 then 0x8f1bbcdc else 0xca62c1d6
  }

  function Majority(b: bv32, c: bv32, d: bv32): bv32 { (b & c) | (b & d) | (c & d) }

  lemma MajoritySet(b: bv32, c: bv32, d: bv32, m: bv32)
    requires Md5.Bit(b, m) && Md5.Bit(c, m)
    ensures Md5.Bit(Majority(b, c, d), m)
  {
  }

  lemma MajorityClear(b: bv32, c: bv32, d: bv32, m: bv32)
    requires Md5.Clear(b, m) && Md5.Clear(c, m)
    ensures Md5.Clear(Majority(b, c, d), m)
  {
  }

  lemma MajorityThird(b: bv32, c: bv32, d: bv32, m: bv32)
    requires Md5.Bit(b, m) && Md5.Clear(c, m)
    ensures Md5.Agree(Majority(b, c, d), d, m) && Md5.Agree(Majority(c, b, d), d, m)
  {
  }

  lemma MajorityBits(b: bv32, c: bv32, d: bv32, m: bv32)
    requires Md5.Single(m)
    ensures var x, y, z := Md5.Bit(b, m), Md5.Bit(c, m), Md5.Bit(d, m);
            Md5.Bit(Majority(b, c, d), m) == ((x && y) || (x && z) || (y && z))
  {
    hide Majority, Md5.Single, Md5.Bit, Md5.Clear, Md5.Agree;
    Md5.SetOrClear(b, m);
    Md5.SetOrClear(c, m);
    Md5.SetOrClear(Majority(b, c, d), m);
    if Md5.Bit(b, m) && Md5.Bit(c, m) {
      MajoritySet(b, c, d, m);
    } else if Md5.Bit(b, m) {
      MajorityThird(b, c, d, m);
      Md5.AgreeBits(Majority(b, c, d), d, m);
    } else if Md5.Bit(c, m) {
      MajorityThird(c, b, d, m);
      Md5.AgreeBits(Majority(b, c, d), d, m);
    } else {
      MajorityClear(b, c, d, m);
    }
  }

  function One(p: bool): nat { if p then 1 else 0 }

  /** Bit by bit: b chooses between c and d; the parity; at least two of the three; the parity again. */
  lemma FBits(t: nat, b: bv32, c: bv32, d: bv32, m: bv32)
    requires Md5.Single(m)
    ensures var x, y, z := Md5.Bit(b, m), Md5.Bit(c, m), Md5.Bit(d, m);
            Md5.Bit(F(t, b, c, d), m)
            == if t < 20 then (if x then y else z)
               else if 40 <= t < 60 then One(x) + One(y) + One(z) >= 2
               else (One(x) + One(y) + One(z)) % 2 == 1
  {
    hide Md5.Bit, Md5.Single, Majority;
    if t < 20 {
      Md5.ChoiceBits(b, c, d, m);
    } else if 40 <= t < 60 {
      MajorityBits(b, c, d, m);
    } else {
      Md5.ParityBits(b, c, d, m);
    }
  }

  /** The constants are the square roots of 2, 3, 5 and 10, times 2^30, without the fraction. */
  lemma KRoots(t: nat)
    ensures var k, n := K(t) as nat, if t < 20 then 2 else if t < 40 then 3 else if t < 60 then 5 else 10;
            k * k <= n * 0x1000_0000_0000_0000 < (k + 1) * (k + 1)
  {
  }

  type Regs = r: seq<bv32> | |r| == 5 witness [0, 0, 0, 0, 0]

  /** Word i of a block, high byte first. */
  function BeWord(block: seq<bv8>, i: nat): bv32
    requires 4 * i + 3 < |block|
  {
    (block[4 * i] as bv32 << 24) | (block[4 * i + 1] as bv32 << 16)
    | (block[4 * i + 2] as bv32 << 8) | block[4 * i + 3] as bv32
  }

  function Xor4(a: bv32, b: bv32, c: bv32, d: bv32): bv32 { ((a ^ b) ^ c) ^ d }

  /** The first n of the eighty words. */
  function Schedule(block: seq<bv8>, n: nat): (w: seq<bv32>)
    requires |block| == 64 && n <= 80
    ensures |w| == n
  {
    if n == 0 then []
    else
      var w, t := Schedule(block, n - 1), n - 1;
      w + [if t < 16 then BeWord(block, t) else Rotl(Xor4(w[t - 3], w[t - 8], w[t - 14], w[t - 16]), 1)]
  }

  function RfcStep(r: Regs, w: bv32, t: nat): Regs {
    var temp := Add(r[4], Add(Add(Add(F(t, r[1], r[2], r[3]), w), K(t)), Rotl(r[0], 5)));
    [temp, r[0], Rotl(r[1], 30), r[2], r[3]]
  }

  function RfcSteps(r: Regs, w: seq<bv32>, n: nat): Regs
    requires n <= |w|
  {
    if n == 0 then r else RfcStep(RfcSteps(r, w, n - 1), w[n - 1], n - 1)
  }

  function RfcBlock(r: Regs, block: seq<bv8>): Regs
    requires |block| == 64
  {
    var t := RfcSteps(r, Schedule(block, 80), 80);
    [Add(r[0], t[0]), Add(r[1], t[1]), Add(r[2], t[2]), Add(r[3], t[3]), Add(r[4], t[4])]
  }

  // ---- the driver's transform ----

  /** The bytes of a word the other way round. */
  function Reversed(m: bv32): bv32 {
    ((m >> 24) & 0xff) | ((m >> 8) & 0xff00) | ((m << 8) & 0xff0000) | ((m << 24) & 0xff000000)
  }

  /** A word read low byte first and reversed is the word read high byte first. */
  lemma ReversedWord(block: seq<bv8>, i: nat)
    requires 4 * i + 3 < |block|
    ensures Reversed(Md5.LeWord(block, i)) == BeWord(block, i)
  {
    ReversedBytes(block[4 * i] as bv32, block[4 * i + 1] as bv32, block[4 * i + 2] as bv32, block[4 * i + 3] as bv32);
  }

  lemma ReversedBytes(a: bv32, b: bv32, c: bv32, d: bv32)
    requires a <= 0xff && b <= 0xff && c <= 0xff && d <= 0xff
    ensures Reversed(a | (b << 8) | (c << 16) | (d << 24)) == (a << 24) | (b << 16) | (c << 8) | d
  {
  }

  lemma XorOrder(a: bv32, b: bv32, c: bv32, d: bv32)
    ensures Xor4(a, b, c, d) == Xor4(d, c, b, a)
  {
    assert ((a ^ b) ^ c) ^ d == ((d ^ c) ^ b) ^ a;
  }

  /** The first sixteen words come from the message, the others from those before. */
  method Expand(mes: seq<bv32>, ghost block: seq<bv8>) returns (w: seq<bv32>)
    requires |block| == 64 && mes == Md5.WordsOf(block)
    ensures w == Schedule(block, 80)
  {
    hide Md5.LeWord, BeWord, Reversed, Xor4, Rotl;
    w := [];
    for i := 0 to 16
      invariant w == Schedule(block, i)
    {
      ReversedWord(block, i);
      w := w + [Reversed(mes[i])];
    }
    for i := 0 to 64
      invariant w == Schedule(block, 16 + i)
    {
      XorOrder(w[i], w[2 + i], w[8 + i], w[13 + i]);
      w := w + [Rotl(Xor4(w[i], w[2 + i], w[8 + i], w[13 + i]), 1)];
    }
  }

  /** The eighty steps. */
  method Steps(start: Regs, w: seq<bv32>) returns (reg: Regs)
    requires |w| == 80
    ensures reg == RfcSteps(start, w, 80)
  {
    hide Add, Rotl, F, K;
    reg := start;
    for i := 0 to 80
      invariant reg == RfcSteps(start, w, i)
    {
      var e := Add(reg[4], Add(Add(Add(F(i, reg[1], reg[2], reg[3]), w[i]), K(i)), Rotl(reg[0], 5)));
      var b := Rotl(reg[1], 30);
      reg := [e, reg[0], b, reg[2], reg[3]];
    }
  }

  /** SHATransform on the state in place. */
  method Transform(buf: array<bv32>, mes: seq<bv32>, ghost block: seq<bv8>)
    requires buf.Length == 5 && |block| == 64 && mes == Md5.WordsOf(block)
    modifies buf
    ensures buf[..] == RfcBlock(old(buf[..]), block)
  {
    hide Add, Schedule, RfcSteps, Md5.WordsOf;
    var w := Expand(mes, block);
    var reg := Steps(buf[..], w);
    buf[0], buf[1], buf[2], buf[3], buf[4] :=
      Add(buf[0], reg[0]), Add(buf[1], reg[1]), Add(buf[2], reg[2]), Add(buf[3], reg[3]), Add(buf[4], reg[4]);
    assert buf[..] == [buf[0], buf[1], buf[2], buf[3], buf[4]];
  }

  // ---- messages ----

  function Compress(r: Regs, block: seq<bv8>): Regs {
    if |block| == 64 then RfcBlock(r, block) else r
  }

  /** 2^64, the number of bits that the counter can not hold. */
  const SPAN := 0x1_0000_0000_0000_0000

  const START: Regs := [0x67452301, 0xefcdab89, 0x98badcfe, 0x10325476, 0xc3d2e1f0]

  /** The length in bits, high byte first. */
  function LengthBytes(n: nat): (r: seq<bv8>)
    ensures |r| == 8
  {
    seq(8, i requires 0 <= i < 8 => ByteAt(8 * n, 7 - i))
  }

  function Full(message: seq<bv8>): (r: seq<bv8>)
    ensures |r| % 64 == 0
  {
    Padded(message) + LengthBytes(|message|)
  }

  /** Byte j of a word, high byte first. */
  function ByteIn(w: bv32, j: nat): bv8
    requires j < 4
  {
    ((if j == 0 then w >> 24 else if j == 1 then w >> 16 else if j == 2 then w >> 8 else w) & 0xff) as bv8
  }

  function DigestByte(r: Regs, i: nat): bv8
    requires i < 20
  {
    ByteIn(r[i / 4], i % 4)
  }

  /** The digest of a message by RFC 3174. */
  function Digest(message: seq<bv8>): (d: seq<bv8>)
    ensures |d| == 20
  {
    var r := Fold(Compress, START, Full(message));
    seq(20, i requires 0 <= i < 20 => DigestByte(r, i))
  }

  /** The high word has become smaller exactly when 64 bits no longer hold the length. */
  lemma OverflowIff(low: nat, high: nat, n: nat, len: nat)
    requires Counts(low, high, n) && len < WORD && 8 * n < SPAN
    ensures CountHigh(low, high, len) < high <==> 8 * (n + len) >= SPAN
  {
    var carry := if CountLow(low, len) < low then 1 else 0;
    BitsNext(n, low, 8 * n / WORD, len);
    assert 8 * n / WORD < WORD;
    assert high == 8 * n / WORD;
    assert 8 * (n + len) == (high + carry + len / 0x2000_0000) * WORD + CountLow(low, len);
  }

  /**
   What becomes of a piece: it is taken, the message gets too long for its length field, or the copy goes past the
   block.
   */
  datatype Outcome = Taken | TooLong | Overrun

  function Judged(sofar: nat, len: nat): Outcome {
    if 8 * (sofar + len) >= SPAN then TooLong else if Overruns(sofar % 64, len) then Overrun else Taken
  }

  class Context {
    const buf: array<bv32>
    const input: array<bv8>
    var low: nat             // LenInBitCount
    var high: nat
    ghost var message: seq<bv8>

    ghost predicate Valid()
      reads this, buf, input
    {
      && buf.Length == 5 && input.Length == 64
      && Counts(low, high, |message|) && 8 * |message| < SPAN
      && buf[..] == Fold(Compress, START, Whole(message))
      && input[..|message| % 64] == Rest(message)
    }

    constructor ()
      ensures Valid() && fresh(buf) && fresh(input) && message == []
    {
      buf := new bv32[5](i requires 0 <= i < 5 => START[i]);
      input := new bv8[64](_ => 0);
      low, high, message := 0, 0, [];
      new;
      assert buf[..] == START;
    }
    /** NdisMoveMemory into the block. */
    method Move(at: nat, data: seq<bv8>)
      requires at + |data| <= input.Length
      modifies input
      ensures input[..] == old(input[..at]) + data + old(input[at + |data|..])
    {
      for i := 0 to |data|
        invariant input[..] == old(input[..at]) + data[..i] + old(input[at + i..])
      {
        input[at + i] := data[i];
      }
    }

    /** The block in input goes into buf. */
    method TransformInput()
      requires buf.Length == 5 && input.Length == 64
      modifies buf
      ensures buf[..] == Compress(old(buf[..]), input[..])
    {
      hide RfcBlock, Md5.WordsOf;
      Transform(buf, Md5.WordsOf(input[..]), input[..]);
    }

    /** What is at hand when the message so far is in whole blocks. */
    ghost predicate AtBoundary(done: seq<bv8>)
      reads this, buf, input
    {
      buf.Length == 5 && input.Length == 64 && |done| % 64 == 0 && buf[..] == Fold(Compress, START, done)
    }

    /** A whole block is taken in. */
    method TakeBlock(block: seq<bv8>, ghost done: seq<bv8>)
      requires AtBoundary(done) && |block| == 64
      modifies buf, input
      ensures AtBoundary(done + block)
    {
      hide Fold, Compress;
      Move(0, block);
      assert input[..] == block;
      TransformInput();
      FoldNext(Compress, START, done, block);
    }

    /** Data after a whole number of blocks: the loop over blocks, and the rest into the buffer. */
    method TakeData(data: seq<bv8>, ghost done: seq<bv8>)
      requires AtBoundary(done)
      modifies buf, input
      ensures buf.Length == 5 && input.Length == 64
      ensures buf[..] == Fold(Compress, START, Whole(done + data)) && input[..|done + data| % 64] == Rest(done + data)
    {
      hide Fold, Compress;
      var pos, times := 0, |data| / 64;
      assert done + data[..0] == done;
      for i := times downto 0
        invariant pos == 64 * (times - i) && AtBoundary(done + data[..pos])
      {
        assert (done + data[..pos]) + data[pos..pos + 64] == done + data[..pos + 64];
        TakeBlock(data[pos..pos + 64], done + data[..pos]);
        pos := pos + 64;
      }
      var rest := data[pos..];
      if rest != [] {
        Move(0, rest);
      }
      assert done + data == (done + data[..pos]) + rest;
      AddedToWhole(done + data[..pos], rest);
      assert input[..|rest|] == rest;
    }

    /** SHAUpdate. The source reports the error of a message that is too long; it does not see the overrun. */
    method Update(data: seq<bv8>) returns (r: Outcome)
      requires Valid() && |data| < WORD
      modifies this, buf, input
      ensures r == Judged(|old(message)|, |data|)
      ensures r == Taken ==> Valid() && message == old(message) + data
    {
      hide Fold, Compress;
      CountsNext(low, high, |message|, |data|);
      CountsPlace(low, high, |message|);
      OverflowIff(low, high, |message|, |data|);
      var place, high0 := low / 8 % 64, high;
      MisjudgedIff(place, |data|);
      hide Misjudged, CountLow, CountHigh, Counts;
      low, high := CountLow(low, |data|), CountHigh(low, high, |data|);
      if high < high0 {
        return TooLong;
      }
      if Misjudged(place, |data|) {
        return Overrun;
      }
      Take(place, data);
      return Taken;
    }

    /** The data of a message that is not too long. */
    method Take(place: nat, data: seq<bv8>)
      requires buf.Length == 5 && input.Length == 64 && place == |message| % 64
      requires |data| < WORD && (place == 0 || place + |data| < WORD)
      requires buf[..] == Fold(Compress, START, Whole(message)) && input[..place] == Rest(message)
      modifies buf, input, this`message
      ensures message == old(message) + data
      ensures buf[..] == Fold(Compress, START, Whole(message)) && input[..|message| % 64] == Rest(message)
    {
      hide Fold, Compress;
      ghost var was := message;
      message := message + data;
      if place != 0 {
        if (place + |data|) % WORD < 64 {
          AddedWithin(was, data);
          Move(place, data);
          assert input[..place + |data|] == old(input[..place]) + data;
          return;
        }
        TakeHead(data[..64 - place], was);
        assert (was + data[..64 - place]) + data[64 - place..] == message;
        TakeData(data[64 - place..], was + data[..64 - place]);
      } else {
        assert Whole(was) == was;
        TakeData(data, was);
      }
    }

    /** The bytes that complete the block at hand. */
    method TakeHead(head: seq<bv8>, ghost was: seq<bv8>)
      requires buf.Length == 5 && input.Length == 64 && 0 < |was| % 64 && |head| == 64 - |was| % 64
      requires buf[..] == Fold(Compress, START, Whole(was)) && input[..|was| % 64] == Rest(was)
      modifies buf, input
      ensures AtBoundary(was + head)
    {
      hide Fold, Compress;
      Move(64 - |head|, head);
      assert input[..] == Rest(was) + head;
      TransformInput();
      FoldNext(Compress, START, Whole(was), Rest(was) + head);
      assert Whole(was) + (Rest(was) + head) == was + head;
    }

    /** The length field of the last block, from the two counter words. */
    method PutLength(ghost n: nat)
      requires input.Length == 64 && Counts(low, high, n)
      modifies input
      ensures input[..] == old(input[..56]) + LengthBytes(n)
    {
      hide ByteAt, Counts;
      for i := 0 to 4
        invariant forall k :: 0 <= k < 56 ==> input[k] == old(input[k])
        invariant forall k :: 56 <= k < 56 + i || 60 <= k < 60 + i ==> input[k] == LengthBytes(n)[k - 56]
      {
        CounterBytes(low, high, n, 3 - i);
        input[56 + i] := ByteAt(high, 3 - i);
        input[60 + i] := ByteAt(low, 3 - i);
      }
    }

    /** The padding when the one bit and the length fit into the block at hand. */
    method PadShort()
      requires Valid() && |message| % 64 < 56
      modifies buf, input
      ensures buf.Length == 5 && buf[..] == Fold(Compress, START, Full(message))
    {
      hide Fold, Compress, LengthBytes, Padded;
      CountsPlace(low, high, |message|);
      var r := low / 8 % 64;
      PaddedShort(message, LengthBytes(|message|));
      Move(r, [0x80] + Zeros(56 - r - 1));
      assert input[..56] == Rest(message) + [0x80] + Zeros(55 - r);
      PutLength(|message|);
      FoldNext(Compress, START, Whole(message), input[..]);
      TransformInput();
    }

    /** The padding when they take another block. */
    method PadLong()
      requires Valid() && |message| % 64 >= 56
      modifies buf, input
      ensures buf.Length == 5 && buf[..] == Fold(Compress, START, Full(message))
    {
      hide Fold, Compress, LengthBytes, Padded, Zeros;
      CountsPlace(low, high, |message|);
      hide Counts, Whole, Rest;
      var r := low / 8 % 64;
      ghost var tail := LengthBytes(|message|);
      PaddedTwice(message, tail);
      var head := [0x80] + Zeros(64 - r - 1);
      TakeHead(head, message);
      Move(0, Zeros(56));
      PutLength(|message|);
      assert input[..] == Zeros(56) + tail;
      FoldNext(Compress, START, message + head, Zeros(56) + tail);
      TransformInput();
    }

    /** The place in the block comes from the counter. */
    method Pad()
      requires Valid()
      modifies buf, input
      ensures buf.Length == 5 && buf[..] == Fold(Compress, START, Full(message))
    {
      hide Fold, Compress, Full;
      CountsPlace(low, high, |message|);
      if low / 8 % 64 < 56 {
        PadShort();
      } else {
        PadLong();
      }
    }

    /** SHAFinal: the digest of everything put in. */
    method Final() returns (digest: seq<bv8>)
      requires Valid()
      modifies buf, input
      ensures digest == Digest(message)
    {
      hide Fold, Compress, Full, DigestByte;
      Pad();
      var r: Regs := buf[..];
      digest := [];
      for i := 0 to 20
        invariant digest == Digest(message)[..i]
      {
        digest := digest + [DigestByte(r, i)];
      }
    }
  }

  /** What becomes of piece i, if those before it are taken. */
  function JudgedAt(pieces: seq<seq<bv8>>, i: nat): Outcome
    requires i < |pieces|
  {
    Judged(|Md5.Joined(pieces[..i])|, |pieces[i]|)
  }

  /** The first piece that is not taken, or none. */
  ghost predicate FirstIs(pieces: seq<seq<bv8>>, i: nat, r: Outcome) {
    && i <= |pieces| && (forall k :: 0 <= k < i ==> JudgedAt(pieces, k) == Taken)
    && r == if i < |pieces| then JudgedAt(pieces, i) else Taken
  }

  /**
   However a message is cut into pieces, the digest is that of the message, unless it has 2^64 bits or more or a piece
   goes past the end of the block; the first such piece decides.
   */
  method DigestOfPieces(pieces: seq<seq<bv8>>) returns (r: Outcome, n: nat, digest: seq<bv8>)
    requires forall i :: 0 <= i < |pieces| ==> |pieces[i]| < WORD
    ensures FirstIs(pieces, n, r) && (r == Taken ==> n == |pieces| && digest == Digest(Md5.Joined(pieces)))
  {
    hide Digest, Fold, Compress, Md5.Joined, Counts, Whole, Rest, Judged, JudgedAt;
    var ctx := new Context();
    digest, r := [], Taken;
    Md5.NoPieces(pieces);
    for i := 0 to |pieces|
      invariant ctx.Valid() && fresh(ctx) && fresh(ctx.buf) && fresh(ctx.input)
                && ctx.message == Md5.Joined(pieces[..i])
      invariant forall k :: 0 <= k < i ==> JudgedAt(pieces, k) == Taken
    {
      Md5.JoinedNext(pieces, i);
      JudgedAtIs(pieces, i);
      r := ctx.Update(pieces[i]);
      if r != Taken {
        return r, i, [];
      }
    }
    assert pieces[..|pieces|] == pieces;
    digest := ctx.Final();
    return Taken, |pieces|, digest;
  }

  lemma JudgedAtIs(pieces: seq<seq<bv8>>, i: nat)
    requires i < |pieces|
    ensures JudgedAt(pieces, i) == Judged(|Md5.Joined(pieces[..i])|, |pieces[i]|)
  {
  }

  lemma {:induction false} JoinedGrows(pieces: seq<seq<bv8>>, i: nat)
    requires i <= |pieces|
    ensures |Md5.Joined(pieces[..i])| <= |Md5.Joined(pieces)|
    decreases |pieces| - i
  {
    if i < |pieces| {
      Md5.JoinedNext(pieces, i);
      JoinedGrows(pieces, i + 1);
    } else {
      assert pieces[..i] == pieces;
    }
  }

  /** Pieces of up to 2^32 - 64 bytes are all taken exactly when the message has less than 2^64 bits. */
  lemma SmallPieces(pieces: seq<seq<bv8>>)
    requires forall i :: 0 <= i < |pieces| ==> |pieces[i]| <= WORD - 64
    ensures (forall i :: 0 <= i < |pieces| ==> JudgedAt(pieces, i) == Taken) <==> 8 * |Md5.Joined(pieces)| < SPAN
  {
    hide Md5.Joined;
    forall i | 0 <= i < |pieces|
      ensures JudgedAt(pieces, i) == Taken <==> 8 * |Md5.Joined(pieces[..i + 1])| < SPAN
      ensures |Md5.Joined(pieces[..i + 1])| <= |Md5.Joined(pieces)|
    {
      Md5.JoinedNext(pieces, i);
      JoinedGrows(pieces, i + 1);
    }
    Md5.NoPieces(pieces);
    if pieces == [] {
      assert pieces == pieces[..0];
    } else {
      var n := |pieces| - 1;
      assert pieces[..n + 1] == pieces;
      assert JudgedAt(pieces, n) == Taken <==> 8 * |Md5.Joined(pieces)| < SPAN;
    }
  }
}
