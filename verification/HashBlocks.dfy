/**
 What MD5 and SHA-1 have in common: a message is padded to a multiple of 64 bytes, and a
 transform is folded over its blocks. The lemmas here say how the fold goes on when bytes
 are added, and what the two-word bit counter holds.
 */
module HashBlocks {
  const WORD := 0x1_0000_0000

  /** The transform folded over the whole blocks of a message. */
  function Fold<S>(tf: (S, seq<bv8>) -> S, start: S, message: seq<bv8>): S
    requires |message| % 64 == 0
  {
    if message == [] then start
    else tf(Fold(tf, start, message[..|message| - 64]), message[|message| - 64..])
  }

  lemma FoldNext<S>(tf: (S, seq<bv8>) -> S, start: S, message: seq<bv8>, block: seq<bv8>)
    requires |message| % 64 == 0 && |block| == 64
    ensures Fold(tf, start, message + block) == tf(Fold(tf, start, message), block)
  {
    var all := message + block;
    assert all[..|all| - 64] == message && all[|all| - 64..] == block;
  }

  /** The part of a message that is in whole blocks. */
  function Whole(message: seq<bv8>): (r: seq<bv8>)
    ensures |r| % 64 == 0
  {
    message[..|message| - |message| % 64]
  }

  function Rest(message: seq<bv8>): (r: seq<bv8>)
    ensures |r| == |message| % 64 && message == Whole(message) + r
  {
    message[|message| - |message| % 64..]
  }

  /** Adding fewer bytes than are missing to a block. */
  lemma AddedWithin(message: seq<bv8>, data: seq<bv8>)
    requires |message| % 64 + |data| < 64
    ensures Whole(message + data) == Whole(message) && Rest(message + data) == Rest(message) + data
  {
    assert |message + data| % 64 == |message| % 64 + |data|;
  }

  /** Adding bytes to whole blocks. */
  lemma AddedToWhole(message: seq<bv8>, data: seq<bv8>)
    requires |message| % 64 == 0 && |data| < 64
    ensures Whole(message + data) == message && Rest(message + data) == data
  {
    assert |message + data| % 64 == |data|;
  }

  // ---- the bit counter ----

  /** The number of bits of n bytes, as two words. */
  predicate Counts(low: nat, high: nat, n: nat) {
    low == 8 * n % WORD && high == 8 * n / WORD % WORD
  }

  function CountLow(low: nat, len: nat): nat { (low + len * 8 % WORD) % WORD }

  /** A carry when the low word has become smaller, and the bits that do not fit the low word. */
  function CountHigh(low: nat, high: nat, len: nat): nat {
    (high + (if CountLow(low, len) < low then 1 else 0) + len / 0x2000_0000) % WORD
  }

  lemma CountsNext(low: nat, high: nat, n: nat, len: nat)
    requires Counts(low, high, n) && len < WORD
    ensures Counts(CountLow(low, len), CountHigh(low, high, len), n + len)
  {
    var q := 8 * n / WORD;
    var carry := if CountLow(low, len) < low then 1 else 0;
    BitsNext(n, low, q, len);
    TwoWords(8 * (n + len), q + carry + len / 0x2000_0000, CountLow(low, len));
    ModAdd(q, carry + len / 0x2000_0000);
  }

  lemma BitsNext(n: nat, low: nat, q: nat, len: nat)
    requires 8 * n == q * WORD + low && low < WORD && len < WORD
    ensures var carry := if CountLow(low, len) < low then 1 else 0;
            && 8 * (n + len) == (q + carry + len / 0x2000_0000) * WORD + CountLow(low, len)
            && CountLow(low, len) < WORD
  {
    assert 8 * len == len / 0x2000_0000 * WORD + 8 * len % WORD;
  }

  lemma ModAdd(q: nat, x: nat)
    ensures (q % WORD + x) % WORD == (q + x) % WORD
  {
  }

  lemma TwoWords(x: nat, q: nat, low: nat)
    requires x == q * WORD + low && low < WORD
    ensures x / WORD == q && x % WORD == low
  {
  }

  /** The place in the block, from the low word. */
  lemma CountsPlace(low: nat, high: nat, n: nat)
    requires Counts(low, high, n)
    ensures low / 8 % 64 == n % 64
  {
    var q := 8 * n / WORD;
    assert 8 * n == q * WORD + low;
    assert n == q * 0x2000_0000 + low / 8;
  }

  /**
   The 32-bit sum that the guard for a short piece looks at wraps around, and the piece goes past the end of the
   block.
   */
  predicate Overruns(place: nat, len: nat) {
    place > 0 && place + len >= WORD
  }

  /** The guard lets a piece through that does not fit. */
  predicate Misjudged(place: nat, len: nat) {
    place != 0 && (place + len) % WORD < 64 < place + len
  }

  lemma MisjudgedIff(place: nat, len: nat)
    requires place < 64 && len < WORD
    ensures Misjudged(place, len) <==> Overruns(place, len)
  {
  }

  /** Byte i of a number, from the low end. */
  function Digit(x: nat, i: nat): (d: nat)
    requires i < 8
    ensures d < 256
  {
    x / [1, 0x100, 0x1_0000, 0x100_0000, 0x1_0000_0000, 0x100_0000_0000, 0x1_0000_0000_0000,
        0x100_0000_0000_0000][i] % 256
  }

  function ByteAt(x: nat, i: nat): bv8
    requires i < 8
  {
    Digit(x, i) as bv8
  }

  lemma LowDigit(x: nat, q: nat, low: nat, i: nat)
    requires x == q * WORD + low && low < WORD && i < 4
    ensures Digit(x, i) == Digit(low, i)
  {
    if i == 0 {
      LowestDigit(q * 0x100_0000, low);
    } else if i == 1 {
      LowestDigit(q * 0x1_0000, low / 0x100);
      assert x / 0x100 == (q * 0x1_0000) * 0x100 + low / 0x100;
    } else if i == 2 {
      LowestDigit(q * 0x100, low / 0x1_0000);
      assert x / 0x1_0000 == (q * 0x100) * 0x100 + low / 0x1_0000;
    } else {
      LowestDigit(q, low / 0x100_0000);
      assert x / 0x100_0000 == q * 0x100 + low / 0x100_0000;
    }
  }

  lemma LowestDigit(a: nat, b: nat)
    ensures (a * 0x100 + b) % 0x100 == b % 0x100
  {
  }

  lemma HighDigit(x: nat, i: nat)
    requires i < 4
    ensures Digit(x, i + 4) == Digit(x / WORD, i)
  {
  }

  /** The bytes of the bit count are those of the two counter words. */
  lemma CounterBytes(low: nat, high: nat, n: nat, i: nat)
    requires Counts(low, high, n) && i < 4
    ensures ByteAt(8 * n, i) == ByteAt(low, i) && ByteAt(8 * n, i + 4) == ByteAt(high, i)
  {
    hide Digit;
    var b, q := 8 * n, 8 * n / WORD;
    LowDigit(b, q, low, i);
    HighDigit(b, i);
    LowDigit(q, q / WORD, high, i);
  }

  // ---- padding ----

  /** RFC 1321 section 3.1 and RFC 3174 section 4: a one bit, then zero bits to 56 bytes modulo 64. */
  function Padded(message: seq<bv8>): (r: seq<bv8>)
    ensures |r| % 64 == 56
  {
    message + [0x80] + seq((119 - |message| % 64) % 64, _ => 0 as bv8)
  }

  function Zeros(n: nat): (r: seq<bv8>)
    ensures |r| == n
  {
    seq(n, _ => 0 as bv8)
  }

  /** The last blocks when the one bit and the length fit behind the rest. */
  lemma PaddedShort(message: seq<bv8>, tail: seq<bv8>)
    requires |message| % 64 < 56 && |tail| == 8
    ensures var block := Rest(message) + [0x80] + Zeros(55 - |message| % 64) + tail;
            |block| == 64 && Padded(message) + tail == Whole(message) + block
  {
    var r := |message| % 64;
    assert (119 - r) % 64 == 55 - r;
    assert Padded(message) == Whole(message) + (Rest(message) + [0x80] + Zeros(55 - r));
  }

  /** The last blocks when they do not. */
  lemma PaddedLong(message: seq<bv8>, tail: seq<bv8>)
    requires |message| % 64 >= 56 && |tail| == 8
    ensures var block, last := Rest(message) + [0x80] + Zeros(63 - |message| % 64), Zeros(56) + tail;
            |block| == 64 && |last| == 64 && Padded(message) + tail == (Whole(message) + block) + last
  {
    var r := |message| % 64;
    assert (119 - r) % 64 == 119 - r;
    assert Zeros(119 - r) == Zeros(63 - r) + Zeros(56);
    assert Padded(message) == (Whole(message) + (Rest(message) + [0x80] + Zeros(63 - r))) + Zeros(56);
  }

  /** The same, as what completes the block at hand and the block after it. */
  lemma PaddedTwice(message: seq<bv8>, tail: seq<bv8>)
    requires |message| % 64 >= 56 && |tail| == 8
    ensures var head := [0x80] + Zeros(63 - |message| % 64);
            && |head| == 64 - |message| % 64 && |message + head| % 64 == 0
            && Padded(message) + tail == (message + head) + (Zeros(56) + tail)
  {
    hide Padded;
    var r := |message| % 64;
    PaddedLong(message, tail);
    var head := [0x80] + Zeros(63 - r);
    assert Whole(message) + (Rest(message) + [0x80] + Zeros(63 - r)) == message + head;
  }
}
