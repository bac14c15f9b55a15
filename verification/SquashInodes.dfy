/**
 Inodes in a squashfs image: their headers are records of bit fields, written into the
 inode table and read back from it through the references in the directories.
 */
module SquashInodes {
  import opened Bytes
  import BitFields

  type Bits = seq<bool>

  // ---- numbers as bits, most significant first ----

  function Power(w: nat): (p: nat)
    ensures p > 0
  {
    if w == 0 then 1 else 2 * Power(w - 1)
  }

  /** The widths of fields. */
  lemma Widths()
    ensures Power(4) == 0x10 && Power(8) == 0x100 && Power(12) == 0x1000 && Power(13) == 0x2000 && Power(16) == 0x1_0000
    ensures Power(19) == 0x8_0000 && Power(27) == 0x800_0000 && Power(32) == 0x1_0000_0000
    ensures Power(64) == 0x1_0000_0000_0000_0000
  {
    PowerSum(32, 32);
  }

  lemma {:induction false} PowerSum(a: nat, b: nat)
    ensures Power(a + b) == Power(a) * Power(b)
    decreases b
  {
    if b > 0 {
      PowerSum(a, b - 1);
    }
  }

  function BitsOf(n: nat, w: nat): (b: Bits)
    ensures |b| == w
  {
    if w == 0 then [] else BitsOf(n / 2, w - 1) + [n % 2 == 1]
  }

  function NumberOf(b: Bits): (n: nat)
    ensures n < Power(|b|)
  {
    if b == [] then 0 else 2 * NumberOf(b[..|b| - 1]) + if b[|b| - 1] then 1 else 0
  }

  lemma {:induction false} NumberOfBits(n: nat, w: nat)
    requires n < Power(w)
    ensures NumberOf(BitsOf(n, w)) == n
  {
    if w > 0 {
      NumberOfBits(n / 2, w - 1);
      assert BitsOf(n, w)[..w - 1] == BitsOf(n / 2, w - 1);
    }
  }

  lemma {:induction false} BitsOfNumber(b: Bits)
    ensures BitsOf(NumberOf(b), |b|) == b
  {
    hide Power;
    if b != [] {
      var n := |b| - 1;
      BitsOfNumber(b[..n]);
      var h, last := NumberOf(b[..n]), if b[n] then 1 else 0;
      assert NumberOf(b) / 2 == h && NumberOf(b) % 2 == last;
      assert BitsOf(NumberOf(b), |b|) == BitsOf(h, n) + [last == 1];
      assert b == b[..n] + [b[n]];
    }
  }

  // ---- byte order ----

  function Reversed(b: Bits): (r: Bits)
    ensures |r| == |b| && forall i :: 0 <= i < |b| ==> r[i] == b[|b| - 1 - i]
  {
    seq(|b|, i requires 0 <= i < |b| => b[|b| - 1 - i])
  }

  /** The macros count bits from the most significant one, the compiler's own bit fields from the least significant. */
  function Ordered(swap: bool, b: Bits): (r: Bits)
    ensures |r| == |b|
  {
    if swap then b else Reversed(b)
  }

  lemma OrderedTwice(swap: bool, b: Bits)
    ensures Ordered(swap, Ordered(swap, b)) == b
  {
    assert Reversed(Reversed(b)) == b;
  }

  function ToByte(swap: bool, b: BitFields.Byte8): byte {
    assert Power(8) == 256;
    NumberOf(Ordered(swap, b))
  }

  function FromByte(swap: bool, x: byte): BitFields.Byte8 {
    Ordered(swap, BitsOf(x, 8))
  }

  lemma FromToByte(swap: bool, b: BitFields.Byte8)
    ensures FromByte(swap, ToByte(swap, b)) == b
  {
    hide BitsOf, NumberOf, Ordered;
    BitsOfNumber(Ordered(swap, b));
    OrderedTwice(swap, b);
  }

  /** A number as the value of a field. */
  function Word(swap: bool, n: nat, width: nat): BitFields.Word64
    requires width <= 64
  {
    BitFields.Zeros(64 - width) + Ordered(swap, BitsOf(n, width))
  }

  /** The number that a field's value stands for. */
  function Value(swap: bool, w: BitFields.Word64, width: nat): nat
    requires width <= 64
  {
    NumberOf(Ordered(swap, w[64 - width..]))
  }

  lemma ValueOfWord(swap: bool, n: nat, width: nat)
    requires width <= 64 && n < Power(width)
    ensures Value(swap, BitFields.Truncate(Word(swap, n, width), width), width) == n
  {
    hide BitsOf, NumberOf, Ordered, Power;
    var b := BitsOf(n, width);
    OrderedTwice(swap, b);
    NumberOfBits(n, width);
    assert Word(swap, n, width)[64 - width..] == Ordered(swap, b);
    assert BitFields.Truncate(Word(swap, n, width), width)[64 - width..] == Ordered(swap, b);
  }

  // ---- headers ----

  predicate InRange(spans: seq<BitFields.Span>, values: seq<nat>) {
    |values| == |spans| && forall i :: 0 <= i < |spans| ==> values[i] < Power(spans[i].width)
  }

  /** A header of n bytes: consecutive fields and a value for each. */
  predicate HeaderOk(spans: seq<BitFields.Span>, n: nat, values: seq<nat>) {
    BitFields.Consecutive(spans, 8 * n) && InRange(spans, values)
  }

  function FieldsOf(swap: bool, spans: seq<BitFields.Span>, values: seq<nat>): (f: seq<BitFields.Field>)
    requires |values| == |spans| && forall i :: 0 <= i < |spans| ==> spans[i].width <= 64
    ensures |f| == |spans|
  {
    seq(|spans|, i requires 0 <= i < |spans| =>
      BitFields.Field(spans[i].pos, spans[i].width, Word(swap, values[i], spans[i].width)))
  }

  lemma FieldsOk(swap: bool, spans: seq<BitFields.Span>, n: nat, values: seq<nat>)
    requires BitFields.Consecutive(spans, 8 * n) && |values| == |spans|
    ensures var f := FieldsOf(swap, spans, values); BitFields.Layout(f, n) && BitFields.AllClean(f)
  {
    hide Word, Power, BitFields.Layout;
    var f := FieldsOf(swap, spans, values);
    BitFields.ConsecutiveIsLayout(spans, n, f);
    forall i | 0 <= i < |f|
      ensures BitFields.Fits(f[i]) && BitFields.Clean(f[i])
    {
      WordClean(swap, f[i].pos, values[i], f[i].width);
    }
    LayoutFits(f, n);
  }

  lemma LayoutFits(f: seq<BitFields.Field>, n: nat)
    requires BitFields.Layout(f, n)
    ensures forall i :: 0 <= i < |f| ==> BitFields.Fits(f[i])
  {
  }

  lemma WordClean(swap: bool, pos: nat, n: nat, width: nat)
    requires 1 <= width && width + pos % 8 <= 64
    ensures BitFields.Clean(BitFields.Field(pos, width, Word(swap, n, width)))
  {
    hide BitsOf, Ordered;
    LeadingZeros(64 - width, Ordered(swap, BitsOf(n, width)), pos % 8);
  }

  lemma LeadingZeros(a: nat, b: Bits, p: nat)
    requires p <= a
    ensures (BitFields.Zeros(a) + b)[a - p..a] == BitFields.Zeros(p)
  {
  }

  /** The bytes begin with the header, bit by bit. */
  ghost predicate Begins(swap: bool, spans: seq<BitFields.Span>, n: nat, values: seq<nat>, bytes: seq<byte>)
    requires HeaderOk(spans, n, values)
  {
    && n <= |bytes|
    && forall q :: 0 <= q < 8 * n ==>
         FromByte(swap, bytes[q / 8])[q % 8] == BitFields.RecordBit(FieldsOf(swap, spans, values), q)
  }

  /** Byte i of a record of bits. */
  function BitsAt(fields: seq<BitFields.Field>, i: nat): BitFields.Byte8
    requires forall k :: 0 <= k < |fields| ==> fields[k].width <= 64
  {
    seq(8, r requires 0 <= r < 8 => BitFields.RecordBit(fields, 8 * i + r))
  }

  /** The header as it is written; a value too large for its field is cut down to it. */
  function HeaderBytes(swap: bool, spans: seq<BitFields.Span>, n: nat, values: seq<nat>): (b: seq<byte>)
    requires |values| == |spans| && forall i :: 0 <= i < |spans| ==> spans[i].width <= 64
    ensures |b| == n
  {
    var fields := FieldsOf(swap, spans, values);
    seq(n, i requires 0 <= i < n => ToByte(swap, BitsAt(fields, i)))
  }

  lemma HeaderBegins(swap: bool, spans: seq<BitFields.Span>, n: nat, values: seq<nat>)
    requires HeaderOk(spans, n, values)
    ensures Begins(swap, spans, n, values, HeaderBytes(swap, spans, n, values))
  {
    hide Word, Power, ToByte, FromByte, BitFields.RecordBit;
    var fields := FieldsOf(swap, spans, values);
    forall q | 0 <= q < 8 * n
      ensures FromByte(swap, HeaderBytes(swap, spans, n, values)[q / 8])[q % 8] == BitFields.RecordBit(fields, q)
    {
      FromToByte(swap, BitsAt(fields, q / 8));
      assert 8 * (q / 8) + q % 8 == q;
    }
  }

  method Pack(swap: bool, spans: seq<BitFields.Span>, n: nat, values: seq<nat>) returns (bytes: seq<byte>)
    requires BitFields.Consecutive(spans, 8 * n) && |values| == |spans|
    ensures bytes == HeaderBytes(swap, spans, n, values)
    ensures HeaderOk(spans, n, values) ==> Begins(swap, spans, n, values, bytes)
  {
    hide Word, Power, ToByte, FromByte, BitFields.RecordBit, BitFields.Layout;
    FieldsOk(swap, spans, n, values);
    if HeaderOk(spans, n, values) {
      HeaderBegins(swap, spans, n, values);
    }
    var fields := FieldsOf(swap, spans, values);
    var buf := new BitFields.Byte8[n](_ => BitFields.Zeros(8));
    BitFields.PackRecord(buf, fields);
    var packed := buf[..];
    bytes := seq(n, i requires 0 <= i < n => ToByte(swap, packed[i]));
    forall i | 0 <= i < n
      ensures packed[i] == BitsAt(fields, i)
    {
      forall r | 0 <= r < 8
        ensures packed[i][r] == BitsAt(fields, i)[r]
      {
        assert BitFields.Bits(packed)[8 * i + r] == packed[i][r];
      }
    }
  }

  /** Field j of a header of which the first m bytes are at hand. */
  method ReadField(swap: bool, bytes: seq<byte>, span: BitFields.Span, m: nat,
                   ghost spans: seq<BitFields.Span>, ghost n: nat, ghost values: seq<nat>, ghost j: nat)
    returns (v: nat)
    requires HeaderOk(spans, n, values) && Begins(swap, spans, n, values, bytes)
    requires j < |spans| && spans[j] == span && m <= n && span.pos + span.width <= 8 * m
    ensures v == values[j]
  {
    hide Power, Value, FromByte, Word, BitFields.RecordBit, BitFields.Layout;
    ghost var fields := FieldsOf(swap, spans, values);
    FieldsOk(swap, spans, n, values);
    var buf := new BitFields.Byte8[m](i requires 0 <= i < m => FromByte(swap, bytes[i]));
    var raw := BitFields.UnpackField(buf, span.pos, span.width);
    ghost var f := fields[j];
    forall q: nat | BitFields.Covers(f, q)
      ensures raw[64 - f.width + q - f.pos] == BitFields.BitAt(f, q)
    {
      BitFields.OwnBits(fields, n, j, q);
      assert BitFields.Bits(buf[..])[q] == FromByte(swap, bytes[q / 8])[q % 8];
    }
    BitFields.TruncateRestores(raw, f);
    ValueOfWord(swap, values[j], span.width);
    v := Value(swap, BitFields.Truncate(raw, span.width), span.width);
  }

  // ---- what all inodes begin with ----

  datatype Attributes = Attributes(mode: nat, uid: nat, guid: nat, mtime: nat)

  predicate AttributesOk(a: Attributes) {
    a.mode < 0x1000 && a.uid < 0x100 && a.guid < 0x100 && a.mtime < 0x1_0000_0000
  }

  function BaseValues(kind: nat, a: Attributes, number: nat): seq<nat> {
    [kind, a.mode, a.uid, a.guid, a.mtime, number]
  }

  /** SQUASHFS_SWAP_BASE_INODE_HEADER: which kind of inode it is, the attributes, and its number. */
  method ReadBase(swap: bool, bytes: seq<byte>, ghost spans: seq<BitFields.Span>, ghost n: nat, ghost values: seq<nat>,
                  ghost k: nat, ghost a: Attributes, ghost number: nat)
    returns (kind: nat, attr: Attributes, found: nat)
    requires HeaderOk(spans, n, values) && Begins(swap, spans, n, values, bytes) && n >= 12
    requires BitFields.BASE_INODE <= spans && BaseValues(k, a, number) <= values
    ensures kind == k && attr == a && found == number
  {
    hide HeaderOk, Begins;
    assert spans[0] == BitFields.BASE_INODE[0] && spans[1] == BitFields.BASE_INODE[1]
           && spans[2] == BitFields.BASE_INODE[2];
    assert spans[3] == BitFields.BASE_INODE[3] && spans[4] == BitFields.BASE_INODE[4]
           && spans[5] == BitFields.BASE_INODE[5];
    kind := ReadField(swap, bytes, BitFields.Span(0, 4), 12, spans, n, values, 0);
    var mode := ReadField(swap, bytes, BitFields.Span(4, 12), 12, spans, n, values, 1);
    var uid := ReadField(swap, bytes, BitFields.Span(16, 8), 12, spans, n, values, 2);
    var guid := ReadField(swap, bytes, BitFields.Span(24, 8), 12, spans, n, values, 3);
    var mtime := ReadField(swap, bytes, BitFields.Span(32, 32), 12, spans, n, values, 4);
    attr := Attributes(mode, uid, guid, mtime);
    found := ReadField(swap, bytes, BitFields.Span(64, 32), 12, spans, n, values, 5);
  }
}
