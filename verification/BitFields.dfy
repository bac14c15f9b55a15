/**
 The macros that carry packed bit-field records between byte orders. A field of a record
 is ORed into a cleared buffer at any bit position, most significant bit first, and read
 back from there. Machine words are sequences of bits, most significant first.
 */
module BitFields {

  type Byte8 = b: seq<bool> | |b| == 8 witness [false, false, false, false, false, false, false, false]
  type Word64 = w: seq<bool> | |w| == 64 witness seq(64, _ => false)

  function Zeros(n: nat): seq<bool> { seq(n, _ => false) }

  function Shl(w: Word64, k: nat): Word64
    requires k <= 64
  {
    w[k..] + Zeros(k)
  }

  function Shr(w: Word64, k: nat): Word64
    requires k <= 64
  {
    Zeros(k) + w[..64 - k]
  }

  function Or(a: Byte8, b: Byte8): Byte8 {
    seq(8, i requires 0 <= i < 8 => a[i] || b[i])
  }

  /** The bits of a buffer in order. */
  function Bits(buf: seq<Byte8>): (s: seq<bool>)
    ensures |s| == 8 * |buf|
  {
    seq(8 * |buf|, q requires 0 <= q < 8 * |buf| => buf[q / 8][q % 8])
  }

  /** A field of a record: where its first bit goes, how many bits it has, and its value. */
  datatype Field = Field(pos: nat, width: nat, value: Word64)

  /** What the macros need of a field: it fits one 64-bit register, byte offset included. */
  predicate Fits(f: Field) {
    1 <= f.width && f.width + f.pos % 8 <= 64
  }

  /**
   No bit of the value lies just above its width, where the shift would carry it into the
   byte's earlier bits. Bits further up are shifted out of the register.
   */
  predicate Clean(f: Field)
    requires Fits(f)
  {
    f.value[64 - f.width - f.pos % 8..64 - f.width] == Zeros(f.pos % 8)
  }

  predicate Covers(f: Field, q: nat) { f.pos <= q < f.pos + f.width }

  /** The bit that a field puts at position q. */
  predicate BitAt(f: Field, q: nat)
    requires f.width <= 64
  {
    Covers(f, q) && f.value[64 - f.width + (q - f.pos)]
  }

  /** The bit that the packing macro ORs in at position q, which may lie before the field in its first byte. */
  predicate OredAt(f: Field, q: nat)
    requires Fits(f)
  {
    f.pos - f.pos % 8 <= q < f.pos + f.width && f.value[64 - f.width + q - f.pos]
  }

  /** The macro ORs in exactly the bits of the field if and only if the value is clean. */
  lemma OnlyTheField(f: Field)
    requires Fits(f)
    ensures (forall q: nat :: OredAt(f, q) == BitAt(f, q)) <==> Clean(f)
  {
    var lo, k := 64 - f.width - f.pos % 8, f.pos % 8;
    if Clean(f) {
      forall q: nat | f.pos - k <= q < f.pos
        ensures !OredAt(f, q)
      {
        assert f.value[lo..64 - f.width][q - (f.pos - k)] == Zeros(k)[q - (f.pos - k)];
      }
    } else {
      var j :| 0 <= j < k && f.value[lo..64 - f.width][j] != Zeros(k)[j];
      assert f.value[lo + j];
      var q := f.pos - k + j;
      assert 64 - f.width + q - f.pos == lo + j;
      assert OredAt(f, q) && !BitAt(f, q);
    }
  }

  /** Truncation on assignment to a field of the given width. */
  function Truncate(w: Word64, width: nat): Word64
    requires width <= 64
  {
    Zeros(64 - width) + w[64 - width..]
  }

  // ---- one field ----

  /** Byte i of a word, counted from its most significant one. */
  function ByteOf(w: Word64, i: nat): Byte8
    requires i < 8
  {
    w[8 * i..8 * i + 8]
  }

  /** Number of bytes that bits bits reach into. */
  function ByteCount(bits: nat): nat { (bits + 7) / 8 }

  /** The loop of the packing macro: the leading bytes of val are ORed in from byte d on. */
  method OrBytes(buf: array<Byte8>, d: nat, val: Word64, total: nat)
    requires total <= 64 && d + ByteCount(total) <= buf.Length
    modifies buf
    ensures forall i :: 0 <= i < buf.Length ==>
              buf[i] == if d <= i < d + ByteCount(total) then Or(old(buf[i]), ByteOf(val, i - d)) else old(buf[i])
  {
    var bits, n := 0, 0;
    while bits < total
      invariant bits == 8 * n && n <= ByteCount(total)
      invariant forall i :: 0 <= i < buf.Length ==>
                  buf[i] == if d <= i < d + n then Or(old(buf[i]), ByteOf(val, i - d)) else old(buf[i])
    {
      buf[d + n] := Or(buf[d + n], ByteOf(val, n));
      bits, n := bits + 8, n + 1;
    }
  }

  /** The packing macro. */
  method PackField(buf: array<Byte8>, f: Field)
    requires Fits(f) && f.pos + f.width <= 8 * buf.Length
    modifies buf
    ensures forall q :: 0 <= q < 8 * buf.Length ==> Bits(buf[..])[q] == (old(Bits(buf[..]))[q] || OredAt(f, q))
  {
    var bPos := f.pos % 8;
    var val := Shl(f.value, 64 - f.width - bPos);
    OrBytes(buf, f.pos / 8, val, f.width + bPos);
    forall q | 0 <= q < 8 * buf.Length
      ensures Bits(buf[..])[q] == (old(Bits(buf[..]))[q] || OredAt(f, q))
    {
      hide OredAt, Shl, Or, ByteOf;
      PackedBit(f, q / 8, q % 8, old(buf[q / 8]), buf[q / 8]);
    }
  }

  /** Bit r of byte i after the field is ORed in. */
  lemma PackedBit(f: Field, i: nat, r: nat, before: Byte8, after: Byte8)
    requires Fits(f) && r < 8
    requires after == var n := i - f.pos / 8;
                      if 0 <= n < ByteCount(f.width + f.pos % 8)
                      then Or(before, ByteOf(Shl(f.value, 64 - f.width - f.pos % 8), n)) else before
    ensures after[r] == (before[r] || OredAt(f, 8 * i + r))
  {
    hide Shl;
    var n := i - f.pos / 8;
    if 0 <= n < 8 {
      ShiftedBit(f, 8 * n + r);
    }
  }

  /** Bit j of the shifted value. */
  lemma ShiftedBit(f: Field, j: nat)
    requires Fits(f) && j < 64
    ensures Shl(f.value, 64 - f.width - f.pos % 8)[j] == OredAt(f, 8 * (f.pos / 8) + j)
  {
  }

  /** The loop of the unpacking macro: bytes from byte s on, left-aligned in a register. */
  method GatherBytes(buf: array<Byte8>, s: nat, total: nat) returns (val: Word64)
    requires total <= 64 && s + ByteCount(total) <= buf.Length
    ensures forall i :: 0 <= i < ByteCount(total) ==> ByteOf(val, i) == buf[s + i]
  {
    val := Zeros(64);
    var bits, n := 0, 0;
    while bits < total
      invariant bits == 8 * n && n <= ByteCount(total)
      invariant forall i :: 0 <= i < n ==> ByteOf(val, i) == buf[s + i]
    {
      ghost var before := val;
      val := val[..bits] + buf[s + n] + val[bits + 8..];
      assert forall i :: 0 <= i < n ==> ByteOf(val, i) == ByteOf(before, i);
      bits, n := bits + 8, n + 1;
    }
  }

  /** The unpacking macro, before the value is assigned. */
  method UnpackField(buf: array<Byte8>, pos: nat, width: nat) returns (value: Word64)
    requires 1 <= width && width + pos % 8 <= 64 && pos + width <= 8 * buf.Length
    ensures forall q :: 0 <= q < 8 * buf.Length && pos <= q < pos + width ==>
              Bits(buf[..])[q] == value[64 - width + q - pos]
  {
    var bPos, s := pos % 8, pos / 8;
    var val := GatherBytes(buf, s, width + bPos);
    value := Shr(val, 64 - width - bPos);
    forall q | 0 <= q < 8 * buf.Length && pos <= q < pos + width
      ensures Bits(buf[..])[q] == value[64 - width + q - pos]
    {
      var i := q / 8 - s;
      assert 0 <= i < ByteCount(width + bPos);
      assert ByteOf(val, i)[q % 8] == buf[s + i][q % 8];
    }
  }

  // ---- whole records ----

  predicate Disjoint(f: Field, g: Field) {
    f.pos + f.width <= g.pos || g.pos + g.width <= f.pos
  }

  /** Fields that fit a buffer of n bytes and do not overlap, in any order. */
  predicate Layout(fields: seq<Field>, n: nat) {
    && (forall i :: 0 <= i < |fields| ==> Fits(fields[i]) && fields[i].pos + fields[i].width <= 8 * n)
    && (forall i, j :: 0 <= i < j < |fields| ==> Disjoint(fields[i], fields[j]))
  }

  predicate AllClean(fields: seq<Field>)
    requires forall i :: 0 <= i < |fields| ==> Fits(fields[i])
  {
    forall i :: 0 <= i < |fields| ==> Clean(fields[i])
  }

  /** The bit that the record as a whole has at position q. */
  predicate RecordBit(fields: seq<Field>, q: nat)
    requires forall i :: 0 <= i < |fields| ==> fields[i].width <= 64
  {
    exists i :: 0 <= i < |fields| && BitAt(fields[i], q)
  }

  /** SQUASHFS_MEMSET and one packing macro per field: the buffer is the fields laid bit by bit. */
  method PackRecord(buf: array<Byte8>, fields: seq<Field>)
    requires Layout(fields, buf.Length) && AllClean(fields)
    modifies buf
    ensures forall q :: 0 <= q < 8 * buf.Length ==> Bits(buf[..])[q] == RecordBit(fields, q)
  {
    for i := 0 to buf.Length
      invariant forall j :: 0 <= j < i ==> buf[j] == Zeros(8)
    {
      buf[i] := Zeros(8);
    }
    for i := 0 to |fields|
      invariant forall q :: 0 <= q < 8 * buf.Length ==> Bits(buf[..])[q] == RecordBit(fields[..i], q)
    {
      PackField(buf, fields[i]);
      OnlyTheField(fields[i]);
      forall q | 0 <= q < 8 * buf.Length
        ensures RecordBit(fields[..i + 1], q) == (RecordBit(fields[..i], q) || BitAt(fields[i], q))
      {
        RecordBitNext(fields, i, q);
      }
    }
    assert fields[..|fields|] == fields;
  }

  lemma RecordBitNext(fields: seq<Field>, i: nat, q: nat)
    requires i < |fields| && forall i :: 0 <= i < |fields| ==> fields[i].width <= 64
    ensures RecordBit(fields[..i + 1], q) == (RecordBit(fields[..i], q) || BitAt(fields[i], q))
  {
    var a, b := fields[..i], fields[..i + 1];
    if RecordBit(a, q) {
      var j :| 0 <= j < |a| && BitAt(a[j], q);
      assert BitAt(b[j], q);
    }
    if BitAt(fields[i], q) {
      assert BitAt(b[i], q);
    }
  }

  /** Where a field lies, the record has that field's bits and no other's. */
  lemma OwnBits(fields: seq<Field>, n: nat, i: nat, q: nat)
    requires Layout(fields, n) && i < |fields| && Covers(fields[i], q)
    ensures RecordBit(fields, q) == BitAt(fields[i], q)
  {
  }

  /** Packing a record and unpacking any of its fields gives the value packed, to the width of the field. */
  method RoundTrip(fields: seq<Field>, n: nat) returns (buf: array<Byte8>, values: seq<Word64>)
    requires Layout(fields, n) && AllClean(fields)
    ensures buf.Length == n && forall q :: 0 <= q < 8 * n ==> Bits(buf[..])[q] == RecordBit(fields, q)
    ensures |values| == |fields|
    ensures forall i :: 0 <= i < |fields| ==> values[i] == Truncate(fields[i].value, fields[i].width)
  {
    buf := new Byte8[n](_ => Zeros(8));
    PackRecord(buf, fields);
    values := [];
    for i := 0 to |fields|
      invariant forall q :: 0 <= q < 8 * n ==> Bits(buf[..])[q] == RecordBit(fields, q)
      invariant |values| == i && forall j :: 0 <= j < i ==> values[j] == Truncate(fields[j].value, fields[j].width)
    {
      var f := fields[i];
      var raw := UnpackField(buf, f.pos, f.width);
      forall q: nat | Covers(f, q)
        ensures raw[64 - f.width + q - f.pos] == BitAt(f, q)
      {
        OwnBits(fields, n, i, q);
        assert Bits(buf[..])[q] == RecordBit(fields, q);
      }
      TruncateRestores(raw, f);
      values := values + [Truncate(raw, f.width)];
    }
  }

  lemma TruncateRestores(raw: Word64, f: Field)
    requires f.width <= 64
    requires forall q: nat :: Covers(f, q) ==> raw[64 - f.width + q - f.pos] == BitAt(f, q)
    ensures Truncate(raw, f.width) == Truncate(f.value, f.width)
  {
    forall j | 64 - f.width <= j < 64
      ensures raw[j] == f.value[j]
    {
      assert Covers(f, f.pos + j - (64 - f.width));
    }
    assert raw[64 - f.width..] == f.value[64 - f.width..];
  }

  // ---- the records of squashfs_fs.h ----

  /** The fields of a record by position and width. */
  datatype Span = Span(pos: nat, width: nat)

  const BASE_INODE: seq<Span> := [Span(0, 4), Span(4, 12), Span(16, 8), Span(24, 8), Span(32, 32), Span(64, 32)]

  const IPC_INODE: seq<Span> := BASE_INODE + [Span(96, 32)]
  const DEV_INODE: seq<Span> := BASE_INODE + [Span(96, 32), Span(128, 16)]
  const SYMLINK_INODE: seq<Span> := BASE_INODE + [Span(96, 32), Span(128, 16)]
  const REG_INODE: seq<Span> := BASE_INODE + [Span(96, 64), Span(160, 32), Span(192, 32), Span(224, 32)]
  const LREG_INODE: seq<Span> :=
    BASE_INODE + [Span(96, 32), Span(128, 64), Span(192, 32), Span(224, 32), Span(256, 64)]
  const DIR_INODE: seq<Span> :=
    BASE_INODE + [Span(96, 32), Span(128, 19), Span(147, 13), Span(160, 32), Span(192, 32)]
  const LDIR_INODE: seq<Span> :=
    BASE_INODE + [Span(96, 32), Span(128, 27), Span(155, 13), Span(168, 32), Span(200, 16), Span(216, 32)]
  const DIR_INDEX: seq<Span> := [Span(0, 32), Span(32, 32), Span(64, 8)]
  const DIR_HEADER: seq<Span> := [Span(0, 8), Span(8, 32), Span(40, 32)]
  const DIR_ENTRY: seq<Span> := [Span(0, 13), Span(13, 3), Span(16, 8), Span(24, 16)]
  const SUPER_BLOCK_OLD: seq<Span> := [
    Span(0, 32), Span(32, 32), Span(64, 32), Span(96, 32), Span(128, 32), Span(160, 32), Span(192, 32),
    Span(224, 16), Span(240, 16), Span(256, 16), Span(272, 16), Span(288, 8), Span(296, 8), Span(304, 8)
  ]
  const SUPER_BLOCK_NEW: seq<Span> := [
    Span(312, 32), Span(344, 64), Span(408, 32), Span(440, 32), Span(472, 32), Span(504, 64), Span(568, 64),
    Span(632, 64), Span(696, 64), Span(760, 64), Span(824, 64), Span(888, 64)
  ]
  const SUPER_BLOCK: seq<Span> := SUPER_BLOCK_OLD + SUPER_BLOCK_NEW
  const FRAGMENT_ENTRY: seq<Span> := [Span(0, 64), Span(64, 32)]

  /** The fields lie one after the other from bit start to bit end, each fitting one register. */
  predicate Run(spans: seq<Span>, start: nat, end: nat) {
    && |spans| > 0
    && spans[0].pos == start
    && spans[|spans| - 1].pos + spans[|spans| - 1].width == end
    && (forall i :: 0 <= i < |spans| ==> 1 <= spans[i].width && spans[i].width + spans[i].pos % 8 <= 64)
    && (forall i :: 0 <= i < |spans| - 1 ==> spans[i + 1].pos == spans[i].pos + spans[i].width)
  }

  predicate Consecutive(spans: seq<Span>, end: nat) { Run(spans, 0, end) }

  lemma RunsJoin(a: seq<Span>, b: seq<Span>, start: nat, middle: nat, end: nat)
    requires Run(a, start, middle) && Run(b, middle, end)
    ensures Run(a + b, start, end)
  {
  }

  lemma {:induction false} ConsecutiveOrdered(spans: seq<Span>, end: nat, i: nat, j: nat)
    requires Consecutive(spans, end) && i < j < |spans|
    ensures spans[i].pos + spans[i].width <= spans[j].pos
    decreases j - i
  {
    if i + 1 < j {
      ConsecutiveOrdered(spans, end, i + 1, j);
    }
  }

  lemma {:induction false} ConsecutiveBounded(spans: seq<Span>, end: nat, i: nat)
    requires Consecutive(spans, end) && i < |spans|
    ensures spans[i].pos + spans[i].width <= end
  {
    if i < |spans| - 1 {
      ConsecutiveOrdered(spans, end, i, |spans| - 1);
    }
  }

  /** Consecutive fields, in record order, make a layout that survives the round trip. */
  lemma ConsecutiveIsLayout(spans: seq<Span>, n: nat, fields: seq<Field>)
    requires Consecutive(spans, 8 * n) && |fields| == |spans|
    requires forall i :: 0 <= i < |fields| ==> fields[i].pos == spans[i].pos && fields[i].width == spans[i].width
    ensures Layout(fields, n)
  {
    forall i | 0 <= i < |fields|
      ensures Fits(fields[i]) && fields[i].pos + fields[i].width <= 8 * n
    {
      ConsecutiveBounded(spans, 8 * n, i);
    }
    forall i, j | 0 <= i < j < |fields|
      ensures Disjoint(fields[i], fields[j])
    {
      ConsecutiveOrdered(spans, 8 * n, i, j);
    }
  }

  lemma SuperBlockRecord()
    ensures Consecutive(SUPER_BLOCK, 8 * 119)
  {
    OldPart();
    NewPart();
    hide SUPER_BLOCK_OLD, SUPER_BLOCK_NEW;
    RunsJoin(SUPER_BLOCK_OLD, SUPER_BLOCK_NEW, 0, 312, 8 * 119);
  }

  lemma OldPart()
    ensures Run(SUPER_BLOCK_OLD, 0, 312)
  {
  }

  lemma NewPart()
    ensures Run(SUPER_BLOCK_NEW, 312, 8 * 119)
  {
    var a := [Span(312, 32), Span(344, 64), Span(408, 32), Span(440, 32), Span(472, 32), Span(504, 64)];
    var b := [Span(568, 64), Span(632, 64), Span(696, 64), Span(760, 64), Span(824, 64), Span(888, 64)];
    assert SUPER_BLOCK_NEW == a + b;
    assert Run(a, 312, 568) && Run(b, 568, 8 * 119);
    hide SUPER_BLOCK_NEW;
    RunsJoin(a, b, 312, 568, 8 * 119);
  }

  // Every record of the format is such a layout and fills its packed struct to the last bit that is swapped.

  lemma IpcInodeRecord()
    ensures Consecutive(IPC_INODE, 8 * 16)
  {
    BaseRecord();
    hide BASE_INODE;
    RunsJoin(BASE_INODE, [Span(96, 32)], 0, 96, 8 * 16);
  }

  lemma DevInodeRecord()
    ensures Consecutive(DEV_INODE, 8 * 18) && Consecutive(SYMLINK_INODE, 8 * 18)
  {
    BaseRecord();
    hide BASE_INODE;
    RunsJoin(BASE_INODE, [Span(96, 32), Span(128, 16)], 0, 96, 8 * 18);
  }

  lemma RegInodeRecord()
    ensures Consecutive(REG_INODE, 8 * 32)
  {
    BaseRecord();
    hide BASE_INODE;
    RunsJoin(BASE_INODE, [Span(96, 64), Span(160, 32), Span(192, 32), Span(224, 32)], 0, 96, 8 * 32);
  }

  lemma LregInodeRecord()
    ensures Consecutive(LREG_INODE, 8 * 40)
  {
    BaseRecord();
    hide BASE_INODE;
    RunsJoin(BASE_INODE, [Span(96, 32), Span(128, 64), Span(192, 32), Span(224, 32), Span(256, 64)], 0, 96, 8 * 40);
  }

  lemma DirInodeRecord()
    ensures Consecutive(DIR_INODE, 8 * 28)
  {
    BaseRecord();
    hide BASE_INODE;
    RunsJoin(BASE_INODE, [Span(96, 32), Span(128, 19), Span(147, 13), Span(160, 32), Span(192, 32)], 0, 96, 8 * 28);
  }

  lemma LdirInodeRecord()
    ensures Consecutive(LDIR_INODE, 8 * 31)
  {
    BaseRecord();
    hide BASE_INODE;
    RunsJoin(BASE_INODE, [Span(96, 32), Span(128, 27), Span(155, 13), Span(168, 32), Span(200, 16), Span(216, 32)],
             0, 96, 8 * 31);
  }

  lemma BaseRecord()
    ensures Consecutive(BASE_INODE, 8 * 12)
  {
  }

  lemma DirectoryRecords()
    ensures Consecutive(DIR_INDEX, 8 * 9) && Consecutive(DIR_HEADER, 8 * 9) && Consecutive(DIR_ENTRY, 8 * 5)
    ensures Consecutive(FRAGMENT_ENTRY, 8 * 12)
  {
  }
}
