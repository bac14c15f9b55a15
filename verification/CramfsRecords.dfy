/**
 The records of the directory structure as bytes: an inode of three words with bit-fields,
 and the name padded with zeros to a multiple of four.
 */
module CramfsRecords {
  import opened Bytes
  import opened CramfsTree
  import opened CramfsDirectory

  datatype Inode = Inode(mode: nat, uid: nat, size: nat, gid: nat, namelen: nat, offset: nat)

  predicate InodeOk(i: Inode) {
    && i.mode < 0x1_0000 && i.uid < 0x1_0000 && i.size < SIZE_LIMIT && i.gid < 0x100
    && i.namelen < 64 && i.offset < 0x400_0000
  }

  function EncodeInode(i: Inode): (b: seq<byte>)
    requires InodeOk(i)
    ensures |b| == INODE_SIZE
  {
    PutInt(i.mode + 0x1_0000 * i.uid, false) + PutInt(i.size + SIZE_LIMIT * i.gid, false)
    + PutInt(i.namelen + 64 * i.offset, false)
  }

  function DecodeInode(b: seq<byte>): (i: Inode)
    requires |b| >= INODE_SIZE
    ensures InodeOk(i)
  {
    var w0, w1, w2 := GetInt(b[0..4], false), GetInt(b[4..8], false), GetInt(b[8..12], false);
    Inode(w0 % 0x1_0000, w0 / 0x1_0000, w1 % SIZE_LIMIT, w1 / SIZE_LIMIT, w2 % 64, w2 / 64)
  }

  lemma DecodeEncode(i: Inode, b: seq<byte>)
    requires InodeOk(i) && EncodeInode(i) <= b
    ensures DecodeInode(b) == i
  {
    hide PutInt, GetInt;
    var a, c, d := i.mode + 0x1_0000 * i.uid, i.size + SIZE_LIMIT * i.gid, i.namelen + 64 * i.offset;
    GetPutInt(a, false);
    GetPutInt(c, false);
    GetPutInt(d, false);
    var e := EncodeInode(i);
    assert b[0..4] == e[0..4] == PutInt(a, false);
    assert b[4..8] == e[4..8] == PutInt(c, false);
    assert b[8..12] == e[8..12] == PutInt(d, false);
  }

  /** Byte by byte, low byte first: mode and owner; size and group; the words of the name and, in words, the offset. */
  lemma InodeLayout(i: Inode)
    requires InodeOk(i)
    ensures var b := EncodeInode(i);
            && Pair(b[0], b[1]) == i.mode && Pair(b[2], b[3]) == i.uid
            && Pair(b[4], b[5]) + 0x1_0000 * Pair(b[6], 0) == i.size && b[7] == i.gid
            && b[8] % 0x40 == i.namelen && Pair(b[8], b[9]) / 0x40 + 0x400 * Pair(b[10], b[11]) == i.offset
  {
    hide PutInt, Pair;
    var b := EncodeInode(i);
    OwnerWord(i.mode, i.uid, b[0..4]);
    SizeWord(i.size, i.gid, b[4..8]);
    OffsetWord(i.namelen, i.offset, b[8..12]);
  }

  lemma OwnerWord(mode: nat, uid: nat, b: seq<byte>)
    requires mode < 0x1_0000 && uid < 0x1_0000 && b == PutInt(mode + 0x1_0000 * uid, false)
    ensures Pair(b[0], b[1]) == mode && Pair(b[2], b[3]) == uid
  {
    hide PutInt, Pair;
    WordBytes(mode + 0x1_0000 * uid, b);
  }

  lemma SizeWord(size: nat, gid: nat, b: seq<byte>)
    requires size < SIZE_LIMIT && gid < 0x100 && b == PutInt(size + SIZE_LIMIT * gid, false)
    ensures Pair(b[0], b[1]) + 0x1_0000 * Pair(b[2], 0) == size && b[3] == gid
  {
    hide PutInt;
    WordBytes(size + SIZE_LIMIT * gid, b);
  }

  lemma OffsetWord(namelen: nat, offset: nat, b: seq<byte>)
    requires namelen < 64 && offset < 0x400_0000 && b == PutInt(namelen + 64 * offset, false)
    ensures b[0] % 0x40 == namelen && Pair(b[0], b[1]) / 0x40 + 0x400 * Pair(b[2], b[3]) == offset
  {
    hide PutInt, Pair;
    WordBytes(namelen + 64 * offset, b);
  }

  function Pair(low: int, high: int): int { low + 0x100 * high }

  lemma WordBytes(v: nat, b: seq<byte>)
    requires v < 0x1_0000_0000 && b == PutInt(v, false)
    ensures Pair(b[0], b[1]) == v % 0x1_0000 && Pair(b[2], b[3]) == v / 0x1_0000
    ensures b[3] == v / 0x100_0000 && b[0] == v % 0x100
  {
  }

  /** set_data_offset on an inode in the image: the offset field of the last word is replaced. */
  function PatchOffset(b: seq<byte>, offset: nat): (r: seq<byte>)
    requires |b| == INODE_SIZE && offset < OFFSET_LIMIT
    ensures |r| == INODE_SIZE
  {
    b[..8] + PutInt(WithOffset(GetInt(b[8..12], false), offset), false)
  }

  function WithOffset(word: nat, offset: nat): (r: nat)
    requires offset < OFFSET_LIMIT
    ensures r < 0x1_0000_0000
  {
    word % 64 + 64 * (offset / 4)
  }

  lemma PatchIsUpdate(i: Inode, offset: nat)
    requires InodeOk(i) && offset < OFFSET_LIMIT
    ensures PatchOffset(EncodeInode(i), offset) == EncodeInode(i.(offset := offset / 4))
  {
    hide PutInt, GetInt;
    GetPutInt(i.namelen + 64 * i.offset, false);
    var e := EncodeInode(i);
    assert e[8..12] == PutInt(i.namelen + 64 * i.offset, false);
    assert e[..8] == PutInt(i.mode + 0x1_0000 * i.uid, false) + PutInt(i.size + SIZE_LIMIT * i.gid, false);
  }

  // ---- entries in range ----

  predicate NoZero(s: seq<byte>) {
    forall i :: 0 <= i < |s| ==> s[i] != 0
  }

  /** What parse_directory lets through without a warning, with links of one block. */
  predicate InfoOk(i: Info, child: Tree) {
    && i.mode < 0x1_0000 && i.uid < 0x1_0000 && i.gid < 0x100 && SizeField(i, child) < SIZE_LIMIT
    && 1 <= |i.name| <= MAX_NAME && NoZero(i.name)
    && (IsDir(i.mode) || IsReg(i.mode) || IsLink(i.mode) || IsDevice(i.mode) || IsPipeOrSocket(i.mode))
    && (child.Node? ==> IsDir(i.mode))
    && (!IsReg(i.mode) && !IsLink(i.mode) ==> i.data == [])
    && (!IsDevice(i.mode) ==> i.rdev == 0)
    && (IsLink(i.mode) ==> 1 <= |i.data| < BLKSIZE && NoZero(i.data))
  }

  predicate TreeOk(t: Tree) {
    t.Nil? || (InfoOk(t.info, t.child) && TreeOk(t.child) && TreeOk(t.next))
  }

  // ---- records ----

  function Off(off: map<nat, nat>, id: nat): nat { if id in off then off[id] else 0 }

  function InodeOf(i: Info, child: Tree, offset: nat): (r: Inode)
    requires InfoOk(i, child) && offset < OFFSET_LIMIT
    ensures InodeOk(r)
  {
    Inode(i.mode, i.uid, SizeField(i, child), i.gid, Pad4(|i.name|) / 4, offset / 4)
  }

  function PaddedName(name: seq<byte>): (r: seq<byte>)
    ensures |r| == Pad4(|name|)
  {
    name + seq(Pad4(|name|) - |name|, _ => 0)
  }

  function Record(i: Info, child: Tree, offset: nat): (r: seq<byte>)
    requires InfoOk(i, child) && offset < OFFSET_LIMIT
    ensures |r| == RecordSize(i)
  {
    EncodeInode(InodeOf(i, child, offset)) + PaddedName(i.name)
  }

  predicate ItemsOk(items: seq<Item>) {
    forall k :: 0 <= k < |items| ==> InfoOk(items[k].info, items[k].child)
  }

  /** The directory structure, with every inode's offset filled in. */
  function DirBytes(items: seq<Item>, off: map<nat, nat>): (r: seq<byte>)
    requires ItemsOk(items) && AllBelow(off, OFFSET_LIMIT)
  {
    if items == [] then []
    else Record(items[0].info, items[0].child, Off(off, items[0].id)) + DirBytes(items[1..], off)
  }

  lemma {:induction false} DirBytesLength(items: seq<Item>, off: map<nat, nat>)
    requires ItemsOk(items) && AllBelow(off, OFFSET_LIMIT)
    ensures |DirBytes(items, off)| == Sizes(items)
    decreases |items|
  {
    hide Record;
    if items != [] {
      DirBytesLength(items[1..], off);
    }
  }

  lemma {:induction false} DirBytesConcat(a: seq<Item>, b: seq<Item>, off: map<nat, nat>)
    requires ItemsOk(a) && ItemsOk(b) && AllBelow(off, OFFSET_LIMIT)
    ensures ItemsOk(a + b) && DirBytes(a + b, off) == DirBytes(a, off) + DirBytes(b, off)
    decreases |a|
  {
    hide Record, InfoOk, AllBelow;
    assert ItemsOk(a + b);
    if a == [] {
      assert a + b == b;
    } else {
      assert ItemsOk(a[1..]);
      DirBytesConcat(a[1..], b, off);
      assert (a + b)[1..] == a[1..] + b;
      hide ItemsOk;
      DirBytesFirst(a, off);
      DirBytesFirst(a + b, off);
      hide DirBytes;
      assert (a + b)[0] == a[0];
    }
  }

  lemma DirBytesFirst(items: seq<Item>, off: map<nat, nat>)
    requires ItemsOk(items) && items != [] && AllBelow(off, OFFSET_LIMIT)
    ensures ItemsOk(items[1..])
    ensures DirBytes(items, off) == Record(items[0].info, items[0].child, Off(off, items[0].id))
            + DirBytes(items[1..], off)
  {
  }

  lemma {:induction false} OrderOk(t: Tree, id: nat)
    requires TreeOk(t)
    ensures ItemsOk(Block(t, id)) && ItemsOk(Below(t, id)) && ItemsOk(Order(t, id))
    decreases t
  {
    if t.Node? {
      OrderOk(t.child, id + 1);
      OrderOk(t.next, id + 1 + Count(t.child));
    }
  }

  // ---- where a reader finds things ----

  /** b stands in the image at pos. */
  ghost predicate Stands(img: seq<byte>, pos: nat, b: seq<byte>) {
    pos + |b| <= |img| && img[pos..pos + |b|] == b
  }

  lemma StandsParts(img: seq<byte>, pos: nat, a: seq<byte>, b: seq<byte>)
    requires Stands(img, pos, a + b)
    ensures Stands(img, pos, a) && Stands(img, pos + |a|, b)
  {
    var c := img[pos..pos + |a + b|];
    assert img[pos..pos + |a|] == c[..|a|] == a;
    assert img[pos + |a|..pos + |a| + |b|] == c[|a|..] == b;
  }

  /** The entries of t, numbered from id, stand at pos, and those below them where their inodes say. */
  ghost predicate Laid(img: seq<byte>, t: Tree, id: nat, pos: nat, off: map<nat, nat>)
    requires TreeOk(t) && AllBelow(off, OFFSET_LIMIT)
  {
    t.Nil? || (
      && Stands(img, pos, Record(t.info, t.child, Off(off, id)))
      && (t.child.Node? ==> Laid(img, t.child, id + 1, Off(off, id), off))
      && Laid(img, t.next, id + 1 + Count(t.child), pos + RecordSize(t.info), off)
    )
  }

  /** off says of every directory in t what DirOffsets says. */
  ghost predicate Agrees(off: map<nat, nat>, t: Tree, id: nat, free: nat) {
    forall d :: d in DirOffsets(t, id, free) ==> Off(off, d) == DirOffsets(t, id, free)[d]
  }

  /** The offsets of different entries do not get into each other's way. */
  lemma {:induction false} OffsetsInRange(t: Tree, id: nat, free: nat)
    ensures forall d :: d in DirOffsets(t, id, free) ==> id <= d < id + Count(t)
    decreases t
  {
    if t.Node? {
      OffsetsInRange(t.child, id + 1, free + DirSize(t.child));
      OffsetsInRange(t.next, id + 1 + Count(t.child), free + AllSize(t.child));
    }
  }

  lemma PlusAt(a: map<nat, nat>, b: map<nat, nat>)
    ensures forall d :: d in b ==> d in Plus(a, b) && Plus(a, b)[d] == b[d]
    ensures forall d :: d in a && d !in b ==> d in Plus(a, b) && Plus(a, b)[d] == a[d]
  {
  }

  lemma AgreesParts(off: map<nat, nat>, t: Tree, id: nat, free: nat)
    requires t.Node? && Agrees(off, t, id, free)
    ensures t.child.Node? ==> Off(off, id) == free && Agrees(off, t.child, id + 1, free + DirSize(t.child))
    ensures Agrees(off, t.next, id + 1 + Count(t.child), free + AllSize(t.child))
  {
    hide DirOffsets, Plus, Off, AllSize, DirSize, Count;
    var below := DirOffsets(t.child, id + 1, free + DirSize(t.child));
    var rest := DirOffsets(t.next, id + 1 + Count(t.child), free + AllSize(t.child));
    var own := map[id := free];
    OffsetsUnfold(t, id, free);
    PlusAt(own, below);
    PlusAt(Plus(own, below), rest);
  }

  lemma OffsetsUnfold(t: Tree, id: nat, free: nat)
    requires t.Node?
    ensures var below := DirOffsets(t.child, id + 1, free + DirSize(t.child));
            var rest := DirOffsets(t.next, id + 1 + Count(t.child), free + AllSize(t.child));
            && DirOffsets(t, id, free) == (if t.child.Nil? then rest else Plus(Plus(map[id := free], below), rest))
            && id !in below && id !in rest && (forall d :: d in below ==> d !in rest)
  {
    hide Plus, AllSize, DirSize;
    OffsetsInRange(t.child, id + 1, free + DirSize(t.child));
    OffsetsInRange(t.next, id + 1 + Count(t.child), free + AllSize(t.child));
  }

  lemma {:induction false} OrderSize(t: Tree, id: nat)
    ensures Sizes(Order(t, id)) == AllSize(t)
    decreases t
  {
    BlockSize(t, id);
    DirsSize(t, id);
    BelowIsOrderAll(t, id);
    SizesConcat(Block(t, id), Below(t, id));
    OrderAllSize(t, id);
  }

  lemma NoSizes()
    ensures Sizes([]) == 0
  {
  }

  lemma {:induction false} OrderAllSize(t: Tree, id: nat)
    ensures Sizes(OrderAll(DirsOf(t, id))) == AllSizes(DirsOf(t, id))
    decreases t, 0
  {
    hide Order, Sizes, Count, AllSize;
    if t.Node? {
      NextDirs(t, id);
      OrderAllSize(t.next, id + 1 + Count(t.child));
      if t.child.Node? {
        var rest := DirsOf(t.next, id + 1 + Count(t.child));
        OrderSize(t.child, id + 1);
        SizesConcat(Order(t.child, id + 1), OrderAll(rest));
      }
    } else {
      NoSizes();
    }
  }

  /** The bytes of a directory's entries and of all below, in parts. */
  lemma BytesParts(t: Tree, id: nat, off: map<nat, nat>)
    requires TreeOk(t) && t.Node? && AllBelow(off, OFFSET_LIMIT)
    ensures Off(off, id) < OFFSET_LIMIT && ItemsOk(Block(t, id)) && ItemsOk(Below(t, id))
    ensures var next := id + 1 + Count(t.child);
            && ItemsOk(Block(t.next, next)) && ItemsOk(Below(t.next, next)) && ItemsOk(Order(t.child, id + 1))
            && DirBytes(Block(t, id), off) == Record(t.info, t.child, Off(off, id)) + DirBytes(Block(t.next, next), off)
            && DirBytes(Below(t, id), off) == DirBytes(Order(t.child, id + 1), off) + DirBytes(Below(t.next, next), off)
  {
    hide Block, Below, Order, InfoOk, ItemsOk, Record, DirBytes, AllBelow;
    var next := id + 1 + Count(t.child);
    OrderOk(t, id);
    OrderOk(t.child, id + 1);
    OrderOk(t.next, next);
    hide TreeOk;
    OrderUnfold(t, id);
    OffBelow(off, id);
    DirBytesFirst(Block(t, id), off);
    DirBytesConcat(Order(t.child, id + 1), Below(t.next, next), off);
  }

  lemma OrderUnfold(t: Tree, id: nat)
    requires t.Node?
    ensures var next, block := id + 1 + Count(t.child), Block(t, id);
            && block != [] && block[0] == Item(id, t.info, t.child) && block[1..] == Block(t.next, next)
            && Below(t, id) == Order(t.child, id + 1) + Below(t.next, next)
  {
    assert t.child.Nil? ==> Order(t.child, id + 1) == [];
  }

  lemma OffBelow(off: map<nat, nat>, id: nat)
    requires AllBelow(off, OFFSET_LIMIT)
    ensures Off(off, id) < OFFSET_LIMIT
  {
  }

  /** Written in order, with the offsets set, everything stands where a reader will look for it. */
  lemma {:induction false} LaidOut(img: seq<byte>, t: Tree, id: nat, pos: nat, free: nat, off: map<nat, nat>)
    requires TreeOk(t) && AllBelow(off, OFFSET_LIMIT) && Agrees(off, t, id, free)
    requires ItemsOk(Block(t, id)) && ItemsOk(Below(t, id))
    requires Stands(img, pos, DirBytes(Block(t, id), off)) && Stands(img, free, DirBytes(Below(t, id), off))
    ensures Laid(img, t, id, pos, off)
    decreases t
  {
    hide Block, Below, Order, DirBytes, Record, Stands, Agrees, InfoOk, ItemsOk, AllBelow;
    if t.Node? {
      var next := id + 1 + Count(t.child);
      BytesParts(t, id, off);
      AgreesParts(off, t, id, free);
      OffBelow(off, id);
      StandsParts(img, pos, Record(t.info, t.child, Off(off, id)), DirBytes(Block(t.next, next), off));
      StandsParts(img, free, DirBytes(Order(t.child, id + 1), off), DirBytes(Below(t.next, next), off));
      DirBytesLength(Order(t.child, id + 1), off);
      OrderSize(t.child, id + 1);
      LaidOut(img, t.next, next, pos + RecordSize(t.info), free + AllSize(t.child), off);
      if t.child.Node? {
        OrderStands(img, t.child, id + 1, free, off);
        LaidOut(img, t.child, id + 1, free, free + DirSize(t.child), off);
      }
    }
  }

  lemma OrderStands(img: seq<byte>, t: Tree, id: nat, pos: nat, off: map<nat, nat>)
    requires TreeOk(t) && AllBelow(off, OFFSET_LIMIT) && ItemsOk(Order(t, id))
             && Stands(img, pos, DirBytes(Order(t, id), off))
    ensures ItemsOk(Block(t, id)) && ItemsOk(Below(t, id))
    ensures Stands(img, pos, DirBytes(Block(t, id), off)) && Stands(img, pos + DirSize(t), DirBytes(Below(t, id), off))
  {
    hide Block, Below, DirBytes, Stands, ItemsOk, AllBelow, TreeOk, DirSize;
    OrderOk(t, id);
    DirBytesConcat(Block(t, id), Below(t, id), off);
    DirBytesLength(Block(t, id), off);
    BlockSize(t, id);
    StandsParts(img, pos, DirBytes(Block(t, id), off), DirBytes(Below(t, id), off));
  }
}
