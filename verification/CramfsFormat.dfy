/**
 What a cramfs image says, whoever made it: the tree that its inodes, names and data blocks
 describe. An image describes one tree at most, and cramfsck is measured against that tree.
 */
module CramfsFormat {
  import opened Bytes
  import opened CramfsTree
  import opened CramfsRecords
  import opened CramfsData

  const UNSET := 0xffff_ffff

  function WordAt(img: seq<byte>, p: nat): (w: nat)
    ensures w < 0x1_0000_0000
  {
    if p + 4 <= |img| then GetInt(img[p..p + 4], false) else 0
  }

  function InodeAt(img: seq<byte>, p: nat): (i: Inode)
    ensures InodeOk(i)
  {
    if p + INODE_SIZE <= |img| then DecodeInode(img[p..p + INODE_SIZE]) else Inode(0, 0, 0, 0, 0, 0)
  }

  // ---- names ----

  /** strlen, when a zero byte follows the bytes. */
  function StrLen(b: seq<byte>): (n: nat)
    ensures n <= |b| && NoZero(b[..n]) && (n < |b| ==> b[n] == 0)
  {
    if b == [] || b[0] == 0 then 0
    else
      var n := StrLen(b[1..]);
      assert b[..n + 1] == [b[0]] + b[1..][..n];
      n + 1
  }

  /** The name that fills so many words but for three bytes at most. */
  predicate Named(b: seq<byte>, name: seq<byte>) {
    |b| % 4 == 0 && b != [] && StrLen(b) + 3 >= |b| && name == b[..StrLen(b)]
  }

  lemma NameWords(b: seq<byte>, name: seq<byte>)
    requires Named(b, name)
    ensures Pad4(|name|) == |b|
  {
  }

  // ---- data ----

  /** The bytes between two places inflate to p. */
  predicate Inflates(cfg: Config, img: seq<byte>, from: nat, to: nat, p: seq<byte>) {
    && from <= to <= |img| && to - from <= 2 * BLKSIZE
    && cfg.z.inflate(img[from..to]) == Some(p) && |p| <= 2 * BLKSIZE
  }

  /** A block between two places, or a hole. */
  predicate Piece(cfg: Config, img: seq<byte>, from: nat, to: nat, p: seq<byte>) {
    if from == to then p == Zeros(|p|) else Inflates(cfg, img, from, to, p)
  }

  /** Where block k begins: behind the pointers, or where the block before it ends. */
  function BlockStart(img: seq<byte>, offset: nat, blocks: nat, k: nat): nat {
    if k == 0 then offset + 4 * blocks else WordAt(img, offset + 4 * (k - 1))
  }

  predicate PieceAt(cfg: Config, img: seq<byte>, offset: nat, data: seq<byte>, k: nat)
    requires data != []
  {
    && k * BLKSIZE < |data|
    && Piece(cfg, img, BlockStart(img, offset, Blocks(|data|), k), WordAt(img, offset + 4 * k), Chunk(data, k))
  }

  ghost predicate FileAt(cfg: Config, img: seq<byte>, offset: nat, data: seq<byte>) {
    && data != [] && offset + 4 * Blocks(|data|) <= |img|
    && forall k: nat :: k < Blocks(|data|) ==> PieceAt(cfg, img, offset, data, k)
  }

  /** The inode of a file with these bytes, of a link with this target, of a special file. */
  ghost predicate RegAt(cfg: Config, img: seq<byte>, i: Inode, data: seq<byte>) {
    && |data| == i.size && (i.offset == 0 <==> i.size == 0)
    && (i.size != 0 ==> FileAt(cfg, img, 4 * i.offset, data))
  }

  predicate LinkAt(cfg: Config, img: seq<byte>, i: Inode, data: seq<byte>) {
    && i.offset != 0 && |data| == i.size != 0 && 4 * i.offset + 4 <= |img|
    && Inflates(cfg, img, 4 * i.offset + 4, WordAt(img, 4 * i.offset), data)
  }

  predicate SpecialAt(i: Inode) {
    i.offset == 0 && (IsDevice(i.mode) || (IsPipeOrSocket(i.mode) && i.size == 0))
  }

  // ---- entries ----

  /** What the inode i stands for. */
  ghost predicate Entry(cfg: Config, img: seq<byte>, i: Inode, info: Info, child: Tree)
    decreases child, 1
  {
    && info.mode == i.mode && info.uid == i.uid && info.gid == i.gid
    && info.rdev == (if IsDevice(i.mode) then i.size else 0)
    && if IsDir(i.mode) then
         (i.offset == 0 ==> i.size == 0) && info.data == [] && Listed(cfg, img, 4 * i.offset, i.size, child)
       else
         && child.Nil?
         && if IsReg(i.mode) then RegAt(cfg, img, i, info.data)
            else if IsLink(i.mode) then LinkAt(cfg, img, i, info.data)
            else info.data == [] && SpecialAt(i)
  }

  /** The records of the entries of t stand one behind the other at offset, and take count bytes. */
  ghost predicate Listed(cfg: Config, img: seq<byte>, offset: nat, count: int, t: Tree)
    decreases t, 0
  {
    if count <= 0 then t.Nil?
    else
      && t.Node? && offset + INODE_SIZE <= |img|
      && var i := InodeAt(img, offset);
         var behind := offset + INODE_SIZE + 4 * i.namelen;
         && behind <= |img| && Named(img[offset + INODE_SIZE..behind], t.info.name)
         && Entry(cfg, img, i, t.info, t.child)
         && Listed(cfg, img, behind, count - (behind - offset), t.next)
  }

  /** How many directories lie one in the other. */
  function Height(t: Tree): nat {
    if t.Nil? then 0 else Max(if IsDir(t.info.mode) then 1 + Height(t.child) else 0, Height(t.next))
  }

  // ---- an image describes one tree at most ----

  lemma ChunksEqual(d: seq<byte>, e: seq<byte>)
    requires d != [] && |d| == |e|
    requires forall k: nat :: k < Blocks(|d|) ==> k * BLKSIZE < |d| && Chunk(d, k) == Chunk(e, k)
    ensures d == e
  {
    forall j | 0 <= j < |d|
      ensures d[j] == e[j]
    {
      var k := j / BLKSIZE;
      assert d[j] == Chunk(d, k)[j - k * BLKSIZE] && e[j] == Chunk(e, k)[j - k * BLKSIZE];
    }
  }

  lemma FileOnce(cfg: Config, img: seq<byte>, offset: nat, d: seq<byte>, e: seq<byte>)
    requires FileAt(cfg, img, offset, d) && FileAt(cfg, img, offset, e) && |d| == |e|
    ensures d == e
  {
    forall k: nat | k < Blocks(|d|)
      ensures k * BLKSIZE < |d| && Chunk(d, k) == Chunk(e, k)
    {
      assert PieceAt(cfg, img, offset, d, k) && PieceAt(cfg, img, offset, e, k);
    }
    ChunksEqual(d, e);
  }

  lemma {:induction false} EntryOnce(cfg: Config, img: seq<byte>, i: Inode, a: Info, s: Tree, b: Info, t: Tree)
    requires Entry(cfg, img, i, a, s) && Entry(cfg, img, i, b, t) && a.name == b.name
    ensures a == b && s == t
    decreases s, 1
  {
    hide FileAt, Inflates;
    if IsDir(i.mode) {
      ListedOnce(cfg, img, 4 * i.offset, i.size, s, t);
    } else if IsReg(i.mode) && i.size != 0 {
      FileOnce(cfg, img, 4 * i.offset, a.data, b.data);
    } else if IsLink(i.mode) {
      InflatesOnce(cfg, img, 4 * i.offset + 4, WordAt(img, 4 * i.offset), a.data, b.data);
    }
  }

  lemma InflatesOnce(cfg: Config, img: seq<byte>, from: nat, to: nat, p: seq<byte>, q: seq<byte>)
    requires Inflates(cfg, img, from, to, p) && Inflates(cfg, img, from, to, q)
    ensures p == q
  {
  }

  lemma {:induction false} ListedOnce(cfg: Config, img: seq<byte>, offset: nat, count: int, s: Tree, t: Tree)
    requires Listed(cfg, img, offset, count, s) && Listed(cfg, img, offset, count, t)
    ensures s == t
    decreases s, 0
  {
    hide Entry, StrLen;
    if count > 0 {
      var i := InodeAt(img, offset);
      var behind := offset + INODE_SIZE + 4 * i.namelen;
      EntryOnce(cfg, img, i, s.info, s.child, t.info, t.child);
      ListedOnce(cfg, img, behind, count - (behind - offset), s.next, t.next);
    }
  }

  // ---- where directories end and data begin ----

  /** The end of the last record, the start of the first data, the end of the last data. */
  datatype Marks = Marks(endDir: nat, startData: nat, endData: nat)

  const NO_MARKS := Marks(0, UNSET, 0)

  function Join(a: Marks, b: Marks): Marks {
    Marks(Max(a.endDir, b.endDir), Min(a.startData, b.startData), Max(a.endData, b.endData))
  }

  function DataMarks(img: seq<byte>, i: Inode, info: Info): Marks {
    if !HasData(info) then NO_MARKS
    else
      var last := if IsLink(info.mode) then 0 else Blocks(|info.data|) - 1;
      Marks(0, 4 * i.offset, WordAt(img, 4 * i.offset + 4 * last))
  }

  function MarksOf(img: seq<byte>, offset: nat, t: Tree): Marks
    decreases t, 0
  {
    if t.Nil? then NO_MARKS
    else
      var i, behind := InodeAt(img, offset), offset + RecordSize(t.info);
      Join(Marks(behind, UNSET, 0), Join(EntryMarks(img, i, t.info, t.child), MarksOf(img, behind, t.next)))
  }

  function EntryMarks(img: seq<byte>, i: Inode, info: Info, child: Tree): Marks
    decreases child, 1
  {
    if IsDir(i.mode) then MarksOf(img, 4 * i.offset, child) else DataMarks(img, i, info)
  }

  lemma JoinLaws(a: Marks, b: Marks, c: Marks)
    ensures Join(Join(a, b), c) == Join(a, Join(b, c)) && Join(a, b) == Join(b, a)
    ensures a.startData <= UNSET ==> Join(a, NO_MARKS) == a
  {
  }
}
