/**
 The data of regular files in a squashfs image. A file is cut into compressed blocks; its
 tail may instead go into a fragment block that it shares with the tails of other files
 and that is flushed only when the next tail does not fit.
 */
module SquashFile {
  import opened Bytes
  import opened SquashBlocks

  const INVALID_FRAG := 0xFFFF_FFFF
  const MAX_FILE_SIZE := 0x4000_0000_0000_0000

  datatype Config = Config(z: Zlib, blockSize: nat, noD: bool, noF: bool, noFragments: bool, alwaysUseFragments: bool)

  ghost predicate ConfigOk(c: Config) {
    Lawful(c.z) && 0 < c.blockSize <= 0x1_0000
  }

  /** A 32-bit signed int made from any integer, as the product of two ints is. */
  function Int32(x: int): int {
    var u := x % 0x1_0000_0000;
    if u < 0x8000_0000 then u else u - 0x1_0000_0000
  }

  /** What the inode of a file records of its data. */
  datatype Inode = Inode(fileSize: nat, startBlock: nat, blockList: seq<nat>, fragment: nat, offset: nat)

  datatype FragEntry = FragEntry(startBlock: nat, size: nat)

  // ---- how many blocks, and how long a tail ----

  function CeilDiv(n: nat, d: nat): nat
    requires d > 0
  {
    (n + d - 1) / d
  }

  function UsesTail(c: Config, readSize: nat): bool {
    !c.noFragments && (readSize < c.blockSize || c.alwaysUseFragments)
  }

  /** The writer's choice. */
  function WriterBlocks(c: Config, readSize: nat): nat
    requires c.blockSize > 0
  {
    if UsesTail(c, readSize) then readSize / c.blockSize else CeilDiv(readSize, c.blockSize)
  }

  function WriterTail(c: Config, readSize: nat): nat
    requires c.blockSize > 0
  {
    if UsesTail(c, readSize) then readSize % c.blockSize else 0
  }

  /** What the reader derives from the size and the fragment number in the inode. */
  function ReaderBlocks(blockSize: nat, fileSize: nat, fragment: nat): nat
    requires blockSize > 0
  {
    if fragment == INVALID_FRAG then CeilDiv(fileSize, blockSize) else fileSize / blockSize
  }

  function ReaderTail(blockSize: nat, fileSize: nat, fragment: nat): nat
    requires blockSize > 0
  {
    if fragment == INVALID_FRAG then 0 else fileSize % blockSize
  }

  /** The reader arrives at the writer's choice, given that an empty tail gets the invalid fragment number. */
  lemma ReaderAgrees(c: Config, readSize: nat, fragment: nat)
    requires c.blockSize > 0
    requires fragment == INVALID_FRAG <==> WriterTail(c, readSize) == 0
    ensures ReaderBlocks(c.blockSize, readSize, fragment) == WriterBlocks(c, readSize)
    ensures ReaderTail(c.blockSize, readSize, fragment) == WriterTail(c, readSize)
  {
    if UsesTail(c, readSize) && readSize % c.blockSize == 0 {
      CeilOfMultiple(readSize, c.blockSize);
    }
  }

  lemma CeilOfMultiple(n: nat, d: nat)
    requires d > 0 && n % d == 0
    ensures CeilDiv(n, d) == n / d
  {
    var q := n / d;
    assert n == q * d;
    assert (q * d + (d - 1)) / d == q by { DivMulAdd(q, d, d - 1); }
  }

  lemma MulAtLeast(x: nat, d: nat)
    requires x >= 1
    ensures x * d >= d
  {
  }

  lemma Difference(a: int, b: int, d: int)
    ensures a * d - b * d == (a - b) * d
  {
  }

  lemma DivMulAdd(q: nat, d: nat, r: nat)
    requires r < d
    ensures (q * d + r) / d == q && (q * d + r) % d == r
  {
    var n := q * d + r;
    var k, m := n / d, n % d;
    assert n == k * d + m;
    Difference(q, k, d);
    if k < q {
      MulAtLeast(q - k, d);
    } else if k > q {
      Difference(k, q, d);
      MulAtLeast(k - q, d);
    }
  }

  // ---- the pieces of a file ----

  /** Piece b of the content: a whole block, or what is left of the file. */
  function Piece(content: seq<byte>, blockSize: nat, b: nat): seq<byte>
    requires b * blockSize <= |content|
  {
    content[b * blockSize..Min(b * blockSize + blockSize, |content|)]
  }

  /** The writer's available_bytes: the product of block number and block size is an int. */
  function Available(readSize: nat, blockSize: nat, b: nat): int {
    var rest := readSize - Int32(b * blockSize);
    if rest > blockSize then blockSize else rest
  }

  /** Correct as long as the product fits an int; past that, every block counts as a whole one. */
  lemma AvailableIs(readSize: nat, blockSize: nat, b: nat)
    requires 0 < blockSize <= 0x1_0000 && b * blockSize < readSize
    ensures 0 < Available(readSize, blockSize, b) <= blockSize
    ensures Available(readSize, blockSize, b)
         == if b * blockSize < 0x8000_0000 then Min(blockSize, readSize - b * blockSize) else blockSize
  {
  }

  /** What read leaves in the buffer when it asks for n bytes at pos: fewer at the end of the file. */
  function ReadInto(buff: seq<byte>, content: seq<byte>, pos: nat, n: nat): (r: seq<byte>)
    requires pos <= |content| && n <= |buff|
    ensures |r| == |buff|
  {
    var m := Min(n, |content| - pos);
    content[pos..pos + m] + buff[m..]
  }

  /**
   Block b as the writer compresses it. Where it takes a short block for a whole one, the rest of the buffer still holds
   the block before.
   */
  function PieceOf(content: seq<byte>, blockSize: nat, b: nat): seq<byte> {
    if b * blockSize >= |content| then []
    else
      var piece := Piece(content, blockSize, b);
      if b == 0 || |piece| == Available(|content|, blockSize, b) then piece
      else
        BlockBefore(b, blockSize);
        var before := Piece(content, blockSize, b - 1);
        piece + before[Min(|piece|, |before|)..]
  }

  lemma BlockBefore(b: nat, blockSize: nat)
    requires b > 0
    ensures (b - 1) * blockSize == b * blockSize - blockSize && 0 <= (b - 1) * blockSize <= b * blockSize
  {
    Difference(b, b - 1, blockSize);
    if b > 1 {
      MulAtLeast(b - 1, blockSize);
    }
  }

  function PiecesOf(content: seq<byte>, blockSize: nat, n: nat): (p: seq<seq<byte>>)
    ensures |p| == n
  {
    seq(n, b requires 0 <= b < n => PieceOf(content, blockSize, b))
  }

  /** The stored bytes and the size codes of a list of pieces. */
  function Stored(c: Config, pieces: seq<seq<byte>>): seq<byte> {
    if pieces == [] then []
    else Stored(c, pieces[..|pieces| - 1]) + Mangle(c.z, pieces[|pieces| - 1], c.noD, COMPRESSED_BIT_BLOCK).stored
  }

  function Codes(c: Config, pieces: seq<seq<byte>>): (codes: seq<nat>) {
    seq(|pieces|, i requires 0 <= i < |pieces| => Mangle(c.z, pieces[i], c.noD, COMPRESSED_BIT_BLOCK).code)
  }

  function Concat(pieces: seq<seq<byte>>): seq<byte> {
    if pieces == [] then [] else Concat(pieces[..|pieces| - 1]) + pieces[|pieces| - 1]
  }

  /** The pieces that the writer compresses: each begins as it should and is as long as the writer thinks. */
  ghost predicate Cut(c: Config, content: seq<byte>, pieces: seq<seq<byte>>) {
    forall b :: 0 <= b < |pieces| ==>
      && b * c.blockSize < |content|
      && |pieces[b]| == Available(|content|, c.blockSize, b)
      && Piece(content, c.blockSize, b) <= pieces[b]
  }

  ghost predicate CutAt(c: Config, content: seq<byte>, b: nat, piece: seq<byte>) {
    && b * c.blockSize < |content|
    && |piece| == Available(|content|, c.blockSize, b)
    && Piece(content, c.blockSize, b) <= piece
  }

  lemma CutHas(c: Config, content: seq<byte>, pieces: seq<seq<byte>>, b: nat)
    requires Cut(c, content, pieces) && b < |pieces|
    ensures CutAt(c, content, b, pieces[b])
  {
    hide Available, Piece;
    assert pieces[b] == pieces[b];
  }

  lemma CutFrom(c: Config, content: seq<byte>, pieces: seq<seq<byte>>)
    requires forall b :: 0 <= b < |pieces| ==> CutAt(c, content, b, pieces[b])
    ensures Cut(c, content, pieces)
  {
    hide Available, Piece;
    forall b | 0 <= b < |pieces|
      ensures && b * c.blockSize < |content|
              && |pieces[b]| == Available(|content|, c.blockSize, b)
              && Piece(content, c.blockSize, b) <= pieces[b]
    {
      assert CutAt(c, content, b, pieces[b]);
    }
  }

  lemma OnePieceMore(c: Config, content: seq<byte>, n: nat)
    ensures var p, piece := PiecesOf(content, c.blockSize, n), PieceOf(content, c.blockSize, n);
            var m := Mangle(c.z, piece, c.noD, COMPRESSED_BIT_BLOCK);
            && PiecesOf(content, c.blockSize, n + 1) == p + [piece]
            && Stored(c, p + [piece]) == Stored(c, p) + m.stored && Codes(c, p + [piece]) == Codes(c, p) + [m.code]
  {
    hide Mangle, PieceOf;
    var p, piece := PiecesOf(content, c.blockSize, n), PieceOf(content, c.blockSize, n);
    assert (p + [piece])[..n] == p;
  }

  lemma PieceCut(c: Config, content: seq<byte>, b: nat)
    requires ConfigOk(c) && b * c.blockSize < |content|
    ensures CutAt(c, content, b, PieceOf(content, c.blockSize, b))
  {
    AvailableIs(|content|, c.blockSize, b);
    if b > 0 {
      BlockBefore(b, c.blockSize);
    }
  }

  // ---- what is written, as a function of the files ----

  /** The part of a file that is written at all. */
  function ReadSize(file: seq<byte>): nat { if |file| > MAX_FILE_SIZE then MAX_FILE_SIZE else |file| }

  /** The data on the disk, the fragment blocks listed so far, and the fragment buffer. */
  datatype Laid = Laid(disk: seq<byte>, table: seq<FragEntry>, data: seq<byte>)

  /** After write_fragment. */
  function Flushed(c: Config, s: Laid): Laid {
    if s.data == [] then s
    else
      var m := Mangle(c.z, s.data, c.noF, COMPRESSED_BIT_BLOCK);
      Laid(s.disk + m.stored, s.table + [FragEntry(|s.disk|, m.code)], [])
  }

  /** Before a tail is put into the buffer, this is flushed if there is no room. */
  function MadeRoom(c: Config, s: Laid, n: nat): Laid {
    if |s.data| + n > c.blockSize then Flushed(c, s) else s
  }

  function Filled(c: Config, s: Laid, tail: seq<byte>): Laid {
    if tail == [] then s
    else
      var t := MadeRoom(c, s, |tail|);
      t.(data := t.data + tail)
  }

  /** The fragment number and the offset of a tail. */
  function TailPlace(c: Config, s: Laid, tail: seq<byte>): (nat, nat) {
    if tail == [] then (INVALID_FRAG, 0)
    else
      var t := MadeRoom(c, s, |tail|);
      (|t.table|, |t.data|)
  }

  function BlocksOf(c: Config, file: seq<byte>): seq<seq<byte>>
    requires c.blockSize > 0
  {
    PiecesOf(file[..ReadSize(file)], c.blockSize, WriterBlocks(c, ReadSize(file)))
  }

  function TailOf(c: Config, file: seq<byte>): (t: seq<byte>)
    requires c.blockSize > 0
    ensures |t| == WriterTail(c, ReadSize(file))
  {
    BlocksFit(c, ReadSize(file));
    file[ReadSize(file) - WriterTail(c, ReadSize(file))..ReadSize(file)]
  }

  /** After write_file, and the inode that it makes. */
  function WithBlocks(c: Config, s: Laid, file: seq<byte>): Laid
    requires c.blockSize > 0
  {
    s.(disk := s.disk + Stored(c, BlocksOf(c, file)))
  }

  function WithFile(c: Config, s: Laid, file: seq<byte>): Laid
    requires c.blockSize > 0
  {
    Filled(c, WithBlocks(c, s, file), TailOf(c, file))
  }

  function InodeOf(c: Config, s: Laid, file: seq<byte>): Inode
    requires c.blockSize > 0
  {
    var (fragment, offset) := TailPlace(c, WithBlocks(c, s, file), TailOf(c, file));
    Inode(ReadSize(file), |s.disk|, Codes(c, BlocksOf(c, file)), fragment, offset)
  }

  /** A file as written: its inode, the pieces compressed for it, and its tail. */
  datatype File = File(inode: Inode, pieces: seq<seq<byte>>, tail: seq<byte>)

  function FileOf(c: Config, s: Laid, file: seq<byte>): File
    requires c.blockSize > 0
  {
    File(InodeOf(c, s, file), BlocksOf(c, file), TailOf(c, file))
  }

  /** The file's size, its blocks as the writer cut them and its tail are recorded in f. */
  ghost predicate Written(c: Config, file: seq<byte>, f: File)
    requires c.blockSize > 0
  {
    var readSize := ReadSize(file);
    && f.inode.fileSize == readSize
    && |f.pieces| == WriterBlocks(c, readSize)
    && Cut(c, file[..readSize], f.pieces)
    && f.tail == file[readSize - WriterTail(c, readSize)..readSize]
  }

  lemma FileOfWritten(c: Config, s: Laid, file: seq<byte>)
    requires ConfigOk(c)
    ensures Written(c, file, FileOf(c, s, file))
  {
    hide Cut, CutAt, PieceOf, Codes, TailPlace, Stored;
    var content, n := file[..ReadSize(file)], WriterBlocks(c, ReadSize(file));
    BlocksFit(c, ReadSize(file));
    hide WriterBlocks;
    forall b | 0 <= b < n
      ensures CutAt(c, content, b, BlocksOf(c, file)[b])
    {
      BlockBegins(|content|, c.blockSize, n, b);
      PieceCut(c, content, b);
    }
    CutFrom(c, content, BlocksOf(c, file));
  }

  lemma BlockBegins(length: nat, blockSize: nat, blocks: nat, block: nat)
    requires blocks * blockSize < length + blockSize && block < blocks
    ensures block * blockSize < length
  {
    Difference(blocks, block, blockSize);
    MulAtLeast(blocks - block, blockSize);
  }

  // ---- no more is stored than need be ----

  /** The bytes are those of the pieces, one behind the other, each stored compactly under its size code. */
  ghost predicate TightBlocks(c: Config, pieces: seq<seq<byte>>, codes: seq<nat>, bytes: seq<byte>)
    decreases |pieces|
  {
    if pieces == [] then codes == [] && bytes == []
    else
      var k := |pieces| - 1;
      |codes| == k + 1 &&
      var n := |bytes| - CompressedSize(codes[k], COMPRESSED_BIT_BLOCK);
      && 0 <= n <= |bytes| && Compact(c.z, pieces[k], c.noD, COMPRESSED_BIT_BLOCK, codes[k], bytes[n..])
      && TightBlocks(c, pieces[..k], codes[..k], bytes[..n])
  }

  lemma {:induction false} StoredTight(c: Config, pieces: seq<seq<byte>>)
    requires ConfigOk(c) && forall b :: 0 <= b < |pieces| ==> 0 < |pieces[b]| <= c.blockSize
    ensures TightBlocks(c, pieces, Codes(c, pieces), Stored(c, pieces))
    decreases |pieces|
  {
    hide Mangle, Compact, CompressedSize;
    if pieces != [] {
      var k := |pieces| - 1;
      UnmangleMangle(c.z, pieces[k], c.noD, COMPRESSED_BIT_BLOCK);
      StoredTight(c, pieces[..k]);
      assert Codes(c, pieces)[..k] == Codes(c, pieces[..k]);
      var bytes, m := Stored(c, pieces), Mangle(c.z, pieces[k], c.noD, COMPRESSED_BIT_BLOCK).stored;
      assert bytes[|bytes| - |m|..] == m && bytes[..|bytes| - |m|] == Stored(c, pieces[..k]);
    }
  }

  /**
   A file adds its blocks to the disk, and behind them, if its tail found no room in the buffer, the fragment block that
   the buffer then held.
   */
  ghost predicate Adds(c: Config, s: Laid, t: Laid, file: seq<byte>, inode: Inode)
    requires c.blockSize > 0
  {
    && s.disk <= t.disk && inode.startBlock == |s.disk|
    && if t.table == s.table then TightBlocks(c, BlocksOf(c, file), inode.blockList, t.disk[|s.disk|..])
       else
         && |t.table| == |s.table| + 1 && s.table <= t.table
         && var f := t.table[|s.table|];
            && |s.disk| <= f.startBlock <= |t.disk|
            && TightBlocks(c, BlocksOf(c, file), inode.blockList, t.disk[|s.disk|..f.startBlock])
            && Compact(c.z, s.data, c.noF, COMPRESSED_BIT_BLOCK, f.size, t.disk[f.startBlock..])
  }

  lemma WithFileAdds(c: Config, s: Laid, file: seq<byte>)
    requires ConfigOk(c) && |s.data| <= c.blockSize
    ensures Adds(c, s, WithFile(c, s, file), file, InodeOf(c, s, file))
  {
    hide Mangle, Compact, CompressedSize, Stored, TightBlocks, PiecesOf, Cut;
    FileOfWritten(c, s, file);
    var pieces, t := BlocksOf(c, file), WithFile(c, s, file);
    PiecesShort(c, file[..ReadSize(file)], pieces);
    StoredTight(c, pieces);
    assert (s.disk + Stored(c, pieces))[|s.disk|..] == Stored(c, pieces);
    if t.table != s.table {
      UnmangleMangle(c.z, s.data, c.noF, COMPRESSED_BIT_BLOCK);
      var m := Mangle(c.z, s.data, c.noF, COMPRESSED_BIT_BLOCK).stored;
      var at := |s.disk + Stored(c, pieces)|;
      assert t.disk == s.disk + Stored(c, pieces) + m;
      assert t.disk[|s.disk|..at] == Stored(c, pieces) && t.disk[at..] == m;
    }
  }

  /** So many whole blocks and a rest, and the same with the rest as a block. */
  predicate Floor(n: nat, blockSize: nat, blocks: nat) { blocks * blockSize <= n < blocks * blockSize + blockSize }

  predicate Ceiling(n: nat, blockSize: nat, blocks: nat) { n <= blocks * blockSize < n + blockSize }

  /**
   Which files share fragment blocks. Without fragments, and with a file of a block or more unless told otherwise, the
   rest of the file is a block of its own. Otherwise the rest goes into the buffer, and the buffer is written and
   emptied before that exactly if there is no room for the rest.
   */
  ghost predicate Shares(c: Config, s: Laid, t: Laid, file: seq<byte>, inode: Inode)
    requires c.blockSize > 0
  {
    var n := if |file| <= MAX_FILE_SIZE then |file| else MAX_FILE_SIZE;
    var rest, blocks := n % c.blockSize, |inode.blockList|;
    && inode.fileSize == n
    && if c.noFragments || (n >= c.blockSize && !c.alwaysUseFragments) || rest == 0 then
         && Ceiling(n, c.blockSize, blocks) && inode.fragment == INVALID_FRAG
         && t.table == s.table && t.data == s.data
       else
         && Floor(n, c.blockSize, blocks) && rest <= n
         && var room := |s.data| + rest <= c.blockSize;
            && t.data == (if room then s.data else []) + file[n - rest..n]
            && |t.table| == |s.table| + (if room || s.data == [] then 0 else 1)
            && inode.fragment == |t.table| && inode.offset == (if room then |s.data| else 0)
  }

  lemma WithFileShares(c: Config, s: Laid, file: seq<byte>)
    requires ConfigOk(c) && |s.data| <= c.blockSize
    ensures Shares(c, s, WithFile(c, s, file), file, InodeOf(c, s, file))
  {
    hide Mangle, Stored, CeilDiv, Floor, Ceiling, PieceOf;
    var n := ReadSize(file);
    BlocksFit(c, n);
    RestAtMost(n, c.blockSize);
    if n % c.blockSize == 0 {
      CeilOfMultiple(n, c.blockSize);
    }
    CeilIs(n, c.blockSize);
    assert file[n..n] == [];
  }

  lemma RestAtMost(n: nat, d: nat)
    requires d > 0
    ensures n % d <= n && n % d < d
  {
  }

  lemma CeilIs(n: nat, d: nat)
    requires d > 0
    ensures Ceiling(n, d, CeilDiv(n, d)) && Floor(n, d, n / d)
  {
    var q := CeilDiv(n, d);
    assert n + d - 1 == q * d + (n + d - 1) % d;
  }

  lemma PiecesShort(c: Config, content: seq<byte>, pieces: seq<seq<byte>>)
    requires ConfigOk(c) && Cut(c, content, pieces)
    ensures forall b :: 0 <= b < |pieces| ==> 0 < |pieces[b]| <= c.blockSize
  {
    hide Piece, Available;
    forall b | 0 <= b < |pieces|
      ensures 0 < |pieces[b]| <= c.blockSize
    {
      AvailableIs(|content|, c.blockSize, b);
    }
  }

  // ---- how many fragment blocks there are ----

  /** Fragment blocks written, and bytes in the buffer. */
  datatype Pool = Pool(blocks: nat, fill: nat)

  function PoolOf(s: Laid): Pool { Pool(|s.table|, |s.data|) }

  function Emptied(p: Pool): Pool { if p.fill == 0 then p else Pool(p.blocks + 1, 0) }

  /** A tail of n bytes more. */
  function Pooled(c: Config, p: Pool, n: nat): Pool {
    if n == 0 then p
    else
      var q := if p.fill + n > c.blockSize then Emptied(p) else p;
      q.(fill := q.fill + n)
  }

  /** Only the lengths of the tails count. */
  lemma WithFilePool(c: Config, s: Laid, file: seq<byte>)
    requires c.blockSize > 0
    ensures PoolOf(WithFile(c, s, file)) == Pooled(c, PoolOf(s), WriterTail(c, ReadSize(file)))
    ensures PoolOf(Flushed(c, s)) == Emptied(PoolOf(s))
  {
    hide Stored, Mangle, WriterTail, ReadSize, PiecesOf;
  }

  // ---- the image ----

  class Image {
    const c: Config
    var disk: seq<byte>
    var fragmentTable: seq<FragEntry>
    var fragmentData: seq<byte>
    ghost var frags: seq<seq<byte>>    // the contents of the fragment blocks written
    ghost var files: seq<File>         // the files written

    ghost predicate Valid()
      reads this
    {
      && ConfigOk(c)
      && |fragmentData| <= c.blockSize
      && |frags| == |fragmentTable| <= INVALID_FRAG
      && (forall i :: 0 <= i < |frags| ==> FragStored(c, disk, fragmentTable[i], frags[i]))
      && (forall i :: 0 <= i < |files| ==> FileStored(c, disk, frags + [fragmentData], files[i]))
    }

    ghost function View(): Laid
      reads this
    {
      Laid(disk, fragmentTable, fragmentData)
    }

    constructor (c: Config, disk: seq<byte>)
      requires ConfigOk(c)
      ensures Valid() && files == [] && View() == Laid(disk, [], []) && this.c == c
    {
      this.c, this.disk, fragmentTable, fragmentData, frags, files := c, disk, [], [], [], [];
    }

    /** write_fragment. */
    method WriteFragment()
      requires Valid()
      requires |fragmentTable| < INVALID_FRAG
      modifies this`disk, this`fragmentTable, this`fragmentData, this`frags
      ensures Valid() && View() == Flushed(c, old(View())) && fragmentData == [] && old(disk) <= disk
      ensures old(fragmentData) == [] ==> frags == old(frags)
      ensures old(fragmentData) != [] ==> frags == old(frags) + [old(fragmentData)]
      ensures old(fragmentData) != [] ==>
                |fragmentTable| == |old(fragmentTable)| + 1 &&
                var f := fragmentTable[|old(fragmentTable)|];
                && f.startBlock == |old(disk)|
                && Compact(c.z, old(fragmentData), c.noF, COMPRESSED_BIT_BLOCK, f.size, disk[f.startBlock..])
    {
      if fragmentData == [] {
        return;
      }
      hide FragStored, FileStored;
      var m := Mangle(c.z, fragmentData, c.noF, COMPRESSED_BIT_BLOCK);
      NewFragStored(c, disk, fragmentData);
      UnmangleMangle(c.z, fragmentData, c.noF, COMPRESSED_BIT_BLOCK);
      ghost var more := frags + [fragmentData] + [[]];
      forall i | 0 <= i < |frags|
        ensures FragStored(c, disk + m.stored, fragmentTable[i], frags[i])
      {
        FragStoredStays(c, disk, m.stored, fragmentTable[i], frags[i]);
      }
      forall i | 0 <= i < |files|
        ensures FileStored(c, disk + m.stored, more, files[i])
      {
        FileStoredStays(c, disk, m.stored, frags + [fragmentData], more, files[i]);
      }
      fragmentTable, frags := fragmentTable + [FragEntry(|disk|, m.code)], frags + [fragmentData];
      disk, fragmentData := disk + m.stored, [];
    }

    /** get_and_fill_fragment: where a tail went. */
    method FillFragment(tail: seq<byte>) returns (fragment: nat, offset: nat)
      requires Valid() && |tail| <= c.blockSize && |fragmentTable| < INVALID_FRAG - 1
      modifies this`disk, this`fragmentTable, this`fragmentData, this`frags
      ensures Valid() && |fragmentTable| <= |old(fragmentTable)| + 1
      ensures View() == Filled(c, old(View()), tail) && (fragment, offset) == TailPlace(c, old(View()), tail)
      ensures old(disk) <= disk
      ensures TailStored(frags + [fragmentData], fragment, offset, tail)
    {
      if tail == [] {
        return INVALID_FRAG, 0;
      }
      if |fragmentData| + |tail| > c.blockSize {
        WriteFragment();
      }
      fragment, offset := |fragmentTable|, |fragmentData|;
      ghost var frags' := frags + [fragmentData + tail];
      forall i | 0 <= i < |files|
        ensures FileStored(c, disk, frags', files[i])
      {
        hide FileStored;
        FileStoredStays(c, disk, [], frags + [fragmentData], frags', files[i]);
        assert disk + [] == disk;
      }
      fragmentData := fragmentData + tail;
      assert frags + [fragmentData] == frags' && frags'[fragment] == fragmentData;
      assert fragmentData[offset..offset + |tail|] == tail;
    }

    /** The loops of write_file. Blocks are gathered in a buffer with room for so many, then written. */
    method WriteBlocks(content: seq<byte>, blocks: nat, wholeFile: bool, room: nat)
      returns (start: nat, blockList: seq<nat>)
      requires Valid() && blocks * c.blockSize < |content| + c.blockSize
      requires if wholeFile then room == blocks else room > 0
      modifies this`disk
      ensures var pieces := PiecesOf(content, c.blockSize, blocks);
              Valid() && start == |old(disk)| && disk == old(disk) + Stored(c, pieces) && blockList == Codes(c, pieces)
    {
      hide Stored, FragStored, FileStored, Progress, Stale, PieceOf;
      assert Stored(c, []) == [] by { NoPieces(c); }
      start, blockList := |disk|, [];
      var pos, cBuffer, buff := 0, [], seq(c.blockSize, _ => 0);
      AtStart(content, buff);
      while |blockList| < blocks
        invariant Valid()
        invariant |blockList| <= blocks && Progress(content, |blockList|, pos) && Stale(content, |blockList|, buff)
        invariant blockList == Codes(c, PiecesOf(content, c.blockSize, |blockList|))
        invariant wholeFile ==> |blockList| == 0 || |blockList| == blocks
        invariant wholeFile ==> disk == old(disk) && cBuffer == Stored(c, PiecesOf(content, c.blockSize, |blockList|))
        invariant !wholeFile ==> disk == old(disk) + Stored(c, PiecesOf(content, c.blockSize, |blockList|))
        decreases blocks - |blockList|
      {
        assert |blockList| == 0 ==> PiecesOf(content, c.blockSize, 0) == [];
        ghost var so := Stored(c, PiecesOf(content, c.blockSize, |blockList|));
        cBuffer, blockList, pos, buff := GatherBlocks(content, blocks, room, blockList, pos, buff);
        assert old(disk) + (so + cBuffer) == (old(disk) + so) + cBuffer;
        if !wholeFile {
          AppendDisk(cBuffer);
        }
      }
      if wholeFile {
        AppendDisk(cBuffer);
      }
    }

    method AppendDisk(more: seq<byte>)
      requires Valid()
      modifies this`disk
      ensures Valid() && disk == old(disk) + more
    {
      hide FileStored, FragStored;
      forall i | 0 <= i < |frags|
        ensures FragStored(c, disk + more, fragmentTable[i], frags[i])
      {
        FragStoredStays(c, disk, more, fragmentTable[i], frags[i]);
      }
      forall i | 0 <= i < |files|
        ensures FileStored(c, disk + more, frags + [fragmentData], files[i])
      {
        FileStoredStays(c, disk, more, frags + [fragmentData], frags + [fragmentData], files[i]);
      }
      disk := disk + more;
    }

    lemma AtStart(content: seq<byte>, buff: seq<byte>)
      requires |buff| == c.blockSize
      ensures Progress(content, 0, 0) && Stale(content, 0, buff)
    {
    }

    /** The inner loop: as many blocks as there is room for. */
    method GatherBlocks(content: seq<byte>, blocks: nat, room: nat, list: seq<nat>, from: nat, stale: seq<byte>)
      returns (cBuffer: seq<byte>, blockList: seq<nat>, pos: nat, buff: seq<byte>)
      requires ConfigOk(c) && blocks * c.blockSize < |content| + c.blockSize
      requires |list| <= blocks && Progress(content, |list|, from) && Stale(content, |list|, stale)
      requires list == Codes(c, PiecesOf(content, c.blockSize, |list|))
      ensures |blockList| == |list| + Min(room, blocks - |list|)
      ensures Progress(content, |blockList|, pos) && Stale(content, |blockList|, buff)
      ensures var pieces := PiecesOf(content, c.blockSize, |blockList|);
              && blockList == Codes(c, pieces)
              && Stored(c, pieces) == Stored(c, PiecesOf(content, c.blockSize, |list|)) + cBuffer
    {
      hide Stored, Codes, Mangle, Piece, Available, Progress, Stale, PieceOf, PiecesOf;
      cBuffer, blockList, pos, buff := [], list, from, stale;
      var i := 0;
      while i < room && |blockList| < blocks
        invariant |blockList| == |list| + i <= blocks && i <= room
        invariant Progress(content, |blockList|, pos) && Stale(content, |blockList|, buff)
        invariant blockList == Codes(c, PiecesOf(content, c.blockSize, |blockList|))
        invariant Stored(c, PiecesOf(content, c.blockSize, |blockList|))
               == Stored(c, PiecesOf(content, c.blockSize, |list|)) + cBuffer
      {
        BlockBegins(|content|, c.blockSize, blocks, |blockList|);
        OnePieceMore(c, content, |blockList|);
        var piece;
        buff, piece, pos := ReadPiece(content, |blockList|, pos, buff);
        var m := Mangle(c.z, piece, c.noD, COMPRESSED_BIT_BLOCK);
        cBuffer, blockList, i := cBuffer + m.stored, blockList + [m.code], i + 1;
      }
    }

    /** write_file with duplicate checking off: the blocks, then the tail, then the inode. */
    method WriteFile(file: seq<byte>, wholeFile: bool, room: nat) returns (inode: Inode)
      requires Valid() && |fragmentTable| < INVALID_FRAG - 1 && WriterBlocks(c, ReadSize(file)) < 0x8000_0000
      requires var blocks := WriterBlocks(c, ReadSize(file)); if wholeFile then room == blocks else room > 0
      modifies this
      ensures Valid() && |fragmentTable| <= |old(fragmentTable)| + 1
      ensures files == old(files) + [FileOf(c, old(View()), file)]
      ensures View() == WithFile(c, old(View()), file) && inode == InodeOf(c, old(View()), file)
      ensures Adds(c, old(View()), View(), file, inode) && Shares(c, old(View()), View(), file, inode)
    {
      hide FileStored, FragStored, Stored, Codes, Cut, Filled, TailPlace, PieceOf, Adds;
      ghost var f := FileOf(c, View(), file);
      FileOfWritten(c, View(), file);
      WithFileAdds(c, View(), file);
      WithFileShares(c, View(), file);
      var readSize := ReadSize(file);
      var content := file[..readSize];
      var blocks, tailSize := WriterBlocks(c, readSize), WriterTail(c, readSize);
      BlocksFit(c, readSize);
      ghost var before := disk;
      var start, blockList := WriteBlocks(content, blocks, wholeFile, room);
      var tail := content[readSize - tailSize..];
      var fragment, offset := FillFragment(tail);
      inode := Inode(readSize, start, blockList, fragment, offset);
      NewFileStored(c, content, before, disk, frags + [fragmentData], f);
      files := files + [f];
    }

    /** After a whole block the buffer holds that block. */
    ghost predicate Stale(content: seq<byte>, block: nat, buff: seq<byte>) {
      && |buff| == c.blockSize
      && (block > 0 && block * c.blockSize < |content| ==>
            (block - 1) * c.blockSize <= |content| && buff == Piece(content, c.blockSize, block - 1))
    }

    ghost predicate Progress(content: seq<byte>, block: nat, pos: nat) {
      pos == Min(block * c.blockSize, |content|)
    }

    /** Reading the next block of the file; the buffer keeps old bytes behind a short read. */
    method ReadPiece(content: seq<byte>, block: nat, pos: nat, buff: seq<byte>)
      returns (after: seq<byte>, piece: seq<byte>, next: nat)
      requires ConfigOk(c) && Stale(content, block, buff)
      requires block * c.blockSize < |content| && Progress(content, block, pos)
      ensures Stale(content, block + 1, after) && Progress(content, block + 1, next)
      ensures piece == PieceOf(content, c.blockSize, block)
    {
      AvailableIs(|content|, c.blockSize, block);
      var available := Available(|content|, c.blockSize, block);
      after := ReadInto(buff, content, pos, available);
      next := pos + Min(available, |content| - pos);
      piece := after[..available];
      BlockBefore(block + 1, c.blockSize);
      if block > 0 {
        BlockBefore(block, c.blockSize);
      }
    }
  }

  lemma BlocksFit(c: Config, readSize: nat)
    requires c.blockSize > 0
    ensures WriterBlocks(c, readSize) * c.blockSize < readSize + c.blockSize
    ensures WriterTail(c, readSize) <= readSize && WriterTail(c, readSize) < c.blockSize
  {
    var d := c.blockSize;
    assert readSize == readSize / d * d + readSize % d;
    var m := readSize + d - 1;
    assert m == m / d * d + m % d;
  }

  lemma NoPieces(c: Config)
    ensures Codes(c, []) == [] && Stored(c, []) == []
  {
  }

  lemma NewFileStored(c: Config, content: seq<byte>, before: seq<byte>, disk: seq<byte>, frags: seq<seq<byte>>, f: File)
    requires ConfigOk(c) && Cut(c, content, f.pieces) && f.inode.blockList == Codes(c, f.pieces)
    requires f.inode.startBlock == |before| && before + Stored(c, f.pieces) <= disk
    requires TailStored(frags, f.inode.fragment, f.inode.offset, f.tail)
    ensures FileStored(c, disk, frags, f)
  {
    hide Stored, Codes, TailStored, Cut;
    PiecesShort(c, content, f.pieces);
    var n := |before| + |Stored(c, f.pieces)|;
    assert disk[|before|..n] == (before + Stored(c, f.pieces))[|before|..n] == Stored(c, f.pieces);
  }

  /** Fragment block f of the table expands to the given bytes. */
  ghost predicate FragStored(c: Config, disk: seq<byte>, f: FragEntry, data: seq<byte>)
    requires ConfigOk(c)
  {
    var size := CompressedSize(f.size, COMPRESSED_BIT_BLOCK);
    && 0 < |data| <= c.blockSize && f.size < 2 * COMPRESSED_BIT_BLOCK
    && f.startBlock + size <= |disk|
    && Unmangle(c.z, f.size, disk[f.startBlock..f.startBlock + size], COMPRESSED_BIT_BLOCK) == Some(data)
  }

  /** The tail lies in the fragment block that the inode names, at the offset it names. */
  ghost predicate TailStored(frags: seq<seq<byte>>, fragment: nat, offset: nat, tail: seq<byte>) {
    if tail == [] then fragment == INVALID_FRAG && offset == 0
    else
      && fragment < INVALID_FRAG
      && fragment < |frags|
      && offset + |tail| <= |frags[fragment]|
      && frags[fragment][offset..offset + |tail|] == tail
  }

  ghost predicate FileStored(c: Config, disk: seq<byte>, frags: seq<seq<byte>>, f: File) {
    && (forall b :: 0 <= b < |f.pieces| ==> 0 < |f.pieces[b]| <= c.blockSize)
    && f.inode.blockList == Codes(c, f.pieces)
    && f.inode.startBlock + |Stored(c, f.pieces)| <= |disk|
    && disk[f.inode.startBlock..f.inode.startBlock + |Stored(c, f.pieces)|] == Stored(c, f.pieces)
    && TailStored(frags, f.inode.fragment, f.inode.offset, f.tail)
  }

  lemma FragStoredStays(c: Config, disk: seq<byte>, more: seq<byte>, f: FragEntry, data: seq<byte>)
    requires ConfigOk(c) && FragStored(c, disk, f, data)
    ensures FragStored(c, disk + more, f, data)
  {
    var size := CompressedSize(f.size, COMPRESSED_BIT_BLOCK);
    assert (disk + more)[f.startBlock..f.startBlock + size] == disk[f.startBlock..f.startBlock + size];
  }

  lemma NewFragStored(c: Config, disk: seq<byte>, data: seq<byte>)
    requires ConfigOk(c) && 0 < |data| <= c.blockSize
    ensures var m := Mangle(c.z, data, c.noF, COMPRESSED_BIT_BLOCK);
            FragStored(c, disk + m.stored, FragEntry(|disk|, m.code), data)
  {
    UnmangleMangle(c.z, data, c.noF, COMPRESSED_BIT_BLOCK);
    var m := Mangle(c.z, data, c.noF, COMPRESSED_BIT_BLOCK);
    assert (disk + m.stored)[|disk|..|disk| + |m.stored|] == m.stored;
  }

  /** Appending to the disk, filling up the last fragment or starting another leaves a file as it was. */
  lemma FileStoredStays(c: Config, disk: seq<byte>, more: seq<byte>, frags: seq<seq<byte>>, frags': seq<seq<byte>>,
                        f: File)
    requires FileStored(c, disk, frags, f)
    requires |frags| <= |frags'| && forall i :: 0 <= i < |frags| ==> frags[i] <= frags'[i]
    ensures FileStored(c, disk + more, frags', f)
  {
    hide Stored, Codes;
    var a, n := f.inode.startBlock, |Stored(c, f.pieces)|;
    assert (disk + more)[a..a + n] == disk[a..a + n];
  }

  // ---- extraction ----

  /** read_data_block; None where the source reports failure. */
  function ReadDataBlock(c: Config, disk: seq<byte>, start: nat, code: nat): Option<seq<byte>> {
    var size := CompressedSize(code, COMPRESSED_BIT_BLOCK);
    if start + size > |disk| then None
    else
      match Unmangle(c.z, code, disk[start..start + size], COMPRESSED_BIT_BLOCK)
      case None => None
      case Some(data) => if 0 < |data| <= c.blockSize then Some(data) else None
  }

  class Extractor {
    const c: Config
    const disk: seq<byte>
    const fragmentTable: seq<FragEntry>
    var cachedFrag: nat
    var fragmentData: seq<byte>

    /** The cached fragment block, if any, is the one on disk. */
    ghost predicate Valid()
      reads this
    {
      && c.blockSize > 0
      && (cachedFrag != INVALID_FRAG ==>
            && cachedFrag < |fragmentTable|
            && var f := fragmentTable[cachedFrag];
               ReadDataBlock(c, disk, f.startBlock, f.size) == Some(fragmentData))
    }

    constructor (c: Config, disk: seq<byte>, fragmentTable: seq<FragEntry>)
      requires c.blockSize > 0
      ensures Valid() && this.c == c && this.disk == disk && this.fragmentTable == fragmentTable
    {
      this.c, this.disk, this.fragmentTable := c, disk, fragmentTable;
      cachedFrag, fragmentData := INVALID_FRAG, [];
    }

    /** read_fragment. */
    method ReadFragment(fragment: nat) returns (data: Option<seq<byte>>)
      requires Valid() && fragment < |fragmentTable| && fragment < INVALID_FRAG
      modifies this`cachedFrag, this`fragmentData
      ensures Valid()
      ensures data == ReadDataBlock(c, disk, fragmentTable[fragment].startBlock, fragmentTable[fragment].size)
    {
      if cachedFrag == INVALID_FRAG || fragment != cachedFrag {
        var f := fragmentTable[fragment];
        data := ReadDataBlock(c, disk, f.startBlock, f.size);
        if data == None {
          cachedFrag := INVALID_FRAG;
          return None;
        }
        cachedFrag, fragmentData := fragment, data.value;
      }
      return Some(fragmentData);
    }

    /** create_inode for a regular file and write_file: the bytes of the file extracted. */
    method Extract(inode: Inode, ghost f: File, ghost frags: seq<seq<byte>>) returns (out: Option<seq<byte>>)
      requires Valid() && ConfigOk(c) && f.inode == inode && FileStored(c, disk, frags, f)
      requires |frags| == |fragmentTable|
      requires forall i :: 0 <= i < |frags| ==> FragStored(c, disk, fragmentTable[i], frags[i])
      requires |f.pieces| == ReaderBlocks(c.blockSize, inode.fileSize, inode.fragment)
      requires |f.tail| == ReaderTail(c.blockSize, inode.fileSize, inode.fragment)
      modifies this`cachedFrag, this`fragmentData
      ensures Valid()
      ensures out == Some(Concat(f.pieces) + f.tail)
    {
      hide FragStored, Codes, Stored, Concat, ReadDataBlock;
      var fragBytes := ReaderTail(c.blockSize, inode.fileSize, inode.fragment);
      var blocks := ReaderBlocks(c.blockSize, inode.fileSize, inode.fragment);
      CodesLength(c, f.pieces);
      var start, data := inode.startBlock, [];
      PiecesStart(c, f.pieces);
      for i := 0 to blocks
        invariant Valid()
        invariant data == Concat(f.pieces[..i]) && start == inode.startBlock + |Stored(c, f.pieces[..i])|
      {
        PieceStored(c, disk, inode.startBlock, f.pieces, i);
        var block := ReadDataBlock(c, disk, start, inode.blockList[i]);
        data := data + block.value;
        start := start + CompressedSize(inode.blockList[i], COMPRESSED_BIT_BLOCK);
      }
      assert f.pieces[..blocks] == f.pieces;
      if fragBytes != 0 {
        FragRead(c, disk, fragmentTable[inode.fragment], frags[inode.fragment]);
        var fragment := ReadFragment(inode.fragment);
        data := data + fragment.value[inode.offset..inode.offset + fragBytes];
      } else {
        assert data == data + f.tail;
      }
      out := Some(data);
    }
  }

  lemma CodesLength(c: Config, pieces: seq<seq<byte>>)
    ensures |Codes(c, pieces)| == |pieces|
  {
  }

  lemma PiecesStart(c: Config, pieces: seq<seq<byte>>)
    ensures Concat(pieces[..0]) == [] && Stored(c, pieces[..0]) == []
  {
  }

  lemma FragRead(c: Config, disk: seq<byte>, f: FragEntry, data: seq<byte>)
    requires ConfigOk(c) && FragStored(c, disk, f, data)
    ensures ReadDataBlock(c, disk, f.startBlock, f.size) == Some(data)
  {
  }

  /** Stored bytes of the first i pieces are a prefix of those of all. */
  lemma {:induction false} StoredPrefix(c: Config, pieces: seq<seq<byte>>, i: nat)
    requires i <= |pieces|
    ensures Stored(c, pieces[..i]) <= Stored(c, pieces)
    decreases |pieces|
  {
    hide Mangle;
    if i < |pieces| {
      var n := |pieces| - 1;
      StoredPrefix(c, pieces[..n], i);
      assert pieces[..n][..i] == pieces[..i];
    } else {
      assert pieces[..i] == pieces;
    }
  }

  lemma StoredNext(c: Config, pieces: seq<seq<byte>>, i: nat)
    requires i < |pieces|
    ensures Stored(c, pieces[..i + 1])
         == Stored(c, pieces[..i]) + Mangle(c.z, pieces[i], c.noD, COMPRESSED_BIT_BLOCK).stored
    ensures Concat(pieces[..i + 1]) == Concat(pieces[..i]) + pieces[i]
  {
    hide Mangle;
    assert pieces[..i + 1][..i] == pieces[..i];
  }

  /** Reading where the first i pieces end gives piece i and moves on to where i + 1 end. */
  lemma PieceStored(c: Config, disk: seq<byte>, start: nat, pieces: seq<seq<byte>>, i: nat)
    requires ConfigOk(c) && i < |pieces| && 0 < |pieces[i]| <= c.blockSize
    requires start + |Stored(c, pieces)| <= |disk|
    requires disk[start..start + |Stored(c, pieces)|] == Stored(c, pieces)
    ensures var at, code := start + |Stored(c, pieces[..i])|, Codes(c, pieces)[i];
            && ReadDataBlock(c, disk, at, code) == Some(pieces[i])
            && at + CompressedSize(code, COMPRESSED_BIT_BLOCK) == start + |Stored(c, pieces[..i + 1])|
    ensures Concat(pieces[..i + 1]) == Concat(pieces[..i]) + pieces[i]
  {
    hide Mangle, Unmangle, CompressedSize, Stored, Concat;
    var m := Mangle(c.z, pieces[i], c.noD, COMPRESSED_BIT_BLOCK);
    UnmangleMangle(c.z, pieces[i], c.noD, COMPRESSED_BIT_BLOCK);
    StoredNext(c, pieces, i);
    StoredPrefix(c, pieces, i + 1);
    var a, b := |Stored(c, pieces[..i])|, |Stored(c, pieces[..i + 1])|;
    SliceOfPrefix(disk, start, Stored(c, pieces), Stored(c, pieces[..i]), m.stored);
  }

  lemma SliceOfPrefix(disk: seq<byte>, start: nat, all: seq<byte>, x: seq<byte>, y: seq<byte>)
    requires start + |all| <= |disk| && disk[start..start + |all|] == all && x + y <= all
    ensures disk[start + |x|..start + |x + y|] == y
  {
    var d := disk[start + |x|..start + |x + y|];
    forall j | 0 <= j < |y|
      ensures d[j] == y[j]
    {
      var k := |x| + j;
      assert d[j] == disk[start + k] == disk[start..start + |all|][k] == all[k] == (x + y)[k];
    }
  }

  // ---- when the extracted file is the file ----

  /** A file whose last block is partial, is not a tail, and begins at 2 GB or later. */
  predicate LastBlockPast2G(c: Config, readSize: nat)
    requires c.blockSize > 0
  {
    !UsesTail(c, readSize) && readSize % c.blockSize != 0 && readSize - readSize % c.blockSize >= 0x8000_0000
  }

  /** The first n pieces are as long as they should be. */
  ghost predicate Exact(c: Config, content: seq<byte>, pieces: seq<seq<byte>>, n: nat)
    requires n <= |pieces| && Cut(c, content, pieces)
  {
    forall b :: 0 <= b < n ==> |pieces[b]| == |Piece(content, c.blockSize, b)|
  }

  lemma {:induction false} ConcatExact(c: Config, content: seq<byte>, pieces: seq<seq<byte>>, n: nat)
    requires ConfigOk(c) && Cut(c, content, pieces) && n <= |pieces| && Exact(c, content, pieces, n)
    ensures Concat(pieces[..n]) == content[..Min(n * c.blockSize, |content|)]
  {
    hide Piece, Available, Concat;
    if n == 0 {
      PiecesStart(c, pieces);
    } else {
      var b := n - 1;
      ConcatExact(c, content, pieces, b);
      StoredNext(c, pieces, b);
      var piece := Piece(content, c.blockSize, b);
      assert piece <= pieces[b] && |piece| == |pieces[b]|;
      assert pieces[b] == piece;
      PieceJoins(content, c.blockSize, b);
    }
  }

  lemma PieceJoins(content: seq<byte>, d: nat, b: nat)
    requires b * d < |content|
    ensures content[..Min(b * d, |content|)] + Piece(content, d, b) == content[..Min((b + 1) * d, |content|)]
  {
    Difference(b + 1, b, d);
  }

  /** A piece has its proper length unless it is short and begins at 2 GB or later. */
  lemma PieceLength(c: Config, content: seq<byte>, pieces: seq<seq<byte>>, b: nat)
    requires ConfigOk(c) && Cut(c, content, pieces) && b < |pieces|
    ensures var at := b * c.blockSize;
            |pieces[b]| == if at < 0x8000_0000 || at + c.blockSize <= |content|
                           then |Piece(content, c.blockSize, b)| else c.blockSize
  {
    AvailableIs(|content|, c.blockSize, b);
  }

  lemma AllButLastExact(c: Config, content: seq<byte>, pieces: seq<seq<byte>>)
    requires ConfigOk(c) && Cut(c, content, pieces) && |pieces| > 0
    ensures Exact(c, content, pieces, |pieces| - 1)
  {
    hide Piece, Available;
    var last := |pieces| - 1;
    forall b | 0 <= b < last
      ensures |pieces[b]| == |Piece(content, c.blockSize, b)|
    {
      PieceLength(c, content, pieces, b);
      Difference(last, b, c.blockSize);
      MulAtLeast(last - b, c.blockSize);
    }
  }

  /** Where the last block begins, and how the blocks and the tail cover the file. */
  lemma LastBlock(c: Config, readSize: nat)
    requires c.blockSize > 0
    ensures var n, d := WriterBlocks(c, readSize), c.blockSize;
            && Min(n * d, readSize) + WriterTail(c, readSize) == readSize
            && (n > 0 ==>
                 (LastBlockPast2G(c, readSize) <==> (n - 1) * d >= 0x8000_0000 && (n - 1) * d + d > readSize))
            && (LastBlockPast2G(c, readSize) ==> n > 0)
  {
    var n, d := WriterBlocks(c, readSize), c.blockSize;
    BlocksAndTail(c, readSize);
    hide UsesTail, WriterBlocks, WriterTail;
    var q, r := readSize / d, readSize % d;
    if n == q {
      if n > 0 {
        Difference(q, q - 1, d);
      }
    } else {
      Difference(q + 1, q, d);
    }
  }

  /** How many blocks there are, and what is left for the tail. */
  lemma BlocksAndTail(c: Config, readSize: nat)
    requires c.blockSize > 0
    ensures var q, r := readSize / c.blockSize, readSize % c.blockSize;
            && readSize == q * c.blockSize + r
            && WriterBlocks(c, readSize) == (if UsesTail(c, readSize) || r == 0 then q else q + 1)
            && WriterTail(c, readSize) == (if UsesTail(c, readSize) then r else 0)
  {
    var q, r := readSize / c.blockSize, readSize % c.blockSize;
    hide UsesTail;
    if r == 0 {
      CeilOfMultiple(readSize, c.blockSize);
    } else {
      CeilOfPart(q, c.blockSize, r);
    }
  }

  lemma CeilOfPart(q: nat, d: nat, r: nat)
    requires 0 < r < d
    ensures CeilDiv(q * d + r, d) == q + 1
  {
    Difference(q + 1, q, d);
    assert q * d + r + d - 1 == (q + 1) * d + (r - 1);
    DivMulAdd(q + 1, d, r - 1);
  }

  /** The bytes that extraction gives are the file's, if and only if no short last block lies past 2 GB. */
  lemma ExtractedIsFile(c: Config, file: seq<byte>, f: File)
    requires ConfigOk(c) && Written(c, file, f)
    ensures Concat(f.pieces) + f.tail == file[..ReadSize(file)] <==> !LastBlockPast2G(c, ReadSize(file))
  {
    hide LastBlockPast2G, WriterBlocks, WriterTail, Piece, Available;
    var readSize := ReadSize(file);
    var content, n, d := file[..readSize], |f.pieces|, c.blockSize;
    LastBlock(c, readSize);
    if n == 0 {
      assert f.pieces == [];
      assert f.tail == content;
    } else {
      AllButLastExact(c, content, f.pieces);
      PieceLength(c, content, f.pieces, n - 1);
      ConcatExact(c, content, f.pieces, n - 1);
      StoredNext(c, f.pieces, n - 1);
      assert f.pieces[..n] == f.pieces;
      if LastBlockPast2G(c, readSize) {
        assert |Concat(f.pieces)| == (n - 1) * d + d;
      } else {
        LastExact(c, content, f.pieces);
        ConcatExact(c, content, f.pieces, n);
        assert content[..Min(n * d, readSize)] + f.tail == content;
      }
    }
  }

  lemma LastExact(c: Config, content: seq<byte>, pieces: seq<seq<byte>>)
    requires ConfigOk(c) && Cut(c, content, pieces) && |pieces| > 0
    requires Exact(c, content, pieces, |pieces| - 1)
    requires var b := |pieces| - 1; |pieces[b]| == |Piece(content, c.blockSize, b)|
    ensures Exact(c, content, pieces, |pieces|)
  {
  }

  /** With the default flags, a file of 2 GB and a byte is not extracted as it was. */
  lemma TwoGigabytesAndAByte(c: Config, file: seq<byte>, f: File)
    requires ConfigOk(c) && c.blockSize == 0x1_0000 && !c.noFragments && !c.alwaysUseFragments
    requires |file| == 0x8000_0001 && Written(c, file, f)
    ensures Concat(f.pieces) + f.tail != file
  {
    hide Written, Concat;
    assert LastBlockPast2G(c, 0x8000_0001);
    ExtractedIsFile(c, file, f);
    assert file[..ReadSize(file)] == file;
  }

  // ---- whole images ----

  /** A file to store, and how many compressed blocks its buffer holds: all of them, or so many at a time. */
  datatype Job = Job(file: seq<byte>, wholeFile: bool, room: nat)

  predicate JobOk(c: Config, j: Job)
    requires c.blockSize > 0
  {
    var blocks := WriterBlocks(c, ReadSize(j.file));
    blocks < 0x8000_0000 && if j.wholeFile then j.room == blocks else j.room > 0
  }

  /** The data after so many files, and the files as written. */
  function LaidBy(c: Config, disk: seq<byte>, jobs: seq<Job>): Laid
    requires c.blockSize > 0
  {
    if jobs == [] then Laid(disk, [], [])
    else WithFile(c, LaidBy(c, disk, jobs[..|jobs| - 1]), jobs[|jobs| - 1].file)
  }

  function FilesOf(c: Config, disk: seq<byte>, jobs: seq<Job>): (f: seq<File>)
    requires c.blockSize > 0
    ensures |f| == |jobs|
  {
    if jobs == [] then []
    else
      var n := |jobs| - 1;
      FilesOf(c, disk, jobs[..n]) + [FileOf(c, LaidBy(c, disk, jobs[..n]), jobs[n].file)]
  }

  /** All data, with the last fragment block. */
  function DataOf(c: Config, disk: seq<byte>, jobs: seq<Job>): Laid
    requires c.blockSize > 0
  {
    Flushed(c, LaidBy(c, disk, jobs))
  }

  /** How many fragment blocks the tails of the files take. */
  function TailPool(c: Config, jobs: seq<Job>): Pool
    requires c.blockSize > 0
  {
    if jobs == [] then Pool(0, 0)
    else Pooled(c, TailPool(c, jobs[..|jobs| - 1]), WriterTail(c, ReadSize(jobs[|jobs| - 1].file)))
  }

  function FragmentCount(c: Config, jobs: seq<Job>): nat
    requires c.blockSize > 0
  {
    Emptied(TailPool(c, jobs)).blocks
  }

  lemma {:induction false} FragmentsCounted(c: Config, disk: seq<byte>, jobs: seq<Job>)
    requires c.blockSize > 0
    ensures PoolOf(LaidBy(c, disk, jobs)) == TailPool(c, jobs)
    ensures |DataOf(c, disk, jobs).table| == FragmentCount(c, jobs)
    decreases |jobs|
  {
    hide WithFile, Flushed, Pooled, Emptied, WriterTail, ReadSize;
    WithFilePool(c, LaidBy(c, disk, jobs), []);
    if jobs != [] {
      var n := |jobs| - 1;
      FragmentsCounted(c, disk, jobs[..n]);
      WithFilePool(c, LaidBy(c, disk, jobs[..n]), jobs[n].file);
    }
  }

  /** Tails of more than half a block take a fragment block each. */
  lemma {:induction false} LongTails(c: Config, jobs: seq<Job>)
    requires c.blockSize > 0
    requires forall i :: 0 <= i < |jobs| ==> 2 * WriterTail(c, ReadSize(jobs[i].file)) > c.blockSize
    ensures var p := TailPool(c, jobs);
            FragmentCount(c, jobs) == |jobs| && (jobs != [] ==> p.blocks == |jobs| - 1 && 2 * p.fill > c.blockSize)
    decreases |jobs|
  {
    hide WriterTail, ReadSize;
    if jobs != [] {
      LongTails(c, jobs[..|jobs| - 1]);
    }
  }

  method WriteAll(c: Config, disk: seq<byte>, jobs: seq<Job>) returns (image: Image, inodes: seq<Inode>)
    requires ConfigOk(c) && |jobs| < INVALID_FRAG - 2
    requires forall i :: 0 <= i < |jobs| ==> JobOk(c, jobs[i])
    ensures fresh(image) && image.Valid() && image.c == c && image.fragmentData == []
    ensures image.View() == DataOf(c, disk, jobs) && image.files == FilesOf(c, disk, jobs)
    ensures |inodes| == |jobs| && forall i :: 0 <= i < |jobs| ==> image.files[i].inode == inodes[i]
  {
    hide WithFile, InodeOf, BlocksOf, TailOf, JobOk, Flushed, FileStored, FragStored, WriterBlocks;
    inodes := [];
    image := new Image(c, disk);
    for i := 0 to |jobs|
      invariant image.Valid() && image.c == c && fresh(image)
      invariant image.View() == LaidBy(c, disk, jobs[..i]) && image.files == FilesOf(c, disk, jobs[..i])
      invariant |inodes| == i && |image.fragmentTable| <= i
      invariant forall k :: 0 <= k < i ==> image.files[k].inode == inodes[k]
    {
      JobRoom(c, jobs[i]);
      var inode := image.WriteFile(jobs[i].file, jobs[i].wholeFile, jobs[i].room);
      assert jobs[..i + 1][..i] == jobs[..i];
      inodes := inodes + [inode];
    }
    assert jobs[..|jobs|] == jobs;
    image.WriteFragment();
  }

  lemma {:induction false} AllWritten(c: Config, disk: seq<byte>, jobs: seq<Job>, i: nat)
    requires ConfigOk(c) && i < |jobs|
    ensures Written(c, jobs[i].file, FilesOf(c, disk, jobs)[i])
    decreases |jobs|
  {
    hide Written, FileOf;
    var n := |jobs| - 1;
    if i < n {
      AllWritten(c, disk, jobs[..n], i);
    } else {
      FileOfWritten(c, LaidBy(c, disk, jobs[..n]), jobs[n].file);
    }
  }

  lemma JobRoom(c: Config, j: Job)
    requires c.blockSize > 0 && JobOk(c, j)
    ensures var blocks := WriterBlocks(c, ReadSize(j.file));
            blocks < 0x8000_0000 && if j.wholeFile then j.room == blocks else j.room > 0
  {
  }

  /** Any files, stored one after the other and then extracted. */
  method WriteAndExtract(c: Config, disk: seq<byte>, jobs: seq<Job>) returns (outs: seq<Option<seq<byte>>>)
    requires ConfigOk(c) && |jobs| < INVALID_FRAG - 2
    requires forall i :: 0 <= i < |jobs| ==> JobOk(c, jobs[i])
    ensures |outs| == |jobs|
    ensures forall i :: 0 <= i < |jobs| ==> var file := jobs[i].file;
              outs[i] == Some(file[..ReadSize(file)]) <==> !LastBlockPast2G(c, ReadSize(file))
  {
    hide Written, LastBlockPast2G, FileStored, FragStored, WriterBlocks, LaidBy, FilesOf, Flushed, Concat;
    var image, inodes := WriteAll(c, disk, jobs);
    var stored, table := image.disk, image.fragmentTable;
    ghost var frags, files := image.frags, image.files;
    var reader := new Extractor(c, stored, table);
    outs := [];
    for i := 0 to |jobs|
      invariant reader.Valid() && |outs| == i
      invariant forall k :: 0 <= k < i ==> var file := jobs[k].file;
                  outs[k] == Some(file[..ReadSize(file)]) <==> !LastBlockPast2G(c, ReadSize(file))
    {
      AllWritten(c, disk, jobs, i);
      WrittenAgrees(c, jobs[i].file, stored, frags, files[i]);
      ExtractedIsFile(c, jobs[i].file, files[i]);
      var out := reader.Extract(inodes[i], files[i], frags);
      outs := outs + [out];
    }
  }

  /** What the reader derives about a stored file; the empty fragment buffer holds no tail. */
  lemma WrittenAgrees(c: Config, file: seq<byte>, disk: seq<byte>, frags: seq<seq<byte>>, f: File)
    requires ConfigOk(c) && Written(c, file, f) && FileStored(c, disk, frags + [[]], f)
    ensures FileStored(c, disk, frags, f)
    ensures |f.pieces| == ReaderBlocks(c.blockSize, f.inode.fileSize, f.inode.fragment)
    ensures |f.tail| == ReaderTail(c.blockSize, f.inode.fileSize, f.inode.fragment)
  {
    hide WriterBlocks, WriterTail, Cut, Codes, Stored;
    BlocksFit(c, ReadSize(file));
    ReaderAgrees(c, ReadSize(file), f.inode.fragment);
  }
}
