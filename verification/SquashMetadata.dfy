/**
 The metadata tables of a squashfs image. The writer streams records through a cache that
 it flushes 8192 bytes at a time, and names each record by the place of its block in the
 compressed table and its offset in the uncompressed block. The reader expands the whole
 table and keeps a hash from compressed places to expanded ones.
 */
module SquashMetadata {
  import opened Bytes
  import opened SquashBlocks

  // ---- references ----

  const OFFSET_SPAN := 0x1_0000

  function MkInode(block: nat, offset: nat): nat { block * OFFSET_SPAN + offset }
  function InodeBlk(ref: nat): nat { ref / OFFSET_SPAN }
  function InodeOffset(ref: nat): nat { ref % OFFSET_SPAN }

  /** Number of whole blocks in a stream. */
  function Whole(s: seq<byte>): nat { |s| / METADATA_SIZE }

  /** The reference handed out for a record stored after the stream s. */
  function RefAfter(cfg: Config, s: seq<byte>): nat {
    MkInode(BlockPos(cfg, s, Whole(s)), |s| % METADATA_SIZE)
  }

  /**
   A reference taken when the stream was s still names the same record after any later
   ones: its offset lies in a block, its block part is still the place of that block, and
   the two together lead to the record even when it runs into later blocks.
   */
  lemma ReferenceStable(cfg: Config, s: seq<byte>, record: seq<byte>, more: seq<byte>)
    requires Lawful(cfg.z) && record != []
    ensures var ref, t := RefAfter(cfg, s), s + record + more;
            && InodeOffset(ref) < METADATA_SIZE
            && METADATA_SIZE * Whole(s) < |t|
            && InodeBlk(ref) == BlockPos(cfg, t, Whole(s)) < |EncodeBlocks(cfg, t)|
            && METADATA_SIZE * Whole(s) + InodeOffset(ref) == |s|
            && t[|s|..|s| + |record|] == record
  {
    var t, k := s + record + more, Whole(s);
    var block, offset := BlockPos(cfg, s, k), |s| % METADATA_SIZE;
    assert MkInode(block, offset) / OFFSET_SPAN == block && MkInode(block, offset) % OFFSET_SPAN == offset;
    assert t == s + (record + more);
    BlockPosStable(cfg, s, record + more, k);
    EncodeBlocksAt(cfg, t, k);
    EncodeBlocksNonEmpty(cfg, t[METADATA_SIZE * k..]);
  }

  // ---- the writer ----

  class Writer {
    const cfg: Config
    var table: seq<byte>         // blocks flushed so far
    var cache: seq<byte>         // bytes stored but not yet flushed
    ghost var stream: seq<byte>  // every byte stored
    ghost var flushed: nat       // whole blocks of it flushed

    ghost predicate Valid()
      reads this
    {
      && Lawful(cfg.z)
      && |stream| == METADATA_SIZE * flushed + |cache|
      && cache == stream[METADATA_SIZE * flushed..]
      && table == EncodeBlocks(cfg, stream[..METADATA_SIZE * flushed])
    }

    constructor (cfg: Config)
      requires Lawful(cfg.z)
      ensures Valid() && stream == [] && this.cfg == cfg
    {
      this.cfg := cfg;
      table, cache, stream, flushed := [], [], [], 0;
    }

    /** Compresses the first block of the cache to the table and moves the rest down. */
    method FlushBlock()
      requires Valid() && |cache| >= METADATA_SIZE
      modifies this`table, this`cache, this`flushed
      ensures Valid() && |cache| == |old(cache)| - METADATA_SIZE
    {
      ghost var done := METADATA_SIZE * flushed;
      assert stream[..done + METADATA_SIZE] == stream[..done] + cache[..METADATA_SIZE];
      EncodeBlocksAppend(cfg, stream[..done], cache[..METADATA_SIZE], flushed);
      table := table + BlockBytes(cfg, cache[..METADATA_SIZE]);
      cache := cache[METADATA_SIZE..];
      flushed := flushed + 1;
    }

    /** get_inode, the copy of the record into the space it reserves, and MKINODE. */
    method Store(record: seq<byte>) returns (ref: nat)
      requires Valid()
      modifies this
      ensures Valid()
      ensures stream == old(stream) + record
      ensures ref == RefAfter(cfg, old(stream))
    {
      while |cache| >= METADATA_SIZE
        invariant Valid() && stream == old(stream)
      {
        FlushBlock();
      }
      assert flushed == Whole(stream);
      ref := MkInode(|table|, |cache|);
      cache, stream := cache + record, stream + record;
      assert stream[..METADATA_SIZE * flushed] == old(stream)[..METADATA_SIZE * flushed];
    }

    /** write_inodes: flushes what is left, the last block short. */
    method Finish()
      requires Valid()
      modifies this`table, this`cache, this`flushed
      ensures cache == [] && table == EncodeBlocks(cfg, stream)
    {
      hide EncodeBlocks, BlockBytes;
      assert stream[..|stream|] == stream;
      while cache != []
        invariant cache != [] ==> Valid()
        invariant cache == [] ==> table == EncodeBlocks(cfg, stream)
        decreases |cache|
      {
        var avail := if |cache| > METADATA_SIZE then METADATA_SIZE else |cache|;
        ghost var done := METADATA_SIZE * flushed;
        assert stream[..done + avail] == stream[..done] + cache[..avail];
        EncodeBlocksAppend(cfg, stream[..done], cache[..avail], flushed);
        table := table + BlockBytes(cfg, cache[..avail]);
        cache := cache[avail..];
        flushed := flushed + 1;
      }
    }
  }

  // ---- the reader's hash of block starts ----

  const INT_SPAN := 0x1_0000_0000
  const HASH_SIZE := 0x1_0000

  datatype HashEntry = HashEntry(start: nat, bytes: nat)

  /** The first entry of a chain with the given start, or -1. */
  function Find(chain: seq<HashEntry>, start: nat): int {
    if chain == [] then -1
    else if chain[0].start == start then chain[0].bytes
    else Find(chain[1..], start)
  }

  class BlockHash {
    const chains: array<seq<HashEntry>>

    ghost predicate Valid() { chains.Length == HASH_SIZE }

    constructor ()
      ensures Valid() && fresh(chains)
      ensures forall start: nat :: start < INT_SPAN ==> Get(start) == -1
    {
      chains := new seq<HashEntry>[HASH_SIZE](_ => []);
    }

    /** What the table says of a start already cut down to an int. */
    ghost function Get(start: nat): int
      requires Valid()
      reads chains
    {
      Find(chains[start % HASH_SIZE], start)
    }

    /** add_entry: starts are kept as 32-bit ints, newest first in their chain. */
    method AddEntry(start: nat, bytes: nat)
      requires Valid()
      modifies chains
      ensures forall s: nat :: s < INT_SPAN ==> Get(s) == if s == start % INT_SPAN then bytes else old(Get(s))
    {
      var key := start % INT_SPAN;
      var hash := key % HASH_SIZE;
      chains[hash] := [HashEntry(key, bytes)] + chains[hash];
      assert chains[hash][1..] == old(chains[hash]);
    }

    /** lookup_entry. */
    method LookupEntry(start: nat) returns (bytes: int)
      requires Valid()
      ensures bytes == Get(start % INT_SPAN)
    {
      var key := start % INT_SPAN;
      var entry := chains[key % HASH_SIZE];
      while entry != []
        invariant Find(entry, key) == Get(key)
      {
        if entry[0].start == key {
          return entry[0].bytes;
        }
        entry := entry[1..];
      }
      return -1;
    }
  }

  // ---- the expanded table ----

  /** A block, and whether it is to be stored without trying to compress it. */
  datatype Piece = Piece(plain: bool, data: seq<byte>)

  /** The blocks that a stream is cut into, the last one possibly short. */
  function Chunks(plain: bool, s: seq<byte>): (b: seq<Piece>)
    ensures Proper(b)
    decreases |s|
  {
    if s == [] then []
    else
      var n := Min(METADATA_SIZE, |s|);
      [Piece(plain, s[..n])] + Chunks(plain, s[n..])
  }

  predicate Proper(blocks: seq<Piece>) {
    forall i :: 0 <= i < |blocks| ==> 0 < |blocks[i].data| <= METADATA_SIZE
  }

  function PieceBytes(cfg: Config, p: Piece): seq<byte>
    requires |p.data| <= METADATA_SIZE
  {
    BlockBytes(cfg.(noI := p.plain), p.data)
  }

  function Coded(cfg: Config, blocks: seq<Piece>): seq<byte>
    requires Proper(blocks)
  {
    if blocks == [] then [] else PieceBytes(cfg, blocks[0]) + Coded(cfg, blocks[1..])
  }

  /** The blocks expanded. */
  function Joined(blocks: seq<Piece>): seq<byte> {
    if blocks == [] then [] else Joined(blocks[..|blocks| - 1]) + blocks[|blocks| - 1].data
  }

  /** A piece is read back whatever its flag. */
  lemma ReadPiece(cfg: Config, p: Piece, before: seq<byte>, after: seq<byte>)
    requires Lawful(cfg.z) && 0 < |p.data| <= METADATA_SIZE
    ensures var b := PieceBytes(cfg, p);
            |b| > 0 && ReadBlock(cfg, before + b + after, |before|) == Some(Block(p.data, |before| + |b|))
  {
    ReadBlockBytes(cfg.(noI := p.plain), p.data, before, after);
  }

  lemma {:induction false} CodedChunks(cfg: Config, plain: bool, s: seq<byte>)
    ensures Coded(cfg, Chunks(plain, s)) == EncodeBlocks(cfg.(noI := plain), s)
    decreases |s|
  {
    hide BlockBytes;
    if s != [] {
      CodedChunks(cfg, plain, s[Min(METADATA_SIZE, |s|)..]);
      assert Chunks(plain, s)[1..] == Chunks(plain, s[Min(METADATA_SIZE, |s|)..]);
    }
  }

  lemma {:induction false} CodedJoin(cfg: Config, a: seq<Piece>, b: seq<Piece>)
    requires Proper(a) && Proper(b)
    ensures Proper(a + b) && Coded(cfg, a + b) == Coded(cfg, a) + Coded(cfg, b)
  {
    hide PieceBytes;
    if a == [] {
      assert a + b == b;
    } else {
      CodedJoin(cfg, a[1..], b);
      assert (a + b)[1..] == a[1..] + b;
    }
  }

  lemma {:induction false} JoinedJoin(a: seq<Piece>, b: seq<Piece>)
    ensures Joined(a + b) == Joined(a) + Joined(b)
    decreases |b|
  {
    if b == [] {
      assert a + b == a;
    } else {
      var n := |b| - 1;
      JoinedJoin(a, b[..n]);
      assert (a + b)[..|a + b| - 1] == a + b[..n];
    }
  }

  lemma JoinedNext(blocks: seq<Piece>, i: nat)
    requires i < |blocks|
    ensures Joined(blocks[..i + 1]) == Joined(blocks[..i]) + blocks[i].data
  {
    assert blocks[..i + 1][..i] == blocks[..i];
  }

  lemma {:induction false} JoinedChunks(plain: bool, s: seq<byte>)
    ensures Joined(Chunks(plain, s)) == s
    decreases |s|
  {
    if s != [] {
      var n := Min(METADATA_SIZE, |s|);
      JoinedChunks(plain, s[n..]);
      var one := [Piece(plain, s[..n])];
      JoinedJoin(one, Chunks(plain, s[n..]));
      assert one[..0] == [] && Joined(one) == [] + s[..n];
    }
  }

  /** The first k blocks of a stream, if there are so many whole ones. */
  lemma {:induction false} ChunksPrefix(plain: bool, s: seq<byte>, k: nat)
    requires METADATA_SIZE * k <= |s|
    ensures k <= |Chunks(plain, s)| && Chunks(plain, s)[..k] == Chunks(plain, s[..METADATA_SIZE * k])
    ensures k == |Chunks(plain, s)| <==> METADATA_SIZE * k == |s|
    decreases k
  {
    if k > 0 {
      var n, t := METADATA_SIZE, s[METADATA_SIZE..];
      ChunksPrefix(plain, t, k - 1);
      assert s[..n * k][..n] == s[..n] && s[..n * k][n..] == t[..n * (k - 1)];
      assert Chunks(plain, s) == [Piece(plain, s[..n])] + Chunks(plain, t);
      assert Chunks(plain, s)[..k] == [Piece(plain, s[..n])] + Chunks(plain, t)[..k - 1];
    }
  }

  lemma DistinctInts(a: nat, b: nat)
    requires a < b < a + INT_SPAN
    ensures a % INT_SPAN != b % INT_SPAN
  {
  }

  /** Where block j of some blocks starts in their encoding, and in the expanded table. */
  function CodedAt(cfg: Config, blocks: seq<Piece>, j: nat): nat
    requires Proper(blocks) && j <= |blocks|
  {
    |Coded(cfg, blocks[..j])|
  }

  function ExpandedAt(blocks: seq<Piece>, j: nat): nat
    requires j <= |blocks|
  {
    |Joined(blocks[..j])|
  }

  lemma CodedOne(cfg: Config, block: Piece)
    requires 0 < |block.data| <= METADATA_SIZE
    ensures Coded(cfg, [block]) == PieceBytes(cfg, block)
  {
    hide PieceBytes;
    var one: seq<Piece> := [block];
    assert one[1..] == [];
    assert Coded(cfg, one) == PieceBytes(cfg, block) + [];
  }

  lemma CodedNext(cfg: Config, blocks: seq<Piece>, j: nat)
    requires Lawful(cfg.z) && Proper(blocks) && j < |blocks|
    ensures CodedAt(cfg, blocks, j + 1) == CodedAt(cfg, blocks, j) + |PieceBytes(cfg, blocks[j])|
    ensures CodedAt(cfg, blocks, j) < CodedAt(cfg, blocks, j + 1)
  {
    hide PieceBytes;
    assert blocks[..j + 1] == blocks[..j] + [blocks[j]];
    CodedJoin(cfg, blocks[..j], [blocks[j]]);
    CodedOne(cfg, blocks[j]);
    ReadPiece(cfg, blocks[j], [], []);
  }

  /** Blocks are never empty, so their places grow. */
  lemma {:induction false} CodedIncreasing(cfg: Config, blocks: seq<Piece>, i: nat, j: nat)
    requires Lawful(cfg.z) && Proper(blocks) && i < j <= |blocks|
    ensures CodedAt(cfg, blocks, i) < CodedAt(cfg, blocks, j)
    decreases j
  {
    hide CodedAt;
    CodedNext(cfg, blocks, j - 1);
    if i < j - 1 {
      CodedIncreasing(cfg, blocks, i, j - 1);
    }
  }

  lemma CodedEnd(cfg: Config, blocks: seq<Piece>)
    requires Proper(blocks)
    ensures CodedAt(cfg, blocks, 0) == 0 && CodedAt(cfg, blocks, |blocks|) == |Coded(cfg, blocks)|
  {
    assert blocks[..|blocks|] == blocks && blocks[..0] == [];
  }

  /** The encoding around block j. */
  lemma CodedAround(cfg: Config, blocks: seq<Piece>, j: nat)
    requires Proper(blocks) && j < |blocks|
    ensures Proper(blocks[..j]) && Proper(blocks[j + 1..])
    ensures Coded(cfg, blocks) == Coded(cfg, blocks[..j]) + PieceBytes(cfg, blocks[j]) + Coded(cfg, blocks[j + 1..])
  {
    var one, rest := [blocks[j]], blocks[j + 1..];
    assert Proper(one) && Proper(rest) && Proper(blocks[..j]);
    hide PieceBytes, Coded, Proper;
    CodedOne(cfg, blocks[j]);
    CodedJoin(cfg, blocks[..j], one);
    CodedJoin(cfg, blocks[..j] + one, rest);
    assert blocks == (blocks[..j] + one) + rest;
  }

  lemma ChunksOfNothing(plain: bool, s: seq<byte>)
    ensures Chunks(plain, s) == [] <==> s == []
  {
  }

  /** Reading at the place of block j gives block j and the place of the next. */
  lemma ReadBlockAt(cfg: Config, blocks: seq<Piece>, j: nat, disk: seq<byte>, start: nat, end: nat)
    requires Lawful(cfg.z) && Proper(blocks) && j < |blocks|
    requires start <= end <= |disk| && disk[start..end] == Coded(cfg, blocks)
    ensures ReadBlock(cfg, disk, start + CodedAt(cfg, blocks, j))
            == Some(Block(blocks[j].data, start + CodedAt(cfg, blocks, j + 1)))
  {
    hide ReadBlock, PieceBytes, Coded;
    CodedNext(cfg, blocks, j);
    CodedAround(cfg, blocks, j);
    var head, tail := Coded(cfg, blocks[..j]), Coded(cfg, blocks[j + 1..]);
    Around(disk, start, end, head, PieceBytes(cfg, blocks[j]), tail);
    ReadPiece(cfg, blocks[j], disk[..start] + head, tail + disk[end..]);
  }

  lemma Around(disk: seq<byte>, start: nat, end: nat, head: seq<byte>, block: seq<byte>, tail: seq<byte>)
    requires start <= end <= |disk| && disk[start..end] == head + block + tail
    ensures disk == (disk[..start] + head) + block + (tail + disk[end..])
  {
    assert disk == disk[..start] + disk[start..end] + disk[end..];
  }

  /** The blocks of a stream, and behind them those of another, compressed by another rule. */
  function TwoStreams(cfg: Config, s: seq<byte>, plain: bool, behind: seq<byte>): seq<Piece> {
    Chunks(cfg.noI, s) + Chunks(plain, behind)
  }

  function EncodeBehind(cfg: Config, plain: bool, behind: seq<byte>): seq<byte> {
    EncodeBlocks(cfg.(noI := plain), behind)
  }

  lemma TwoStreamsCoded(cfg: Config, s: seq<byte>, plain: bool, behind: seq<byte>)
    ensures var blocks := TwoStreams(cfg, s, plain, behind);
            && Proper(blocks) && Coded(cfg, blocks) == EncodeBlocks(cfg, s) + EncodeBehind(cfg, plain, behind)
            && Joined(blocks) == s + behind
  {
    hide Chunks, Coded, EncodeBlocks, Proper, Joined;
    CodedChunks(cfg, cfg.noI, s);
    assert cfg.(noI := cfg.noI) == cfg;
    CodedChunks(cfg, plain, behind);
    CodedJoin(cfg, Chunks(cfg.noI, s), Chunks(plain, behind));
    JoinedChunks(cfg.noI, s);
    JoinedChunks(plain, behind);
    JoinedJoin(Chunks(cfg.noI, s), Chunks(plain, behind));
  }

  /** Where block k of the first stream lies. */
  lemma TwoStreamsAt(cfg: Config, s: seq<byte>, plain: bool, behind: seq<byte>, k: nat)
    requires METADATA_SIZE * k <= |s|
    ensures var blocks := TwoStreams(cfg, s, plain, behind);
            && Proper(blocks) && k <= |blocks|
            && CodedAt(cfg, blocks, k) == BlockPos(cfg, s, k) && ExpandedAt(blocks, k) == METADATA_SIZE * k
            && (METADATA_SIZE * k < |s| ==> k < |blocks|)
  {
    hide Chunks, Joined, Coded, EncodeBlocks, Proper;
    var a, b := Chunks(cfg.noI, s), Chunks(plain, behind);
    ChunksPrefix(cfg.noI, s, k);
    CodedJoin(cfg, a, b);
    assert cfg.(noI := cfg.noI) == cfg;
    CodedChunks(cfg, cfg.noI, s[..METADATA_SIZE * k]);
    JoinedChunks(cfg.noI, s[..METADATA_SIZE * k]);
    assert (a + b)[..k] == a[..k];
  }

  /** Where the first stream ends. */
  lemma TwoStreamsEnd(cfg: Config, s: seq<byte>, plain: bool, behind: seq<byte>)
    ensures var blocks, n := TwoStreams(cfg, s, plain, behind), |Chunks(cfg.noI, s)|;
            && Proper(blocks) && n <= |blocks| && (n == |blocks| <==> behind == [])
            && CodedAt(cfg, blocks, n) == |EncodeBlocks(cfg, s)| && ExpandedAt(blocks, n) == |s|
  {
    hide Chunks, Joined, Coded, EncodeBlocks, Proper;
    var a, b := Chunks(cfg.noI, s), Chunks(plain, behind);
    ChunksOfNothing(plain, behind);
    CodedJoin(cfg, a, b);
    assert cfg.(noI := cfg.noI) == cfg;
    CodedChunks(cfg, cfg.noI, s);
    JoinedChunks(cfg.noI, s);
    assert (a + b)[..|a|] == a;
  }

  class Reader {
    const cfg: Config
    const start: nat
    const hash: BlockHash
    var table: seq<byte>

    constructor (cfg: Config, start: nat)
      ensures this.cfg == cfg && this.start == start && table == []
      ensures hash.Valid() && fresh(hash) && fresh(hash.chains)
      ensures forall s: nat :: s < INT_SPAN ==> hash.Get(s) == -1
    {
      this.cfg, this.start, this.table := cfg, start, [];
      hash := new BlockHash();
    }

    /** Block j is listed under its place, and nothing but the first k blocks is. */
    ghost predicate Listed(blocks: seq<Piece>, k: nat)
      requires hash.Valid() && Proper(blocks) && k <= |blocks|
      reads hash.chains
    {
      && (forall j: nat :: j < k ==> hash.Get((start + CodedAt(cfg, blocks, j)) % INT_SPAN) == ExpandedAt(blocks, j))
      && (forall key: nat :: key < INT_SPAN && hash.Get(key) != -1 ==>
            exists j: nat :: j < k && key == (start + CodedAt(cfg, blocks, j)) % INT_SPAN)
    }

    /** The table holds the blocks, and the hash knows the place of each and no other. */
    ghost predicate Holds(blocks: seq<Piece>)
      reads this, hash.chains
    {
      hash.Valid() && Proper(blocks) && table == Joined(blocks) && Listed(blocks, |blocks|)
    }

    lemma StartListing(blocks: seq<Piece>)
      requires hash.Valid() && Proper(blocks) && forall key: nat :: key < INT_SPAN ==> hash.Get(key) == -1
      ensures Listed(blocks, 0)
    {
    }

    /** Listing block k next to the earlier ones. */
    method ListBlock(pos: nat, ghost blocks: seq<Piece>, ghost k: nat)
      requires Lawful(cfg.z) && hash.Valid() && Proper(blocks) && k < |blocks| && Listed(blocks, k)
      requires table == Joined(blocks[..k]) && pos == start + CodedAt(cfg, blocks, k)
               && CodedAt(cfg, blocks, k) < INT_SPAN
      modifies hash.chains
      ensures Listed(blocks, k + 1)
    {
      hide CodedAt, Find, Joined;
      forall j: nat | j < k
        ensures (start + CodedAt(cfg, blocks, j)) % INT_SPAN != pos % INT_SPAN
      {
        CodedIncreasing(cfg, blocks, j, k);
        DistinctInts(start + CodedAt(cfg, blocks, j), pos);
      }
      hash.AddEntry(pos, |table|);
    }

    /**
     uncompress_inode_table and uncompress_directory_table: expands the blocks between start
     and end. The starts are kept in 32 bits, so the table must not be longer than that.
     */
    method Expand(disk: seq<byte>, end: nat, ghost blocks: seq<Piece>)
      requires Lawful(cfg.z) && table == [] && hash.Valid() && Proper(blocks)
      requires forall key: nat :: key < INT_SPAN ==> hash.Get(key) == -1
      requires start <= end <= |disk| && end - start <= INT_SPAN
      requires disk[start..end] == Coded(cfg, blocks)
      modifies this, hash.chains
      ensures Holds(blocks)
    {
      hide ReadBlock, Find, Listed, CodedAt, Coded;
      var pos := start;
      ghost var k := 0;
      StartListing(blocks);
      CodedEnd(cfg, blocks);
      assert blocks[..0] == [];
      hide Joined;
      while pos < end
        invariant k <= |blocks| && table == Joined(blocks[..k])
        invariant pos == start + CodedAt(cfg, blocks, k) && Listed(blocks, k)
        decreases |blocks| - k
      {
        ReadBlockAt(cfg, blocks, k, disk, start, end);
        JoinedNext(blocks, k);
        ListBlock(pos, blocks, k);
        var block := ReadBlock(cfg, disk, pos).value;
        table, pos := table + block.data, block.next;
        k := k + 1;
      }
      if k < |blocks| {
        CodedIncreasing(cfg, blocks, k, |blocks|);
        assert false;
      }
      assert blocks[..k] == blocks;
    }

    /** The lookup in create_inode and squashfs_openddir: where a reference leads in the expanded table. */
    method Locate(block: nat, offset: nat) returns (at: Option<nat>)
      requires hash.Valid()
      ensures at == var b := hash.Get((start + block) % INT_SPAN); if b == -1 then None else Some(b + offset)
    {
      var bytes := hash.LookupEntry(start + block);
      FindIsPosition(hash.chains[(start + block) % INT_SPAN % HASH_SIZE], (start + block) % INT_SPAN);
      if bytes == -1 {
        return None;
      }
      return Some(bytes + offset);
    }

    // ---- a stream, and the blocks of another behind it ----

    ghost predicate HoldsStream(s: seq<byte>, plain: bool, behind: seq<byte>)
      reads this, hash.chains
    {
      Holds(TwoStreams(cfg, s, plain, behind))
    }

    lemma TableIs(s: seq<byte>, plain: bool, behind: seq<byte>)
      requires HoldsStream(s, plain, behind)
      ensures table == s + behind
    {
      hide TwoStreams, Joined, Listed, Coded, EncodeBlocks, EncodeBehind;
      TwoStreamsCoded(cfg, s, plain, behind);
    }

    /** Block k of the stream is found at its place. */
    lemma StreamBlock(s: seq<byte>, plain: bool, behind: seq<byte>, k: nat)
      requires HoldsStream(s, plain, behind) && METADATA_SIZE * k < |s|
      ensures hash.Get((start + BlockPos(cfg, s, k)) % INT_SPAN) == METADATA_SIZE * k
    {
      hide TwoStreams, CodedAt, ExpandedAt, BlockPos, Find, Joined;
      TwoStreamsAt(cfg, s, plain, behind, k);
    }

    /** At the end of the stream a block starts exactly if there is something behind it. */
    lemma StreamEnd(s: seq<byte>, plain: bool, behind: seq<byte>)
      requires HoldsStream(s, plain, behind) && Lawful(cfg.z) && |EncodeBlocks(cfg, s)| < INT_SPAN
      ensures hash.Get((start + |EncodeBlocks(cfg, s)|) % INT_SPAN) == if behind == [] then -1 else |s|
    {
      hide Holds, CodedAt, ExpandedAt, EncodeBlocks, Find, Proper, TwoStreams;
      TwoStreamsEnd(cfg, s, plain, behind);
      EndOf(TwoStreams(cfg, s, plain, behind), |Chunks(cfg.noI, s)|);
    }

    /** What is listed at the place of block n, if there is such a block, and at the end. */
    lemma EndOf(blocks: seq<Piece>, n: nat)
      requires Lawful(cfg.z) && Holds(blocks) && n <= |blocks| && CodedAt(cfg, blocks, n) < INT_SPAN
      ensures hash.Get((start + CodedAt(cfg, blocks, n)) % INT_SPAN)
              == if n == |blocks| then -1 else ExpandedAt(blocks, n)
    {
      hide CodedAt, ExpandedAt, Find, Joined;
      var key := (start + CodedAt(cfg, blocks, n)) % INT_SPAN;
      if n == |blocks| && hash.Get(key) != -1 {
        var j: nat :| j < n && key == (start + CodedAt(cfg, blocks, j)) % INT_SPAN;
        CodedIncreasing(cfg, blocks, j, n);
        DistinctInts(start + CodedAt(cfg, blocks, j), start + CodedAt(cfg, blocks, n));
        assert false;
      }
    }
  }

  lemma FindIsPosition(chain: seq<HashEntry>, start: nat)
    ensures Find(chain, start) >= -1
  {
  }

  // ---- writer and reader together ----

  function Flatten(records: seq<seq<byte>>): seq<byte> {
    if records == [] then [] else Flatten(records[..|records| - 1]) + records[|records| - 1]
  }

  lemma FlattenSplit(records: seq<seq<byte>>, i: nat) returns (more: seq<byte>)
    requires i < |records|
    ensures Flatten(records) == Flatten(records[..i]) + records[i] + more
    decreases |records|
  {
    var n := |records| - 1;
    if i == n {
      more := [];
    } else {
      assert records[..n][..i] == records[..i];
      more := FlattenSplit(records[..n], i);
      more := more + records[n];
    }
  }

  /** A reference handed out at any time leads to its record in the finished table. */
  method Resolve(r: Reader, ref: nat, ghost s: seq<byte>, ghost record: seq<byte>, ghost more: seq<byte>,
                 ghost plain: bool, ghost behind: seq<byte>)
    returns (at: nat)
    requires Lawful(r.cfg.z) && record != []
    requires r.HoldsStream(s + record + more, plain, behind) && ref == RefAfter(r.cfg, s)
    ensures at + |record| <= |r.table| && r.table[at..at + |record|] == record
  {
    hide EncodeBlocks, BlockPos, Find, RefAfter;
    ReferenceStable(r.cfg, s, record, more);
    ghost var t := s + record + more;
    r.StreamBlock(t, plain, behind, Whole(s));
    r.TableIs(t, plain, behind);
    var place := r.Locate(InodeBlk(ref), InodeOffset(ref));
    at := place.value;
    assert r.table[at..at + |record|] == t[at..at + |record|];
  }

  /** Records stored one after another; each reference is fixed by what came before. */
  method StoreAll(cfg: Config, records: seq<seq<byte>>) returns (table: seq<byte>, refs: seq<nat>)
    requires Lawful(cfg.z)
    ensures table == EncodeBlocks(cfg, Flatten(records)) && Tight(cfg, Flatten(records), table)
    ensures |refs| == |records| && forall i :: 0 <= i < |refs| ==> refs[i] == RefAfter(cfg, Flatten(records[..i]))
  {
    hide EncodeBlocks, RefAfter, Flatten, Tight;
    EncodeBlocksTight(cfg, Flatten(records));
    var w := new Writer(cfg);
    refs := [];
    FlattenStart();
    assert records[..0] == [];
    for i := 0 to |records|
      invariant w.Valid() && w.cfg == cfg && w.stream == Flatten(records[..i])
      invariant |refs| == i && forall j :: 0 <= j < i ==> refs[j] == RefAfter(cfg, Flatten(records[..j]))
    {
      FlattenNext(records, i);
      var ref := w.Store(records[i]);
      refs := refs + [ref];
    }
    assert records[..|records|] == records;
    w.Finish();
    table := w.table;
  }

  /** A table on the disk, expanded. */
  method OpenTable(cfg: Config, disk: seq<byte>, start: nat, end: nat, ghost s: seq<byte>, ghost plain: bool,
                   ghost behind: seq<byte>)
    returns (r: Reader)
    requires Lawful(cfg.z) && start <= end <= |disk| && end - start <= INT_SPAN
    requires disk[start..end] == EncodeBlocks(cfg, s) + EncodeBehind(cfg, plain, behind)
    ensures fresh(r) && fresh(r.hash) && fresh(r.hash.chains) && r.cfg == cfg && r.start == start
    ensures r.HoldsStream(s, plain, behind)
  {
    hide EncodeBlocks, EncodeBehind, TwoStreams, Coded, Find, Joined, Proper;
    TwoStreamsCoded(cfg, s, plain, behind);
    r := new Reader(cfg, start);
    r.Expand(disk, end, TwoStreams(cfg, s, plain, behind));
  }

  /** A table with nothing behind it that is read with it. */
  method OpenAlone(cfg: Config, before: seq<byte>, table: seq<byte>, after: seq<byte>, ghost s: seq<byte>)
    returns (r: Reader)
    requires Lawful(cfg.z) && table == EncodeBlocks(cfg, s) && |table| <= INT_SPAN
    ensures fresh(r) && fresh(r.hash) && fresh(r.hash.chains) && r.cfg == cfg && r.start == |before|
    ensures r.HoldsStream(s, false, [])
  {
    assert EncodeBehind(cfg, false, []) == [];
    hide EncodeBlocks, EncodeBehind, Reader.HoldsStream;
    var disk, start := before + table + after, |before|;
    assert disk[start..start + |table|] == table == table + [];
    r := OpenTable(cfg, disk, start, start + |table|, s, false, []);
  }

  /**
   Any records stored one after another, in any number and of any sizes, are found again
   through the references handed out for them.
   */
  method StoreAndResolve(cfg: Config, before: seq<byte>, records: seq<seq<byte>>, after: seq<byte>)
    returns (refs: seq<nat>, found: seq<seq<byte>>)
    requires Lawful(cfg.z) && [] !in records
    requires |EncodeBlocks(cfg, Flatten(records))| <= INT_SPAN
    ensures |refs| == |records| && forall i :: 0 <= i < |refs| ==> InodeOffset(refs[i]) < METADATA_SIZE
    ensures found == records
  {
    hide RefAfter, Flatten, BlockPos, Find, EncodeBlocks, Reader.HoldsStream;
    var table;
    table, refs := StoreAll(cfg, records);
    var r := OpenAlone(cfg, before, table, after, Flatten(records));
    found := [];
    for i := 0 to |records|
      invariant r.HoldsStream(Flatten(records), false, []) && found == records[..i]
      invariant forall j :: 0 <= j < i ==> InodeOffset(refs[j]) < METADATA_SIZE
    {
      ghost var more := FlattenSplit(records, i);
      ReferenceStable(cfg, Flatten(records[..i]), records[i], more);
      var at := Resolve(r, refs[i], Flatten(records[..i]), records[i], more, false, []);
      found := found + [r.table[at..at + |records[i]|]];
    }
  }

  lemma FlattenStart()
    ensures Flatten([]) == []
  {
  }

  lemma FlattenNext(records: seq<seq<byte>>, i: nat)
    requires i < |records|
    ensures Flatten(records[..i + 1]) == Flatten(records[..i]) + records[i]
  {
    assert records[..i + 1][..i] == records[..i];
  }
}
