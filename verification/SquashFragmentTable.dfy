/**
 The fragment table of a squashfs image: sixteen bytes for every fragment block, in metadata
 blocks that an index behind them names. The size of the last block is the remainder by the
 block size, so a table that ends with a whole block loses it.
 */
module SquashFragmentTable {
  import opened Bytes
  import opened SquashBlocks
  import opened SquashMetadata
  import BitFields
  import SquashFile
  import SquashInodes

  const ENTRY_BYTES := 16
  const ZERO_BLOCK := 0x8000

  /** SQUASHFS_FRAGMENT_INDEXES: how many metadata blocks so many bytes take. */
  function Indexes(bytes: nat): nat {
    (bytes + METADATA_SIZE - 1) / METADATA_SIZE
  }

  /** The writer's size for block i. */
  function Avail(bytes: nat, i: nat): nat {
    if i == Indexes(bytes) - 1 then bytes % METADATA_SIZE else METADATA_SIZE
  }

  /** The last block is a whole one: the remainder says it is empty. */
  predicate LosesLast(bytes: nat) {
    bytes > 0 && bytes % METADATA_SIZE == 0
  }

  /**
   mangle keeps an empty block as it is, and its size code means the largest size there is: junk follows the header.
   */
  function EmptyBlock(cfg: Config, junk: seq<byte>): seq<byte>
    requires |junk| == ZERO_BLOCK
  {
    Header(cfg, Mangle(cfg.z, [], cfg.noI, COMPRESSED_BIT).code) + junk
  }

  lemma EmptyMangled(cfg: Config)
    ensures Mangle(cfg.z, [], cfg.noI, COMPRESSED_BIT) == Mangled(COMPRESSED_BIT, [])
    ensures CompressedSize(COMPRESSED_BIT, COMPRESSED_BIT) == ZERO_BLOCK
    ensures !IsCompressed(COMPRESSED_BIT, COMPRESSED_BIT)
  {
  }

  /** What lands on the disk. */
  function TableBytes(cfg: Config, table: seq<byte>, junk: seq<byte>): seq<byte>
    requires |junk| == ZERO_BLOCK
  {
    if LosesLast(|table|) then EncodeBlocks(cfg, table[..|table| - METADATA_SIZE]) + EmptyBlock(cfg, junk)
    else EncodeBlocks(cfg, table)
  }

  // ---- writing ----

  lemma IndexesAre(bytes: nat)
    ensures var k := Indexes(bytes);
            && bytes <= METADATA_SIZE * k < bytes + METADATA_SIZE
            && (forall i :: 0 <= i < k - 1 ==> METADATA_SIZE * i + METADATA_SIZE < bytes)
  {
  }

  /** The part of the table that is stored. */
  function Kept(table: seq<byte>): seq<byte> {
    if LosesLast(|table|) then table[..|table| - METADATA_SIZE] else table
  }

  /** The index gives the place of every block. */
  ghost predicate Indexed(cfg: Config, start: nat, table: seq<byte>, index: seq<nat>) {
    && |index| == Indexes(|table|)
    && forall i :: 0 <= i < |index| ==> METADATA_SIZE * i <= |table| && index[i] == start + BlockPos(cfg, table, i)
  }

  /** write_fragment_table: the blocks, and the place of each for the index. */
  method WriteTable(cfg: Config, start: nat, table: seq<byte>, junk: seq<byte>)
    returns (bytes: seq<byte>, index: seq<nat>)
    requires |junk| == ZERO_BLOCK
    ensures bytes == TableBytes(cfg, table, junk) && Indexed(cfg, start, table, index)
  {
    hide EncodeBlocks, BlockBytes, EmptyBlock;
    bytes, index := [], [];
    IndexesAre(|table|);
    assert table[..0] == [];
    EncodeNothing(cfg);
    for i := 0 to Indexes(|table|)
      invariant |index| == i
      invariant forall j :: 0 <= j < i ==> METADATA_SIZE * j <= |table| && index[j] == start + BlockPos(cfg, table, j)
      invariant i < Indexes(|table|) ==>
                  METADATA_SIZE * i <= |table| && bytes == EncodeBlocks(cfg, table[..METADATA_SIZE * i])
      invariant i == Indexes(|table|) ==> bytes == TableBytes(cfg, table, junk)
    {
      var at, avail := METADATA_SIZE * i, Avail(|table|, i);
      index := index + [start + |bytes|];
      if avail == 0 {
        assert LosesLast(|table|) && at == |table| - METADATA_SIZE;
        bytes := bytes + EmptyBlock(cfg, junk);
      } else {
        assert at + avail <= |table|;
        EncodeBlocksAppend(cfg, table[..at], table[at..at + avail], i);
        assert table[..at + avail] == table[..at] + table[at..at + avail];
        bytes := bytes + BlockBytes(cfg, table[at..at + avail]);
        assert i == Indexes(|table|) - 1 ==> table[..at + avail] == table && !LosesLast(|table|);
      }
    }
  }

  lemma EncodeNothing(cfg: Config)
    ensures EncodeBlocks(cfg, []) == []
  {
  }

  // ---- reading ----

  lemma {:induction false} ChunksCount(plain: bool, s: seq<byte>)
    ensures |Chunks(plain, s)| == Indexes(|s|)
    decreases |s|
  {
    if s != [] {
      ChunksCount(plain, s[Min(METADATA_SIZE, |s|)..]);
    }
  }

  /** The header of an empty block announces four times what the reader has room for. */
  lemma EmptyReads(cfg: Config, before: seq<byte>, junk: seq<byte>, after: seq<byte>)
    requires |junk| == ZERO_BLOCK
    ensures ReadBlock(cfg, before + EmptyBlock(cfg, junk) + after, |before|) == None
  {
    EmptyMangled(cfg);
    GetPutShort(COMPRESSED_BIT, cfg.swap);
    BlockSlices(before, PutShort(COMPRESSED_BIT, cfg.swap), if cfg.checkData then [MARKER_BYTE] else [], junk, after);
    hide Mangle, CompressedSize, IsCompressed, PutShort, GetShort;
  }

  /** The blocks that are stored as they should be. */
  function GoodBlocks(cfg: Config, table: seq<byte>): seq<Piece> {
    TwoStreams(cfg, Kept(table), false, [])
  }

  lemma GoodBlocksAre(cfg: Config, table: seq<byte>)
    ensures var blocks := GoodBlocks(cfg, table);
            && Proper(blocks) && |blocks| == Indexes(|Kept(table)|) && Joined(blocks) == Kept(table)
            && Coded(cfg, blocks) == EncodeBlocks(cfg, Kept(table))
            && Indexes(|table|) == |blocks| + if LosesLast(|table|) then 1 else 0
  {
    hide Chunks, Joined, Coded, EncodeBlocks;
    TwoStreamsCoded(cfg, Kept(table), false, []);
    EncodeNothing(cfg.(noI := false));
    ChunksCount(cfg.noI, Kept(table));
    ChunksOfNothing(false, []);
  }

  /** Block i is where the index says. */
  lemma GoodBlockAt(cfg: Config, table: seq<byte>, i: nat)
    requires i <= |GoodBlocks(cfg, table)| && METADATA_SIZE * i <= |table| && METADATA_SIZE * i <= |Kept(table)|
    ensures var blocks := GoodBlocks(cfg, table); Proper(blocks) && CodedAt(cfg, blocks, i) == BlockPos(cfg, table, i)
  {
    hide Chunks, Coded, EncodeBlocks, TwoStreams;
    TwoStreamsAt(cfg, Kept(table), false, [], i);
    assert table[..METADATA_SIZE * i] == Kept(table)[..METADATA_SIZE * i];
  }

  /** Where the good blocks lie, and what follows them. */
  lemma OnDisk(cfg: Config, before: seq<byte>, table: seq<byte>, junk: seq<byte>, after: seq<byte>)
    requires |junk| == ZERO_BLOCK
    ensures var disk, kept := before + TableBytes(cfg, table, junk) + after, EncodeBlocks(cfg, Kept(table));
            && |before| + |kept| <= |disk| && disk[|before|..|before| + |kept|] == kept
            && (LosesLast(|table|) ==> disk == (before + kept) + EmptyBlock(cfg, junk) + after)
  {
    hide EncodeBlocks, EmptyBlock, LosesLast;
    var kept := EncodeBlocks(cfg, Kept(table));
    if LosesLast(|table|) {
      assert before + (kept + EmptyBlock(cfg, junk)) + after == (before + kept) + EmptyBlock(cfg, junk) + after;
    }
  }

  /** What is read at place i of the index. */
  lemma ReadsAt(cfg: Config, before: seq<byte>, table: seq<byte>, junk: seq<byte>, after: seq<byte>, index: seq<nat>,
                i: nat)
    requires Lawful(cfg.z) && |junk| == ZERO_BLOCK && Indexed(cfg, |before|, table, index) && i < |index|
    ensures var disk, blocks := before + TableBytes(cfg, table, junk) + after, GoodBlocks(cfg, table);
            && Proper(blocks)
            && if i < |blocks|
               then ReadBlock(cfg, disk, index[i])
                    == Some(Block(blocks[i].data, |before| + CodedAt(cfg, blocks, i + 1)))
               else ReadBlock(cfg, disk, index[i]) == None
  {
    hide EncodeBlocks, ReadBlock, EmptyBlock, GoodBlocks, Coded, TableBytes, Proper;
    var disk, blocks, kept := before + TableBytes(cfg, table, junk) + after, GoodBlocks(cfg, table), Kept(table);
    GoodBlocksAre(cfg, table);
    IndexesAre(|table|);
    IndexesAre(|kept|);
    OnDisk(cfg, before, table, junk, after);
    GoodBlockAt(cfg, table, i);
    if i < |blocks| {
      ReadBlockAt(cfg, blocks, i, disk, |before|, |before| + |EncodeBlocks(cfg, kept)|);
    } else {
      assert table[..METADATA_SIZE * i] == kept;
      EmptyReads(cfg, before + EncodeBlocks(cfg, kept), junk, after);
    }
  }

  /** read_fragment_table: the block at each place of the index, one behind the other. */
  method ReadTable(cfg: Config, disk: seq<byte>, index: seq<nat>, ghost before: seq<byte>, ghost table: seq<byte>,
                   ghost junk: seq<byte>, ghost after: seq<byte>)
    returns (found: Option<seq<byte>>)
    requires Lawful(cfg.z) && |junk| == ZERO_BLOCK && Indexed(cfg, |before|, table, index)
    requires disk == before + TableBytes(cfg, table, junk) + after
    ensures found == if LosesLast(|table|) then None else Some(table)
  {
    hide ReadBlock, TableBytes, GoodBlocks, CodedAt, Coded, EncodeBlocks, Indexed;
    ghost var blocks := GoodBlocks(cfg, table);
    GoodBlocksAre(cfg, table);
    var read := [];
    IndexedLength(cfg, |before|, table, index);
    assert blocks[..0] == [] && Joined(blocks[..0]) == [];
    for i := 0 to |index|
      invariant i <= |blocks| && read == Joined(blocks[..i])
    {
      ReadsAt(cfg, before, table, junk, after, index, i);
      var block := ReadBlock(cfg, disk, index[i]);
      if block == None {
        return None;
      }
      JoinedNext(blocks, i);
      read := read + block.value.data;
    }
    assert blocks[..|blocks|] == blocks;
    return Some(read);
  }

  lemma IndexedLength(cfg: Config, start: nat, table: seq<byte>, index: seq<nat>)
    requires Indexed(cfg, start, table, index)
    ensures |index| == Indexes(|table|)
  {
  }

  // ---- the entries ----

  predicate EntryFits(e: SquashFile.FragEntry) {
    e.startBlock < 0x1_0000_0000_0000_0000 && e.size < 0x1_0000_0000
  }

  function Values(e: SquashFile.FragEntry): seq<nat> { [e.startBlock, e.size] }

  lemma ValuesOk(e: SquashFile.FragEntry)
    requires EntryFits(e)
    ensures SquashInodes.HeaderOk(BitFields.FRAGMENT_ENTRY, 12, Values(e))
  {
    hide BitFields.Run;
    BitFields.DirectoryRecords();
    SquashInodes.Widths();
    hide SquashInodes.Power;
  }

  /** Sixteen bytes, of which the last four are unused. */
  ghost predicate IsEntry(swap: bool, e: SquashFile.FragEntry, record: seq<byte>) {
    && |record| == ENTRY_BYTES && SquashInodes.HeaderOk(BitFields.FRAGMENT_ENTRY, 12, Values(e))
    && SquashInodes.Begins(swap, BitFields.FRAGMENT_ENTRY, 12, Values(e), record)
  }

  function EntryBytes(swap: bool, e: SquashFile.FragEntry): (b: seq<byte>)
    ensures |b| == ENTRY_BYTES
  {
    SquashInodes.HeaderBytes(swap, BitFields.FRAGMENT_ENTRY, 12, Values(e)) + [0, 0, 0, 0]
  }

  /** The fragment table of an image before it is cut into blocks. */
  function EntryRecords(swap: bool, entries: seq<SquashFile.FragEntry>): (r: seq<seq<byte>>) {
    seq(|entries|, i requires 0 <= i < |entries| => EntryBytes(swap, entries[i]))
  }

  lemma EntryBytesOk(swap: bool, e: SquashFile.FragEntry)
    requires EntryFits(e)
    ensures IsEntry(swap, e, EntryBytes(swap, e))
  {
    ValuesOk(e);
    hide SquashInodes.HeaderOk, SquashInodes.HeaderBytes;
    SquashInodes.HeaderBegins(swap, BitFields.FRAGMENT_ENTRY, 12, Values(e));
  }

  method PackEntries(swap: bool, entries: seq<SquashFile.FragEntry>) returns (table: seq<byte>)
    ensures table == Flatten(EntryRecords(swap, entries)) && |table| == ENTRY_BYTES * |entries|
  {
    BitFields.DirectoryRecords();
    hide Flatten, EntryBytes, BitFields.Run;
    table := [];
    ghost var records := EntryRecords(swap, entries);
    FlattenStart();
    assert records[..0] == [];
    for i := 0 to |entries|
      invariant table == Flatten(records[..i]) && |table| == ENTRY_BYTES * i
    {
      var header := SquashInodes.Pack(swap, BitFields.FRAGMENT_ENTRY, 12, Values(entries[i]));
      IsEntryBytes(swap, entries[i], header);
      FlattenNext(records, i);
      table := table + (header + [0, 0, 0, 0]);
    }
    assert records[..|entries|] == records;
  }

  lemma IsEntryBytes(swap: bool, e: SquashFile.FragEntry, header: seq<byte>)
    requires header == SquashInodes.HeaderBytes(swap, BitFields.FRAGMENT_ENTRY, 12, Values(e))
    ensures header + [0, 0, 0, 0] == EntryBytes(swap, e)
  {
  }

  method ReadEntry(swap: bool, record: seq<byte>, ghost e: SquashFile.FragEntry) returns (entry: SquashFile.FragEntry)
    requires IsEntry(swap, e, record)
    ensures entry == e
  {
    var start := SquashInodes.ReadField(swap, record, BitFields.Span(0, 64), 12, BitFields.FRAGMENT_ENTRY, 12,
                                        Values(e), 0);
    var size := SquashInodes.ReadField(swap, record, BitFields.Span(64, 32), 12, BitFields.FRAGMENT_ENTRY, 12,
                                       Values(e), 1);
    entry := SquashFile.FragEntry(start, size);
  }

  method ReadEntries(swap: bool, table: seq<byte>, n: nat, ghost entries: seq<SquashFile.FragEntry>,
                     ghost records: seq<seq<byte>>)
    returns (list: seq<SquashFile.FragEntry>)
    requires n == |records| == |entries| && table == Flatten(records)
    requires forall i :: 0 <= i < |entries| ==> IsEntry(swap, entries[i], records[i])
    ensures list == entries
  {
    EntryLength(swap, entries, records);
    hide IsEntry, Flatten;
    list := [];
    for i := 0 to n
      invariant list == entries[..i]
    {
      EntryIn(records, i);
      var entry := ReadEntry(swap, table[ENTRY_BYTES * i..ENTRY_BYTES * i + ENTRY_BYTES], entries[i]);
      list := list + [entry];
    }
  }

  lemma {:induction false} EntryIn(records: seq<seq<byte>>, i: nat)
    requires i < |records| && forall j :: 0 <= j < |records| ==> |records[j]| == ENTRY_BYTES
    ensures |Flatten(records)| == ENTRY_BYTES * |records|
    ensures Flatten(records)[ENTRY_BYTES * i..ENTRY_BYTES * i + ENTRY_BYTES] == records[i]
    decreases |records|
  {
    var n := |records| - 1;
    if i < n {
      EntryIn(records[..n], i);
    } else if n > 0 {
      EntryIn(records[..n], 0);
    }
  }

  /**
   A fragment table is read back if and only if the number of fragments is none or no multiple of 512. In the other
   case the last block is written as an empty one, and the reader takes the junk behind it for 32768 bytes of table.
   */
  method WriteAndRead(cfg: Config, before: seq<byte>, entries: seq<SquashFile.FragEntry>, junk: seq<byte>,
                      after: seq<byte>)
    returns (bytes: seq<byte>, found: Option<seq<SquashFile.FragEntry>>)
    requires Lawful(cfg.z) && |junk| == ZERO_BLOCK && forall i :: 0 <= i < |entries| ==> EntryFits(entries[i])
    ensures bytes == TableBytes(cfg, Flatten(EntryRecords(cfg.swap, entries)), junk)
    ensures found == if |entries| > 0 && |entries| % 512 == 0 then None else Some(entries)
  {
    WholeBlocks(|entries|);
    hide EntryFits, TableBytes, Indexed, IsEntry, Flatten, LosesLast, EntryBytes;
    var table := PackEntries(cfg.swap, entries);
    var index;
    bytes, index := WriteTable(cfg, |before|, table, junk);
    var read := ReadTable(cfg, before + bytes + after, index, before, table, junk, after);
    if read == None {
      return bytes, None;
    }
    ghost var records := EntryRecords(cfg.swap, entries);
    forall i | 0 <= i < |entries|
      ensures IsEntry(cfg.swap, entries[i], records[i])
    {
      EntryBytesOk(cfg.swap, entries[i]);
    }
    var list := ReadEntries(cfg.swap, read.value, |entries|, entries, records);
    return bytes, Some(list);
  }

  /** Where all is read back, the table is an ordinary stream of metadata blocks. */
  lemma OrdinaryBlocks(cfg: Config, entries: seq<SquashFile.FragEntry>, junk: seq<byte>)
    requires |junk| == ZERO_BLOCK && (|entries| == 0 || |entries| % 512 != 0)
    ensures var table := Flatten(EntryRecords(cfg.swap, entries));
            TableBytes(cfg, table, junk) == EncodeBlocks(cfg, table) && (table == [] <==> entries == [])
  {
    hide EncodeBlocks, EmptyBlock, EntryBytes;
    WholeBlocks(|entries|);
    var records := EntryRecords(cfg.swap, entries);
    if entries == [] {
      FlattenStart();
    } else {
      EntryIn(records, 0);
    }
  }

  lemma WholeBlocks(n: nat)
    ensures LosesLast(ENTRY_BYTES * n) <==> n > 0 && n % 512 == 0
  {
    assert n == n / 512 * 512 + n % 512;
    assert ENTRY_BYTES * n == n / 512 * METADATA_SIZE + ENTRY_BYTES * (n % 512);
  }

  lemma EntryLength(swap: bool, entries: seq<SquashFile.FragEntry>, records: seq<seq<byte>>)
    requires |records| == |entries| && forall i :: 0 <= i < |entries| ==> IsEntry(swap, entries[i], records[i])
    ensures forall i :: 0 <= i < |records| ==> |records[i]| == ENTRY_BYTES
  {
  }
}
