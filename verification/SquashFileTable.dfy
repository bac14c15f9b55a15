/**
 Regular files through all the tables of a squashfs image: their inodes, with the list of
 block sizes behind the header, go through the inode table, and the fragment blocks are
 found through the fragment table.
 */
module SquashFileTable {
  import opened Bytes
  import opened SquashBlocks
  import opened SquashMetadata
  import opened SquashFile
  import BitFields
  import SquashFragmentTable
  import SquashInodes

  type Tables = SquashBlocks.Config
  type Data = SquashFile.Config

  const FILE_TYPE := 2
  const LREG_TYPE := 9
  const LONG_SPAN := 0x1_0000_0000_0000_0000

  /** What create_inode is given for a file besides its data. */
  datatype Meta = Meta(attr: SquashInodes.Attributes, number: nat, nlink: nat)

  predicate MetaOk(m: Meta) {
    SquashInodes.AttributesOk(m.attr) && m.number < INT_SPAN && m.nlink < INT_SPAN
  }

  /** write_file's choice of the header: the short one for a file with one name and less than 2^30 - 1 bytes. */
  predicate IsLong(m: Meta, fileSize: nat) {
    !(m.nlink == 1 && fileSize < 0x4000_0000 - 1)
  }

  function Spans(long: bool): seq<BitFields.Span> {
    if long then BitFields.LREG_INODE else BitFields.REG_INODE
  }

  function HeaderLength(long: bool): nat { if long then 40 else 32 }

  function Values(long: bool, m: Meta, d: Inode): seq<nat> {
    SquashInodes.BaseValues(if long then LREG_TYPE else FILE_TYPE, m.attr, m.number)
    + (if long then [m.nlink] else []) + [d.startBlock, d.fragment, d.offset, d.fileSize]
  }

  predicate InodeFits(long: bool, d: Inode) {
    && d.startBlock < LONG_SPAN && d.fragment < INT_SPAN && d.offset < INT_SPAN
    && d.fileSize < (if long then LONG_SPAN else INT_SPAN)
    && forall i :: 0 <= i < |d.blockList| ==> d.blockList[i] < INT_SPAN
  }

  lemma ValuesOk(long: bool, m: Meta, d: Inode)
    requires MetaOk(m) && InodeFits(long, d)
    ensures SquashInodes.HeaderOk(Spans(long), HeaderLength(long), Values(long, m, d))
  {
    hide BitFields.Run;
    SquashInodes.Widths();
    BitFields.RegInodeRecord();
    BitFields.LregInodeRecord();
    hide SquashInodes.Power;
  }

  /** SQUASHFS_SWAP_INTS. */
  function IntsBytes(swap: bool, list: seq<nat>): (b: seq<byte>)
    ensures |b| == 4 * |list|
  {
    if list == [] then [] else IntsBytes(swap, list[..|list| - 1]) + PutInt(list[|list| - 1] % INT_SPAN, swap)
  }

  lemma {:induction false} IntAt(swap: bool, list: seq<nat>, i: nat)
    requires i < |list| && forall i :: 0 <= i < |list| ==> list[i] < INT_SPAN
    ensures IntsBytes(swap, list)[4 * i..4 * i + 4] == PutInt(list[i], swap)
    decreases |list|
  {
    hide PutInt;
    var n := |list| - 1;
    if i < n {
      IntAt(swap, list[..n], i);
    }
  }

  /** The inode of a file as create_inode writes it. */
  function InodeBytes(swap: bool, long: bool, m: Meta, d: Inode): (b: seq<byte>)
    ensures |b| == HeaderLength(long) + 4 * |d.blockList|
  {
    SquashInodes.HeaderBytes(swap, Spans(long), HeaderLength(long), Values(long, m, d)) + IntsBytes(swap, d.blockList)
  }

  function RecordOf(swap: bool, m: Meta, d: Inode): (b: seq<byte>)
    ensures |b| == (if m.nlink == 1 && d.fileSize < 0x3FFF_FFFF then 32 else 40) + 4 * |d.blockList|
  {
    InodeBytes(swap, IsLong(m, d.fileSize), m, d)
  }

  function RecordsOf(swap: bool, metas: seq<Meta>, files: seq<File>): (r: seq<seq<byte>>)
    requires |metas| == |files|
    ensures |r| == |files|
  {
    seq(|files|, i requires 0 <= i < |files| => RecordOf(swap, metas[i], files[i].inode))
  }

  /** The record is the header and the block list. */
  ghost predicate Records(swap: bool, long: bool, m: Meta, d: Inode, record: seq<byte>) {
    && InodeFits(long, d) && SquashInodes.HeaderOk(Spans(long), HeaderLength(long), Values(long, m, d))
    && SquashInodes.Begins(swap, Spans(long), HeaderLength(long), Values(long, m, d), record)
    && HeaderLength(long) + 4 * |d.blockList| <= |record|
    && record[HeaderLength(long)..HeaderLength(long) + 4 * |d.blockList|] == IntsBytes(swap, d.blockList)
  }

  /** create_inode. */
  method PackInode(swap: bool, m: Meta, d: Inode) returns (record: seq<byte>)
    ensures record == RecordOf(swap, m, d)
  {
    hide BitFields.Run, IntsBytes;
    var long := IsLong(m, d.fileSize);
    BitFields.RegInodeRecord();
    BitFields.LregInodeRecord();
    var header := SquashInodes.Pack(swap, Spans(long), HeaderLength(long), Values(long, m, d));
    record := header + IntsBytes(swap, d.blockList);
  }

  lemma RecordOfRecords(swap: bool, m: Meta, d: Inode)
    requires MetaOk(m) && InodeFits(IsLong(m, d.fileSize), d)
    ensures Records(swap, IsLong(m, d.fileSize), m, d, RecordOf(swap, m, d))
  {
    hide SquashInodes.HeaderOk, SquashInodes.HeaderBytes, IntsBytes;
    var long := IsLong(m, d.fileSize);
    ValuesOk(long, m, d);
    var header := SquashInodes.HeaderBytes(swap, Spans(long), HeaderLength(long), Values(long, m, d));
    SquashInodes.HeaderBegins(swap, Spans(long), HeaderLength(long), Values(long, m, d));
    assert (header + IntsBytes(swap, d.blockList))[HeaderLength(long)..] == IntsBytes(swap, d.blockList);
  }

  lemma RecordsLonger(swap: bool, long: bool, m: Meta, d: Inode, record: seq<byte>, bytes: seq<byte>)
    requires Records(swap, long, m, d, record) && record <= bytes
    ensures Records(swap, long, m, d, bytes)
  {
    hide SquashInodes.HeaderOk, IntsBytes, BitFields.RecordBit;
    var a, b := HeaderLength(long), HeaderLength(long) + 4 * |d.blockList|;
    assert bytes[a..b] == record[a..b];
  }

  lemma FieldsAre(long: bool, m: Meta, d: Inode)
    ensures |Spans(long)| == |Values(long, m, d)| == if long then 11 else 10
    ensures BitFields.BASE_INODE <= Spans(long)
    ensures SquashInodes.BaseValues(if long then LREG_TYPE else FILE_TYPE, m.attr, m.number) <= Values(long, m, d)
    ensures var s, v, k := Spans(long), Values(long, m, d), if long then 7 else 6;
            && s[k] == BitFields.Span(if long then 128 else 96, 64) && v[k] == d.startBlock
            && s[k + 1] == BitFields.Span(if long then 192 else 160, 32) && v[k + 1] == d.fragment
            && s[k + 2] == BitFields.Span(if long then 224 else 192, 32) && v[k + 2] == d.offset
            && s[k + 3] == BitFields.Span(if long then 256 else 224, if long then 64 else 32) && v[k + 3] == d.fileSize
            && (long ==> s[6] == BitFields.Span(96, 32) && v[6] == m.nlink)
  {
  }

  /**
   The first part of create_inode in unsquashfs: the header says which kind it is; the block list is as long as it
   implies.
   */
  method ReadInode(swap: bool, blockSize: nat, bytes: seq<byte>, ghost long: bool, ghost m: Meta, ghost d: Inode)
    returns (meta: Meta, inode: Inode)
    requires Records(swap, long, m, d, bytes) && blockSize > 0 && (!long ==> m.nlink == 1)
    requires |d.blockList| == ReaderBlocks(blockSize, d.fileSize, d.fragment)
    ensures meta == m && inode == d
  {
    FieldsAre(long, m, d);
    hide Values, Spans, SquashInodes.HeaderOk, SquashInodes.Begins, IntsBytes, ReaderBlocks, SquashInodes.BaseValues;
    ghost var s, n, v := Spans(long), HeaderLength(long), Values(long, m, d);
    var kind, attr, number := SquashInodes.ReadBase(swap, bytes, s, n, v, if long then LREG_TYPE else FILE_TYPE, m.attr,
                                                    m.number);
    var start, fragment, offset, size;
    var nlink := 1;
    if kind == FILE_TYPE {
      start := SquashInodes.ReadField(swap, bytes, BitFields.Span(96, 64), 32, s, n, v, 6);
      fragment := SquashInodes.ReadField(swap, bytes, BitFields.Span(160, 32), 32, s, n, v, 7);
      offset := SquashInodes.ReadField(swap, bytes, BitFields.Span(192, 32), 32, s, n, v, 8);
      size := SquashInodes.ReadField(swap, bytes, BitFields.Span(224, 32), 32, s, n, v, 9);
    } else {
      nlink := SquashInodes.ReadField(swap, bytes, BitFields.Span(96, 32), 40, s, n, v, 6);
      start := SquashInodes.ReadField(swap, bytes, BitFields.Span(128, 64), 40, s, n, v, 7);
      fragment := SquashInodes.ReadField(swap, bytes, BitFields.Span(192, 32), 40, s, n, v, 8);
      offset := SquashInodes.ReadField(swap, bytes, BitFields.Span(224, 32), 40, s, n, v, 9);
      size := SquashInodes.ReadField(swap, bytes, BitFields.Span(256, 64), 40, s, n, v, 10);
    }
    var at := if kind == FILE_TYPE then 32 else 40;
    var list := ReadInts(swap, bytes, at, ReaderBlocks(blockSize, size, fragment), d.blockList);
    meta, inode := Meta(attr, number, nlink), Inode(size, start, list, fragment, offset);
  }

  lemma SliceOfSlice(bytes: seq<byte>, a: nat, b: nat, k: nat)
    requires a <= b <= |bytes| && k + 4 <= b - a
    ensures bytes[a + k..a + k + 4] == bytes[a..b][k..k + 4]
  {
    var x, y := bytes[a + k..a + k + 4], bytes[a..b][k..k + 4];
    forall i | 0 <= i < 4
      ensures x[i] == y[i]
    {
      assert x[i] == bytes[a + k + i] == bytes[a..b][k + i];
    }
    assert x == y;
  }

  method ReadInts(swap: bool, bytes: seq<byte>, at: nat, n: nat, ghost list: seq<nat>) returns (ints: seq<nat>)
    requires n == |list| && at + 4 * n <= |bytes| && forall i :: 0 <= i < |list| ==> list[i] < INT_SPAN
    requires bytes[at..at + 4 * n] == IntsBytes(swap, list)
    ensures ints == list
  {
    hide IntsBytes, PutInt, GetInt;
    ints := [];
    for i := 0 to n
      invariant ints == list[..i]
    {
      var here := at + 4 * i;
      IntAt(swap, list, i);
      SliceOfSlice(bytes, at, at + 4 * n, 4 * i);
      GetPutInt(list[i], swap);
      ints := ints + [GetInt(bytes[here..here + 4], swap)];
    }
  }

  // ---- writer and reader together ----

  /** Whatever write_file records of a file fits its inode. */
  lemma WrittenFits(c: Data, disk: seq<byte>, frags: seq<seq<byte>>, file: seq<byte>, f: File, m: Meta)
    requires ConfigOk(c) && Written(c, file, f) && FileStored(c, disk, frags, f) && f.inode.startBlock < LONG_SPAN
    requires forall i :: 0 <= i < |frags| ==> |frags[i]| <= c.blockSize
    ensures InodeFits(IsLong(m, f.inode.fileSize), f.inode)
  {
    hide Stored, Cut, WriterBlocks, WriterTail;
    forall i | 0 <= i < |f.pieces|
      ensures f.inode.blockList[i] < INT_SPAN
    {
      UnmangleMangle(c.z, f.pieces[i], c.noD, COMPRESSED_BIT_BLOCK);
    }
  }

  lemma StartsWithin(c: Data, disk: seq<byte>, frags: seq<seq<byte>>, f: File)
    requires FileStored(c, disk, frags, f)
    ensures f.inode.startBlock <= |disk|
  {
  }

  lemma FragmentsFit(c: Data, disk: seq<byte>, entry: FragEntry, data: seq<byte>)
    requires ConfigOk(c) && FragStored(c, disk, entry, data) && |disk| < LONG_SPAN
    ensures SquashFragmentTable.EntryFits(entry) && |data| <= c.blockSize
  {
  }

  ghost predicate AllRecords(swap: bool, metas: seq<Meta>, inodes: seq<Inode>, records: seq<seq<byte>>) {
    && |metas| == |inodes| == |records|
    && forall i :: 0 <= i < |metas| ==>
         records[i] != [] && Records(swap, IsLong(metas[i], inodes[i].fileSize), metas[i], inodes[i], records[i])
  }

  method PackInodes(swap: bool, metas: seq<Meta>, inodes: seq<Inode>) returns (records: seq<seq<byte>>)
    requires |metas| == |inodes|
    requires forall i :: 0 <= i < |metas| ==>
               MetaOk(metas[i]) && InodeFits(IsLong(metas[i], inodes[i].fileSize), inodes[i])
    ensures AllRecords(swap, metas, inodes, records)
    ensures forall i :: 0 <= i < |metas| ==> records[i] == RecordOf(swap, metas[i], inodes[i])
  {
    hide Records, MetaOk, InodeFits, IsLong, InodeBytes;
    records := [];
    for i := 0 to |metas|
      invariant |records| == i
      invariant forall j :: 0 <= j < i ==>
                  && records[j] == RecordOf(swap, metas[j], inodes[j])
                  && Records(swap, IsLong(metas[j], inodes[j].fileSize), metas[j], inodes[j], records[j])
    {
      var record := PackInode(swap, metas[i], inodes[i]);
      RecordOfRecords(swap, metas[i], inodes[i]);
      records := records + [record];
    }
  }

  /**
   create_inode in unsquashfs: the inode through the inode table, the data through the block list and the fragments.
   */
  method ExtractRef(cfg: Tables, table: Reader, reader: Extractor, ref: nat, ghost long: bool, ghost m: Meta,
                    ghost f: File, ghost s: seq<byte>, ghost record: seq<byte>, ghost more: seq<byte>,
                    ghost frags: seq<seq<byte>>)
    returns (meta: Meta, out: Option<seq<byte>>)
    requires table.cfg == cfg && Lawful(cfg.z) && record != [] && Records(cfg.swap, long, m, f.inode, record)
    requires long == IsLong(m, f.inode.fileSize)
    requires table.HoldsStream(s + record + more, false, []) && ref == RefAfter(cfg, s)
    requires reader.Valid() && ConfigOk(reader.c) && FileStored(reader.c, reader.disk, frags, f)
    requires |frags| == |reader.fragmentTable|
    requires forall i :: 0 <= i < |frags| ==> FragStored(reader.c, reader.disk, reader.fragmentTable[i], frags[i])
    requires |f.pieces| == ReaderBlocks(reader.c.blockSize, f.inode.fileSize, f.inode.fragment)
    requires |f.tail| == ReaderTail(reader.c.blockSize, f.inode.fileSize, f.inode.fragment)
    modifies reader`cachedFrag, reader`fragmentData
    ensures reader.Valid() && meta == m && out == Some(Concat(f.pieces) + f.tail)
  {
    hide Records, RefAfter, Reader.HoldsStream, FragStored, Concat, ReaderBlocks, ReaderTail;
    var at := Resolve(table, ref, s, record, more, false, []);
    var bytes := table.table[at..];
    assert record == bytes[..|record|];
    RecordsLonger(cfg.swap, long, m, f.inode, record, bytes);
    BlockListLength(reader.c, reader.disk, frags, f);
    hide FileStored;
    var inode;
    meta, inode := ReadInode(cfg.swap, reader.c.blockSize, bytes, long, m, f.inode);
    out := reader.Extract(inode, f, frags);
  }

  lemma BlockListLength(c: Data, disk: seq<byte>, frags: seq<seq<byte>>, f: File)
    requires FileStored(c, disk, frags, f)
    ensures |f.inode.blockList| == |f.pieces|
  {
  }

  datatype Extracted = Extracted(meta: Meta, data: Option<seq<byte>>)

  /** Its attributes, number and links come back, and its bytes do unless its last block lies past 2 GB. */
  ghost predicate ExtractsAs(c: Data, file: seq<byte>, m: Meta, e: Extracted)
    requires c.blockSize > 0
  {
    e.meta == m && (e.data == Some(file[..ReadSize(file)]) <==> !LastBlockPast2G(c, ReadSize(file)))
  }

  /** What the image holds of the files. */
  ghost predicate AllStored(c: Data, disk: seq<byte>, table: seq<FragEntry>, frags: seq<seq<byte>>, jobs: seq<Job>,
                            files: seq<File>)
    requires ConfigOk(c)
  {
    && |files| == |jobs| && |frags| == |table|
    && (forall i :: 0 <= i < |frags| ==> FragStored(c, disk, table[i], frags[i]))
    && (forall i :: 0 <= i < |files| ==> FileStored(c, disk, frags, files[i]) && Written(c, jobs[i].file, files[i]))
  }

  /** The files stay where they are when the tables are written behind them. */
  lemma AllStoredStays(c: Data, disk: seq<byte>, more: seq<byte>, table: seq<FragEntry>, frags: seq<seq<byte>>,
                       jobs: seq<Job>, files: seq<File>)
    requires ConfigOk(c) && AllStored(c, disk, table, frags, jobs, files)
    ensures AllStored(c, disk + more, table, frags, jobs, files)
  {
    hide FileStored, FragStored, Written;
    forall i | 0 <= i < |frags|
      ensures FragStored(c, disk + more, table[i], frags[i])
    {
      FragStoredStays(c, disk, more, table[i], frags[i]);
    }
    forall i | 0 <= i < |files|
      ensures FileStored(c, disk + more, frags, files[i])
    {
      FileStoredStays(c, disk, more, frags, frags, files[i]);
    }
  }

  method ExtractAll(cfg: Tables, c: Data, disk: seq<byte>, table: Reader, fragmentTable: seq<FragEntry>, refs: seq<nat>,
                    ghost jobs: seq<Job>, ghost metas: seq<Meta>, ghost files: seq<File>, ghost inodes: seq<Inode>,
                    ghost records: seq<seq<byte>>, ghost frags: seq<seq<byte>>)
    returns (outs: seq<Extracted>)
    requires table.cfg == cfg && Lawful(cfg.z) && ConfigOk(c) && AllStored(c, disk, fragmentTable, frags, jobs, files)
    requires |refs| == |jobs| && AllRecords(cfg.swap, metas, inodes, records) && |inodes| == |jobs|
    requires forall i :: 0 <= i < |files| ==> files[i].inode == inodes[i]
    requires table.HoldsStream(Flatten(records), false, [])
    requires forall i :: 0 <= i < |refs| ==> refs[i] == RefAfter(cfg, Flatten(records[..i]))
    ensures |outs| == |jobs| && forall i :: 0 <= i < |jobs| ==> ExtractsAs(c, jobs[i].file, metas[i], outs[i])
  {
    hide Written, LastBlockPast2G, FileStored, FragStored, Flatten, RefAfter, Reader.HoldsStream, Records, IsLong;
    hide Concat;
    hide ReaderBlocks, ReaderTail, ReadDataBlock;
    var reader := new Extractor(c, disk, fragmentTable);
    outs := [];
    for i := 0 to |refs|
      invariant reader.Valid() && |outs| == i && fresh(reader)
      invariant table.HoldsStream(Flatten(records), false, [])
      invariant forall k :: 0 <= k < i ==> ExtractsAs(c, jobs[k].file, metas[k], outs[k])
    {
      ghost var more := FlattenSplit(records, i);
      Agrees(c, jobs[i].file, disk, frags, files[i]);
      ExtractedIsFile(c, jobs[i].file, files[i]);
      var meta, out := ExtractRef(cfg, table, reader, refs[i], IsLong(metas[i], inodes[i].fileSize), metas[i], files[i],
                                  Flatten(records[..i]), records[i], more, frags);
      outs := outs + [Extracted(meta, out)];
    }
  }

  lemma Agrees(c: Data, file: seq<byte>, disk: seq<byte>, frags: seq<seq<byte>>, f: File)
    requires ConfigOk(c) && Written(c, file, f) && FileStored(c, disk, frags, f)
    ensures |f.pieces| == ReaderBlocks(c.blockSize, f.inode.fileSize, f.inode.fragment)
    ensures |f.tail| == ReaderTail(c.blockSize, f.inode.fileSize, f.inode.fragment)
  {
    hide Stored, Codes, Cut, ReaderBlocks, ReaderTail;
    FileStoredStays(c, disk, [], frags, frags + [[]], f);
    assert disk + [] == disk;
    WrittenAgrees(c, file, disk, frags, f);
  }

  /** All that WriteAll leaves behind fits the tables. */
  lemma AllFits(c: Data, disk: seq<byte>, table: seq<FragEntry>, frags: seq<seq<byte>>, jobs: seq<Job>,
                files: seq<File>, metas: seq<Meta>)
    requires ConfigOk(c) && AllStored(c, disk, table, frags, jobs, files) && |metas| == |files| && |disk| < LONG_SPAN
    ensures forall i :: 0 <= i < |table| ==> SquashFragmentTable.EntryFits(table[i])
    ensures forall i :: 0 <= i < |files| ==> InodeFits(IsLong(metas[i], files[i].inode.fileSize), files[i].inode)
  {
    hide FileStored, FragStored, Written, InodeFits, IsLong;
    forall i | 0 <= i < |frags|
      ensures SquashFragmentTable.EntryFits(table[i]) && |frags[i]| <= c.blockSize
    {
      FragmentsFit(c, disk, table[i], frags[i]);
    }
    forall i | 0 <= i < |files|
      ensures InodeFits(IsLong(metas[i], files[i].inode.fileSize), files[i].inode)
    {
      StartsWithin(c, disk, frags, files[i]);
      WrittenFits(c, disk, frags, jobs[i].file, files[i], metas[i]);
    }
  }

  /** The files, with their data and with what WriteAll says of them. */
  method WriteData(c: Data, disk: seq<byte>, jobs: seq<Job>)
    returns (stored: seq<byte>, table: seq<FragEntry>, inodes: seq<Inode>, ghost frags: seq<seq<byte>>)
    requires ConfigOk(c) && |jobs| < INVALID_FRAG - 2
    requires forall i :: 0 <= i < |jobs| ==> JobOk(c, jobs[i])
    ensures AllStored(c, stored, table, frags, jobs, FilesOf(c, disk, jobs))
    ensures stored == DataOf(c, disk, jobs).disk && table == DataOf(c, disk, jobs).table
    ensures |inodes| == |jobs| && forall i :: 0 <= i < |jobs| ==> FilesOf(c, disk, jobs)[i].inode == inodes[i]
  {
    hide Written, FileStored, FragStored, DataOf, FilesOf, JobOk;
    var image;
    image, inodes := WriteAll(c, disk, jobs);
    stored, table, frags := image.disk, image.fragmentTable, image.frags;
    ghost var files := image.files;
    forall i | 0 <= i < |files|
      ensures FileStored(c, stored, frags, files[i]) && Written(c, jobs[i].file, files[i])
    {
      AllWritten(c, disk, jobs, i);
      WrittenAgrees(c, jobs[i].file, stored, frags, files[i]);
    }
  }

  /** The inode table of the files. */
  function InodeTable(cfg: Tables, c: Data, disk: seq<byte>, jobs: seq<Job>, metas: seq<Meta>): seq<byte>
    requires c.blockSize > 0 && |metas| == |jobs|
  {
    EncodeBlocks(cfg, Flatten(RecordsOf(cfg.swap, metas, FilesOf(c, disk, jobs))))
  }

  /**
   The data stay within 64 bits, the inode table within 32, and the tails of the files take no fragment block or no
   multiple of 512.
   */
  predicate Extractable(cfg: Tables, c: Data, disk: seq<byte>, jobs: seq<Job>, metas: seq<Meta>)
    requires c.blockSize > 0 && |metas| == |jobs|
  {
    && |DataOf(c, disk, jobs).disk| < LONG_SPAN && |InodeTable(cfg, c, disk, jobs, metas)| <= INT_SPAN
    && (FragmentCount(c, jobs) == 0 || FragmentCount(c, jobs) % 512 != 0)
  }

  /** 512 files, or a multiple of that, each a byte shorter than a block: they take as many fragment blocks. */
  lemma TailsInTheWay(cfg: Tables, c: Data, disk: seq<byte>, jobs: seq<Job>, metas: seq<Meta>)
    requires 2 < c.blockSize <= MAX_FILE_SIZE && !c.noFragments && |metas| == |jobs| && jobs != [] && |jobs| % 512 == 0
    requires forall i :: 0 <= i < |jobs| ==> |jobs[i].file| == c.blockSize - 1
    ensures !Extractable(cfg, c, disk, jobs, metas)
  {
    hide InodeTable, DataOf, FragmentCount, WriterTail, ReadSize;
    forall i | 0 <= i < |jobs|
      ensures 2 * WriterTail(c, ReadSize(jobs[i].file)) > c.blockSize
    {
      AlmostABlock(c, jobs[i].file);
    }
    LongTails(c, jobs);
  }

  lemma AlmostABlock(c: Data, file: seq<byte>)
    requires 2 < c.blockSize <= MAX_FILE_SIZE && !c.noFragments && |file| == c.blockSize - 1
    ensures WriterTail(c, ReadSize(file)) == c.blockSize - 1
  {
    DivMulAdd(0, c.blockSize, c.blockSize - 1);
  }

  /**
   Any files, stored one after the other, with their inodes and fragments in the tables behind them, and then extracted
   through those tables.
   */
  method StoreAndExtract(cfg: Tables, c: Data, disk: seq<byte>, jobs: seq<Job>, metas: seq<Meta>, junk: seq<byte>,
                         after: seq<byte>)
    returns (ok: bool, outs: seq<Extracted>)
    requires Lawful(cfg.z) && ConfigOk(c) && |jobs| < INVALID_FRAG - 2 && |metas| == |jobs|
    requires |junk| == SquashFragmentTable.ZERO_BLOCK
    requires forall i :: 0 <= i < |jobs| ==> JobOk(c, jobs[i]) && MetaOk(metas[i])
    ensures ok <==> Extractable(cfg, c, disk, jobs, metas)
    ensures ok ==> |outs| == |jobs| && forall i :: 0 <= i < |jobs| ==> ExtractsAs(c, jobs[i].file, metas[i], outs[i])
  {
    hide EncodeBlocks, Flatten, RefAfter, AllStored, AllRecords, InodeFits, IsLong, MetaOk, JobOk, ExtractsAs;
    hide SquashFragmentTable.EntryFits, FilesOf, DataOf, FragmentCount, RecordOf;
    var stored, table, inodes, frags := WriteData(c, disk, jobs);
    ghost var files := FilesOf(c, disk, jobs);
    FragmentsCounted(c, disk, jobs);
    ok, outs := |stored| < LONG_SPAN, [];
    if !ok {
      return;
    }
    StoredLengths(c, stored, table, frags, jobs, files);
    AllFits(c, stored, table, frags, jobs, files, metas);
    var packed := PackInodes(cfg.swap, metas, inodes);
    RecordCount(cfg.swap, metas, inodes, packed);
    assert packed == RecordsOf(cfg.swap, metas, files);
    var inodeTable, refs := StoreAll(cfg, packed);
    var fragmentBlocks, read := SquashFragmentTable.WriteAndRead(cfg.(noI := c.noF), stored + inodeTable, table, junk,
                                                                 after);
    ok := |inodeTable| <= INT_SPAN && read != None;
    if ok {
      outs := ReadBack(cfg, c, stored, inodeTable, fragmentBlocks + after, read.value, refs, jobs, metas, files, inodes,
                       packed, frags);
    }
  }

  /** The inode table expanded, and every file extracted from the disk with the tables on it. */
  method ReadBack(cfg: Tables, c: Data, stored: seq<byte>, inodeTable: seq<byte>, behind: seq<byte>,
                  fragmentTable: seq<FragEntry>,
                  refs: seq<nat>, ghost jobs: seq<Job>, ghost metas: seq<Meta>, ghost files: seq<File>,
                  ghost inodes: seq<Inode>, ghost records: seq<seq<byte>>, ghost frags: seq<seq<byte>>)
    returns (outs: seq<Extracted>)
    requires Lawful(cfg.z) && ConfigOk(c) && AllStored(c, stored, fragmentTable, frags, jobs, files)
    requires |refs| == |jobs| && AllRecords(cfg.swap, metas, inodes, records) && |inodes| == |jobs|
    requires |files| == |jobs| && forall i :: 0 <= i < |files| ==> files[i].inode == inodes[i]
    requires inodeTable == EncodeBlocks(cfg, Flatten(records)) && |inodeTable| <= INT_SPAN
    requires |metas| == |records| && forall i :: 0 <= i < |refs| ==> refs[i] == RefAfter(cfg, Flatten(records[..i]))
    ensures |outs| == |jobs| && forall i :: 0 <= i < |jobs| ==> ExtractsAs(c, jobs[i].file, metas[i], outs[i])
  {
    hide EncodeBlocks, Flatten, RefAfter, AllStored, AllRecords, ExtractsAs, Reader.HoldsStream;
    var r := OpenAlone(cfg, stored, inodeTable, behind, Flatten(records));
    AllStoredStays(c, stored, inodeTable + behind, fragmentTable, frags, jobs, files);
    outs := ExtractAll(cfg, c, stored + (inodeTable + behind), r, fragmentTable, refs, jobs, metas, files, inodes,
                       records, frags);
  }

  lemma StoredLengths(c: Data, disk: seq<byte>, table: seq<FragEntry>, frags: seq<seq<byte>>, jobs: seq<Job>,
                      files: seq<File>)
    requires ConfigOk(c) && AllStored(c, disk, table, frags, jobs, files)
    ensures |files| == |jobs| && |frags| == |table|
  {
  }

  lemma RecordCount(swap: bool, metas: seq<Meta>, inodes: seq<Inode>, records: seq<seq<byte>>)
    requires AllRecords(swap, metas, inodes, records)
    ensures |records| == |metas|
  {
  }
}
