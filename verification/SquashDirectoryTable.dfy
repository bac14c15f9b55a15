/**
 Whole directories through the metadata table: write_dir appends the bytes of a finished
 directory to the table and gives every index entry the place of the block its header
 fell into; squashfs_openddir finds the directory again through its inode.
 */
module SquashDirectoryTable {
  import opened Bytes
  import opened SquashBlocks
  import opened SquashMetadata
  import opened SquashDirectory
  import SquashInodes
  import BitFields

  /** What the directory's inode keeps: the two parts of its place, and its size plus three. */
  datatype DirInode = DirInode(startBlock: nat, offset: nat, fileSize: nat)

  function DirInodeAfter(cfg: Config, s: seq<byte>, size: nat): DirInode {
    DirInode(BlockPos(cfg, s, Whole(s)), |s| % METADATA_SIZE, size + 3)
  }

  predicate Increasing(index: seq<nat>) { forall i, j :: 0 <= i < j < |index| ==> index[i] < index[j] }

  /** Where the block of stream t starts that holds byte x. */
  function PlaceIn(cfg: Config, t: seq<byte>, x: nat): nat {
    if x <= |t| then BlockPos(cfg, t, x / METADATA_SIZE) else 0
  }

  /** The places of headers at the given distances behind stream s. */
  function Places(cfg: Config, s: seq<byte>, t: seq<byte>, index: seq<nat>): (p: seq<nat>)
    ensures |p| == |index|
  {
    seq(|index|, i requires 0 <= i < |index| => PlaceIn(cfg, t, |s| + index[i]))
  }

  /** The inner loop of write_dir: every index entry below the limit gets the current place. */
  method PlaceBelow(w: Writer, index: seq<nat>, limit: int, given: seq<nat>, ghost s: seq<byte>)
    returns (starts: seq<nat>)
    requires w.Valid() && Increasing(index) && limit == METADATA_SIZE * (w.flushed + 1) - |s|
    requires forall i :: 0 <= i < |index| ==> |s| + index[i] < |w.stream|
    requires given <= Places(w.cfg, s, w.stream, index)
    requires forall i :: |given| <= i < |index| ==> index[i] >= limit - METADATA_SIZE
    ensures starts <= Places(w.cfg, s, w.stream, index)
    ensures forall i :: |starts| <= i < |index| ==> index[i] >= limit
    ensures |starts| == |index| || index[|starts|] >= limit
  {
    hide EncodeBlocks;
    starts := given;
    while |starts| < |index| && index[|starts|] < limit
      invariant starts <= Places(w.cfg, s, w.stream, index)
      invariant forall i :: |starts| <= i < |index| ==> index[i] >= limit - METADATA_SIZE
      decreases |index| - |starts|
    {
      assert (|s| + index[|starts|]) / METADATA_SIZE == w.flushed;
      starts := starts + [|w.table|];
    }
  }

  /** write_dir: append, then flush every whole block, handing out places on the way. */
  method WriteDir(w: Writer, bytes: seq<byte>, index: seq<nat>) returns (inode: DirInode, starts: seq<nat>)
    requires w.Valid() && |w.cache| < METADATA_SIZE
    requires Increasing(index) && forall i :: 0 <= i < |index| ==> index[i] < |bytes|
    modifies w
    ensures w.Valid() && |w.cache| < METADATA_SIZE
    ensures w.stream == old(w.stream) + bytes
    ensures inode == DirInodeAfter(w.cfg, old(w.stream), |bytes|)
    ensures starts == Places(w.cfg, old(w.stream), w.stream, index)
  {
    hide EncodeBlocks, PlaceIn;
    var offset, block := |w.cache|, |w.table|;
    ghost var s := w.stream;
    assert w.flushed == Whole(s);
    Append(w, bytes);
    var limit := METADATA_SIZE - offset;
    starts := PlaceBelow(w, index, limit, [], s);
    while |w.cache| >= METADATA_SIZE
      invariant w.Valid() && w.stream == s + bytes
      invariant limit == METADATA_SIZE * (w.flushed + 1) - |s|
      invariant forall i :: |starts| <= i < |index| ==> index[i] >= limit
      invariant starts <= Places(w.cfg, s, w.stream, index)
      invariant |starts| == |index| || index[|starts|] >= limit
    {
      w.FlushBlock();
      limit := limit + METADATA_SIZE;
      starts := PlaceBelow(w, index, limit, starts, s);
    }
    inode := DirInode(block, offset, |bytes| + 3);
  }

  method Append(w: Writer, bytes: seq<byte>)
    requires w.Valid()
    modifies w`cache, w`stream
    ensures w.Valid() && w.stream == old(w.stream) + bytes && w.cache == old(w.cache) + bytes
  {
    ghost var done := METADATA_SIZE * w.flushed;
    w.cache, w.stream := w.cache + bytes, w.stream + bytes;
    assert w.stream[..done] == old(w.stream)[..done];
  }

  // ---- finding a directory again ----

  /** An inode's place is that of a block of the finished table, or of its very end. */
  lemma PlaceStable(cfg: Config, s: seq<byte>, bytes: seq<byte>, more: seq<byte>)
    requires Lawful(cfg.z)
    ensures var t, k := s + bytes + more, Whole(s);
            && METADATA_SIZE * k <= |t|
            && BlockPos(cfg, s, k) == BlockPos(cfg, t, k)
            && (METADATA_SIZE * k == |t| <==> |s| % METADATA_SIZE == 0 && bytes == [] && more == [])
  {
    BlockPosStable(cfg, s, bytes + more, Whole(s));
    assert s + bytes + more == s + (bytes + more);
  }

  /** What is listed for an inode's place. */
  lemma PlaceListed(r: Reader, s: seq<byte>, bytes: seq<byte>, more: seq<byte>, plain: bool, behind: seq<byte>)
    requires Lawful(r.cfg.z)
    requires var t := s + bytes + more;
             r.HoldsStream(t, plain, behind) && |EncodeBlocks(r.cfg, t)| < INT_SPAN
    ensures r.hash.Get((r.start + BlockPos(r.cfg, s, Whole(s))) % INT_SPAN)
            == if |s| % METADATA_SIZE == 0 && bytes == [] && more == [] && behind == [] then -1
               else METADATA_SIZE * Whole(s)
  {
    hide Find, EncodeBlocks, Reader.HoldsStream;
    var t, k := s + bytes + more, Whole(s);
    PlaceStable(r.cfg, s, bytes, more);
    if METADATA_SIZE * k == |t| {
      assert t[..METADATA_SIZE * k] == t;
      r.StreamEnd(t, plain, behind);
    } else {
      r.StreamBlock(t, plain, behind, k);
    }
  }

  lemma Inside(table: seq<byte>, s: seq<byte>, bytes: seq<byte>, more: seq<byte>, behind: seq<byte>)
    requires table == s + bytes + more + behind
    ensures At(table, |s|, bytes)
  {
  }

  /**
   squashfs_openddir, with the inode at hand. It reports exactly the entries of the directory, except that an empty
   directory fails to open when it was written at a block boundary, no directory after it has an entry and there are
   no fragments: then its place is the end of what was read, where no block starts.
   */
  method OpenDir(r: Reader, inode: DirInode, ghost s: seq<byte>, ghost gs: seq<Group>, ghost more: seq<byte>,
                 ghost plain: bool, ghost behind: seq<byte>)
    returns (dirs: Option<Listing>)
    requires Lawful(r.cfg.z) && GroupsOk(gs)
    requires inode == DirInodeAfter(r.cfg, s, |GroupsBytes(r.cfg.swap, gs)|)
    requires var t := s + GroupsBytes(r.cfg.swap, gs) + more;
             r.HoldsStream(t, plain, behind) && |EncodeBlocks(r.cfg, t)| < INT_SPAN
    ensures dirs == if gs == [] && |s| % METADATA_SIZE == 0 && more == [] && behind == [] then None
                    else Some(Views(ItemsOf(gs)))
  {
    hide EncodeBlocks, Find, GroupsBytes, ItemsOf, BlockPos, Views;
    ghost var bytes := GroupsBytes(r.cfg.swap, gs);
    GroupsBytesEmpty(r.cfg.swap, gs);
    PlaceListed(r, s, bytes, more, plain, behind);
    r.TableIs(s + bytes + more, plain, behind);
    hide Reader.HoldsStream;
    var at := r.Locate(inode.startBlock, inode.offset);
    if at == None {
      return None;
    }
    assert at == Some(|s|);
    Inside(r.table, s, bytes, more, behind);
    var found := ReadDirectory(r.cfg.swap, r.table, at.value, inode.fileSize, gs);
    return Some(found);
  }

  lemma GroupsBytesEmpty(swap: bool, gs: seq<Group>)
    requires GroupsOk(gs)
    ensures GroupsBytes(swap, gs) == [] <==> gs == []
  {
    if gs != [] {
      GroupLength(swap, gs[|gs| - 1]);
    }
  }

  // ---- writer and reader together ----

  function Distances(index: seq<IndexEntry>): (d: seq<nat>) {
    seq(|index|, i requires 0 <= i < |index| => index[i].index)
  }

  /** The distances of a directory's index entries are what write_dir expects of them. */
  lemma DistancesOk(swap: bool, gs: seq<Group>, index: seq<IndexEntry>)
    requires GroupsOk(gs) && Dense(index) && IndexNames(swap, gs, index)
    ensures Increasing(Distances(index))
    ensures forall k :: 0 <= k < |index| ==> Distances(index)[k] < |GroupsBytes(swap, gs)|
  {
    hide GroupsBytes, Dense;
    forall i, j | 0 <= i < j < |index|
      ensures Distances(index)[i] < Distances(index)[j]
    {
      DenseIncreasing(index, i, j);
    }
    forall k | 0 <= k < |index|
      ensures Distances(index)[k] < |GroupsBytes(swap, gs)|
    {
      assert Named(swap, gs, index[k]);
      var j: nat :| j < |gs| && HeaderAt(swap, gs, j, index[k]);
      NamedInside(swap, gs, j);
    }
  }

  /** The index of any directory is as write_dir expects it, and short enough for the inode's count of it. */
  lemma IndexFits(swap: bool, items: seq<Item>)
    requires AllInRange(items)
    ensures Increasing(Distances(IndexOf(items)))
    ensures forall k :: 0 <= k < |IndexOf(items)| ==> Distances(IndexOf(items))[k] < |DirBytes(swap, items)|
    ensures |DirBytes(swap, items)| + 3 < 0x800_0000 ==> |IndexOf(items)| < 0x1_0000
  {
    hide GroupsBytes, Dense, IndexNames, Length, LastMark;
    BuiltOk(items);
    BuiltIndex(swap, items);
    hide Built;
    DistancesOk(swap, GroupsOf(items), IndexOf(items));
    IndexCount(IndexOf(items));
  }

  /** scan2_init_dir, and add_dir for every entry. */
  method BuildDirectory(swap: bool, items: seq<Item>) returns (d: Directory)
    requires AllInRange(items)
    ensures fresh(d) && d.Valid() && d.swap == swap && d.View() == Built(items)
  {
    hide Added, Directory.Valid;
    d := new Directory(swap);
    for i := 0 to |items|
      invariant d.Valid() && d.swap == swap && fresh(d)
      invariant d.View() == Built(items[..i])
    {
      assert items[..i + 1][..i] == items[..i];
      d.AddDir(items[i]);
    }
    assert items[..|items|] == items;
  }

  type Listing = seq<DirEnt>

  /** Blob i begins at a block boundary, and neither it nor any blob after it has a byte. */
  ghost predicate AtEnd(blobs: seq<seq<byte>>, i: nat)
    requires i < |blobs|
  {
    |Flatten(blobs[..i])| % METADATA_SIZE == 0 && forall j :: i <= j < |blobs| ==> blobs[j] == []
  }

  lemma AtEndMeans(blobs: seq<seq<byte>>, i: nat, more: seq<byte>)
    requires i < |blobs| && Flatten(blobs) == Flatten(blobs[..i]) + blobs[i] + more
    ensures AtEnd(blobs, i) <==> |Flatten(blobs[..i])| % METADATA_SIZE == 0 && blobs[i] == [] && more == []
  {
    NothingAfter(blobs, i);
  }

  lemma {:induction false} NothingAfter(blobs: seq<seq<byte>>, i: nat)
    requires i <= |blobs|
    ensures |Flatten(blobs[..i])| <= |Flatten(blobs)|
    ensures |Flatten(blobs)| == |Flatten(blobs[..i])| <==> forall j :: i <= j < |blobs| ==> blobs[j] == []
    decreases |blobs|
  {
    if i == |blobs| {
      assert blobs[..i] == blobs;
    } else {
      var n := |blobs| - 1;
      assert blobs[..n][..i] == blobs[..i];
      NothingAfter(blobs[..n], i);
      assert forall j :: i <= j < n ==> blobs[..n][j] == blobs[j];
    }
  }

  lemma ItemsOfEmpty(gs: seq<Group>)
    requires GroupsOk(gs)
    ensures ItemsOf(gs) == [] <==> gs == []
  {
    if gs != [] {
      assert GroupOk(gs[|gs| - 1]);
    }
  }

  // ---- the inodes of directories ----

  /** What create_inode is given for a directory besides its place. */
  datatype Meta = Meta(attr: SquashInodes.Attributes, number: nat, nlink: nat, parent: nat)

  predicate MetaOk(m: Meta) {
    SquashInodes.AttributesOk(m.attr) && m.number < INT_SPAN && m.nlink < INT_SPAN && m.parent < INT_SPAN
  }

  const DIR_TYPE := 1
  const LDIR_TYPE := 8

  function Spans(long: bool): seq<BitFields.Span> {
    if long then BitFields.LDIR_INODE else BitFields.DIR_INODE
  }

  function HeaderLength(long: bool): nat { if long then 31 else 28 }

  function Values(long: bool, m: Meta, d: DirInode, count: nat): seq<nat> {
    SquashInodes.BaseValues(if long then LDIR_TYPE else DIR_TYPE, m.attr, m.number)
    + [m.nlink, d.fileSize, d.offset, d.startBlock] + if long then [count, m.parent] else [m.parent]
  }

  /** The size of a long inode has 27 bits, that of a short one 19. */
  predicate InodeFits(long: bool, d: DirInode) {
    d.fileSize < (if long then 0x800_0000 else 0x8_0000) && d.offset < METADATA_SIZE && d.startBlock < INT_SPAN
  }

  lemma ValuesOk(long: bool, m: Meta, d: DirInode, count: nat)
    requires MetaOk(m) && InodeFits(long, d) && count < 0x1_0000
    ensures SquashInodes.HeaderOk(Spans(long), HeaderLength(long), Values(long, m, d, count))
  {
    hide BitFields.Run;
    SquashInodes.Widths();
    BitFields.DirInodeRecord();
    BitFields.LdirInodeRecord();
    hide SquashInodes.Power;
  }

  /** The record begins with the header of a directory's inode. */
  ghost predicate Records(swap: bool, long: bool, m: Meta, d: DirInode, count: nat, record: seq<byte>) {
    && SquashInodes.HeaderOk(Spans(long), HeaderLength(long), Values(long, m, d, count))
    && SquashInodes.Begins(swap, Spans(long), HeaderLength(long), Values(long, m, d, count), record)
  }

  /** squashfs_dir_index and the name behind it: where a header lies, and where its block starts. */
  function IndexEntryBytes(swap: bool, e: IndexEntry, start: nat): (b: seq<byte>)
    ensures |b| == HEADER_SIZE + |e.name|
  {
    PutInt(e.index % INT_SPAN, swap) + PutInt(start % INT_SPAN, swap) + [(|e.name| - 1) % 256] + e.name
  }

  function IndexBytes(swap: bool, index: seq<IndexEntry>, starts: seq<nat>): seq<byte>
    requires |starts| == |index|
  {
    if index == [] then []
    else
      var n := |index| - 1;
      IndexBytes(swap, index[..n], starts[..n]) + IndexEntryBytes(swap, index[n], starts[n])
  }

  /** The inode of a directory as create_inode writes it; a long one is followed by the index. */
  function InodeBytes(swap: bool, long: bool, m: Meta, d: DirInode, index: seq<IndexEntry>, starts: seq<nat>)
    : (b: seq<byte>)
    requires |starts| == |index|
    ensures |b| >= HeaderLength(long) && (!long ==> |b| == 28)
  {
    SquashInodes.HeaderBytes(swap, Spans(long), HeaderLength(long), Values(long, m, d, |index|))
    + if long then IndexBytes(swap, index, starts) else []
  }

  /** The loop over the index in create_inode. */
  method PackIndex(swap: bool, index: seq<IndexEntry>, starts: seq<nat>) returns (bytes: seq<byte>)
    requires |starts| == |index|
    ensures bytes == IndexBytes(swap, index, starts)
  {
    hide IndexEntryBytes;
    bytes := [];
    for i := 0 to |index|
      invariant bytes == IndexBytes(swap, index[..i], starts[..i])
    {
      assert index[..i + 1][..i] == index[..i] && starts[..i + 1][..i] == starts[..i];
      bytes := bytes + IndexEntryBytes(swap, index[i], starts[i]);
    }
    assert index[..|index|] == index && starts[..|index|] == starts;
  }

  /** create_inode. */
  method PackInode(swap: bool, long: bool, m: Meta, d: DirInode, index: seq<IndexEntry>, starts: seq<nat>)
    returns (record: seq<byte>)
    requires |starts| == |index|
    ensures record == InodeBytes(swap, long, m, d, index, starts)
  {
    hide IndexBytes, BitFields.Run;
    BitFields.DirInodeRecord();
    BitFields.LdirInodeRecord();
    record := SquashInodes.Pack(swap, Spans(long), HeaderLength(long), Values(long, m, d, |index|));
    if long {
      var list := PackIndex(swap, index, starts);
      record := record + list;
    }
  }

  lemma InodeBytesRecord(swap: bool, long: bool, m: Meta, d: DirInode, index: seq<IndexEntry>, starts: seq<nat>)
    requires MetaOk(m) && InodeFits(long, d) && |starts| == |index| < 0x1_0000
    ensures Records(swap, long, m, d, |index|, InodeBytes(swap, long, m, d, index, starts))
  {
    hide SquashInodes.HeaderOk, SquashInodes.HeaderBytes, IndexBytes;
    ValuesOk(long, m, d, |index|);
    SquashInodes.HeaderBegins(swap, Spans(long), HeaderLength(long), Values(long, m, d, |index|));
  }

  lemma BeginsLonger(swap: bool, long: bool, m: Meta, d: DirInode, count: nat, record: seq<byte>, bytes: seq<byte>)
    requires Records(swap, long, m, d, count, record) && record <= bytes
    ensures Records(swap, long, m, d, count, bytes)
  {
  }

  /** The fields that the reader takes, in both kinds of header. */
  lemma FieldsAre(long: bool, m: Meta, d: DirInode, count: nat)
    ensures |Spans(long)| >= 10 && |Values(long, m, d, count)| >= 10 && BitFields.BASE_INODE <= Spans(long)
    ensures SquashInodes.BaseValues(if long then LDIR_TYPE else DIR_TYPE, m.attr, m.number) <= Values(long, m, d, count)
    ensures var s, v := Spans(long), Values(long, m, d, count);
            && s[7] == BitFields.Span(128, if long then 27 else 19) && v[7] == d.fileSize
            && s[8] == BitFields.Span(if long then 155 else 147, 13) && v[8] == d.offset
            && s[9] == BitFields.Span(if long then 168 else 160, 32) && v[9] == d.startBlock
            && s[6] == BitFields.Span(96, 32) && v[6] == m.nlink
            && |s| == |v| == (if long then 12 else 11)
            && s[|s| - 1] == BitFields.Span(if long then 216 else 192, 32) && v[|s| - 1] == m.parent
  {
  }

  /** The first part of squashfs_openddir: the header says which kind it is, and where the directory lies. */
  method ReadInode(swap: bool, bytes: seq<byte>, ghost long: bool, ghost m: Meta, ghost d: DirInode, ghost count: nat)
    returns (meta: Meta, inode: DirInode)
    requires Records(swap, long, m, d, count, bytes)
    ensures meta == m && inode == d
  {
    FieldsAre(long, m, d, count);
    hide Values, Spans, SquashInodes.HeaderOk, SquashInodes.Begins, SquashInodes.BaseValues;
    ghost var s, n, v := Spans(long), HeaderLength(long), Values(long, m, d, count);
    var kind, attr, number := SquashInodes.ReadBase(swap, bytes, s, n, v, if long then LDIR_TYPE else DIR_TYPE, m.attr,
                                                    m.number);
    var nlink := SquashInodes.ReadField(swap, bytes, BitFields.Span(96, 32), 28, s, n, v, 6);
    var size, offset, start, parent;
    if kind == DIR_TYPE {
      size := SquashInodes.ReadField(swap, bytes, BitFields.Span(128, 19), 28, s, n, v, 7);
      offset := SquashInodes.ReadField(swap, bytes, BitFields.Span(147, 13), 28, s, n, v, 8);
      start := SquashInodes.ReadField(swap, bytes, BitFields.Span(160, 32), 28, s, n, v, 9);
      parent := SquashInodes.ReadField(swap, bytes, BitFields.Span(192, 32), 28, s, n, v, 10);
    } else {
      size := SquashInodes.ReadField(swap, bytes, BitFields.Span(128, 27), 31, s, n, v, 7);
      offset := SquashInodes.ReadField(swap, bytes, BitFields.Span(155, 13), 31, s, n, v, 8);
      start := SquashInodes.ReadField(swap, bytes, BitFields.Span(168, 32), 31, s, n, v, 9);
      parent := SquashInodes.ReadField(swap, bytes, BitFields.Span(216, 32), 31, s, n, v, 11);
    }
    meta, inode := Meta(attr, number, nlink, parent), DirInode(start, offset, size);
  }

  // ---- short and long ----

  /** What sort_directory counts: the names and the fixed part of each entry. */
  function ByteCount(items: seq<Item>): nat {
    if items == [] then 0 else ByteCount(items[..|items| - 1]) + |items[|items| - 1].name| + ENTRY_SIZE
  }

  predicate IsLong(items: seq<Item>) {
    !(|items| < 257 && ByteCount(items) < METADATA_SIZE)
  }

  lemma {:induction false} ItemsBytesLength(swap: bool, base: nat, startBlock: nat, items: seq<Item>)
    requires AllInGroup(items, startBlock, base)
    ensures |ItemsBytes(swap, base, startBlock, items)| <= ByteCount(items)
    decreases |items|
  {
    hide ItemBytes;
    if items != [] {
      assert InGroup(items[|items| - 1], startBlock, base);
      ItemsBytesLength(swap, base, startBlock, items[..|items| - 1]);
    }
  }

  lemma {:induction false} ByteCountJoin(a: seq<Item>, b: seq<Item>)
    ensures ByteCount(a + b) == ByteCount(a) + ByteCount(b)
    decreases |b|
  {
    if b == [] {
      assert a + b == a;
    } else {
      ByteCountJoin(a, b[..|b| - 1]);
      assert (a + b)[..|a + b| - 1] == a + b[..|b| - 1];
    }
  }

  lemma {:induction false} GroupsBytesLength(swap: bool, gs: seq<Group>)
    requires GroupsOk(gs)
    ensures |gs| <= |ItemsOf(gs)| && |GroupsBytes(swap, gs)| <= HEADER_SIZE * |gs| + ByteCount(ItemsOf(gs))
    decreases |gs|
  {
    hide ItemsBytes, GroupBytes;
    if gs != [] {
      var n := |gs| - 1;
      GroupsBytesLength(swap, gs[..n]);
      assert GroupOk(gs[n]);
      GroupLength(swap, gs[n]);
      ItemsBytesLength(swap, gs[n].inodeNumber, gs[n].startBlock, gs[n].items);
      ByteCountJoin(ItemsOf(gs[..n]), gs[n].items);
    }
  }

  /** A directory that gets a short inode fits one. */
  lemma ShortFits(swap: bool, gs: seq<Group>)
    requires GroupsOk(gs) && !IsLong(ItemsOf(gs))
    ensures |GroupsBytes(swap, gs)| + 3 < 0x8_0000
  {
    hide GroupsBytes, ItemsOf, ByteCount;
    GroupsBytesLength(swap, gs);
  }

  // ---- writer and reader together ----

  /** The inode of a directory that is written behind the stream s of directories. */
  function DirRecord(cfg: Config, s: seq<byte>, items: seq<Item>, m: Meta): (b: seq<byte>)
    requires AllInRange(items)
    ensures |b| >= 28 && (|b| == 28 <==> |items| < 257 && ByteCount(items) < 0x2000)
  {
    var bytes, index := DirBytes(cfg.swap, items), IndexOf(items);
    InodeBytes(cfg.swap, IsLong(items), m, DirInodeAfter(cfg, s, |bytes|), index,
               Places(cfg, s, s + bytes, Distances(index)))
  }

  /** write_dir: the last header, the directory and then its inode. One of 2^27 bytes is refused. */
  method WriteDirectory(inodes: Writer, dirs: Writer, d: Directory, long: bool, m: Meta, ghost items: seq<Item>)
    returns (ref: nat, ok: bool)
    requires inodes != dirs && inodes.Valid() && dirs.Valid() && |dirs.cache| < METADATA_SIZE && inodes.cfg == dirs.cfg
    requires AllInRange(items) && d.Valid() && d.View() == Built(items) && d.swap == dirs.cfg.swap
             && long == IsLong(items)
    modifies inodes, dirs, d`buff
    ensures inodes.Valid() && dirs.Valid() && |dirs.cache| < METADATA_SIZE
    ensures dirs.stream == old(dirs.stream) + DirBytes(dirs.cfg.swap, items)
    ensures inodes.stream == old(inodes.stream) + DirRecord(dirs.cfg, old(dirs.stream), items, m)
    ensures ref == RefAfter(dirs.cfg, old(inodes.stream)) && ok == (|DirBytes(dirs.cfg.swap, items)| + 3 < 0x800_0000)
  {
    hide EncodeBlocks, Built, Length, IsLong, GroupsBytes, RefAfter, Places, InodeBytes, Directory.Coherent;
    IndexFits(d.swap, items);
    d.Close();
    var inode, starts := WriteDir(dirs, d.buff, Distances(d.index));
    ok := inode.fileSize < 0x800_0000;
    var record := PackInode(d.swap, long, m, inode, d.index, starts);
    ref := inodes.Store(record);
  }

  datatype Opened = Opened(meta: Meta, entries: Listing)

  /** squashfs_openddir: the inode through the inode table, then the directory through the directory table. */
  method OpenRef(inodeTable: Reader, dirTable: Reader, ref: nat, ghost items: seq<Item>, ghost m: Meta,
                 ghost si: seq<byte>, ghost mi: seq<byte>, ghost sd: seq<byte>, ghost md: seq<byte>, ghost plain: bool,
                 ghost behind: seq<byte>)
    returns (dir: Option<Opened>)
    requires inodeTable.cfg == dirTable.cfg && Lawful(dirTable.cfg.z) && AllInRange(items) && MetaOk(m)
    requires inodeTable.HoldsStream(si + DirRecord(dirTable.cfg, sd, items, m) + mi, false, [])
    requires ref == RefAfter(inodeTable.cfg, si) && |DirBytes(dirTable.cfg.swap, items)| + 3 < 0x800_0000
    requires var t := sd + DirBytes(dirTable.cfg.swap, items) + md;
             dirTable.HoldsStream(t, plain, behind) && |EncodeBlocks(dirTable.cfg, t)| < INT_SPAN
    ensures dir == if items == [] && |sd| % METADATA_SIZE == 0 && md == [] && behind == [] then None
                   else Some(Opened(m, Views(items)))
  {
    hide Records, Built, GroupsBytes, ItemsOf, EncodeBlocks, RefAfter, Reader.HoldsStream, DirInodeAfter, Views;
    hide DirRecord;
    hide IsLong, Length, InodeFits, MetaOk;
    ghost var cfg, long, size := dirTable.cfg, IsLong(items), |DirBytes(dirTable.cfg.swap, items)|;
    ghost var d, record := DirInodeAfter(cfg, sd, size), DirRecord(cfg, sd, items, m);
    InodeOfDirFits(cfg, items, sd, md);
    DirRecordIs(cfg, sd, items, m);
    BuiltOk(items);
    ItemsOfEmpty(GroupsOf(items));
    var at := Resolve(inodeTable, ref, si, record, mi, false, []);
    var bytes := inodeTable.table[at..];
    assert record == bytes[..|record|];
    BeginsLonger(cfg.swap, long, m, d, |IndexOf(items)|, record, bytes);
    var meta, inode := ReadInode(dirTable.cfg.swap, bytes, long, m, d, |IndexOf(items)|);
    var entries := OpenDir(dirTable, inode, sd, GroupsOf(items), md, plain, behind);
    return if entries == None then None else Some(Opened(meta, entries.value));
  }

  lemma DirRecordIs(cfg: Config, s: seq<byte>, items: seq<Item>, m: Meta)
    requires AllInRange(items) && MetaOk(m) && |DirBytes(cfg.swap, items)| + 3 < 0x800_0000
    requires InodeFits(IsLong(items), DirInodeAfter(cfg, s, |DirBytes(cfg.swap, items)|))
    ensures var bytes := DirBytes(cfg.swap, items);
            Records(cfg.swap, IsLong(items), m, DirInodeAfter(cfg, s, |bytes|), |IndexOf(items)|,
                    DirRecord(cfg, s, items, m))
  {
    hide Built, Length, IsLong, Records, InodeBytes, InodeFits, MetaOk, PlaceIn, BlockPos;
    IndexFits(cfg.swap, items);
    var bytes, index := DirBytes(cfg.swap, items), IndexOf(items);
    InodeBytesRecord(cfg.swap, IsLong(items), m, DirInodeAfter(cfg, s, |bytes|), index,
                     Places(cfg, s, s + bytes, Distances(index)));
  }

  /** The directory table with the fragment blocks behind it is within 32 bits, and every directory within 27. */
  ghost predicate DirsFit(cfg: Config, blobs: seq<seq<byte>>, noF: bool, frags: seq<byte>) {
    var table := |EncodeBlocks(cfg, Flatten(blobs))|;
    && table < INT_SPAN && table + |EncodeBehind(cfg, noF, frags)| <= INT_SPAN
    && forall i :: 0 <= i < |blobs| ==> |blobs[i]| + 3 < 0x800_0000
  }

  /** The inode of a directory is within the fields of its header. */
  lemma InodeOfDirFits(cfg: Config, items: seq<Item>, s: seq<byte>, more: seq<byte>)
    requires Lawful(cfg.z) && AllInRange(items) && |DirBytes(cfg.swap, items)| + 3 < 0x800_0000
    requires |EncodeBlocks(cfg, s + DirBytes(cfg.swap, items) + more)| < INT_SPAN
    ensures InodeFits(IsLong(items), DirInodeAfter(cfg, s, |DirBytes(cfg.swap, items)|))
  {
    hide EncodeBlocks, GroupsBytes, ItemsOf, IsLong, BlockPos, Length, Built;
    var bytes := DirBytes(cfg.swap, items);
    PlaceStable(cfg, s, bytes, more);
    EncodeBlocksAt(cfg, s + bytes + more, Whole(s));
    BuiltOk(items);
    if !IsLong(items) {
      ShortFits(cfg.swap, GroupsOf(items));
    }
  }

  lemma TablesOnDisk(before: seq<byte>, dirs: seq<byte>, frags: seq<byte>, after: seq<byte>)
    ensures (before + (dirs + frags + after))[|before|..|before| + |dirs| + |frags|] == dirs + frags
  {
  }

  /** The two tables on the disk, expanded; the blocks of the fragment table are read with the directories. */
  method OpenTables(cfg: Config, before: seq<byte>, inodeBytes: seq<byte>, dirBytes: seq<byte>, fragBlocks: seq<byte>,
                    after: seq<byte>, ghost si: seq<byte>, ghost sd: seq<byte>, ghost noF: bool, ghost frags: seq<byte>)
    returns (inodeTable: Reader, dirTable: Reader)
    requires Lawful(cfg.z) && inodeBytes == EncodeBlocks(cfg, si) && dirBytes == EncodeBlocks(cfg, sd)
    requires fragBlocks == EncodeBehind(cfg, noF, frags)
    requires |inodeBytes| <= INT_SPAN && |dirBytes| + |fragBlocks| <= INT_SPAN
    ensures fresh(inodeTable) && fresh(inodeTable.hash) && fresh(inodeTable.hash.chains) && inodeTable.cfg == cfg
    ensures fresh(dirTable) && fresh(dirTable.hash) && fresh(dirTable.hash.chains) && dirTable.cfg == cfg
    ensures inodeTable.HoldsStream(si, false, []) && dirTable.HoldsStream(sd, noF, frags)
  {
    hide EncodeBlocks, EncodeBehind, Reader.HoldsStream;
    inodeTable := OpenAlone(cfg, before, inodeBytes, dirBytes + fragBlocks + after, si);
    var disk, start := before + inodeBytes + (dirBytes + fragBlocks + after), |before| + |inodeBytes|;
    TablesOnDisk(before + inodeBytes, dirBytes, fragBlocks, after);
    dirTable := OpenTable(cfg, disk, start, start + |dirBytes| + |fragBlocks|, sd, noF, frags);
  }

  // ---- any directories ----

  predicate AllOk(dirs: seq<seq<Item>>) { forall i :: 0 <= i < |dirs| ==> AllInRange(dirs[i]) }

  /** The bytes of each directory, and its inode, when they are written one after another. */
  function Blobs(swap: bool, dirs: seq<seq<Item>>): (b: seq<seq<byte>>)
    requires AllOk(dirs)
  {
    seq(|dirs|, i requires 0 <= i < |dirs| => DirBytes(swap, dirs[i]))
  }

  function InodeRecords(cfg: Config, dirs: seq<seq<Item>>, metas: seq<Meta>): (r: seq<seq<byte>>)
    requires AllOk(dirs) && |metas| == |dirs|
  {
    var blobs := Blobs(cfg.swap, dirs);
    seq(|dirs|, i requires 0 <= i < |dirs| => DirRecord(cfg, Flatten(blobs[..i]), dirs[i], metas[i]))
  }

  /** All directories of an image, and their inodes. */
  method WriteAll(cfg: Config, dirs: seq<seq<Item>>, metas: seq<Meta>)
    returns (inodeTable: seq<byte>, dirTable: seq<byte>, refs: seq<nat>, ok: bool)
    requires Lawful(cfg.z) && AllOk(dirs) && |metas| == |dirs|
    ensures var blobs, records := Blobs(cfg.swap, dirs), InodeRecords(cfg, dirs, metas);
            && inodeTable == EncodeBlocks(cfg, Flatten(records)) && dirTable == EncodeBlocks(cfg, Flatten(blobs))
            && |refs| == |dirs| && (forall i :: 0 <= i < |dirs| ==> refs[i] == RefAfter(cfg, Flatten(records[..i])))
            && (ok <==> forall i :: 0 <= i < |dirs| ==> |blobs[i]| + 3 < 0x800_0000)
  {
    hide EncodeBlocks, Flatten, DirRecord, RefAfter, Built, IsLong, GroupsBytes, Length, GroupsOf;
    hide Directory.Valid;
    ghost var blobs, records := Blobs(cfg.swap, dirs), InodeRecords(cfg, dirs, metas);
    var wi := new Writer(cfg);
    var wd := new Writer(cfg);
    refs, ok := [], true;
    FlattenStart();
    assert blobs[..0] == [] && records[..0] == [];
    for i := 0 to |dirs|
      invariant wi != wd && wi.Valid() && wd.Valid() && wi.cfg == wd.cfg == cfg && fresh(wi) && fresh(wd)
      invariant |wd.cache| < METADATA_SIZE && wd.stream == Flatten(blobs[..i]) && wi.stream == Flatten(records[..i])
      invariant |refs| == i && forall j :: 0 <= j < i ==> refs[j] == RefAfter(cfg, Flatten(records[..j]))
      invariant ok <==> forall j :: 0 <= j < i ==> |blobs[j]| + 3 < 0x800_0000
    {
      var d := BuildDirectory(cfg.swap, dirs[i]);
      FlattenNext(blobs, i);
      FlattenNext(records, i);
      var ref, small := WriteDirectory(wi, wd, d, IsLong(dirs[i]), metas[i], dirs[i]);
      refs, ok := refs + [ref], ok && small;
    }
    assert blobs[..|dirs|] == blobs && records[..|dirs|] == records;
    wi.Finish();
    wd.Finish();
    inodeTable, dirTable := wi.table, wd.table;
  }

  /** What becomes of directory i. */
  ghost predicate OpensAs(dirs: seq<seq<Item>>, metas: seq<Meta>, blobs: seq<seq<byte>>, frags: seq<byte>, i: nat,
                          found: Option<Opened>)
    requires i < |dirs| == |metas| == |blobs|
  {
    found == if dirs[i] == [] && AtEnd(blobs, i) && frags == [] then None
             else Some(Opened(metas[i], Views(dirs[i])))
  }

  /** Every directory opened. */
  method OpenAll(inodeTable: Reader, dirTable: Reader, refs: seq<nat>, ghost dirs: seq<seq<Item>>,
                 ghost metas: seq<Meta>, ghost noF: bool, ghost frags: seq<byte>)
    returns (found: seq<Option<Opened>>)
    requires inodeTable.cfg == dirTable.cfg && Lawful(dirTable.cfg.z) && AllOk(dirs) && |refs| == |metas| == |dirs|
    requires forall i :: 0 <= i < |dirs| ==> MetaOk(metas[i])
    requires var blobs, records := Blobs(dirTable.cfg.swap, dirs), InodeRecords(dirTable.cfg, dirs, metas);
             && inodeTable.HoldsStream(Flatten(records), false, [])
             && (forall i :: 0 <= i < |refs| ==> refs[i] == RefAfter(inodeTable.cfg, Flatten(records[..i])))
             && dirTable.HoldsStream(Flatten(blobs), noF, frags)
             && |EncodeBlocks(dirTable.cfg, Flatten(blobs))| < INT_SPAN
             && forall i :: 0 <= i < |dirs| ==> |blobs[i]| + 3 < 0x800_0000
    ensures |found| == |dirs|
    ensures forall i :: 0 <= i < |dirs| ==> OpensAs(dirs, metas, Blobs(dirTable.cfg.swap, dirs), frags, i, found[i])
  {
    hide EncodeBlocks, Flatten, DirRecord, Views, MetaOk, Built, GroupsOf, Length, GroupsBytes;
    hide RefAfter, AtEnd, Reader.HoldsStream;
    ghost var cfg := dirTable.cfg;
    ghost var blobs, records := Blobs(cfg.swap, dirs), InodeRecords(cfg, dirs, metas);
    found := [];
    for i := 0 to |refs|
      invariant |found| == i
      invariant forall j :: 0 <= j < i ==> OpensAs(dirs, metas, blobs, frags, j, found[j])
    {
      ghost var mi := FlattenSplit(records, i);
      ghost var md := FlattenSplit(blobs, i);
      DirBytesEmpty(cfg.swap, dirs[i]);
      AtEndMeans(blobs, i, md);
      var one := OpenRef(inodeTable, dirTable, refs[i], dirs[i], metas[i], Flatten(records[..i]), mi,
                         Flatten(blobs[..i]), md, noF, frags);
      found := found + [one];
    }
  }

  lemma DirBytesEmpty(swap: bool, items: seq<Item>)
    requires AllInRange(items)
    ensures DirBytes(swap, items) == [] <==> items == []
  {
    hide GroupsBytes, Built, Length;
    BuiltOk(items);
    ItemsOfEmpty(GroupsOf(items));
    GroupsBytesEmpty(swap, GroupsOf(items));
  }

  /**
   Any directories written one after another are found again through their inodes, and these through the references to
   them; they report the same attributes, number, links and parent and the same entries in the same order. The exception
   is exact: an empty directory does not open if it begins at a block boundary, no directory after it has an entry and
   there are no fragments. The image is made exactly if the tables stay within 32 bits and each directory within 27.
   */
  method WriteAndOpen(cfg: Config, before: seq<byte>, dirs: seq<seq<Item>>, metas: seq<Meta>, noF: bool,
                      frags: seq<byte>, after: seq<byte>)
    returns (ok: bool, found: seq<Option<Opened>>)
    requires Lawful(cfg.z) && |metas| == |dirs| && AllOk(dirs) && forall i :: 0 <= i < |dirs| ==> MetaOk(metas[i])
    ensures ok <==> && DirsFit(cfg, Blobs(cfg.swap, dirs), noF, frags)
                    && |EncodeBlocks(cfg, Flatten(InodeRecords(cfg, dirs, metas)))| <= INT_SPAN
    ensures ok ==> |found| == |dirs|
    ensures ok ==> forall i :: 0 <= i < |dirs| ==> OpensAs(dirs, metas, Blobs(cfg.swap, dirs), frags, i, found[i])
  {
    hide EncodeBlocks, EncodeBehind, Flatten, DirRecord, Views, MetaOk, DirBytes, RefAfter, AtEnd, Reader.HoldsStream;
    ghost var blobs, records := Blobs(cfg.swap, dirs), InodeRecords(cfg, dirs, metas);
    var inodeTable, dirTable, refs, small := WriteAll(cfg, dirs, metas);
    var fragBlocks := EncodeBehind(cfg, noF, frags);
    found := [];
    ok := small && |dirTable| < INT_SPAN && |dirTable| + |fragBlocks| <= INT_SPAN && |inodeTable| <= INT_SPAN;
    if ok {
      var inodeReader, dirReader := OpenTables(cfg, before, inodeTable, dirTable, fragBlocks, after, Flatten(records),
                                               Flatten(blobs), noF, frags);
      found := OpenAll(inodeReader, dirReader, refs, dirs, metas, noF, frags);
    }
  }

  /** An image whose tree is one empty directory, and that has no fragments: its root cannot be opened. */
  method OpenLoneEmptyDirectory(cfg: Config, before: seq<byte>, meta: Meta, after: seq<byte>)
    returns (found: Option<Opened>)
    requires Lawful(cfg.z) && MetaOk(meta)
    ensures found == None
  {
    hide Views, MetaOk, DirRecord;
    ghost var dirs: seq<seq<Item>>, metas := [[]], [meta];
    var ok, all := WriteAndOpen(cfg, before, [[]], [meta], false, [], after);
    ghost var blobs, records := Blobs(cfg.swap, dirs), InodeRecords(cfg, dirs, metas);
    DirBytesEmpty(cfg.swap, []);
    assert blobs == [[]] && blobs[..0] == [];
    FlattenNext(blobs, 0);
    assert Flatten(blobs) == [];
    LoneRecord(cfg, records);
    found := all[0];
  }

  lemma LoneRecord(cfg: Config, records: seq<seq<byte>>)
    requires Lawful(cfg.z) && |records| == 1 && |records[0]| == 28
    ensures |EncodeBlocks(cfg, Flatten(records))| <= INT_SPAN
  {
    hide Mangle;
    var s := Flatten(records);
    FlattenNext(records, 0);
    assert records[..1] == records && records[..0] == [];
    assert s == records[0];
    UnmangleMangle(cfg.z, s, cfg.noI, COMPRESSED_BIT);
    assert s[..28] == s && s[28..] == [];
    assert EncodeBlocks(cfg, s) == BlockBytes(cfg, s) + EncodeBlocks(cfg, []);
  }
}
