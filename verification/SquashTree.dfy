/**
 A whole squashfs image: a tree of directories and regular files goes depth first through
 one set of tables, the inode of every directory behind those of its entries, and the tree
 is extracted again from the reference to its root.
 */
module SquashTree {
  import opened Bytes
  import opened SquashBlocks
  import opened SquashMetadata
  import opened SquashDirectory
  import SF = SquashFile
  import FT = SquashFileTable
  import DT = SquashDirectoryTable
  import SquashFragmentTable
  import SquashInodes

  datatype Node =
    | FileNode(attr: SquashInodes.Attributes, number: nat, nlink: nat, job: SF.Job)
    | DirNode(attr: SquashInodes.Attributes, number: nat, entries: seq<Entry>)

  datatype Entry = Entry(name: seq<byte>, node: Node)

  /** Numbers are ints, names are not empty, and a file has fewer than 2^31 blocks. */
  predicate NodeOk(c: SF.Config, n: Node)
    requires c.blockSize > 0
  {
    && SquashInodes.AttributesOk(n.attr) && n.number < INT_SPAN
    && match n
       case FileNode(_, _, nlink, job) => nlink < INT_SPAN && SF.JobOk(c, job)
       case DirNode(_, _, entries) =>
         && |entries| + 2 < INT_SPAN
         && forall i :: 0 <= i < |entries| ==> entries[i].name != [] && NodeOk(c, entries[i].node)
  }

  // ---- what is written, as a function of the tree ----

  /** The data, the bytes of inodes and of directories before they are cut into blocks, and the files written. */
  datatype World = World(laid: SF.Laid, inodes: seq<byte>, dirs: seq<byte>, files: seq<SF.File>, small: bool)

  datatype Wrote = Wrote(world: World, ref: nat)
  datatype Scanned = Scanned(world: World, items: seq<Item>)

  /** add_dir takes the reference apart; the place of the block is an unsigned int. */
  function ItemOf(e: Entry, ref: nat): Item {
    Item(e.name, InodeBlk(ref) % INT_SPAN, InodeOffset(ref), e.node.number,
         if e.node.DirNode? then DT.DIR_TYPE else FT.FILE_TYPE)
  }

  function FileMeta(n: Node): FT.Meta
    requires n.FileNode?
  {
    FT.Meta(n.attr, n.number, n.nlink)
  }

  function Subdirectories(entries: seq<Entry>): (k: nat)
    ensures k <= |entries|
  {
    if entries == [] then 0
    else Subdirectories(entries[..|entries| - 1]) + if entries[|entries| - 1].node.DirNode? then 1 else 0
  }

  function DirMeta(n: Node, parent: nat): DT.Meta
    requires n.DirNode?
  {
    DT.Meta(n.attr, n.number, Subdirectories(n.entries) + 2, parent)
  }

  function WithFile(cfg: Config, c: SF.Config, w: World, n: Node): World
    requires c.blockSize > 0 && n.FileNode?
  {
    World(SF.WithFile(c, w.laid, n.job.file),
          w.inodes + FT.RecordOf(cfg.swap, FileMeta(n), SF.InodeOf(c, w.laid, n.job.file)), w.dirs,
          w.files + [SF.FileOf(c, w.laid, n.job.file)], w.small)
  }

  function WithDir(cfg: Config, w: World, items: seq<Item>, m: DT.Meta): World
    requires AllInRange(items)
  {
    World(w.laid, w.inodes + DT.DirRecord(cfg, w.dirs, items, m), w.dirs + DirBytes(cfg.swap, items), w.files,
          w.small && |DirBytes(cfg.swap, items)| + 3 < 0x800_0000)
  }

  /** An entry of dir_scan2: a file, or a directory after all its entries. */
  function Write(cfg: Config, c: SF.Config, w: World, n: Node, parent: nat): (r: Wrote)
    requires c.blockSize > 0 && NodeOk(c, n)
    ensures InodeOffset(r.ref) < METADATA_SIZE
    decreases n
  {
    if n.FileNode? then
      RefOffset(cfg, w.inodes);
      Wrote(WithFile(cfg, c, w, n), RefAfter(cfg, w.inodes))
    else
      var s := Scan(cfg, c, w, n, |n.entries|);
      RefOffset(cfg, s.world.inodes);
      Wrote(WithDir(cfg, s.world, s.items, DirMeta(n, parent)), RefAfter(cfg, s.world.inodes))
  }

  /** The first i entries of a directory. */
  function Scan(cfg: Config, c: SF.Config, w: World, d: Node, i: nat): (r: Scanned)
    requires c.blockSize > 0 && NodeOk(c, d) && d.DirNode? && i <= |d.entries|
    ensures |r.items| == i && AllInRange(r.items)
    decreases d, i
  {
    if i == 0 then Scanned(w, [])
    else
      var s, e := Scan(cfg, c, w, d, i - 1), d.entries[i - 1];
      var one := Write(cfg, c, s.world, e.node, d.number);
      Scanned(one.world, s.items + [ItemOf(e, one.ref)])
  }

  lemma RefOffset(cfg: Config, s: seq<byte>)
    ensures InodeOffset(RefAfter(cfg, s)) < METADATA_SIZE
  {
    var block, offset := BlockPos(cfg, s, Whole(s)), |s| % METADATA_SIZE;
    assert MkInode(block, offset) % OFFSET_SPAN == offset;
  }

  /** The files of a tree, in the order in which they are written. */
  function JobsIn(n: Node): seq<SF.Job>
    decreases n
  {
    if n.FileNode? then [n.job] else JobsBefore(n, |n.entries|)
  }

  function JobsBefore(d: Node, i: nat): seq<SF.Job>
    requires d.DirNode? && i <= |d.entries|
    decreases d, i
  {
    if i == 0 then [] else JobsBefore(d, i - 1) + JobsIn(d.entries[i - 1].node)
  }

  /** Every file adds at most one fragment block to the list. */
  lemma {:induction false} TableGrows(cfg: Config, c: SF.Config, w: World, n: Node, parent: nat)
    requires c.blockSize > 0 && NodeOk(c, n)
    ensures |Write(cfg, c, w, n, parent).world.laid.table| <= |w.laid.table| + |JobsIn(n)|
    decreases n
  {
    hide Scan, SF.WithFile, NodeOk;
    if n.FileNode? {
      SF.WithFilePool(c, w.laid, n.job.file);
    } else {
      TableGrowsBy(cfg, c, w, n, |n.entries|);
    }
  }

  lemma {:induction false} TableGrowsBy(cfg: Config, c: SF.Config, w: World, d: Node, i: nat)
    requires c.blockSize > 0 && NodeOk(c, d) && d.DirNode? && i <= |d.entries|
    ensures |Scan(cfg, c, w, d, i).world.laid.table| <= |w.laid.table| + |JobsBefore(d, i)|
    decreases d, i
  {
    hide Write;
    if i > 0 {
      TableGrowsBy(cfg, c, w, d, i - 1);
      TableGrows(cfg, c, Scan(cfg, c, w, d, i - 1).world, d.entries[i - 1].node, d.number);
    }
  }

  /** The data of a tree are those of its files in the order of the scan, whatever lies between them. */
  lemma {:induction false} DataOfTree(cfg: Config, c: SF.Config, disk: seq<byte>, jobs: seq<SF.Job>, w: World, n: Node,
                                      parent: nat)
    requires c.blockSize > 0 && NodeOk(c, n)
    requires w.laid == SF.LaidBy(c, disk, jobs) && w.files == SF.FilesOf(c, disk, jobs)
    ensures var after, all := Write(cfg, c, w, n, parent).world, jobs + JobsIn(n);
            after.laid == SF.LaidBy(c, disk, all) && after.files == SF.FilesOf(c, disk, all)
    decreases n
  {
    hide Scan, SF.WithFile, SF.FileOf, NodeOk;
    if n.FileNode? {
      var all := jobs + [n.job];
      assert all[..|jobs|] == jobs;
    } else {
      DataOfEntries(cfg, c, disk, jobs, w, n, |n.entries|);
    }
  }

  lemma {:induction false} DataOfEntries(cfg: Config, c: SF.Config, disk: seq<byte>, jobs: seq<SF.Job>, w: World,
                                         d: Node, i: nat)
    requires c.blockSize > 0 && NodeOk(c, d) && d.DirNode? && i <= |d.entries|
    requires w.laid == SF.LaidBy(c, disk, jobs) && w.files == SF.FilesOf(c, disk, jobs)
    ensures var after, all := Scan(cfg, c, w, d, i).world, jobs + JobsBefore(d, i);
            after.laid == SF.LaidBy(c, disk, all) && after.files == SF.FilesOf(c, disk, all)
    decreases d, i
  {
    hide Write, SF.LaidBy, SF.FilesOf;
    if i == 0 {
      assert jobs + [] == jobs;
    } else {
      DataOfEntries(cfg, c, disk, jobs, w, d, i - 1);
      var some := jobs + JobsBefore(d, i - 1);
      DataOfTree(cfg, c, disk, some, Scan(cfg, c, w, d, i - 1).world, d.entries[i - 1].node, d.number);
      assert jobs + JobsBefore(d, i) == some + JobsIn(d.entries[i - 1].node);
    }
  }

  // ---- writing ----

  /** The state of mksquashfs agrees with a world. */
  ghost predicate Shows(cfg: Config, c: SF.Config, image: SF.Image, inodes: Writer, dirs: Writer, small: bool, w: World)
    reads image, inodes, dirs
  {
    && SF.ConfigOk(c) && image.Valid() && image.c == c
    && inodes != dirs && inodes.Valid() && dirs.Valid() && inodes.cfg == dirs.cfg == cfg && |dirs.cache| < METADATA_SIZE
    && World(image.View(), inodes.stream, dirs.stream, image.files, small) == w
  }

  /** dir_scan2, and the writing of one entry. A directory that create_inode refuses only makes small false here. */
  method WriteNode(cfg: Config, c: SF.Config, image: SF.Image, inodes: Writer, dirs: Writer, n: Node, parent: nat,
                   before: bool, ghost w: World)
    returns (ref: nat, small: bool)
    requires c.blockSize > 0 && NodeOk(c, n) && Shows(cfg, c, image, inodes, dirs, before, w)
    requires |w.laid.table| + |JobsIn(n)| < SF.INVALID_FRAG - 1
    modifies image, inodes, dirs
    ensures Shows(cfg, c, image, inodes, dirs, small, Write(cfg, c, w, n, parent).world)
    ensures ref == Write(cfg, c, w, n, parent).ref
    decreases n
  {
    hide *;
    if n.FileNode? {
      ref := WriteFile(cfg, c, image, inodes, dirs, n, parent, before, w);
      small := before;
    } else {
      var d := new Directory(cfg.swap);
      small := before;
      ScanStart(cfg, c, w, n);
      for i := 0 to |n.entries|
        invariant Shows(cfg, c, image, inodes, dirs, small, Scan(cfg, c, w, n, i).world)
        invariant fresh(d) && d.Valid() && d.swap == cfg.swap && d.View() == Built(Scan(cfg, c, w, n, i).items)
      {
        JobsNext(n, i);
        TableGrowsBy(cfg, c, w, n, i);
        ScanNext(cfg, c, w, n, i);
        var one;
        one, small := WriteNode(cfg, c, image, inodes, dirs, n.entries[i].node, n.number, small,
                                Scan(cfg, c, w, n, i).world);
        d.AddDir(ItemOf(n.entries[i], one));
      }
      ref, small := CloseDirectory(cfg, c, image, inodes, dirs, d, n, parent, small, w);
    }
  }

  lemma ScanStart(cfg: Config, c: SF.Config, w: World, d: Node)
    requires c.blockSize > 0 && NodeOk(c, d) && d.DirNode?
    ensures Scan(cfg, c, w, d, 0) == Scanned(w, []) && Built([]) == Building([], [])
    ensures JobsBefore(d, 0) == [] && JobsBefore(d, |d.entries|) == JobsIn(d)
  {
  }

  lemma ScanNext(cfg: Config, c: SF.Config, w: World, d: Node, i: nat)
    requires c.blockSize > 0 && NodeOk(c, d) && d.DirNode? && i < |d.entries|
    ensures var s, next := Scan(cfg, c, w, d, i), Scan(cfg, c, w, d, i + 1);
            var one := Write(cfg, c, s.world, d.entries[i].node, d.number);
            var item := ItemOf(d.entries[i], one.ref);
            && NodeOk(c, d.entries[i].node)
            && next == Scanned(one.world, s.items + [item]) && InRange(item)
            && Built(next.items) == Added(Built(s.items), item)
  {
    hide Write, Added;
    var s, next := Scan(cfg, c, w, d, i), Scan(cfg, c, w, d, i + 1);
    assert next.items[..i] == s.items && InRange(next.items[i]);
  }

  /** The end of dir_scan2. */
  method CloseDirectory(cfg: Config, c: SF.Config, image: SF.Image, inodes: Writer, dirs: Writer, d: Directory, n: Node,
                        parent: nat, before: bool, ghost w: World)
    returns (ref: nat, small: bool)
    requires c.blockSize > 0 && NodeOk(c, n) && n.DirNode?
    requires Shows(cfg, c, image, inodes, dirs, before, Scan(cfg, c, w, n, |n.entries|).world)
    requires d.Valid() && d.swap == cfg.swap && d.View() == Built(Scan(cfg, c, w, n, |n.entries|).items)
    modifies inodes, dirs, d`buff
    ensures Shows(cfg, c, image, inodes, dirs, small, Write(cfg, c, w, n, parent).world)
    ensures ref == Write(cfg, c, w, n, parent).ref
  {
    hide Scan, Built, SF.FileStored, SF.FragStored, RefAfter, DT.DirRecord, DirBytes, EncodeBlocks, NodeOk;
    LongByNames(cfg, c, w, n, |n.entries|);
    ghost var items := Scan(cfg, c, w, n, |n.entries|).items;
    var fits;
    ref, fits := DT.WriteDirectory(inodes, dirs, d, IsLong(n.entries), DirMeta(n, parent), items);
    small := before && fits;
  }

  /** sort_directory: what decides on the kind of inode is known before anything is written. */
  function NameBytes(entries: seq<Entry>): nat {
    if entries == [] then 0 else NameBytes(entries[..|entries| - 1]) + |entries[|entries| - 1].name| + ENTRY_SIZE
  }

  predicate IsLong(entries: seq<Entry>) {
    !(|entries| < 257 && NameBytes(entries) < METADATA_SIZE)
  }

  lemma {:induction false} LongByNames(cfg: Config, c: SF.Config, w: World, d: Node, i: nat)
    requires c.blockSize > 0 && NodeOk(c, d) && d.DirNode? && i <= |d.entries|
    ensures NameBytes(d.entries[..i]) == DT.ByteCount(Scan(cfg, c, w, d, i).items)
    ensures i == |d.entries| ==> IsLong(d.entries) == DT.IsLong(Scan(cfg, c, w, d, i).items)
    decreases i
  {
    hide Write, NodeOk;
    if i > 0 {
      LongByNames(cfg, c, w, d, i - 1);
      assert d.entries[..i][..i - 1] == d.entries[..i - 1];
      var items := Scan(cfg, c, w, d, i).items;
      assert items[..i - 1] == Scan(cfg, c, w, d, i - 1).items;
    }
    assert d.entries[..|d.entries|] == d.entries;
  }

  lemma {:induction false} JobsGrow(d: Node, i: nat)
    requires d.DirNode? && i <= |d.entries|
    ensures |JobsBefore(d, i)| <= |JobsIn(d)|
    decreases |d.entries| - i
  {
    if i < |d.entries| {
      JobsGrow(d, i + 1);
    }
  }

  lemma JobsNext(d: Node, i: nat)
    requires d.DirNode? && i < |d.entries|
    ensures |JobsBefore(d, i)| + |JobsIn(d.entries[i].node)| == |JobsBefore(d, i + 1)| <= |JobsIn(d)|
  {
    JobsGrow(d, i + 1);
  }

  method WriteFile(cfg: Config, c: SF.Config, image: SF.Image, inodes: Writer, dirs: Writer, n: Node, parent: nat,
                   small: bool, ghost w: World)
    returns (ref: nat)
    requires c.blockSize > 0 && n.FileNode? && NodeOk(c, n) && Shows(cfg, c, image, inodes, dirs, small, w)
    requires |w.laid.table| + |JobsIn(n)| < SF.INVALID_FRAG - 1
    modifies image, inodes
    ensures Shows(cfg, c, image, inodes, dirs, small, Write(cfg, c, w, n, parent).world)
    ensures ref == Write(cfg, c, w, n, parent).ref
  {
    hide SF.JobOk, SF.FileStored, SF.FragStored, SF.WriterBlocks, SF.InodeOf, SF.WithFile, RefAfter, FT.RecordOf;
    hide EncodeBlocks;
    SF.JobRoom(c, n.job);
    var inode := image.WriteFile(n.job.file, n.job.wholeFile, n.job.room);
    var record := FT.PackInode(cfg.swap, FileMeta(n), inode);
    ref := inodes.Store(record);
  }

  // ---- reading ----

  /** What is extracted. */
  datatype Out = OutFile(file: FT.Meta, data: Option<seq<byte>>)
               | OutDir(dir: DT.Meta, entries: seq<OutEntry>)

  datatype OutEntry = OutEntry(name: seq<byte>, node: Out)

  /** A tree as it was stored: names are cut, and a file has the bytes that its blocks and its tail had. */
  function OutOf(c: SF.Config, n: Node, parent: nat): Out
    requires c.blockSize > 0
    decreases n
  {
    if n.FileNode? then OutFile(FileMeta(n), Some(SF.Concat(SF.BlocksOf(c, n.job.file)) + SF.TailOf(c, n.job.file)))
    else OutDir(DirMeta(n, parent), OutsOf(c, n, |n.entries|))
  }

  function OutsOf(c: SF.Config, d: Node, i: nat): (r: seq<OutEntry>)
    requires c.blockSize > 0 && d.DirNode? && i <= |d.entries|
    ensures |r| == i
    decreases d, i
  {
    if i == 0 then []
    else OutsOf(c, d, i - 1) + [OutEntry(Cut(d.entries[i - 1].name), OutOf(c, d.entries[i - 1].node, d.number))]
  }

  ghost predicate Extends(w: World, more: World) {
    w.inodes <= more.inodes && w.dirs <= more.dirs && w.files <= more.files && (more.small ==> w.small)
  }

  lemma {:induction false} WriteExtends(cfg: Config, c: SF.Config, w: World, n: Node, parent: nat)
    requires c.blockSize > 0 && NodeOk(c, n)
    ensures Extends(w, Write(cfg, c, w, n, parent).world)
    decreases n
  {
    hide Scan, NodeOk, FT.RecordOf, DT.DirRecord, DirBytes, SF.WithFile;
    if n.DirNode? {
      ScanExtends(cfg, c, w, n, 0, |n.entries|);
      ScanStart(cfg, c, w, n);
    }
  }

  lemma {:induction false} ScanExtends(cfg: Config, c: SF.Config, w: World, d: Node, i: nat, j: nat)
    requires c.blockSize > 0 && NodeOk(c, d) && d.DirNode? && i <= j <= |d.entries|
    ensures Extends(Scan(cfg, c, w, d, i).world, Scan(cfg, c, w, d, j).world)
    decreases d, j
  {
    hide Write;
    if i < j {
      ScanExtends(cfg, c, w, d, i, j - 1);
      WriteExtends(cfg, c, Scan(cfg, c, w, d, j - 1).world, d.entries[j - 1].node, d.number);
    }
  }

  /** The fragment blocks and the files are on the disk. */
  ghost predicate Stored(c: SF.Config, disk: seq<byte>, table: seq<SF.FragEntry>, frags: seq<seq<byte>>,
                         files: seq<SF.File>) {
    && SF.ConfigOk(c) && |frags| == |table|
    && (forall i :: 0 <= i < |frags| ==> SF.FragStored(c, disk, table[i], frags[i]) && |frags[i]| <= c.blockSize)
    && (forall i :: 0 <= i < |files| ==>
          SF.FileStored(c, disk, frags, files[i]) && files[i].inode.startBlock < FT.LONG_SPAN)
  }

  /** unsquashfs has read the tables of a finished world. */
  ghost predicate Loaded(cfg: Config, c: SF.Config, inodes: Reader, dirs: Reader, x: SF.Extractor, w: World,
                         frags: seq<seq<byte>>, behind: seq<byte>)
    reads inodes, inodes.hash.chains, dirs, dirs.hash.chains, x
  {
    && Lawful(cfg.z) && inodes.cfg == dirs.cfg == cfg && w.small
    && inodes.HoldsStream(w.inodes, false, []) && |EncodeBlocks(cfg, w.inodes)| <= INT_SPAN
    && dirs.HoldsStream(w.dirs, c.noF, behind) && |EncodeBlocks(cfg, w.dirs)| < INT_SPAN
    && x.Valid() && x.c == c && Stored(c, x.disk, x.fragmentTable, frags, w.files)
  }

  /** An empty directory at a block boundary, with nothing behind it. */
  ghost predicate Unreadable(n: Node, w: World, all: World, behind: seq<byte>) {
    n.DirNode? && n.entries == [] && |w.dirs| % METADATA_SIZE == 0 && w.dirs == all.dirs && behind == []
  }

  /** create_inode in unsquashfs, for a file written when the world was w. */
  method ExtractFile(cfg: Config, c: SF.Config, inodes: Reader, dirs: Reader, x: SF.Extractor, ref: nat, ghost n: Node,
                     ghost w: World, ghost all: World, ghost frags: seq<seq<byte>>, ghost behind: seq<byte>)
    returns (out: Out)
    requires c.blockSize > 0 && n.FileNode? && NodeOk(c, n) && Loaded(cfg, c, inodes, dirs, x, all, frags, behind)
    requires Extends(WithFile(cfg, c, w, n), all) && ref == RefAfter(cfg, w.inodes)
    modifies x`cachedFrag, x`fragmentData
    ensures Loaded(cfg, c, inodes, dirs, x, all, frags, behind) && forall parent :: out == OutOf(c, n, parent)
  {
    hide SF.FileStored, SF.FragStored, SF.InodeOf, SF.WithFile, SF.BlocksOf, SF.TailOf, SF.Concat, SF.Written, SF.JobOk;
    hide RefAfter, FT.RecordOf, FT.Records, FT.IsLong, FT.InodeFits, Reader.HoldsStream, EncodeBlocks;
    hide SF.Extractor.Valid;
    hide SF.ReaderBlocks, SF.ReaderTail;
    ghost var file, m, k := n.job.file, FileMeta(n), |w.files|;
    ghost var f := SF.FileOf(c, w.laid, file);
    ghost var record := FT.RecordOf(cfg.swap, m, f.inode);
    assert all.files[k] == f;
    SF.FileOfWritten(c, w.laid, file);
    FT.WrittenFits(c, x.disk, frags, file, f, m);
    FT.RecordOfRecords(cfg.swap, m, f.inode);
    FT.Agrees(c, file, x.disk, frags, f);
    ghost var more := all.inodes[|w.inodes + record|..];
    assert all.inodes == w.inodes + record + more;
    var meta, data := FT.ExtractRef(cfg, inodes, x, ref, FT.IsLong(m, f.inode.fileSize), m, f, w.inodes, record, more,
                                    frags);
    out := OutFile(meta, data);
  }

  /** squashfs_openddir, for a directory written when the world was w. */
  method OpenDirectory(cfg: Config, c: SF.Config, inodes: Reader, dirs: Reader, x: SF.Extractor, ref: nat,
                       ghost n: Node, ghost parent: nat, ghost w: World, ghost all: World, ghost frags: seq<seq<byte>>,
                       ghost behind: seq<byte>)
    returns (dir: Option<DT.Opened>)
    requires c.blockSize > 0 && n.DirNode? && NodeOk(c, n) && parent < INT_SPAN
    requires Loaded(cfg, c, inodes, dirs, x, all, frags, behind)
    requires Extends(Write(cfg, c, w, n, parent).world, all) && ref == Write(cfg, c, w, n, parent).ref
    ensures dir == if Unreadable(n, Write(cfg, c, w, n, parent).world, all, behind) then None
                   else Some(DT.Opened(DirMeta(n, parent), Views(Scan(cfg, c, w, n, |n.entries|).items)))
  {
    hide Scan, DT.DirRecord, DirBytes, Views, RefAfter, Reader.HoldsStream, EncodeBlocks, Stored;
    ghost var s, m := Scan(cfg, c, w, n, |n.entries|), DirMeta(n, parent);
    ghost var record, bytes := DT.DirRecord(cfg, s.world.dirs, s.items, m), DirBytes(cfg.swap, s.items);
    ghost var mi, md := all.inodes[|s.world.inodes + record|..], all.dirs[|s.world.dirs + bytes|..];
    assert all.inodes == s.world.inodes + record + mi && all.dirs == s.world.dirs + bytes + md;
    DT.DirBytesEmpty(cfg.swap, s.items);
    dir := DT.OpenRef(inodes, dirs, ref, s.items, m, s.world.inodes, mi, s.world.dirs, md, c.noF, behind);
  }

  lemma {:induction false} ItemStays(cfg: Config, c: SF.Config, w: World, d: Node, i: nat, j: nat)
    requires c.blockSize > 0 && NodeOk(c, d) && d.DirNode? && i < j <= |d.entries|
    ensures var one := Write(cfg, c, Scan(cfg, c, w, d, i).world, d.entries[i].node, d.number);
            Scan(cfg, c, w, d, j).items[i] == ItemOf(d.entries[i], one.ref)
    decreases j
  {
    hide Write, Scan, NodeOk, ItemOf, InRange, Added;
    ScanNext(cfg, c, w, d, j - 1);
    if i < j - 1 {
      ItemStays(cfg, c, w, d, i, j - 1);
    }
  }

  /** A reference names the place where the inode of the node begins. */
  lemma RefIs(cfg: Config, c: SF.Config, w: World, n: Node, parent: nat) returns (s: seq<byte>)
    requires c.blockSize > 0 && NodeOk(c, n)
    ensures Write(cfg, c, w, n, parent).ref == RefAfter(cfg, s) && s < Write(cfg, c, w, n, parent).world.inodes
  {
    hide Scan, NodeOk, RefAfter, FT.RecordOf, DT.DirRecord, DirBytes, SF.WithFile, SF.InodeOf;
    s := if n.FileNode? then w.inodes else Scan(cfg, c, w, n, |n.entries|).world.inodes;
  }

  /** The place of an inode is within 32 bits, as the inode table is. */
  lemma RefFits(cfg: Config, s: seq<byte>, t: seq<byte>)
    requires Lawful(cfg.z) && s < t && |EncodeBlocks(cfg, t)| <= INT_SPAN
    ensures var ref := RefAfter(cfg, s); MkInode(InodeBlk(ref) % INT_SPAN, InodeOffset(ref)) == ref
  {
    hide RefAfter, EncodeBlocks, BlockPos;
    assert t == s + t[|s|..] + [];
    ReferenceStable(cfg, s, t[|s|..], []);
  }

  /** Behind every entry of a directory there are the bytes of the directory itself. */
  lemma EntryInside(cfg: Config, c: SF.Config, w: World, d: Node, parent: nat, all: World, i: nat)
    requires c.blockSize > 0 && d.DirNode? && NodeOk(c, d) && i < |d.entries|
    requires Extends(Write(cfg, c, w, d, parent).world, all)
    ensures var one := Scan(cfg, c, w, d, i + 1).world; Extends(one, all) && |one.dirs| < |all.dirs|
  {
    hide NodeOk, WithDir, Scan, Extends;
    var s := Scan(cfg, c, w, d, |d.entries|);
    ScanExtends(cfg, c, w, d, i + 1, |d.entries|);
    WithDirExtends(cfg, s.world, s.items, DirMeta(d, parent), Scan(cfg, c, w, d, i + 1).world, all);
  }

  lemma WithDirExtends(cfg: Config, w: World, items: seq<Item>, m: DT.Meta, one: World, all: World)
    requires AllInRange(items) && items != [] && Extends(one, w) && Extends(WithDir(cfg, w, items, m), all)
    ensures Extends(one, all) && |one.dirs| < |all.dirs|
  {
    hide DirBytes, DT.DirRecord;
    DT.DirBytesEmpty(cfg.swap, items);
  }

  lemma ExtendsInodes(w: World, all: World)
    requires Extends(w, all)
    ensures w.inodes <= all.inodes
  {
  }

  /** What the reader is told of entry i. */
  lemma EntryIs(cfg: Config, c: SF.Config, w: World, d: Node, parent: nat, all: World, i: nat)
    requires c.blockSize > 0 && d.DirNode? && NodeOk(c, d) && i < |d.entries|
    requires Lawful(cfg.z) && Extends(Write(cfg, c, w, d, parent).world, all)
             && |EncodeBlocks(cfg, all.inodes)| <= INT_SPAN
    ensures NodeOk(c, d.entries[i].node) && d.number < INT_SPAN
    ensures var e, v := d.entries[i], Views(Scan(cfg, c, w, d, |d.entries|).items)[i];
            var one := Write(cfg, c, Scan(cfg, c, w, d, i).world, e.node, d.number);
            && v.name == Cut(e.name) && MkInode(v.startBlock, v.offset) == one.ref
            && (v.kind == DT.DIR_TYPE <==> e.node.DirNode?)
            && Extends(one.world, all) && |one.world.dirs| < |all.dirs|
  {
    hide Write, Scan, DirBytes, DT.DirRecord, EncodeBlocks, Extends, Cut;
    EntryInside(cfg, c, w, d, parent, all, i);
    ScanNext(cfg, c, w, d, i);
    hide NodeOk;
    ItemStays(cfg, c, w, d, i, |d.entries|);
    var one := Scan(cfg, c, w, d, i).world;
    var before := RefIs(cfg, c, one, d.entries[i].node, d.number);
    ExtendsInodes(Write(cfg, c, one, d.entries[i].node, d.number).world, all);
    RefFits(cfg, before, all.inodes);
  }

  lemma FileIs(cfg: Config, c: SF.Config, w: World, n: Node, parent: nat)
    requires c.blockSize > 0 && n.FileNode? && NodeOk(c, n)
    ensures Write(cfg, c, w, n, parent) == Wrote(WithFile(cfg, c, w, n), RefAfter(cfg, w.inodes))
  {
  }

  lemma LoadedSizes(cfg: Config, c: SF.Config, inodes: Reader, dirs: Reader, x: SF.Extractor, w: World,
                    frags: seq<seq<byte>>, behind: seq<byte>)
    requires Loaded(cfg, c, inodes, dirs, x, w, frags, behind)
    ensures Lawful(cfg.z) && |EncodeBlocks(cfg, w.inodes)| <= INT_SPAN
  {
  }

  lemma NotLast(n: Node, w: World, all: World, behind: seq<byte>)
    requires |w.dirs| < |all.dirs|
    ensures !Unreadable(n, w, all, behind)
  {
  }

  /** dir_scan in unsquashfs. */
  method Extract(cfg: Config, c: SF.Config, inodes: Reader, dirs: Reader, x: SF.Extractor, ref: nat, ghost n: Node,
                 ghost parent: nat, ghost w: World, ghost all: World, ghost frags: seq<seq<byte>>,
                     ghost behind: seq<byte>)
    returns (out: Option<Out>)
    requires c.blockSize > 0 && n.DirNode? && NodeOk(c, n) && parent < INT_SPAN
    requires Loaded(cfg, c, inodes, dirs, x, all, frags, behind)
    requires Extends(Write(cfg, c, w, n, parent).world, all) && ref == Write(cfg, c, w, n, parent).ref
    modifies x`cachedFrag, x`fragmentData
    ensures Loaded(cfg, c, inodes, dirs, x, all, frags, behind)
    ensures out == if Unreadable(n, Write(cfg, c, w, n, parent).world, all, behind) then None
                   else Some(OutOf(c, n, parent))
    decreases n
  {
    hide Loaded, Write, Scan, NodeOk, Extends, Unreadable, ItemOf, MkInode, WithFile, RefAfter, EncodeBlocks, Cut, View;
    LoadedSizes(cfg, c, inodes, dirs, x, all, frags, behind);
    var dir := OpenDirectory(cfg, c, inodes, dirs, x, ref, n, parent, w, all, frags, behind);
    if dir == None {
      return None;
    }
    var outs := [];
    for i := 0 to |dir.value.entries|
      invariant |dir.value.entries| == |n.entries|
      invariant Loaded(cfg, c, inodes, dirs, x, all, frags, behind) && outs == OutsOf(c, n, i)
    {
      var e := dir.value.entries[i];
      EntryIs(cfg, c, w, n, parent, all, i);
      ghost var node, s := n.entries[i].node, Scan(cfg, c, w, n, i).world;
      NotLast(node, Write(cfg, c, s, node, n.number).world, all, behind);
      if e.kind == DT.DIR_TYPE {
        var sub := Extract(cfg, c, inodes, dirs, x, MkInode(e.startBlock, e.offset), node, n.number, s, all, frags,
                           behind);
        if sub.Some? {
          outs := outs + [OutEntry(e.name, sub.value)];
        }
      } else {
        FileIs(cfg, c, s, node, n.number);
        var file := ExtractFile(cfg, c, inodes, dirs, x, MkInode(e.startBlock, e.offset), node, s, all, frags, behind);
        outs := outs + [OutEntry(e.name, file)];
      }
    }
    out := Some(OutDir(dir.value.meta, outs));
  }

  // ---- the whole image ----

  /**
   The same tree: names cut to what the format allows, every byte of every file, and every directory with its number,
   its links, two and one for each directory in it, and the number of the directory that it is in.
   */
  function Copy(n: Node, parent: nat): Out
    decreases n
  {
    if n.FileNode? then OutFile(FT.Meta(n.attr, n.number, n.nlink), Some(n.job.file[..SF.ReadSize(n.job.file)]))
    else
      var folders := set i | 0 <= i < |n.entries| && n.entries[i].node.DirNode?;
      OutDir(DT.Meta(n.attr, n.number, 2 + |folders|, parent), Copies(n, |n.entries|))
  }

  lemma {:induction false} FoldersCounted(entries: seq<Entry>)
    ensures Subdirectories(entries) == |set i | 0 <= i < |entries| && entries[i].node.DirNode?|
    decreases |entries|
  {
    var all := set i | 0 <= i < |entries| && entries[i].node.DirNode?;
    if entries == [] {
      assert all == {};
    } else {
      var n := |entries| - 1;
      FoldersCounted(entries[..n]);
      var some := set i | 0 <= i < n && entries[..n][i].node.DirNode?;
      assert all == some + if entries[n].node.DirNode? then {n} else {};
    }
  }

  function Copies(d: Node, i: nat): (r: seq<OutEntry>)
    requires d.DirNode? && i <= |d.entries|
    ensures |r| == i
    decreases d, i
  {
    if i == 0 then []
    else Copies(d, i - 1) + [OutEntry(Cut(d.entries[i - 1].name), Copy(d.entries[i - 1].node, d.number))]
  }

  /** No file ends in a short block past 2 GB. */
  predicate NonePast2G(c: SF.Config, n: Node)
    requires c.blockSize > 0
    decreases n
  {
    if n.FileNode? then !SF.LastBlockPast2G(c, SF.ReadSize(n.job.file))
    else forall i :: 0 <= i < |n.entries| ==> NonePast2G(c, n.entries[i].node)
  }

  lemma {:induction false} SameTree(c: SF.Config, n: Node, parent: nat)
    requires SF.ConfigOk(c)
    ensures OutOf(c, n, parent) == Copy(n, parent) <==> NonePast2G(c, n)
    decreases n
  {
    hide SF.BlocksOf, SF.TailOf, SF.Concat, SF.LastBlockPast2G, SF.Written, SF.InodeOf, OutsOf, Copies;
    if n.FileNode? {
      var s := SF.Laid([], [], []);
      SF.FileOfWritten(c, s, n.job.file);
      SF.ExtractedIsFile(c, n.job.file, SF.FileOf(c, s, n.job.file));
    } else {
      FoldersCounted(n.entries);
      SameEntries(c, n, |n.entries|);
    }
  }

  lemma {:induction false} SameEntries(c: SF.Config, d: Node, i: nat)
    requires SF.ConfigOk(c) && d.DirNode? && i <= |d.entries|
    ensures OutsOf(c, d, i) == Copies(d, i) <==> forall k :: 0 <= k < i ==> NonePast2G(c, d.entries[k].node)
    decreases d, i
  {
    hide OutOf, Copy, NonePast2G, Cut;
    if i > 0 {
      SameEntries(c, d, i - 1);
      SameTree(c, d.entries[i - 1].node, d.number);
      var a, b := OutsOf(c, d, i), Copies(d, i);
      assert a[..i - 1] == OutsOf(c, d, i - 1) && b[..i - 1] == Copies(d, i - 1);
      assert a == b <==> a[..i - 1] == b[..i - 1] && a[i - 1] == b[i - 1];
    }
  }

  function Start(disk: seq<byte>): World { World(SF.Laid(disk, [], []), [], [], [], true) }

  function FragmentBytes(cfg: Config, table: seq<SF.FragEntry>): seq<byte> {
    Flatten(SquashFragmentTable.EntryRecords(cfg.swap, table))
  }

  /**
   Every directory is below 2^27 bytes, the data below 2^64, the tables within 32 bits, and the tails of the files take
   no fragment block or no multiple of 512.
   */
  predicate Fits(cfg: Config, c: SF.Config, disk: seq<byte>, root: Node, parent: nat)
    requires c.blockSize > 0 && NodeOk(c, root)
  {
    var w, data := Write(cfg, c, Start(disk), root, parent).world, SF.DataOf(c, disk, JobsIn(root));
    && w.small && |data.disk| < FT.LONG_SPAN && |EncodeBlocks(cfg, w.inodes)| <= INT_SPAN
    && |EncodeBlocks(cfg, w.dirs)| < INT_SPAN
    && |EncodeBlocks(cfg, w.dirs)| + |EncodeBehind(cfg, c.noF, FragmentBytes(cfg, data.table))| <= INT_SPAN
    && var fragments := SF.FragmentCount(c, JobsIn(root)); fragments == 0 || fragments % 512 != 0
  }

  /** mksquashfs up to the tables: the data, and the bytes of the two tables. */
  method MakeImage(cfg: Config, c: SF.Config, disk: seq<byte>, root: Node, parent: nat)
    returns (stored: seq<byte>, table: seq<SF.FragEntry>, inodeTable: seq<byte>, dirTable: seq<byte>, ref: nat,
             small: bool, ghost frags: seq<seq<byte>>)
    requires Lawful(cfg.z) && SF.ConfigOk(c) && NodeOk(c, root) && |JobsIn(root)| < SF.INVALID_FRAG - 2
    ensures var r, data := Write(cfg, c, Start(disk), root, parent), SF.DataOf(c, disk, JobsIn(root));
            && stored == data.disk && table == data.table && ref == r.ref && small == r.world.small
            && inodeTable == EncodeBlocks(cfg, r.world.inodes) && dirTable == EncodeBlocks(cfg, r.world.dirs)
            && Tight(cfg, r.world.inodes, inodeTable) && Tight(cfg, r.world.dirs, dirTable)
    ensures |stored| < FT.LONG_SPAN ==>
              Stored(c, stored, table, frags, Write(cfg, c, Start(disk), root, parent).world.files)
  {
    hide Write, NodeOk, EncodeBlocks, SF.FileStored, SF.FragStored, SF.LaidBy, SF.FilesOf, SF.Flushed, Tight;
    var image := new SF.Image(c, disk);
    var inodes := new Writer(cfg);
    var dirs := new Writer(cfg);
    ghost var r := Write(cfg, c, Start(disk), root, parent);
    StartIs(c, disk);
    DataOfTree(cfg, c, disk, [], Start(disk), root, parent);
    assert [] + JobsIn(root) == JobsIn(root);
    TableGrows(cfg, c, Start(disk), root, parent);
    ref, small := WriteNode(cfg, c, image, inodes, dirs, root, parent, true, Start(disk));
    image.WriteFragment();
    inodes.Finish();
    dirs.Finish();
    stored, table, frags := image.disk, image.fragmentTable, image.frags;
    inodeTable, dirTable := inodes.table, dirs.table;
    EncodeBlocksTight(cfg, r.world.inodes);
    EncodeBlocksTight(cfg, r.world.dirs);
    assert image.files == SF.FilesOf(c, disk, JobsIn(root)) && image.fragmentData == [];
    if |stored| < FT.LONG_SPAN {
      AllStored(c, disk, JobsIn(root), stored, table, frags);
    }
  }

  lemma StartIs(c: SF.Config, disk: seq<byte>)
    requires c.blockSize > 0
    ensures SF.LaidBy(c, disk, []) == Start(disk).laid && SF.FilesOf(c, disk, []) == Start(disk).files
  {
  }

  /** After the last fragment block is written, the empty buffer holds no tail. */
  lemma AllStored(c: SF.Config, disk: seq<byte>, jobs: seq<SF.Job>, stored: seq<byte>, table: seq<SF.FragEntry>,
                  frags: seq<seq<byte>>)
    requires SF.ConfigOk(c) && |stored| < FT.LONG_SPAN && |frags| == |table|
    requires forall i :: 0 <= i < |frags| ==> SF.FragStored(c, stored, table[i], frags[i])
    requires var files := SF.FilesOf(c, disk, jobs);
             forall i :: 0 <= i < |files| ==> SF.FileStored(c, stored, frags + [[]], files[i])
    ensures Stored(c, stored, table, frags, SF.FilesOf(c, disk, jobs))
  {
    hide SF.FileStored, SF.FragStored, SF.FilesOf, SF.Written;
    forall i | 0 <= i < |frags|
      ensures |frags[i]| <= c.blockSize
    {
      FT.FragmentsFit(c, stored, table[i], frags[i]);
    }
    var files := SF.FilesOf(c, disk, jobs);
    forall i | 0 <= i < |files|
      ensures SF.FileStored(c, stored, frags, files[i]) && files[i].inode.startBlock < FT.LONG_SPAN
    {
      SF.AllWritten(c, disk, jobs, i);
      SF.WrittenAgrees(c, jobs[i].file, stored, frags, files[i]);
      FT.StartsWithin(c, stored, frags, files[i]);
    }
  }

  /** The image read from its root. */
  method ReadImage(cfg: Config, c: SF.Config, stored: seq<byte>, table: seq<SF.FragEntry>, inodeTable: seq<byte>,
                   dirTable: seq<byte>, fragBlocks: seq<byte>, after: seq<byte>, ref: nat, ghost root: Node,
                   ghost parent: nat, ghost start: World, ghost frags: seq<seq<byte>>, ghost behind: seq<byte>)
    returns (out: Option<Out>)
    requires c.blockSize > 0 && root.DirNode? && NodeOk(c, root) && parent < INT_SPAN && Lawful(cfg.z)
    requires var r := Write(cfg, c, start, root, parent);
             && inodeTable == EncodeBlocks(cfg, r.world.inodes) && dirTable == EncodeBlocks(cfg, r.world.dirs)
             && r.world.small && ref == r.ref && Stored(c, stored, table, frags, r.world.files)
    requires |inodeTable| <= INT_SPAN && |dirTable| < INT_SPAN && |dirTable| + |fragBlocks| <= INT_SPAN
    requires fragBlocks == EncodeBehind(cfg, c.noF, behind)
    ensures var w := Write(cfg, c, start, root, parent).world;
            out == if Unreadable(root, w, w, behind) then None else Some(OutOf(c, root, parent))
  {
    hide Write, NodeOk, EncodeBlocks, EncodeBehind, Stored, Reader.HoldsStream, Unreadable, OutOf;
    ghost var w := Write(cfg, c, start, root, parent).world;
    var inodes, dirs := DT.OpenTables(cfg, stored, inodeTable, dirTable, fragBlocks, after, w.inodes, w.dirs, c.noF,
                                      behind);
    StoredStays(c, stored, inodeTable + (dirTable + fragBlocks + after), table, frags, w.files);
    var x := new SF.Extractor(c, stored + (inodeTable + (dirTable + fragBlocks + after)), table);
    out := Extract(cfg, c, inodes, dirs, x, ref, root, parent, start, w, frags, behind);
  }

  lemma StoredStays(c: SF.Config, disk: seq<byte>, more: seq<byte>, table: seq<SF.FragEntry>, frags: seq<seq<byte>>,
                    files: seq<SF.File>)
    requires Stored(c, disk, table, frags, files)
    ensures Stored(c, disk + more, table, frags, files)
  {
    hide SF.FileStored, SF.FragStored;
    forall i | 0 <= i < |frags|
      ensures SF.FragStored(c, disk + more, table[i], frags[i])
    {
      SF.FragStoredStays(c, disk, more, table[i], frags[i]);
    }
    forall i | 0 <= i < |files|
      ensures SF.FileStored(c, disk + more, frags, files[i])
    {
      SF.FileStoredStays(c, disk, more, frags, frags, files[i]);
    }
  }

  /**
   Any tree of directories and files, made into one image and extracted from its root. The image can be read exactly if
   it fits; then the tree comes back whole, except that an empty root does not open, and that a file whose last block
   is short and lies past 2 GB comes back with other bytes.
   */
  method MakeAndExtract(cfg: Config, c: SF.Config, disk: seq<byte>, root: Node, parent: nat, junk: seq<byte>,
                        after: seq<byte>)
    returns (ok: bool, out: Option<Out>)
    requires Lawful(cfg.z) && SF.ConfigOk(c) && root.DirNode? && NodeOk(c, root) && parent < INT_SPAN
    requires |JobsIn(root)| < SF.INVALID_FRAG - 2 && |junk| == SquashFragmentTable.ZERO_BLOCK
    ensures ok <==> Fits(cfg, c, disk, root, parent)
    ensures ok ==> (out == None <==> root.entries == [])
    ensures ok && root.entries != [] ==> out == Some(OutOf(c, root, parent))
    ensures ok && root.entries != [] ==> (out == Some(Copy(root, parent)) <==> NonePast2G(c, root))
  {
    hide Write, NodeOk, EncodeBlocks, EncodeBehind, Stored, Unreadable, OutOf, Copy, NonePast2G, SF.DataOf, JobsIn;
    hide SquashFragmentTable.TableBytes, SquashFragmentTable.EntryFits, Flatten, SF.FragmentCount;
    var stored, table, inodeTable, dirTable, ref, small, frags := MakeImage(cfg, c, disk, root, parent);
    SF.FragmentsCounted(c, disk, JobsIn(root));
    ok, out := |stored| < FT.LONG_SPAN, None;
    if !ok {
      return;
    }
    ghost var w, behind := Write(cfg, c, Start(disk), root, parent).world, FragmentBytes(cfg, table);
    EntriesFit(c, stored, table, frags, w.files);
    var fragBlocks, read := SquashFragmentTable.WriteAndRead(cfg.(noI := c.noF), stored + inodeTable + dirTable,
                                                             table, junk, after);
    ok := small && read != None && |inodeTable| <= INT_SPAN && |dirTable| < INT_SPAN
          && |dirTable| + |fragBlocks| <= INT_SPAN;
    if read == None {
      return;
    }
    SquashFragmentTable.OrdinaryBlocks(cfg.(noI := c.noF), table, junk);
    assert fragBlocks == EncodeBehind(cfg, c.noF, behind) by { BehindIs(cfg, c.noF, behind); }
    if ok {
      out := ReadImage(cfg, c, stored, read.value, inodeTable, dirTable, fragBlocks, after, ref, root, parent,
                       Start(disk), frags, behind);
      RootReadable(cfg, c, disk, root, parent, behind);
      SameTree(c, root, parent);
    }
  }

  lemma BehindIs(cfg: Config, plain: bool, s: seq<byte>)
    ensures EncodeBehind(cfg, plain, s) == EncodeBlocks(cfg.(noI := plain), s)
  {
  }

  lemma EntriesFit(c: SF.Config, disk: seq<byte>, table: seq<SF.FragEntry>, frags: seq<seq<byte>>, files: seq<SF.File>)
    requires Stored(c, disk, table, frags, files) && |disk| < FT.LONG_SPAN
    ensures forall i :: 0 <= i < |table| ==> SquashFragmentTable.EntryFits(table[i])
  {
    hide SF.FileStored, SF.FragStored, SquashFragmentTable.EntryFits;
    forall i | 0 <= i < |table|
      ensures SquashFragmentTable.EntryFits(table[i])
    {
      FT.FragmentsFit(c, disk, table[i], frags[i]);
    }
  }

  /** Only an empty tree leaves nothing behind its root. */
  lemma RootReadable(cfg: Config, c: SF.Config, disk: seq<byte>, root: Node, parent: nat, behind: seq<byte>)
    requires c.blockSize > 0 && root.DirNode? && NodeOk(c, root)
    requires behind == [] <==> SF.DataOf(c, disk, JobsIn(root)).table == []
    ensures var w := Write(cfg, c, Start(disk), root, parent).world;
            Unreadable(root, w, w, behind) <==> root.entries == []
  {
    hide NodeOk, DirBytes, DT.DirRecord;
    if root.entries == [] {
      DT.DirBytesEmpty(cfg.swap, []);
    }
  }
}
