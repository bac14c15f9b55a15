/**
 cramfsck on any image: the walk through the directories passes exactly if the image describes
 a tree, and then it has found that tree. What it does when it is led out of the image, or into
 directories too deep for its stack, is not said.
 */
module CramfsCheck {
  import opened Bytes
  import opened CramfsTree
  import opened CramfsRecords
  import opened CramfsData
  import opened CramfsFormat

  /** All tests so far have passed; one has failed, and the program has ended; it was led astray. */
  datatype Verdict = Passed | Failed | Astray

  // ---- lists ----

  /** Entries one after the other, and then a list. */
  function Chain(xs: seq<(Info, Tree)>, tail: Tree): Tree {
    if xs == [] then tail else Node(xs[0].0, xs[0].1, Chain(xs[1..], tail))
  }

  lemma {:induction false} ChainLast(xs: seq<(Info, Tree)>, i: Info, child: Tree, tail: Tree)
    ensures Chain(xs + [(i, child)], tail) == Chain(xs, Node(i, child, tail))
    decreases |xs|
  {
    if xs != [] {
      ChainLast(xs[1..], i, child, tail);
      assert (xs + [(i, child)])[1..] == xs[1..] + [(i, child)];
    }
  }

  lemma {:induction false} ChainHeight(xs: seq<(Info, Tree)>, tail: Tree)
    ensures Height(Chain(xs, tail)) >= Height(tail)
    decreases |xs|
  {
    if xs != [] {
      ChainHeight(xs[1..], tail);
    }
  }

  // ---- where the loop over a directory stands ----

  /** What is listed from the start on is xs and what is listed from here on. */
  ghost predicate Here(cfg: Config, img: seq<byte>, offset0: nat, count0: int, xs: seq<(Info, Tree)>, offset: nat,
                       count: int) {
    && (forall t :: Listed(cfg, img, offset, count, t) ==> Listed(cfg, img, offset0, count0, Chain(xs, t)))
    && (forall t :: Listed(cfg, img, offset0, count0, t) ==> Rest(cfg, img, xs, offset, count, t))
  }

  ghost predicate Rest(cfg: Config, img: seq<byte>, xs: seq<(Info, Tree)>, offset: nat, count: int, t: Tree) {
    exists r :: t == Chain(xs, r) && Listed(cfg, img, offset, count, r)
  }

  /** An entry stands here. */
  ghost predicate EntryAt(cfg: Config, img: seq<byte>, offset: nat, info: Info, child: Tree) {
    && offset + INODE_SIZE <= |img|
    && var i := InodeAt(img, offset);
       var behind := offset + INODE_SIZE + 4 * i.namelen;
       behind <= |img| && Named(img[offset + INODE_SIZE..behind], info.name) && Entry(cfg, img, i, info, child)
  }

  lemma EntrySize(cfg: Config, img: seq<byte>, offset: nat, info: Info, child: Tree)
    requires EntryAt(cfg, img, offset, info, child)
    ensures INODE_SIZE + 4 * InodeAt(img, offset).namelen == RecordSize(info) > INODE_SIZE
    ensures (info.mode, info.uid, info.gid) == var i := InodeAt(img, offset); (i.mode, i.uid, i.gid)
  {
    hide InodeAt, StrLen;
    var behind := offset + INODE_SIZE + 4 * InodeAt(img, offset).namelen;
    NameWords(img[offset + INODE_SIZE..behind], info.name);
  }

  lemma ListedUnfold(cfg: Config, img: seq<byte>, offset: nat, count: int, t: Tree)
    requires count > 0
    ensures Listed(cfg, img, offset, count, t)
            <==> t.Node? && EntryAt(cfg, img, offset, t.info, t.child)
                 && Listed(cfg, img, offset + RecordSize(t.info), count - RecordSize(t.info), t.next)
  {
    hide Entry, InodeAt, Named;
    if t.Node? && EntryAt(cfg, img, offset, t.info, t.child) {
      EntrySize(cfg, img, offset, t.info, t.child);
    }
  }

  lemma EntryAtOnce(cfg: Config, img: seq<byte>, offset: nat, a: Info, s: Tree, b: Info, t: Tree)
    requires EntryAt(cfg, img, offset, a, s) && EntryAt(cfg, img, offset, b, t)
    ensures a == b && s == t
  {
    hide Entry, InodeAt, StrLen;
    EntryOnce(cfg, img, InodeAt(img, offset), a, s, b, t);
  }

  lemma HereStarts(cfg: Config, img: seq<byte>, offset: nat, count: int)
    ensures Here(cfg, img, offset, count, [], offset, count)
  {
    hide Listed;
    forall t | Listed(cfg, img, offset, count, t)
      ensures Rest(cfg, img, [], offset, count, t)
    {
      assert t == Chain([], t);
    }
  }

  lemma HereNext(cfg: Config, img: seq<byte>, offset0: nat, count0: int, xs: seq<(Info, Tree)>, offset: nat,
                 count: int, info: Info, kids: Tree)
    requires Here(cfg, img, offset0, count0, xs, offset, count) && count > 0
    requires EntryAt(cfg, img, offset, info, kids)
    ensures Here(cfg, img, offset0, count0, xs + [(info, kids)], offset + RecordSize(info), count - RecordSize(info))
  {
    hide Listed, EntryAt, RecordSize, Chain;
    var next, left, ys := offset + RecordSize(info), count - RecordSize(info), xs + [(info, kids)];
    forall t | Listed(cfg, img, next, left, t)
      ensures Listed(cfg, img, offset0, count0, Chain(ys, t))
    {
      ListedUnfold(cfg, img, offset, count, Node(info, kids, t));
      ChainLast(xs, info, kids, t);
    }
    forall t | Listed(cfg, img, offset0, count0, t)
      ensures Rest(cfg, img, ys, next, left, t)
    {
      assert Rest(cfg, img, xs, offset, count, t);
      var r :| t == Chain(xs, r) && Listed(cfg, img, offset, count, r);
      ListedUnfold(cfg, img, offset, count, r);
      EntryAtOnce(cfg, img, offset, info, kids, r.info, r.child);
      ChainLast(xs, info, kids, r.next);
    }
  }

  lemma HereEnds(cfg: Config, img: seq<byte>, offset0: nat, count0: int, xs: seq<(Info, Tree)>, offset: nat, count: int)
    requires Here(cfg, img, offset0, count0, xs, offset, count) && count <= 0
    ensures Listed(cfg, img, offset0, count0, Chain(xs, Nil))
  {
    assert Listed(cfg, img, offset, count, Nil);
  }

  /** No entry here, or none within the depth: then so with the whole list. */
  lemma HereFails(cfg: Config, img: seq<byte>, offset0: nat, count0: int, xs: seq<(Info, Tree)>, offset: nat,
                  count: int, v: Verdict, depth: nat)
    requires Here(cfg, img, offset0, count0, xs, offset, count) && count > 0 && NoEntry(cfg, img, offset, v, depth)
    ensures NoList(cfg, img, offset0, count0, v, depth)
  {
    hide Listed, EntryAt, RecordSize, Chain;
    forall t | Listed(cfg, img, offset0, count0, t)
      ensures v.Astray? && Height(t) > depth
    {
      assert Rest(cfg, img, xs, offset, count, t);
      var r :| t == Chain(xs, r) && Listed(cfg, img, offset, count, r);
      ListedUnfold(cfg, img, offset, count, r);
      ChainHeight(xs, r);
    }
  }

  /** After such a verdict: no such thing is there, unless it is too deep. */
  ghost predicate NoEntry(cfg: Config, img: seq<byte>, offset: nat, v: Verdict, depth: nat) {
    forall info, child :: EntryAt(cfg, img, offset, info, child) ==> v.Astray? && EntryHeight(info, child) > depth
  }

  ghost predicate NoList(cfg: Config, img: seq<byte>, offset: nat, count: int, v: Verdict, depth: nat) {
    forall t :: Listed(cfg, img, offset, count, t) ==> v.Astray? && Height(t) > depth
  }

  ghost predicate NoInode(cfg: Config, img: seq<byte>, i: Inode, v: Verdict, depth: nat) {
    forall info, child :: Entry(cfg, img, i, info, child) ==> v.Astray? && EntryHeight(info, child) > depth
  }

  function EntryHeight(info: Info, child: Tree): nat {
    if IsDir(info.mode) then 1 + Height(child) else 0
  }

  // ---- marks over a list ----

  /** The marks of xs are m. */
  ghost predicate MarkedTo(img: seq<byte>, offset0: nat, xs: seq<(Info, Tree)>, offset: nat, m: Marks) {
    forall t :: MarksOf(img, offset0, Chain(xs, t)) == Join(m, MarksOf(img, offset, t))
  }

  lemma MarkedNext(img: seq<byte>, offset0: nat, xs: seq<(Info, Tree)>, offset: nat, m: Marks, info: Info, kids: Tree)
    requires MarkedTo(img, offset0, xs, offset, m)
    ensures var behind := offset + RecordSize(info);
            var e := Join(Marks(behind, UNSET, 0), EntryMarks(img, InodeAt(img, offset), info, kids));
            MarkedTo(img, offset0, xs + [(info, kids)], behind, Join(m, e))
  {
    hide RecordSize, Chain, InodeAt, EntryMarks, Join;
    var behind := offset + RecordSize(info);
    var b, e := Marks(behind, UNSET, 0), EntryMarks(img, InodeAt(img, offset), info, kids);
    forall t
      ensures MarksOf(img, offset0, Chain(xs + [(info, kids)], t)) == Join(Join(m, Join(b, e)), MarksOf(img, behind, t))
    {
      var r := MarksOf(img, behind, t);
      ChainLast(xs, info, kids, t);
      assert MarksOf(img, offset, Node(info, kids, t)) == Join(b, Join(e, r));
      JoinLaws(b, e, r);
      JoinLaws(m, Join(b, e), r);
    }
  }

  // ---- blocks ----

  /** How many bytes block k of so many has. */
  function Length(size: nat, k: nat): nat
    requires k * BLKSIZE < size
  {
    if (k + 1) * BLKSIZE < size then BLKSIZE else size - k * BLKSIZE
  }

  ghost predicate NoFile(cfg: Config, img: seq<byte>, offset: nat, size: nat) {
    forall data :: |data| == size ==> !FileAt(cfg, img, offset, data)
  }

  lemma FileFails(cfg: Config, img: seq<byte>, offset: nat, size: nat, k: nat)
    requires size > 0 && k < Blocks(size) && k * BLKSIZE < size
    requires var from, to := BlockStart(img, offset, Blocks(size), k), WordAt(img, offset + 4 * k);
             offset + 4 * k + 4 > |img| || forall p :: |p| == Length(size, k) ==> !Piece(cfg, img, from, to, p)
    ensures NoFile(cfg, img, offset, size)
  {
    hide WordAt, Inflates;
    forall data | |data| == size
      ensures !FileAt(cfg, img, offset, data)
    {
      if FileAt(cfg, img, offset, data) {
        FilePiece(cfg, img, offset, data, k);
      }
    }
  }

  lemma FilePiece(cfg: Config, img: seq<byte>, offset: nat, data: seq<byte>, k: nat)
    requires FileAt(cfg, img, offset, data) && k < Blocks(|data|) && k * BLKSIZE < |data|
    ensures offset + 4 * k + 4 <= |img| && |Chunk(data, k)| == Length(|data|, k)
    ensures Piece(cfg, img, BlockStart(img, offset, Blocks(|data|), k), WordAt(img, offset + 4 * k), Chunk(data, k))
  {
    hide WordAt, Inflates;
    assert PieceAt(cfg, img, offset, data, k);
  }

  /** The first k blocks have been read. */
  ghost predicate ReadTo(cfg: Config, img: seq<byte>, offset: nat, size: nat, k: nat, out: seq<byte>)
    requires size > 0
  {
    forall j: nat :: j < k ==> BlockRead(cfg, img, offset, size, j, out)
  }

  ghost predicate BlockRead(cfg: Config, img: seq<byte>, offset: nat, size: nat, j: nat, out: seq<byte>)
    requires size > 0
  {
    && (j + 1) * BLKSIZE <= |out|
    && Piece(cfg, img, BlockStart(img, offset, Blocks(size), j), WordAt(img, offset + 4 * j),
             out[j * BLKSIZE..(j + 1) * BLKSIZE])
  }

  lemma ReadOne(cfg: Config, img: seq<byte>, offset: nat, size: nat, k: nat, out: seq<byte>, p: seq<byte>)
    requires size > 0 && |out| == k * BLKSIZE && |p| == BLKSIZE && ReadTo(cfg, img, offset, size, k, out)
    requires Piece(cfg, img, BlockStart(img, offset, Blocks(size), k), WordAt(img, offset + 4 * k), p)
    ensures ReadTo(cfg, img, offset, size, k + 1, out + p)
  {
    hide Piece, WordAt, BlockStart;
    var all := out + p;
    forall j: nat | j < k + 1
      ensures BlockRead(cfg, img, offset, size, j, all)
    {
      assert j < k ==> BlockRead(cfg, img, offset, size, j, out);
      assert all[j * BLKSIZE..(j + 1) * BLKSIZE] == if j < k then out[j * BLKSIZE..(j + 1) * BLKSIZE] else p;
    }
  }

  lemma ReadLast(cfg: Config, img: seq<byte>, offset: nat, size: nat, k: nat, out: seq<byte>, p: seq<byte>)
    requires size > 0 && |out| == k * BLKSIZE < size && ReadTo(cfg, img, offset, size, k, out)
    requires size <= (k + 1) * BLKSIZE && |p| == size - k * BLKSIZE && offset + 4 * k + 4 <= |img|
    requires Piece(cfg, img, BlockStart(img, offset, Blocks(size), k), WordAt(img, offset + 4 * k), p)
    ensures FileAt(cfg, img, offset, out + p) && Blocks(size) == k + 1
  {
    hide Piece, WordAt, BlockStart;
    var all := out + p;
    assert Blocks(size) == k + 1;
    forall j: nat | j < k + 1
      ensures PieceAt(cfg, img, offset, all, j)
    {
      assert j < k ==> BlockRead(cfg, img, offset, size, j, out);
      assert Chunk(all, j) == if j < k then out[j * BLKSIZE..(j + 1) * BLKSIZE] else p;
    }
  }

  class Fsck {
    const cfg: Config
    const rom: Rom
    var startDir: nat
    var endDir: nat
    var startData: nat
    var endData: nat

    ghost predicate Valid()
      reads this, rom, rom.buffer
    {
      rom.Valid() && startData <= UNSET
    }

    ghost function Now(): Marks
      reads this
    {
      Marks(endDir, startData, endData)
    }

    constructor (cfg: Config, image: seq<byte>)
      ensures Valid() && this.cfg == cfg && rom.image == image && fresh(rom) && fresh(rom.buffer)
      ensures startDir == UNSET && Now() == NO_MARKS
    {
      this.cfg := cfg;
      rom := new Rom(image);
      startDir, endDir, startData, endData := UNSET, 0, UNSET, 0;
    }

    /** A pointer, if it is in the image. */
    method GetWord(offset: nat) returns (inside: bool, w: nat)
      requires Valid()
      modifies rom`block, rom.buffer
      ensures Valid() && (inside <==> offset + 4 <= |rom.image|) && (inside ==> w == WordAt(rom.image, offset))
    {
      hide GetInt;
      inside, w := offset + 4 <= |rom.image|, 0;
      var b := rom.Get(offset, 4);
      w := GetInt(b, false);
    }

    /** uncompress_block, on what romfs_read shows. */
    method UncompressBlock(from: nat, to: nat) returns (v: Verdict, out: seq<byte>)
      requires Valid()
      modifies rom`block, rom.buffer
      ensures Valid() && (v.Passed? ==> Inflates(cfg, rom.image, from, to, out))
      ensures !v.Passed? ==> forall p :: !Inflates(cfg, rom.image, from, to, p)
    {
      out := [];
      if to - from > 2 * BLKSIZE {
        return Failed, [];
      }
      if to < from || to > |rom.image| {
        return Astray, [];
      }
      var b := rom.Get(from, to - from);
      match cfg.z.inflate(b) {
        case None => v := Failed;
        case Some(p) => v, out := if |p| <= 2 * BLKSIZE then Passed else Failed, p;
      }
    }

    /** The body of do_uncompress's loop: a block, or a hole. */
    method OneBlock(from: nat, to: nat, left: nat) returns (v: Verdict, out: seq<byte>)
      requires Valid() && left > 0
      modifies rom`block, rom.buffer
      ensures Valid()
      ensures v.Passed? ==> Piece(cfg, rom.image, from, to, out) && |out| == Min(left, BLKSIZE) && from <= to
      ensures !v.Passed? ==> forall p :: |p| == Min(left, BLKSIZE) ==> !Piece(cfg, rom.image, from, to, p)
    {
      hide Inflates;
      v := Passed;
      if from == to {
        out := Zeros(if left < BLKSIZE then left else BLKSIZE);
      } else {
        v, out := UncompressBlock(from, to);
        if v.Passed? {
          InflatesForward(cfg, rom.image, from, to, out);
          forall p | Inflates(cfg, rom.image, from, to, p)
            ensures p == out
          {
            InflatesOnce(cfg, rom.image, from, to, p, out);
          }
          if left >= BLKSIZE {
            v := if |out| != BLKSIZE then Failed else Passed;
          } else {
            v := if |out| != left then Failed else Passed;
          }
        }
      }
    }

    /** do_uncompress: the bytes of a file. */
    method DoUncompress(offset: nat, size: nat) returns (v: Verdict, out: seq<byte>)
      requires Valid() && size > 0
      modifies this`endData, rom`block, rom.buffer
      ensures Valid()
      ensures v.Passed? ==> |out| == size && FileAt(cfg, rom.image, offset, out)
      ensures v.Passed? ==> endData == Max(old(endData), WordAt(rom.image, offset + 4 * (Blocks(size) - 1)))
      ensures !v.Passed? ==> NoFile(cfg, rom.image, offset, size)
    {
      hide WordAt, Piece, FileAt, ReadTo, NoFile;
      LastBlock(size);
      var blocks := (size + BLKSIZE - 1) / BLKSIZE;
      assert blocks == Blocks(size);
      var at, curr, left, k := offset, offset + 4 * blocks, size, 0;
      v, out := Passed, [];
      assert ReadTo(cfg, rom.image, offset, size, 0, []) by { NothingRead(cfg, rom.image, offset, size); }
      while true
        invariant Valid() && 0 <= k < blocks && left == size - k * BLKSIZE > 0 && |out| == k * BLKSIZE
        invariant at == offset + 4 * k && curr == BlockStart(rom.image, offset, blocks, k)
        invariant ReadTo(cfg, rom.image, offset, size, k, out)
        invariant endData == if k == 0 then old(endData) else Max(old(endData), curr)
        decreases blocks - k
      {
        var inside, next := GetWord(at);
        if !inside {
          FileFails(cfg, rom.image, offset, size, k);
          return Astray, [];
        }
        if next > endData {
          endData := next;
        }
        at := at + 4;
        var piece;
        v, piece := OneBlock(curr, next, left);
        if !v.Passed? {
          FileFails(cfg, rom.image, offset, size, k);
          return;
        }
        if left <= BLKSIZE {
          ReadLast(cfg, rom.image, offset, size, k, out, piece);
        } else {
          ReadOne(cfg, rom.image, offset, size, k, out, piece);
        }
        left := left - |piece|;
        out, curr, k := out + piece, next, k + 1;
        if left == 0 {
          break;
        }
      }
    }

    /** do_file. */
    method DoFile(i: Inode) returns (v: Verdict, data: seq<byte>)
      requires Valid() && InodeOk(i)
      modifies this`startData, this`endData, rom`block, rom.buffer
      ensures Valid() && (v.Passed? ==> RegAt(cfg, rom.image, i, data))
      ensures v.Passed? ==> Now() == Join(old(Now()), FileMarks(rom.image, i))
      ensures !v.Passed? ==> forall d :: !RegAt(cfg, rom.image, i, d)
    {
      hide FileAt, WordAt;
      var offset := i.offset * 4;
      v, data := Passed, [];
      if offset == 0 && i.size != 0 {
        return Failed, [];
      }
      if i.size == 0 && offset != 0 {
        return Failed, [];
      }
      if offset != 0 && offset < startData {
        startData := offset;
      }
      if i.size != 0 {
        v, data := DoUncompress(offset, i.size);
      }
    }

    /** do_symlink: one block, which is not a hole. */
    method DoSymlink(i: Inode) returns (v: Verdict, target: seq<byte>)
      requires Valid() && InodeOk(i)
      modifies this`startData, this`endData, rom`block, rom.buffer
      ensures Valid() && (v.Passed? ==> LinkAt(cfg, rom.image, i, target))
      ensures v.Passed? ==> Now() == Join(old(Now()), Marks(0, 4 * i.offset, WordAt(rom.image, 4 * i.offset)))
      ensures !v.Passed? ==> forall d :: !LinkAt(cfg, rom.image, i, d)
    {
      hide Inflates, WordAt;
      var offset := i.offset * 4;
      var curr := offset + 4;
      var inside, next := GetWord(offset);
      if !inside {
        return Astray, [];
      }
      if offset == 0 {
        return Failed, [];
      }
      if i.size == 0 {
        return Failed, [];
      }
      if offset < startData {
        startData := offset;
      }
      if next > endData {
        endData := next;
      }
      v, target := UncompressBlock(curr, next);
      if v.Passed? {
        forall d | Inflates(cfg, rom.image, curr, next, d)
          ensures d == target
        {
          InflatesOnce(cfg, rom.image, curr, next, d, target);
        }
        v := if |target| != i.size then Failed else Passed;
      }
    }

    /** do_special_inode. */
    method DoSpecial(i: Inode) returns (v: Verdict)
      ensures v == if SpecialAt(i) then Passed else Failed
    {
      if i.offset != 0 {
        return Failed;
      }
      if IsDevice(i.mode) {
        v := Passed;
      } else if IsPipeOrSocket(i.mode) {
        v := if i.size != 0 then Failed else Passed;
      } else {
        v := Failed;
      }
    }

    /** expand_fs: an entry's data, and what is below it. */
    method ExpandFs(i: Inode, depth: nat) returns (v: Verdict, data: seq<byte>, kids: Tree)
      requires Valid() && InodeOk(i)
      modifies this, rom`block, rom.buffer
      ensures Valid() && startDir <= old(startDir)
      ensures v.Passed? ==> LeadsTo(cfg, rom.image, i, data, kids)
      ensures v.Passed? ==> Now() == Join(old(Now()), InodeMarks(rom.image, i, data, kids))
      ensures !v.Passed? ==> NoInode(cfg, rom.image, i, v, depth)
      decreases depth, 0
    {
      hide Listed, RegAt, LinkAt, SpecialAt, MarksOf, Join, WordAt;
      data, kids := [], Nil;
      ghost var was := Now();
      JoinLaws(was, NO_MARKS, NO_MARKS);
      if IsDir(i.mode) {
        if depth == 0 {
          return Astray, [], Nil;
        }
        v, kids := DoDirectory(i, depth - 1);
      } else if IsReg(i.mode) {
        v, data := DoFile(i);
        if v.Passed? {
          MarksOfFile(cfg, rom.image, i, data);
        }
      } else if IsLink(i.mode) {
        v, data := DoSymlink(i);
      } else {
        v := DoSpecial(i);
      }
      forall info, child | !v.Passed? && Entry(cfg, rom.image, i, info, child)
        ensures v.Astray? && EntryHeight(info, child) > depth
      {
        assert IsDir(i.mode) ==> DirAt(cfg, rom.image, i, child);
      }
    }

    /** The body of do_directory's loop: one entry, with its name. */
    method OneEntry(offset: nat, depth: nat) returns (v: Verdict, size: nat, info: Info, kids: Tree)
      requires Valid() && startDir <= offset
      modifies this, rom`block, rom.buffer
      ensures Valid() && startDir <= old(startDir)
      ensures v.Passed? ==> EntryAt(cfg, rom.image, offset, info, kids) && size == RecordSize(info)
      ensures v.Passed? ==>
                var e := EntryMarks(rom.image, InodeAt(rom.image, offset), info, kids);
                Now() == Join(old(Now()), Join(Marks(offset + size, UNSET, 0), e))
      ensures !v.Passed? ==> NoEntry(cfg, rom.image, offset, v, depth)
      decreases depth, 1
    {
      hide Entry, DecodeInode, StrLen, Join, EntryMarks;
      v, size, info, kids := Astray, 0, Info([], 0, 0, 0, [], 0), Nil;
      if offset + INODE_SIZE > |rom.image| {
        return;
      }
      var head := rom.Get(offset, INODE_SIZE);
      var i := DecodeInode(head);
      var newlen := i.namelen * 4;
      size := INODE_SIZE + newlen;
      if offset + size > |rom.image| {
        return;
      }
      var name := rom.Get(offset + INODE_SIZE, newlen);
      if newlen == 0 {
        v := Failed;
        return;
      }
      if newlen - StrLen(name) > 3 {
        v := Failed;
        return;
      }
      ghost var was := Now();
      var data;
      v, data, kids := ExpandFs(i, depth);
      info := InfoOf(name[..StrLen(name)], i, data);
      if v.Passed? {
        v := if offset + size <= startDir then Failed else Passed;
        ghost var below := Now();
        if offset + size > endDir {
          endDir := offset + size;
        }
        EntrySize(cfg, rom.image, offset, info, kids);
        MarksOfName(rom.image, i, info.name, data, kids);
        Raised(below, offset + size);
        JoinThree(was, InodeMarks(rom.image, i, data, kids), Marks(offset + size, UNSET, 0));
      }
    }

    /** The loop of do_directory. */
    method Entries(size: nat, offset0: nat, depth: nat) returns (v: Verdict, found: Tree)
      requires Valid() && (size > 0 ==> startDir <= offset0)
      modifies this, rom`block, rom.buffer
      ensures Valid() && startDir <= old(startDir)
      ensures v.Passed? ==> Listed(cfg, rom.image, offset0, size, found)
      ensures v.Passed? ==> Now() == Join(old(Now()), MarksOf(rom.image, offset0, found))
      ensures !v.Passed? ==> NoList(cfg, rom.image, offset0, size, v, depth)
      decreases depth, 2
    {
      hide Here, Listed, EntryAt, MarkedTo, MarksOf, Join, Chain, NoEntry, NoList, RecordSize;
      var count: int, offset := size, offset0;
      var xs: seq<(Info, Tree)> := [];
      ghost var was, done := Now(), NO_MARKS;
      HereStarts(cfg, rom.image, offset0, size);
      MarkedStarts(rom.image, offset0);
      JoinLaws(was, NO_MARKS, NO_MARKS);
      while count > 0
        invariant Valid() && startDir <= old(startDir) && (count > 0 ==> startDir <= offset0 <= offset)
        invariant Here(cfg, rom.image, offset0, size, xs, offset, count)
        invariant MarkedTo(rom.image, offset0, xs, offset, done) && Now() == Join(was, done)
        decreases count
      {
        var n, info, kids;
        v, n, info, kids := OneEntry(offset, depth);
        if !v.Passed? {
          HereFails(cfg, rom.image, offset0, size, xs, offset, count, v, depth);
          return v, Nil;
        }
        HereNext(cfg, rom.image, offset0, size, xs, offset, count, info, kids);
        MarkedNext(rom.image, offset0, xs, offset, done, info, kids);
        ghost var e := Join(Marks(offset + n, UNSET, 0), EntryMarks(rom.image, InodeAt(rom.image, offset), info, kids));
        JoinLaws(was, done, e);
        RecordPositive(info);
        count, offset, xs, done := count - n, offset + n, xs + [(info, kids)], Join(done, e);
      }
      HereEnds(cfg, rom.image, offset0, size, xs, offset, count);
      MarkedEnds(rom.image, offset0, xs, offset, done);
      JoinLaws(was, done, NO_MARKS);
      JoinLaws(Now(), NO_MARKS, NO_MARKS);
      v, found := Passed, Chain(xs, Nil);
    }

    /** do_directory: the entries of a directory. */
    method DoDirectory(i: Inode, depth: nat) returns (v: Verdict, found: Tree)
      requires Valid()
      modifies this, rom`block, rom.buffer
      ensures Valid() && startDir <= old(startDir)
      ensures v.Passed? ==> DirAt(cfg, rom.image, i, found)
      ensures v.Passed? ==> Now() == Join(old(Now()), MarksOf(rom.image, 4 * i.offset, found))
      ensures !v.Passed? ==> forall t :: DirAt(cfg, rom.image, i, t) ==> v.Astray? && Height(t) > depth
      decreases depth, 3
    {
      hide Listed, Join, MarksOf;
      var offset := i.offset * 4;
      if offset == 0 && i.size != 0 {
        return Failed, Nil;
      }
      if offset != 0 && offset < startDir {
        startDir := offset;
      }
      v, found := Entries(i.size, offset, depth);
    }
  }

  // ---- what an inode leads to ----

  ghost predicate DirAt(cfg: Config, img: seq<byte>, i: Inode, t: Tree) {
    (i.offset == 0 ==> i.size == 0) && Listed(cfg, img, 4 * i.offset, i.size, t)
  }

  function InfoOf(name: seq<byte>, i: Inode, data: seq<byte>): Info {
    Info(name, i.mode, i.uid, i.gid, data, if IsDevice(i.mode) then i.size else 0)
  }

  ghost predicate LeadsTo(cfg: Config, img: seq<byte>, i: Inode, data: seq<byte>, kids: Tree) {
    forall name :: Entry(cfg, img, i, InfoOf(name, i, data), kids)
  }

  function FileMarks(img: seq<byte>, i: Inode): Marks {
    if i.size == 0 then NO_MARKS else Marks(0, 4 * i.offset, WordAt(img, 4 * i.offset + 4 * (Blocks(i.size) - 1)))
  }

  function InodeMarks(img: seq<byte>, i: Inode, data: seq<byte>, kids: Tree): Marks {
    EntryMarks(img, i, InfoOf([], i, data), kids)
  }

  lemma MarksOfFile(cfg: Config, img: seq<byte>, i: Inode, data: seq<byte>)
    requires IsReg(i.mode) && RegAt(cfg, img, i, data)
    ensures DataMarks(img, i, InfoOf([], i, data)) == FileMarks(img, i)
  {
  }

  lemma MarksOfName(img: seq<byte>, i: Inode, name: seq<byte>, data: seq<byte>, kids: Tree)
    ensures EntryMarks(img, i, InfoOf(name, i, data), kids) == InodeMarks(img, i, data, kids)
  {
  }

  lemma Raised(m: Marks, end: nat)
    requires m.startData <= UNSET
    ensures Join(m, Marks(end, UNSET, 0)) == m.(endDir := Max(m.endDir, end))
  {
  }

  lemma JoinThree(a: Marks, b: Marks, c: Marks)
    ensures Join(Join(a, b), c) == Join(a, Join(c, b))
  {
    hide Join;
    JoinLaws(a, b, c);
    JoinLaws(b, c, c);
  }

  lemma MarkedStarts(img: seq<byte>, offset: nat)
    ensures MarkedTo(img, offset, [], offset, NO_MARKS)
  {
    hide MarksOf;
    forall t
      ensures MarksOf(img, offset, Chain([], t)) == Join(NO_MARKS, MarksOf(img, offset, t))
    {
      MarksBelow(img, offset, t);
      JoinLaws(MarksOf(img, offset, t), NO_MARKS, NO_MARKS);
    }
  }

  lemma {:induction false} MarksBelow(img: seq<byte>, offset: nat, t: Tree)
    ensures MarksOf(img, offset, t).startData <= UNSET
    decreases t
  {
    hide InodeAt, DataMarks;
    if t.Node? {
      MarksBelow(img, offset + RecordSize(t.info), t.next);
    }
  }

  lemma MarkedEnds(img: seq<byte>, offset0: nat, xs: seq<(Info, Tree)>, offset: nat, m: Marks)
    requires MarkedTo(img, offset0, xs, offset, m)
    ensures MarksOf(img, offset0, Chain(xs, Nil)) == Join(m, NO_MARKS)
  {
    assert MarksOf(img, offset, Nil) == NO_MARKS;
  }

  lemma RecordPositive(info: Info)
    ensures RecordSize(info) > 0
  {
  }

  lemma NothingRead(cfg: Config, img: seq<byte>, offset: nat, size: nat)
    requires size > 0
    ensures ReadTo(cfg, img, offset, size, 0, [])
  {
  }

  lemma InflatesForward(cfg: Config, img: seq<byte>, from: nat, to: nat, p: seq<byte>)
    requires Inflates(cfg, img, from, to, p)
    ensures from <= to
  {
  }
}
