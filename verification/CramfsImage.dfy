/**
 mkcramfs: the whole image. Boot code space, superblock, an inserted image, the directory
 structure and the data, rounded up to whole blocks, with a checksum over all but the boot
 code space.
 */
module CramfsImage {
  import opened Bytes
  import opened CramfsTree
  import opened CramfsDirectory
  import opened CramfsRecords
  import opened CramfsData
  import opened CramfsWrite

  const MAGIC := 0x28cd3d45
  const PAD_SIZE := 512
  const FLAGS := 3                      // fsid version 2, sorted directories
  const FLAG_HOLES := 0x100
  const FLAG_SHIFTED := 0x400
  const MAXFSLEN := 0x3ff_ffff * 4 + SIZE_LIMIT - 1 + SIZE_LIMIT * 4 / BLKSIZE
  const WORD := 0x1_0000_0000

  type Sixteen = s: seq<byte> | |s| == 16 witness seq(16, _ => 0)

  const SIGNATURE: Sixteen := [67, 111, 109, 112, 114, 101, 115, 115, 101, 100, 32, 82, 79, 77, 70, 83]

  /** crc32 over some bytes, as the tools use it. */
  datatype Options = Options(pad: bool, inserted: Option<seq<byte>>, edition: nat, name: Sixteen, crc: seq<byte> -> nat)

  datatype Super = Super(size: nat, flags: nat, crc: nat, edition: nat, blocks: nat, files: nat, name: Sixteen,
      root: Inode)

  predicate SuperOk(s: Super) {
    && s.size < WORD && s.flags < WORD && s.crc < WORD && s.edition < WORD && s.blocks < WORD && s.files < WORD
    && InodeOk(s.root)
  }

  function Head(s: Super): (b: seq<byte>)
    requires SuperOk(s)
    ensures |b| == 32
  {
    PutInt(MAGIC, false) + PutInt(s.size, false) + PutInt(s.flags, false) + PutInt(0, false) + SIGNATURE
  }

  function Foot(s: Super): (b: seq<byte>)
    requires SuperOk(s)
    ensures |b| == 40
  {
    PutInt(s.edition, false) + PutInt(s.blocks, false) + PutInt(s.files, false) + s.name + EncodeInode(s.root)
  }

  function SuperBytes(s: Super): (b: seq<byte>)
    requires SuperOk(s)
    ensures |b| == SUPER_SIZE
  {
    Head(s) + PutInt(s.crc, false) + Foot(s)
  }

  // ---- sizes ----

  function RoundUp(n: nat): (r: nat)
    requires n > 0
    ensures n <= r < n + BLKSIZE && r % BLKSIZE == 0
  {
    (n - 1) / BLKSIZE * BLKSIZE + BLKSIZE
  }

  lemma RoundUpMonotone(a: nat, b: nat)
    requires 0 < a <= b
    ensures RoundUp(a) <= RoundUp(b)
  {
  }

  function PadOf(opts: Options): nat { if opts.pad then PAD_SIZE else 0 }

  function InsertedLength(opts: Options): nat { if opts.inserted.None? then 0 else |opts.inserted.value| }

  /** Where the directory structure begins. */
  function StartOf(opts: Options): (r: nat)
    ensures r % 4 == 0
  {
    PadOf(opts) + SUPER_SIZE + Pad4(InsertedLength(opts))
  }

  /** The upper bound that is computed while the tree is read. */
  function Estimate(opts: Options, list: Tree): nat {
    RoundUp(SUPER_SIZE + PadOf(opts) + (if opts.inserted.None? then 0 else |opts.inserted.value| + 3) + AllSize(list)
        + Allowance(list))
  }

  /** The image never gets larger than the estimate. */
  lemma EstimateHolds(opts: Options, list: Tree, area: nat)
    requires area <= Allowance(list)
    ensures RoundUp(StartOf(opts) + AllSize(list) + area) <= Estimate(opts, list)
  {
    hide RoundUp, AllSize, Allowance;
    var ub := SUPER_SIZE + PadOf(opts) + (if opts.inserted.None? then 0 else |opts.inserted.value| + 3) + AllSize(list)
              + Allowance(list);
    RoundUpMonotone(StartOf(opts) + AllSize(list) + area, ub);
  }

  // ---- the tree ----

  /** The root directory, which has no name, and entries in range. */
  predicate RootOk(root: Tree) {
    && root.Node? && root.next.Nil? && IsDir(root.info.mode)
    && root.info.mode < 0x1_0000 && root.info.uid < 0x1_0000 && root.info.gid < 0x100
    && DirSize(root.child) < SIZE_LIMIT && TreeOk(root.child)
  }

  function RootInode(root: Tree, offset: nat): (i: Inode)
    requires RootOk(root) && offset < OFFSET_LIMIT
    ensures InodeOk(i)
  {
    Inode(root.info.mode, root.info.uid, DirSize(root.child), root.info.gid, 0, offset / 4)
  }

  /** What the superblock says, but for the checksum. */
  function SuperOf(cfg: Config, opts: Options, root: Tree, total: nat, blocks: nat, crc: nat): (s: Super)
    requires RootOk(root) && StartOf(opts) < OFFSET_LIMIT && total < WORD && crc < WORD && Count(root) < WORD
    ensures SuperOk(s)
  {
    Super(total, FLAGS + (if cfg.holes then FLAG_HOLES else 0)
        + (if Pad4(InsertedLength(opts)) > 0 then FLAG_SHIFTED else 0),
          crc, opts.edition % WORD, blocks % WORD, Count(root), opts.name, RootInode(root, StartOf(opts)))
  }

  lemma {:induction false} CountBound(t: Tree)
    ensures 12 * Count(t) <= AllSize(t)
    decreases t
  {
    if t.Node? {
      CountBound(t.child);
      CountBound(t.next);
    }
  }

  // ---- when the directories fit ----

  /** All offsets are below a limit if and only if those of the entry, below it and after it are. */
  lemma BelowParts(t: Tree, id: nat, free: nat, limit: nat)
    requires t.Node?
    ensures AllBelow(DirOffsets(t, id, free), limit) <==>
            && (t.child.Node? ==> free < limit && AllBelow(DirOffsets(t.child, id + 1, free + DirSize(t.child)), limit))
            && AllBelow(DirOffsets(t.next, id + 1 + Count(t.child), free + AllSize(t.child)), limit)
  {
    hide Plus, DirOffsets, AllSize, DirSize, AllBelow;
    OffsetsUnfold(t, id, free);
    var below, rest := DirOffsets(t.child, id + 1, free + DirSize(t.child)),
                                  DirOffsets(t.next, id + 1 + Count(t.child), free + AllSize(t.child));
    PlusKeys(map[id := free], below);
    BelowOne(id, free, limit);
    BelowBoth(map[id := free], below, limit);
    BelowBoth(Plus(map[id := free], below), rest, limit);
  }

  lemma BelowOne(id: nat, free: nat, limit: nat)
    ensures AllBelow(map[id := free], limit) <==> free < limit
  {
    assert id in map[id := free];
  }

  lemma BelowBoth(a: map<nat, nat>, b: map<nat, nat>, limit: nat)
    requires forall d :: d in a ==> d !in b
    ensures AllBelow(Plus(a, b), limit) <==> AllBelow(a, limit) && AllBelow(b, limit)
  {
    assert forall d :: d in a ==> Plus(a, b)[d] == a[d];
    assert forall d :: d in b ==> Plus(a, b)[d] == b[d];
  }

  /** No directory stands behind the end of the structure. */
  lemma {:induction false} OffsetsUpTo(t: Tree, id: nat, free: nat, limit: nat)
    requires free + AllSize(t) - DirSize(t) < limit
    ensures AllBelow(DirOffsets(t, id, free), limit)
    decreases t
  {
    hide DirOffsets, AllBelow;
    if t.Node? {
      BelowParts(t, id, free, limit);
      SizeAtLeast(t.next);
      if t.child.Node? {
        SizeAtLeast(t.child);
        OffsetsUpTo(t.child, id + 1, free + DirSize(t.child), limit);
      }
      OffsetsUpTo(t.next, id + 1 + Count(t.child), free + AllSize(t.child), limit);
    } else {
      NoOffsets(t, id, free, limit);
    }
  }

  lemma NoOffsets(t: Tree, id: nat, free: nat, limit: nat)
    requires t.Nil?
    ensures AllBelow(DirOffsets(t, id, free), limit)
  {
  }

  lemma {:induction false} SizeAtLeast(t: Tree)
    ensures DirSize(t) <= AllSize(t)
    decreases t
  {
    if t.Node? {
      SizeAtLeast(t.next);
    }
  }

  /** If every directory begins below the limit, all of them end not far behind it. */
  lemma {:induction false} EndBound(t: Tree, id: nat, free: nat)
    requires TreeOk(t) && AllBelow(DirOffsets(t, id, free), OFFSET_LIMIT)
    ensures free + AllSize(t) - DirSize(t) <= Max(free, OFFSET_LIMIT + SIZE_LIMIT)
    decreases t
  {
    hide DirOffsets, AllBelow;
    if t.Node? {
      BelowParts(t, id, free, OFFSET_LIMIT);
      if t.child.Node? {
        EndBound(t.child, id + 1, free + DirSize(t.child));
      }
      EndBound(t.next, id + 1 + Count(t.child), free + AllSize(t.child));
    }
  }

  /** What it means that the directories do or do not fit. */
  lemma DirectoriesFit(root: Tree, start: nat, off: map<nat, nat>)
    requires RootOk(root) && start < OFFSET_LIMIT && off == DirOffsets(root.child, 1, start + DirSize(root.child))
    ensures AllBelow(off, OFFSET_LIMIT) ==> start + AllSize(root.child) <= OFFSET_LIMIT + SIZE_LIMIT
    ensures !AllBelow(off, OFFSET_LIMIT) ==> start + AllSize(root.child) >= OFFSET_LIMIT
  {
    hide DirOffsets, AllSize, DirSize, AllBelow;
    if start + AllSize(root.child) < OFFSET_LIMIT {
      OffsetsUpTo(root.child, 1, start + DirSize(root.child), OFFSET_LIMIT);
    }
    if AllBelow(off, OFFSET_LIMIT) {
      EndBound(root.child, 1, start + DirSize(root.child));
    }
  }

  // ---- entries without data and without entries of their own have no offset ----

  ghost predicate KeysOk(infos: seq<Info>, off: map<nat, nat>, t: Tree, id: nat, free: nat) {
    forall k :: k in off && id <= k < id + Count(t) ==>
      k in DirOffsets(t, id, free) || (k < |infos| && HasData(infos[k]))
  }

  /** Entries that are neither have offset zero. */
  ghost predicate Blank(off: map<nat, nat>, t: Tree, id: nat) {
    t.Nil? || (
      && (t.child.Nil? && !HasData(t.info) ==> id !in off)
      && Blank(off, t.child, id + 1)
      && Blank(off, t.next, id + 1 + Count(t.child)))
  }

  lemma {:induction false} BlankOut(root: Tree, off: map<nat, nat>, t: Tree, id: nat, free: nat)
    requires Within(root, t, id) && KeysOk(Infos(root), off, t, id, free)
    ensures Blank(off, t, id)
    decreases t
  {
    hide Within, Infos, KeysOk;
    if t.Node? {
      WithinParts(root, t, id);
      KeysParts(Infos(root), off, t, id, free);
      BlankOut(root, off, t.child, id + 1, free + DirSize(t.child));
      BlankOut(root, off, t.next, id + 1 + Count(t.child), free + AllSize(t.child));
    }
  }

  lemma KeysParts(infos: seq<Info>, off: map<nat, nat>, t: Tree, id: nat, free: nat)
    requires t.Node? && KeysOk(infos, off, t, id, free) && id < |infos| && infos[id] == t.info
    ensures t.child.Nil? && !HasData(t.info) ==> id !in off
    ensures KeysOk(infos, off, t.child, id + 1, free + DirSize(t.child))
    ensures KeysOk(infos, off, t.next, id + 1 + Count(t.child), free + AllSize(t.child))
  {
    hide DirOffsets, Plus, AllSize, DirSize;
    OffsetsInRange(t.child, id + 1, free + DirSize(t.child));
    OffsetsInRange(t.next, id + 1 + Count(t.child), free + AllSize(t.child));
    OffsetsUnfold(t, id, free);
    var own, below := map[id := free], DirOffsets(t.child, id + 1, free + DirSize(t.child));
    PlusKeys(own, below);
    PlusKeys(Plus(own, below), DirOffsets(t.next, id + 1 + Count(t.child), free + AllSize(t.child)));
  }

  lemma PlusKeys(a: map<nat, nat>, b: map<nat, nat>)
    ensures forall k :: k in Plus(a, b) <==> k in a || k in b
  {
  }

  // ---- the image ----

  /** The image with its checksum set to zero. */
  function ZeroCrc(img: seq<byte>, pad: nat): seq<byte>
    requires pad + SUPER_SIZE <= |img|
  {
    img[..pad + 32] + PutInt(0, false) + img[pad + 36..]
  }

  function Checksum(opts: Options, img: seq<byte>): (c: nat)
    requires PadOf(opts) + SUPER_SIZE <= |img|
    ensures c < WORD
  {
    opts.crc(ZeroCrc(img, PadOf(opts))[PadOf(opts)..]) % WORD
  }

  /** The data of every entry that has some stand in the image, behind the directory structure. */
  ghost predicate DataIn(cfg: Config, infos: seq<Info>, img: seq<byte>, off: map<nat, nat>, from: nat)
    requires Lawful(cfg.z)
  {
    forall k: nat :: k < |infos| && HasData(infos[k]) ==>
      k in off && off[k] >= from && DataAt(cfg, infos[k], img, 0, off[k])
  }

  /** If any entry has data, the first of them stand at the very end of the directory structure. */
  ghost predicate DataBegin(infos: seq<Info>, off: map<nat, nat>, from: nat) {
    (exists k: nat :: k < |infos| && HasData(infos[k])) ==> exists k: nat :: StartsAt(infos, off, k, from)
  }

  /** The file to be inserted stands behind the superblock, and nothing but zeros between it and the directories. */
  ghost predicate InsertedIn(opts: Options, img: seq<byte>) {
    var at := PadOf(opts) + SUPER_SIZE;
    && (opts.inserted.Some? ==> Stands(img, at, opts.inserted.value))
    && at + InsertedLength(opts) <= StartOf(opts) < at + InsertedLength(opts) + 4 && StartOf(opts) <= |img|
    && forall k :: at + InsertedLength(opts) <= k < StartOf(opts) ==> img[k] == 0
  }

  /** The blocks of all data, those of identical entries counted once. */
  ghost function BlocksOnce(infos: seq<Info>, n: nat): nat
    requires n <= |infos|
  {
    if n == 0 then 0
    else BlocksOnce(infos, n - 1)
         + if HasData(infos[n - 1]) && infos[n - 1].data != [] && First(infos, infos[n - 1], n - 1)
           then Blocks(|infos[n - 1].data|) else 0
  }

  /** An image that holds the tree. */
  ghost predicate Image(cfg: Config, opts: Options, root: Tree, img: seq<byte>, off: map<nat, nat>, sb: Super)
    requires Lawful(cfg.z) && RootOk(root)
  {
    var start := StartOf(opts);
    && SuperOk(sb) && |img| == sb.size && sb.size % BLKSIZE == 0 && sb.size >= BLKSIZE
    && sb.files == Count(root) && start < OFFSET_LIMIT && sb.root == RootInode(root, start)
    && sb.edition == opts.edition % WORD && sb.name == opts.name
    && sb.blocks == BlocksOnce(Infos(root), |Infos(root)|) % WORD
    && InsertedIn(opts, img)
    && FlagsOk(cfg, opts, sb.flags)
    && Stands(img, PadOf(opts), SuperBytes(sb)) && Stands(img, 0, Zeros(PadOf(opts)))
    && sb.crc == Checksum(opts, img)
    && AllBelow(off, OFFSET_LIMIT)
    && Laid(img, root.child, 1, start, off)
    && Agrees(off, root.child, 1, start + DirSize(root.child))
    && Blank(off, root.child, 1)
    && start + AllSize(root.child) <= |img|
    && DataIn(cfg, Infos(root), img, off, start + AllSize(root.child))
    && DataBegin(Infos(root), off, start + AllSize(root.child))
  }

  predicate FlagsOk(cfg: Config, opts: Options, flags: nat) {
    flags == FLAGS + (if cfg.holes then FLAG_HOLES else 0)
             + (if Pad4(InsertedLength(opts)) > 0 then FLAG_SHIFTED else 0)
  }

  /** The fields of the superblock, read back. */
  lemma SuperFields(s: Super, b: seq<byte>)
    requires SuperOk(s) && |b| == SUPER_SIZE && b == SuperBytes(s)
    ensures GetInt(b[0..4], false) == MAGIC && GetInt(b[4..8], false) == s.size && GetInt(b[8..12], false) == s.flags
    ensures b[12..16] == [0, 0, 0, 0] && b[16..32] == SIGNATURE
    ensures GetInt(b[32..36], false) == s.crc && GetInt(b[36..40], false) == s.edition
    ensures GetInt(b[40..44], false) == s.blocks && GetInt(b[44..48], false) == s.files
    ensures b[48..64] == s.name && DecodeInode(b[64..76]) == s.root
  {
    hide PutInt, GetInt, EncodeInode, DecodeInode;
    GetPutInt(MAGIC, false);
    GetPutInt(s.size, false);
    GetPutInt(s.flags, false);
    GetPutInt(s.crc, false);
    GetPutInt(s.edition, false);
    GetPutInt(s.blocks, false);
    GetPutInt(s.files, false);
    HeadFields(s);
    FootFields(s);
    hide Head, Foot;
    assert b[0..32] == Head(s) && b[32..36] == PutInt(s.crc, false) && b[36..76] == Foot(s);
    Sliced(b, 0, Head(s), 0, 4);
    Sliced(b, 0, Head(s), 4, 8);
    Sliced(b, 0, Head(s), 8, 12);
    Sliced(b, 0, Head(s), 12, 16);
    Sliced(b, 0, Head(s), 16, 32);
    Sliced(b, 36, Foot(s), 0, 4);
    Sliced(b, 36, Foot(s), 4, 8);
    Sliced(b, 36, Foot(s), 8, 12);
    Sliced(b, 36, Foot(s), 12, 28);
    Sliced(b, 36, Foot(s), 28, 40);
    DecodeEncode(s.root, EncodeInode(s.root));
  }

  lemma HeadFields(s: Super)
    requires SuperOk(s)
    ensures Head(s)[0..4] == PutInt(MAGIC, false) && Head(s)[4..8] == PutInt(s.size, false)
            && Head(s)[8..12] == PutInt(s.flags, false) && Head(s)[12..16] == [0, 0, 0, 0]
            && Head(s)[16..32] == SIGNATURE
  {
    assert PutInt(0, false) == [0, 0, 0, 0];
    hide PutInt;
  }

  lemma FootFields(s: Super)
    requires SuperOk(s)
    ensures Foot(s)[0..4] == PutInt(s.edition, false) && Foot(s)[4..8] == PutInt(s.blocks, false)
    ensures Foot(s)[8..12] == PutInt(s.files, false) && Foot(s)[12..28] == s.name
    ensures Foot(s)[28..40] == EncodeInode(s.root)
  {
    hide PutInt, EncodeInode;
  }

  /** Setting the checksum field and zeroing it again. */
  lemma ZeroedAgain(pad: seq<byte>, s: Super, rest: seq<byte>, crc: nat)
    requires SuperOk(s) && crc < WORD && s.crc == 0
    ensures ZeroCrc((pad + SuperBytes(s.(crc := crc))) + rest, |pad|) == (pad + SuperBytes(s)) + rest
  {
    hide PutInt, EncodeInode;
    var t := s.(crc := crc);
    assert Head(t) == Head(s) && Foot(t) == Foot(s);
    hide Head, Foot;
    var img := (pad + SuperBytes(t)) + rest;
    assert img[..|pad| + 32] == pad + Head(s);
    assert img[|pad| + 36..] == Foot(s) + rest;
  }

  // ---- putting it together ----

  /** A sequence of parts stands in their concatenation. */
  lemma PartsStand(a: seq<byte>, b: seq<byte>, c: seq<byte>, d: seq<byte>, e: seq<byte>, f: seq<byte>)
    ensures var img := (a + b) + (((c + d) + e) + f);
            && Stands(img, 0, a) && Stands(img, |a|, b) && Stands(img, |a| + |b|, c)
            && Stands(img, |a| + |b| + |c|, d) && Stands(img, |a| + |b| + |c| + |d|, e)
  {
    var img := (a + b) + (((c + d) + e) + f);
    StandsWhole(img);
    hide Stands;
    StandsParts(img, 0, a + b, ((c + d) + e) + f);
    StandsParts(img, 0, a, b);
    StandsParts(img, |a + b|, (c + d) + e, f);
    StandsParts(img, |a + b|, c + d, e);
    StandsParts(img, |a + b|, c, d);
  }

  lemma StandsWhole(img: seq<byte>)
    ensures Stands(img, 0, img)
  {
    assert img[0..|img|] == img;
  }

  /** What stands in the area stands in the image. */
  lemma AreaStands(cfg: Config, i: Info, img: seq<byte>, area: seq<byte>, base: nat, o: nat)
    requires Lawful(cfg.z) && DataAt(cfg, i, area, base, o) && Stands(img, base, area)
    ensures DataAt(cfg, i, img, 0, o)
  {
    hide Blob, Room;
    var blob := Blob(cfg, i.data, o);
    assert area[o - base..o - base + |blob|] == blob;
    StandsSlice(img, base, area, o - base, blob);
  }

  lemma DataInImage(cfg: Config, infos: seq<Info>, same: map<nat, nat>, off: map<nat, nat>, img: seq<byte>,
                    area: seq<byte>, base: nat)
    requires Lawful(cfg.z) && DataOk(cfg, infos, same, off, area, base, |infos|) && Stands(img, base, area)
    ensures DataIn(cfg, infos, img, off, base) && DataBegin(infos, off, base)
  {
    hide Stands, Blob, Room, Original, Sooner, Ends, StartsAt;
    forall k: nat | k < |infos| && HasData(infos[k])
      ensures k in off && off[k] >= base && DataAt(cfg, infos[k], img, 0, off[k])
      ensures area != []
    {
      assert EntryOk(cfg, infos, same, off, area, base, k);
      AreaStands(cfg, infos[k], img, area, base, off[k]);
      AreaNotEmpty(cfg, infos[k], area, base, off[k]);
    }
  }

  lemma AreaNotEmpty(cfg: Config, i: Info, area: seq<byte>, base: nat, o: nat)
    requires Lawful(cfg.z) && DataAt(cfg, i, area, base, o)
    ensures area != []
  {
    BlobSize(cfg, i.data, o);
  }

  /** Directories that are not empty have no data of their own. */
  lemma {:induction false} DirsHaveNoData(root: Tree, t: Tree, id: nat, free: nat)
    requires Within(root, t, id) && TreeOk(t)
    ensures forall d :: d in DirOffsets(t, id, free) ==> d < |Infos(root)| && !HasData(Infos(root)[d])
    decreases t
  {
    hide Within, Infos, AllSize, DirSize, Plus;
    if t.Node? {
      WithinParts(root, t, id);
      var below := DirOffsets(t.child, id + 1, free + DirSize(t.child));
      PlusKeys(map[id := free], below);
      PlusKeys(Plus(map[id := free], below), DirOffsets(t.next, id + 1 + Count(t.child), free + AllSize(t.child)));
      DirsHaveNoData(root, t.child, id + 1, free + DirSize(t.child));
      DirsHaveNoData(root, t.next, id + 1 + Count(t.child), free + AllSize(t.child));
    }
  }

  /** After the data are written, the offsets of the directories are as they were, and nothing else has got one. */
  lemma OffsetsKept(root: Tree, off: map<nat, nat>, free: nat)
    requires RootOk(root) && Extends(Infos(root), DirOffsets(root.child, 1, free), off) && Within(root, root.child, 1)
    ensures Agrees(off, root.child, 1, free) && Blank(off, root.child, 1)
  {
    DirsHaveNoData(root, root.child, 1, free);
    hide DirOffsets, Infos, RootOk;
    assert KeysOk(Infos(root), off, root.child, 1, free);
    BlankOut(root, off, root.child, 1, free);
  }

  lemma RootWithin(root: Tree)
    requires RootOk(root)
    ensures Within(root, root, 0) && Within(root, root.child, 1)
            && Count(root) == 1 + Count(root.child) == |Infos(root)|
    ensures !HasData(Infos(root)[0]) && 12 * Count(root.child) <= AllSize(root.child)
  {
    assert Infos(root)[0..Count(root)] == Infos(root);
    WithinParts(root, root, 0);
    CountBound(root.child);
  }

  /** Nothing is written yet. */
  lemma NoDataYet(cfg: Config, root: Tree, same: map<nat, nat>, off: map<nat, nat>, base: nat)
    requires Lawful(cfg.z) && RootOk(root)
    ensures DataOk(cfg, Infos(root), same, off, [], base, 0)
  {
  }

  lemma NothingSame(root: Tree)
    ensures SameOk(Infos(root), map[], 0)
  {
  }

  lemma SameBackwards(infos: seq<Info>, same: map<nat, nat>, n: nat)
    requires SameOk(infos, same, n)
    ensures Backwards(same)
  {
  }

  /** The directory structure and the data are where they should be. */
  lemma LaidInImage(cfg: Config, opts: Options, root: Tree, off: map<nat, nat>, img: seq<byte>)
    requires RootOk(root) && AllBelow(off, OFFSET_LIMIT) && ItemsOk(Order(root.child, 1))
    requires Stands(img, StartOf(opts), DirBytes(Order(root.child, 1), off))
    requires Agrees(off, root.child, 1, StartOf(opts) + DirSize(root.child))
    ensures Laid(img, root.child, 1, StartOf(opts), off)
  {
    hide DirBytes, Order, Stands, Agrees, StartOf, Laid, ItemsOk, AllBelow;
    OrderStands(img, root.child, 1, StartOf(opts), off);
    LaidOut(img, root.child, 1, StartOf(opts), StartOf(opts) + DirSize(root.child), off);
  }

  /** The bytes of an image with the given checksum. */
  method Assemble(opts: Options, sb: Super, dir: seq<byte>, area: seq<byte>) returns (img: seq<byte>)
    requires SuperOk(sb) && sb.crc == 0
    requires StartOf(opts) + |dir| + |area| <= sb.size
    ensures |img| == sb.size && PadOf(opts) + SUPER_SIZE <= |img|
    ensures var crc := Checksum(opts, img);
            Stands(img, 0, Zeros(PadOf(opts))) && Stands(img, PadOf(opts), SuperBytes(sb.(crc := crc)))
    ensures Stands(img, StartOf(opts), dir) && Stands(img, StartOf(opts) + |dir|, area) && InsertedIn(opts, img)
    ensures forall k :: StartOf(opts) + |dir| + |area| <= k < |img| ==> img[k] == 0
  {
    hide SuperBytes, Stands, SuperOk, ZeroCrc;
    var inserted := if opts.inserted.None? then [] else opts.inserted.value;
    var boot, extra := Zeros(PadOf(opts)), inserted + Zeros(Pad4(|inserted|) - |inserted|);
    var rest := ((extra + dir) + area) + Zeros(sb.size - StartOf(opts) - |dir| - |area|);
    var img0 := (boot + SuperBytes(sb)) + rest;
    var crc := opts.crc(img0[PadOf(opts)..]) % WORD;
    var sb' := WithCrc(sb, crc);
    img := (boot + SuperBytes(sb')) + rest;
    ZeroedAgain(boot, sb, rest, crc);
    PartsStand(boot, SuperBytes(sb'), extra, dir, area, Zeros(sb.size - StartOf(opts) - |dir| - |area|));
    InsertedStands(opts, img, inserted, Pad4(|inserted|) - |inserted|);
  }

  lemma InsertedStands(opts: Options, img: seq<byte>, inserted: seq<byte>, n: nat)
    requires inserted == if opts.inserted.None? then [] else opts.inserted.value
    requires n == Pad4(|inserted|) - |inserted| && Stands(img, PadOf(opts) + SUPER_SIZE, inserted + Zeros(n))
    ensures InsertedIn(opts, img)
  {
    var at := PadOf(opts) + SUPER_SIZE;
    StandsParts(img, at, inserted, Zeros(n));
    forall k | at + |inserted| <= k < StartOf(opts)
      ensures img[k] == 0
    {
      assert img[at + |inserted|..at + |inserted| + n][k - at - |inserted|] == img[k];
    }
  }

  function WithCrc(s: Super, crc: nat): (t: Super)
    requires SuperOk(s) && crc < WORD
    ensures SuperOk(t) && t == s.(crc := crc)
  {
    s.(crc := crc)
  }

  function TotalBlocks(infos: seq<Info>, same: map<nat, nat>, n: nat): nat
    requires n <= |infos|
  {
    if n == 0 then 0
    else TotalBlocks(infos, same, n - 1)
         + if HasData(infos[n - 1]) && n - 1 !in same && |infos[n - 1].data| > 0 then Blocks(|infos[n - 1].data|) else 0
  }

  lemma {:induction false} BlocksCountedOnce(infos: seq<Info>, same: map<nat, nat>, n: nat)
    requires n <= |infos| && SameOk(infos, same, |infos|)
    ensures TotalBlocks(infos, same, n) == BlocksOnce(infos, n)
  {
    hide Blocks;
    if n > 0 {
      BlocksCountedOnce(infos, same, n - 1);
      if HasData(infos[n - 1]) && infos[n - 1].data != [] {
        assert SameAt(infos, same, n - 1);
      }
    }
  }

  /** The data of the whole tree. */
  method WriteAllData(cfg: Config, root: Tree, same: map<nat, nat>, dirs: map<nat, nat>, base: nat)
    returns (off: map<nat, nat>, area: seq<byte>, ok: bool)
    requires Lawful(cfg.z) && RootOk(root) && SameOk(Infos(root), same, |Infos(root)|)
    requires base % 4 == 0 && AllBelow(dirs, OFFSET_LIMIT)
    ensures Extends(Infos(root), dirs, off) && AllBelow(off, OFFSET_LIMIT)
    ensures ok ==> DataOk(cfg, Infos(root), same, off, area, base, |Infos(root)|)
    ensures |area| <= Allowance(root.child) && base + |area| <= Max(base, OFFSET_LIMIT + BLOB_LIMIT)
    ensures !ok ==> base + |area| >= OFFSET_LIMIT
  {
    hide DataOk, SameOk, Within, Infos, Extends, TreeOk, AllBelow, Allowance, Count, Backwards;
    RootWithin(root);
    NoDataYet(cfg, root, same, dirs, base);
    SkipEntry(cfg, Infos(root), same, dirs, [], base, 0);
    SameBackwards(Infos(root), same, |Infos(root)|);
    off, area, ok := WriteData(cfg, root, root.child, 1, same, dirs, [], base);
  }

  /**
   mkcramfs. It gives up when an offset does not fit an inode, or when the space that was set aside, which is the
   estimate unless that was too large, is not enough.
   */
  method Mkcramfs(cfg: Config, opts: Options, root: Tree)
    returns (image: Option<seq<byte>>, tooBig: bool, noSpace: bool, ghost off: map<nat, nat>, ghost sb: Super)
    requires Lawful(cfg.z) && RootOk(root) && StartOf(opts) < OFFSET_LIMIT
    ensures image.Some? <==> !tooBig && !noSpace
    ensures image.Some? ==> Image(cfg, opts, root, image.value, off, sb) && |image.value| <= Estimate(opts, root.child)
    ensures tooBig ==> StartOf(opts) + AllSize(root.child) + Allowance(root.child) >= OFFSET_LIMIT
    ensures noSpace ==> Estimate(opts, root.child) > MAXFSLEN
  {
    hide DataOk, SameOk, Within, Infos, Extends, AllBelow, Allowance, Count, Order, DirOffsets, DirBytes, Sizes;
    hide ItemsOk;
    hide Laid, Agrees, Blank, DataIn, DataBegin, Stands, SuperBytes, Checksum, AllSize, RootInode, TotalBlocks;
    hide BlocksOnce, InsertedIn;
    hide RoundUp, Estimate;
    image, tooBig, noSpace, off, sb := None, true, false, map[],
        Super(0, 0, 0, 0, 0, 0, SIGNATURE, Inode(0, 0, 0, 0, 0, 0));
    var list := root.child;
    RootWithin(root);
    NothingSame(root);
    var same := EliminateDoubles(root, root, 0, map[]);
    var items, dirs, base, ok := WriteDirectoryStructure(list, 1, StartOf(opts));
    OrderSize(list, 1);
    DirectoriesFit(root, StartOf(opts), dirs);
    if !ok {
      return;
    }
    var offs, area, ok2 := WriteAllData(cfg, root, same, dirs, base);
    off := offs;
    if !ok2 {
      return;
    }
    OffsetsKept(root, off, StartOf(opts) + DirSize(list));
    OrderOk(list, 1);
    DirBytesLength(items, offs);
    EstimateHolds(opts, list, |area|);
    RoundUpIs(base + |area|);
    var total := RoundUp(base + |area|);
    BlocksCountedOnce(Infos(root), same, |Infos(root)|);
    var sb0 := SuperOf(cfg, opts, root, total, TotalBlocks(Infos(root), same, |Infos(root)|), 0);
    var img := Assemble(opts, sb0, DirBytes(items, offs), area);
    sb := WithCrc(sb0, Checksum(opts, img));
    DataInImage(cfg, Infos(root), same, off, img, area, base);
    LaidInImage(cfg, opts, root, off, img);
    tooBig := false;
    var ub := Estimate(opts, list);
    if ub > MAXFSLEN {
      ub := MAXFSLEN;
    }
    if ub < total {
      noSpace := true;
      return;
    }
    image := Some(img);
  }

  lemma RoundUpIs(n: nat)
    requires n > 0
    ensures n <= RoundUp(n) < n + BLKSIZE && RoundUp(n) % BLKSIZE == 0 && RoundUp(n) >= BLKSIZE
  {
  }
}
