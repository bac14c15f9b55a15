/**
 cramfsck from its first test to its last: the superblock, the checksum, the root directory, the
 whole tree, and the borders between directories and data. It passes an image exactly if all that
 is in order, and it passes every image that mkcramfs made.
 */
module CramfsRoundTrip {
  import opened Bytes
  import opened CramfsTree
  import opened CramfsDirectory
  import opened CramfsRecords
  import opened CramfsData
  import opened CramfsWrite
  import opened CramfsImage
  import opened CramfsFormat
  import opened CramfsMade
  import opened CramfsCheck

  const SUPPORTED_LIMIT := 0x800        // no flag from this bit on is supported

  /** The fields of a superblock that are looked at. */
  datatype Found = Found(magic: nat, size: nat, flags: nat, crc: nat, files: nat, root: Inode)

  function Fields(b: seq<byte>): Found
    requires |b| == SUPER_SIZE
  {
    Found(GetInt(b[0..4], false), GetInt(b[4..8], false), GetInt(b[8..12], false),
          GetInt(b[32..36], false), GetInt(b[44..48], false), DecodeInode(b[64..76]))
  }

  predicate Version2(flags: nat) { flags % 2 == 1 }

  predicate Shifted(flags: nat) { flags / FLAG_SHIFTED % 2 == 1 }

  /** The superblock of an image, and that none is seen in the space for boot code. */
  lemma FieldsOfImage(cfg: Config, opts: Options, root: Tree, img: seq<byte>, off: map<nat, nat>, sb: Super)
    requires Lawful(cfg.z) && RootOk(root) && Image(cfg, opts, root, img, off, sb)
    ensures PadOf(opts) + SUPER_SIZE <= |img|
    ensures Fields(img[PadOf(opts)..PadOf(opts) + SUPER_SIZE]) == Found(MAGIC, sb.size, sb.flags, sb.crc, sb.files,
            sb.root)
    ensures opts.pad ==> Fields(img[0..SUPER_SIZE]).magic != MAGIC
  {
    hide GetInt, DecodeInode, SuperBytes, Laid, Agrees, Blank, DataIn, DataBegin, Checksum, AllBelow, StartOf;
    hide RootInode;
    SuperFields(sb, SuperBytes(sb));
    if opts.pad {
      assert img[0..SUPER_SIZE][0..4] == img[0..PAD_SIZE][0..4] == [0, 0, 0, 0];
      NoMagic();
    }
  }

  lemma NoMagic()
    ensures GetInt([0, 0, 0, 0], false) == 0
  {
  }

  /** What the flags that mkcramfs sets mean to cramfsck. */
  lemma FlagsRead(cfg: Config, opts: Options, flags: nat)
    requires FlagsOk(cfg, opts, flags)
    ensures flags < SUPPORTED_LIMIT && Version2(flags) && (Shifted(flags) <==> Pad4(InsertedLength(opts)) > 0)
  {
  }

  /** A superblock at start with supported flags and a plausible size, and the image no shorter than it says. */
  predicate Plausible(img: seq<byte>, start: nat, super: Found) {
    && start + SUPER_SIZE <= |img| && super == Fields(img[start..start + SUPER_SIZE])
    && super.magic == MAGIC && super.flags < SUPPORTED_LIMIT && super.size >= BLKSIZE
    && (Version2(super.flags) ==> super.files != 0 && |img| >= super.size)
  }

  predicate HasMagic(img: seq<byte>, start: nat) {
    start + SUPER_SIZE <= |img| && Fields(img[start..start + SUPER_SIZE]).magic == MAGIC
  }

  /** A superblock at the front is preferred to one behind the space for boot code. */
  predicate SuperAt(img: seq<byte>, start: nat, super: Found) {
    Plausible(img, start, super) && (start == 0 || (start == PAD_SIZE && !HasMagic(img, 0)))
  }

  lemma SuperOnce(img: seq<byte>, start: nat, super: Found, start': nat, super': Found)
    requires SuperAt(img, start, super) && SuperAt(img, start', super')
    ensures start == start' && super == super'
  {
    hide Fields;
  }

  /** test_super. */
  method TestSuper(img: seq<byte>) returns (ok: bool, start: nat, super: Found)
    ensures ok ==> SuperAt(img, start, super)
    ensures ok <==> exists at: nat, sb: Found :: SuperAt(img, at, sb)
  {
    hide Fields;
    ok, start, super := false, 0, Found(0, 0, 0, 0, 0, Inode(0, 0, 0, 0, 0, 0));
    if |img| < SUPER_SIZE {
      return;
    }
    super := Fields(img[0..SUPER_SIZE]);
    if super.magic != MAGIC && |img| >= PAD_SIZE + SUPER_SIZE {
      super := Fields(img[PAD_SIZE..PAD_SIZE + SUPER_SIZE]);
      if super.magic == MAGIC {
        start := PAD_SIZE;
      }
    }
    ok := super.magic == MAGIC && super.flags < SUPPORTED_LIMIT && super.size >= BLKSIZE;
    if Version2(super.flags) {
      ok := ok && super.files != 0 && |img| >= super.size;
    }
    assert ok ==> Plausible(img, start, super);
  }

  /** The superblock that mkcramfs wrote is the one that is found. */
  lemma WrittenIsPlausible(cfg: Config, opts: Options, root: Tree, img: seq<byte>, off: map<nat, nat>, sb: Super)
    requires Lawful(cfg.z) && RootOk(root) && Image(cfg, opts, root, img, off, sb)
    ensures Plausible(img, PadOf(opts), Found(MAGIC, sb.size, sb.flags, sb.crc, sb.files, sb.root))
    ensures HasMagic(img, 0) <==> !opts.pad
  {
    hide Fields, Laid, Agrees, Blank, DataIn, DataBegin, Checksum, AllBelow, StartOf, RootInode, Stands, SuperBytes;
    FieldsOfImage(cfg, opts, root, img, off, sb);
    FlagsRead(cfg, opts, sb.flags);
  }

  predicate CrcOk(crc: seq<byte> -> nat, img: seq<byte>, start: nat, super: Found)
    requires SuperAt(img, start, super) && Version2(super.flags)
  {
    crc(ZeroCrc(img[..super.size], start)[start..]) % WORD == super.crc
  }

  /**
   test_crc: over everything from the superblock on, with the checksum itself taken as zero. An image in the old format
   has no checksum; it passes in the build that includes the tests of the file system, and fails in the other.
   */
  method TestCrc(crc: seq<byte> -> nat, img: seq<byte>, start: nat, super: Found, tests: bool) returns (ok: bool)
    requires SuperAt(img, start, super)
    ensures ok <==> if Version2(super.flags) then CrcOk(crc, img, start, super) else tests
  {
    if !Version2(super.flags) {
      return tests;
    }
    var buf := img[..super.size];
    var zeroed := buf[..start + 32] + PutInt(0, false) + buf[start + 36..];
    ok := crc(zeroed[start..]) % WORD == super.crc;
  }

  lemma ImageSizes(cfg: Config, opts: Options, root: Tree, img: seq<byte>, off: map<nat, nat>, sb: Super)
    requires Lawful(cfg.z) && RootOk(root) && Image(cfg, opts, root, img, off, sb)
    ensures PadOf(opts) + SUPER_SIZE <= |img| == sb.size && img[..sb.size] == img && Version2(sb.flags)
    ensures opts.crc(ZeroCrc(img, PadOf(opts))[PadOf(opts)..]) % WORD == sb.crc && InsertedIn(opts, img)
  {
    hide Laid, Agrees, Blank, DataIn, DataBegin, AllBelow, StartOf, RootInode, Stands, SuperBytes, ZeroCrc;
    FlagsRead(cfg, opts, sb.flags);
  }

  // ---- the tree and its borders ----

  /** Data begin behind the superblock and where the directories end, and end in the image. */
  predicate BordersOk(m: Marks, start: nat, super: Found) {
    && (m.startData != UNSET ==> m.startData >= SUPER_SIZE + start && m.endDir == m.startData)
    && (Version2(super.flags) ==> m.endData <= super.size)
  }

  /** The root is a directory in its place, t is what it describes, and its borders are in order. */
  ghost predicate Accepted(cfg: Config, img: seq<byte>, start: nat, super: Found, t: Tree) {
    var offset := 4 * super.root.offset;
    && IsDir(super.root.mode) && (Shifted(super.flags) || offset == SUPER_SIZE || offset == PAD_SIZE + SUPER_SIZE)
    && DirAt(cfg, img, super.root, t) && BordersOk(MarksOf(img, offset, t), start, super)
  }

  /** test_fs: the walk from the root, and the borders it found. */
  method TestFs(fsck: Fsck, start: nat, super: Found, depth: nat) returns (v: Verdict, found: Tree)
    requires fsck.Valid() && fsck.startDir == UNSET && fsck.Now() == NO_MARKS
    modifies fsck, fsck.rom`block, fsck.rom.buffer
    ensures v.Passed? ==> Accepted(fsck.cfg, fsck.rom.image, start, super, found)
    ensures !v.Passed? ==> forall t :: Accepted(fsck.cfg, fsck.rom.image, start, super, t) ==>
                                         v.Astray? && Height(t) > depth
  {
    hide Listed, MarksOf;
    var offset := super.root.offset * 4;
    if !IsDir(super.root.mode) {
      return Failed, Nil;
    }
    if !Shifted(super.flags) && offset != SUPER_SIZE && offset != PAD_SIZE + SUPER_SIZE {
      return Failed, Nil;
    }
    v, found := fsck.DoDirectory(super.root, depth);
    if !v.Passed? {
      return;
    }
    forall t | DirAt(fsck.cfg, fsck.rom.image, super.root, t)
      ensures t == found
    {
      ListedOnce(fsck.cfg, fsck.rom.image, offset, super.root.size, t, found);
    }
    MarksBelow(fsck.rom.image, offset, found);
    if fsck.startData != UNSET {
      if fsck.startData < SUPER_SIZE + start {
        return Failed, Nil;
      }
      if fsck.endDir != fsck.startData {
        return Failed, Nil;
      }
    }
    if Version2(super.flags) && fsck.endData > super.size {
      return Failed, Nil;
    }
  }

  /** The image has a superblock, its checksum is right, and it describes the tree t. */
  ghost predicate Passes(crc: seq<byte> -> nat, cfg: Config, img: seq<byte>, t: Tree) {
    exists start: nat, super: Found :: SuperAt(img, start, super) && InOrder(crc, cfg, img, start, super, t)
  }

  ghost predicate InOrder(crc: seq<byte> -> nat, cfg: Config, img: seq<byte>, start: nat, super: Found, t: Tree)
    requires SuperAt(img, start, super)
  {
    (Version2(super.flags) ==> CrcOk(crc, img, start, super)) && Accepted(cfg, img, start, super, t)
  }

  /**
   cramfsck on any image: it passes the image if and only if all is in order, and has then found the tree that the
   image describes; unless it runs out of stack, with directories that lie deeper in each other than that.
   */
  method Cramfsck(crc: seq<byte> -> nat, cfg: Config, img: seq<byte>, depth: nat) returns (v: Verdict, found: Tree)
    ensures v.Passed? ==> Passes(crc, cfg, img, found)
    ensures !v.Passed? ==> forall t :: Passes(crc, cfg, img, t) ==> v.Astray? && Height(t) > depth
  {
    hide Plausible, HasMagic, CrcOk, Accepted;
    var ok, start, super := TestSuper(img);
    if !ok {
      return Failed, Nil;
    }
    forall t | Passes(crc, cfg, img, t)
      ensures InOrder(crc, cfg, img, start, super, t)
    {
      var at: nat, sb: Found :| SuperAt(img, at, sb) && InOrder(crc, cfg, img, at, sb, t);
      SuperOnce(img, start, super, at, sb);
    }
    ok := TestCrc(crc, img, start, super, true);
    if !ok {
      return Failed, Nil;
    }
    var fsck := new Fsck(cfg, img);
    v, found := TestFs(fsck, start, super, depth);
    assert v.Passed? ==> InOrder(crc, cfg, img, start, super, found);
  }

  // ---- images that mkcramfs made ----

  /** What the walk needs to know of the image. */
  lemma ImageContext(cfg: Config, opts: Options, root: Tree, img: seq<byte>, off: map<nat, nat>, sb: Super)
    requires Lawful(cfg.z) && RootOk(root) && Image(cfg, opts, root, img, off, sb)
    ensures Context(cfg, root, img, off, StartOf(opts), StartOf(opts) + AllSize(root.child))
    ensures At(root, img, off, root.child, 1, StartOf(opts), StartOf(opts) + DirSize(root.child),
               StartOf(opts), StartOf(opts) + AllSize(root.child))
    ensures DirSize(root.child) <= AllSize(root.child) && sb.size < UNSET
  {
    hide Infos, Laid, Agrees, Blank, DataIn, DataBegin, AllBelow, RootInode, Stands, SuperBytes, TreeOk, Within;
    hide Checksum, StartOf, DirsOf, AllSizes;
    RootWithin(root);
    StartPositive(opts);
    DirsSize(root.child, 1);
    AlignedSum(StartOf(opts), DirSize(root.child));
    BelowTheTop(sb.size);
  }

  lemma StartPositive(opts: Options)
    ensures StartOf(opts) > 0 && Aligned(StartOf(opts)) && StartOf(opts) >= PadOf(opts) + SUPER_SIZE
    ensures Pad4(InsertedLength(opts)) == 0 ==> StartOf(opts) == SUPER_SIZE || StartOf(opts) == PAD_SIZE + SUPER_SIZE
  {
  }

  lemma BelowTheTop(n: nat)
    requires n < WORD && n % BLKSIZE == 0
    ensures n < UNSET
  {
  }

  /** The smallest offset of data is the end of the directories, if there are data at all. */
  lemma Borders(root: Tree, off: map<nat, nat>, sd: nat, end: nat)
    requires RootOk(root) && LowMark(Infos(root), off, 1, 1 + Count(root.child), sd, end) && end < UNSET
    requires DataBegin(Infos(root), off, end)
    ensures sd == UNSET || (sd == end && root.child.Node?)
  {
    RootWithin(root);
    hide Infos, RootOk, HasData;
    if sd != UNSET {
      var infos := Infos(root);
      var k: nat :| 1 <= k < 1 + Count(root.child) && k < |infos| && HasData(infos[k]);
      var m: nat :| StartsAt(infos, off, m, end);
      assert HasData(infos[m]);
    }
  }

  /** The marks of an image that was made are in order. */
  lemma MadeBorders(cfg: Config, opts: Options, root: Tree, img: seq<byte>, off: map<nat, nat>, sb: Super)
    requires Lawful(cfg.z) && RootOk(root) && Image(cfg, opts, root, img, off, sb)
    ensures BordersOk(MarksOf(img, StartOf(opts), root.child), PadOf(opts), FoundIn(sb))
  {
    hide Infos, Laid, Agrees, Blank, DataIn, DataBegin, AllBelow, Stands, SuperBytes, Checksum, StartOf, TreeOk;
    hide At, Context, AllSize, Count, DirSize, LowMark, MarksOf, DirsOf, AllSizes, RootInode, ZeroCrc;
    var start := StartOf(opts);
    var m, end := MarksOf(img, start, root.child), start + AllSize(root.child);
    ImageContext(cfg, opts, root, img, off, sb);
    StartPositive(opts);
    MadeMarks(cfg, root, img, off, root.child, 1, start, start + DirSize(root.child), start, end);
    DirsSize(root.child, 1);
    ContextEnd(cfg, root, img, off, start, end);
    Borders(root, off, m.startData, end);
  }

  lemma ContextEnd(cfg: Config, root: Tree, img: seq<byte>, off: map<nat, nat>, start: nat, end: nat)
    requires Context(cfg, root, img, off, start, end)
    ensures end < UNSET
  {
  }

  function FoundIn(sb: Super): Found { Found(MAGIC, sb.size, sb.flags, sb.crc, sb.files, sb.root) }

  lemma MadeIsAccepted(cfg: Config, opts: Options, root: Tree, img: seq<byte>, off: map<nat, nat>, sb: Super)
    requires Lawful(cfg.z) && RootOk(root) && Image(cfg, opts, root, img, off, sb)
    ensures Accepted(cfg, img, PadOf(opts), FoundIn(sb), root.child)
  {
    hide Infos, Laid, Agrees, Blank, DataIn, DataBegin, AllBelow, Stands, SuperBytes, Checksum, StartOf, TreeOk;
    hide At, Context, AllSize, MarksOf, BordersOk, Listed, DirSize, ZeroCrc;
    var start := StartOf(opts);
    ImageContext(cfg, opts, root, img, off, sb);
    StartPositive(opts);
    FlagsRead(cfg, opts, sb.flags);
    MadeListed(cfg, root, img, off, root.child, 1, start, start + DirSize(root.child), start,
               start + AllSize(root.child));
    MadeBorders(cfg, opts, root, img, off, sb);
  }

  /** An image that was made passes, with the tree it was made of. */
  lemma MadePasses(cfg: Config, opts: Options, root: Tree, img: seq<byte>, off: map<nat, nat>, sb: Super)
    requires Lawful(cfg.z) && RootOk(root) && Image(cfg, opts, root, img, off, sb)
    ensures Passes(opts.crc, cfg, img, root.child)
  {
    hide Image, Accepted, ZeroCrc, Plausible;
    WrittenIsPlausible(cfg, opts, root, img, off, sb);
    ImageSizes(cfg, opts, root, img, off, sb);
    MadeIsAccepted(cfg, opts, root, img, off, sb);
    assert SuperAt(img, PadOf(opts), FoundIn(sb));
    assert InOrder(opts.crc, cfg, img, PadOf(opts), FoundIn(sb), root.child);
  }

  lemma PassesOnce(crc: seq<byte> -> nat, cfg: Config, img: seq<byte>, s: Tree, t: Tree)
    requires Passes(crc, cfg, img, s) && Passes(crc, cfg, img, t)
    ensures s == t
  {
    hide SuperAt, CrcOk, Listed, MarksOf, BordersOk;
    var a: nat, x: Found :| SuperAt(img, a, x) && InOrder(crc, cfg, img, a, x, s);
    var b: nat, y: Found :| SuperAt(img, b, y) && InOrder(crc, cfg, img, b, y, t);
    SuperOnce(img, a, x, b, y);
    ListedOnce(cfg, img, 4 * x.root.offset, x.root.size, s, t);
  }

  /**
   Whatever tree mkcramfs makes an image of, cramfsck passes that image and finds the same tree in it: every name,
   mode, owner, device number and link, and every byte of every file, also of those whose data are shared. Its stack
   must be deep enough for the directories of the tree.
   */
  method MakeAndCheck(cfg: Config, opts: Options, root: Tree, depth: nat)
    returns (image: Option<seq<byte>>, ok: bool, found: Tree)
    requires Lawful(cfg.z) && RootOk(root) && StartOf(opts) < OFFSET_LIMIT
    ensures image.Some? ==> (ok ==> found == root.child) && (Height(root.child) <= depth ==> ok)
    ensures image.Some? ==> |image.value| <= Estimate(opts, root.child) && InsertedIn(opts, image.value)
    ensures image.None? ==> StartOf(opts) + AllSize(root.child) + Allowance(root.child) >= OFFSET_LIMIT
                            || Estimate(opts, root.child) > MAXFSLEN
  {
    hide Image, StartOf, Estimate, AllSize, Allowance, Passes, Height, InsertedIn, TreeOk;
    ok, found := false, Nil;
    var tooBig, noSpace;
    ghost var off: map<nat, nat>, sb: Super;
    image, tooBig, noSpace, off, sb := Mkcramfs(cfg, opts, root);
    if image.Some? {
      MadePasses(cfg, opts, root, image.value, off, sb);
      ImageSizes(cfg, opts, root, image.value, off, sb);
      var v;
      v, found := Cramfsck(opts.crc, cfg, image.value, depth);
      ok := v.Passed?;
      if ok {
        PassesOnce(opts.crc, cfg, image.value, found, root.child);
      }
    }
  }
}
