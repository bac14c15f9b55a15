/**
 An image that mkcramfs made describes the tree that it was made of, and its directories end
 where its data begin.
 */
module CramfsMade {
  import opened Bytes
  import opened CramfsTree
  import opened CramfsDirectory
  import opened CramfsRecords
  import opened CramfsData
  import opened CramfsWrite
  import opened CramfsImage
  import opened CramfsFormat

  // ---- names and inodes ----

  lemma PaddedNameReads(name: seq<byte>)
    requires NoZero(name)
    ensures StrLen(PaddedName(name)) == |name| && PaddedName(name)[..|name|] == name
  {
    var b := PaddedName(name);
    assert b[..|name|] == name;
    assert forall i :: 0 <= i < |name| ==> b[i] == name[i] != 0;
    assert forall i :: 0 <= i < StrLen(b) ==> b[i] == b[..StrLen(b)][i] != 0;
    assert |name| < |b| ==> b[|name|] == 0;
  }

  /** What stands at pos when a record does. */
  lemma RecordReads(img: seq<byte>, pos: nat, i: Info, child: Tree, offset: nat)
    requires InfoOk(i, child) && offset < OFFSET_LIMIT && Stands(img, pos, Record(i, child, offset))
    ensures pos + RecordSize(i) <= |img|
    ensures DecodeInode(img[pos..pos + INODE_SIZE]) == InodeOf(i, child, offset)
    ensures img[pos + INODE_SIZE..pos + INODE_SIZE + Pad4(|i.name|)] == PaddedName(i.name)
  {
    hide EncodeInode, DecodeInode, InodeOf, PaddedName;
    var e := EncodeInode(InodeOf(i, child, offset));
    StandsParts(img, pos, e, PaddedName(i.name));
    DecodeEncode(InodeOf(i, child, offset), e);
  }

  // ---- data ----

  lemma StoredInflates(cfg: Config, c: seq<byte>)
    requires Lawful(cfg.z) && 0 < |c| <= BLKSIZE
    ensures Stored(cfg, c) == [] ==> c == Zeros(|c|)
    ensures Stored(cfg, c) != [] ==> cfg.z.inflate(Stored(cfg, c)) == Some(c) && |Stored(cfg, c)| <= 2 * BLKSIZE
    ensures Stored(cfg, c) == [] <==> cfg.holes && AllZero(c)
    ensures Stored(cfg, c) != [] ==> Stored(cfg, c) == cfg.z.deflate(c)
  {
    assert cfg.z.inflate(cfg.z.deflate(c)) == Some(c) && 0 < |cfg.z.deflate(c)| <= |c| + 26;
  }

  lemma WordStands(img: seq<byte>, p: nat, v: nat)
    requires v < 0x1_0000_0000 && Stands(img, p, PutInt(v, false))
    ensures p + 4 <= |img| && WordAt(img, p) == v
  {
    hide PutInt, GetInt;
    GetPutInt(v, false);
  }

  lemma StandsAt(img: seq<byte>, pos: nat, b: seq<byte>)
    requires Stands(img, pos, b)
    ensures pos + |b| <= |img| && img[pos..pos + |b|] == b
  {
  }

  /** Block k of the data, and the pointer to its end: a hole for zeros, if holes are allowed, or the deflated block. */
  lemma MadePiece(cfg: Config, data: seq<byte>, offset: nat, img: seq<byte>, k: nat)
    requires Lawful(cfg.z) && Room(data, offset) && Stands(img, offset, Blob(cfg, data, offset)) && k < Blocks(|data|)
    ensures k * BLKSIZE < |data| && offset + 4 * k + 4 <= |img|
    ensures WordAt(img, offset + 4 * k) == Start(cfg, data, offset, k + 1) <= |img|
    ensures Piece(cfg, img, Start(cfg, data, offset, k), Start(cfg, data, offset, k + 1), Chunk(data, k))
    ensures var from, to := Start(cfg, data, offset, k), Start(cfg, data, offset, k + 1);
            && from <= to && (from == to <==> cfg.holes && AllZero(Chunk(data, k)))
            && (from < to ==> img[from..to] == cfg.z.deflate(Chunk(data, k)))
    ensures Stored(cfg, Chunk(data, k)) != [] ==>
              Inflates(cfg, img, Start(cfg, data, offset, k), Start(cfg, data, offset, k + 1), Chunk(data, k))
  {
    hide Blob, Stands, Stored, Start, Chunk, PutInt, WordAt;
    BlobPieces(cfg, data, offset, img, k);
    WordStands(img, offset + 4 * k, Start(cfg, data, offset, k + 1));
    StandsAt(img, Start(cfg, data, offset, k), Stored(cfg, Chunk(data, k)));
    StoredInflates(cfg, Chunk(data, k));
  }

  lemma MadeFile(cfg: Config, data: seq<byte>, offset: nat, img: seq<byte>)
    requires Lawful(cfg.z) && Room(data, offset) && Stands(img, offset, Blob(cfg, data, offset))
    ensures FileAt(cfg, img, offset, data) && WordAt(img, offset + 4 * (Blocks(|data|) - 1)) <= |img|
  {
    hide Blob, Stands, Start, Chunk, WordAt, Piece;
    var n := Blocks(|data|);
    LastBlock(|data|);
    FirstStart(cfg, data, offset);
    forall k: nat | k < n
      ensures PieceAt(cfg, img, offset, data, k)
    {
      MadePiece(cfg, data, offset, img, k);
      if k > 0 {
        MadePiece(cfg, data, offset, img, k - 1);
      }
    }
    MadePiece(cfg, data, offset, img, n - 1);
  }

  lemma FirstStart(cfg: Config, data: seq<byte>, offset: nat)
    requires Lawful(cfg.z) && Room(data, offset)
    ensures Start(cfg, data, offset, 0) == offset + 4 * Blocks(|data|)
  {
  }

  lemma MadeLink(cfg: Config, data: seq<byte>, offset: nat, img: seq<byte>)
    requires Lawful(cfg.z) && Room(data, offset) && Stands(img, offset, Blob(cfg, data, offset))
    requires |data| < BLKSIZE && NoZero(data)
    ensures offset + 4 <= |img| && WordAt(img, offset) <= |img|
    ensures Inflates(cfg, img, offset + 4, WordAt(img, offset), data)
  {
    hide Blob, Stands, Start, WordAt, Stored;
    FirstStart(cfg, data, offset);
    MadePiece(cfg, data, offset, img, 0);
    assert Chunk(data, 0) == data && data[0] != 0;
    StoredInflates(cfg, data);
  }

  // ---- the directories ----

  /** What is known of the image as a whole. */
  ghost predicate Context(cfg: Config, root: Tree, img: seq<byte>, off: map<nat, nat>, start: nat, end: nat) {
    && Lawful(cfg.z) && AllBelow(off, OFFSET_LIMIT) && 0 < start <= end <= |img| < UNSET && start < OFFSET_LIMIT
    && DataIn(cfg, Infos(root), img, off, end)
  }

  /** The entries of t stand at pos, their directories from free on, all between start and end. */
  ghost predicate At(root: Tree, img: seq<byte>, off: map<nat, nat>, t: Tree, id: nat, pos: nat, free: nat, start: nat,
                     end: nat) {
    && TreeOk(t) && AllBelow(off, OFFSET_LIMIT) && Within(root, t, id)
    && Laid(img, t, id, pos, off) && Agrees(off, t, id, free) && Blank(off, t, id)
    && start <= pos && pos + DirSize(t) <= end && start <= free && free + AllSizes(DirsOf(t, id)) <= end
    && Aligned(pos) && Aligned(free)
  }

  predicate Aligned(n: nat) { n % 4 == 0 }

  lemma AlignedSum(a: nat, b: nat)
    requires Aligned(a) && b % 4 == 0
    ensures Aligned(a + b)
  {
  }

  /** The entry in front, and what comes after it and below it. */
  lemma AtParts(root: Tree, img: seq<byte>, off: map<nat, nat>, t: Tree, id: nat, pos: nat, free: nat, start: nat,
                end: nat)
    requires t.Node? && At(root, img, off, t, id, pos, free, start, end)
    ensures InfoOk(t.info, t.child) && Off(off, id) < OFFSET_LIMIT && id < |Infos(root)| && Infos(root)[id] == t.info
    ensures Stands(img, pos, Record(t.info, t.child, Off(off, id)))
    ensures t.child.Nil? && !HasData(t.info) ==> Off(off, id) == 0
    ensures t.child.Node? ==> Off(off, id) == free
    ensures At(root, img, off, t.child, id + 1, free, free + DirSize(t.child), start, end)
    ensures At(root, img, off, t.next, id + 1 + Count(t.child), pos + RecordSize(t.info), free + AllSize(t.child),
            start, end)
    ensures DirSize(t) == RecordSize(t.info) + DirSize(t.next)
    ensures AllSizes(DirsOf(t, id)) == AllSize(t.child) + AllSizes(DirsOf(t.next, id + 1 + Count(t.child)))
  {
    hide Infos, Record, InfoOk, Within, Agrees, Stands, RecordSize, Laid, Blank, TreeOk, AllBelow, DirsOf, AllSize;
    hide AllSizes, Count, Off, Aligned;
    AlignedSum(pos, RecordSize(t.info));
    AlignedSum(free, DirSize(t.child));
    AlignedSum(free, AllSize(t.child));
    OffBelow(off, id);
    WithinParts(root, t, id);
    LaidParts(img, t, id, pos, off);
    BlankParts(off, t, id);
    AgreesParts(off, t, id, free);
    DirsUnfold(t, id);
    DirsSize(t.child, id + 1);
    if t.child.Nil? {
      NilAt(root, img, off, t.child, id + 1, free);
    }
  }

  lemma NilAt(root: Tree, img: seq<byte>, off: map<nat, nat>, t: Tree, id: nat, free: nat)
    requires t.Nil? && AllBelow(off, OFFSET_LIMIT)
    ensures TreeOk(t) && Laid(img, t, id, free, off) && Agrees(off, t, id, free + DirSize(t))
  {
  }

  lemma LaidParts(img: seq<byte>, t: Tree, id: nat, pos: nat, off: map<nat, nat>)
    requires t.Node? && TreeOk(t) && AllBelow(off, OFFSET_LIMIT) && Laid(img, t, id, pos, off)
    ensures InfoOk(t.info, t.child) && TreeOk(t.child) && TreeOk(t.next) && Off(off, id) < OFFSET_LIMIT
    ensures Stands(img, pos, Record(t.info, t.child, Off(off, id)))
    ensures t.child.Node? ==> Laid(img, t.child, id + 1, Off(off, id), off)
    ensures Laid(img, t.next, id + 1 + Count(t.child), pos + RecordSize(t.info), off)
  {
  }

  lemma BlankParts(off: map<nat, nat>, t: Tree, id: nat)
    requires t.Node? && Blank(off, t, id)
    ensures t.child.Nil? && !HasData(t.info) ==> Off(off, id) == 0
    ensures Blank(off, t.child, id + 1) && Blank(off, t.next, id + 1 + Count(t.child))
  {
  }

  lemma DirsUnfold(t: Tree, id: nat)
    requires t.Node?
    ensures AllSizes(DirsOf(t, id)) == AllSize(t.child) + AllSizes(DirsOf(t.next, id + 1 + Count(t.child)))
  {
    NextDirs(t, id);
  }

  lemma EntryInside(root: Tree, img: seq<byte>, off: map<nat, nat>, t: Tree, id: nat, pos: nat, free: nat, start: nat,
                    end: nat)
    requires t.Node? && At(root, img, off, t, id, pos, free, start, end)
    ensures start <= pos && pos + RecordSize(t.info) <= end && start <= free && pos % 4 == 0 && free % 4 == 0
  {
  }

  /** What the inode of an entry stands for. */
  lemma MadeEntry(cfg: Config, root: Tree, img: seq<byte>, off: map<nat, nat>, info: Info, child: Tree, id: nat,
                  free: nat, start: nat, end: nat)
    requires Context(cfg, root, img, off, start, end) && InfoOk(info, child) && Off(off, id) < OFFSET_LIMIT
    requires id < |Infos(root)| && Infos(root)[id] == info
    requires child.Nil? && !HasData(info) ==> Off(off, id) == 0
    requires child.Node? ==> Off(off, id) == free && free >= start && free % 4 == 0
    requires child.Node? ==> Listed(cfg, img, free, DirSize(child), child)
    ensures Entry(cfg, img, InodeOf(info, child, Off(off, id)), info, child)
    ensures HasData(info) ==> id in off && off[id] >= end && off[id] == 4 * InodeOf(info, child, Off(off, id)).offset
    ensures DataMarks(img, InodeOf(info, child, Off(off, id)), info).endData <= |img|
  {
    hide Infos, Stands, Blob, AllBelow, FileAt, Inflates, WordAt, NoZero, DirSize;
    NoEntries(child);
    if HasData(info) {
      if IsReg(info.mode) {
        MadeFile(cfg, info.data, off[id], img);
      } else {
        MadeLink(cfg, info.data, off[id], img);
      }
    }
  }

  lemma NoEntries(t: Tree)
    ensures t.Nil? ==> DirSize(t) == AllSize(t) == 0
  {
  }

  lemma EntryListed(cfg: Config, img: seq<byte>, pos: nat, t: Tree, offset: nat)
    requires t.Node? && InfoOk(t.info, t.child) && offset < OFFSET_LIMIT
    requires Stands(img, pos, Record(t.info, t.child, offset))
    requires Entry(cfg, img, InodeOf(t.info, t.child, offset), t.info, t.child)
    requires Listed(cfg, img, pos + RecordSize(t.info), DirSize(t.next), t.next)
    ensures InodeAt(img, pos) == InodeOf(t.info, t.child, offset)
    ensures Listed(cfg, img, pos, DirSize(t), t)
  {
    hide Entry, StrLen, Stands, Record, DecodeInode, PaddedName;
    RecordReads(img, pos, t.info, t.child, offset);
    PaddedNameReads(t.info.name);
  }

  /** The records of the entries are where the walk looks for them. */
  lemma {:induction false} MadeListed(cfg: Config, root: Tree, img: seq<byte>, off: map<nat, nat>, t: Tree, id: nat,
                                      pos: nat, free: nat, start: nat, end: nat)
    requires Context(cfg, root, img, off, start, end) && At(root, img, off, t, id, pos, free, start, end)
    ensures Listed(cfg, img, pos, DirSize(t), t)
    ensures t.Node? ==> InfoOk(t.info, t.child) && Off(off, id) < OFFSET_LIMIT
                        && InodeAt(img, pos) == InodeOf(t.info, t.child, Off(off, id))
    decreases t
  {
    hide At, Infos, InfoOk, Off, Stands, Record, Entry, Context, InodeAt, RecordSize, InodeOf;
    if t.Node? {
      AtParts(root, img, off, t, id, pos, free, start, end);
      EntryInside(root, img, off, t, id, pos, free, start, end);
      MadeListed(cfg, root, img, off, t.child, id + 1, free, free + DirSize(t.child), start, end);
      MadeListed(cfg, root, img, off, t.next, id + 1 + Count(t.child), pos + RecordSize(t.info),
                 free + AllSize(t.child), start, end);
      MadeEntry(cfg, root, img, off, t.info, t.child, id, free, start, end);
      EntryListed(cfg, img, pos, t, Off(off, id));
    }
  }

  // ---- the marks ----

  /** sd is the smallest offset of data among the entries from .. to, and none of them lies before end. */
  ghost predicate LowMark(infos: seq<Info>, off: map<nat, nat>, from: nat, to: nat, sd: nat, end: nat) {
    && sd <= UNSET
    && (sd == UNSET || (sd >= end && exists k: nat :: from <= k < to && k < |infos| && HasData(infos[k])))
    && forall k: nat :: from <= k < to && k < |infos| && HasData(infos[k]) ==> k in off && sd <= off[k]
  }

  lemma LowMarks(infos: seq<Info>, off: map<nat, nat>, a: nat, b: nat, c: nat, x: nat, y: nat, end: nat)
    requires a <= b <= c && LowMark(infos, off, a, b, x, end) && LowMark(infos, off, b, c, y, end)
    ensures LowMark(infos, off, a, c, Min(x, y), end)
  {
  }

  lemma LowMarkOne(infos: seq<Info>, off: map<nat, nat>, k: nat, sd: nat, end: nat)
    requires k < |infos|
    requires if HasData(infos[k]) then k in off && sd == off[k] >= end && sd <= UNSET else sd == UNSET
    ensures LowMark(infos, off, k, k + 1, sd, end)
  {
  }

  lemma LowMarkNone(infos: seq<Info>, off: map<nat, nat>, k: nat, end: nat)
    ensures LowMark(infos, off, k, k, UNSET, end)
  {
  }

  /** The last record of these directories ends where the space taken for them does. */
  ghost predicate HighMark(t: Tree, id: nat, pos: nat, free: nat, end: nat, ed: nat) {
    && ed <= end && (t.Node? ==> ed >= pos + DirSize(t))
    && (AllSizes(DirsOf(t, id)) > 0 ==> ed >= free + AllSizes(DirsOf(t, id)))
  }

  lemma HighMarkNext(t: Tree, id: nat, pos: nat, free: nat, end: nat, child: nat, rest: nat)
    requires t.Node? && pos + RecordSize(t.info) <= end && child <= end
    requires t.child.Node? ==> HighMark(t.child, id + 1, free, free + DirSize(t.child), end, child)
    requires HighMark(t.next, id + 1 + Count(t.child), pos + RecordSize(t.info), free + AllSize(t.child), end, rest)
    ensures HighMark(t, id, pos, free, end, Max(pos + RecordSize(t.info), Max(child, rest)))
  {
    hide RecordSize, DirsOf, AllSizes, AllSize, Count;
    DirsUnfold(t, id);
    DirsSize(t.child, id + 1);
    NoEntries(t.child);
    var ed := Max(pos + RecordSize(t.info), Max(child, rest));
    assert ed <= end;
    assert ed >= pos + DirSize(t);
    assert AllSizes(DirsOf(t, id)) > 0 ==> ed >= free + AllSizes(DirsOf(t, id));
  }

  ghost predicate MarksOk(root: Tree, img: seq<byte>, off: map<nat, nat>, t: Tree, id: nat, pos: nat, free: nat,
                          end: nat, m: Marks) {
    && LowMark(Infos(root), off, id, id + Count(t), m.startData, end)
    && m.endData <= |img| && HighMark(t, id, pos, free, end, m.endDir)
  }

  lemma MarksNext(root: Tree, img: seq<byte>, off: map<nat, nat>, t: Tree, id: nat, pos: nat, free: nat, end: nat,
                  e: Marks, r: Marks)
    requires t.Node? && pos + RecordSize(t.info) <= end && e.endDir <= end && e.endData <= |img|
    requires LowMark(Infos(root), off, id, id + 1 + Count(t.child), e.startData, end)
    requires t.child.Node? ==> HighMark(t.child, id + 1, free, free + DirSize(t.child), end, e.endDir)
    requires MarksOk(root, img, off, t.next, id + 1 + Count(t.child), pos + RecordSize(t.info), free + AllSize(t.child),
                     end, r)
    ensures MarksOk(root, img, off, t, id, pos, free, end, Join(Marks(pos + RecordSize(t.info), UNSET, 0), Join(e, r)))
  {
    hide Infos, RecordSize, LowMark, HighMark, AllSize, DirSize;
    var n := Count(t.child);
    LowMarks(Infos(root), off, id, id + 1 + n, id + 1 + n + Count(t.next), e.startData, r.startData, end);
    LowAtMost(Infos(root), off, id, id + 1 + n, e.startData, end);
    HighMarkNext(t, id, pos, free, end, e.endDir, r.endDir);
  }

  lemma LowAtMost(infos: seq<Info>, off: map<nat, nat>, a: nat, b: nat, sd: nat, end: nat)
    requires LowMark(infos, off, a, b, sd, end)
    ensures sd <= UNSET
  {
  }

  lemma {:induction false} MadeMarks(cfg: Config, root: Tree, img: seq<byte>, off: map<nat, nat>, t: Tree, id: nat,
                                     pos: nat, free: nat, start: nat, end: nat)
    requires Context(cfg, root, img, off, start, end) && At(root, img, off, t, id, pos, free, start, end)
    ensures MarksOk(root, img, off, t, id, pos, free, end, MarksOf(img, pos, t))
    decreases t
  {
    hide At, Infos, Off, Context, InodeAt, RecordSize, LowMark, HighMark, DataMarks, AllSize, HasData, InfoOk;
    hide MarksOk, Join, EntryMarks, Listed, Entry, Count;
    if t.Nil? {
      NoMarksNeeded(root, img, off, t, id, pos, free, end);
    } else {
      var behind := pos + RecordSize(t.info);
      AtParts(root, img, off, t, id, pos, free, start, end);
      EntryInside(root, img, off, t, id, pos, free, start, end);
      MadeMarks(cfg, root, img, off, t.child, id + 1, free, free + DirSize(t.child), start, end);
      MadeMarks(cfg, root, img, off, t.next, id + 1 + Count(t.child), behind, free + AllSize(t.child), start, end);
      EntryMarked(cfg, root, img, off, t, id, pos, free, start, end);
      MarksNext(root, img, off, t, id, pos, free, end, EntryMarks(img, InodeAt(img, pos), t.info, t.child),
                MarksOf(img, behind, t.next));
    }
  }

  lemma EntryMarked(cfg: Config, root: Tree, img: seq<byte>, off: map<nat, nat>, t: Tree, id: nat, pos: nat, free: nat,
                    start: nat, end: nat)
    requires Context(cfg, root, img, off, start, end) && At(root, img, off, t, id, pos, free, start, end) && t.Node?
    requires MarksOk(root, img, off, t.child, id + 1, free, free + DirSize(t.child), end, MarksOf(img, free, t.child))
    ensures var e := EntryMarks(img, InodeAt(img, pos), t.info, t.child);
            && LowMark(Infos(root), off, id, id + 1 + Count(t.child), e.startData, end) && e.endData <= |img|
            && e.endDir <= end
            && (t.child.Node? ==> HighMark(t.child, id + 1, free, free + DirSize(t.child), end, e.endDir))
  {
    hide At, Infos, Off, Context, InodeAt, RecordSize, LowMark, HighMark, DataMarks, AllSize, HasData, InfoOk;
    hide MarksOk, EntryMarks, MarksOf, Listed, Entry, Count;
    AtParts(root, img, off, t, id, pos, free, start, end);
    EntryInside(root, img, off, t, id, pos, free, start, end);
    MadeListed(cfg, root, img, off, t, id, pos, free, start, end);
    MadeListed(cfg, root, img, off, t.child, id + 1, free, free + DirSize(t.child), start, end);
    MadeEntry(cfg, root, img, off, t.info, t.child, id, free, start, end);
    OneMarked(root, img, off, t, id, free, end, InodeAt(img, pos));
  }

  lemma NoMarksNeeded(root: Tree, img: seq<byte>, off: map<nat, nat>, t: Tree, id: nat, pos: nat, free: nat, end: nat)
    requires t.Nil?
    ensures MarksOk(root, img, off, t, id, pos, free, end, NO_MARKS)
  {
    hide Infos;
    LowMarkNone(Infos(root), off, id, end);
    NoHighMark(t, id, pos, free, end);
  }

  lemma NoHighMark(t: Tree, id: nat, pos: nat, free: nat, end: nat)
    requires t.Nil?
    ensures HighMark(t, id, pos, free, end, 0)
  {
  }

  /** The marks of one entry: those of the directory, or of the data. */
  lemma OneMarked(root: Tree, img: seq<byte>, off: map<nat, nat>, t: Tree, id: nat, free: nat, end: nat, i: Inode)
    requires t.Node? && InfoOk(t.info, t.child) && i.mode == t.info.mode && (t.child.Node? ==> 4 * i.offset == free)
    requires id < |Infos(root)| && Infos(root)[id] == t.info
    requires HasData(t.info) ==> id in off && off[id] == 4 * i.offset >= end && off[id] < OFFSET_LIMIT
    requires DataMarks(img, i, t.info).endData <= |img|
    requires MarksOk(root, img, off, t.child, id + 1, free, free + DirSize(t.child), end, MarksOf(img, free, t.child))
    ensures var e := EntryMarks(img, i, t.info, t.child);
            && LowMark(Infos(root), off, id, id + 1 + Count(t.child), e.startData, end) && e.endData <= |img|
            && e.endDir <= end
            && (t.child.Node? ==> HighMark(t.child, id + 1, free, free + DirSize(t.child), end, e.endDir))
  {
    hide LowMark, Infos, HighMark, DirSize, MarksOf, Count, WordAt, NoZero;
    var e, c := EntryMarks(img, i, t.info, t.child), MarksOf(img, free, t.child);
    HighBelow(t.child, id + 1, free, free + DirSize(t.child), end, c.endDir);
    NoMarks(img, 4 * i.offset, t.child);
    NoMarks(img, free, t.child);
    if IsDir(i.mode) {
      LowMarkOne(Infos(root), off, id, UNSET, end);
      LowMarks(Infos(root), off, id, id + 1, id + 1 + Count(t.child), UNSET, c.startData, end);
      LowAtMost(Infos(root), off, id + 1, id + 1 + Count(t.child), c.startData, end);
    } else {
      LowMarkOne(Infos(root), off, id, e.startData, end);
    }
  }

  lemma NoMarks(img: seq<byte>, offset: nat, t: Tree)
    ensures t.Nil? ==> MarksOf(img, offset, t) == NO_MARKS && Count(t) == 0
  {
  }

  lemma HighBelow(t: Tree, id: nat, pos: nat, free: nat, end: nat, ed: nat)
    requires HighMark(t, id, pos, free, end, ed)
    ensures ed <= end
  {
  }
}
