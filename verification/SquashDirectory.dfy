/**
 Directories of a squashfs image. Entries are packed into groups under a header: a group
 has at most 256 entries, all in one inode block, and their inode numbers are stored as
 16-bit differences from the header's. The header is written when its group is closed.
 */
module SquashDirectory {
  import opened Bytes
  import opened SquashBlocks

  const NAME_LEN := 256
  const GROUP_MAX := 256
  const ENTRY_SIZE := 5
  const HEADER_SIZE := 9

  /** What add_dir is given: a name, the two parts of an inode reference, an inode number and a type. */
  datatype Item = Item(name: seq<byte>, startBlock: nat, offset: nat, inodeNumber: nat, kind: nat)

  predicate InRange(e: Item) {
    && e.name != []
    && e.startBlock < 0x1_0000_0000
    && e.offset < 0x2000
    && e.inodeNumber < 0x1_0000_0000
    && e.kind < 8
  }

  /** A name longer than the format allows is cut. */
  function Cut(name: seq<byte>): (cut: seq<byte>)
    ensures |cut| <= NAME_LEN && (name != [] ==> cut != [])
  {
    if |name| > NAME_LEN then name[..NAME_LEN] else name
  }

  datatype Group = Group(startBlock: nat, inodeNumber: nat, items: seq<Item>)

  predicate InGroup(e: Item, startBlock: nat, inodeNumber: nat) {
    && InRange(e)
    && e.startBlock == startBlock
    && -0x8000 <= e.inodeNumber - inodeNumber <= 0x7FFF
  }

  predicate AllInGroup(items: seq<Item>, startBlock: nat, inodeNumber: nat) {
    forall i :: 0 <= i < |items| ==> InGroup(items[i], startBlock, inodeNumber)
  }

  predicate GroupOk(g: Group) {
    && g.startBlock < 0x1_0000_0000 && g.inodeNumber < 0x1_0000_0000
    && 1 <= |g.items| <= GROUP_MAX
    && AllInGroup(g.items, g.startBlock, g.inodeNumber)
  }

  predicate GroupsOk(gs: seq<Group>) { forall i :: 0 <= i < |gs| ==> GroupOk(gs[i]) }

  function ItemsOf(gs: seq<Group>): seq<Item> {
    if gs == [] then [] else ItemsOf(gs[..|gs| - 1]) + gs[|gs| - 1].items
  }

  // ---- bytes ----

  /** squashfs_dir_header. */
  function HeaderBytes(swap: bool, count: nat, startBlock: nat, inodeNumber: nat): (b: seq<byte>)
    requires count < 256 && startBlock < 0x1_0000_0000 && inodeNumber < 0x1_0000_0000
    ensures |b| == HEADER_SIZE
  {
    [count] + PutInt(startBlock, swap) + PutInt(inodeNumber, swap)
  }

  /** The 13-bit offset and the 3-bit type share a word; which comes first depends on the byte order. */
  function OffsetAndKind(swap: bool, offset: nat, kind: nat): (v: nat)
    requires offset < 0x2000 && kind < 8
    ensures v < 0x1_0000
  {
    if swap then 8 * offset + kind else offset + 0x2000 * kind
  }

  /** squashfs_dir_entry and the name behind it. */
  function ItemBytes(swap: bool, base: nat, startBlock: nat, e: Item): (b: seq<byte>)
    requires InGroup(e, startBlock, base)
    ensures |b| == ENTRY_SIZE + |Cut(e.name)|
  {
    PutShort(OffsetAndKind(swap, e.offset, e.kind), swap) + [|Cut(e.name)| - 1] +
    PutShort((e.inodeNumber - base) % 0x1_0000, swap) + Cut(e.name)
  }

  function ItemsBytes(swap: bool, base: nat, startBlock: nat, items: seq<Item>): seq<byte>
    requires AllInGroup(items, startBlock, base)
  {
    if items == [] then []
    else
      assert InGroup(items[|items| - 1], startBlock, base);
      ItemsBytes(swap, base, startBlock, items[..|items| - 1]) + ItemBytes(swap, base, startBlock, items[|items| - 1])
  }

  function GroupBytes(swap: bool, g: Group): seq<byte>
    requires GroupOk(g)
  {
    HeaderBytes(swap, |g.items| - 1, g.startBlock, g.inodeNumber) +
    ItemsBytes(swap, g.inodeNumber, g.startBlock, g.items)
  }

  function GroupsBytes(swap: bool, gs: seq<Group>): seq<byte>
    requires GroupsOk(gs)
  {
    if gs == [] then [] else GroupsBytes(swap, gs[..|gs| - 1]) + GroupBytes(swap, gs[|gs| - 1])
  }

  /** Two bytes and four bytes as a number, the high byte first if swapped. */
  function Two(b: seq<byte>, swap: bool): int
    requires |b| == 2
  {
    var x: int, y: int := b[0], b[1];
    if swap then 0x100 * x + y else x + 0x100 * y
  }

  function Four(b: seq<byte>, swap: bool): int
    requires |b| == 4
  {
    if swap then 0x1_0000 * Two(b[0..2], swap) + Two(b[2..4], swap)
    else Two(b[0..2], swap) + 0x1_0000 * Two(b[2..4], swap)
  }

  lemma PutFour(v: nat, swap: bool)
    requires v < 0x1_0000_0000
    ensures Four(PutInt(v, swap), swap) == v
  {
  }

  /** A header: the number of entries less one, the block of their inodes, the number the differences are from. */
  lemma HeaderLayout(swap: bool, count: nat, startBlock: nat, inodeNumber: nat)
    requires count < 256 && startBlock < 0x1_0000_0000 && inodeNumber < 0x1_0000_0000
    ensures var b := HeaderBytes(swap, count, startBlock, inodeNumber);
            b[0] == count && Four(b[1..5], swap) == startBlock && Four(b[5..9], swap) == inodeNumber
  {
    hide PutInt, Four;
    PutFour(startBlock, swap);
    PutFour(inodeNumber, swap);
    var b := HeaderBytes(swap, count, startBlock, inodeNumber);
    assert b[1..5] == PutInt(startBlock, swap) && b[5..9] == PutInt(inodeNumber, swap);
  }

  /**
   An entry: 13 bits for the place in the block and 3 for the type, from the low end or from the high end; the length of
   the name less one; the difference in 16 bits; the name.
   */
  lemma ItemLayout(swap: bool, base: nat, startBlock: nat, e: Item)
    requires InGroup(e, startBlock, base)
    ensures var b, n := ItemBytes(swap, base, startBlock, e), if |e.name| < 256 then |e.name| else 256;
            && Two(b[0..2], swap) == (if swap then 8 * e.offset + e.kind else e.offset + 0x2000 * e.kind)
            && b[2] == n - 1 && b[5..] == e.name[..n]
            && Two(b[3..5], swap) == (e.inodeNumber - base) + if e.inodeNumber < base then 0x1_0000 else 0
  {
    var b := ItemBytes(swap, base, startBlock, e);
    assert b[0..2] == PutShort(OffsetAndKind(swap, e.offset, e.kind), swap);
    assert b[3..5] == PutShort((e.inodeNumber - base) % 0x1_0000, swap);
    assert b[5..] == Cut(e.name);
  }

  // ---- how entries are grouped ----

  /** An index entry: where a group header lies in the directory, and the first name of that group. */
  datatype IndexEntry = IndexEntry(index: nat, name: seq<byte>)

  /** The last place marked: an index entry, or the start of the directory. */
  function LastMark(index: seq<IndexEntry>): nat {
    if index == [] then 0 else index[|index| - 1].index
  }

  /** The groups so far, the last one open, and the index entries so far. */
  datatype Building = Building(groups: seq<Group>, index: seq<IndexEntry>)

  function ItemsLength(items: seq<Item>): nat {
    if items == [] then 0 else ItemsLength(items[..|items| - 1]) + ENTRY_SIZE + |Cut(items[|items| - 1].name)|
  }

  function Length(gs: seq<Group>): nat {
    if gs == [] then 0 else Length(gs[..|gs| - 1]) + HEADER_SIZE + ItemsLength(gs[|gs| - 1].items)
  }

  /** A group of one entry, and a group with one entry more. */
  function NewGroup(e: Item): Group { Group(e.startBlock, e.inodeNumber, [e]) }

  function Extend(g: Group, e: Item): Group { g.(items := g.items + [e]) }

  /** The entry takes the directory more than a block past the last place marked. */
  predicate Overruns(b: Building, e: Item) {
    Length(b.groups) + ENTRY_SIZE + |Cut(e.name)| - LastMark(b.index) > METADATA_SIZE
  }

  /** An entry joins a group of fewer than 256 in its own inode block if its number is near enough to the header's. */
  predicate Joins(g: Group, e: Item) {
    |g.items| != GROUP_MAX && e.startBlock == g.startBlock && -0x8000 <= e.inodeNumber - g.inodeNumber <= 0x7FFF
  }

  /** add_dir. */
  function Added(b: Building, e: Item): Building {
    var n := |b.groups| - 1;
    if b.groups == [] then Building([NewGroup(e)], b.index)
    else if Overruns(b, e) then
      Building(b.groups + [NewGroup(e)], b.index + [IndexEntry(Length(b.groups), Cut(e.name))])
    else if Joins(b.groups[n], e) then Building(b.groups[..n] + [Extend(b.groups[n], e)], b.index)
    else Building(b.groups + [NewGroup(e)], b.index)
  }

  function Built(items: seq<Item>): Building {
    if items == [] then Building([], []) else Added(Built(items[..|items| - 1]), items[|items| - 1])
  }

  /** The groups and the index of a directory. */
  function GroupsOf(items: seq<Item>): seq<Group> { Built(items).groups }
  function IndexOf(items: seq<Item>): seq<IndexEntry> { Built(items).index }

  predicate AllInRange(items: seq<Item>) { forall i :: 0 <= i < |items| ==> InRange(items[i]) }

  /** Grouping keeps every entry, in order. */
  lemma {:induction false} BuiltOk(items: seq<Item>)
    requires AllInRange(items)
    ensures GroupsOk(GroupsOf(items)) && ItemsOf(GroupsOf(items)) == items
    decreases |items|
  {
    hide Added, GroupOk, InRange;
    if items != [] {
      var n := |items| - 1;
      BuiltOk(items[..n]);
      AddedOk(Built(items[..n]), items[n]);
    }
  }

  lemma AddedOk(b: Building, e: Item)
    requires GroupsOk(b.groups) && InRange(e)
    ensures GroupsOk(Added(b, e).groups) && ItemsOf(Added(b, e).groups) == ItemsOf(b.groups) + [e]
  {
    hide Length, LastMark;
    var gs, n := Added(b, e).groups, |b.groups| - 1;
    assert gs[..|gs| - 1] == if |gs| == |b.groups| then b.groups[..n] else b.groups;
  }

  /** Group k + 1 is begun: its entry could not join group k, or an index entry is to name it. */
  ghost predicate Apart(b: Building, k: nat)
    requires k + 1 < |b.groups|
  {
    var g, h := b.groups[k], b.groups[k + 1];
    || |g.items| == 256
    || h.startBlock != g.startBlock
    || !(-0x8000 <= h.inodeNumber - g.inodeNumber <= 0x7FFF)
    || exists x <- b.index :: x.index == Length(b.groups[..k + 1])
  }

  /** Every header tells of the first entry of its group, and groups are as long as they may be. */
  ghost predicate Packed(b: Building) {
    && (forall k :: 0 <= k < |b.groups| ==> Headed(b.groups[k]))
    && (forall k: nat :: k + 1 < |b.groups| ==> Apart(b, k))
  }

  predicate Headed(g: Group) {
    g.items != [] && g.startBlock == g.items[0].startBlock && g.inodeNumber == g.items[0].inodeNumber
  }

  lemma AddedPacked(b: Building, e: Item)
    requires Packed(b)
    ensures Packed(Added(b, e))
  {
    hide Length, LastMark, Overruns;
    var c, n := Added(b, e), |b.groups| - 1;
    forall k: nat | k + 1 < |c.groups|
      ensures Apart(c, k)
    {
      assert c.groups[..k + 1] == b.groups[..k + 1];
      if k < n {
        assert Apart(b, k);
      } else {
        assert b.groups[..k + 1] == b.groups;
        assert Overruns(b, e) ==> c.index[|b.index|].index == Length(b.groups);
      }
    }
  }

  lemma {:induction false} BuiltPacked(items: seq<Item>)
    ensures Packed(Built(items))
    decreases |items|
  {
    hide Added, Packed;
    if items == [] {
      NonePacked();
    } else {
      BuiltPacked(items[..|items| - 1]);
      AddedPacked(Built(items[..|items| - 1]), items[|items| - 1]);
    }
  }

  lemma NonePacked()
    ensures Packed(Building([], []))
  {
  }

  lemma {:induction false} LengthIs(swap: bool, gs: seq<Group>)
    requires GroupsOk(gs)
    ensures |GroupsBytes(swap, gs)| == Length(gs)
    decreases |gs|
  {
    hide HeaderBytes, ItemsBytes, ItemsLength;
    if gs != [] {
      var g := gs[|gs| - 1];
      LengthIs(swap, gs[..|gs| - 1]);
      assert GroupOk(g);
      ItemsLengthIs(swap, g.inodeNumber, g.startBlock, g.items);
    }
  }

  lemma {:induction false} ItemsLengthIs(swap: bool, base: nat, startBlock: nat, items: seq<Item>)
    requires AllInGroup(items, startBlock, base)
    ensures |ItemsBytes(swap, base, startBlock, items)| == ItemsLength(items)
    decreases |items|
  {
    hide ItemBytes;
    if items != [] {
      assert InGroup(items[|items| - 1], startBlock, base);
      ItemsLengthIs(swap, base, startBlock, items[..|items| - 1]);
    }
  }

  /** The bytes of a directory. */
  function DirBytes(swap: bool, items: seq<Item>): (b: seq<byte>)
    requires AllInRange(items)
    ensures |b| == Length(GroupsOf(items))
  {
    BuiltOk(items);
    LengthIs(swap, GroupsOf(items));
    GroupsBytes(swap, GroupsOf(items))
  }

  // ---- the directory being built ----

  class Directory {
    const swap: bool
    var buff: seq<byte>             // what lies before the pointer p
    var entryCount: nat
    var entryCountP: Option<nat>    // where the open group's header will go
    var startBlock: nat
    var inodeNumber: nat
    var index: seq<IndexEntry>
    var indexCountP: nat
    var indexSize: nat
    ghost var groups: seq<Group>    // the groups so far, the last one open

    ghost predicate Valid()
      reads this
    {
      Coherent() && indexCountP == LastMark(index)
    }

    ghost function View(): Building
      reads this
    {
      Building(groups, index)
    }

    /** The buffer and the fields of the open group agree with the groups. */
    ghost predicate Coherent()
      reads this
    {
      && GroupsOk(groups)
      && if groups == [] then
           buff == [] && entryCount == GROUP_MAX && entryCountP == None
         else
           var open := groups[|groups| - 1];
           && entryCount == |open.items|
           && startBlock == open.startBlock
           && inodeNumber == open.inodeNumber
           && entryCountP == Some(|GroupsBytes(swap, groups[..|groups| - 1])|)
           && HoldsOpen(swap, groups, buff)
    }

    /** scan2_init_dir. */
    constructor (swap: bool)
      ensures Valid() && View() == Built([]) && this.swap == swap
    {
      this.swap := swap;
      buff, entryCount, entryCountP, index, indexCountP, indexSize := [], GROUP_MAX, None, [], 0, 0;
      startBlock, inodeNumber, groups := 0, 0, [];
    }

    /** Writes the header of the open group in the place kept for it. */
    method PatchHeader()
      requires Coherent() && groups != []
      modifies this`buff
      ensures buff == GroupsBytes(swap, groups) && |buff| == |old(buff)|
    {
      hide HeaderBytes, ItemsBytes;
      var at := entryCountP.value;
      assert GroupOk(groups[|groups| - 1]);
      buff := buff[..at] + HeaderBytes(swap, entryCount - 1, startBlock, inodeNumber) + buff[at + HEADER_SIZE..];
    }

    method AddDir(e: Item)
      requires Valid() && InRange(e)
      modifies this
      ensures Valid() && View() == Added(old(View()), e)
    {
      hide Length, HoldsOpen, GroupsBytes;
      LengthOfBuff();
      var size := |Cut(e.name)|;
      var delta := e.inodeNumber - inodeNumber;
      var full := |buff| + ENTRY_SIZE + size - indexCountP > METADATA_SIZE;
      if entryCount == GROUP_MAX || e.startBlock != startBlock || (entryCountP.Some? && full)
         || delta > 0x7FFF || delta < -0x8000
      {
        StartGroup(e, full);
      } else {
        Append(e);
      }
    }

    lemma LengthOfBuff()
      requires Coherent()
      ensures |buff| == Length(groups)
    {
      hide ItemsBytes, GroupsBytes, ItemsLength;
      if groups != [] {
        var n, g := |groups| - 1, groups[|groups| - 1];
        LengthIs(swap, groups[..n]);
        assert GroupOk(g);
        ItemsLengthIs(swap, g.inodeNumber, g.startBlock, g.items);
      }
    }

    method Append(e: Item)
      requires Valid() && groups != [] && Joins(groups[|groups| - 1], e) && InRange(e)
      modifies this
      ensures Valid() && index == old(index)
      ensures groups == old(groups)[..|old(groups)| - 1] + [Extend(old(groups)[|old(groups)| - 1], e)]
    {
      hide ItemBytes, ItemsBytes, GroupsBytes, HoldsOpen;
      assert GroupOk(groups[|groups| - 1]);
      ghost var groups' := groups[..|groups| - 1] + [Extend(groups[|groups| - 1], e)];
      ExtendOpen(swap, groups, buff, e);
      buff := buff + ItemBytes(swap, inodeNumber, startBlock, e);
      entryCount := entryCount + 1;
      groups := groups';
    }

    /** The start of write_dir: the last header, unless the directory is empty. */
    method Close()
      requires Valid()
      modifies this`buff
      ensures GroupsOk(groups) && buff == GroupsBytes(swap, groups)
    {
      hide HoldsOpen, ItemsBytes;
      if groups != [] {
        GroupsBytesFilled(swap, groups, buff);
      }
      if buff != [] {
        PatchHeader();
      }
    }

    /** Closes the open group, if there is one, and starts the next with e. */
    method StartGroup(e: Item, full: bool)
      requires Valid() && InRange(e)
      modifies this
      ensures Valid() && groups == old(groups) + [NewGroup(e)]
      ensures index == old(index) + if old(groups) != [] && full then [IndexEntry(|old(buff)|, Cut(e.name))] else []
    {
      hide ItemBytes, ItemsBytes, HoldsOpen, GroupsBytes, HeaderBytes;
      ghost var groups' := groups + [NewGroup(e)];
      CloseGroup(e, full);
      entryCountP, startBlock, entryCount, inodeNumber := Some(|buff|), e.startBlock, 0, e.inodeNumber;
      var hole := AnyBytes();
      StartOpen(swap, groups, hole, e);
      buff := buff + hole + ItemBytes(swap, inodeNumber, startBlock, e);
      entryCount := entryCount + 1;
      groups := groups';
      assert groups[|groups| - 1].items == [e];
    }

    /** Records an index entry for the group that e will start, if one is due, and writes the open header. */
    method CloseGroup(e: Item, full: bool)
      requires Valid()
      modifies this`index, this`indexSize, this`indexCountP, this`buff
      ensures buff == GroupsBytes(swap, groups) && indexCountP == LastMark(index)
      ensures index == old(index) + if groups != [] && full then [IndexEntry(|old(buff)|, Cut(e.name))] else []
    {
      hide HoldsOpen;
      if entryCountP.Some? {
        if full {
          index := index + [IndexEntry(|buff|, Cut(e.name))];
          indexSize := indexSize + HEADER_SIZE + |Cut(e.name)|;
          indexCountP := |buff|;
        }
        PatchHeader();
      }
    }
  }

  /** Memory that has not been written. */
  method AnyBytes() returns (b: seq<byte>)
    ensures |b| == HEADER_SIZE
  {
    b := *;
    if |b| != HEADER_SIZE {
      b := seq(HEADER_SIZE, _ => 0);
    }
  }

  /** The bytes of all groups but the last, nine bytes for its header, and its entries. */
  ghost predicate HoldsOpen(swap: bool, gs: seq<Group>, buff: seq<byte>)
    requires GroupsOk(gs) && gs != []
  {
    var closed, open := gs[..|gs| - 1], gs[|gs| - 1];
    var at := |GroupsBytes(swap, closed)|;
    && at + HEADER_SIZE <= |buff|
    && buff[..at] == GroupsBytes(swap, closed)
    && buff[at + HEADER_SIZE..] == ItemsBytes(swap, open.inodeNumber, open.startBlock, open.items)
  }

  lemma GroupsBytesFilled(swap: bool, gs: seq<Group>, buff: seq<byte>)
    requires GroupsOk(gs) && gs != [] && HoldsOpen(swap, gs, buff)
    ensures buff != []
  {
  }

  lemma ExtendOpen(swap: bool, gs: seq<Group>, buff: seq<byte>, e: Item)
    requires GroupsOk(gs) && gs != [] && HoldsOpen(swap, gs, buff)
    requires var open := gs[|gs| - 1]; |open.items| < GROUP_MAX && InGroup(e, open.startBlock, open.inodeNumber)
    ensures var open := gs[|gs| - 1];
            var gs' := gs[..|gs| - 1] + [Extend(open, e)];
            && GroupsOk(gs')
            && gs'[..|gs'| - 1] == gs[..|gs| - 1]
            && HoldsOpen(swap, gs', buff + ItemBytes(swap, open.inodeNumber, open.startBlock, e))
  {
    hide ItemBytes, GroupsBytes, ItemsBytes, InGroup;
    var open := gs[|gs| - 1];
    assert GroupOk(open);
    var gs' := gs[..|gs| - 1] + [Extend(open, e)];
    assert gs'[..|gs'| - 1] == gs[..|gs| - 1];
    ItemsStep(swap, open.inodeNumber, open.startBlock, open.items + [e], |open.items|);
    assert (open.items + [e])[..|open.items|] == open.items
           && (open.items + [e])[..|open.items| + 1] == open.items + [e];
  }

  lemma StartOpen(swap: bool, gs: seq<Group>, hole: seq<byte>, e: Item)
    requires GroupsOk(gs) && |hole| == HEADER_SIZE && InRange(e)
    ensures var g := NewGroup(e);
            var gs' := gs + [g];
            && GroupsOk(gs')
            && gs'[..|gs'| - 1] == gs
            && HoldsOpen(swap, gs', GroupsBytes(swap, gs) + hole + ItemBytes(swap, e.inodeNumber, e.startBlock, e))
  {
    hide ItemBytes;
    var g := NewGroup(e);
    var gs' := gs + [g];
    assert gs'[..|gs'| - 1] == gs;
    assert ItemsBytes(swap, e.inodeNumber, e.startBlock, [e]) == ItemBytes(swap, e.inodeNumber, e.startBlock, e) by {
      assert [e][..0] == [];
    }
  }

  // ---- the index ----

  /** An index entry lies about a block after the mark before it. */
  predicate Spaced(mark: nat, next: nat) {
    mark + METADATA_SIZE - ENTRY_SIZE - NAME_LEN < next <= mark + METADATA_SIZE + HEADER_SIZE
  }

  ghost predicate Dense(index: seq<IndexEntry>) {
    forall k :: 0 <= k < |index| ==> Spaced(LastMark(index[..k]), index[k].index)
  }

  lemma DenseNext(index: seq<IndexEntry>, x: IndexEntry)
    requires Dense(index) && Spaced(LastMark(index), x.index)
    ensures Dense(index + [x]) && LastMark(index + [x]) == x.index
  {
    forall k | 0 <= k < |index| + 1
      ensures LastMark((index + [x])[..k]) == LastMark(index[..k])
    {
      assert (index + [x])[..k] == index[..k];
    }
    assert index[..|index|] == index;
  }

  /** So a directory has few of them. */
  lemma {:induction false} IndexCount(index: seq<IndexEntry>)
    requires Dense(index)
    ensures (METADATA_SIZE - ENTRY_SIZE - NAME_LEN) * |index| <= LastMark(index)
    decreases |index|
  {
    if index != [] {
      var n := |index| - 1;
      assert forall k :: 0 <= k < n ==> index[..n][..k] == index[..k];
      IndexCount(index[..n]);
    }
  }

  /** Entry x names the header of group j. */
  ghost predicate HeaderAt(swap: bool, gs: seq<Group>, j: nat, x: IndexEntry)
    requires GroupsOk(gs) && j < |gs|
  {
    GroupsOk(gs[..j]) && x.index == |GroupsBytes(swap, gs[..j])| && x.name == Cut(gs[j].items[0].name)
  }

  /** Entry x names the header of some group. */
  ghost predicate Named(swap: bool, gs: seq<Group>, x: IndexEntry)
    requires GroupsOk(gs)
  {
    exists j: nat :: j < |gs| && HeaderAt(swap, gs, j, x)
  }

  ghost predicate IndexNames(swap: bool, gs: seq<Group>, index: seq<IndexEntry>)
    requires GroupsOk(gs)
  {
    forall k :: 0 <= k < |index| ==> Named(swap, gs, index[k])
  }

  /** A name stays while the groups before it stay and its own group keeps its first entry. */
  lemma NamedStays(swap: bool, gs: seq<Group>, gs': seq<Group>, x: IndexEntry)
    requires GroupsOk(gs) && GroupsOk(gs') && Named(swap, gs, x)
    requires gs != [] ==> |gs'| >= |gs| && gs'[..|gs| - 1] == gs[..|gs| - 1]
    requires gs != [] ==> gs'[|gs| - 1].items[0] == gs[|gs| - 1].items[0]
    ensures Named(swap, gs', x)
  {
    hide GroupsBytes;
    var j: nat :| j < |gs| && HeaderAt(swap, gs, j, x);
    assert gs'[..j] == gs'[..|gs| - 1][..j] == gs[..j];
    if j < |gs| - 1 {
      assert gs'[..|gs| - 1][j] == gs[..|gs| - 1][j];
    }
    assert HeaderAt(swap, gs', j, x);
  }

  /** A header that is named lies inside the bytes of its directory. */
  lemma {:induction false} NamedInside(swap: bool, gs: seq<Group>, j: nat)
    requires GroupsOk(gs) && j < |gs|
    ensures |GroupsBytes(swap, gs[..j])| + HEADER_SIZE <= |GroupsBytes(swap, gs)|
    decreases |gs|
  {
    hide ItemsBytes, HeaderBytes;
    var n := |gs| - 1;
    if j < n {
      NamedInside(swap, gs[..n], j);
      assert gs[..n][..j] == gs[..j];
    }
  }

  lemma {:induction false} DenseIncreasing(index: seq<IndexEntry>, i: nat, j: nat)
    requires Dense(index) && i < j < |index|
    ensures index[i].index < index[j].index
    decreases j
  {
    assert LastMark(index[..j]) == index[j - 1].index;
    if i < j - 1 {
      DenseIncreasing(index, i, j - 1);
    }
  }

  lemma KeepNames(swap: bool, gs: seq<Group>, gs': seq<Group>, index: seq<IndexEntry>)
    requires GroupsOk(gs) && GroupsOk(gs') && IndexNames(swap, gs, index)
    requires gs != [] ==> |gs'| >= |gs| && gs'[..|gs| - 1] == gs[..|gs| - 1]
    requires gs != [] ==> gs'[|gs| - 1].items[0] == gs[|gs| - 1].items[0]
    ensures IndexNames(swap, gs', index)
  {
    forall k | 0 <= k < |index|
      ensures Named(swap, gs', index[k])
    {
      NamedStays(swap, gs, gs', index[k]);
    }
  }

  lemma NextName(swap: bool, gs: seq<Group>, e: Item)
    requires GroupsOk(gs) && InRange(e)
    ensures var gs' := gs + [NewGroup(e)];
            GroupsOk(gs') && Named(swap, gs', IndexEntry(Length(gs), Cut(e.name)))
  {
    hide GroupsBytes, Length;
    var gs' := gs + [NewGroup(e)];
    assert gs'[..|gs|] == gs;
    LengthIs(swap, gs);
    assert HeaderAt(swap, gs', |gs|, IndexEntry(Length(gs), Cut(e.name)));
  }

  /** The index names headers, and the directory is never much more than a block past the last one. */
  ghost predicate IndexOk(swap: bool, b: Building) {
    && GroupsOk(b.groups) && Dense(b.index) && IndexNames(swap, b.groups, b.index)
    && LastMark(b.index) <= Length(b.groups) <= LastMark(b.index) + METADATA_SIZE + HEADER_SIZE
  }

  lemma {:induction false} BuiltIndex(swap: bool, items: seq<Item>)
    requires AllInRange(items)
    ensures IndexOk(swap, Built(items))
    decreases |items|
  {
    hide IndexOk, Added;
    if items == [] {
      NoIndex(swap);
    } else {
      var n := |items| - 1;
      BuiltIndex(swap, items[..n]);
      AddedIndex(swap, Built(items[..n]), items[n]);
    }
  }

  lemma NoIndex(swap: bool)
    ensures IndexOk(swap, Building([], []))
  {
  }

  lemma AddedIndex(swap: bool, b: Building, e: Item)
    requires IndexOk(swap, b) && InRange(e)
    ensures IndexOk(swap, Added(b, e))
  {
    hide Length, LastMark, Dense, Named;
    var a := Added(b, e);
    NoLength();
    AddedOk(b, e);
    AddedLength(b, e);
    KeepNames(swap, b.groups, a.groups, b.index);
    if b.groups != [] && Overruns(b, e) {
      NextName(swap, b.groups, e);
      DenseNext(b.index, IndexEntry(Length(b.groups), Cut(e.name)));
    }
  }

  lemma AddedLength(b: Building, e: Item)
    ensures var more := Length(Added(b, e).groups) - Length(b.groups) - ENTRY_SIZE - |Cut(e.name)|;
            more == 0 || more == HEADER_SIZE
  {
    AddedGroups(b, e);
    hide *;
    var gs := Added(b, e).groups;
    if gs == b.groups + [NewGroup(e)] {
      OneGroupMore(b.groups, e);
    } else {
      LastExtended(b.groups, e);
    }
  }

  lemma AddedGroups(b: Building, e: Item)
    ensures var gs, n := Added(b, e).groups, |b.groups| - 1;
            || gs == b.groups + [NewGroup(e)]
            || (b.groups != [] && gs == b.groups[..n] + [Extend(b.groups[n], e)])
  {
    hide Length, LastMark, Overruns, Joins;
  }

  lemma NoLength()
    ensures Length([]) == 0
  {
  }

  lemma OneGroupMore(gs: seq<Group>, e: Item)
    ensures Length(gs + [NewGroup(e)]) == Length(gs) + HEADER_SIZE + ENTRY_SIZE + |Cut(e.name)|
  {
    hide Cut, Length;
    OneItemLonger([], e);
    assert [] + [e] == [e] && ItemsLength([]) == 0;
    OneGroupLonger(gs, NewGroup(e));
  }

  lemma LastExtended(gs: seq<Group>, e: Item)
    requires gs != []
    ensures Length(gs[..|gs| - 1] + [Extend(gs[|gs| - 1], e)]) == Length(gs) + ENTRY_SIZE + |Cut(e.name)|
  {
    hide Cut, Length, ItemsLength;
    var n := |gs| - 1;
    OneItemLonger(gs[n].items, e);
    OneGroupLonger(gs[..n], gs[n]);
    OneGroupLonger(gs[..n], Extend(gs[n], e));
    assert gs == gs[..n] + [gs[n]];
  }

  lemma OneItemLonger(items: seq<Item>, e: Item)
    ensures ItemsLength(items + [e]) == ItemsLength(items) + ENTRY_SIZE + |Cut(e.name)|
  {
    assert (items + [e])[..|items|] == items;
  }

  lemma OneGroupLonger(gs: seq<Group>, g: Group)
    ensures Length(gs + [g]) == Length(gs) + HEADER_SIZE + ItemsLength(g.items)
  {
    assert (gs + [g])[..|gs|] == gs;
  }

  // ---- reading a directory ----

  /** What the reader reports of an entry. */
  datatype DirEnt = DirEnt(name: seq<byte>, startBlock: nat, offset: nat, kind: nat)

  function View(e: Item): DirEnt { DirEnt(Cut(e.name), e.startBlock, e.offset, e.kind) }

  function Views(items: seq<Item>): (v: seq<DirEnt>) {
    seq(|items|, i requires 0 <= i < |items| => View(items[i]))
  }

  /** The bytes b lie in a table at place p. */
  predicate At(table: seq<byte>, p: nat, b: seq<byte>) {
    p + |b| <= |table| && table[p..p + |b|] == b
  }

  lemma AtPart(table: seq<byte>, p: nat, a: seq<byte>, b: seq<byte>, c: seq<byte>)
    requires At(table, p, a + b + c)
    ensures At(table, p, a) && At(table, p + |a|, b) && At(table, p + |a| + |b|, c)
  {
    var t, m, n := table[p..p + |a + b + c|], |a|, |a| + |b|;
    assert t == a + b + c && |t| == n + |c|;
    assert table[p..p + m] == t[..m] == a;
    assert table[p + m..p + n] == t[m..n] == b;
    assert table[p + n..p + n + |c|] == t[n..] == c;
  }

  datatype Header = Header(count: nat, startBlock: nat, inodeNumber: nat)

  function GetHeader(swap: bool, table: seq<byte>, p: nat): Header
    requires p + HEADER_SIZE <= |table|
  {
    Header(table[p], GetInt(table[p + 1..p + 5], swap), GetInt(table[p + 5..p + 9], swap))
  }

  /** An entry without its name; the inode number is the signed 16-bit difference. */
  datatype Entry = Entry(offset: nat, kind: nat, size: nat, difference: int)

  function GetEntry(swap: bool, table: seq<byte>, p: nat): Entry
    requires p + ENTRY_SIZE <= |table|
  {
    var word, diff := GetShort(table[p..p + 2], swap), GetShort(table[p + 3..p + 5], swap);
    Entry(if swap then word / 8 else word % 0x2000,
          if swap then word % 8 else word / 0x2000,
          table[p + 2],
          if diff < 0x8000 then diff else diff - 0x1_0000)
  }

  lemma HeaderRead(swap: bool, table: seq<byte>, p: nat, h: Header)
    requires h.count < 256 && h.startBlock < 0x1_0000_0000 && h.inodeNumber < 0x1_0000_0000
    requires At(table, p, HeaderBytes(swap, h.count, h.startBlock, h.inodeNumber))
    ensures GetHeader(swap, table, p) == h
  {
    hide PutInt, GetInt;
    AtPart(table, p, [h.count], PutInt(h.startBlock, swap), PutInt(h.inodeNumber, swap));
    GetPutInt(h.startBlock, swap);
    GetPutInt(h.inodeNumber, swap);
  }

  /** An entry reads back: its name, and a difference that leads from the header to its own inode number. */
  lemma ItemRead(swap: bool, table: seq<byte>, p: nat, base: nat, startBlock: nat, e: Item)
    requires InGroup(e, startBlock, base)
    requires At(table, p, ItemBytes(swap, base, startBlock, e))
    ensures var x := GetEntry(swap, table, p);
            && x.offset == e.offset && x.kind == e.kind
            && x.size + 1 == |Cut(e.name)|
            && base + x.difference == e.inodeNumber
            && At(table, p + ENTRY_SIZE, Cut(e.name))
  {
    hide PutShort, GetShort, Cut;
    var word, diff := OffsetAndKind(swap, e.offset, e.kind), (e.inodeNumber - base) % 0x1_0000;
    WordParts(swap, e.offset, e.kind);
    SignedPart(e.inodeNumber - base);
    hide OffsetAndKind;
    var a, b, c := PutShort(word, swap), [|Cut(e.name)| - 1], PutShort(diff, swap);
    assert ItemBytes(swap, base, startBlock, e) == a + b + (c + Cut(e.name));
    AtPart(table, p, a, b, c + Cut(e.name));
    assert c + Cut(e.name) == [] + c + Cut(e.name);
    AtPart(table, p + 3, [], c, Cut(e.name));
    GetPutShort(word, swap);
    GetPutShort(diff, swap);
    assert table[p..p + 2] == a && table[p + 3..p + 5] == c && [table[p + 2]] == b;
  }

  lemma WordParts(swap: bool, offset: nat, kind: nat)
    requires offset < 0x2000 && kind < 8
    ensures var word := OffsetAndKind(swap, offset, kind);
            if swap then word / 8 == offset && word % 8 == kind else word % 0x2000 == offset && word / 0x2000 == kind
  {
  }

  lemma SignedPart(d: int)
    requires -0x8000 <= d <= 0x7FFF
    ensures var u := d % 0x1_0000; d == if u < 0x8000 then u else u - 0x1_0000
  {
  }

  lemma ItemsStep(swap: bool, base: nat, startBlock: nat, items: seq<Item>, j: nat)
    requires AllInGroup(items, startBlock, base) && j < |items|
    ensures ItemsBytes(swap, base, startBlock, items[..j + 1])
         == ItemsBytes(swap, base, startBlock, items[..j]) + ItemBytes(swap, base, startBlock, items[j])
  {
    assert items[..j + 1][..j] == items[..j];
  }

  /** Where all entries lie, the first j lie. */
  lemma {:induction false} ItemsPrefix(swap: bool, base: nat, startBlock: nat, items: seq<Item>, j: nat,
                                       table: seq<byte>, p: nat)
    requires AllInGroup(items, startBlock, base)
    requires j <= |items| && At(table, p, ItemsBytes(swap, base, startBlock, items))
    ensures At(table, p, ItemsBytes(swap, base, startBlock, items[..j]))
    decreases |items| - j
  {
    hide ItemsBytes, ItemBytes, At, InGroup;
    if j == |items| {
      assert items[..j] == items;
    } else {
      ItemsPrefix(swap, base, startBlock, items, j + 1, table, p);
      ItemsStep(swap, base, startBlock, items, j);
      var front, last := ItemsBytes(swap, base, startBlock, items[..j]), ItemBytes(swap, base, startBlock, items[j]);
      assert front + last == [] + front + last;
      AtPart(table, p, [], front, last);
    }
  }

  /** Entry j lies behind the first j. */
  lemma ItemsAt(swap: bool, base: nat, startBlock: nat, items: seq<Item>, j: nat, table: seq<byte>, p: nat)
    requires AllInGroup(items, startBlock, base)
    requires j < |items| && At(table, p, ItemsBytes(swap, base, startBlock, items))
    ensures At(table, p + |ItemsBytes(swap, base, startBlock, items[..j])|, ItemBytes(swap, base, startBlock, items[j]))
  {
    hide ItemsBytes, ItemBytes, At, InGroup;
    ItemsPrefix(swap, base, startBlock, items, j + 1, table, p);
    ItemsStep(swap, base, startBlock, items, j);
    var front, last := ItemsBytes(swap, base, startBlock, items[..j]), ItemBytes(swap, base, startBlock, items[j]);
    assert front + last == [] + front + last;
    AtPart(table, p, [], front, last);
  }

  lemma GroupsStep(swap: bool, gs: seq<Group>, g: nat)
    requires GroupsOk(gs) && g < |gs|
    ensures GroupsBytes(swap, gs[..g + 1]) == GroupsBytes(swap, gs[..g]) + GroupBytes(swap, gs[g])
    ensures ItemsOf(gs[..g + 1]) == ItemsOf(gs[..g]) + gs[g].items
  {
    assert gs[..g + 1][..g] == gs[..g];
  }

  lemma {:induction false} GroupsPrefix(swap: bool, gs: seq<Group>, g: nat, table: seq<byte>, p: nat)
    requires GroupsOk(gs) && g <= |gs| && At(table, p, GroupsBytes(swap, gs))
    ensures At(table, p, GroupsBytes(swap, gs[..g])) && |GroupsBytes(swap, gs[..g])| <= |GroupsBytes(swap, gs)|
    decreases |gs| - g
  {
    hide GroupsBytes, GroupBytes, At, GroupOk, ItemsOf;
    if g == |gs| {
      assert gs[..g] == gs;
    } else {
      GroupsPrefix(swap, gs, g + 1, table, p);
      GroupsStep(swap, gs, g);
      var front, last := GroupsBytes(swap, gs[..g]), GroupBytes(swap, gs[g]);
      assert front + last == [] + front + last;
      AtPart(table, p, [], front, last);
    }
  }

  /** Group g lies behind the first g: its header, then its entries. */
  lemma GroupsAt(swap: bool, gs: seq<Group>, g: nat, table: seq<byte>, p: nat)
    requires GroupsOk(gs) && g < |gs| && At(table, p, GroupsBytes(swap, gs))
    ensures var q := p + |GroupsBytes(swap, gs[..g])|;
            && At(table, q, HeaderBytes(swap, |gs[g].items| - 1, gs[g].startBlock, gs[g].inodeNumber))
            && At(table, q + HEADER_SIZE, ItemsBytes(swap, gs[g].inodeNumber, gs[g].startBlock, gs[g].items))
  {
    hide GroupsBytes, ItemsBytes, HeaderBytes, At, ItemsOf;
    GroupsPrefix(swap, gs, g + 1, table, p);
    GroupsStep(swap, gs, g);
    var front := GroupsBytes(swap, gs[..g]);
    var header := HeaderBytes(swap, |gs[g].items| - 1, gs[g].startBlock, gs[g].inodeNumber);
    var items := ItemsBytes(swap, gs[g].inodeNumber, gs[g].startBlock, gs[g].items);
    assert front + GroupBytes(swap, gs[g]) == front + header + items;
    AtPart(table, p, front, header, items);
  }

  /** The inner loop of squashfs_openddir: the entries of one group. */
  method ReadGroup(swap: bool, table: seq<byte>, p: nat, h: Header, ghost g: Group)
    returns (dirs: seq<DirEnt>, q: nat)
    requires GroupOk(g) && h == Header(|g.items| - 1, g.startBlock, g.inodeNumber)
    requires At(table, p, ItemsBytes(swap, g.inodeNumber, g.startBlock, g.items))
    ensures dirs == Views(g.items) && q == p + |ItemsBytes(swap, g.inodeNumber, g.startBlock, g.items)|
  {
    hide ItemsBytes, ItemBytes, GetEntry;
    var dirCount: nat := h.count + 1;
    dirs, q := [], p;
    ghost var j := 0;
    ItemsBytesNone(swap, g);
    while dirCount > 0
      invariant j + dirCount == |g.items|
      invariant dirs == Views(g.items[..j])
      invariant q == p + |ItemsBytes(swap, g.inodeNumber, g.startBlock, g.items[..j])|
    {
      assert InGroup(g.items[j], g.startBlock, g.inodeNumber);
      ItemsAt(swap, g.inodeNumber, g.startBlock, g.items, j, table, p);
      ItemsStep(swap, g.inodeNumber, g.startBlock, g.items, j);
      ItemRead(swap, table, q, g.inodeNumber, g.startBlock, g.items[j]);
      var e := GetEntry(swap, table, q);
      q := q + ENTRY_SIZE;
      dirs := dirs + [DirEnt(table[q..q + e.size + 1], h.startBlock, e.offset, e.kind)];
      q := q + e.size + 1;
      dirCount, j := dirCount - 1, j + 1;
    }
    assert g.items[..j] == g.items;
  }

  lemma ItemsBytesNone(swap: bool, g: Group)
    requires GroupOk(g)
    ensures ItemsBytes(swap, g.inodeNumber, g.startBlock, g.items[..0]) == []
  {
  }

  /** The loops of squashfs_openddir; the recorded size is three more than the bytes of the directory. */
  method ReadDirectory(swap: bool, table: seq<byte>, at: nat, fileSize: nat, ghost gs: seq<Group>)
    returns (dirs: seq<DirEnt>)
    requires GroupsOk(gs) && At(table, at, GroupsBytes(swap, gs)) && fileSize == |GroupsBytes(swap, gs)| + 3
    ensures dirs == Views(ItemsOf(gs))
  {
    hide ItemsBytes, GroupBytes, HeaderBytes, GetHeader;
    var bytes, size := at, fileSize + at - 3;
    dirs := [];
    ghost var g := 0;
    assert gs[..0] == [] && gs[..|gs|] == gs;
    while bytes < size
      invariant g <= |gs| && bytes == at + |GroupsBytes(swap, gs[..g])| <= size
      invariant dirs == Views(ItemsOf(gs[..g]))
      decreases size - bytes
    {
      GroupsAt(swap, gs, g, table, at);
      GroupsStep(swap, gs, g);
      GroupsPrefix(swap, gs, g + 1, table, at);
      ghost var group := gs[g];
      ghost var h := Header(|group.items| - 1, group.startBlock, group.inodeNumber);
      HeaderRead(swap, table, bytes, h);
      GroupLength(swap, group);
      var header := GetHeader(swap, table, bytes);
      bytes := bytes + HEADER_SIZE;
      var some;
      some, bytes := ReadGroup(swap, table, bytes, header, group);
      ViewsAppend(ItemsOf(gs[..g]), group.items);
      dirs, g := dirs + some, g + 1;
    }
    if g < |gs| {
      GroupsPrefix(swap, gs, g + 1, table, at);
      GroupsStep(swap, gs, g);
      GroupLength(swap, gs[g]);
      assert false;
    }
  }

  lemma GroupLength(swap: bool, g: Group)
    requires GroupOk(g)
    ensures |GroupBytes(swap, g)| == HEADER_SIZE + |ItemsBytes(swap, g.inodeNumber, g.startBlock, g.items)|
  {
  }

  lemma ViewsAppend(a: seq<Item>, b: seq<Item>)
    ensures Views(a + b) == Views(a) + Views(b)
  {
  }
}
