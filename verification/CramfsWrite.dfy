/**
 write_data: the data of all files and links, one after the other in preorder; an entry
 that is identical to an earlier one shares that one's data.
 */
module CramfsWrite {
  import opened Bytes
  import opened CramfsTree
  import opened CramfsDirectory
  import opened CramfsRecords
  import opened CramfsData

  /** The data of entry k stand in the area, which begins at base, where off says. */
  ghost predicate DataAt(cfg: Config, i: Info, area: seq<byte>, base: nat, o: nat)
    requires Lawful(cfg.z)
  {
    && base <= o < OFFSET_LIMIT && o % 4 == 0
    && Room(i.data, o)
    && Stands(area, o - base, Blob(cfg, i.data, o))
  }

  /** Entry k, if it has data, has an offset; a double has that of its original. */
  ghost predicate EntryOk(cfg: Config, infos: seq<Info>, same: map<nat, nat>, off: map<nat, nat>, area: seq<byte>,
                          base: nat, k: nat)
    requires Lawful(cfg.z) && k < |infos|
  {
    HasData(infos[k]) ==>
      && k in off && DataAt(cfg, infos[k], area, base, off[k])
      && (k in same ==> same[k] in off && off[k] == off[same[k]])
  }

  /** All entries before n are in order, originals one behind the other, the first at base. */
  ghost predicate DataOk(cfg: Config, infos: seq<Info>, same: map<nat, nat>, off: map<nat, nat>, area: seq<byte>,
                         base: nat, n: nat)
    requires Lawful(cfg.z) && n <= |infos|
  {
    && (forall k: nat :: k < n ==> EntryOk(cfg, infos, same, off, area, base, k))
    && (forall j: nat, k: nat :: j < k < n && Original(infos, same, j) && Original(infos, same, k) ==>
          Sooner(off, j, k))
    && (forall k: nat :: k < n && Original(infos, same, k) ==> Ends(infos, off, base + |area|, k))
    && (area == [] || exists k: nat :: k < n && StartsAt(infos, off, k, base))
  }

  predicate Original(infos: seq<Info>, same: map<nat, nat>, k: nat) {
    k < |infos| && HasData(infos[k]) && k !in same
  }

  predicate Sooner(off: map<nat, nat>, j: nat, k: nat) {
    j in off && k in off && off[j] < off[k]
  }

  predicate Ends(infos: seq<Info>, off: map<nat, nat>, end: nat, k: nat) {
    k in off && off[k] < end
  }

  predicate StartsAt(infos: seq<Info>, off: map<nat, nat>, k: nat, base: nat) {
    k < |infos| && HasData(infos[k]) && k in off && off[k] == base
  }

  lemma StandsStays(area: seq<byte>, more: seq<byte>, pos: nat, b: seq<byte>)
    requires Stands(area, pos, b)
    ensures Stands(area + more, pos, b)
  {
    assert (area + more)[pos..pos + |b|] == area[pos..pos + |b|];
  }

  lemma EntryStays(cfg: Config, infos: seq<Info>, same: map<nat, nat>, off: map<nat, nat>, area: seq<byte>,
                   more: seq<byte>, base: nat, k: nat, id: nat, o: nat)
    requires Lawful(cfg.z) && k < id < |infos| && EntryOk(cfg, infos, same, off, area, base, k)
             && (k in same ==> same[k] < k)
    ensures EntryOk(cfg, infos, same, off[id := o], area + more, base, k)
  {
    hide Blob, Stands, Room;
    if HasData(infos[k]) {
      StandsStays(area, more, off[k] - base, Blob(cfg, infos[k].data, off[k]));
    }
  }

  /** An entry without data changes nothing. */
  lemma SkipEntry(cfg: Config, infos: seq<Info>, same: map<nat, nat>, off: map<nat, nat>, area: seq<byte>, base: nat,
                  id: nat)
    requires Lawful(cfg.z) && id < |infos| && DataOk(cfg, infos, same, off, area, base, id) && !HasData(infos[id])
    ensures DataOk(cfg, infos, same, off, area, base, id + 1)
  {
    hide DataAt;
  }

  /** An original: its data go behind all others. */
  lemma AddOriginal(cfg: Config, infos: seq<Info>, same: map<nat, nat>, off: map<nat, nat>, area: seq<byte>,
                    base: nat, id: nat)
    requires Lawful(cfg.z) && id < |infos| && DataOk(cfg, infos, same, off, area, base, id)
    requires HasData(infos[id]) && id !in same && (forall k :: k in same ==> same[k] < k)
    requires var o := base + |area|; o % 4 == 0 && Room(infos[id].data, o)
    ensures var o := base + |area|;
            DataOk(cfg, infos, same, off[id := o], area + Blob(cfg, infos[id].data, o), base, id + 1)
  {
    var o := base + |area|;
    var blob := Blob(cfg, infos[id].data, o);
    BlobSize(cfg, infos[id].data, o);
    hide Blob;
    var off', area' := off[id := o], area + blob;
    assert Stands(area', o - base, blob);
    assert DataAt(cfg, infos[id], area', base, o);
    hide DataAt, Stands;
    forall k: nat | k < id + 1
      ensures EntryOk(cfg, infos, same, off', area', base, k)
    {
      if k < id {
        EntryStays(cfg, infos, same, off, area, blob, base, k, id, o);
      }
    }
    hide EntryOk;
    forall j: nat, k: nat | j < k < id + 1 && Original(infos, same, j) && Original(infos, same, k)
      ensures Sooner(off', j, k)
    {
      if k < id {
        assert Sooner(off, j, k);
      } else {
        assert Ends(infos, off, base + |area|, j);
      }
    }
    forall k: nat | k < id + 1 && Original(infos, same, k)
      ensures Ends(infos, off', base + |area'|, k)
    {
      if k < id {
        assert Ends(infos, off, base + |area|, k);
      }
    }
    if area == [] {
      assert StartsAt(infos, off', id, base);
    } else {
      var k: nat :| k < id && StartsAt(infos, off, k, base);
      assert StartsAt(infos, off', k, base);
    }
  }

  /** A double: it gets the offset that its original already has. */
  lemma AddDouble(cfg: Config, infos: seq<Info>, same: map<nat, nat>, off: map<nat, nat>, area: seq<byte>, base: nat,
                  id: nat)
    requires Lawful(cfg.z) && id < |infos| && DataOk(cfg, infos, same, off, area, base, id)
    requires HasData(infos[id]) && id in same && (forall k :: k in same ==> same[k] < k)
    requires same[id] < |infos| && Identical(infos[same[id]], infos[id])
    ensures same[id] in off && DataOk(cfg, infos, same, off[id := off[same[id]]], area, base, id + 1)
  {
    hide Blob, Stands;
    var m := same[id];
    assert EntryOk(cfg, infos, same, off, area, base, m);
    var o, off' := off[m], off[id := off[m]];
    assert DataAt(cfg, infos[id], area, base, o);
    hide DataAt;
    forall k: nat | k < id + 1
      ensures EntryOk(cfg, infos, same, off', area, base, k)
    {
      if k < id {
        EntryStays(cfg, infos, same, off, area, [], base, k, id, o);
        assert area + [] == area;
      }
    }
    hide EntryOk;
    forall j: nat, k: nat | j < k < id + 1 && Original(infos, same, j) && Original(infos, same, k)
      ensures Sooner(off', j, k)
    {
      assert Sooner(off, j, k);
    }
    forall k: nat | k < id + 1 && Original(infos, same, k)
      ensures Ends(infos, off', base + |area|, k)
    {
      assert Ends(infos, off, base + |area|, k);
    }
    if area != [] {
      var k: nat :| k < id && StartsAt(infos, off, k, base);
      assert StartsAt(infos, off', k, base);
    }
  }

  /** What parse_directory allows for the data of the entries: pointers, growth, the data and padding. */
  function Allowance(t: Tree): nat {
    if t.Nil? then 0 else InfoAllowance(t.info) + Allowance(t.child) + Allowance(t.next)
  }

  function InfoAllowance(i: Info): nat {
    if (IsReg(i.mode) || IsLink(i.mode)) && |i.data| > 0 then (4 + 26) * Blocks(|i.data|) + |i.data| + 3 else 0
  }

  /** off has been extended for entries with data only. */
  ghost predicate Extends(infos: seq<Info>, off: map<nat, nat>, off': map<nat, nat>) {
    && (forall k :: k in off' ==> k in off || (k < |infos| && HasData(infos[k])))
    && (forall k :: k in off && !(k < |infos| && HasData(infos[k])) ==> k in off' && off'[k] == off[k])
  }

  lemma ExtendsTrans(infos: seq<Info>, a: map<nat, nat>, b: map<nat, nat>, c: map<nat, nat>)
    requires Extends(infos, a, b) && Extends(infos, b, c)
    ensures Extends(infos, a, c)
  {
  }

  lemma ExtendsOne(infos: seq<Info>, off: map<nat, nat>, id: nat, o: nat)
    requires id < |infos| && HasData(infos[id])
    ensures Extends(infos, off, off[id := o]) && Extends(infos, off, off)
  {
  }

  lemma DataRoom(t: Tree, o: nat)
    requires TreeOk(t) && t.Node? && HasData(t.info) && o < OFFSET_LIMIT
    ensures Room(t.info.data, o) && t.info.data != [] && t.child.Nil?
  {
  }

  lemma SameFacts(infos: seq<Info>, same: map<nat, nat>, id: nat)
    requires SameOk(infos, same, |infos|) && id < |infos| && HasData(infos[id]) && infos[id].data != []
    ensures id in same ==> same[id] < id && Identical(infos[same[id]], infos[id])
  {
    assert SameAt(infos, same, id);
  }

  /** Every link to an identical entry leads backwards. */
  ghost predicate Backwards(same: map<nat, nat>) {
    forall k :: k in same ==> same[k] < k
  }

  /** More than the largest file can take. */
  const BLOB_LIMIT := 0x200_0000

  lemma BlobBelow(data: seq<byte>, offset: nat)
    requires Room(data, offset)
    ensures (4 + 26) * Blocks(|data|) + |data| + 3 < BLOB_LIMIT
  {
  }

  /** write_data, from entry id on. It stops as soon as an offset does not fit the inode. */
  method WriteData(cfg: Config, ghost root: Tree, t: Tree, id: nat, same: map<nat, nat>,
                   before: map<nat, nat>, written: seq<byte>, base: nat)
    returns (off: map<nat, nat>, area: seq<byte>, ok: bool)
    requires Lawful(cfg.z) && Within(root, t, id) && TreeOk(t)
    requires SameOk(Infos(root), same, |Infos(root)|) && Backwards(same)
    requires id <= |Infos(root)| && DataOk(cfg, Infos(root), same, before, written, base, id)
    requires (base + |written|) % 4 == 0 && AllBelow(before, OFFSET_LIMIT)
    ensures Extends(Infos(root), before, off) && AllBelow(off, OFFSET_LIMIT) && written <= area
    ensures ok ==> id + Count(t) <= |Infos(root)| && DataOk(cfg, Infos(root), same, off, area, base, id + Count(t))
    ensures (base + |area|) % 4 == 0 && |area| <= |written| + Allowance(t)
    ensures base + |area| <= Max(base + |written|, OFFSET_LIMIT + BLOB_LIMIT)
    ensures !ok ==> base + |area| >= OFFSET_LIMIT
    decreases t
  {
    hide DataOk, SameOk, Within, Infos, Extends, TreeOk, Backwards, Blob, Room, AllBelow, Allowance;
    off, area, ok := before, written, true;
    if t.Nil? {
      ExtendsSelf(Infos(root), off);
      return;
    }
    AllowanceParts(t);
    WithinParts(root, t, id);
    TreeParts(t);
    if HasData(t.info) {
      off, area, ok := WriteOne(cfg, Infos(root), t, id, same, off, area, base);
    } else {
      SkipEntry(cfg, Infos(root), same, off, area, base, id);
      ExtendsSelf(Infos(root), off);
    }
    if !ok {
      return;
    }
    ghost var off1 := off;
    off, area, ok := WriteData(cfg, root, t.child, id + 1, same, off, area, base);
    ExtendsTrans(Infos(root), before, off1, off);
    if !ok {
      return;
    }
    ghost var off2 := off;
    off, area, ok := WriteData(cfg, root, t.next, id + 1 + Count(t.child), same, off, area, base);
    ExtendsTrans(Infos(root), before, off2, off);
  }

  /** One entry with data. */
  method WriteOne(cfg: Config, ghost infos: seq<Info>, t: Tree, id: nat, same: map<nat, nat>,
                  before: map<nat, nat>, written: seq<byte>, base: nat)
    returns (off: map<nat, nat>, area: seq<byte>, ok: bool)
    requires Lawful(cfg.z) && TreeOk(t) && t.Node? && HasData(t.info)
    requires id < |infos| && infos[id] == t.info
    requires SameOk(infos, same, |infos|) && Backwards(same)
    requires DataOk(cfg, infos, same, before, written, base, id)
    requires (base + |written|) % 4 == 0 && AllBelow(before, OFFSET_LIMIT)
    ensures Extends(infos, before, off) && AllBelow(off, OFFSET_LIMIT) && written <= area
    ensures ok ==> DataOk(cfg, infos, same, off, area, base, id + 1)
    ensures (base + |area|) % 4 == 0 && |area| <= |written| + InfoAllowance(t.info)
    ensures base + |area| <= Max(base + |written|, OFFSET_LIMIT + BLOB_LIMIT)
    ensures !ok ==> base + |area| >= OFFSET_LIMIT
  {
    hide DataOk, SameOk, Extends, Blob, Room;
    off, area, ok := before, written, true;
    DataRoom(t, 0);
    SameFacts(infos, same, id);
    if id in same {
      AddDouble(cfg, infos, same, off, area, base, id);
      ExtendsOne(infos, off, id, off[same[id]]);
      off := off[id := off[same[id]]];
    } else {
      var offset := base + |area|;
      if offset >= OFFSET_LIMIT {
        ExtendsSelf(infos, off);
        ok := false;
        return;
      }
      DataRoom(t, offset);
      AddOriginal(cfg, infos, same, off, area, base, id);
      ExtendsOne(infos, off, id, offset);
      BlobSize(cfg, t.info.data, offset);
      BlobBelow(t.info.data, offset);
      var blob := DoCompress(cfg, offset, t.info.data);
      off, area := off[id := offset], area + blob;
    }
  }

  lemma ExtendsSelf(infos: seq<Info>, off: map<nat, nat>)
    ensures Extends(infos, off, off)
  {
  }

  lemma AllowanceParts(t: Tree)
    requires t.Node?
    ensures Allowance(t) == InfoAllowance(t.info) + Allowance(t.child) + Allowance(t.next)
  {
  }

  lemma TreeParts(t: Tree)
    requires t.Node? && TreeOk(t)
    ensures TreeOk(t.child) && TreeOk(t.next)
  {
  }

  /** Two entries with data share an offset exactly when their data are the same. */
  lemma SharedIffIdentical(cfg: Config, infos: seq<Info>, same: map<nat, nat>, off: map<nat, nat>, area: seq<byte>,
                           base: nat, j: nat, k: nat)
    requires Lawful(cfg.z) && j < k < |infos| && HasData(infos[j]) && HasData(infos[k]) && infos[j].data != []
             && infos[k].data != []
    requires SameOk(infos, same, |infos|) && DataOk(cfg, infos, same, off, area, base, |infos|)
    ensures j in off && k in off && (off[j] == off[k] <==> infos[j].data == infos[k].data)
  {
    var a := OriginalOf(cfg, infos, same, off, area, base, j);
    var b := OriginalOf(cfg, infos, same, off, area, base, k);
    hide SameOk, EntryOk;
    if a < b {
      assert Sooner(off, a, b);
    } else if b < a {
      assert Sooner(off, b, a);
    }
  }

  /** The original of an entry: the first with its data; it is no double itself. */
  lemma OriginalOf(cfg: Config, infos: seq<Info>, same: map<nat, nat>, off: map<nat, nat>, area: seq<byte>, base: nat,
                   k: nat)
    returns (m: nat)
    requires Lawful(cfg.z) && k < |infos| && HasData(infos[k]) && infos[k].data != []
    requires SameOk(infos, same, |infos|) && DataOk(cfg, infos, same, off, area, base, |infos|)
    ensures m <= k && First(infos, infos[k], m) && Original(infos, same, m)
    ensures k in off && m in off && off[k] == off[m]
  {
    assert SameAt(infos, same, k);
    assert EntryOk(cfg, infos, same, off, area, base, k);
    m := if k in same then same[k] else k;
    assert SameAt(infos, same, m);
  }
}
