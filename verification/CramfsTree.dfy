/**
 The tree of entries that mkcramfs builds and writes: every entry has a first child and a
 next sibling. Entries are numbered in preorder, the order in which the source's recursive
 functions visit them; what the source keeps in an entry (the link to an identical file,
 the offsets) is kept by number.
 */
module CramfsTree {
  import opened Bytes

  const INODE_SIZE := 12
  const SUPER_SIZE := 76
  const BLKSIZE := 4096
  const MAX_NAME := 252
  const SIZE_LIMIT := 0x100_0000        // 1 << CRAMFS_SIZE_WIDTH
  const OFFSET_LIMIT := 0x1000_0000     // 1 << (2 + CRAMFS_OFFSET_WIDTH)

  /** What an entry is; data are the bytes of a file or the target of a link. */
  datatype Info = Info(name: seq<byte>, mode: nat, uid: nat, gid: nat, data: seq<byte>, rdev: nat)

  datatype Tree = Nil | Node(info: Info, child: Tree, next: Tree)

  predicate IsDir(mode: nat) { mode / 0x1000 == 4 }

  predicate IsReg(mode: nat) { mode / 0x1000 == 8 }

  predicate IsLink(mode: nat) { mode / 0x1000 == 10 }

  predicate IsDevice(mode: nat) { mode / 0x1000 == 2 || mode / 0x1000 == 6 }

  predicate IsPipeOrSocket(mode: nat) { mode / 0x1000 == 1 || mode / 0x1000 == 12 }

  /** The entry has data of its own in the image: a file that is not empty, or a link. */
  predicate HasData(i: Info) {
    (IsReg(i.mode) && i.data != []) || IsLink(i.mode)
  }

  function Max(a: nat, b: nat): nat { if a < b then b else a }
  function Min(a: nat, b: nat): nat { if a < b then a else b }

  function Pad4(n: nat): (r: nat)
    ensures n <= r <= n + 3 && r % 4 == 0
  {
    (n + 3) / 4 * 4
  }

  /** The inode and the padded name. */
  function RecordSize(i: Info): (r: nat)
    ensures r % 4 == 0 && r >= INODE_SIZE
  {
    INODE_SIZE + Pad4(|i.name|)
  }

  /** What parse_directory returns for a directory: the size of the records of its entries. */
  function DirSize(t: Tree): (r: nat)
    ensures r % 4 == 0
  {
    hide RecordSize;
    if t.Nil? then 0 else RecordSize(t.info) + DirSize(t.next)
  }

  /** The size field of an inode. */
  function SizeField(i: Info, child: Tree): nat {
    if IsDir(i.mode) then DirSize(child)
    else if IsReg(i.mode) || IsLink(i.mode) then |i.data|
    else if IsDevice(i.mode) then i.rdev
    else 0
  }

  // ---- numbers ----

  function Count(t: Tree): nat {
    if t.Nil? then 0 else 1 + Count(t.child) + Count(t.next)
  }

  function Infos(t: Tree): (r: seq<Info>)
    ensures |r| == Count(t)
  {
    if t.Nil? then [] else [t.info] + Infos(t.child) + Infos(t.next)
  }

  // ---- identical files ----

  predicate Identical(a: Info, b: Info) {
    HasData(a) && a.data == b.data
  }

  /** k is the first of the entries whose data are those of x. */
  ghost predicate First(infos: seq<Info>, x: Info, k: nat) {
    k < |infos| && Identical(infos[k], x) && forall j :: 0 <= j < k ==> !Identical(infos[j], x)
  }

  datatype Search = NotFound | Itself | Same(id: nat)

  /**
   find_identical_file: looks through the entries from t on, numbered from id, for one with the data of x, and stops
   at x itself.
   */
  function FindIdenticalFile(t: Tree, id: nat, self: nat, x: Info): Search {
    if t.Nil? then NotFound
    else if id == self then Itself
    else if |t.info.data| == |x.data| && HasData(t.info) && t.info.data == x.data then Same(id)
    else
      var r := FindIdenticalFile(t.child, id + 1, self, x);
      if r != NotFound then r else FindIdenticalFile(t.next, id + 1 + Count(t.child), self, x)
  }

  /** What the search finds: the first identical entry before self, or self. */
  ghost predicate Finds(infos: seq<Info>, id: nat, self: nat, x: Info, r: Search) {
    match r
    case NotFound => self >= id + |infos| && forall j :: 0 <= j < |infos| ==> !Identical(infos[j], x)
    case Itself => id <= self < id + |infos| && forall j :: 0 <= j < self - id ==> !Identical(infos[j], x)
    case Same(k) => id <= k < self && k < id + |infos| && First(infos, x, k - id)
  }

  lemma {:induction false} FindsFirst(t: Tree, id: nat, self: nat, x: Info)
    requires self >= id
    ensures Finds(Infos(t), id, self, x, FindIdenticalFile(t, id, self, x))
    decreases t
  {
    if t.Node? && id != self && !Identical(t.info, x) {
      FindsFirst(t.child, id + 1, self, x);
      var a, b := Infos(t.child), Infos(t.next);
      var r := FindIdenticalFile(t.child, id + 1, self, x);
      assert Infos(t) == [t.info] + a + b;
      if r == NotFound {
        FindsFirst(t.next, id + 1 + |a|, self, x);
        LaterFinds(t.info, a, b, id, self, x, FindIdenticalFile(t.next, id + 1 + |a|, self, x));
      } else {
        SoonerFinds(t.info, a, b, id, self, x, r);
      }
    }
  }

  lemma SoonerFinds(i: Info, a: seq<Info>, b: seq<Info>, id: nat, self: nat, x: Info, r: Search)
    requires !Identical(i, x) && self > id && Finds(a, id + 1, self, x, r) && r != NotFound
    ensures Finds([i] + a + b, id, self, x, r)
  {
    var all := [i] + a + b;
    assert forall j :: 0 <= j < |a| ==> all[j + 1] == a[j];
    assert forall j :: 1 <= j <= |a| ==> all[j] == a[j - 1];
  }

  lemma LaterFinds(i: Info, a: seq<Info>, b: seq<Info>, id: nat, self: nat, x: Info, r: Search)
    requires !Identical(i, x) && self > id && Finds(a, id + 1, self, x, NotFound)
    requires Finds(b, id + 1 + |a|, self, x, r)
    ensures Finds([i] + a + b, id, self, x, r)
  {
    var all, n := [i] + a + b, 1 + |a|;
    assert forall j :: 1 <= j <= |a| ==> all[j] == a[j - 1];
    assert forall j :: n <= j < |all| ==> all[j] == b[j - n];
  }

  /** same is right for the entries before n: it leads to the first identical entry, if that is another one. */
  ghost predicate SameOk(infos: seq<Info>, same: map<nat, nat>, n: nat) {
    && (forall k :: k in same ==> same[k] < k < n)
    && forall k: nat :: k < n && k < |infos| && HasData(infos[k]) && infos[k].data != [] ==> SameAt(infos, same, k)
  }

  ghost predicate SameAt(infos: seq<Info>, same: map<nat, nat>, k: nat)
    requires k < |infos|
  {
    if k in same then same[k] < k && First(infos, infos[k], same[k]) else First(infos, infos[k], k)
  }

  /** The entries of t are those of root from id on. */
  ghost predicate Within(root: Tree, t: Tree, id: nat) {
    id + Count(t) <= Count(root) && Infos(root)[id..id + Count(t)] == Infos(t)
  }

  lemma WithinParts(root: Tree, t: Tree, id: nat)
    requires Within(root, t, id) && t.Node?
    ensures id < Count(root) == |Infos(root)| && Infos(root)[id] == t.info
    ensures Within(root, t.child, id + 1) && Within(root, t.next, id + 1 + Count(t.child))
  {
    hide Infos;
    var n, m := Count(t.child), Count(t);
    InfosParts(t);
    Sliced(Infos(root), id, Infos(t), 0, 1);
    Sliced(Infos(root), id, Infos(t), 1, 1 + n);
    Sliced(Infos(root), id, Infos(t), 1 + n, m);
  }

  lemma Sliced<T>(s: seq<T>, a: nat, part: seq<T>, i: nat, j: nat)
    requires a + |part| <= |s| && s[a..a + |part|] == part && i <= j <= |part|
    ensures s[a + i..a + j] == part[i..j] && (i < j ==> s[a + i] == part[i])
  {
    forall k | i <= k < j
      ensures s[a + k] == part[k]
    {
      assert s[a..a + |part|][k] == part[k];
    }
    var x, y := s[a + i..a + j], part[i..j];
    assert |x| == |y| && forall k :: 0 <= k < |x| ==> x[k] == y[k];
  }

  lemma InfosParts(t: Tree)
    requires t.Node?
    ensures var part, n := Infos(t), Count(t.child);
            part[0] == t.info && part[1..1 + n] == Infos(t.child) && part[1 + n..Count(t)] == Infos(t.next)
  {
    ThreeParts(t.info, Infos(t.child), Infos(t.next));
    assert Infos(t) == [t.info] + Infos(t.child) + Infos(t.next);
    hide Infos;
  }

  lemma ThreeParts(x: Info, a: seq<Info>, b: seq<Info>)
    ensures var s := [x] + a + b; s[0] == x && s[1..1 + |a|] == a && s[1 + |a|..1 + |a| + |b|] == b
  {
  }

  lemma SameNext(infos: seq<Info>, same: map<nat, nat>, id: nat, r: Search)
    requires SameOk(infos, same, id) && id < |infos| && HasData(infos[id]) && infos[id].data != []
    requires Finds(infos, 0, id, infos[id], r)
    ensures SameOk(infos, if r.Same? then same[id := r.id] else same, id + 1)
  {
    var now := if r.Same? then same[id := r.id] else same;
    forall k: nat | k < id + 1 && k < |infos| && HasData(infos[k]) && infos[k].data != []
      ensures SameAt(infos, now, k)
    {
      if k < id {
        assert SameAt(infos, same, k);
      }
    }
  }

  lemma SameSkips(infos: seq<Info>, same: map<nat, nat>, id: nat)
    requires SameOk(infos, same, id) && id < |infos| && !(HasData(infos[id]) && infos[id].data != [])
    ensures SameOk(infos, same, id + 1)
  {
  }

  /** eliminate_doubles, from entry id on. */
  method EliminateDoubles(root: Tree, t: Tree, id: nat, before: map<nat, nat>) returns (same: map<nat, nat>)
    requires Within(root, t, id) && SameOk(Infos(root), before, id)
    ensures SameOk(Infos(root), same, id + Count(t))
    decreases t
  {
    hide SameOk, Within, Infos, Finds, FindIdenticalFile;
    same := before;
    if t.Node? {
      WithinParts(root, t, id);
      if t.info.data != [] && HasData(t.info) {
        FindsFirst(root, 0, id, t.info);
        var r := FindIdenticalFile(root, 0, id, t.info);
        SameNext(Infos(root), same, id, r);
        if r.Same? {
          same := same[id := r.id];
        }
      } else {
        SameSkips(Infos(root), same, id);
      }
      same := EliminateDoubles(root, t.child, id + 1, same);
      same := EliminateDoubles(root, t.next, id + 1 + Count(t.child), same);
    }
  }
}
