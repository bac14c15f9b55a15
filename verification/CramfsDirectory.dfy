/**
 The directory structure of a cramfs image. mkcramfs writes it with a stack of directories
 still to be written; what comes out is the recursive preorder of directories, each
 directory's entries in one piece.
 */
module CramfsDirectory {
  import opened Bytes
  import opened CramfsTree

  /** An entry as it is written: its number, what it is, and its own entries. */
  datatype Item = Item(id: nat, info: Info, child: Tree)

  // ---- the recursive order ----

  /** The entries of one directory. */
  function Block(t: Tree, id: nat): seq<Item> {
    if t.Nil? then [] else [Item(id, t.info, t.child)] + Block(t.next, id + 1 + Count(t.child))
  }

  /** The directories among them that are not empty. */
  function DirsOf(t: Tree, id: nat): seq<Item> {
    if t.Nil? then []
    else (if t.child.Node? then [Item(id, t.info, t.child)] else []) + DirsOf(t.next, id + 1 + Count(t.child))
  }

  /** A directory's entries, and then each of its directories in turn. */
  function Order(t: Tree, id: nat): seq<Item>
    decreases t, 1
  {
    Block(t, id) + Below(t, id)
  }

  function Below(t: Tree, id: nat): seq<Item>
    decreases t, 0
  {
    if t.Nil? then []
    else (if t.child.Node? then Order(t.child, id + 1) else []) + Below(t.next, id + 1 + Count(t.child))
  }

  function OrderAll(dirs: seq<Item>): seq<Item> {
    if dirs == [] then [] else Order(dirs[0].child, dirs[0].id + 1) + OrderAll(dirs[1..])
  }

  lemma NextDirs(t: Tree, id: nat)
    requires t.Node?
    ensures var rest := DirsOf(t.next, id + 1 + Count(t.child));
            if t.child.Node? then DirsOf(t, id) == [Item(id, t.info, t.child)] + rest && DirsOf(t, id)[1..] == rest
            else DirsOf(t, id) == rest
  {
  }

  lemma NoDirsOf(t: Tree, id: nat)
    ensures t.Nil? ==> DirsOf(t, id) == []
  {
  }

  lemma {:induction false} BelowIsOrderAll(t: Tree, id: nat)
    ensures Below(t, id) == OrderAll(DirsOf(t, id))
    decreases t
  {
    hide Order, DirsOf, Count;
    NoDirsOf(t, id);
    if t.Node? {
      BelowIsOrderAll(t.next, id + 1 + Count(t.child));
      NextDirs(t, id);
    }
  }

  lemma {:induction false} OrderAllConcat(a: seq<Item>, b: seq<Item>)
    ensures OrderAll(a + b) == OrderAll(a) + OrderAll(b)
    decreases |a|
  {
    hide Order;
    if a == [] {
      assert a + b == b;
    } else {
      OrderAllConcat(a[1..], b);
      assert (a + b)[1..] == a[1..] + b;
    }
  }

  // ---- every entry once ----

  function Ids(items: seq<Item>): (r: seq<nat>)
    ensures |r| == |items|
  {
    seq(|items|, k requires 0 <= k < |items| => items[k].id)
  }

  function Range(from: nat, n: nat): (r: seq<nat>)
    ensures |r| == n
  {
    seq(n, k => from + k)
  }

  lemma {:induction false} OrderOnce(t: Tree, id: nat)
    ensures multiset(Ids(Order(t, id))) == multiset(Range(id, Count(t)))
    decreases t
  {
    hide Order, Block, Below, Range, Ids;
    if t.Nil? {
      NoItems(t, id);
    } else {
      var n := Count(t.child);
      var rest := id + 1 + n;
      OrderOnce(t.child, id + 1);
      OrderOnce(t.next, rest);
      var child := if t.child.Node? then Order(t.child, id + 1) else [];
      RangeParts(id, n, Count(t.next));
      OrderParts(t, id);
      IdsParts(Item(id, t.info, t.child), Block(t.next, rest), child, Below(t.next, rest));
    }
  }

  lemma NoItems(t: Tree, id: nat)
    requires t.Nil?
    ensures Ids(Order(t, id)) == Range(id, Count(t)) == []
  {
  }

  lemma RangeParts(id: nat, n: nat, m: nat)
    ensures Range(id, 1 + n + m) == [id] + Range(id + 1, n) + Range(id + 1 + n, m)
  {
  }

  lemma OrderParts(t: Tree, id: nat)
    requires t.Node?
    ensures var child := if t.child.Node? then Order(t.child, id + 1) else [];
            var rest := id + 1 + Count(t.child);
            && Order(t, id) == ([Item(id, t.info, t.child)] + Block(t.next, rest)) + (child + Below(t.next, rest))
            && Order(t.next, rest) == Block(t.next, rest) + Below(t.next, rest)
            && Order(t.child, id + 1) == child
  {
  }

  lemma IdsConcat(a: seq<Item>, b: seq<Item>)
    ensures Ids(a + b) == Ids(a) + Ids(b)
  {
  }

  lemma IdsParts(i: Item, a: seq<Item>, b: seq<Item>, c: seq<Item>)
    ensures multiset(Ids(([i] + a) + (b + c))) == multiset{i.id} + multiset(Ids(b)) + multiset(Ids(a + c))
  {
    hide Ids;
    IdsConcat([i] + a, b + c);
    IdsConcat([i], a);
    IdsConcat(b, c);
    IdsConcat(a, c);
    IdsOne(i);
  }

  lemma IdsOne(i: Item)
    ensures Ids([i]) == [i.id]
  {
  }

  // ---- sizes ----

  function Sizes(items: seq<Item>): nat {
    if items == [] then 0 else RecordSize(items[0].info) + Sizes(items[1..])
  }

  /** All records of a tree together. */
  function AllSize(t: Tree): (r: nat)
    ensures r % 4 == 0
  {
    hide RecordSize;
    if t.Nil? then 0 else RecordSize(t.info) + AllSize(t.child) + AllSize(t.next)
  }

  function AllSizes(dirs: seq<Item>): nat {
    if dirs == [] then 0 else AllSize(dirs[0].child) + AllSizes(dirs[1..])
  }

  lemma {:induction false} SizesConcat(a: seq<Item>, b: seq<Item>)
    ensures Sizes(a + b) == Sizes(a) + Sizes(b)
    decreases |a|
  {
    if a == [] {
      assert a + b == b;
    } else {
      SizesConcat(a[1..], b);
      assert (a + b)[1..] == a[1..] + b;
    }
  }

  /** A directory's records take as many bytes as its inode says. */
  lemma {:induction false} BlockSize(t: Tree, id: nat)
    ensures Sizes(Block(t, id)) == DirSize(t)
    decreases t
  {
    if t.Node? {
      BlockSize(t.next, id + 1 + Count(t.child));
      assert Block(t, id)[1..] == Block(t.next, id + 1 + Count(t.child));
    }
  }

  lemma {:induction false} DirsSize(t: Tree, id: nat)
    ensures AllSize(t) == DirSize(t) + AllSizes(DirsOf(t, id))
    decreases t
  {
    if t.Node? {
      hide RecordSize;
      DirsSize(t.next, id + 1 + Count(t.child));
      NextDirs(t, id);
    }
  }

  // ---- where the directories go ----

  function Plus(a: map<nat, nat>, b: map<nat, nat>): map<nat, nat> { a + b }

  /** The offsets of the directories in t, when the first of their blocks goes to free. */
  function DirOffsets(t: Tree, id: nat, free: nat): map<nat, nat> {
    if t.Nil? then map[]
    else
      var rest := DirOffsets(t.next, id + 1 + Count(t.child), free + AllSize(t.child));
      if t.child.Nil? then rest
      else Plus(OffsetsOf(Item(id, t.info, t.child), free, DirOffsets(t.child, id + 1, free + DirSize(t.child))), rest)
  }

  /** A directory's own offset, and those below it. */
  function OffsetsOf(dir: Item, free: nat, below: map<nat, nat>): map<nat, nat> {
    Plus(map[dir.id := free], below)
  }

  function OffsetsAll(dirs: seq<Item>, free: nat): map<nat, nat> {
    if dirs == [] then map[]
    else
      var d := dirs[0];
      Plus(OffsetsOf(d, free, DirOffsets(d.child, d.id + 1, free + DirSize(d.child))),
          OffsetsAll(dirs[1..], free + AllSize(d.child)))
  }

  lemma PlusAssoc(a: map<nat, nat>, b: map<nat, nat>, c: map<nat, nat>)
    ensures Plus(Plus(a, b), c) == Plus(a, Plus(b, c)) && Plus(map[], a) == a && Plus(a, map[]) == a
  {
    assert (a + b) + c == a + (b + c);
    assert map[] + a == a && a + map[] == a;
  }

  lemma {:induction false} DirOffsetsAre(t: Tree, id: nat, free: nat)
    ensures DirOffsets(t, id, free) == OffsetsAll(DirsOf(t, id), free)
    decreases t
  {
    hide Plus, OffsetsOf, AllSize, DirSize;
    if t.Node? {
      DirOffsetsAre(t.next, id + 1 + Count(t.child), free + AllSize(t.child));
      NextDirs(t, id);
      if t.child.Nil? {
        EmptySize(t.child);
      }
    }
  }

  lemma EmptySize(t: Tree)
    requires t.Nil?
    ensures AllSize(t) == 0 && DirSize(t) == 0 && Count(t) == 0
  {
  }

  lemma {:induction false} OffsetsConcat(a: seq<Item>, b: seq<Item>, free: nat)
    ensures OffsetsAll(a + b, free) == Plus(OffsetsAll(a, free), OffsetsAll(b, free + AllSizes(a)))
    decreases |a|
  {
    hide Plus, DirOffsets, OffsetsOf, AllSize, DirSize;
    var last := OffsetsAll(b, free + AllSizes(a));
    if a == [] {
      assert a + b == b;
      PlusAssoc(last, map[], map[]);
    } else {
      var d := a[0];
      OffsetsConcat(a[1..], b, free + AllSize(d.child));
      assert (a + b)[1..] == a[1..] + b;
      PlusAssoc(OffsetsOf(d, free, DirOffsets(d.child, d.id + 1, free + DirSize(d.child))),
                OffsetsAll(a[1..], free + AllSize(d.child)), last);
    }
  }

  // ---- the stack ----

  function Rev<T>(s: seq<T>): (r: seq<T>)
    ensures |r| == |s| && forall i :: 0 <= i < |s| ==> r[i] == s[|s| - 1 - i]
  {
    seq(|s|, i requires 0 <= i < |s| => s[|s| - 1 - i])
  }

  /** The entries pushed for one directory, with the first on top: first in line. */
  lemma RevOnTop<T>(below: seq<T>, pushed: seq<T>)
    ensures Rev(below + Rev(pushed)) == pushed + Rev(below)
  {
  }

  lemma RevPop<T>(stack: seq<T>)
    requires stack != []
    ensures Rev(stack)[0] == stack[|stack| - 1] && Rev(stack)[1..] == Rev(stack[..|stack| - 1])
  {
  }

  /** The swaps that turn the upper part of the stack round. */
  method ReverseFrom<T>(stack: seq<T>, from: nat) returns (r: seq<T>)
    requires from <= |stack|
    ensures r == stack[..from] + Rev(stack[from..])
  {
    r := stack;
    var lo, hi := from, |stack| - 1;
    while lo < hi
      invariant from <= lo && |r| == |stack| && lo + hi == from + |stack| - 1 && lo <= hi + 1
      invariant forall k :: 0 <= k < from || lo <= k <= hi ==> r[k] == stack[k]
      invariant forall k :: from <= k < lo || hi < k < |r| ==> r[k] == stack[from + |stack| - 1 - k]
    {
      var x, y := r[lo], r[hi];
      assert from + |stack| - 1 - lo == hi && from + |stack| - 1 - hi == lo;
      r := r[lo := y][hi := x];
      lo, hi := lo + 1, hi - 1;
    }
    var up := stack[from..];
    forall k | from <= k < |r|
      ensures r[k] == Rev(up)[k - from]
    {
      assert r[k] == stack[from + |stack| - 1 - k];
    }
  }

  /** One directory: its entries are written, and those that are directories themselves and not empty are pushed. */
  method WriteList(t: Tree, id: nat, offset: nat) returns (items: seq<Item>, pushed: seq<Item>, end: nat)
    ensures items == Block(t, id) && pushed == DirsOf(t, id) && end == offset + DirSize(t)
  {
    hide RecordSize, Block, DirsOf;
    items, pushed, end := [], [], offset;
    assert [] + Block(t, id) == Block(t, id) && [] + DirsOf(t, id) == DirsOf(t, id);
    var entry: Tree, i: nat := t, id;
    while entry.Node?
      invariant items + Block(entry, i) == Block(t, id)
      invariant pushed + DirsOf(entry, i) == DirsOf(t, id)
      invariant end + DirSize(entry) == offset + DirSize(t)
      decreases entry
    {
      var item := Item(i, entry.info, entry.child);
      ListNext(entry, i, items, pushed);
      items, end := items + [item], end + RecordSize(entry.info);
      if entry.child.Node? {
        pushed := pushed + [item];
      }
      i := i + 1 + Count(entry.child);
      entry := entry.next;
    }
    assert Block(entry, i) == [] && DirsOf(entry, i) == [] by { ListEnds(entry, i); }
  }

  lemma ListNext(entry: Tree, i: nat, items: seq<Item>, pushed: seq<Item>)
    requires entry.Node?
    ensures var item, next := Item(i, entry.info, entry.child), i + 1 + Count(entry.child);
            && items + Block(entry, i) == (items + [item]) + Block(entry.next, next)
            && pushed + DirsOf(entry, i) == (if entry.child.Node? then pushed + [item] else pushed)
                + DirsOf(entry.next, next)
  {
    hide Count;
  }

  lemma ListEnds(entry: Tree, i: nat)
    requires entry.Nil?
    ensures Block(entry, i) == [] && DirsOf(entry, i) == []
  {
  }

  function Weights(dirs: seq<Item>): nat {
    if dirs == [] then 0 else Count(dirs[0].child) + Weights(dirs[1..])
  }

  lemma {:induction false} WeightsConcat(a: seq<Item>, b: seq<Item>)
    ensures Weights(a + b) == Weights(a) + Weights(b)
    decreases |a|
  {
    if a == [] {
      assert a + b == b;
    } else {
      WeightsConcat(a[1..], b);
      assert (a + b)[1..] == a[1..] + b;
    }
  }

  lemma {:induction false} DirsWeigh(t: Tree, id: nat)
    ensures Weights(DirsOf(t, id)) <= Count(t) && (t.Node? ==> Weights(DirsOf(t, id)) < Count(t))
    decreases t
  {
    if t.Node? {
      DirsWeigh(t.next, id + 1 + Count(t.child));
      NextDirs(t, id);
    }
  }

  ghost predicate AllBelow(off: map<nat, nat>, limit: nat) {
    forall d :: d in off ==> off[d] < limit
  }

  /** All items on the stack are directories that are not empty. */
  ghost predicate NotEmpty(dirs: seq<Item>) {
    forall k :: 0 <= k < |dirs| ==> dirs[k].child.Node?
  }

  lemma {:induction false} DirsNotEmpty(t: Tree, id: nat)
    ensures NotEmpty(DirsOf(t, id))
    decreases t
  {
    if t.Node? {
      DirsNotEmpty(t.next, id + 1 + Count(t.child));
    }
  }

  /** What is still to come: the directories on the stack, top first, from offset on. */
  ghost predicate ToCome(t: Tree, id: nat, start: nat, items: seq<Item>, off: map<nat, nat>, todo: seq<Item>,
                         offset: nat) {
    && items + OrderAll(todo) == Order(t, id)
    && Plus(off, OffsetsAll(todo, offset)) == DirOffsets(t, id, start + DirSize(t))
    && offset == start + Sizes(items) && offset % 4 == 0
    && NotEmpty(todo)
  }

  /** The first directory is done. */
  lemma FirstDone(t: Tree, id: nat, start: nat)
    requires start % 4 == 0
    ensures ToCome(t, id, start, Block(t, id), map[], DirsOf(t, id), start + DirSize(t))
  {
    hide OrderAll, OffsetsAll, DirOffsets, Plus, NotEmpty;
    BelowIsOrderAll(t, id);
    DirOffsetsAre(t, id, start + DirSize(t));
    PlusAssoc(OffsetsAll(DirsOf(t, id), start + DirSize(t)), map[], map[]);
    BlockSize(t, id);
    DirsNotEmpty(t, id);
  }

  /** The directory in front is taken up: its entries are written here, and its directories come before the others. */
  lemma NextDone(t: Tree, id: nat, start: nat, items: seq<Item>, off: map<nat, nat>, todo: seq<Item>, offset: nat)
    requires ToCome(t, id, start, items, off, todo, offset) && todo != []
    ensures var d := todo[0];
            ToCome(t, id, start, items + Block(d.child, d.id + 1), Plus(off, map[d.id := offset]),
                   DirsOf(d.child, d.id + 1) + todo[1..], offset + DirSize(d.child))
  {
    hide OrderAll, OffsetsAll, DirOffsets, Plus, Order, Block, DirsOf, Sizes, DirSize;
    var d := todo[0];
    NextItems(items, todo);
    NextOffsets(off, todo, offset);
    BlockSize(d.child, d.id + 1);
    SizesConcat(items, Block(d.child, d.id + 1));
    DirsNotEmpty(d.child, d.id + 1);
  }

  lemma NextItems(items: seq<Item>, todo: seq<Item>)
    requires todo != []
    ensures var d := todo[0];
            items + OrderAll(todo) == (items + Block(d.child, d.id + 1))
                + OrderAll(DirsOf(d.child, d.id + 1) + todo[1..])
  {
    hide Block, DirsOf, OrderAll;
    var d := todo[0];
    OrderFirst(todo);
    OrderAllConcat(DirsOf(d.child, d.id + 1), todo[1..]);
    Regroup(items, Block(d.child, d.id + 1), OrderAll(DirsOf(d.child, d.id + 1)), OrderAll(todo[1..]));
  }

  lemma OrderFirst(todo: seq<Item>)
    requires todo != []
    ensures var d := todo[0];
            OrderAll(todo) == (Block(d.child, d.id + 1) + OrderAll(DirsOf(d.child, d.id + 1))) + OrderAll(todo[1..])
  {
    hide Block, DirsOf, Below;
    BelowIsOrderAll(todo[0].child, todo[0].id + 1);
  }

  lemma Regroup<T>(a: seq<T>, b: seq<T>, c: seq<T>, d: seq<T>)
    ensures a + ((b + c) + d) == (a + b) + (c + d)
  {
  }

  lemma NextOffsets(off: map<nat, nat>, todo: seq<Item>, offset: nat)
    requires todo != []
    ensures var d := todo[0];
            Plus(off, OffsetsAll(todo, offset))
            == Plus(Plus(off, map[d.id := offset]), OffsetsAll(DirsOf(d.child, d.id + 1) + todo[1..],
                                                               offset + DirSize(d.child)))
  {
    hide Plus, DirOffsets, DirsOf, AllSize, DirSize, AllSizes;
    var d := todo[0];
    var own, free := map[d.id := offset], offset + DirSize(d.child);
    var below, rest := DirOffsets(d.child, d.id + 1, free), OffsetsAll(todo[1..], offset + AllSize(d.child));
    DirOffsetsAre(d.child, d.id + 1, free);
    DirsSize(d.child, d.id + 1);
    OffsetsConcat(DirsOf(d.child, d.id + 1), todo[1..], free);
    PlusAssoc(own, below, rest);
    PlusAssoc(off, own, Plus(below, rest));
  }

  /** write_directory_structure: what it writes, in order, and the offsets it sets in the directories' inodes. */
  method WriteDirectoryStructure(t: Tree, id: nat, start: nat)
    returns (items: seq<Item>, off: map<nat, nat>, end: nat, ok: bool)
    requires start % 4 == 0
    ensures items == Order(t, id) && end == start + Sizes(items) && end % 4 == 0
    ensures off == DirOffsets(t, id, start + DirSize(t))
    ensures ok <==> AllBelow(off, OFFSET_LIMIT)
  {
    hide Order, Block, DirsOf, DirOffsets, OffsetsAll, OrderAll, Sizes, DirSize, Weights, Count, Plus, ToCome, AllBelow;
    var stack: seq<Item>, pushed: seq<Item>, offset: nat;
    items, pushed, offset := WriteList(t, id, start);
    stack := ReverseFrom(pushed, 0);
    off, ok := map[], true;
    FirstDone(t, id, start);
    RevOnTop([], pushed);
    assert [] + Rev(pushed) == stack == pushed[..0] + Rev(pushed[0..]) by { assert pushed[0..] == pushed; }
    assert pushed + Rev<Item>([]) == pushed;
    assert AllBelow(off, OFFSET_LIMIT) by { NoneBelow(); }
    while stack != []
      invariant ToCome(t, id, start, items, off, Rev(stack), offset)
      invariant ok ==> AllBelow(off, OFFSET_LIMIT)
      invariant !ok ==> !AllBelow(off, OFFSET_LIMIT) && offset >= OFFSET_LIMIT
      decreases Weights(Rev(stack))
    {
      ghost var todo := Rev(stack);
      RevPop(stack);
      var d := stack[|stack| - 1];
      stack := stack[..|stack| - 1];
      NextDone(t, id, start, items, off, todo, offset);
      SetBelow(off, d.id, offset);
      assert d.child.Node? by { InFront(t, id, start, items, off, todo, offset); }
      ok := ok && offset < OFFSET_LIMIT;
      off := Plus(off, map[d.id := offset]);
      var more;
      more, pushed, offset := WriteList(d.child, d.id + 1, offset);
      items := items + more;
      RevOnTop(stack, pushed);
      Lighter(d, todo);
      var from := |stack|;
      var all := stack + pushed;
      assert all[..from] == stack && all[from..] == pushed;
      stack := ReverseFrom(all, from);
    }
    end := offset;
    assert Rev(stack) == [];
    AllDone(t, id, start, items, off, offset);
  }

  lemma NoneBelow()
    ensures AllBelow(map[], OFFSET_LIMIT)
  {
  }

  lemma SetBelow(off: map<nat, nat>, d: nat, offset: nat)
    ensures AllBelow(off, OFFSET_LIMIT) && offset < OFFSET_LIMIT ==> AllBelow(Plus(off, map[d := offset]), OFFSET_LIMIT)
    ensures offset >= OFFSET_LIMIT ==> !AllBelow(Plus(off, map[d := offset]), OFFSET_LIMIT)
  {
    var now := Plus(off, map[d := offset]);
    assert now[d] == offset;
  }

  lemma InFront(t: Tree, id: nat, start: nat, items: seq<Item>, off: map<nat, nat>, todo: seq<Item>, offset: nat)
    requires ToCome(t, id, start, items, off, todo, offset) && todo != []
    ensures todo[0].child.Node?
  {
  }

  lemma Lighter(d: Item, todo: seq<Item>)
    requires todo != [] && todo[0] == d && d.child.Node?
    ensures Weights(DirsOf(d.child, d.id + 1) + todo[1..]) < Weights(todo)
  {
    WeightsConcat(DirsOf(d.child, d.id + 1), todo[1..]);
    DirsWeigh(d.child, d.id + 1);
  }

  lemma AllDone(t: Tree, id: nat, start: nat, items: seq<Item>, off: map<nat, nat>, offset: nat)
    requires ToCome(t, id, start, items, off, [], offset)
    ensures items == Order(t, id) && off == DirOffsets(t, id, start + DirSize(t))
    ensures offset == start + Sizes(items) && offset % 4 == 0
  {
    hide Order, DirOffsets;
    PlusAssoc(off, map[], map[]);
    assert items + [] == items;
  }
}
