/**
 The data of one file or link in a cramfs image: a pointer per block that says where the
 compressed block ends, then the compressed blocks. A block of zeros may take no bytes.
 */
module CramfsData {
  import opened Bytes
  import opened CramfsTree
  import opened CramfsRecords

  datatype Config = Config(z: Zlib, holes: bool)

  function Zeros(n: nat): (r: seq<byte>)
    ensures |r| == n
  {
    seq(n, _ => 0)
  }

  // ---- is_zero ----

  predicate AllZero(s: seq<byte>) {
    forall i :: 0 <= i < |s| ==> s[i] == 0
  }

  /** The first four bytes are looked at; then the rest is compared with the bytes four places before. */
  function IsZero(s: seq<byte>): bool {
    |s| == 0 || (s[0] == 0 &&
      (|s| == 1 || (s[1] == 0 &&
        (|s| == 2 || (s[2] == 0 &&
          (|s| == 3 || (s[3] == 0 && s[..|s| - 4] == s[4..])))))))
  }

  lemma IsZeroIff(s: seq<byte>)
    ensures IsZero(s) <==> AllZero(s)
  {
    if IsZero(s) && |s| > 3 {
      ZeroUpTo(s, |s|);
    }
  }

  lemma {:induction false} ZeroUpTo(s: seq<byte>, n: nat)
    requires |s| > 3 && s[0] == 0 && s[1] == 0 && s[2] == 0 && s[3] == 0 && s[..|s| - 4] == s[4..] && n <= |s|
    ensures forall i :: 0 <= i < n ==> s[i] == 0
  {
    if n > 0 {
      ZeroUpTo(s, n - 1);
      if n > 4 {
        assert s[4..][n - 5] == s[n - 1] && s[..|s| - 4][n - 5] == s[n - 5];
      }
    }
  }

  // ---- blocks ----

  function Blocks(size: nat): nat
    requires size > 0
  {
    (size - 1) / BLKSIZE + 1
  }

  /** Block k of the data, short if it is the last. */
  function Chunk(data: seq<byte>, k: nat): (c: seq<byte>)
    requires k * BLKSIZE < |data|
    ensures 0 < |c| <= BLKSIZE
  {
    data[k * BLKSIZE..if (k + 1) * BLKSIZE < |data| then (k + 1) * BLKSIZE else |data|]
  }

  function Stored(cfg: Config, c: seq<byte>): seq<byte> {
    if cfg.holes && AllZero(c) then [] else cfg.z.deflate(c)
  }

  /** The first k blocks, compressed. */
  function Packed(cfg: Config, data: seq<byte>, k: nat): seq<byte>
    requires k == 0 || (k - 1) * BLKSIZE < |data|
  {
    if k == 0 then [] else Packed(cfg, data, k - 1) + Stored(cfg, Chunk(data, k - 1))
  }

  /** No block grows by more than 26 bytes. */
  lemma {:induction false} PackedSize(cfg: Config, data: seq<byte>, k: nat)
    requires Lawful(cfg.z) && (k == 0 || (k - 1) * BLKSIZE < |data|)
    ensures |Packed(cfg, data, k)| <= (if k * BLKSIZE < |data| then k * BLKSIZE else |data|) + 26 * k
  {
    if k > 0 {
      PackedSize(cfg, data, k - 1);
      assert |Stored(cfg, Chunk(data, k - 1))| <= |Chunk(data, k - 1)| + 26;
    }
  }

  /** Where block k begins. */
  function Start(cfg: Config, data: seq<byte>, offset: nat, k: nat): nat
    requires |data| > 0 && (k == 0 || (k - 1) * BLKSIZE < |data|)
  {
    offset + 4 * Blocks(|data|) + |Packed(cfg, data, k)|
  }

  predicate Room(data: seq<byte>, offset: nat) {
    0 < |data| < SIZE_LIMIT && offset < OFFSET_LIMIT
  }

  lemma StartFits(cfg: Config, data: seq<byte>, offset: nat, k: nat)
    requires Lawful(cfg.z) && Room(data, offset) && (k == 0 || (k - 1) * BLKSIZE < |data|)
    ensures Start(cfg, data, offset, k) < 0x1_0000_0000
  {
    PackedSize(cfg, data, k);
  }

  /** The first k pointers: each says where its block ends. */
  ghost function Pointers(cfg: Config, data: seq<byte>, offset: nat, k: nat): (r: seq<byte>)
    requires Lawful(cfg.z) && Room(data, offset) && (k == 0 || (k - 1) * BLKSIZE < |data|)
    ensures |r| == 4 * k
  {
    if k == 0 then []
    else
      StartFits(cfg, data, offset, k);
      Pointers(cfg, data, offset, k - 1) + PutInt(Start(cfg, data, offset, k), false)
  }

  lemma LastBlock(size: nat)
    requires size > 0
    ensures (Blocks(size) - 1) * BLKSIZE < size <= Blocks(size) * BLKSIZE
  {
  }

  /** What stands in the image for some data at offset. */
  ghost function Blob(cfg: Config, data: seq<byte>, offset: nat): (r: seq<byte>)
    requires Lawful(cfg.z) && Room(data, offset)
  {
    LastBlock(|data|);
    var n := Blocks(|data|);
    var body := Pointers(cfg, data, offset, n) + Packed(cfg, data, n);
    body + Zeros(Pad4(|body|) - |body|)
  }

  /** The allowance that parse_directory makes for it is enough. */
  lemma BlobSize(cfg: Config, data: seq<byte>, offset: nat)
    requires Lawful(cfg.z) && Room(data, offset)
    ensures var n := Blocks(|data|); 0 < |Blob(cfg, data, offset)| <= (4 + 26) * n + |data| + 3
    ensures |Blob(cfg, data, offset)| % 4 == 0
  {
    LastBlock(|data|);
    PackedSize(cfg, data, Blocks(|data|));
  }

  lemma BlockNext(cfg: Config, data: seq<byte>, offset: nat, k: nat)
    requires Lawful(cfg.z) && Room(data, offset) && k * BLKSIZE < |data|
    ensures var c := Stored(cfg, Chunk(data, k));
            && Packed(cfg, data, k + 1) == Packed(cfg, data, k) + c
            && Start(cfg, data, offset, k + 1) == Start(cfg, data, offset, k) + |c| < 0x1_0000_0000
            && Pointers(cfg, data, offset, k + 1)
               == Pointers(cfg, data, offset, k) + PutInt(Start(cfg, data, offset, k + 1), false)
  {
    hide Stored;
    StartFits(cfg, data, offset, k + 1);
  }

  lemma NoBlocks(cfg: Config, data: seq<byte>, offset: nat)
    requires Lawful(cfg.z) && Room(data, offset)
    ensures Packed(cfg, data, 0) == [] && Pointers(cfg, data, offset, 0) == []
    ensures Start(cfg, data, offset, 0) == offset + 4 * Blocks(|data|)
  {
  }

  /** do_compress. */
  method DoCompress(cfg: Config, offset: nat, data: seq<byte>) returns (blob: seq<byte>)
    requires Lawful(cfg.z) && Room(data, offset)
    ensures blob == Blob(cfg, data, offset)
  {
    hide PutInt, Pointers, Packed, Start, AllZero, IsZero;
    LastBlock(|data|);
    var blocks := (|data| - 1) / BLKSIZE + 1;
    var pointers, packed, curr, size, k := [], [], offset + 4 * blocks, |data|, 0;
    NoBlocks(cfg, data, offset);
    while true
      invariant 0 <= k < blocks && size == |data| - k * BLKSIZE && size > 0
      invariant pointers == Pointers(cfg, data, offset, k) && packed == Packed(cfg, data, k)
      invariant curr == Start(cfg, data, offset, k)
      decreases blocks - k
    {
      var input := if size > BLKSIZE then BLKSIZE else size;
      var chunk := data[|data| - size..|data| - size + input];
      assert chunk == Chunk(data, k);
      IsZeroIff(chunk);
      BlockNext(cfg, data, offset, k);
      size := size - input;
      if !(cfg.holes && IsZero(chunk)) {
        var c := cfg.z.deflate(chunk);
        packed, curr := packed + c, curr + |c|;
      }
      pointers := pointers + PutInt(curr, false);
      k := k + 1;
      if size == 0 {
        break;
      }
    }
    blob := pointers + packed;
    blob := blob + Zeros(Pad4(|blob|) - |blob|);
  }

  // ---- reading it back ----

  lemma {:induction false} PrefixOf(cfg: Config, data: seq<byte>, offset: nat, k: nat, n: nat)
    requires Lawful(cfg.z) && Room(data, offset) && k <= n && (n == 0 || (n - 1) * BLKSIZE < |data|)
    ensures Packed(cfg, data, k) <= Packed(cfg, data, n)
    ensures Pointers(cfg, data, offset, k) <= Pointers(cfg, data, offset, n)
    decreases n
  {
    hide PutInt, Stored, Start, Packed, Pointers;
    if k < n {
      PrefixOf(cfg, data, offset, k, n - 1);
      BlockNext(cfg, data, offset, n - 1);
    }
  }

  lemma Middle<T>(all: seq<T>, upTo: seq<T>, before: seq<T>, piece: seq<T>)
    requires upTo == before + piece && upTo <= all
    ensures all[|before|..|before| + |piece|] == piece
  {
    assert all[..|upTo|] == upTo;
    assert all[|before|..|before| + |piece|] == all[..|upTo|][|before|..];
  }

  lemma StandsSlice(img: seq<byte>, pos: nat, b: seq<byte>, from: nat, piece: seq<byte>)
    requires Stands(img, pos, b) && from + |piece| <= |b| && b[from..from + |piece|] == piece
    ensures Stands(img, pos + from, piece)
  {
    Sliced(img, pos, b, from, from + |piece|);
  }

  /** Pointer k says where block k ends, and block k stands between its pointer and the one before. */
  lemma BlobPieces(cfg: Config, data: seq<byte>, offset: nat, img: seq<byte>, k: nat)
    requires Lawful(cfg.z) && Room(data, offset) && Stands(img, offset, Blob(cfg, data, offset)) && k < Blocks(|data|)
    ensures k * BLKSIZE < |data| && Start(cfg, data, offset, k + 1) < 0x1_0000_0000
    ensures Stands(img, offset + 4 * k, PutInt(Start(cfg, data, offset, k + 1), false))
    ensures Stands(img, Start(cfg, data, offset, k), Stored(cfg, Chunk(data, k)))
    ensures Start(cfg, data, offset, k + 1) == Start(cfg, data, offset, k) + |Stored(cfg, Chunk(data, k))|
    ensures Start(cfg, data, offset, k + 1) <= offset + |Blob(cfg, data, offset)|
  {
    hide PutInt, Stored, Packed, Pointers, Blob, Stands, Start, Chunk;
    var n := Blocks(|data|);
    LastBlock(|data|);
    BlobParts(cfg, data, offset, img);
    BlockNext(cfg, data, offset, k);
    PrefixOf(cfg, data, offset, k + 1, n);
    PrefixOf(cfg, data, offset, k, n);
    StartIs(cfg, data, offset, k);
    StartIs(cfg, data, offset, k + 1);
    var pointers, packed := Pointers(cfg, data, offset, n), Packed(cfg, data, n);
    var p, c := PutInt(Start(cfg, data, offset, k + 1), false), Stored(cfg, Chunk(data, k));
    Middle(pointers, Pointers(cfg, data, offset, k + 1), Pointers(cfg, data, offset, k), p);
    StandsSlice(img, offset, pointers, 4 * k, p);
    Middle(packed, Packed(cfg, data, k + 1), Packed(cfg, data, k), c);
    StandsSlice(img, offset + 4 * n, packed, |Packed(cfg, data, k)|, c);
  }

  lemma StartIs(cfg: Config, data: seq<byte>, offset: nat, k: nat)
    requires |data| > 0 && (k == 0 || (k - 1) * BLKSIZE < |data|)
    ensures Start(cfg, data, offset, k) == offset + 4 * Blocks(|data|) + |Packed(cfg, data, k)|
  {
  }

  lemma BlobParts(cfg: Config, data: seq<byte>, offset: nat, img: seq<byte>)
    requires Lawful(cfg.z) && Room(data, offset) && Stands(img, offset, Blob(cfg, data, offset))
    ensures var n := Blocks(|data|);
            && (n - 1) * BLKSIZE < |data|
            && Stands(img, offset, Pointers(cfg, data, offset, n)) && Stands(img, offset + 4 * n, Packed(cfg, data, n))
            && 4 * n + |Packed(cfg, data, n)| <= |Blob(cfg, data, offset)|
  {
    hide Packed, Pointers, Stands;
    var n := Blocks(|data|);
    LastBlock(|data|);
    var pointers, packed := Pointers(cfg, data, offset, n), Packed(cfg, data, n);
    var body := pointers + packed;
    StandsParts(img, offset, body, Zeros(Pad4(|body|) - |body|));
    StandsParts(img, offset, pointers, packed);
  }

  // ---- the checker's window on the image ----

  const ROMBUFFERSIZE := 0x2000

  class Rom {
    const image: seq<byte>
    const buffer: array<byte>
    var block: int

    /** What is in the buffer is the image from the block on, as far as the image goes. */
    ghost predicate Valid()
      reads this, buffer
    {
      && buffer.Length == 2 * ROMBUFFERSIZE
      && (block >= 0 ==>
            forall k :: 0 <= k < 2 * ROMBUFFERSIZE && block * ROMBUFFERSIZE + k < |image| ==>
              buffer[k] == image[block * ROMBUFFERSIZE + k])
    }

    constructor (image: seq<byte>)
      ensures Valid() && fresh(buffer) && this.image == image
    {
      this.image, block := image, -1;
      buffer := new byte[2 * ROMBUFFERSIZE](_ => 0);
    }

    /** romfs_read: a window that shows the image from offset on for at least eight kilobytes. */
    method Read(offset: nat) returns (view: seq<byte>)
      requires Valid()
      modifies this`block, buffer
      ensures Valid() && |view| > ROMBUFFERSIZE
      ensures forall k :: 0 <= k < |view| && offset + k < |image| ==> view[k] == image[offset + k]
    {
      var b := offset / ROMBUFFERSIZE;
      if b != block {
        block := b;
        var i := 0;
        while i < 2 * ROMBUFFERSIZE && b * ROMBUFFERSIZE + i < |image|
          invariant 0 <= i <= 2 * ROMBUFFERSIZE && block == b
          invariant forall k :: 0 <= k < i && b * ROMBUFFERSIZE + k < |image| ==>
                      buffer[k] == image[b * ROMBUFFERSIZE + k]
        {
          buffer[i] := image[b * ROMBUFFERSIZE + i];
          i := i + 1;
        }
      }
      view := buffer[offset % ROMBUFFERSIZE..];
      forall k | 0 <= k < |view| && offset + k < |image|
        ensures view[k] == image[offset + k]
      {
        assert view[k] == buffer[offset % ROMBUFFERSIZE + k];
        assert offset + k == b * ROMBUFFERSIZE + (offset % ROMBUFFERSIZE + k);
      }
    }

    /** The first n bytes at offset. */
    method Get(offset: nat, n: nat) returns (b: seq<byte>)
      requires Valid() && n <= ROMBUFFERSIZE
      modifies this`block, buffer
      ensures Valid() && |b| == n && (offset + n <= |image| ==> b == image[offset..offset + n])
    {
      var view := Read(offset);
      b := view[..n];
    }
  }
}
