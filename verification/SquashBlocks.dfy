/**
 Compressed blocks of a squashfs image: how one block is written and read, and how a
 stream of metadata is cut into blocks of 8192 bytes.
 */
module SquashBlocks {
  import opened Bytes

  const METADATA_SIZE := 8192
  const COMPRESSED_BIT := 0x8000          // metadata blocks
  const COMPRESSED_BIT_BLOCK := 0x100_0000  // data blocks
  const MARKER_BYTE: byte := 0xFF

  /** Settings that writer and reader share through the superblock. */
  datatype Config = Config(z: Zlib, noI: bool, checkData: bool, swap: bool)

  // ---- one block ----

  /** The size code of a block and the bytes stored for it. */
  datatype Mangled = Mangled(code: nat, stored: seq<byte>)

  /** The bit says the block is stored as it is, either on request or because compressing does not help. */
  function Mangle(z: Zlib, s: seq<byte>, uncompressed: bool, bit: nat): Mangled {
    var d := z.deflate(s);
    if uncompressed || |d| >= |s| then Mangled(|s| + bit, s) else Mangled(|d|, d)
  }

  function IsCompressed(code: nat, bit: nat): bool
    requires bit > 0
  {
    code / bit % 2 == 0
  }

  /** SQUASHFS_COMPRESSED_SIZE and SQUASHFS_COMPRESSED_SIZE_BLOCK. */
  function CompressedSize(code: nat, bit: nat): nat
    requires bit > 0
  {
    var masked := if IsCompressed(code, bit) then code else code - bit;
    if masked != 0 then masked else bit
  }

  function Unmangle(z: Zlib, code: nat, stored: seq<byte>, bit: nat): Option<seq<byte>>
    requires bit > 0
  {
    if IsCompressed(code, bit) then z.inflate(stored) else Some(stored)
  }

  /**
   A block and what is stored for it: the shorter one of the block and its deflated form, or the block itself where
   compression is off or does not help. The size code says which it is, and how long.
   */
  ghost predicate Compact(z: Zlib, s: seq<byte>, plain: bool, bit: nat, code: nat, stored: seq<byte>)
    requires bit > 0
  {
    && |stored| == CompressedSize(code, bit) == (if plain then |s| else Min(|s|, |z.deflate(s)|))
    && (IsCompressed(code, bit) <==> !plain && |z.deflate(s)| < |s|)
    && (IsCompressed(code, bit) ==> stored == z.deflate(s)) && (!IsCompressed(code, bit) ==> stored == s)
  }

  /** The size code gives back the stored length, and the stored bytes the block; no more is stored than need be. */
  lemma UnmangleMangle(z: Zlib, s: seq<byte>, uncompressed: bool, bit: nat)
    requires Lawful(z) && 0 < |s| < bit
    ensures var m := Mangle(z, s, uncompressed, bit);
            && m.code < 2 * bit
            && 0 < |m.stored| <= |s|
            && CompressedSize(m.code, bit) == |m.stored|
            && Unmangle(z, m.code, m.stored, bit) == Some(s)
            && Compact(z, s, uncompressed, bit, m.code, m.stored)
  {
    var m := Mangle(z, s, uncompressed, bit);
    var d := z.deflate(s);
    if uncompressed || |d| >= |s| {
      assert m.code / bit == 1 by { DivideOnce(|s|, bit); }
    } else {
      assert m.code / bit == 0;
    }
  }

  lemma DivideOnce(n: nat, bit: nat)
    requires n < bit
    ensures (n + bit) / bit == 1
  {
    assert n / bit == 0;
  }

  // ---- a metadata block with its header ----

  function HeaderSize(cfg: Config): nat { if cfg.checkData then 3 else 2 }

  function Header(cfg: Config, code: nat): (h: seq<byte>)
    requires code < 0x1_0000
    ensures |h| == HeaderSize(cfg)
  {
    PutShort(code, cfg.swap) + if cfg.checkData then [MARKER_BYTE] else []
  }

  function BlockBytes(cfg: Config, s: seq<byte>): seq<byte>
    requires |s| <= METADATA_SIZE
  {
    var m := Mangle(cfg.z, s, cfg.noI, COMPRESSED_BIT);
    Header(cfg, m.code) + m.stored
  }

  datatype Block = Block(data: seq<byte>, next: nat)

  /** unsquashfs read_block: the block at start, and where the next one starts. */
  function ReadBlock(cfg: Config, disk: seq<byte>, start: nat): Option<Block> {
    var h := HeaderSize(cfg);
    if start + h > |disk| then None
    else
      var code := GetShort(disk[start..start + 2], cfg.swap);
      var size := CompressedSize(code, COMPRESSED_BIT);
      if start + h + size > |disk| then None
      else
        match Unmangle(cfg.z, code, disk[start + h..start + h + size], COMPRESSED_BIT)
        case None => None
        case Some(data) =>
          if 0 < |data| <= METADATA_SIZE then Some(Block(data, start + h + size)) else None
  }

  lemma ReadBlockBytes(cfg: Config, s: seq<byte>, before: seq<byte>, after: seq<byte>)
    requires Lawful(cfg.z) && 0 < |s| <= METADATA_SIZE
    ensures var b := BlockBytes(cfg, s);
            |b| > 0 && ReadBlock(cfg, before + b + after, |before|) == Some(Block(s, |before| + |b|))
  {
    hide Mangle, Unmangle, CompressedSize, PutShort, GetShort;
    UnmangleMangle(cfg.z, s, cfg.noI, COMPRESSED_BIT);
    var m := Mangle(cfg.z, s, cfg.noI, COMPRESSED_BIT);
    BlockSlices(before, PutShort(m.code, cfg.swap), if cfg.checkData then [MARKER_BYTE] else [], m.stored, after);
    GetPutShort(m.code, cfg.swap);
  }

  lemma BlockSlices(before: seq<byte>, code: seq<byte>, marker: seq<byte>, stored: seq<byte>, after: seq<byte>)
    ensures var disk := before + ((code + marker) + stored) + after;
            var start, h := |before|, |code + marker|;
            && disk[start..start + |code|] == code && disk[start + h..start + h + |stored|] == stored
            && |disk| >= start + h + |stored|
  {
  }

  // ---- a stream cut into blocks ----

  function Min(a: nat, b: nat): nat { if a < b then a else b }

  function EncodeBlocks(cfg: Config, s: seq<byte>): seq<byte> {
    if s == [] then []
    else
      var n := Min(METADATA_SIZE, |s|);
      BlockBytes(cfg, s[..n]) + EncodeBlocks(cfg, s[n..])
  }

  /** A metadata table: for 8192 bytes of the stream, or the rest, a size code, a marker and a compact block each. */
  ghost predicate Tight(cfg: Config, s: seq<byte>, table: seq<byte>)
    decreases |s|
  {
    if s == [] then table == []
    else
      var n, h := Min(METADATA_SIZE, |s|), HeaderSize(cfg);
      && h <= |table| && (cfg.checkData ==> table[2] == MARKER_BYTE)
      && var code := GetShort(table[..2], cfg.swap);
         var size := CompressedSize(code, COMPRESSED_BIT);
         && h + size <= |table| && Compact(cfg.z, s[..n], cfg.noI, COMPRESSED_BIT, code, table[h..h + size])
         && Tight(cfg, s[n..], table[h + size..])
  }

  lemma {:induction false} EncodeBlocksTight(cfg: Config, s: seq<byte>)
    requires Lawful(cfg.z)
    ensures Tight(cfg, s, EncodeBlocks(cfg, s))
    decreases |s|
  {
    hide Mangle, Compact, CompressedSize, PutShort, GetShort;
    if s != [] {
      var n := Min(METADATA_SIZE, |s|);
      var m := Mangle(cfg.z, s[..n], cfg.noI, COMPRESSED_BIT);
      UnmangleMangle(cfg.z, s[..n], cfg.noI, COMPRESSED_BIT);
      GetPutShort(m.code, cfg.swap);
      EncodeBlocksTight(cfg, s[n..]);
      BlockParts(PutShort(m.code, cfg.swap), if cfg.checkData then [MARKER_BYTE] else [], m.stored,
                 EncodeBlocks(cfg, s[n..]));
    }
  }

  lemma BlockParts(code: seq<byte>, marker: seq<byte>, stored: seq<byte>, rest: seq<byte>)
    requires |code| == 2 && |marker| <= 1
    ensures var t, h := ((code + marker) + stored) + rest, 2 + |marker|;
            && |t| == h + |stored| + |rest| && t[..2] == code && (marker != [] ==> t[2] == marker[0])
            && t[h..h + |stored|] == stored && t[h + |stored|..] == rest
  {
  }

  lemma EncodeBlocksStep(cfg: Config, s: seq<byte>, n: nat)
    requires s != [] && n == Min(METADATA_SIZE, |s|)
    ensures EncodeBlocks(cfg, s) == BlockBytes(cfg, s[..n]) + EncodeBlocks(cfg, s[n..])
  {
  }

  /** Where block k of a stream starts in its encoding. */
  function BlockPos(cfg: Config, s: seq<byte>, k: nat): nat
    requires METADATA_SIZE * k <= |s|
  {
    |EncodeBlocks(cfg, s[..METADATA_SIZE * k])|
  }

  /** At a block boundary, encoding splits. */
  lemma {:induction false} EncodeBlocksSplit(cfg: Config, a: seq<byte>, b: seq<byte>, k: nat)
    requires |a| == METADATA_SIZE * k
    ensures EncodeBlocks(cfg, a + b) == EncodeBlocks(cfg, a) + EncodeBlocks(cfg, b)
    decreases k
  {
    if k == 0 {
      assert a + b == b;
    } else {
      var n := METADATA_SIZE;
      var first, rest := a[..n], a[n..];
      assert (a + b)[..n] == first && (a + b)[n..] == rest + b;
      EncodeBlocksSplit(cfg, rest, b, k - 1);
      calc {
        EncodeBlocks(cfg, a + b);
        BlockBytes(cfg, first) + EncodeBlocks(cfg, rest + b);
        BlockBytes(cfg, first) + (EncodeBlocks(cfg, rest) + EncodeBlocks(cfg, b));
        (BlockBytes(cfg, first) + EncodeBlocks(cfg, rest)) + EncodeBlocks(cfg, b);
        EncodeBlocks(cfg, a) + EncodeBlocks(cfg, b);
      }
    }
  }

  /** Encoding k whole blocks and one more piece appends the block of that piece. */
  lemma EncodeBlocksAppend(cfg: Config, a: seq<byte>, piece: seq<byte>, k: nat)
    requires |a| == METADATA_SIZE * k && 0 < |piece| <= METADATA_SIZE
    ensures EncodeBlocks(cfg, a + piece) == EncodeBlocks(cfg, a) + BlockBytes(cfg, piece)
  {
    EncodeBlocksSplit(cfg, a, piece, k);
    assert piece[..|piece|] == piece && piece[|piece|..] == [];
    assert EncodeBlocks(cfg, piece) == BlockBytes(cfg, piece) + EncodeBlocks(cfg, []);
  }

  /** A block position never moves when the stream grows. */
  lemma BlockPosStable(cfg: Config, s: seq<byte>, more: seq<byte>, k: nat)
    requires METADATA_SIZE * k <= |s|
    ensures BlockPos(cfg, s + more, k) == BlockPos(cfg, s, k)
  {
    assert (s + more)[..METADATA_SIZE * k] == s[..METADATA_SIZE * k];
  }

  /** The encoding up to block k, then the rest of the stream encoded on its own. */
  lemma EncodeBlocksAt(cfg: Config, s: seq<byte>, k: nat)
    requires METADATA_SIZE * k <= |s|
    ensures EncodeBlocks(cfg, s) == EncodeBlocks(cfg, s[..METADATA_SIZE * k])
            + EncodeBlocks(cfg, s[METADATA_SIZE * k..])
    ensures BlockPos(cfg, s, k) <= |EncodeBlocks(cfg, s)|
  {
    var n := METADATA_SIZE * k;
    assert s == s[..n] + s[n..];
    EncodeBlocksSplit(cfg, s[..n], s[n..], k);
  }

  lemma EncodeBlocksNonEmpty(cfg: Config, s: seq<byte>)
    requires Lawful(cfg.z) && s != []
    ensures EncodeBlocks(cfg, s) != []
  {
    ReadBlockBytes(cfg, s[..Min(METADATA_SIZE, |s|)], [], []);
  }
}
