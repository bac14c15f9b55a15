/** Bytes, the words written into them, and the compression library as the tools use it. */
module Bytes {

  type byte = x: int | 0 <= x < 256

  datatype Option<+T> = None | Some(value: T)

  /** A 16-bit word, in the machine's (little-endian) order or swapped. */
  function PutShort(v: nat, swap: bool): (b: seq<byte>)
    requires v < 0x1_0000
    ensures |b| == 2
  {
    if swap then [v / 256, v % 256] else [v % 256, v / 256]
  }

  function GetShort(b: seq<byte>, swap: bool): (v: nat)
    requires |b| >= 2
    ensures v < 0x1_0000
  {
    var x: int, y: int := b[0], b[1];
    if swap then 256 * x + y else x + 256 * y
  }

  /** A 32-bit word. */
  function PutInt(v: nat, swap: bool): (b: seq<byte>)
    requires v < 0x1_0000_0000
    ensures |b| == 4
  {
    if swap then PutShort(v / 0x1_0000, swap) + PutShort(v % 0x1_0000, swap)
    else PutShort(v % 0x1_0000, swap) + PutShort(v / 0x1_0000, swap)
  }

  function GetInt(b: seq<byte>, swap: bool): (v: nat)
    requires |b| >= 4
    ensures v < 0x1_0000_0000
  {
    if swap then 0x1_0000 * GetShort(b[0..2], swap) + GetShort(b[2..4], swap)
    else GetShort(b[0..2], swap) + 0x1_0000 * GetShort(b[2..4], swap)
  }

  lemma GetPutShort(v: nat, swap: bool)
    requires v < 0x1_0000
    ensures GetShort(PutShort(v, swap), swap) == v
  {
  }

  lemma GetPutInt(v: nat, swap: bool)
    requires v < 0x1_0000_0000
    ensures GetInt(PutInt(v, swap), swap) == v
  {
    var hi, lo := PutShort(v / 0x1_0000, swap), PutShort(v % 0x1_0000, swap);
    assert (hi + lo)[0..2] == hi && (hi + lo)[2..4] == lo;
    assert (lo + hi)[0..2] == lo && (lo + hi)[2..4] == hi;
    GetPutShort(v / 0x1_0000, swap);
    GetPutShort(v % 0x1_0000, swap);
  }

  /** zlib's compress2 and uncompress. */
  datatype Zlib = Zlib(deflate: seq<byte> -> seq<byte>, inflate: seq<byte> -> Option<seq<byte>>)

  /** What the tools rely on: inflating undoes deflating, and deflating adds at most 26 bytes. */
  ghost predicate Lawful(z: Zlib) {
    forall x: seq<byte> :: z.inflate(z.deflate(x)) == Some(x) && 0 < |z.deflate(x)| <= |x| + 26
  }
}
