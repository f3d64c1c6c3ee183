/** Bytes, little-endian integer fields, and what a C `fread` delivers from a file image. */
module Bytes {

  type byte = b: int | 0 <= b < 256
  /** A 32-bit unsigned value, or the bit pattern of a 32-bit C `int`. */
  type u32 = x: int | 0 <= x < 0x1_0000_0000

  function Min(a: int, b: int): int { if a <= b then a else b }

  /** The value of a 32-bit C `int` whose two's-complement bit pattern is `x`. */
  function Int32(x: u32): (r: int)
    ensures -0x8000_0000 <= r < 0x8000_0000
    ensures r % 0x1_0000_0000 == x
    ensures x < 0x8000_0000 <==> r >= 0
  {
    if x < 0x8000_0000 then x else x - 0x1_0000_0000
  }

  function Pow256(k: nat): (r: nat)
    ensures r >= 1
  {
    if k == 0 then 1 else 256 * Pow256(k - 1)
  }

  /** The unsigned value of a little-endian field (least significant byte first). */
  function LE(bs: seq<byte>): nat
  {
    if bs == [] then 0 else bs[0] + 256 * LE(bs[1..])
  }

  /** The `width` little-endian bytes that hold `x`. */
  function ToLE(x: nat, width: nat): (r: seq<byte>)
    requires x < Pow256(width)
    ensures |r| == width
  {
    if width == 0 then [] else [x % 256] + ToLE(x / 256, width - 1)
  }

  lemma {:induction false} LEBound(bs: seq<byte>)
    ensures LE(bs) < Pow256(|bs|)
  {
    if bs != [] {
      LEBound(bs[1..]);
    }
  }

  /** Decoding the encoding of a value gives the value back. */
  lemma {:induction false} LEOfToLE(x: nat, width: nat)
    requires x < Pow256(width)
    ensures LE(ToLE(x, width)) == x
  {
    if width > 0 {
      LEOfToLE(x / 256, width - 1);
      assert ToLE(x, width)[1..] == ToLE(x / 256, width - 1);
    }
  }

  /** Encoding the value of a field gives the field back. */
  lemma {:induction false} ToLEOfLE(bs: seq<byte>)
    ensures LE(bs) < Pow256(|bs|) && ToLE(LE(bs), |bs|) == bs
  {
    LEBound(bs);
    if bs != [] {
      ToLEOfLE(bs[1..]);
      var v := LE(bs);
      assert v % 256 == bs[0] && v / 256 == LE(bs[1..]);
    }
  }

  /** A field split in two parts: the high part is scaled by the width of the low part. */
  lemma {:induction false} LEAppend(lo: seq<byte>, hi: seq<byte>)
    ensures LE(lo + hi) == LE(lo) + Pow256(|lo|) * LE(hi)
  {
    if lo != [] {
      assert (lo + hi)[1..] == lo[1..] + hi;
      LEAppend(lo[1..], hi);
      var b, a, p, h := lo[0], LE(lo[1..]), Pow256(|lo| - 1), LE(hi);
      assert LE(lo + hi) == b + 256 * (a + p * h);
      Regroup(b, a, p, h);
    } else {
      assert lo + hi == hi;
    }
  }

  lemma Regroup(b: int, a: int, p: int, h: int)
    ensures b + 256 * (a + p * h) == (b + 256 * a) + (256 * p) * h
  {
  }

  /**
   * The bytes a C `fread(buf, 1, n, f)` delivers when the stream of a file
   * with contents `file` stands at offset `pos`: at most `n`, fewer when the
   * end of the file comes first, none when `pos` is at or past the end
   * (an `fseek` past the end is allowed and reads nothing).
   */
  function ReadAt(file: seq<byte>, pos: nat, n: nat): (r: seq<byte>)
    ensures |r| <= n
    ensures pos + |r| <= |file| || r == []
    ensures |r| < n ==> pos + |r| >= |file|
  {
    if pos >= |file| then [] else file[pos..Min(pos + n, |file|)]
  }

  /**
   * Reading on from where a short or full read stopped is the same as
   * reading at the fixed offset just after the field.
   */
  lemma ReadContinues(file: seq<byte>, pos: nat, n: nat, m: nat)
    ensures ReadAt(file, pos + |ReadAt(file, pos, n)|, m) == ReadAt(file, pos + n, m)
  {
  }

  /**
   * The value of a 4-byte little-endian object after `fread` has stored
   * `got` over its lowest bytes; its other bytes keep their old contents.
   */
  function Patch(prior: u32, got: seq<byte>): (r: u32)
    requires |got| <= 4
    ensures got == [] ==> r == prior
  {
    var bytes := got + ToLE(prior, 4)[|got|..];
    LEBound(bytes);
    if got == [] then
      assert bytes == ToLE(prior, 4);
      LEOfToLE(prior, 4);
      LE(bytes)
    else
      LE(bytes)
  }

  /** Byte by byte, a patched object is the bytes read followed by the untouched old bytes. */
  lemma PatchBytes(prior: u32, got: seq<byte>)
    requires |got| <= 4
    ensures ToLE(Patch(prior, got), 4) == got + ToLE(prior, 4)[|got|..]
  {
    ToLEOfLE(got + ToLE(prior, 4)[|got|..]);
  }

  /** A full 4-byte read replaces the whole object. */
  lemma PatchFull(prior: u32, got: seq<byte>)
    requires |got| == 4
    ensures Patch(prior, got) == LE(got)
  {
    assert got + ToLE(prior, 4)[4..] == got;
  }

  /**
   * A 2-byte read into a 4-byte object: its low 16 bits are the field, its
   * high 16 bits are the old ones; when those were zero the object holds the field.
   */
  lemma {:induction false} PatchLow16(prior: u32, got: seq<byte>)
    requires |got| == 2
    ensures Patch(prior, got) % 65536 == LE(got)
    ensures Patch(prior, got) / 65536 == prior / 65536
    ensures prior < 65536 ==> Patch(prior, got) == LE(got)
  {
    var old4 := ToLE(prior, 4);
    var hi := old4[2..];
    LEBound(got);
    LEBound(hi);
    LEAppend(got, hi);
    assert Pow256(2) == 65536;
    var v := Patch(prior, got);
    assert v == LE(got) + 65536 * LE(hi);
    LEOfToLE(prior, 4);
    LEAppend(old4[..2], hi);
    assert old4[..2] + hi == old4;
    LEBound(old4[..2]);
    assert prior == LE(old4[..2]) + 65536 * LE(hi);
    assert prior / 65536 == LE(hi);
  }
}
