/** Little-endian bytes, 16- and 32-bit stores and the PCM byte layout of
    signed 16-bit samples, as the x86 program lays them out in memory. */
module Bytes {

  newtype byte = x: int | 0 <= x < 256

  /** The range of a C `short`. */
  predicate IsShort(v: int) {
    -0x8000 <= v < 0x8000
  }

  predicate AllShorts(s: seq<int>) {
    forall i :: 0 <= i < |s| ==> IsShort(s[i])
  }

  /** The two bytes a 16-bit store of `v` writes, low byte first; only the
      low 16 bits of `v` survive the store. */
  function Le16(v: int): (r: seq<byte>)
    ensures |r| == 2
  {
    var u := v % 0x1_0000;
    [(u % 0x100) as byte, (u / 0x100) as byte]
  }

  /** The four bytes a 32-bit store of `v` writes: the low 16 bits, then
      the high 16 bits, each low byte first. */
  function Le32(v: int): (r: seq<byte>)
    ensures |r| == 4
  {
    var u := v % 0x1_0000_0000;
    Le16(u) + Le16(u / 0x1_0000)
  }

  /** An unsigned 16-bit little-endian load. */
  function U16(b: seq<byte>, at: nat): nat
    requires at + 2 <= |b|
  {
    b[at] as nat + 0x100 * b[at + 1] as nat
  }

  /** An unsigned 32-bit little-endian load. */
  function U32(b: seq<byte>, at: nat): nat
    requires at + 4 <= |b|
  {
    U16(b, at) + 0x1_0000 * U16(b, at + 2)
  }

  /** A signed 16-bit load: the two's-complement reading of two bytes. */
  function ShortAt(b: seq<byte>, at: nat): (r: int)
    requires at + 2 <= |b|
    ensures IsShort(r)
  {
    var u := U16(b, at);
    if u < 0x8000 then u else u - 0x1_0000
  }

  /** Reading back a 16-bit store yields the stored value modulo 2^16. */
  lemma Le16Load(v: int)
    ensures U16(Le16(v), 0) == v % 0x1_0000
  {
    var u := v % 0x1_0000;
    assert u == (u % 0x100) + 0x100 * (u / 0x100);
  }

  /** Reading back a 32-bit store yields the stored value modulo 2^32. */
  lemma Le32Load(v: int)
    ensures U32(Le32(v), 0) == v % 0x1_0000_0000
  {
    var u := v % 0x1_0000_0000;
    var hi := u / 0x1_0000;
    var b := Le32(v);
    Le16Load(u);
    Le16Load(hi);
    assert U16(b, 0) == U16(Le16(u), 0);
    assert U16(b, 2) == U16(Le16(hi), 0);
    assert u == u % 0x1_0000 + 0x1_0000 * hi;
  }

  /** A short survives a store and a signed load. */
  lemma ShortRoundTrip(v: int)
    requires IsShort(v)
    ensures ShortAt(Le16(v), 0) == v
  {
    Le16Load(v);
  }

  /** Two bytes survive a signed load and a store. */
  lemma BytesRoundTrip(b: seq<byte>, at: nat)
    requires at + 2 <= |b|
    ensures Le16(ShortAt(b, at)) == b[at..at + 2]
  {
    var u := U16(b, at);
    var s := ShortAt(b, at);
    assert s % 0x1_0000 == u;
    var r := Le16(s);
    assert r[0] == b[at] && r[1] == b[at + 1];
  }

  /** The bytes of a PCM buffer of shorts, as `memcpy` of the buffer copies them. */
  function ShortsToBytes(s: seq<int>): (r: seq<byte>)
    ensures |r| == 2 * |s|
  {
    if s == [] then [] else Le16(s[0]) + ShortsToBytes(s[1..])
  }

  /** The shorts a byte buffer holds; an odd trailing byte is dropped. */
  function BytesToShorts(b: seq<byte>): (r: seq<int>)
    ensures |r| == |b| / 2
    ensures AllShorts(r)
  {
    if |b| < 2 then [] else [ShortAt(b, 0)] + BytesToShorts(b[2..])
  }

  /** Short `k` of a byte buffer is the signed load at offset 2k. */
  lemma {:induction false} BytesToShortsAt(b: seq<byte>, k: nat)
    requires 2 * k + 2 <= |b|
    ensures BytesToShorts(b)[k] == ShortAt(b, 2 * k)
  {
    if k > 0 {
      BytesToShortsAt(b[2..], k - 1);
      assert ShortAt(b[2..], 2 * (k - 1)) == ShortAt(b, 2 * k);
    }
  }

  lemma {:induction false} ShortsToBytesAppend(s: seq<int>, v: int)
    ensures ShortsToBytes(s + [v]) == ShortsToBytes(s) + Le16(v)
  {
    if s != [] {
      assert (s + [v])[1..] == s[1..] + [v];
      ShortsToBytesAppend(s[1..], v);
    } else {
      assert s + [v] == [v];
    }
  }

  /** Shorts survive being laid out as bytes and read back. */
  lemma {:induction false} ShortsRoundTrip(s: seq<int>)
    requires AllShorts(s)
    ensures BytesToShorts(ShortsToBytes(s)) == s
  {
    if s != [] {
      var b := ShortsToBytes(s);
      assert b[2..] == ShortsToBytes(s[1..]);
      assert b[..2] == Le16(s[0]);
      ShortRoundTrip(s[0]);
      assert ShortAt(b, 0) == ShortAt(Le16(s[0]), 0);
      ShortsRoundTrip(s[1..]);
    }
  }

  /** An even-length byte buffer survives being read as shorts and laid out again. */
  lemma {:induction false} BytesRoundTripAll(b: seq<byte>)
    requires |b| % 2 == 0
    ensures ShortsToBytes(BytesToShorts(b)) == b
  {
    if |b| >= 2 {
      BytesRoundTrip(b, 0);
      BytesRoundTripAll(b[2..]);
      assert b == b[..2] + b[2..];
    }
  }
}
