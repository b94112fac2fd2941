/**
 Big-endian integers over byte buffers, as every on-disk and on-wire format of the broker
 uses them: `Put` writes the low `width` bytes of a number (a narrowing cast keeps exactly
 those), `Get` reads a number off the front of a buffer and returns what is left.
 */
module Bytes {

  type uint8 = x: int | 0 <= x < 0x100
  type uint16 = x: int | 0 <= x < 0x1_0000
  type uint32 = x: int | 0 <= x < 0x1_0000_0000
  type uint64 = x: int | 0 <= x < 0x1_0000_0000_0000_0000

  type Buffer = seq<uint8>

  /** A checksum over bytes; every result holds whatever it computes. */
  type Checksum = Buffer -> uint32

  const U16: nat := 0x1_0000
  const U32: nat := 0x1_0000_0000
  const U64: nat := 0x1_0000_0000_0000_0000

  /** What a narrowing cast to 32 bits keeps. */
  function Low32(x: nat): (r: nat)
    ensures r < U32 && (x < U32 ==> r == x)
  {
    x % 0x1_0000_0000
  }

  function Pow256(n: nat): (p: nat)
    ensures p > 0
  {
    if n == 0 then 1 else 256 * Pow256(n - 1)
  }

  function Put(width: nat, v: nat): (s: Buffer)
    ensures |s| == width
  {
    if width == 0 then [] else Put(width - 1, v / 256) + [v % 256]
  }

  function Value(s: Buffer): nat {
    if s == [] then 0 else Value(s[..|s| - 1]) * 256 + s[|s| - 1]
  }

  function Get(width: nat, src: Buffer): (nat, Buffer)
    requires width <= |src|
  {
    (Value(src[..width]), src[width..])
  }

  lemma Widths()
    ensures Pow256(1) == 256 && Pow256(2) == U16 && Pow256(4) == U32 && Pow256(8) == U64
  {
    assert Pow256(3) == 256 * Pow256(2);
    assert Pow256(5) == 256 * Pow256(4);
    assert Pow256(6) == 256 * Pow256(5);
    assert Pow256(7) == 256 * Pow256(6);
  }

  lemma {:induction false} ValueBound(s: Buffer)
    ensures Value(s) < Pow256(|s|)
  {
    if s != [] {
      ValueBound(s[..|s| - 1]);
    }
  }

  /** A number that fits its width is read back unchanged. */
  lemma {:induction false} ValueOfPut(width: nat, v: nat)
    requires v < Pow256(width)
    ensures Value(Put(width, v)) == v
  {
    if width > 0 {
      var s := Put(width, v);
      ValueOfPut(width - 1, v / 256);
      assert s[..width - 1] == Put(width - 1, v / 256);
    }
  }

  /** Every buffer is the encoding of its value. */
  lemma {:induction false} PutOfValue(s: Buffer)
    ensures Put(|s|, Value(s)) == s
  {
    if s != [] {
      PutOfValue(s[..|s| - 1]);
      assert s == s[..|s| - 1] + [s[|s| - 1]];
    }
  }

  lemma QuotientIs(v: nat, d: nat, q: nat, r: nat)
    requires r < d && v == d * q + r
    ensures v / d == q
  {
    var gap := v / d - q;
    assert v == d * (v / d) + v % d;
    assert d * gap == d * (v / d) - d * q;
  }

  lemma DivideTwice(v: nat, p: nat)
    requires p > 0
    ensures v / 256 / p == v / (256 * p)
  {
    var half := v / 256;
    var q, r := half / p, half % p;
    assert half == p * q + r;
    assert 256 * (p * q) == 256 * p * q;
    QuotientIs(v, 256 * p, q, 256 * r + v % 256);
  }

  /** Big-endian: the byte `i` places from the end holds bits `8 * i` and up of the number. */
  lemma {:induction false} PutIsBigEndian(width: nat, v: nat, i: nat)
    requires i < width
    ensures Put(width, v)[width - 1 - i] == v / Pow256(i) % 256
    decreases i
  {
    if i > 0 {
      PutIsBigEndian(width - 1, v / 256, i - 1);
      DivideTwice(v, Pow256(i - 1));
    }
  }

  lemma GetOfPut(width: nat, v: nat, rest: Buffer)
    requires v < Pow256(width)
    ensures Get(width, Put(width, v) + rest) == (v, rest)
  {
    ValueOfPut(width, v);
    assert (Put(width, v) + rest)[..width] == Put(width, v);
    assert (Put(width, v) + rest)[width..] == rest;
  }

  lemma PutOfGet(width: nat, src: Buffer)
    requires width <= |src|
    ensures Get(width, src).0 < Pow256(width)
    ensures Put(width, Get(width, src).0) + Get(width, src).1 == src
  {
    ValueBound(src[..width]);
    PutOfValue(src[..width]);
    assert src == src[..width] + src[width..];
  }
}
