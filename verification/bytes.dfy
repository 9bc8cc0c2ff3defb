/** Bytes, receive buffers and the machine arithmetic of the C# program:
    zero-filled buffers, little-endian integers, 32-bit wrap-around and
    division truncated toward zero. */
module Bytes {

  newtype byte = x: int | 0 <= x < 256

  /** Every receive buffer the proxy allocates holds this many bytes. */
  const MaxPacket: nat := 1400

  /** A UDP datagram as it lands in a MaxPacket-byte receive buffer. */
  type Datagram = d: seq<byte> | |d| <= MaxPacket

  /** Byte `i` of the zero-filled buffer that `d` was received into:
      positions past the datagram read as 0. */
  function At(d: seq<byte>, i: nat): byte
  {
    if i < |d| then d[i] else 0
  }

  /** The `n` buffer bytes starting at `from`. */
  function Field(d: seq<byte>, from: nat, n: nat): (f: seq<byte>)
    ensures |f| == n
    ensures forall k :: 0 <= k < n ==> f[k] == At(d, from + k)
  {
    seq(n, k requires 0 <= k < n => At(d, from + k))
  }

  function Pow256(n: nat): (p: nat)
    ensures p >= 1
  {
    if n == 0 then 1 else 256 * Pow256(n - 1)
  }

  lemma Pow256Values()
    ensures Pow256(3) == 0x100_0000 && Pow256(4) == 0x1_0000_0000
  {
    assert Pow256(1) == 256;
    assert Pow256(2) == 0x1_0000;
  }

  /** The unsigned little-endian value of `s` (least significant byte first). */
  function LittleEndian(s: seq<byte>): nat
  {
    if |s| == 0 then 0 else s[0] as nat + 256 * LittleEndian(s[1..])
  }

  /** The `n` little-endian bytes of `x`. */
  function ToLittleEndian(x: nat, n: nat): (s: seq<byte>)
    ensures |s| == n
  {
    if n == 0 then [] else [(x % 256) as byte] + ToLittleEndian(x / 256, n - 1)
  }

  /** Decoding the encoding of a value that fits gives the value back. */
  lemma {:induction false} LittleEndianRoundTrip(x: nat, n: nat)
    requires x < Pow256(n)
    ensures LittleEndian(ToLittleEndian(x, n)) == x
  {
    if n > 0 {
      var s := ToLittleEndian(x, n);
      assert s[1..] == ToLittleEndian(x / 256, n - 1);
      LittleEndianRoundTrip(x / 256, n - 1);
    }
  }

  /** The unsigned value of the four bytes at `pos`, least significant
      first, composed by shifts as C# code spells it out. */
  function UInt32At(d: seq<byte>, pos: nat): (x: nat)
    requires pos + 4 <= |d|
    ensures x < 0x1_0000_0000
  {
    d[pos] as nat + 0x100 * d[pos + 1] as nat + 0x1_0000 * d[pos + 2] as nat + 0x100_0000 * d[pos + 3] as nat
  }

  /** The unsigned value of the three bytes at `pos`, least significant first. */
  function UInt24At(d: seq<byte>, pos: nat): (x: nat)
    requires pos + 3 <= |d|
    ensures x < 0x100_0000
  {
    d[pos] as nat + 0x100 * d[pos + 1] as nat + 0x1_0000 * d[pos + 2] as nat
  }

  /** LittleEndian of three or four bytes, spelled out. */
  lemma LittleEndianShort(s: seq<byte>)
    requires |s| == 3 || |s| == 4
    ensures |s| == 3 ==> LittleEndian(s) == s[0] as nat + 0x100 * s[1] as nat + 0x1_0000 * s[2] as nat
    ensures |s| == 4 ==> LittleEndian(s) == s[0] as nat + 0x100 * s[1] as nat + 0x1_0000 * s[2] as nat + 0x100_0000 * s[3] as nat
  {
    var t := s[1..];
    var u := t[1..];
    var v := u[1..];
    if |s| == 3 {
      assert LittleEndian(v) == 0;
      assert LittleEndian(u) == s[2] as nat;
      assert LittleEndian(t) == s[1] as nat + 0x100 * s[2] as nat;
    } else {
      assert LittleEndian(v[1..]) == 0;
      assert LittleEndian(v) == s[3] as nat;
      assert LittleEndian(u) == s[2] as nat + 0x100 * s[3] as nat;
      assert LittleEndian(t) == s[1] as nat + 0x100 * s[2] as nat + 0x1_0000 * s[3] as nat;
    }
  }

  /** The spelled-out compositions agree with LittleEndian on the same bytes. */
  lemma ShiftedIsLittleEndian(d: seq<byte>, pos: nat)
    requires pos + 3 <= |d|
    ensures UInt24At(d, pos) == LittleEndian(d[pos..pos + 3])
    ensures pos + 4 <= |d| ==> UInt32At(d, pos) == LittleEndian(d[pos..pos + 4])
  {
    LittleEndianShort(d[pos..pos + 3]);
    if pos + 4 <= |d| {
      LittleEndianShort(d[pos..pos + 4]);
    }
  }

  const Two31: int := 0x8000_0000
  const Two32: int := 0x1_0000_0000

  predicate IsInt32(x: int)
  {
    -Two31 <= x < Two31
  }

  /** The value of `x` after a C# `int` computation wraps it to 32 bits. */
  function Wrap32(x: int): (w: int)
    ensures IsInt32(w)
    ensures (w - x) % Two32 == 0
    ensures IsInt32(x) ==> w == x
  {
    (x + Two31) % Two32 - Two31
  }

  /** C#'s `int` division for a positive divisor: the quotient is truncated
      toward zero, unlike Dafny's Euclidean `/` on negative dividends. */
  function Quot(a: int, b: int): (q: int)
    requires b > 0
    ensures a >= 0 ==> 0 <= a - q * b < b
    ensures a < 0 ==> -b < a - q * b <= 0
  {
    if a >= 0 then a / b else -((-a) / b)
  }
}
