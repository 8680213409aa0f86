/** Bytes and fixed-width integers. A value too wide for its field loses its high bytes. */
module Bytes {

  type byte = x: int | 0 <= x < 256

  function Pow256(n: nat): (p: nat)
    ensures p > 0
  {
    if n == 0 then 1 else 256 * Pow256(n - 1)
  }

  /** The `n` low bytes of `v`, most significant first. */
  function BigEndian(v: nat, n: nat): (s: seq<byte>)
    ensures |s| == n
  {
    if n == 0 then [] else BigEndian(v / 256, n - 1) + [v % 256]
  }

  function FromBigEndian(s: seq<byte>): (v: nat)
    ensures v < Pow256(|s|)
  {
    if s == [] then 0 else 256 * FromBigEndian(s[..|s| - 1]) + s[|s| - 1]
  }

  /** The `n` low bytes of `v`, least significant first. */
  function LittleEndian(v: nat, n: nat): (s: seq<byte>)
    ensures |s| == n
  {
    if n == 0 then [] else [v % 256] + LittleEndian(v / 256, n - 1)
  }

  function FromLittleEndian(s: seq<byte>): nat {
    if s == [] then 0 else s[0] + 256 * FromLittleEndian(s[1..])
  }

  lemma {:induction false} BigEndianRoundTrip(v: nat, n: nat)
    requires v < Pow256(n)
    ensures FromBigEndian(BigEndian(v, n)) == v
  {
    if n > 0 {
      BigEndianRoundTrip(v / 256, n - 1);
      var s := BigEndian(v, n);
      assert s[..n - 1] == BigEndian(v / 256, n - 1);
    }
  }

  lemma {:induction false} LittleEndianRoundTrip(v: nat, n: nat)
    requires v < Pow256(n)
    ensures FromLittleEndian(LittleEndian(v, n)) == v
  {
    if n > 0 {
      LittleEndianRoundTrip(v / 256, n - 1);
      assert LittleEndian(v, n)[1..] == LittleEndian(v / 256, n - 1);
    }
  }

  /** Big-endian: what comes first weighs more. */
  lemma {:induction false} BigEndianJoins(a: seq<byte>, b: seq<byte>)
    ensures FromBigEndian(a + b) == FromBigEndian(a) * Pow256(|b|) + FromBigEndian(b)
    decreases |b|
  {
    if b == [] {
      assert a + b == a;
    } else {
      var c, x := b[..|b| - 1], b[|b| - 1];
      BigEndianJoins(a, c);
      assert (a + b)[..|a + b| - 1] == a + c && (a + b)[|a + b| - 1] == x;
      assert Pow256(|b|) == 256 * Pow256(|c|);
      hide Pow256;
      assert FromBigEndian(a + b) == 256 * FromBigEndian(a + c) + x;
      assert FromBigEndian(b) == 256 * FromBigEndian(c) + x;
      hide FromBigEndian;
      JoinStep(FromBigEndian(a), Pow256(|c|), FromBigEndian(c), x);
    }
  }

  /** Little-endian: what comes last weighs more. */
  lemma {:induction false} LittleEndianJoins(a: seq<byte>, b: seq<byte>)
    ensures FromLittleEndian(a + b) == FromLittleEndian(a) + Pow256(|a|) * FromLittleEndian(b)
    decreases |a|
  {
    if a == [] {
      assert a + b == b;
    } else {
      LittleEndianJoins(a[1..], b);
      assert (a + b)[1..] == a[1..] + b;
      WeighMore(FromLittleEndian(b), Pow256(|a| - 1));
    }
  }

  lemma JoinStep(high: nat, p: nat, low: nat, x: nat)
    ensures 256 * (high * p + low) + x == high * (256 * p) + (256 * low + x)
  {
  }

  lemma WeighMore(x: nat, p: nat)
    ensures 256 * (p * x) == (256 * p) * x
  {
  }

  lemma Widths()
    ensures Pow256(2) == 0x1_0000 && Pow256(4) == 0x1_0000_0000 && Pow256(8) == 0x1_0000_0000_0000_0000
  {
    assert Pow256(1) == 256 && Pow256(2) == 256 * Pow256(1) && Pow256(3) == 256 * Pow256(2);
    assert Pow256(5) == 256 * Pow256(4) && Pow256(7) == 256 * Pow256(6);
  }

  /** `s` with `t` written over it from `at` on. */
  function Overlay(s: seq<byte>, at: nat, t: seq<byte>): (r: seq<byte>)
    requires at + |t| <= |s|
    ensures |r| == |s|
  {
    s[..at] + t + s[at + |t|..]
  }

  /** Two adjoining writes are one. */
  lemma OverlayNext(s: seq<byte>, at: nat, t: seq<byte>, u: seq<byte>)
    requires at + |t| + |u| <= |s|
    ensures Overlay(Overlay(s, at, t), at + |t|, u) == Overlay(s, at, t + u)
  {
    var a, b := Overlay(Overlay(s, at, t), at + |t|, u), Overlay(s, at, t + u);
    forall i | 0 <= i < |s|
      ensures a[i] == b[i]
    {
    }
  }

  /** Go's `copy` into a buffer that has room: overwrite from `at` on, and nothing else. */
  method CopyInto(buf: array<byte>, at: nat, s: seq<byte>)
    requires at + |s| <= buf.Length
    modifies buf
    ensures buf[..] == Overlay(old(buf[..]), at, s)
  {
    for i := 0 to |s|
      invariant buf[..] == old(buf[..at]) + s[..i] + old(buf[at + i..])
    {
      buf[at + i] := s[i];
    }
    assert s[..|s|] == s;
  }

  // ----- 64-bit integers -----

  const TWO_63: int := 0x8000_0000_0000_0000

  predicate IsInt64(v: int) { -TWO_63 <= v < TWO_63 }

  /** Conversion to an unsigned 64-bit integer, and back to a signed one. */
  function AsUnsigned(v: int): nat { v % (2 * TWO_63) }

  function AsSigned(v: nat): int { if v < TWO_63 then v else v - 2 * TWO_63 }

  lemma SignRoundTrip(v: int)
    requires IsInt64(v)
    ensures AsSigned(AsUnsigned(v)) == v && AsUnsigned(v) < 2 * TWO_63
  {
  }
}
