/** Packets rewritten in place on the tun device, and the one built from scratch. */
module Packets {
  import opened Common
  import opened Bytes
  import opened Checksum

  const TCP: byte := 6
  const UDP: byte := 17

  /** Bytes of IPv4 header, as the first byte declares. */
  function HeaderLength(s: seq<byte>): nat
    requires s != []
  {
    s[0] % 16 * 4
  }

  method PutWord(pkt: array<byte>, at: nat, v: nat)
    requires at + 2 <= pkt.Length && v <= 0xffff
    modifies pkt
    ensures pkt[..] == Patch(old(pkt[..]), at, v)
  {
    pkt[at] := v / 256;
    pkt[at + 1] := v % 256;
  }

  lemma PatchOutside(s: seq<byte>, k: nat, v: nat, from: nat, to: nat)
    requires k + 2 <= |s| && v <= 0xffff && from <= to <= |s|
    requires k + 2 <= from || to <= k
    ensures Patch(s, k, v)[from..to] == s[from..to]
  {
  }

  lemma PatchInside(s: seq<byte>, k: nat, v: nat, from: nat, to: nat)
    requires from <= k && k + 2 <= to <= |s| && v <= 0xffff
    ensures Patch(s, k, v)[from..to] == Patch(s[from..to], k - from, v)
  {
  }

  lemma PatchTwice(s: seq<byte>, k: nat, u: nat, v: nat)
    requires k + 2 <= |s| && u <= 0xffff && v <= 0xffff
    ensures Patch(Patch(s, k, u), k, v) == Patch(s, k, v)
  {
  }

  /** The checksum that belongs at `field` to cover `from..to`. */
  function SealFor(initial: nat, s: seq<byte>, from: nat, to: nat, field: nat): (c: nat)
    requires from <= to <= |s| && field + 2 <= |s|
    ensures c <= 0xffff
  {
    ChecksumOf(initial + WordSum(Patch(s, field, 0)[from..to]))
  }

  /** With the checksum in its field, the covered bytes verify. */
  lemma SealedInPlace(initial: nat, s: seq<byte>, from: nat, to: nat, field: nat)
    requires from <= field && field + 2 <= to <= |s| && (field - from) % 2 == 0
    ensures Verifies(initial, Patch(s, field, SealFor(initial, s, from, to, field))[from..to])
  {
    hide WordSum, Fold, Verifies, ChecksumOf;
    var z, c := Patch(s, field, 0)[from..to], SealFor(initial, s, from, to, field);
    SealedVerifies(initial, z, field - from, c);
    PatchTwice(s, field, 0, c);
    PatchInside(Patch(s, field, 0), field, c, from, to);
  }

  /** Clear the field, sum, store the complement. */
  method Seal(pkt: array<byte>, from: nat, to: nat, field: nat)
    requires from <= to <= pkt.Length && to - from <= 0xffff && field + 2 <= pkt.Length
    modifies pkt
    ensures pkt[..] == old(Patch(pkt[..], field, SealFor(0, pkt[..], from, to, field)))
    ensures from <= field && field + 2 <= to && (field - from) % 2 == 0 ==> Verifies(0, pkt[from..to])
  {
    hide WordSum, Fold, Verifies, ChecksumOf, Patch;
    ghost var s := pkt[..];
    PutWord(pkt, field, 0);
    assert pkt[from..to] == pkt[..][from..to];
    var c := OnesComplementSum(pkt[from..to]);
    PutWord(pkt, field, c);
    PatchTwice(s, field, 0, c);
    assert pkt[from..to] == pkt[..][from..to];
    if from <= field && field + 2 <= to && (field - from) % 2 == 0 {
      SealedInPlace(0, s, from, to, field);
    }
  }

  /** Recompute the header checksum; the header then verifies, and no other byte changes. */
  method FixIPChecksum(pkt: array<byte>)
    requires 12 <= pkt.Length && HeaderLength(pkt[..]) <= pkt.Length
    modifies pkt
    ensures pkt[..] == old(Patch(pkt[..], 10, SealFor(0, pkt[..], 0, HeaderLength(pkt[..]), 10)))
    ensures HeaderLength(pkt[..]) == old(HeaderLength(pkt[..]))
    ensures HeaderLength(pkt[..]) >= 12 ==> Verifies(0, pkt[..HeaderLength(pkt[..])])
  {
    Seal(pkt, 0, pkt[0] % 16 * 4, 10);
  }

  // ----- TCP and UDP -----

  /** The pseudo-header sum of a packet whose transport segment starts at `off`. */
  function PseudoOf(s: seq<byte>, proto: byte, off: nat): (r: nat)
    requires 20 <= |s| && off <= |s|
    ensures r <= 6 * 0xffff
  {
    PseudoSum(s[12..16], s[16..20], proto, (|s| - off) % 65536)
  }

  lemma PseudoUnpatched(s: seq<byte>, k: nat, v: nat, proto: byte, off: nat)
    requires 20 <= |s| && off <= |s| && k + 2 <= |s| && v <= 0xffff && (k + 2 <= 12 || 20 <= k)
    ensures PseudoOf(Patch(s, k, v), proto, off) == PseudoOf(s, proto, off)
  {
    PatchOutside(s, k, v, 12, 16);
    PatchOutside(s, k, v, 16, 20);
  }

  /** A value stored over a cleared word of an address counts once more, in the pseudo-header. */
  lemma PseudoPatched(s: seq<byte>, k: nat, v: nat, proto: byte, off: nat)
    requires 20 <= |s| && off <= |s| && v <= 0xffff && k in {12, 14, 16, 18} && s[k] == s[k + 1] == 0
    ensures PseudoOf(Patch(s, k, v), proto, off) == PseudoOf(s, proto, off) + v
  {
  }

  /** The transport checksum for a field at `field`, computed with that field cleared. */
  function TransportSeal(s: seq<byte>, off: nat, field: nat, proto: byte): (c: nat)
    requires 20 <= |s| && off <= |s| && field + 2 <= |s|
    ensures c <= 0xffff
  {
    SealFor(PseudoOf(Patch(s, field, 0), proto, off), s, off, |s|, field)
  }

  /** The bytes a receiver sums: the pseudo-header of a packet whose segment starts at `off`, then the segment. */
  function Summed(s: seq<byte>, proto: byte, off: nat): seq<byte>
    requires 20 <= |s| && off <= |s|
  {
    PseudoHeader(s[12..16], s[16..20], proto, (|s| - off) % 65536) + s[off..]
  }

  lemma SummedVerifies(s: seq<byte>, proto: byte, off: nat)
    requires 20 <= |s| && off <= |s|
    ensures Verifies(0, Summed(s, proto, off)) <==> Verifies(PseudoOf(s, proto, off), s[off..])
  {
    PseudoVerifies(s[12..16], s[16..20], proto, (|s| - off) % 65536, s[off..]);
  }

  /** A checksum that is one of the two zeros of one's-complement arithmetic. */
  predicate IsZero(c: nat) { c == 0 || c == 0xffff }

  /** With the checksum in a field outside the addresses the segment verifies with its pseudo-header, whatever it
      holds and however long it is. A field that is a word of an address changes the pseudo-header too: then the
      segment verifies exactly if the checksum is a zero. */
  lemma TransportVerifies(s: seq<byte>, off: nat, field: nat, proto: byte)
    requires 20 <= |s| && off <= field && field + 2 <= |s| && (field - off) % 2 == 0
    requires field % 2 == 0 || field + 2 <= 12 || 20 <= field
    ensures var c := TransportSeal(s, off, field, proto);
            var t := Patch(s, field, c);
            Verifies(0, Summed(t, proto, off)) <==> field + 2 <= 12 || 20 <= field || IsZero(c)
  {
    hide WordSum, Fold, Verifies, ChecksumOf, PseudoSum, Summed;
    SummedVerifies(Patch(s, field, TransportSeal(s, off, field, proto)), proto, off);
    var c, z := TransportSeal(s, off, field, proto), Patch(s, field, 0);
    var t, p := Patch(s, field, c), PseudoOf(z, proto, off);
    PatchTwice(s, field, 0, c);
    assert t[off..] == t[off..|s|];
    if field + 2 <= 12 || 20 <= field {
      PseudoUnpatched(z, field, c, proto, off);
      SealedInPlace(p, s, off, |s|, field);
    } else {
      PseudoPatched(z, field, c, proto, off);
      var sum := WordSum(z[off..|s|]);
      PatchInside(z, field, c, off, |s|);
      SealedVerifies(p + c, z[off..|s|], field - off, c);
      ChecksumIsTheOne(p + sum, c);
      assert p + c + sum == p + sum + c;
    }
  }

  /** Clears the field, sums segment and pseudo-header, stores the complement; nothing else changes. */
  method FixTransport(pkt: array<byte>, off: nat, field: nat, proto: byte)
    requires 20 <= pkt.Length <= 0xffff && off <= field && field + 2 <= pkt.Length
    modifies pkt
    ensures pkt[..] == old(Patch(pkt[..], field, TransportSeal(pkt[..], off, field, proto)))
  {
    hide WordSum, Fold, Verifies, ChecksumOf, Patch, PseudoSum;
    ghost var s := pkt[..];
    var totalLen := (pkt.Length - off) % 65536;
    PutWord(pkt, field, 0);
    ghost var z := pkt[..];
    assert pkt[12..16] == z[12..16] && pkt[16..20] == z[16..20];
    assert pkt[off..] == z[off..|z|];
    var psum := PseudoSum(pkt[12..16], pkt[16..20], proto, totalLen);
    var c := OnesComplementSumFold(pkt[off..], psum);
    PutWord(pkt, field, c);
    PatchTwice(s, field, 0, c);
  }

  /** A packet too short for a TCP header is left alone. Otherwise the segment verifies, unless the packet claims to
      have no header: then exactly if the checksum is a zero. */
  method FixTCPChecksum(pkt: array<byte>, ihl: nat)
    requires 20 <= pkt.Length <= 0xffff && ihl % 4 == 0
    modifies pkt
    ensures pkt.Length < ihl + 20 ==> pkt[..] == old(pkt[..])
    ensures pkt.Length >= ihl + 20 ==>
              var c := old(TransportSeal(pkt[..], ihl, ihl + 16, TCP));
              && pkt[..] == Patch(old(pkt[..]), ihl + 16, c)
              && (Verifies(0, Summed(pkt[..], 6, ihl)) <==> ihl > 0 || IsZero(c))
  {
    hide Verifies, TransportSeal, Patch, Summed;
    if pkt.Length < ihl + 20 {
      return;
    }
    TransportVerifies(pkt[..], ihl, ihl + 16, TCP);
    FixTransport(pkt, ihl, ihl + 16, TCP);
  }

  /** The same for UDP, whose checksum lies in an address for header lengths 8 and 12. */
  method FixUDPChecksum(pkt: array<byte>, ihl: nat)
    requires 20 <= pkt.Length <= 0xffff && ihl % 4 == 0
    modifies pkt
    ensures pkt.Length < ihl + 8 ==> pkt[..] == old(pkt[..])
    ensures pkt.Length >= ihl + 8 ==>
              var c := old(TransportSeal(pkt[..], ihl, ihl + 6, UDP));
              && pkt[..] == Patch(old(pkt[..]), ihl + 6, c)
              && (Verifies(0, Summed(pkt[..], 17, ihl)) <==> (ihl != 8 && ihl != 12) || IsZero(c))
  {
    hide Verifies, TransportSeal, Patch, Summed;
    if pkt.Length < ihl + 8 {
      return;
    }
    TransportVerifies(pkt[..], ihl, ihl + 6, UDP);
    FixTransport(pkt, ihl, ihl + 6, UDP);
  }

  // ----- ICMP -----

  const ECHO_REPLY: byte := 0
  const DEST_UNREACHABLE: byte := 3
  const TIME_EXCEEDED: byte := 11

  function Swapped(s: seq<byte>): (r: seq<byte>)
    requires 20 <= |s|
    ensures |r| == |s|
  {
    s[..12] + s[16..20] + s[12..16] + s[20..]
  }

  /** Exchange source and destination address. */
  method SwapAddresses(pkt: array<byte>)
    requires 20 <= pkt.Length
    modifies pkt
    ensures pkt[..] == old(Swapped(pkt[..]))
  {
    var tmp := pkt[12..16];
    CopyInto(pkt, 12, pkt[16..20]);
    CopyInto(pkt, 16, tmp);
  }

  /** A packet is the first `n` bytes of a larger read buffer; what lies behind it is left over from earlier reads. Two
      headers of the greatest length and 16 bytes always fit the buffer. */
  const ROOM: nat := 136

  ghost predicate InBuffer(s: seq<byte>, n: nat) { 20 <= n <= |s| && ROOM <= |s| }

  /** The ICMP message is checksummed, then the header in front of it. */
  function SealedBoth(s: seq<byte>, ihl: nat, to: nat): (r: seq<byte>)
    requires ihl + 4 <= to <= |s| && ROOM <= |s|
    ensures |r| == |s|
  {
    var u := Patch(s, ihl + 2, SealFor(0, s, ihl, to, ihl + 2));
    Patch(u, 10, SealFor(0, u, 0, HeaderLength(u), 10))
  }

  /** Both then verify, and nothing but the two fields changes. */
  lemma SealedBothVerify(s: seq<byte>, ihl: nat, to: nat)
    requires 20 <= ihl && ihl + 4 <= to <= |s| && ROOM <= |s| && ihl == HeaderLength(s)
    ensures var t := SealedBoth(s, ihl, to);
            && Verifies(0, t[..ihl]) && Verifies(0, t[ihl..to])
            && Elsewhere(s, t, ihl)
  {
    hide WordSum, Fold, Verifies, ChecksumOf, SealFor, HeaderLength;
    var u := Patch(s, ihl + 2, SealFor(0, s, ihl, to, ihl + 2));
    SameHeaderLength(s, u);
    SealedInPlace(0, s, ihl, to, ihl + 2);
    SealedInPlace(0, u, 0, ihl, 10);
    PatchOutside(u, 10, SealFor(0, u, 0, ihl, 10), ihl, to);
  }

  lemma SameHeaderLength(s: seq<byte>, t: seq<byte>)
    requires s != [] && t != [] && s[0] == t[0]
    ensures HeaderLength(s) == HeaderLength(t)
  {
  }

  /** The same bytes but for the header checksum and the ICMP checksum. */
  ghost predicate Elsewhere(s: seq<byte>, t: seq<byte>, ihl: nat) {
    && |s| == |t|
    && forall i :: 0 <= i < |s| && i != 10 && i != 11 && i != ihl + 2 && i != ihl + 3 ==> t[i] == s[i]
  }

  method SealBoth(buf: array<byte>, ihl: nat, to: nat)
    requires ihl + 4 <= to <= buf.Length && to - ihl <= 0xffff && ROOM <= buf.Length
    modifies buf
    ensures buf[..] == old(SealedBoth(buf[..], ihl, to))
  {
    hide WordSum, Fold, Verifies, ChecksumOf, SealFor;
    Seal(buf, ihl, to, ihl + 2);
    FixIPChecksum(buf);
  }

  /** How many of the eight bytes after the offending header there is room to quote, in a packet of `n` bytes. */
  function QuotedTail(n: nat, ihl: nat): (k: nat)
    requires 2 * ihl + 8 <= n
    ensures k <= 8 && 2 * ihl + 8 + k <= n
  {
    Min(8, n - (2 * ihl + 8))
  }

  /** The buffer before the two checksums are stored: addresses swapped, new total length, type, code and six zero
      bytes, the offending header, and as many of the bytes after it as fit. */
  function ErrorDraft(s: seq<byte>, n: nat, ihl: nat, typ: byte, code: byte): (r: seq<byte>)
    requires InBuffer(s, n) && ihl <= 60 && 2 * ihl + 8 <= n
    ensures |r| == |s|
  {
    var head := Patch(Swapped(s), 2, 2 * ihl + 16);
    Overlay(head, ihl, [typ, code, 0, 0, 0, 0, 0, 0] + s[..ihl] + s[ihl..ihl + QuotedTail(n, ihl)])
  }

  function ErrorPacket(s: seq<byte>, n: nat, ihl: nat, typ: byte, code: byte): (r: seq<byte>)
    requires InBuffer(s, n) && ihl <= 60 && 2 * ihl + 8 <= n
    ensures |r| == |s|
  {
    SealedBoth(ErrorDraft(s, n, ihl, typ, code), ihl, 2 * ihl + 16)
  }

  /** The header of an ICMP error, outside its checksum: the addresses swapped, the length that of the error. */
  ghost predicate HeaderFor(s: seq<byte>, t: seq<byte>, ihl: nat)
    requires 20 <= ihl <= |s| == |t|
  {
    && t[12..16] == s[16..20] && t[16..20] == s[12..16]
    && t[0..2] == s[0..2] && t[4..10] == s[4..10] && t[20..ihl] == s[20..ihl]
    && Word(t[2], t[3]) == 2 * ihl + 16
  }

  /** What an ICMP error is, byte for byte outside its two checksums, given the offending packet of `n` bytes: as
      RFC 792 lays it out, except that the quotation stops where the packet ends and leaves the rest alone. */
  ghost predicate IsErrorFor(s: seq<byte>, t: seq<byte>, n: nat, ihl: nat, typ: byte, code: byte)
    requires InBuffer(s, n) && 20 <= ihl <= 60 && 2 * ihl + 8 <= n && |t| == |s|
  {
    var k := QuotedTail(n, ihl);
    && HeaderFor(s, t, ihl)
    && t[ihl] == typ && t[ihl + 1] == code && t[ihl + 4..ihl + 8] == [0, 0, 0, 0]
    && t[ihl + 8..2 * ihl + 8] == s[..ihl]
    && t[2 * ihl + 8..2 * ihl + 8 + k] == s[ihl..ihl + k]
    && t[2 * ihl + 8 + k..] == s[2 * ihl + 8 + k..]
  }

  lemma OverlayOutside(s: seq<byte>, at: nat, t: seq<byte>, from: nat, to: nat)
    requires at + |t| <= |s| && from <= to <= |s|
    requires to <= at || at + |t| <= from
    ensures Overlay(s, at, t)[from..to] == s[from..to]
  {
  }

  lemma HeadIs(s: seq<byte>, ihl: nat)
    requires 20 <= ihl <= 60 && ROOM <= |s|
    ensures HeaderFor(s, Patch(Swapped(s), 2, 2 * ihl + 16), ihl)
  {
  }

  /** Writing behind the header leaves it alone. */
  lemma HeadKept(s: seq<byte>, h: seq<byte>, ihl: nat, body: seq<byte>)
    requires 20 <= ihl && ihl + |body| <= |s| == |h| && HeaderFor(s, h, ihl)
    ensures HeaderFor(s, Overlay(h, ihl, body), ihl)
  {
    hide Word;
    var t := Overlay(h, ihl, body);
    assert t[..ihl] == h[..ihl];
    assert t[12..16] == t[..ihl][12..16] && t[16..20] == t[..ihl][16..20] && t[0..2] == t[..ihl][0..2];
    assert t[4..10] == t[..ihl][4..10] && t[20..ihl] == t[..ihl][20..ihl];
  }

  lemma DraftIsError(s: seq<byte>, n: nat, ihl: nat, typ: byte, code: byte)
    requires InBuffer(s, n) && 20 <= ihl <= 60 && 2 * ihl + 8 <= n
    ensures IsErrorFor(s, ErrorDraft(s, n, ihl, typ, code), n, ihl, typ, code)
  {
    hide Patch, Swapped, Overlay, HeaderFor, QuotedTail;
    var k := QuotedTail(n, ihl);
    var h := Patch(Swapped(s), 2, 2 * ihl + 16);
    HeadIs(s, ihl);
    HeadKeepsTail(s, 2 * ihl + 16, 2 * ihl + 8 + k);
    var fixed: seq<byte> := [typ, code, 0, 0, 0, 0, 0, 0];
    HeadKept(s, h, ihl, fixed + s[..ihl] + s[ihl..ihl + k]);
    ThreeParts(h, ihl, fixed, s[..ihl], s[ihl..ihl + k]);
    FixedBytes(ErrorDraft(s, n, ihl, typ, code), ihl, typ, code);
  }

  lemma ThreeParts(h: seq<byte>, at: nat, a: seq<byte>, b: seq<byte>, c: seq<byte>)
    requires at + |a| + |b| + |c| <= |h|
    ensures var t := Overlay(h, at, a + b + c);
            && t[at..at + |a|] == a
            && t[at + |a|..at + |a| + |b|] == b
            && t[at + |a| + |b|..at + |a| + |b| + |c|] == c
            && t[at + |a| + |b| + |c|..] == h[at + |a| + |b| + |c|..]
  {
    var p, q := h[..at], h[at + |a| + |b| + |c|..];
    var t := p + (a + b + c) + q;
    assert h[at + |a + b + c|..] == q;
    assert t == p + a + (b + c + q);
    Piece(p, a, b + c + q);
    assert t == (p + a) + b + (c + q);
    Piece(p + a, b, c + q);
    assert t == (p + a + b) + c + q;
    Piece(p + a + b, c, q);
  }

  lemma Piece(p: seq<byte>, a: seq<byte>, q: seq<byte>)
    ensures (p + a + q)[|p|..|p| + |a|] == a && (p + a + q)[|p| + |a|..] == q
  {
  }

  lemma FixedBytes(t: seq<byte>, ihl: nat, typ: byte, code: byte)
    requires ihl + 8 <= |t| && t[ihl..ihl + 8] == [typ, code, 0, 0, 0, 0, 0, 0]
    ensures t[ihl] == typ && t[ihl + 1] == code && t[ihl + 4..ihl + 8] == [0, 0, 0, 0]
  {
    var f := t[ihl..ihl + 8];
    assert t[ihl] == f[0] && t[ihl + 1] == f[1] && t[ihl + 4..ihl + 8] == f[4..];
  }

  lemma SameSlice(t: seq<byte>, u: seq<byte>, ihl: nat, from: nat, to: nat)
    requires Elsewhere(t, u, ihl) && from <= to <= |t| && 20 <= ihl
    requires to <= 10 || (12 <= from && to <= ihl + 2) || ihl + 4 <= from
    ensures u[from..to] == t[from..to]
  {
  }

  /** Neither checksum field overlaps anything the error promises. */
  lemma SealsKeepError(s: seq<byte>, t: seq<byte>, u: seq<byte>, n: nat, ihl: nat, typ: byte, code: byte)
    requires InBuffer(s, n) && 20 <= ihl <= 60 && 2 * ihl + 8 <= n && |t| == |s| && Elsewhere(t, u, ihl)
    requires IsErrorFor(s, t, n, ihl, typ, code)
    ensures IsErrorFor(s, u, n, ihl, typ, code)
  {
    var k := QuotedTail(n, ihl);
    SameSlice(t, u, ihl, 12, 16);
    SameSlice(t, u, ihl, 16, 20);
    SameSlice(t, u, ihl, 0, 2);
    SameSlice(t, u, ihl, 4, 10);
    SameSlice(t, u, ihl, 20, ihl);
    SameSlice(t, u, ihl, ihl + 4, ihl + 8);
    SameSlice(t, u, ihl, ihl + 8, 2 * ihl + 8);
    SameSlice(t, u, ihl, 2 * ihl + 8, 2 * ihl + 8 + k);
    SameSlice(t, u, ihl, 2 * ihl + 8 + k, |t|);
  }

  lemma SameFirst(s: seq<byte>, t: seq<byte>, n: nat, ihl: nat, typ: byte, code: byte)
    requires InBuffer(s, n) && 20 <= ihl <= 60 && 2 * ihl + 8 <= n && |t| == |s|
    requires IsErrorFor(s, t, n, ihl, typ, code)
    ensures s[0] == t[0]
  {
    assert s[0..2][0] == t[0..2][0];
  }

  /** An ICMP error for the offending packet whose checksums are both right. */
  ghost predicate ErrorAnswers(s: seq<byte>, t: seq<byte>, n: nat, ihl: nat, typ: byte, code: byte)
    requires InBuffer(s, n) && ihl == HeaderLength(s) && 20 <= ihl && 2 * ihl + 8 <= n && |t| == |s|
  {
    IsErrorFor(s, t, n, ihl, typ, code) && Verifies(0, t[..ihl]) && Verifies(0, t[ihl..2 * ihl + 16])
  }

  /** The error written over the offending packet: addresses swapped, header quoted exactly, nothing behind the
      quotation touched, and both checksums verify. */
  lemma ErrorIsSound(s: seq<byte>, n: nat, ihl: nat, typ: byte, code: byte)
    requires InBuffer(s, n) && ihl == HeaderLength(s) && 20 <= ihl && 2 * ihl + 8 <= n
    ensures ErrorAnswers(s, ErrorPacket(s, n, ihl, typ, code), n, ihl, typ, code)
  {
    hide IsErrorFor, ErrorDraft, Verifies, SealedBoth, Elsewhere, HeaderLength;
    ShortHeader(s);
    var d := ErrorDraft(s, n, ihl, typ, code);
    DraftIsError(s, n, ihl, typ, code);
    SameFirst(s, d, n, ihl, typ, code);
    SameHeaderLength(s, d);
    SealedBothVerify(d, ihl, 2 * ihl + 16);
    SealsKeepError(s, d, SealedBoth(d, ihl, 2 * ihl + 16), n, ihl, typ, code);
  }

  /** The quotation is the offending header and the eight bytes after it. */
  ghost predicate QuotesExactly(s: seq<byte>, t: seq<byte>, ihl: nat)
    requires 2 * ihl + 16 <= |s| == |t|
  {
    t[ihl + 8..2 * ihl + 8] == s[..ihl] && t[2 * ihl + 8..2 * ihl + 16] == s[ihl..ihl + 8]
  }

  /** The quotation is exact if the packet is long enough, or if the bytes left over behind it happen to be right. */
  lemma ExactIff(s: seq<byte>, n: nat, ihl: nat, typ: byte, code: byte)
    requires InBuffer(s, n) && ihl == HeaderLength(s) && 20 <= ihl && 2 * ihl + 8 <= n
    ensures QuotesExactly(s, ErrorPacket(s, n, ihl, typ, code), ihl)
            <==> n >= 2 * ihl + 16 || s[n..2 * ihl + 16] == s[n - ihl - 8..ihl + 8]
  {
    hide ErrorPacket, Verifies, HeaderFor, HeaderLength;
    ShortHeader(s);
    ErrorIsSound(s, n, ihl, typ, code);
    if n < 2 * ihl + 16 {
      CutQuotation(s, ErrorPacket(s, n, ihl, typ, code), 2 * ihl + 8, n - (2 * ihl + 8), ihl);
    }
  }

  lemma CutQuotation(s: seq<byte>, t: seq<byte>, at: nat, k: nat, from: nat)
    requires k < 8 && from + 8 <= at && at + 8 <= |s| == |t|
    requires t[at..at + k] == s[from..from + k] && t[at + k..] == s[at + k..]
    ensures t[at..at + 8] == s[from..from + 8] <==> s[at + k..at + 8] == s[from + k..from + 8]
  {
    var m := at + k;
    assert t[m..at + 8] == t[m..][..8 - k] && s[m..at + 8] == s[m..][..8 - k];
    assert t[at..at + 8] == t[at..m] + t[m..at + 8];
    assert s[from..from + 8] == s[from..from + k] + s[from + k..from + 8];
    SplitEqual(s[from..from + k], s[m..at + 8], s[from + k..from + 8]);
  }

  lemma SplitEqual(a: seq<byte>, b: seq<byte>, c: seq<byte>)
    ensures a + b == a + c <==> b == c
  {
    if a + b == a + c {
      assert (a + b)[|a|..] == b && (a + c)[|a|..] == c;
    }
  }

  /** Whatever an earlier read left in the buffer, the quotation is exact: this holds of a packet exactly if it has
      room for the whole error. */
  lemma ExactForEveryBufferIff(p: seq<byte>, ihl: nat, typ: byte, code: byte)
    requires 20 <= |p| && ihl == HeaderLength(p) && 20 <= ihl && 2 * ihl + 8 <= |p|
    ensures (forall rest: seq<byte> :: ROOM <= |p + rest| ==>
               QuotesExactly(p + rest, ErrorPacket(p + rest, |p|, ihl, typ, code), ihl))
            <==> |p| >= 2 * ihl + 16
  {
    hide ErrorPacket, QuotesExactly, HeaderLength;
    ShortHeader(p);
    var n := |p|;
    if n >= 2 * ihl + 16 {
      forall rest: seq<byte> | ROOM <= |p + rest|
        ensures QuotesExactly(p + rest, ErrorPacket(p + rest, n, ihl, typ, code), ihl)
      {
        SameHeaderLength(p, p + rest);
        ExactIff(p + rest, n, ihl, typ, code);
      }
    } else {
      var right: int := p[n - ihl - 8];
      var wrong: byte := (right + 1) % 256;
      var rest := seq(ROOM, _ => wrong);
      var s := p + rest;
      SameHeaderLength(p, s);
      ExactIff(s, n, ihl, typ, code);
      assert s[n..2 * ihl + 16][0] == wrong && s[n - ihl - 8..ihl + 8][0] == p[n - ihl - 8];
      assert |p + rest| >= ROOM && !QuotesExactly(p + rest, ErrorPacket(p + rest, n, ihl, typ, code), ihl);
    }
  }

  datatype Result = Panics | Written

  /** Type, code and six zero bytes, then the header, then what fits of the eight bytes after it. The slice for the
      latter starts behind the quoted header: it panics exactly if the packet ends before. */
  method PutQuotation(buf: array<byte>, n: nat, ihl: nat, fixed: seq<byte>, origHdr: seq<byte>, origIcmp: seq<byte>)
    returns (r: Result)
    requires InBuffer(buf[..], n) && |fixed| == |origIcmp| == 8 && |origHdr| == ihl
    modifies buf
    ensures r == Panics <==> n < 2 * ihl + 8
    ensures r == Panics ==> buf[n..] == old(buf[n..])
    ensures r == Written ==>
              buf[..] == Overlay(old(buf[..]), ihl, fixed + origHdr + origIcmp[..QuotedTail(n, ihl)])
  {
    hide Overlay, QuotedTail;
    ghost var head := buf[..];
    assert buf[n..] == head[n..|head|];
    if n < ihl + 8 {
      return Panics;
    }
    CopyInto(buf, ihl, fixed);
    if n < 2 * ihl + 8 {
      CopyInto(buf, ihl + 8, origHdr[..n - (ihl + 8)]);
      OverlayNext(head, ihl, fixed, origHdr[..n - (ihl + 8)]);
      OverlayOutside(head, ihl, fixed + origHdr[..n - (ihl + 8)], n, |head|);
      assert buf[n..] == buf[..][n..|head|];
      return Panics;
    }
    CopyInto(buf, ihl + 8, origHdr);
    var k := QuotedTail(n, ihl);
    CopyInto(buf, ihl + 8 + ihl, origIcmp[..k]);
    OverlayNext(head, ihl, fixed, origHdr);
    OverlayNext(head, ihl, fixed + origHdr, origIcmp[..k]);
    return Written;
  }

  /** The common body of the two error writers: it panics exactly if the packet has no room for a second header and
      eight bytes. */
  method WriteICMPError4(buf: array<byte>, n: nat, ihl: nat, typ: byte, code: byte) returns (r: Result)
    requires InBuffer(buf[..], n) && ihl == HeaderLength(buf[..])
    modifies buf
    ensures r == Panics <==> n < 2 * ihl + 8
    ensures r == Panics ==> buf[n..] == old(buf[n..])
    ensures r == Written ==> buf[..] == old(ErrorPacket(buf[..], n, ihl, typ, code))
    ensures r == Written && 20 <= ihl ==> ErrorAnswers(old(buf[..]), buf[..], n, ihl, typ, code)
  {
    hide HeaderLength, Patch, Overlay, SealedBoth, Swapped, ErrorAnswers;
    ghost var s := buf[..];
    ShortHeader(s);
    var origHdr := buf[..ihl];
    var origIcmp := buf[ihl..ihl + 8];
    if 20 <= ihl && 2 * ihl + 8 <= n {
      ErrorIsSound(s, n, ihl, typ, code);
    }
    assert origHdr == s[..ihl] && forall k :: 0 <= k <= 8 ==> origIcmp[..k] == s[ihl..ihl + k];
    SwapAddresses(buf);
    PutWord(buf, 2, 2 * ihl + 16);
    HeadKeepsTail(s, 2 * ihl + 16, n);
    assert buf[n..] == buf[..][n..] && s[n..] == old(buf[n..]);
    r := PutQuotation(buf, n, ihl, [typ, code, 0, 0, 0, 0, 0, 0], origHdr, origIcmp);
    if r == Written {
      SealBoth(buf, ihl, 2 * ihl + 16);
    }
  }

  lemma ShortHeader(s: seq<byte>)
    requires s != []
    ensures HeaderLength(s) <= 60
  {
  }

  lemma HeadKeepsTail(s: seq<byte>, v: nat, n: nat)
    requires 20 <= n <= |s| && v <= 0xffff
    ensures Patch(Swapped(s), 2, v)[n..] == s[n..]
  {
  }

  method WriteICMPDestUnreach4(buf: array<byte>, n: nat, ihl: nat, code: byte) returns (r: Result)
    requires InBuffer(buf[..], n) && ihl == HeaderLength(buf[..])
    modifies buf
    ensures r == Panics <==> n < 2 * ihl + 8
    ensures r == Written ==> buf[..] == old(ErrorPacket(buf[..], n, ihl, DEST_UNREACHABLE, code))
    ensures r == Written && 20 <= ihl ==> ErrorAnswers(old(buf[..]), buf[..], n, ihl, DEST_UNREACHABLE, code)
  {
    r := WriteICMPError4(buf, n, ihl, DEST_UNREACHABLE, code);
  }

  method WriteICMPTimeExceed4(buf: array<byte>, n: nat, ihl: nat, code: byte) returns (r: Result)
    requires InBuffer(buf[..], n) && ihl == HeaderLength(buf[..])
    modifies buf
    ensures r == Panics <==> n < 2 * ihl + 8
    ensures r == Written ==> buf[..] == old(ErrorPacket(buf[..], n, ihl, TIME_EXCEEDED, code))
    ensures r == Written && 20 <= ihl ==> ErrorAnswers(old(buf[..]), buf[..], n, ihl, TIME_EXCEEDED, code)
  {
    r := WriteICMPError4(buf, n, ihl, TIME_EXCEEDED, code);
  }

  /** The echo request turned around. */
  function EchoPacket(s: seq<byte>, n: nat, ihl: nat): (r: seq<byte>)
    requires InBuffer(s, n) && ihl + 4 <= n
    ensures |r| == |s|
  {
    SealedBoth(Swapped(s)[ihl := ECHO_REPLY][ihl + 1 := 0], ihl, n)
  }

  /** Addresses swapped, type and code zero, identifier and data kept, both checksums right. */
  lemma EchoIsSound(s: seq<byte>, n: nat, ihl: nat)
    requires InBuffer(s, n) && ihl == HeaderLength(s) && 20 <= ihl && ihl + 4 <= n
    ensures var t := EchoPacket(s, n, ihl);
            && t[..10] == s[..10] && t[12..16] == s[16..20] && t[16..20] == s[12..16]
            && t[20..ihl] == s[20..ihl] && t[ihl] == 0 && t[ihl + 1] == 0
            && t[ihl + 4..] == s[ihl + 4..]
            && Verifies(0, t[..ihl]) && Verifies(0, t[ihl..n])
  {
    hide Verifies, SealedBoth;
    var d := Swapped(s)[ihl := ECHO_REPLY][ihl + 1 := 0];
    assert d[..10] == s[..10] && d[12..16] == s[16..20] && d[16..20] == s[12..16];
    assert d[20..ihl] == s[20..ihl] && d[ihl + 4..] == s[ihl + 4..];
    assert d[0] == s[..10][0];
    SealedBothVerify(d, ihl, n);
    var t := SealedBoth(d, ihl, n);
    hide Swapped;
    SameSlice(d, t, ihl, 0, 10);
    SameSlice(d, t, ihl, 12, 16);
    SameSlice(d, t, ihl, 16, 20);
    SameSlice(d, t, ihl, 20, ihl);
    SameSlice(d, t, ihl, ihl + 4, |d|);
  }

  method WriteICMPEchoReply4(buf: array<byte>, n: nat, ihl: nat)
    requires InBuffer(buf[..], n) && n <= 0xffff && ihl + 4 <= n
    modifies buf
    ensures buf[..] == old(EchoPacket(buf[..], n, ihl))
  {
    hide SealedBoth, Swapped;
    SwapAddresses(buf);
    buf[ihl] := ECHO_REPLY;
    buf[ihl + 1] := 0;
    SealBoth(buf, ihl, n);
  }

  // ----- the handler of echo requests -----

  const ECHO_REQUEST: byte := 8

  /** What became of looking up and dialling the peer behind the destination address. */
  datatype DialResult = NoPeer | Connected | TimedOut | Refused | OtherError

  predicate IsEchoRequest(s: seq<byte>, n: nat)
    requires 20 <= n <= |s|
  {
    HeaderLength(s) + 8 <= n && s[HeaderLength(s)] == ECHO_REQUEST
  }

  /** When the handler brings the program down: the header is longer than the packet, or an echo request that cannot be
      answered has no room for its own header as quotation. */
  predicate Crashes(s: seq<byte>, n: nat, dial: DialResult)
    requires 20 <= n <= |s|
  {
    n < HeaderLength(s) || (IsEchoRequest(s, n) && dial != Connected && n < 2 * HeaderLength(s) + 8)
  }

  datatype Handled = Ignored | Replied | Crashed

  /** Only echo requests are answered, by a reply or an error that reports the dial result. */
  method HandleICMP4(buf: array<byte>, n: nat, dial: DialResult) returns (r: Handled)
    requires InBuffer(buf[..], n) && n <= 0xffff
    modifies buf
    ensures r == Crashed <==> old(Crashes(buf[..], n, dial))
    ensures var ihl := old(buf[0] % 16 * 4);
            r == Ignored <==> ihl <= n && !(ihl + 8 <= n && old(buf[..])[ihl] == 8)
    ensures r == Ignored ==> buf[..] == old(buf[..])
    ensures r == Replied ==>
              var s, ihl := old(buf[..]), old(HeaderLength(buf[..]));
              match dial
              case NoPeer => buf[..] == ErrorPacket(s, n, ihl, 3, 1)
              case Connected => buf[..] == EchoPacket(s, n, ihl)
              case TimedOut => buf[..] == ErrorPacket(s, n, ihl, 11, 1)
              case Refused => buf[..] == ErrorPacket(s, n, ihl, 3, 3)
              case OtherError => buf[..] == ErrorPacket(s, n, ihl, 3, 1)
  {
    hide EchoPacket, ErrorPacket;
    var ihl := buf[0] % 16 * 4;
    if n < ihl {
      return Crashed;
    }
    if n - ihl < 8 || buf[ihl] != ECHO_REQUEST {
      return Ignored;
    }
    var w := Written;
    match dial {
      case NoPeer => w := WriteICMPDestUnreach4(buf, n, ihl, 1);
      case Connected => WriteICMPEchoReply4(buf, n, ihl);
      case TimedOut => w := WriteICMPTimeExceed4(buf, n, ihl, 1);
      case Refused => w := WriteICMPDestUnreach4(buf, n, ihl, 3);
      case OtherError => w := WriteICMPDestUnreach4(buf, n, ihl, 1);
    }
    r := if w == Panics then Crashed else Replied;
  }

  /** An echo request of 28 bytes, without options or data, sent to an address that cannot be reached. */
  lemma ShortPingCrashes(rest: seq<byte>, dial: DialResult)
    requires dial != Connected
    ensures var p: seq<byte> := [0x45, 0, 0, 28, 0, 0, 0, 0, 64, 1, 0, 0, 10, 0, 0, 1, 10, 0, 0, 2]
                                + [8, 0, 0, 0, 0, 1, 0, 1];
            |p| == 28 && Crashes(p + rest, 28, dial)
  {
    var h: seq<byte> := [0x45, 0, 0, 28, 0, 0, 0, 0, 64, 1, 0, 0, 10, 0, 0, 1, 10, 0, 0, 2];
    var icmp: seq<byte> := [8, 0, 0, 0, 0, 1, 0, 1];
    assert (h + icmp + rest)[0] == h[0] && (h + icmp + rest)[20] == icmp[0];
  }

  // ----- a TCP packet from scratch -----

  /** The twenty bytes of an IPv4 header without options, checksum still clear. */
  function PlainHeader(src: seq<byte>, dst: seq<byte>, total: nat): (r: seq<byte>)
    requires |src| == |dst| == 4 && total <= 0xffff
    ensures |r| == 20
  {
    [0x45, 0, total / 256, total % 256, 0, 0, 0, 0, 64, TCP, 0, 0] + src + dst
  }

  method DraftHeader(src: seq<byte>, dst: seq<byte>, total: nat) returns (ip: array<byte>)
    requires |src| == |dst| == 4 && total <= 0xffff
    ensures fresh(ip) && ip[..] == PlainHeader(src, dst, total)
  {
    ip := new byte[20](_ => 0);
    ip[0] := 0x45;
    PutWord(ip, 2, total);
    ip[8] := 64;
    ip[9] := TCP;
    ghost var fixed := ip[..];
    assert fixed[..12] == [0x45, 0, total / 256, total % 256, 0, 0, 0, 0, 64, TCP, 0, 0];
    CopyInto(ip, 12, src);
    CopyInto(ip, 16, dst);
    OverlayNext(fixed, 12, src, dst);
    assert fixed[12 + |src + dst|..] == [];
    assert ip[..] == fixed[..12] + (src + dst);
  }

  method BuildHeader(src: seq<byte>, dst: seq<byte>, total: nat) returns (ip: array<byte>)
    requires |src| == |dst| == 4 && total <= 0xffff
    ensures fresh(ip)
    ensures var h := PlainHeader(src, dst, total);
            ip[..] == Patch(h, 10, SealFor(0, h, 0, 20, 10))
    ensures Verifies(0, ip[..])
  {
    hide WordSum, Fold, Verifies, ChecksumOf, SealFor, PlainHeader;
    ip := DraftHeader(src, dst, total);
    Seal(ip, 0, 20, 10);
    assert ip[0..20] == ip[..];
  }

  /** A copy of the segment with its checksum in place. */
  method SealSegment(src: seq<byte>, dst: seq<byte>, tcpSeg: seq<byte>) returns (tcp: array<byte>)
    requires |src| == |dst| == 4 && 18 <= |tcpSeg| <= 0xffff
    ensures fresh(tcp) && tcp.Length == |tcpSeg| && tcp[..16] == tcpSeg[..16] && tcp[18..] == tcpSeg[18..]
    ensures Verifies(0, PseudoHeader(src, dst, TCP, |tcpSeg|) + tcp[..])
  {
    hide WordSum, Fold, Verifies, ChecksumOf, PseudoSum;
    tcp := new byte[|tcpSeg|](i requires 0 <= i < |tcpSeg| => tcpSeg[i]);
    assert tcp[..] == tcpSeg;
    PutWord(tcp, 16, 0);
    ghost var z := tcp[..];
    var psum := PseudoSum(src, dst, TCP, |tcpSeg|);
    var cs := OnesComplementSumFold(tcp[..], psum);
    PutWord(tcp, 16, cs);
    SealedVerifies(psum, z, 16, cs);
    PatchTwice(tcpSeg, 16, 0, cs);
    PatchOutside(tcpSeg, 16, cs, 0, 16);
    PatchOutside(tcpSeg, 16, cs, 18, |tcpSeg|);
    PseudoVerifies(src, dst, TCP, |tcpSeg|, tcp[..]);
  }

  /** Header and segment both verify; addresses, length and protocol are as asked; every byte of the segment
      outside its checksum is the caller's. */
  method BuildPacket4(src: seq<byte>, dst: seq<byte>, tcpSeg: seq<byte>) returns (pkt: array<byte>)
    requires |src| == |dst| == 4 && 18 <= |tcpSeg| <= 0xffff
    ensures pkt.Length == 20 + |tcpSeg| && HeaderLength(pkt[..]) == 20
    ensures Verifies(0, pkt[..20]) && Verifies(0, PseudoHeader(src, dst, 6, |tcpSeg|) + pkt[20..])
    ensures pkt[12..16] == src && pkt[16..20] == dst && pkt[9] == 6 && pkt[8] == 64 && pkt[0] == 0x45
    ensures pkt[1] == 0 && pkt[4] == pkt[5] == pkt[6] == pkt[7] == 0
    ensures Word(pkt[2], pkt[3]) == (20 + |tcpSeg|) % 65536
    ensures pkt[20..36] == tcpSeg[..16] && pkt[38..] == tcpSeg[18..]
  {
    hide WordSum, Fold, Verifies, ChecksumOf, PseudoHeader, SealFor, PlainHeader, Patch, Overlay, Word;
    var total := (20 + |tcpSeg|) % 65536;
    var ip := BuildHeader(src, dst, total);
    var tcp := SealSegment(src, dst, tcpSeg);
    pkt := new byte[20 + |tcpSeg|];
    ghost var raw := pkt[..];
    CopyInto(pkt, 0, ip[..]);
    CopyInto(pkt, 20, tcp[..]);
    OverlayNext(raw, 0, ip[..], tcp[..]);
    OverlayAll(raw, ip[..] + tcp[..]);
    HeaderFields(src, dst, total, SealFor(0, PlainHeader(src, dst, total), 0, 20, 10));
    PacketSlices(pkt[..], ip[..], tcp[..]);
    assert pkt[12..16] == pkt[..][12..16] && pkt[16..20] == pkt[..][16..20];
    assert pkt[20..36] == pkt[..][20..36] && pkt[38..] == pkt[..][38..];
    assert tcp[..16] == tcp[..][..16] && tcp[18..] == tcp[..][18..];
    assert pkt[..20] == pkt[..][..20] && pkt[20..] == pkt[..][20..];
  }

  lemma OverlayAll(s: seq<byte>, t: seq<byte>)
    requires |s| == |t|
    ensures Overlay(s, 0, t) == t
  {
  }

  lemma PacketSlices(p: seq<byte>, ip: seq<byte>, tcp: seq<byte>)
    requires p == ip + tcp && |ip| == 20 && |tcp| >= 18
    ensures p[..20] == ip && p[20..] == tcp
    ensures p[12..16] == ip[12..16] && p[16..20] == ip[16..20]
    ensures p[20..36] == tcp[..16] && p[38..] == tcp[18..]
    ensures forall i :: 0 <= i < 20 ==> p[i] == ip[i]
  {
  }

  lemma HeaderFields(src: seq<byte>, dst: seq<byte>, total: nat, c: nat)
    requires |src| == |dst| == 4 && c <= 0xffff && total <= 0xffff
    ensures var ip := Patch(PlainHeader(src, dst, total), 10, c);
            && ip[0] == 0x45 && ip[1] == 0 && ip[8] == 64 && ip[9] == TCP && Word(ip[2], ip[3]) == total
            && ip[4] == ip[5] == ip[6] == ip[7] == 0
            && ip[12..16] == src && ip[16..20] == dst
  {
    PatchOutside(PlainHeader(src, dst, total), 10, c, 12, 16);
    PatchOutside(PlainHeader(src, dst, total), 10, c, 16, 20);
  }
}
