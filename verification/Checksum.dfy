/** The Internet checksum: one's-complement sums of 16-bit words (RFC 1071, section 1),
    with the 32-bit accumulator and the folding loop of the source. */
module Checksum {
  import opened Bytes

  function Word(hi: byte, lo: byte): nat { 256 * (hi as nat) + lo as nat }

  /** The sum of the big-endian words; an odd last byte counts as a high byte. */
  function WordSum(s: seq<byte>): nat {
    if s == [] then 0
    else if |s| == 1 then Word(s[0], 0)
    else Word(s[0], s[1]) + WordSum(s[2..])
  }

  /** What folding the carries back in arrives at: the representative of `n` modulo 65535 that is
      zero only for zero. */
  function Fold(n: nat): (r: nat)
    ensures r <= 0xffff
  {
    if n == 0 then 0 else 1 + (n - 1) % 65535
  }

  function Complement(n: nat): nat
    requires n <= 0xffff
  {
    0xffff - n
  }

  /** The checksum of data whose words, with anything summed before, add up to `n`. */
  function ChecksumOf(n: nat): (c: nat)
    ensures c <= 0xffff
  {
    Complement(Fold(n))
  }

  /** A receiver's test: checksum field included, the sum comes out as all ones, so its complement is zero. */
  ghost predicate Verifies(initial: nat, s: seq<byte>) {
    ChecksumOf(initial + WordSum(s)) == 0
  }

  /** Store a 16-bit value at `k`. */
  function Patch(s: seq<byte>, k: nat, v: nat): (r: seq<byte>)
    requires k + 2 <= |s| && v <= 0xffff
    ensures |r| == |s|
  {
    s[k := v / 256][k + 1 := v % 256]
  }

  // ----- arithmetic modulo 65535 -----

  /** One round of folding keeps the result. */
  lemma FoldRound(n: nat)
    requires n > 0xffff
    ensures Fold(n / 65536 + n % 65536) == Fold(n)
    ensures 0 < n / 65536 + n % 65536 < n
  {
    var q, r := n / 65536, n % 65536;
    assert n == q * 65535 + (q + r);
    ModShift(q + r - 1, q);
  }

  lemma ModShift(a: nat, q: nat)
    ensures (a + q * 65535) % 65535 == a % 65535
  {
  }

  lemma FoldSmall(n: nat)
    requires n <= 0xffff
    ensures Fold(n) == n
  {
  }

  /** Adding the checksum makes the sum verify; among all field values only it does, but for the two zeros
      of one's-complement arithmetic: where the checksum is 0, all ones would do as well. */
  lemma ChecksumIsTheOne(n: nat, c: nat)
    requires c <= 0xffff
    ensures ChecksumOf(n + c) == 0 <==> c == ChecksumOf(n) || (ChecksumOf(n) == 0 && c == 0xffff)
  {
    if n == 0 {
      FoldSmall(c);
    } else {
      var m, f := (n - 1) / 65535, Fold(n);
      assert n == m * 65535 + f && 1 <= f <= 65535;
      if f + c > 0 {
        assert n + c - 1 == m * 65535 + (f + c - 1);
        ModShift(f + c - 1, m);
      }
    }
  }

  // ----- words in place -----

  lemma {:induction false} WordSumBound(s: seq<byte>)
    ensures WordSum(s) <= 0xffff * ((|s| + 1) / 2)
  {
    if |s| >= 2 {
      WordSumBound(s[2..]);
    }
  }

  /** Storing a value into a zeroed, even-aligned field adds it to the sum. */
  lemma {:induction false} PatchAdds(s: seq<byte>, k: nat, v: nat)
    requires k + 2 <= |s| && k % 2 == 0 && v <= 0xffff && s[k] == s[k + 1] == 0
    ensures WordSum(Patch(s, k, v)) == WordSum(s) + v
  {
    if k >= 2 {
      PatchAdds(s[2..], k - 2, v);
      assert Patch(s, k, v)[2..] == Patch(s[2..], k - 2, v);
    } else {
      assert Patch(s, k, v)[2..] == s[2..];
    }
  }

  /** Which field values verify, for every content, every odd or even length and every even field position. */
  lemma SealedVerifies(initial: nat, s: seq<byte>, k: nat, v: nat)
    requires k + 2 <= |s| && k % 2 == 0 && v <= 0xffff && s[k] == s[k + 1] == 0
    ensures var c := ChecksumOf(initial + WordSum(s));
            Verifies(initial, Patch(s, k, v)) <==> v == c || (c == 0 && v == 0xffff)
  {
    hide WordSum, Patch, Fold;
    PatchAdds(s, k, v);
    ChecksumIsTheOne(initial + WordSum(s), v);
  }

  // ----- the loops of the source -----

  lemma NextWord(s: seq<byte>, i: nat)
    requires i + 2 <= |s|
    ensures WordSum(s[i..]) == Word(s[i], s[i + 1]) + WordSum(s[i + 2..])
  {
    assert s[i..][2..] == s[i + 2..];
  }

  lemma LastWord(s: seq<byte>, i: nat)
    requires |s| - 1 <= i <= |s|
    ensures WordSum(s[i..]) == if i < |s| then Word(s[|s| - 1], 0) else 0
  {
  }

  const WORD32: nat := 0x1_0000_0000

  /** Addition of 32-bit unsigned numbers wraps around. */
  function Add32(a: nat, b: nat): nat { (a + b) % WORD32 }

  lemma Add32Exact(a: nat, b: nat)
    requires a + b < WORD32
    ensures Add32(a, b) == a + b
  {
  }

  method FoldCarries(start: nat) returns (r: nat)
    ensures r == Fold(start) && r <= 0xffff
  {
    var sum := start;
    while sum > 0xffff
      invariant Fold(sum) == Fold(start)
      decreases sum
    {
      FoldRound(sum);
      sum := sum / 65536 + sum % 65536;
    }
    FoldSmall(sum);
    r := sum;
  }

  lemma SumFits(data: seq<byte>, initial: nat)
    requires |data| <= 0xffff && initial <= 6 * 0xffff
    ensures initial + WordSum(data) < WORD32 && data[0..] == data
  {
    hide WordSum;
    WordSumBound(data);
  }

  /** The 32-bit sum does not overflow for anything an IPv4 packet can hold, so wrapping does not matter. */
  method OnesComplementSumFold(data: seq<byte>, initial: nat) returns (c: nat)
    requires |data| <= 0xffff && initial <= 6 * 0xffff
    ensures c == ChecksumOf(initial + WordSum(data)) && c <= 0xffff
  {
    hide WordSum, Word, Add32, Fold;
    SumFits(data, initial);
    var sum: nat, i := initial, 0;
    while i < |data| - 1
      invariant 0 <= i <= |data| && i % 2 == 0
      invariant sum + WordSum(data[i..]) == initial + WordSum(data)
    {
      NextWord(data, i);
      Add32Exact(sum, Word(data[i], data[i + 1]));
      sum := Add32(sum, Word(data[i], data[i + 1]));
      i := i + 2;
    }
    LastWord(data, i);
    if |data| % 2 == 1 {
      Add32Exact(sum, Word(data[|data| - 1], 0));
      sum := Add32(sum, Word(data[|data| - 1], 0));
    }
    var folded := FoldCarries(sum);
    c := Complement(folded);
  }

  method OnesComplementSum(data: seq<byte>) returns (c: nat)
    requires |data| <= 0xffff
    ensures c == ChecksumOf(WordSum(data)) && c <= 0xffff
  {
    c := OnesComplementSumFold(data, 0);
  }

  /** The pseudo-header sum: both addresses, the protocol and the segment length. */
  function PseudoSum(src: seq<byte>, dst: seq<byte>, proto: byte, length: nat): (r: nat)
    requires |src| == |dst| == 4 && length <= 0xffff
    ensures r <= 6 * 0xffff
  {
    Word(src[0], src[1]) + Word(src[2], src[3]) + Word(dst[0], dst[1]) + Word(dst[2], dst[3]) + proto as nat + length
  }

  // ----- what the sums mean -----

  /** A word is a two-byte big-endian number. */
  lemma WordIsBigEndian(hi: byte, lo: byte)
    ensures Word(hi, lo) == FromBigEndian([hi, lo])
  {
    assert [hi, lo][..1] == [hi] && [hi][..0] == [];
    assert FromBigEndian([hi]) == hi;
  }

  /** Storing a word stores its two bytes, most significant first. */
  lemma PatchIsBigEndian(s: seq<byte>, k: nat, v: nat)
    requires k + 2 <= |s| && v <= 0xffff
    ensures Patch(s, k, v) == Overlay(s, k, BigEndian(v, 2))
  {
    assert BigEndian(v / 256, 1) == BigEndian(v / 256 / 256, 0) + [v / 256 % 256] == [v / 256];
    assert BigEndian(v, 2) == [v / 256, v % 256];
    assert Patch(s, k, v) == s[..k] + [v / 256, v % 256] + s[k + 2..];
  }

  /** Data of odd length is summed as if padded with a zero byte. */
  lemma {:induction false} OddIsPadded(s: seq<byte>)
    requires |s| % 2 == 1
    ensures WordSum(s) == WordSum(s + [0])
  {
    if |s| == 1 {
      assert (s + [0])[2..] == [];
    } else {
      OddIsPadded(s[2..]);
      assert (s + [0])[2..] == s[2..] + [0];
    }
  }

  /** Sums of parts add up when the first has even length. */
  lemma {:induction false} SumsAdd(a: seq<byte>, b: seq<byte>)
    requires |a| % 2 == 0
    ensures WordSum(a + b) == WordSum(a) + WordSum(b)
  {
    if a == [] {
      assert a + b == b;
    } else {
      SumsAdd(a[2..], b);
      assert (a + b)[2..] == a[2..] + b;
    }
  }

  /** Data verifies exactly if its words add up to a multiple of 65535 other than zero. */
  lemma VerifiesIff(initial: nat, s: seq<byte>)
    ensures Verifies(initial, s) <==> initial + WordSum(s) > 0 && (initial + WordSum(s)) % 65535 == 0
  {
    var n := initial + WordSum(s);
    if n > 0 {
      var q := (n - 1) / 65535;
      ModShift(Fold(n), q);
      assert n == q * 65535 + Fold(n);
    }
  }

  /** The pseudo-header of section 3.1 of RFC 9293: source, destination, a zero byte, the protocol, and the length of
      the segment. */
  function PseudoHeader(src: seq<byte>, dst: seq<byte>, proto: byte, length: nat): (r: seq<byte>)
    requires |src| == |dst| == 4 && length <= 0xffff
    ensures |r| == 12
  {
    src + dst + [0, proto] + BigEndian(length, 2)
  }

  /** The pseudo-header sum is the sum of those twelve bytes. */
  lemma PseudoSumIs(src: seq<byte>, dst: seq<byte>, proto: byte, length: nat)
    requires |src| == |dst| == 4 && length <= 0xffff
    ensures PseudoSum(src, dst, proto, length) == WordSum(PseudoHeader(src, dst, proto, length))
  {
    FourBytes(src);
    FourBytes(dst);
    TwoWords(proto, length);
    var tail := [0, proto] + BigEndian(length, 2);
    SumsAdd(src, dst + tail);
    SumsAdd(dst, tail);
    assert PseudoHeader(src, dst, proto, length) == src + (dst + tail);
  }

  lemma FourBytes(s: seq<byte>)
    requires |s| == 4
    ensures WordSum(s) == Word(s[0], s[1]) + Word(s[2], s[3])
  {
    var t := s[2..];
    assert t[2..] == [] && WordSum([]) == 0;
    assert WordSum(t) == Word(t[0], t[1]) + WordSum(t[2..]);
  }

  lemma TwoWords(proto: byte, length: nat)
    requires length <= 0xffff
    ensures WordSum([0, proto] + BigEndian(length, 2)) == proto as nat + length
  {
    assert BigEndian(length / 256, 1) == BigEndian(length / 256 / 256, 0) + [length / 256 % 256] == [length / 256];
    var s: seq<byte> := [0, proto] + BigEndian(length, 2);
    assert BigEndian(length, 2) == [length / 256, length % 256];
    assert s == [0, proto, length / 256, length % 256];
    FourBytes(s);
  }

  /** Summing a segment on top of its pseudo-header sum is summing the two one after the other. */
  lemma PseudoVerifies(src: seq<byte>, dst: seq<byte>, proto: byte, length: nat, segment: seq<byte>)
    requires |src| == |dst| == 4 && length <= 0xffff
    ensures Verifies(PseudoSum(src, dst, proto, length), segment)
            <==> Verifies(0, PseudoHeader(src, dst, proto, length) + segment)
  {
    hide PseudoSum, PseudoHeader, WordSum, Fold;
    PseudoSumIs(src, dst, proto, length);
    SumsAdd(PseudoHeader(src, dst, proto, length), segment);
  }
}
