/** The packed bitmap of received chunks: 64 chunks to a word, set in place. */
module Bitmap {
  import opened Bits

  predicate IsWord(w: nat) { w < Pow2(64) }

  /** Division that rounds toward zero. */
  function WordIndex(seqNo: int): int { if seqNo >= 0 then seqNo / 64 else -(-seqNo / 64) }

  /** The bit of a chunk in its word. Shifted by the huge count that a negative remainder becomes, it is gone. */
  function Mask(seqNo: int): nat { if seqNo >= 0 then Pow2(seqNo % 64) else 0 }

  /** From -64 down the index is negative, and using it panics. */
  predicate InRange(seqNo: int) { WordIndex(seqNo) >= 0 }

  /** Chunks beyond the last word are never there. */
  predicate Has(words: seq<nat>, seqNo: int)
    requires InRange(seqNo)
  {
    WordIndex(seqNo) < |words| && And(words[WordIndex(seqNo)], Mask(seqNo)) != 0
  }

  /** The set the words stand for. */
  ghost function Members(words: seq<nat>): set<nat> {
    set k: nat | k < 64 * |words| && Has(words, k)
  }

  /** `n` is the length of the longest full prefix, looking no further than `limit`. */
  ghost predicate IsFullPrefix(have: set<nat>, limit: nat, n: nat) {
    n <= limit && (forall k: nat :: k < n ==> k in have) && (n < limit ==> n !in have)
  }

  lemma MembersHas(words: seq<nat>, k: nat)
    ensures k in Members(words) <==> Has(words, k)
  {
  }

  /** Numbers from -63 to -1 share the first word but never have a bit in it. */
  lemma {:induction false} NoBits(a: nat)
    ensures And(a, 0) == 0 && Or(a, 0) == a
  {
    if a > 0 {
      NoBits(a / 2);
    }
  }

  lemma NegativeIsNeverThere(words: seq<nat>, seqNo: int)
    requires InRange(seqNo) && seqNo < 0
    ensures !Has(words, seqNo)
  {
    if WordIndex(seqNo) < |words| {
      NoBits(words[WordIndex(seqNo)]);
    }
  }

  lemma ZeroWordsAreEmpty(words: seq<nat>)
    requires forall i :: 0 <= i < |words| ==> words[i] == 0
    ensures Members(words) == {}
  {
  }

  lemma FullPrefixIsUnique(have: set<nat>, limit: nat, m: nat, n: nat)
    requires IsFullPrefix(have, limit, m) && IsFullPrefix(have, limit, n)
    ensures m == n
  {
    assert !(m < n) && !(n < m);
  }

  /** Or-ing a bit in adds that chunk and no other. */
  lemma SetMembers(a: seq<nat>, b: seq<nat>, seqNo: nat)
    requires seqNo / 64 < |a| && b == a[seqNo / 64 := Or(a[seqNo / 64], Pow2(seqNo % 64))]
    ensures Members(b) == Members(a) + {seqNo}
  {
    forall k: nat | k < 64 * |a|
      ensures k in Members(b) <==> k in Members(a) || k == seqNo
    {
      var i, j := seqNo % 64, k % 64;
      MaskTestsBit(a[k / 64], j);
      MaskTestsBit(b[k / 64], j);
      if k / 64 == seqNo / 64 {
        OrBits(a[k / 64], Pow2(i), j);
        Pow2Bits(i, j);
        assert k == seqNo <==> i == j;
      }
    }
  }

  method Set(bitmap: array<nat>, seqNo: int)
    requires InRange(seqNo) && forall i :: 0 <= i < bitmap.Length ==> IsWord(bitmap[i])
    modifies bitmap
    ensures forall i :: 0 <= i < bitmap.Length ==> IsWord(bitmap[i])
    ensures Members(bitmap[..]) ==
            old(Members(bitmap[..])) + (if 0 <= seqNo < 64 * bitmap.Length then {seqNo} else {})
  {
    hide Members;
    var idx := WordIndex(seqNo);
    if idx < bitmap.Length {
      if seqNo < 0 {
        NoBits(bitmap[idx]);
        bitmap[idx] := Or(bitmap[idx], Mask(seqNo));
        assert bitmap[..] == old(bitmap[..]);
      } else {
        Pow2Grows(seqNo % 64 + 1, 64);
        OrBound(bitmap[idx], Pow2(seqNo % 64), 64);
        bitmap[idx] := Or(bitmap[idx], Mask(seqNo));
        SetMembers(old(bitmap[..]), bitmap[..], seqNo);
      }
    }
  }

  method MaxContinuous(bitmap: array<nat>, limit: nat) returns (n: nat)
    ensures IsFullPrefix(Members(bitmap[..]), limit, n)
  {
    hide Members;
    n := 0;
    while n < limit
      invariant n <= limit
      invariant forall k: nat :: k < n ==> k in Members(bitmap[..])
    {
      MembersHas(bitmap[..], n);
      if !Has(bitmap[..], n) {
        return;
      }
      n := n + 1;
    }
  }
}
