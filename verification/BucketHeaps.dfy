/** The expiry-ordered heap of subnet buckets together with its prefix index,
    and the `container/heap` procedures that drive it. */
module BucketHeaps {
  import opened Common
  import opened TokenBuckets

  /** An address, with the family the limiter branches on. */
  datatype Addr = NoAddr | V4(bits: nat) | V6(bits: nat) {
    function Width(): nat { if V4? then 32 else 128 }

    /** The enclosing prefix of the given length; no prefix for a length the family does not have.
        The invalid address has the zero prefix whatever the (non-negative) length. */
    function Prefix(length: int): (p: Option<Prefix>)
      ensures p.None? <==> length < 0 || (this != NoAddr && length > Width())
    {
      if length < 0 then None
      else if NoAddr? then Some(NoPrefix)
      else if length > Width() then None
      else Some(AddrPrefix(V4?, length, HighBits(bits, Width() - length)))
    }
  }

  function HighBits(bits: nat, dropped: nat): nat {
    if dropped == 0 then bits else HighBits(bits / 2, dropped - 1)
  }

  datatype Prefix = NoPrefix | AddrPrefix(v4: bool, length: nat, high: nat)

  datatype PrefixBucket = PrefixBucket(bucket: TokenBucket, prefix: Prefix, expiry: Time)

  /** What a heap stands for: a plain table from prefix to bucket. */
  type Table = map<Prefix, PrefixBucket>

  function Unexpired(t: Table, now: Time): Table {
    map p | p in t && t[p].expiry > now :: t[p]
  }

  function Parent(i: nat): nat {
    if i == 0 then 0 else (i - 1) / 2
  }

  ghost predicate Above(s: seq<PrefixBucket>, i: nat, j: nat)
    requires i < |s| && j < |s|
  {
    s[i].expiry <= s[j].expiry
  }

  ghost predicate HeapOrdered(s: seq<PrefixBucket>, n: nat)
    requires n <= |s|
  {
    forall k {:trigger Parent(k)} :: 0 < k < n ==> Above(s, Parent(k), k)
  }

  /** Ordered except possibly between `i` and its parent. */
  ghost predicate OrderedButAbove(s: seq<PrefixBucket>, n: nat, i: nat)
    requires i < n <= |s|
  {
    forall k {:trigger Parent(k)} :: 0 < k < n ==>
      && (k != i ==> Above(s, Parent(k), k))
      && (Parent(k) == i && i > 0 ==> Above(s, Parent(i), k))
  }

  /** Ordered except possibly between `i` and its children, and, if `both`, between `i` and its parent. */
  ghost predicate OrderedButBelow(s: seq<PrefixBucket>, n: nat, i: nat, both: bool)
    requires i < n <= |s|
  {
    forall k {:trigger Parent(k)} :: 0 < k < n ==>
      && (Parent(k) != i && !(both && k == i) ==> Above(s, Parent(k), k))
      && (Parent(k) == i && i > 0 ==> Above(s, Parent(i), k))
  }

  /** The root of a heap expires first. */
  lemma {:induction false} RootExpiresFirst(s: seq<PrefixBucket>, i: nat)
    requires HeapOrdered(s, |s|) && i < |s|
    ensures Above(s, 0, i)
    decreases i
  {
    if i > 0 {
      RootExpiresFirst(s, Parent(i));
      assert Above(s, Parent(i), i);
    }
  }

  function Swapped(s: seq<PrefixBucket>, i: nat, j: nat): seq<PrefixBucket>
    requires i < |s| && j < |s|
  {
    s[i := s[j]][j := s[i]]
  }

  /** Sifting down one level moves the disorder from `i` to the child `j` it was swapped with. */
  lemma SiftDownStep(s: seq<PrefixBucket>, n: nat, i: nat, j: nat, both: bool)
    requires i < j < n <= |s| && Parent(j) == i
    requires OrderedButBelow(s, n, i, both)
    requires s[j].expiry < s[i].expiry
    requires forall k {:trigger Parent(k)} :: 0 < k < n && Parent(k) == i ==> Above(s, j, k)
    ensures OrderedButBelow(Swapped(s, i, j), n, j, false)
  {
    var t := Swapped(s, i, j);
    forall k | 0 < k < n
      ensures Parent(k) != j ==> Above(t, Parent(k), k)
      ensures Parent(k) == j ==> Above(t, i, k)
    {
      assert Parent(k) < k;
      assert k != i && Parent(k) != i && Parent(k) != j ==> Above(s, Parent(k), k);
      assert Parent(k) == i ==> Above(s, j, k);
      assert k == i && i > 0 ==> Above(s, Parent(i), j);
      assert Parent(k) == j ==> Above(s, j, k);
    }
  }

  /** When neither child is smaller, only the edge above `i` can still be wrong. */
  lemma SiftDownStop(s: seq<PrefixBucket>, n: nat, i: nat, both: bool)
    requires i < n <= |s| && OrderedButBelow(s, n, i, both)
    requires forall k {:trigger Parent(k)} :: 0 < k < n && Parent(k) == i ==> Above(s, i, k)
    ensures OrderedButAbove(s, n, i)
    ensures !both ==> HeapOrdered(s, n)
  {
  }

  class BucketHeap {
    var prefixBucket: seq<PrefixBucket>
    var prefixToIndex: map<Prefix, nat>

    /** The map is the exact inverse of the array. */
    ghost predicate Indexed()
      reads this
    {
      && (forall i :: 0 <= i < |prefixBucket| ==>
            prefixBucket[i].prefix in prefixToIndex && prefixToIndex[prefixBucket[i].prefix] == i)
      && (forall p :: p in prefixToIndex ==>
            prefixToIndex[p] < |prefixBucket| && prefixBucket[prefixToIndex[p]].prefix == p)
    }

    ghost predicate Valid()
      reads this
      ensures Valid() ==> Indexed()
    {
      Indexed() && HeapOrdered(prefixBucket, |prefixBucket|)
    }

    ghost function Contents(): Table
      requires Indexed()
      reads this
    {
      map p | p in prefixToIndex :: prefixBucket[prefixToIndex[p]]
    }

    constructor ()
      ensures Valid() && Contents() == map[]
    {
      prefixBucket, prefixToIndex := [], map[];
    }

    function Less(i: nat, j: nat): bool
      requires i < |prefixBucket| && j < |prefixBucket|
      reads this
    {
      prefixBucket[i].expiry < prefixBucket[j].expiry
    }

    method Swap(i: nat, j: nat)
      requires Indexed() && i < |prefixBucket| && j < |prefixBucket|
      modifies this
      ensures prefixBucket == old(Swapped(prefixBucket, i, j))
      ensures Indexed() && Contents() == old(Contents())
    {
      prefixBucket := Swapped(prefixBucket, i, j);
      prefixToIndex := prefixToIndex[prefixBucket[i].prefix := i];
      prefixToIndex := prefixToIndex[prefixBucket[j].prefix := j];
    }

    /** Append at the end, as the heap interface's `Push` does. */
    method Append(b: PrefixBucket)
      requires Indexed() && b.prefix !in prefixToIndex
      modifies this
      ensures prefixBucket == old(prefixBucket) + [b]
      ensures Indexed() && Contents() == old(Contents())[b.prefix := b]
    {
      prefixBucket := prefixBucket + [b];
      prefixToIndex := prefixToIndex[b.prefix := |prefixBucket| - 1];
    }

    /** Drop the last element, as the heap interface's `Pop` does. */
    method DropLast() returns (b: PrefixBucket)
      requires Indexed() && |prefixBucket| > 0
      modifies this
      ensures prefixBucket == old(prefixBucket[..|prefixBucket| - 1])
      ensures b == old(prefixBucket[|prefixBucket| - 1])
      ensures Indexed() && Contents() == old(Contents()) - {b.prefix}
    {
      var n := |prefixBucket|;
      b := prefixBucket[n - 1];
      prefixBucket := prefixBucket[..n - 1];
      prefixToIndex := prefixToIndex - {b.prefix};
    }

    method Up(start: nat)
      requires Indexed() && start < |prefixBucket|
      requires OrderedButAbove(prefixBucket, |prefixBucket|, start)
      modifies this
      ensures Valid() && Contents() == old(Contents())
      ensures |prefixBucket| == old(|prefixBucket|)
    {
      var j: nat := start;
      while true
        invariant Indexed() && Contents() == old(Contents())
        invariant |prefixBucket| == old(|prefixBucket|) && j < |prefixBucket|
        invariant OrderedButAbove(prefixBucket, |prefixBucket|, j)
        decreases j
      {
        var i := Parent(j);
        if i == j || !Less(j, i) {
          break;
        }
        Swap(i, j);
        j := i;
      }
    }

    /** The child of `i` that expires first, or `n` when `i` has no child. */
    method EarlierChild(i: nat, n: nat) returns (j: nat)
      requires i < n <= |prefixBucket|
      ensures i < j <= n
      ensures j < n ==> Parent(j) == i
      ensures forall k {:trigger Parent(k)} :: 0 < k < n && Parent(k) == i ==> j < n && Above(prefixBucket, j, k)
    {
      j := 2 * i + 1;
      if j >= n {
        return n;
      }
      var right := j + 1;
      if right < n && Less(right, j) {
        j := right;
      }
    }

    /** Sift down within the first `n` elements; `moved` tells `Fix` whether it must still sift up. */
    method Down(start: nat, n: nat, ghost both: bool) returns (moved: bool)
      requires Indexed() && start < n <= |prefixBucket|
      requires OrderedButBelow(prefixBucket, n, start, both)
      modifies this
      ensures Indexed() && Contents() == old(Contents())
      ensures |prefixBucket| == old(|prefixBucket|) && prefixBucket[n..] == old(prefixBucket[n..])
      ensures moved || !both ==> HeapOrdered(prefixBucket, n)
      ensures !moved ==> OrderedButAbove(prefixBucket, n, start)
    {
      var i: nat := start;
      while true
        invariant Indexed() && Contents() == old(Contents())
        invariant |prefixBucket| == old(|prefixBucket|) && prefixBucket[n..] == old(prefixBucket[n..])
        invariant start <= i < n
        invariant OrderedButBelow(prefixBucket, n, i, both && i == start)
        decreases n - i
      {
        var j := EarlierChild(i, n);
        if j == n || !Less(j, i) {
          break;
        }
        SiftDownStep(prefixBucket, n, i, j, both && i == start);
        Swap(i, j);
        i := j;
      }
      SiftDownStop(prefixBucket, n, i, both && i == start);
      moved := i > start;
    }

    method HeapPush(b: PrefixBucket)
      requires Valid() && b.prefix !in prefixToIndex
      modifies this
      ensures Valid() && Contents() == old(Contents())[b.prefix := b]
    {
      Append(b);
      Up(|prefixBucket| - 1);
    }

    method HeapFix(i: nat)
      requires Indexed() && i < |prefixBucket|
      requires OrderedButBelow(prefixBucket, |prefixBucket|, i, true)
      modifies this
      ensures Valid() && Contents() == old(Contents())
    {
      var moved := Down(i, |prefixBucket|, true);
      if !moved {
        Up(i);
      }
    }

    method HeapPop() returns (b: PrefixBucket)
      requires Valid() && |prefixBucket| > 0
      modifies this
      ensures b == old(prefixBucket[0])
      ensures Valid() && Contents() == old(Contents()) - {b.prefix}
      ensures |prefixBucket| == old(|prefixBucket|) - 1
    {
      var n := |prefixBucket| - 1;
      Swap(0, n);
      if n > 0 {
        var _ := Down(0, n, false);
      }
      assert prefixBucket[n] == prefixBucket[n..][0];
      b := DropLast();
    }

    /** Insert or replace: on the table, a plain update. */
    method Upsert(b: PrefixBucket)
      requires Valid()
      modifies this
      ensures Valid() && Contents() == old(Contents())[b.prefix := b]
    {
      if b.prefix in prefixToIndex {
        var i := prefixToIndex[b.prefix];
        prefixBucket := prefixBucket[i := b];
        HeapFix(i);
      } else {
        HeapPush(b);
      }
    }

    method Get(p: Prefix) returns (b: Option<PrefixBucket>)
      requires Valid()
      ensures b == if p in Contents() then Some(Contents()[p]) else None
    {
      if p in prefixToIndex {
        b := Some(prefixBucket[prefixToIndex[p]]);
      } else {
        b := None;
      }
    }

    /** Popping roots until one is still alive removes exactly the expired entries. */
    method Expire(now: Time)
      requires Valid()
      modifies this
      ensures Valid() && Contents() == Unexpired(old(Contents()), now)
    {
      ghost var start := Contents();
      while |prefixBucket| > 0
        invariant Valid()
        invariant forall p :: p in Contents() ==> p in start && Contents()[p] == start[p]
        invariant forall p :: p in start && start[p].expiry > now ==> p in Contents()
        decreases |prefixBucket|
      {
        if prefixBucket[0].expiry > now {
          break;
        }
        var _ := HeapPop();
      }
      forall p | p in Contents()
        ensures Contents()[p].expiry > now
      {
        RootExpiresFirst(prefixBucket, prefixToIndex[p]);
      }
    }
  }
}
