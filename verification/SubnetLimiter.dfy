/** The subnet limiter as the object it is: one heap per limit and family, updated in place. */
module SubnetLimiters {
  import opened Common
  import opened TokenBuckets
  import opened BucketHeaps
  import opened SubnetLimits
  import opened Sorting

  /** Each heap stands for the table of its level. */
  ghost predicate Stands(hs: seq<BucketHeap>, ts: seq<Table>)
    reads hs
  {
    |hs| == |ts| && forall k :: 0 <= k < |hs| ==> hs[k].Valid() && hs[k].Contents() == ts[k]
  }

  method NewHeaps(n: nat) returns (hs: seq<BucketHeap>)
    ensures |hs| == n && NoDuplicates(hs) && fresh(hs)
    ensures Stands(hs, seq(n, _ => map[]))
  {
    hs := [];
    for i := 0 to n
      invariant |hs| == i && NoDuplicates(hs) && fresh(hs)
      invariant Stands(hs, seq(i, _ => map[]))
    {
      var h := new BucketHeap();
      hs := hs + [h];
    }
  }

  method ExpireAll(hs: seq<BucketHeap>, ghost ts: seq<Table>, now: Time)
    requires NoDuplicates(hs) && Stands(hs, ts)
    modifies hs
    ensures Stands(hs, UnexpiredAll(ts, now))
  {
    hide BucketHeap.Valid, BucketHeap.Contents, BucketHeap.Indexed;
    for i := 0 to |hs|
      invariant forall k :: 0 <= k < |hs| ==> hs[k].Valid()
      invariant forall k :: 0 <= k < i ==> hs[k].Contents() == Unexpired(ts[k], now)
      invariant forall k :: i <= k < |hs| ==> hs[k].Contents() == ts[k]
    {
      hs[i].Expire(now);
    }
  }

  /** One level of `Allow` on its heap. */
  method TakeLevel(l: SubnetLimit, grace: Time, h: BucketHeap, ghost t: Table, addr: Addr, now: Time) returns (ok: bool)
    requires Fits(l, t) && h.Valid() && h.Contents() == t
    modifies h
    ensures h.Valid()
    ensures ok == TakeAt(l, grace, t, addr, now).Some?
    ensures h.Contents() == if ok then TakeAt(l, grace, t, addr, now).value else t
  {
    hide BucketHeap.Valid, BucketHeap.Contents, BucketHeap.Indexed;
    var prefix := addr.Prefix(l.prefixLength);
    if prefix.None? {
      return false;
    }
    var stored := h.Get(prefix.value);
    var bucket := if stored.Some? then stored.value.bucket else NewBucket(l.limit);
    var (admitted, after) := bucket.Take(now);
    if admitted {
      h.Upsert(PrefixBucket(after, prefix.value, after.FullAt(now) + grace));
    }
    ok := admitted;
  }

  /** The level loop of `Allow`: leaves the heaps exactly as `AllowFrom` says, also when it refuses midway. */
  method AllowLevels(ls: seq<SubnetLimit>, grace: Time, hs: seq<BucketHeap>, ghost ts: seq<Table>, addr: Addr,
                     now: Time)
    returns (ok: bool, ghost o: Outcome)
    requires FitAll(ls, ts) && NoDuplicates(hs) && Stands(hs, ts)
    modifies hs
    ensures o == AllowFrom(ls, grace, ts, addr, now, 0)
    ensures Stands(hs, o.tables) && ok == (o.depth == |ls|)
  {
    hide BucketHeap.Valid, BucketHeap.Contents, BucketHeap.Indexed, TakeAt, Fits, AllowFrom;
    o := AllowFrom(ls, grace, ts, addr, now, 0);
    ghost var cur := ts;
    for i := 0 to |ls|
      invariant FitAll(ls, cur) && Stands(hs, cur)
      invariant o == AllowFrom(ls, grace, cur, addr, now, i)
    {
      AllowFromStep(ls, grace, cur, addr, now, i);
      assert forall k :: 0 <= k < |hs| && k != i ==> hs[k] != hs[i];
      var taken := TakeLevel(ls[i], grace, hs[i], cur[i], addr, now);
      if !taken {
        return false, o;
      }
      cur := cur[i := TakeAt(ls[i], grace, cur[i], addr, now).value];
    }
    AllowFromStep(ls, grace, cur, addr, now, |ls|);
    return true, o;
  }

  class SubnetLimiter {
    const cfg: Config
    const v4Heaps: seq<BucketHeap>
    const v6Heaps: seq<BucketHeap>
    ghost var state: State

    ghost predicate Valid()
      reads this, v4Heaps, v6Heaps
    {
      && FitsConfig(cfg, state)
      && NoDuplicates(v4Heaps) && NoDuplicates(v6Heaps)
      && (forall h :: h in v4Heaps ==> h !in v6Heaps)
      && Stands(v4Heaps, state.v4) && Stands(v6Heaps, state.v6)
    }

    /** Limits are reordered so that the largest subnet comes last. */
    constructor (v4: seq<SubnetLimit>, v6: seq<SubnetLimit>, grace: Time)
      requires Config(v4, v6, grace).Refills()
      ensures Valid() && fresh(v4Heaps) && fresh(v6Heaps)
      ensures state == Start(cfg) && cfg.grace == grace && cfg.Refills()
      ensures multiset(cfg.v4) == multiset(v4) && multiset(cfg.v6) == multiset(v6)
      ensures SortedBy(cfg.v4, (l: SubnetLimit) => -l.prefixLength as real)
      ensures SortedBy(cfg.v6, (l: SubnetLimit) => -l.prefixLength as real)
    {
      var sorted4 := SortByKey(v4, (l: SubnetLimit) => -l.prefixLength as real);
      var sorted6 := SortByKey(v6, (l: SubnetLimit) => -l.prefixLength as real);
      var heaps4 := NewHeaps(|v4|);
      var heaps6 := NewHeaps(|v6|);
      SortedRefills(v4, v6, sorted4, sorted6, grace);
      cfg := Config(sorted4, sorted6, grace);
      v4Heaps, v6Heaps := heaps4, heaps6;
      state := Start(Config(sorted4, sorted6, grace));
    }

    /** Every heap drops its expired buckets. */
    method CleanUp(now: Time)
      requires Valid()
      modifies this, v4Heaps, v6Heaps
      ensures Valid() && state == SubnetLimits.CleanUp(old(state), now)
    {
      hide BucketHeap.Valid, BucketHeap.Contents, BucketHeap.Indexed, Fits;
      CleanUpFits(cfg, state, now);
      ExpireAll(v4Heaps, state.v4, now);
      assert forall k :: 0 <= k < |v6Heaps| ==> v6Heaps[k] !in v4Heaps;
      ExpireAll(v6Heaps, state.v6, now);
      assert forall k :: 0 <= k < |v4Heaps| ==> v4Heaps[k] !in v6Heaps;
      state := SubnetLimits.CleanUp(state, now);
    }

    /** One call of `Allow` is one step of the value-level limiter. */
    method Allow(addr: Addr, now: Time) returns (ok: bool)
      requires Valid()
      modifies this, v4Heaps, v6Heaps
      ensures Valid()
      ensures ok == SubnetLimits.Allow(cfg, old(state), addr, now).allowed
      ensures state == SubnetLimits.Allow(cfg, old(state), addr, now).state
    {
      hide BucketHeap.Valid, BucketHeap.Contents, BucketHeap.Indexed, AllowFrom, Fits;
      CleanUp(now);
      ghost var o;
      if addr.V4? {
        ok, o := AllowLevels(cfg.v4, cfg.grace, v4Heaps, state.v4, addr, now);
        assert forall k :: 0 <= k < |v6Heaps| ==> v6Heaps[k] !in v4Heaps;
      } else {
        ok, o := AllowLevels(cfg.v6, cfg.grace, v6Heaps, state.v6, addr, now);
        assert forall k :: 0 <= k < |v4Heaps| ==> v4Heaps[k] !in v6Heaps;
      }
      state := state.With(addr.V4?, o.tables);
    }
  }

  lemma SortedRefills(v4: seq<SubnetLimit>, v6: seq<SubnetLimit>, s4: seq<SubnetLimit>, s6: seq<SubnetLimit>,
                      grace: Time)
    requires Config(v4, v6, grace).Refills()
    requires multiset(s4) == multiset(v4) && multiset(s6) == multiset(v6)
    ensures Config(s4, s6, grace).Refills()
  {
    SameMembers(s4, v4);
    SameMembers(s6, v6);
  }
}
