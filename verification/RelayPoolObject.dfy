/** The relay pool as the object it is: maps of items and protections, mutated under one lock. */
module RelayPoolObjects {
  import opened Common
  import opened RelayItems
  import opened Sorting
  import opened RelayPools

  const POOL_LOW_WATER: nat := 40
  const POOL_HIGH_WATER: nat := 50

  class RelayPool {
    var items: Items
    var guarded: set<PeerId>
    var managed: set<PeerId>
    var config: Weights
    const lowWater: nat
    const highWater: nat

    ghost predicate Valid()
      reads this
    {
      lowWater <= highWater && forall p :: p in items ==> Sound(items[p])
    }

    constructor (cfg: Weights)
      ensures Valid() && items == map[] && guarded == {} && managed == {}
      ensures lowWater == 40 && highWater == 50
      ensures config == if cfg == Weights(0.0, 0.0, 0.0, 0.0, 0.0, 0.0) then Weights(0.35, 0.20, 0.15, 0.15, 0.10, 0.05)
                        else cfg
    {
      items, guarded, managed, config := map[], {}, {}, EffectiveWeights(cfg);
      lowWater, highWater := POOL_LOW_WATER, POOL_HIGH_WATER;
    }

    /** A new peer starts in probation; a known one is left alone. */
    method Add(pid: PeerId, now: Time) returns (ghost cut: Cut)
      requires Valid()
      modifies this`items, this`guarded
      ensures Valid()
      ensures pid in old(items) ==> items == old(items) && guarded == old(guarded)
      ensures pid !in old(items) ==> AfterPrune(old(items)[pid := NewItem(now)], old(guarded), now, cut)
    {
      if pid in items {
        cut := Cut({}, {}, {}, {}, {});
        return;
      }
      items := items[pid := NewItem(now)];
      cut := Prune(now);
    }

    /** A result moves the peer between tiers and is followed by a prune; an unknown peer is ignored. */
    method RecordResult(pid: PeerId, r: Result, now: Time) returns (ghost cut: Cut)
      requires Valid()
      modifies this`items, this`guarded
      ensures Valid()
      ensures pid !in old(items) ==> items == old(items) && guarded == old(guarded)
      ensures pid in old(items) ==>
                AfterPrune(old(items)[pid := Record(old(items)[pid], r, now)], old(guarded), now, cut)
    {
      if pid !in items {
        cut := Cut({}, {}, {}, {}, {});
        return;
      }
      RecordKeepsSound(items[pid], r, now);
      items := items[pid := Record(items[pid], r, now)];
      hide Record, Sound;
      cut := Prune(now);
    }

    /** A successful health ping updates the peer's record; no prune follows. */
    method RecordPing(pid: PeerId, rtt: real)
      requires Valid()
      modifies this`items
      ensures Valid()
      ensures items == if pid in old(items) then old(items)[pid := Ping(old(items)[pid], rtt)] else old(items)
    {
      if pid in items {
        PingKeepsSound(items[pid], rtt);
        items := items[pid := Ping(items[pid], rtt)];
      }
    }

    method Remove(pid: PeerId)
      requires Valid()
      modifies this
      ensures Valid() && config == old(config)
      ensures items == old(items) - {pid} && guarded == old(guarded) - {pid} && managed == old(managed) - {pid}
    {
      items, guarded, managed := items - {pid}, guarded - {pid}, managed - {pid};
    }

    /** What a prune leaves of the given maps. */
    ghost predicate AfterPrune(start: Items, guard: set<PeerId>, now: Time, cut: Cut)
      reads this
    {
      && Lost(start, guard, cut.All())
      && (|start| <= highWater ==> cut.All() == {})
      && (|start| > highWater ==>
            && Pruned(start, config, guard, now, lowWater, cut)
            && |items| >= lowWater && (|items| > lowWater ==> Probation(items) == {}))
    }

    /** Since `start`, exactly the peers in `gone` have been dropped. */
    ghost predicate Lost(start: Items, guard: set<PeerId>, gone: set<PeerId>)
      reads this
    {
      items == start - gone && guarded == guard - gone
    }

    /** Delete peers in the given order until the quota is used up. */
    method EvictFront(order: seq<PeerId>, quota: nat,
                      ghost start: Items, ghost guard: set<PeerId>, ghost before: set<PeerId>)
      returns (left: nat)
      requires Lost(start, guard, before)
      modifies this`items, this`guarded
      ensures Lost(start, guard, before + Elems(order[..Min(quota, |order|)]))
      ensures left == quota - Min(quota, |order|)
    {
      left := quota;
      var i := 0;
      while i < |order| && left > 0
        invariant i <= |order| && left + i == quota
        invariant Lost(start, guard, before + Elems(order[..i]))
      {
        items := items - {order[i]};
        guarded := guarded - {order[i]};
        assert Elems(order[..i + 1]) == Elems(order[..i]) + {order[i]};
        i := i + 1;
        left := left - 1;
      }
    }

    /** First in, first out: evict the longest-connected probation relays. */
    method EvictProbation(quota: nat, since: PeerId -> real,
                          ghost start: Items, ghost guard: set<PeerId>, ghost before: set<PeerId>)
      returns (ghost gone: set<PeerId>)
      requires Lost(start, guard, before)
      modifies this`items, this`guarded
      ensures var p := Probation(start) - before;
              gone <= p && SmallestOf(p, gone, Min(quota, |p|), since)
      ensures Lost(start, guard, before + gone)
    {
      ProbationLost(start, before);
      ghost var p := Probation(start) - before;
      var probation, _ := SplitTiers(items);
      assert Elems(probation) == p;
      hide SmallestOf, Lost, Probation, Elems;
      ElemsSize(probation);
      var order := SortedFront(probation, Min(quota, |probation|), since);
      gone := Elems(order[..Min(quota, |probation|)]);
      SmallestIn(p, gone, Min(quota, |probation|), since);
      var _ := EvictFront(order, quota, start, guard, before);
    }

    /** A probation pass is skipped when there is nothing to evict. */
    method PassOverProbation(quota: nat, since: PeerId -> real,
                             ghost start: Items, ghost guard: set<PeerId>, ghost before: set<PeerId>)
      returns (ghost gone: set<PeerId>)
      requires Lost(start, guard, before)
      modifies this`items, this`guarded
      ensures var p := Probation(start) - before;
              gone <= p && SmallestOf(p, gone, Min(quota, |p|), since)
      ensures Lost(start, guard, before + gone)
    {
      hide SmallestOf, Lost, Probation;
      gone := {};
      assert before + {} == before;
      EmptyIsSmallest(Probation(start) - before, since);
      if quota > 0 {
        gone := EvictProbation(quota, since, start, guard, before);
      }
    }

    /** Main tier: shield in rounds, then evict the lowest scores. */
    method EvictMain(quota: nat, main: seq<PeerId>, now: Time, score: PeerId -> real, since: PeerId -> real,
                     ghost start: Items, ghost guard: set<PeerId>, ghost before: set<PeerId>)
      returns (left: nat, ghost top: set<PeerId>, ghost up: set<PeerId>, ghost gone: set<PeerId>)
      requires Lost(start, guard, before) && before <= Probation(start)
      requires NoDuplicates(main) && Elems(main) == MainTier(start)
      modifies this`items, this`guarded
      ensures var c := Candidates(start, guard, now);
              && LargestOf(c, top, TopShield(|c|), score)
              && SmallestOf(c - top, up, UptimeShield(|c|), since)
              && SmallestOf(c - top - up, gone, Min(quota, |c| - TopShield(|c|) - UptimeShield(|c|)), score)
              && gone <= c
      ensures Lost(start, guard, before + gone) && |gone| <= quota && left == quota - |gone|
    {
      MainUntouched(start, guard, now, before);
      var cands := CollectCandidates(items, guarded, now, main);
      hide SmallestOf, LargestOf, Candidates, Lost;
      ElemsSize(cands);
      var rest;
      rest, top, up := ShieldRounds(cands, score, since);
      var byScore := SortedFront(rest, Min(quota, |rest|), score);
      gone := Elems(byScore[..Min(quota, |rest|)]);
      SmallestIn(Elems(rest), gone, Min(quota, |rest|), score);
      left := EvictFront(byScore, quota, start, guard, before);
    }

    /** The main-tier part of `Prune`, with the spill back to probation. */
    method PruneMain(quota: nat, main: seq<PeerId>, now: Time, score: PeerId -> real, since: PeerId -> real,
                     ghost start: Items, ghost guard: set<PeerId>, ghost first: set<PeerId>) returns (ghost cut: Cut)
      requires Lost(start, guard, first) && first <= Probation(start)
      requires score == ScoreOf(start, config, now) && since == Since(start)
      requires NoDuplicates(main) && Elems(main) == MainTier(start)
      modifies this`items, this`guarded
      ensures cut.first == first && MainRound(start, config, guard, now, quota, cut) && |cut.main| <= quota
      ensures SmallestOf(Probation(start) - first, cut.spill,
                         Min(quota - |cut.main|, |Probation(start) - first|), since)
      ensures Lost(start, guard, cut.All())
    {
      hide SmallestOf, LargestOf, ScoreOf, Since, Lost, Candidates, Probation;
      var left, top, up, gone := EvictMain(quota, main, now, score, since, start, guard, first);
      CandidatesNotProbation(start, guard, now, first, gone);
      ghost var spill := PassOverProbation(left, since, start, guard, first + gone);
      cut := Cut(first, top, up, gone, spill);
    }

    /** Above the high-water mark, evict down to the low-water mark as `Pruned` describes. */
    method Prune(now: Time) returns (ghost cut: Cut)
      requires Valid()
      modifies this`items, this`guarded
      ensures Valid() && AfterPrune(old(items), old(guarded), now, cut)
    {
      cut := Cut({}, {}, {}, {}, {});
      if |items| <= highWater {
        return;
      }
      cut := PruneDown(now);
      PruneReachesLowWater(old(items), config, old(guarded), now, lowWater, cut);
    }

    method FirstPass(quota: nat, since: PeerId -> real) returns (ghost gone: set<PeerId>)
      requires Lost(items, guarded, {}) && quota <= |Probation(items)|
      modifies this`items, this`guarded
      ensures gone <= old(Probation(items)) && SmallestOf(old(Probation(items)), gone, quota, since)
      ensures Lost(old(items), old(guarded), gone)
    {
      hide *;
      gone := PassOverProbation(quota, since, items, guarded, {});
      NothingBefore(old(Probation(items)), gone);
      SmallerIs(quota, |old(Probation(items))|);
    }

    method PruneDown(now: Time) returns (ghost cut: Cut)
      requires lowWater <= |items| && Lost(items, guarded, {})
      modifies this`items, this`guarded
      ensures Lost(old(items), old(guarded), cut.All())
      ensures Pruned(old(items), config, old(guarded), now, lowWater, cut)
    {
      ghost var start, guard := items, guarded;
      hide *;
      var main, q := ShareOut(items, lowWater);
      var since, score := Since(items), ScoreOf(items, config, now);
      ghost var first := FirstPass(q.0, since);
      if q.1 > 0 {
        cut := PruneMain(q.1, main, now, score, since, start, guard, first);
      } else {
        cut := Cut(first, {}, {}, {}, {});
        OnlyFirst(cut);
      }
      Assemble(start, config, guard, now, lowWater, cut, q);
    }
  }

  function Eligible(items: Items): set<PeerId> { set p | p in items && !items[p].circuitOpen }

  method CollectEligible(items: Items) returns (c: seq<PeerId>)
    ensures NoDuplicates(c) && Elems(c) == Eligible(items)
  {
    c := [];
    var left := items.Keys;
    while left != {}
      invariant left <= items.Keys
      invariant NoDuplicates(c)
      invariant forall p :: p in c <==> p in items && !items[p].circuitOpen && p !in left
      decreases left
    {
      var p :| p in left;
      if !items[p].circuitOpen {
        c := c + [p];
      }
      left := left - {p};
    }
  }

  /** The best `n` relays whose circuit is closed, best first. */
  method SelectN(items: Items, w: Weights, now: Time, n: nat) returns (r: seq<PeerId>)
    ensures NoDuplicates(r) && Elems(r) <= Eligible(items)
    ensures forall i :: 0 <= i < |r| ==> r[i] in items && !items[r[i]].circuitOpen
    ensures forall i, j :: 0 <= i < j < |r| ==> Score(w, items[r[i]], now) >= Score(w, items[r[j]], now)
    ensures LargestOf(Eligible(items), Elems(r), Min(n, |Eligible(items)|), ScoreOf(items, w, now))
  {
    var score := ScoreOf(items, w, now);
    r := SelectBest(items, score, n);
    forall i | 0 <= i < |r|
      ensures r[i] in items && !items[r[i]].circuitOpen && score(r[i]) == Score(w, items[r[i]], now)
    {
      assert r[i] in Elems(r);
    }
  }

  method SelectBest(items: Items, score: PeerId -> real, n: nat) returns (r: seq<PeerId>)
    ensures NoDuplicates(r) && forall i, j :: 0 <= i < j < |r| ==> score(r[i]) >= score(r[j])
    ensures LargestOf(Eligible(items), Elems(r), Min(n, |Eligible(items)|), score)
  {
    var entries := CollectEligible(items);
    hide Eligible;
    ElemsSize(entries);
    var k := Min(n, |entries|);
    var key := (p: PeerId) => -score(p);
    var order := SortedFront(entries, k, key);
    r := order[..k];
    forall i, j | 0 <= i < j < |r|
      ensures score(r[i]) >= score(r[j])
    {
      assert key(order[i]) <= key(order[j]);
    }
    NegatedIsLargest(Eligible(items), Elems(r), k, score, key);
  }

  lemma NegatedIsLargest(tier: set<PeerId>, e: set<PeerId>, k: nat, score: PeerId -> real, key: PeerId -> real)
    requires SmallestOf(tier, e, k, key) && forall p :: key(p) == -score(p)
    ensures LargestOf(tier, e, k, score)
  {
    forall x, y | x in e && y in tier - e
      ensures score(x) >= score(y)
    {
      assert key(x) <= key(y);
    }
  }

  /** Split the tiers and share the eviction out between them. */
  method ShareOut(items: Items, low: nat) returns (main: seq<PeerId>, q: (nat, nat))
    requires low <= |items|
    ensures NoDuplicates(main) && Elems(main) == MainTier(items)
    ensures |Probation(items)| + |MainTier(items)| == |items|
    ensures q == Quotas(|items| - low, |Probation(items)|, |MainTier(items)|)
    ensures q.0 <= |Probation(items)|
  {
    var probation;
    probation, main := SplitTiers(items);
    TierSizes(items, probation, main);
    q := Quotas(|items| - low, |probation|, |main|);
  }

  lemma NothingBefore(p: set<PeerId>, first: set<PeerId>)
    ensures p - {} == p && {} + first == first
  {
  }

  lemma SmallerIs(a: nat, b: nat)
    requires a <= b
    ensures Min(a, b) == a
  {
  }

  lemma OnlyFirst(cut: Cut)
    requires cut.main == cut.spill == {}
    ensures cut.All() == cut.first
  {
  }

  lemma SmallestIn(tier: set<PeerId>, e: set<PeerId>, k: nat, key: PeerId -> real)
    requires SmallestOf(tier, e, k, key)
    ensures e <= tier && |e| == k
  {
  }

  lemma Assemble(items: Items, w: Weights, guarded: set<PeerId>, now: Time, low: nat, cut: Cut, q: (nat, nat))
    requires low <= |items| && |Probation(items)| + |MainTier(items)| == |items|
    requires q == Quotas(|items| - low, |Probation(items)|, |MainTier(items)|)
    requires SmallestOf(Probation(items), cut.first, q.0, Since(items))
    requires q.1 == 0 ==> cut.top == cut.up == cut.main == cut.spill == {}
    requires q.1 > 0 ==> MainRound(items, w, guarded, now, q.1, cut)
    requires q.1 > 0 ==> |cut.main| <= q.1
    requires q.1 > 0 ==> SmallestOf(Probation(items) - cut.first, cut.spill,
                                    Min(q.1 - |cut.main|, |Probation(items) - cut.first|), Since(items))
    ensures Pruned(items, w, guarded, now, low, cut)
  {
    hide SmallestOf, MainRound, ScoreOf, Since, Probation, MainTier, Quotas;
  }

  lemma EmptyIsSmallest(tier: set<PeerId>, key: PeerId -> real)
    ensures SmallestOf(tier, {}, 0, key)
  {
  }

  lemma TierSizes(items: Items, probation: seq<PeerId>, main: seq<PeerId>)
    requires NoDuplicates(probation) && Elems(probation) == Probation(items)
    requires NoDuplicates(main) && Elems(main) == MainTier(items)
    ensures |probation| == |Probation(items)| && |main| == |MainTier(items)|
    ensures |probation| + |main| == |items|
  {
    ElemsSize(probation);
    ElemsSize(main);
    assert items.Keys == Probation(items) + MainTier(items);
  }

  lemma ProbationLost(start: Items, gone: set<PeerId>)
    ensures Probation(start - gone) == Probation(start) - gone
  {
  }

  lemma MainUntouched(start: Items, guarded: set<PeerId>, now: Time, first: set<PeerId>)
    requires first <= Probation(start)
    ensures MainTier(start - first) == MainTier(start)
    ensures Candidates(start - first, guarded - first, now) == Candidates(start, guarded, now)
  {
  }

  lemma CandidatesNotProbation(start: Items, guarded: set<PeerId>, now: Time, first: set<PeerId>, gone: set<PeerId>)
    requires gone <= Candidates(start, guarded, now)
    ensures Probation(start) - (first + gone) == Probation(start) - first
  {
  }
}
