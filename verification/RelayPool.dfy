/** The two-tier relay pool and the eviction that keeps it small. */
module RelayPools {
  import opened Common
  import opened RelayItems
  import opened Sorting

  /** Peers are told apart and nothing more. */
  datatype PeerId = PeerId(n: int)
  type Items = map<PeerId, RelayItem>

  const RECENT: Time := 300.0
  const UPTIME_SHIELD: nat := 10

  function Elems<T>(s: seq<T>): set<T> { set x | x in s }

  // ----- the tiers -----

  function Probation(items: Items): set<PeerId> { set p | p in items && !items[p].inMain }

  function MainTier(items: Items): set<PeerId> { set p | p in items && items[p].inMain }

  predicate Evictable(items: Items, guarded: set<PeerId>, now: Time, p: PeerId)
    requires p in items
  {
    p !in guarded && now - items[p].lastResult >= RECENT
  }

  /** Main-tier relays neither protected nor active in the last five minutes. */
  function Candidates(items: Items, guarded: set<PeerId>, now: Time): set<PeerId> {
    set p | p in items && items[p].inMain && Evictable(items, guarded, now, p)
  }

  function Since(items: Items): PeerId -> real {
    p => if p in items then items[p].connectedSince else 0.0
  }

  function ScoreOf(items: Items, w: Weights, now: Time): PeerId -> real {
    p => if p in items then Score(w, items[p], now) else 0.0
  }

  /** `e` is some `k` elements of `tier`, none of them with a larger key than one left behind. */
  ghost predicate SmallestOf(tier: set<PeerId>, e: set<PeerId>, k: nat, key: PeerId -> real) {
    e <= tier && |e| == k && forall x, y :: x in e && y in tier - e ==> key(x) <= key(y)
  }

  ghost predicate LargestOf(tier: set<PeerId>, e: set<PeerId>, k: nat, key: PeerId -> real) {
    e <= tier && |e| == k && forall x, y :: x in e && y in tier - e ==> key(x) >= key(y)
  }

  // ----- the quotas -----

  /** How the eviction is shared out: half each, and what one tier cannot give the other does. */
  function Quotas(need: nat, probation: nat, main: nat): (q: (nat, nat))
    requires need <= probation + main
    ensures q.0 + q.1 == need && q.0 <= probation && q.1 <= main
    ensures need / 2 <= probation && need - need / 2 <= main ==> q.0 == need / 2
    ensures q.0 < need / 2 ==> q.0 == probation
    ensures q.0 > need / 2 ==> q.1 == main
  {
    var p, m := need / 2, need - need / 2;
    var (p1, m1) := if p > probation then (probation, m + (p - probation)) else (p, m);
    if m1 > main then (p1 + (m1 - main), main) else (p1, m1)
  }

  function TopShield(n: nat): nat { Min(n, (n + 4) / 5) }

  function UptimeShield(n: nat): nat { Min(UPTIME_SHIELD, n - TopShield(n)) }

  // ----- what one prune does -----

  /** Who went in the first probation pass, who the two main-tier rounds shielded, who went from the
      main tier, and who went when the rest of its quota spilled back. */
  datatype Cut = Cut(first: set<PeerId>, top: set<PeerId>, up: set<PeerId>, main: set<PeerId>, spill: set<PeerId>) {
    function All(): set<PeerId> { first + main + spill }
  }

  ghost predicate MainRound(items: Items, w: Weights, guarded: set<PeerId>, now: Time, quota: nat, cut: Cut) {
    var c := Candidates(items, guarded, now);
    var n := |c|;
    && LargestOf(c, cut.top, TopShield(n), ScoreOf(items, w, now))
    && SmallestOf(c - cut.top, cut.up, UptimeShield(n), Since(items))
    && SmallestOf(c - cut.top - cut.up, cut.main, Min(quota, n - TopShield(n) - UptimeShield(n)),
                  ScoreOf(items, w, now))
  }

  ghost predicate Pruned(items: Items, w: Weights, guarded: set<PeerId>, now: Time, low: nat, cut: Cut) {
    && low <= |items|
    && |Probation(items)| + |MainTier(items)| == |items|
    && var (ep, em) := Quotas(|items| - low, |Probation(items)|, |MainTier(items)|);
    && SmallestOf(Probation(items), cut.first, ep, Since(items))
    && (if em == 0 then cut.top == cut.up == cut.main == cut.spill == {}
        else
          && MainRound(items, w, guarded, now, em, cut)
          && SmallestOf(Probation(items) - cut.first, cut.spill,
                        Min(em - |cut.main|, |Probation(items) - cut.first|), Since(items)))
  }

  // ----- what that means -----

  lemma SubsetSize<T>(a: set<T>, b: set<T>)
    requires a <= b
    ensures |b - a| == |b| - |a|
  {
    assert b == a + (b - a);
  }

  lemma RemainingSize(items: Items, gone: set<PeerId>)
    requires gone <= items.Keys
    ensures |items - gone| == |items| - |gone|
  {
    assert (items - gone).Keys == items.Keys - gone;
    SubsetSize(gone, items.Keys);
  }

  lemma CutSize(items: Items, w: Weights, guarded: set<PeerId>, now: Time, low: nat, cut: Cut)
    requires Pruned(items, w, guarded, now, low, cut)
    ensures cut.All() <= items.Keys
    ensures |cut.All()| == |cut.first| + |cut.main| + |cut.spill|
  {
    hide ScoreOf, Since;
    assert cut.first !! cut.main && (cut.first + cut.main) !! cut.spill;
  }

  /** The pool never ends below the low-water mark, and ends above it only with no probation relay left. */
  lemma PruneReachesLowWater(items: Items, w: Weights, guarded: set<PeerId>, now: Time, low: nat, cut: Cut)
    requires Pruned(items, w, guarded, now, low, cut)
    ensures |items - cut.All()| >= low
    ensures |items - cut.All()| > low ==> Probation(items - cut.All()) == {}
  {
    hide ScoreOf, Since;
    CutSize(items, w, guarded, now, low, cut);
    RemainingSize(items, cut.All());
    var p := Probation(items);
    SubsetSize(cut.first, p);
    SubsetSize(cut.spill, p - cut.first);
    if |items - cut.All()| > low {
      assert |p - cut.first - cut.spill| == 0;
      assert Probation(items - cut.All()) <= p - cut.first - cut.spill;
    }
  }

  /** No evicted probation relay is newer than a surviving one, over both passes together. */
  lemma ProbationIsFifo(items: Items, w: Weights, guarded: set<PeerId>, now: Time, low: nat, cut: Cut,
                        e: PeerId, s: PeerId)
    requires Pruned(items, w, guarded, now, low, cut)
    requires e in cut.All() && !items[e].inMain
    requires s in items - cut.All() && !items[s].inMain
    ensures items[e].connectedSince <= items[s].connectedSince
  {
    CutParts(items, w, guarded, now, low, cut);
    hide MainRound, MainTier, Quotas;
    var p := Probation(items);
    assert e in p && s in p && s in p - cut.first;
    assert e in cut.first || e in cut.spill;
    assert Since(items)(e) <= Since(items)(s);
  }

  /** An evicted main-tier relay was neither protected nor recently active. */
  lemma GuardedSurvive(items: Items, w: Weights, guarded: set<PeerId>, now: Time, low: nat, cut: Cut, e: PeerId)
    requires Pruned(items, w, guarded, now, low, cut)
    requires e in cut.All() && items[e].inMain
    ensures e !in guarded && now - items[e].lastResult >= 300.0 && e in cut.main
  {
    assert e !in Probation(items);
    assert e in Candidates(items, guarded, now);
  }

  /** Who may be evicted from the main tier: exactly those neither protected nor with a result in the last five
      minutes. */
  lemma CandidatesAre(items: Items, guarded: set<PeerId>, now: Time, p: PeerId)
    ensures p in Candidates(items, guarded, now) <==>
            p in items && items[p].inMain && p !in guarded && now - items[p].lastResult >= 300.0
  {
  }

  /** A relay with a result recorded less than five minutes ago stays. */
  lemma ActiveSurvive(items: Items, w: Weights, guarded: set<PeerId>, now: Time, low: nat, cut: Cut,
                      p: PeerId, it: RelayItem, r: Result, at: Time)
    requires Pruned(items, w, guarded, now, low, cut)
    requires p in items && items[p] == Record(it, r, at) && items[p].inMain && now < at + 300.0
    ensures p !in cut.All()
  {
    if p in cut.All() {
      GuardedSurvive(items, w, guarded, now, low, cut, p);
      ResultsAreActivity(it, r, at, 0.0);
    }
  }

  /** Of the n candidates, at least min(n, ceil(n/5) + 10) survive. */
  lemma ShieldsHold(items: Items, w: Weights, guarded: set<PeerId>, now: Time, low: nat, cut: Cut)
    requires Pruned(items, w, guarded, now, low, cut)
    ensures var c := Candidates(items, guarded, now);
            |c - cut.All()| >= Min(|c|, (|c| + 4) / 5 + 10)
  {
    var c := Candidates(items, guarded, now);
    OnlyMainLosesCandidates(items, w, guarded, now, low, cut);
    SubsetSize(cut.main, c);
  }

  lemma OnlyMainLosesCandidates(items: Items, w: Weights, guarded: set<PeerId>, now: Time, low: nat, cut: Cut)
    requires Pruned(items, w, guarded, now, low, cut)
    ensures var c := Candidates(items, guarded, now);
            && cut.main <= c && c - cut.All() == c - cut.main
            && |cut.main| <= |c| - Min(|c|, (|c| + 4) / 5 + UPTIME_SHIELD)
  {
    hide Pruned, Probation, Candidates;
    CutParts(items, w, guarded, now, low, cut);
    TiersApart(items, guarded, now, cut.first + cut.spill);
  }

  lemma CutParts(items: Items, w: Weights, guarded: set<PeerId>, now: Time, low: nat, cut: Cut)
    requires Pruned(items, w, guarded, now, low, cut)
    ensures var n := |Candidates(items, guarded, now)|;
            && cut.first <= Probation(items) && cut.spill <= Probation(items)
            && cut.main <= Candidates(items, guarded, now)
            && |cut.main| <= n - TopShield(n) - UptimeShield(n)
  {
    hide Candidates, Probation, MainTier, ScoreOf, Since;
  }

  lemma TiersApart(items: Items, guarded: set<PeerId>, now: Time, gone: set<PeerId>)
    requires gone <= Probation(items)
    ensures gone !! Candidates(items, guarded, now)
  {
  }

  /** An evicted main-tier relay scores no higher than any surviving candidate that no round shielded, and no
      higher than the fifth kept for its score; and none of the ten kept for uptime has been up for less long. */
  lemma LowestScoresGo(items: Items, w: Weights, guarded: set<PeerId>, now: Time, low: nat, cut: Cut,
                       e: PeerId, s: PeerId)
    requires Pruned(items, w, guarded, now, low, cut)
    requires e in cut.main && s in Candidates(items, guarded, now) - cut.main
    ensures s !in cut.up ==> Score(w, items[e], now) <= Score(w, items[s], now)
    ensures s in cut.up ==> items[s].connectedSince <= items[e].connectedSince
  {
    var c := Candidates(items, guarded, now);
    assert e in c - cut.top - cut.up;
    if s in cut.top {
      assert ScoreOf(items, w, now)(s) >= ScoreOf(items, w, now)(e);
    } else if s in cut.up {
      assert e in c - cut.top - cut.up;
      assert Since(items)(s) <= Since(items)(e);
    } else {
      assert s in c - cut.top - cut.up - cut.main;
      assert ScoreOf(items, w, now)(e) <= ScoreOf(items, w, now)(s);
    }
  }

  // ----- the steps of prune -----

  /** The same without a score: with weights that are not negative, an evicted main-tier relay is not at least as good
      in every respect as a surviving candidate that no round shielded, and better in one. */
  lemma BetterAreKept(items: Items, w: Weights, guarded: set<PeerId>, now: Time, low: nat, cut: Cut,
                      e: PeerId, s: PeerId)
    requires Pruned(items, w, guarded, now, low, cut) && NonNegative(w)
    requires e in cut.main && s in Candidates(items, guarded, now) - cut.main - cut.up
    requires Sound(items[e]) && Sound(items[s])
    ensures !(NoWorse(items[e], items[s]) && BetterInSome(w, items[e], items[s], now))
  {
    hide Score, BetterInSome, NoWorse, Pruned;
    LowestScoresGo(items, w, guarded, now, low, cut, e, s);
    OnlyMainLosesCandidates(items, w, guarded, now, low, cut);
    if NoWorse(items[e], items[s]) && BetterInSome(w, items[e], items[s], now) {
      BetterScoresHigher(w, items[e], items[s], now);
    }
  }

  /** As many main-tier relays go as the quota asks for and the shields leave: of n candidates exactly
      min(n, ceil(n/5) + 10) are shielded. */
  lemma EvictsWhatItMay(items: Items, w: Weights, guarded: set<PeerId>, now: Time, low: nat, cut: Cut)
    requires Pruned(items, w, guarded, now, low, cut)
    ensures var n := |Candidates(items, guarded, now)|;
            var quota := Quotas(|items| - low, |Probation(items)|, |MainTier(items)|).1;
            |cut.main| == Min(quota, n - Min(n, (n + 4) / 5 + 10))
  {
    hide ScoreOf, Since;
  }

  lemma {:induction false} ElemsSize<T>(s: seq<T>)
    requires NoDuplicates(s)
    ensures |Elems(s)| == |s|
  {
    if s != [] {
      var n := |s| - 1;
      ElemsSize(s[..n]);
      assert Elems(s) == Elems(s[..n]) + {s[n]};
    }
  }

  /** The front of a list sorted by a key is the smallest of its elements. */
  lemma FrontIsSmallest(s: seq<PeerId>, k: nat, key: PeerId -> real)
    requires NoDuplicates(s) && SortedBy(s, key) && k <= |s|
    ensures SmallestOf(Elems(s), Elems(s[..k]), k, key)
    ensures Elems(s) - Elems(s[..k]) == Elems(s[k..]) && NoDuplicates(s[k..])
  {
    ElemsSize(s[..k]);
    forall x | x in Elems(s)
      ensures x in Elems(s[k..]) <==> x !in Elems(s[..k])
    {
      var i :| 0 <= i < |s| && s[i] == x;
      assert i < k ==> s[..k][i] == x;
      assert i >= k ==> s[k..][i - k] == x;
    }
  }

  /** Sort by a key and say what the front then is. */
  method SortedFront(s: seq<PeerId>, k: nat, key: PeerId -> real) returns (r: seq<PeerId>)
    requires NoDuplicates(s) && k <= |s|
    ensures |r| == |s| && NoDuplicates(r) && Elems(r) == Elems(s) && SortedBy(r, key)
    ensures SmallestOf(Elems(s), Elems(r[..k]), k, key)
    ensures Elems(s) - Elems(r[..k]) == Elems(r[k..]) && NoDuplicates(r[k..])
  {
    r := SortByKey(s, key);
    SameMembers(s, r);
    PermutationKeepsDistinct(s, r);
    FrontIsSmallest(r, k, key);
  }

  /** Walk the map, in no particular order, and split the peers by tier. */
  method SplitTiers(items: Items) returns (probation: seq<PeerId>, main: seq<PeerId>)
    ensures NoDuplicates(probation) && Elems(probation) == Probation(items)
    ensures NoDuplicates(main) && Elems(main) == MainTier(items)
  {
    probation, main := [], [];
    var left := items.Keys;
    while left != {}
      invariant left <= items.Keys
      invariant NoDuplicates(probation) && NoDuplicates(main)
      invariant forall p :: p in probation <==> p in items && !items[p].inMain && p !in left
      invariant forall p :: p in main <==> p in items && items[p].inMain && p !in left
      decreases left
    {
      var p :| p in left;
      if items[p].inMain {
        main := main + [p];
      } else {
        probation := probation + [p];
      }
      left := left - {p};
    }
  }

  method CollectCandidates(items: Items, guarded: set<PeerId>, now: Time, main: seq<PeerId>) returns (c: seq<PeerId>)
    requires NoDuplicates(main) && Elems(main) == MainTier(items)
    ensures NoDuplicates(c) && Elems(c) == Candidates(items, guarded, now)
  {
    c := [];
    for i := 0 to |main|
      invariant NoDuplicates(c)
      invariant forall p :: p in c <==> p in main[..i] && p in items && Evictable(items, guarded, now, p)
    {
      assert main[i] in Elems(main);
      assert main[i] !in main[..i];
      if main[i] !in guarded && now - items[main[i]].lastResult >= RECENT {
        c := c + [main[i]];
      }
      assert main[..i + 1] == main[..i] + [main[i]];
    }
    assert main[..|main|] == main;
    forall p
      ensures p in Elems(c) <==> p in Candidates(items, guarded, now)
    {
      assert p in MainTier(items) <==> p in Elems(main);
    }
  }

  /** Rounds two and three: take out the best fifth by score, then the ten longest connected. */
  method ShieldRounds(c: seq<PeerId>, score: PeerId -> real, since: PeerId -> real)
    returns (rest: seq<PeerId>, ghost top: set<PeerId>, ghost up: set<PeerId>)
    requires NoDuplicates(c)
    ensures LargestOf(Elems(c), top, TopShield(|c|), score)
    ensures SmallestOf(Elems(c) - top, up, UptimeShield(|c|), since)
    ensures NoDuplicates(rest) && Elems(rest) == Elems(c) - top - up
    ensures |rest| == |c| - TopShield(|c|) - UptimeShield(|c|)
  {
    ElemsSize(c);
    var topK := (|c| + 4) / 5;
    if topK > 0 && topK < |c| {
      var byScore := SortedFront(c, topK, (p: PeerId) => -score(p));
      top := Elems(byScore[..topK]);
      rest := byScore[topK..];
    } else {
      top := Elems(c);
      rest := [];
    }
    ghost var second := rest;
    up := {};
    if |rest| > 0 {
      var uptimeK := Min(UPTIME_SHIELD, |rest|);
      if uptimeK < |rest| {
        var byUptime := SortedFront(rest, uptimeK, since);
        up := Elems(byUptime[..uptimeK]);
        rest := byUptime[uptimeK..];
      } else {
        ElemsSize(rest);
        up := Elems(rest);
        rest := [];
      }
    }
  }
}
