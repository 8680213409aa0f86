/** The limiter in front of a service: buckets for trusted networks first, then the subnet limiter, then the global
    bucket, so that what a narrower bucket refuses costs the wider ones nothing. */
module NetworkLimiters {
  import opened Common
  import opened TokenBuckets
  import opened BucketHeaps
  import opened SubnetLimits
  import opened SubnetLimiters
  import opened Sorting
  import Subnets

  /** A bucket, or none at all for a rate of zero. */
  datatype Gate = Unlimited | Metered(bucket: TokenBucket) {
    function Take(now: Time): (bool, Gate) {
      if Unlimited? then (true, this) else (bucket.Take(now).0, Metered(bucket.Take(now).1))
    }
  }

  function NewGate(l: Limit): Gate {
    if l.rps == 0.0 then Unlimited else Metered(NewBucket(l))
  }

  datatype PrefixLimit = PrefixLimit(prefix: Prefix, limit: Limit)

  /** Only an address of the prefix's own family is inside it. */
  predicate Contains(p: Prefix, addr: Addr) {
    p.AddrPrefix? && addr != NoAddr && addr.V4? == p.v4 && addr.Prefix(p.length) == Some(p)
  }

  function PrefixBits(p: Prefix): int { if p.NoPrefix? then -1 else p.length }

  /** The widest prefix comes last. */
  ghost predicate NarrowFirst(ls: seq<PrefixLimit>) {
    forall i, j :: 0 <= i < j < |ls| ==> PrefixBits(ls[i].prefix) >= PrefixBits(ls[j].prefix)
  }

  datatype LimiterState = LimiterState(gates: seq<Gate>, subnets: State, global: Gate)

  /** How the prefix buckets dealt with a request: how many were passed or not concerned, whether any was concerned,
      and the buckets afterwards. */
  datatype Passage = Passage(depth: nat, within: bool, gates: seq<Gate>)

  function PassFrom(ls: seq<PrefixLimit>, gates: seq<Gate>, addr: Addr, now: Time, i: nat, within: bool): (r: Passage)
    requires |ls| == |gates| && i <= |ls|
    ensures |r.gates| == |ls| && i <= r.depth <= |ls|
    decreases |ls| - i
  {
    if i == |ls| then Passage(i, within, gates)
    else if !Contains(ls[i].prefix, addr) then PassFrom(ls, gates, addr, now, i + 1, within)
    else if !gates[i].Take(now).0 then Passage(i, true, gates)
    else PassFrom(ls, gates[i := gates[i].Take(now).1], addr, now, i + 1, true)
  }

  datatype LimiterReply = LimiterReply(allowed: bool, state: LimiterState)

  function AllowPeer(ls: seq<PrefixLimit>, cfg: Config, st: LimiterState, addr: Addr, now: Time): (r: LimiterReply)
    requires |ls| == |st.gates| && FitsConfig(cfg, st.subnets)
    ensures |ls| == |r.state.gates| && FitsConfig(cfg, r.state.subnets)
  {
    var g := PassFrom(ls, st.gates, addr, now, 0, false);
    var st1 := st.(gates := g.gates);
    if g.within then LimiterReply(g.depth == |ls|, st1)
    else
      var s := SubnetLimits.Allow(cfg, st.subnets, addr, now);
      var st2 := st1.(subnets := s.state);
      if !s.allowed then LimiterReply(false, st2)
      else LimiterReply(st.global.Take(now).0, st2.(global := st.global.Take(now).1))
  }

  /** A refusal leaves a bucket as it was. */
  lemma RefusalIsFree(g: Gate, now: Time)
    ensures !g.Take(now).0 ==> g.Take(now).1 == g
  {
  }

  /** What a request does to the prefix buckets: each concerned one before the stop gives a token, nothing else
      changes, and a stop is at a concerned bucket that refuses. */
  lemma {:induction false} GateEffects(ls: seq<PrefixLimit>, gates: seq<Gate>, addr: Addr, now: Time, i: nat,
                                       within: bool)
    requires |ls| == |gates| && i <= |ls|
    ensures var r := PassFrom(ls, gates, addr, now, i, within);
            && (forall k :: i <= k < r.depth && Contains(ls[k].prefix, addr) ==>
                  gates[k].Take(now) == (true, r.gates[k]))
            && (forall k :: 0 <= k < |ls| && !(i <= k < r.depth && Contains(ls[k].prefix, addr)) ==>
                  r.gates[k] == gates[k])
            && (r.depth < |ls| ==> Contains(ls[r.depth].prefix, addr) && !gates[r.depth].Take(now).0 && r.within)
            && (r.within <==> within || exists k :: i <= k < |ls| && Contains(ls[k].prefix, addr))
    decreases |ls| - i
  {
    if i < |ls| {
      if !Contains(ls[i].prefix, addr) {
        GateEffects(ls, gates, addr, now, i + 1, within);
      } else if gates[i].Take(now).0 {
        GateEffects(ls, gates[i := gates[i].Take(now).1], addr, now, i + 1, true);
      }
    }
  }

  ghost predicate InNetwork(ls: seq<PrefixLimit>, addr: Addr) {
    exists k :: 0 <= k < |ls| && Contains(ls[k].prefix, addr)
  }

  /** Exactly when a request is allowed: inside some network prefix, if every prefix bucket that it concerns admits it;
      outside them, if the subnets do and then the global bucket. */
  lemma AllowedIff(ls: seq<PrefixLimit>, cfg: Config, st: LimiterState, addr: Addr, now: Time)
    requires |ls| == |st.gates| && FitsConfig(cfg, st.subnets)
    ensures AllowPeer(ls, cfg, st, addr, now).allowed <==>
            if InNetwork(ls, addr) then
              forall k :: 0 <= k < |ls| && Contains(ls[k].prefix, addr) ==> st.gates[k].Take(now).0
            else
              SubnetLimits.Allow(cfg, st.subnets, addr, now).allowed && st.global.Take(now).0
  {
    hide Contains, SubnetLimits.Allow, Gate.Take;
    GateEffects(ls, st.gates, addr, now, 0, false);
  }

  /** A bucket of rate zero admits always; any other exactly if it has a whole token and can hold one. */
  lemma GateAdmitsIff(g: Gate, now: Time)
    ensures g.Take(now).0 <==>
            g.Unlimited? || (g.bucket.limit.burst >= 1 && g.bucket.TokensAt(now) >= 1.0)
  {
  }

  lemma NewGateAdmitsIff(l: Limit, now: Time)
    ensures NewGate(l).Take(now).0 <==> l.rps == 0.0 || l.burst >= 1
  {
    GateAdmitsIff(NewGate(l), now);
    if l.rps > 0.0 {
      NewIsFull(l, now);
    }
  }

  /** The first request to a new limiter is allowed exactly if no limit that it concerns has a burst below one, and
      every subnet limit has a subnet for it. */
  lemma FirstRequest(ls: seq<PrefixLimit>, global: Limit, cfg: Config, st: LimiterState, addr: Addr, now: Time)
    requires Fresh(ls, global, st) && cfg.Refills() && st.subnets == Start(cfg)
    ensures AllowPeer(ls, cfg, st, addr, now).allowed <==>
            if InNetwork(ls, addr) then
              forall k :: 0 <= k < |ls| && Contains(ls[k].prefix, addr) ==> Admitting(ls[k].limit)
            else
              var subnets := if addr.V4? then cfg.v4 else cfg.v6;
              && (forall k :: 0 <= k < |subnets| ==>
                    subnets[k].limit.burst >= 1 && addr.Prefix(subnets[k].prefixLength).Some?)
              && Admitting(global)
  {
    hide Contains, SubnetLimits.Allow, Gate.Take, AllowPeer, Addr.Prefix;
    AllowedIff(ls, cfg, st, addr, now);
    NewGateAdmitsIff(global, now);
    forall k | 0 <= k < |ls| ensures NewGate(ls[k].limit).Take(now).0 <==> Admitting(ls[k].limit) {
      NewGateAdmitsIff(ls[k].limit, now);
    }
    FirstSubnetRequest(cfg, addr, now);
  }

  predicate Admitting(l: Limit) { l.rps == 0.0 || l.burst >= 1 }

  lemma FirstSubnetRequest(cfg: Config, addr: Addr, now: Time)
    requires cfg.Refills()
    ensures var subnets := if addr.V4? then cfg.v4 else cfg.v6;
            SubnetLimits.Allow(cfg, Start(cfg), addr, now).allowed <==>
            forall k :: 0 <= k < |subnets| ==>
              subnets[k].limit.burst >= 1 && addr.Prefix(subnets[k].prefixLength).Some?
  {
    hide SubnetLimits.Allow, Addr.Prefix, FitsConfig;
    Subnets.AllowedIff(cfg, Start(cfg), addr, now);
    var ts := if addr.V4? then Start(cfg).v4 else Start(cfg).v6;
    assert forall k :: 0 <= k < |ts| ==> Unexpired(ts[k], now) == map[];
  }

  /** A network prefix contains the addresses of its family that agree with it in its leading bits. */
  lemma ContainsIff(a: Addr, b: Addr, n: nat)
    requires b != NoAddr && n <= b.Width()
    ensures Contains(b.Prefix(n).value, a) <==>
            a != NoAddr && a.V4? == b.V4? && Subnets.SubnetNumber(a, n) == Subnets.SubnetNumber(b, n)
  {
    if a != NoAddr && a.V4? == b.V4? {
      Subnets.PrefixIff(a, n, b, n);
    }
  }

  /** A refused request costs no wider bucket anything: some concerned prefix bucket refused it, and every bucket at
      least as wide, the subnet buckets and the global bucket are untouched; or no prefix is concerned, the prefix
      buckets are untouched, and so is the global bucket. */
  lemma RefusedIsFreeForWider(ls: seq<PrefixLimit>, cfg: Config, st: LimiterState, addr: Addr, now: Time)
    requires NarrowFirst(ls) && |ls| == |st.gates| && FitsConfig(cfg, st.subnets)
    requires !AllowPeer(ls, cfg, st, addr, now).allowed
    ensures var after := AllowPeer(ls, cfg, st, addr, now).state;
            && after.global == st.global
            && if InNetwork(ls, addr) then
                 && after.subnets == st.subnets
                 && exists d :: 0 <= d < |ls| && Contains(ls[d].prefix, addr) && !st.gates[d].Take(now).0
                      && forall k :: 0 <= k < |ls| && PrefixBits(ls[k].prefix) < PrefixBits(ls[d].prefix)
                           ==> after.gates[k] == st.gates[k]
               else
                 && after.gates == st.gates
                 && (SubnetLimits.Allow(cfg, st.subnets, addr, now).allowed ==> !st.global.Take(now).0)
  {
    GateEffects(ls, st.gates, addr, now, 0, false);
    RefusalIsFree(st.global, now);
    var g := PassFrom(ls, st.gates, addr, now, 0, false);
    if g.within {
      var d := g.depth;
      assert Contains(ls[d].prefix, addr) && !st.gates[d].Take(now).0;
      forall k | 0 <= k < |ls| && PrefixBits(ls[k].prefix) < PrefixBits(ls[d].prefix)
        ensures g.gates[k] == st.gates[k]
      {
        assert k > d;
      }
    }
  }

  /** An allowed request was admitted by every bucket that concerns it, and by those only. */
  lemma AllowedByAllConcerned(ls: seq<PrefixLimit>, cfg: Config, st: LimiterState, addr: Addr, now: Time)
    requires |ls| == |st.gates| && FitsConfig(cfg, st.subnets)
    requires AllowPeer(ls, cfg, st, addr, now).allowed
    ensures var after := AllowPeer(ls, cfg, st, addr, now).state;
            && (forall k :: 0 <= k < |ls| ==>
                  if Contains(ls[k].prefix, addr) then st.gates[k].Take(now) == (true, after.gates[k])
                  else after.gates[k] == st.gates[k])
            && if InNetwork(ls, addr) then
                 after.subnets == st.subnets && after.global == st.global
               else
                 SubnetLimits.Allow(cfg, st.subnets, addr, now).allowed && st.global.Take(now) == (true, after.global)
  {
    GateEffects(ls, st.gates, addr, now, 0, false);
  }

  // ----- whole runs -----

  /** A bucket outside the subnets: that of the `k`-th network prefix, or the global one. */
  datatype Which = Network(k: nat) | Global {
    predicate In(ls: seq<PrefixLimit>) { Network? ==> k < |ls| }
  }

  function LimitOf(ls: seq<PrefixLimit>, global: Limit, which: Which): Limit
    requires which.In(ls)
  {
    match which
    case Network(k) => ls[k].limit
    case Global => global
  }

  function GateOf(st: LimiterState, which: Which): Gate
    requires which.Network? ==> which.k < |st.gates|
  {
    match which
    case Network(k) => st.gates[k]
    case Global => st.global
  }

  /** Whether a bucket is asked about requests from this address, unless a narrower one has refused. */
  ghost predicate Concerns(ls: seq<PrefixLimit>, which: Which, addr: Addr)
    requires which.In(ls)
  {
    match which
    case Network(k) => Contains(ls[k].prefix, addr)
    case Global => !InNetwork(ls, addr)
  }

  /** Whether a request took a token from a bucket. */
  predicate Took(ls: seq<PrefixLimit>, cfg: Config, st: LimiterState, q: Request, which: Which)
    requires |ls| == |st.gates| && FitsConfig(cfg, st.subnets) && which.In(ls)
  {
    var g := PassFrom(ls, st.gates, q.addr, q.at, 0, false);
    match which
    case Network(k) => Contains(ls[k].prefix, q.addr) && k < g.depth
    case Global => !g.within && AllowPeer(ls, cfg, st, q.addr, q.at).allowed
  }

  /** A bucket changes only by the tokens taken from it. */
  lemma TookIsTake(ls: seq<PrefixLimit>, cfg: Config, st: LimiterState, q: Request, which: Which)
    requires |ls| == |st.gates| && FitsConfig(cfg, st.subnets) && which.In(ls)
    ensures var after := GateOf(AllowPeer(ls, cfg, st, q.addr, q.at).state, which);
            if Took(ls, cfg, st, q, which) then GateOf(st, which).Take(q.at) == (true, after)
            else after == GateOf(st, which)
  {
    hide Contains, SubnetLimits.Allow, Gate.Take;
    GateEffects(ls, st.gates, q.addr, q.at, 0, false);
    RefusalIsFree(st.global, q.at);
  }

  /** An allowed request took a token from every bucket that it concerns. */
  lemma AllowedTook(ls: seq<PrefixLimit>, cfg: Config, st: LimiterState, q: Request, which: Which)
    requires |ls| == |st.gates| && FitsConfig(cfg, st.subnets) && which.In(ls)
    requires AllowPeer(ls, cfg, st, q.addr, q.at).allowed && Concerns(ls, which, q.addr)
    ensures Took(ls, cfg, st, q, which)
  {
    hide Contains, SubnetLimits.Allow, Gate.Take;
    GateEffects(ls, st.gates, q.addr, q.at, 0, false);
  }

  /** The instants at which a bucket gave a token. */
  function Charged(ls: seq<PrefixLimit>, cfg: Config, st: LimiterState, qs: seq<Request>, which: Which): seq<Time>
    requires |ls| == |st.gates| && FitsConfig(cfg, st.subnets) && which.In(ls)
    decreases |qs|
  {
    if qs == [] then []
    else
      (if Took(ls, cfg, st, qs[0], which) then [qs[0].at] else [])
      + Charged(ls, cfg, AllowPeer(ls, cfg, st, qs[0].addr, qs[0].at).state, qs[1..], which)
  }

  /** How many of the requests that concern a bucket were allowed. */
  ghost function Allowed(ls: seq<PrefixLimit>, cfg: Config, st: LimiterState, qs: seq<Request>, which: Which): nat
    requires |ls| == |st.gates| && FitsConfig(cfg, st.subnets) && which.In(ls)
    decreases |qs|
  {
    if qs == [] then 0
    else
      var r := AllowPeer(ls, cfg, st, qs[0].addr, qs[0].at);
      (if r.allowed && Concerns(ls, which, qs[0].addr) then 1 else 0) + Allowed(ls, cfg, r.state, qs[1..], which)
  }

  lemma {:induction false} AllowedAreCharged(ls: seq<PrefixLimit>, cfg: Config, st: LimiterState, qs: seq<Request>,
                                             which: Which)
    requires |ls| == |st.gates| && FitsConfig(cfg, st.subnets) && which.In(ls)
    ensures Allowed(ls, cfg, st, qs, which) <= |Charged(ls, cfg, st, qs, which)|
    decreases |qs|
  {
    if qs != [] {
      hide AllowPeer, Took, Concerns, FitsConfig;
      var r := AllowPeer(ls, cfg, st, qs[0].addr, qs[0].at);
      if r.allowed && Concerns(ls, which, qs[0].addr) {
        AllowedTook(ls, cfg, st, qs[0], which);
      }
      AllowedAreCharged(ls, cfg, r.state, qs[1..], which);
    }
  }

  function AfterAll(ls: seq<PrefixLimit>, cfg: Config, st: LimiterState, qs: seq<Request>): (r: LimiterState)
    requires |ls| == |st.gates| && FitsConfig(cfg, st.subnets)
    ensures |ls| == |r.gates| && FitsConfig(cfg, r.subnets)
    decreases |qs|
  {
    if qs == [] then st else AfterAll(ls, cfg, AllowPeer(ls, cfg, st, qs[0].addr, qs[0].at).state, qs[1..])
  }

  /** A gate that served exactly these requests, all of them admitted. */
  ghost predicate Serves(g: Gate, ts: seq<Time>, after: Gate)
    decreases |ts|
  {
    if ts == [] then after == g else g.Take(ts[0]).0 && Serves(g.Take(ts[0]).1, ts[1..], after)
  }

  /** Over every run a bucket is as if it had served only the requests charged to it: refused requests, and those that
      do not concern it, leave no trace. */
  lemma {:induction false} ServesCharged(ls: seq<PrefixLimit>, cfg: Config, st: LimiterState, qs: seq<Request>,
                                         which: Which)
    requires |ls| == |st.gates| && FitsConfig(cfg, st.subnets) && which.In(ls)
    ensures Serves(GateOf(st, which), Charged(ls, cfg, st, qs, which), GateOf(AfterAll(ls, cfg, st, qs), which))
    decreases |qs|
  {
    hide AllowPeer, Took, FitsConfig, Gate.Take;
    if qs != [] {
      var q := qs[0];
      var next := AllowPeer(ls, cfg, st, q.addr, q.at).state;
      TookIsTake(ls, cfg, st, q, which);
      ServesCharged(ls, cfg, next, qs[1..], which);
      var rest := Charged(ls, cfg, next, qs[1..], which);
      assert ([q.at] + rest)[1..] == rest && [] + rest == rest;
    }
  }

  ghost predicate Ascending(ts: seq<Time>, from: Time)
    decreases |ts|
  {
    ts != [] ==> from <= ts[0] && Ascending(ts[1..], ts[0])
  }

  function Latest(ts: seq<Time>, from: Time): Time { if ts == [] then from else ts[|ts| - 1] }

  lemma AscendingEarlier(ts: seq<Time>, s: Time, t: Time)
    requires Ascending(ts, t) && s <= t
    ensures Ascending(ts, s)
  {
  }

  lemma {:induction false} ChargedAscends(ls: seq<PrefixLimit>, cfg: Config, st: LimiterState, qs: seq<Request>,
                                          which: Which, from: Time)
    requires |ls| == |st.gates| && FitsConfig(cfg, st.subnets) && which.In(ls) && Chronological(qs, from)
    ensures Ascending(Charged(ls, cfg, st, qs, which), from)
    decreases |qs|
  {
    hide AllowPeer, Took, FitsConfig;
    if qs != [] {
      var q := qs[0];
      var next := AllowPeer(ls, cfg, st, q.addr, q.at).state;
      ChargedAscends(ls, cfg, next, qs[1..], which, q.at);
      var rest := Charged(ls, cfg, next, qs[1..], which);
      assert ([q.at] + rest)[1..] == rest && [] + rest == rest;
      AscendingEarlier(rest, from, q.at);
    }
  }

  lemma {:induction false} ChargedWithin(ls: seq<PrefixLimit>, cfg: Config, st: LimiterState, qs: seq<Request>,
                                         which: Which, from: Time)
    requires |ls| == |st.gates| && FitsConfig(cfg, st.subnets) && which.In(ls) && Chronological(qs, from)
    ensures from <= Latest(Charged(ls, cfg, st, qs, which), from) <= End(qs, from)
    decreases |qs|
  {
    hide AllowPeer, Took, FitsConfig;
    if qs != [] {
      ChargedWithin(ls, cfg, AllowPeer(ls, cfg, st, qs[0].addr, qs[0].at).state, qs[1..], which, qs[0].at);
    }
  }

  // ----- the rate bound -----

  /** Tokens a second, and tokens at most: a rate or burst below zero gives nothing. */
  function Rate(l: Limit): real { if l.rps > 0.0 then l.rps else 0.0 }

  function Capacity(l: Limit): real { if l.burst > 0 then l.burst as real else 0.0 }

  function Gain(l: Limit, time: Time): real { time * Rate(l) }

  lemma GainAdds(l: Limit, a: Time, b: Time, c: Time)
    requires a <= b <= c
    ensures Gain(l, c - a) == Gain(l, b - a) + Gain(l, c - b)
    ensures Gain(l, b - a) >= 0.0 && Gain(l, c - b) >= 0.0
  {
    ProductNonNegative(b - a, Rate(l));
    ProductNonNegative(c - b, Rate(l));
  }

  /** What a limit allows at most in some time; T * RPS + Burst where neither is negative. */
  function Allowance(l: Limit, time: Time): real { Gain(l, time) + Capacity(l) }

  ghost predicate Good(b: TokenBucket, now: Time) {
    b.last <= now && b.tokens <= b.limit.burst as real && (b.limit.burst >= 1 ==> b.tokens >= 0.0)
  }

  lemma NewIsGood(l: Limit, now: Time)
    requires now >= 0.0
    ensures Good(NewBucket(l), now)
  {
  }

  lemma TakeStaysGood(b: TokenBucket, now: Time)
    requires Good(b, now) && b.Take(now).0
    ensures b.limit.burst >= 1 && Good(b.Take(now).1, now) && b.Take(now).1.limit == b.limit
  {
  }

  lemma RefillsAtRate(b: TokenBucket, s: Time, t: Time)
    requires b.last <= s <= t
    ensures b.TokensAt(t) <= b.TokensAt(s) + Gain(b.limit, t - s)
  {
    if b.limit.rps > 0.0 {
      RefillBound(b, s, t);
    }
  }

  /** One bucket that admits all of these spends no more than it had and was refilled. */
  lemma {:induction false} ServedWithinBudget(b: TokenBucket, ts: seq<Time>, after: Gate, from: Time)
    requires Good(b, from) && Ascending(ts, from) && Serves(Metered(b), ts, after)
    ensures b.limit.burst < 1 ==> ts == []
    ensures b.limit.burst >= 1 ==> |ts| as real <= b.TokensAt(from) + Gain(b.limit, Latest(ts, from) - from)
    ensures after.Metered? && Good(after.bucket, Latest(ts, from)) && after.bucket.limit == b.limit
    decreases |ts|
  {
    hide TokenBucket.TokensAt, TokenBucket.Take, Good, Gain;
    if ts == [] {
      TokensInRange(b, from);
      GainAdds(b.limit, from, from, from);
    } else {
      var t, c := ts[0], b.Take(ts[0]).1;
      GoodLater(b, from, t);
      TakeStaysGood(b, t);
      assert Serves(Metered(c), ts[1..], after);
      ServedWithinBudget(c, ts[1..], after, t);
      TakeCostsOne(b, t);
      RefillsAtRate(b, from, t);
      LatestLater(ts[1..], t);
      GainAdds(b.limit, from, t, Latest(ts, from));
    }
  }

  lemma {:induction false} LatestLater(ts: seq<Time>, from: Time)
    requires Ascending(ts, from)
    ensures from <= Latest(ts, from)
    decreases |ts|
  {
    if ts != [] {
      LatestLater(ts[1..], ts[0]);
    }
  }

  lemma GoodLater(b: TokenBucket, s: Time, t: Time)
    requires Good(b, s) && s <= t
    ensures Good(b, t) && b.last <= s
  {
  }

  lemma TokensInRange(b: TokenBucket, t: Time)
    requires Good(b, t)
    ensures b.limit.burst >= 1 ==> 0.0 <= b.TokensAt(t)
    ensures b.TokensAt(t) <= b.limit.burst as real
  {
    if b.limit.rps > 0.0 {
      ProductNonNegative(t - b.last, b.limit.rps);
    }
  }

  /** A bucket stays within its limit over every run. */
  lemma StaysGood(ls: seq<PrefixLimit>, cfg: Config, st: LimiterState, qs: seq<Request>, which: Which, from: Time)
    requires |ls| == |st.gates| && FitsConfig(cfg, st.subnets) && which.In(ls) && Chronological(qs, from)
    requires GateOf(st, which).Metered? && Good(GateOf(st, which).bucket, from)
    ensures var g := GateOf(AfterAll(ls, cfg, st, qs), which);
            g.Metered? && Good(g.bucket, End(qs, from)) && g.bucket.limit == GateOf(st, which).bucket.limit
  {
    hide Charged, AfterAll, Good, Serves, TokenBucket.TokensAt, Chronological, FitsConfig, Gain, GateOf;
    var b, g := GateOf(st, which).bucket, GateOf(AfterAll(ls, cfg, st, qs), which);
    var ts := Charged(ls, cfg, st, qs, which);
    ServesCharged(ls, cfg, st, qs, which);
    ChargedAscends(ls, cfg, st, qs, which, from);
    ChargedWithin(ls, cfg, st, qs, which, from);
    ServedWithinBudget(b, ts, g, from);
    GoodLater(g.bucket, Latest(ts, from), End(qs, from));
  }

  lemma WindowSpends(ls: seq<PrefixLimit>, cfg: Config, st: LimiterState, qs: seq<Request>, which: Which, from: Time)
    requires |ls| == |st.gates| && FitsConfig(cfg, st.subnets) && which.In(ls) && Chronological(qs, from)
    requires GateOf(st, which).Metered? && Good(GateOf(st, which).bucket, from)
    ensures |Charged(ls, cfg, st, qs, which)| as real
            <= Allowance(GateOf(st, which).bucket.limit, End(qs, from) - from)
  {
    hide Charged, AfterAll, Good, Serves, TokenBucket.TokensAt, Chronological, FitsConfig, Gain, GateOf, Allowance;
    hide Latest, End, Capacity;
    var b, ts := GateOf(st, which).bucket, Charged(ls, cfg, st, qs, which);
    ServesCharged(ls, cfg, st, qs, which);
    ChargedAscends(ls, cfg, st, qs, which, from);
    ChargedWithin(ls, cfg, st, qs, which, from);
    ServedWithinBudget(b, ts, GateOf(AfterAll(ls, cfg, st, qs), which), from);
    TokensInRange(b, from);
    WithinAllowance(b.limit, |ts|, b.TokensAt(from), from, Latest(ts, from), End(qs, from));
  }

  lemma WithinAllowance(l: Limit, spent: nat, had: real, from: Time, latest: Time, end: Time)
    requires from <= latest <= end && had <= l.burst as real
    requires if l.burst < 1 then spent == 0 else spent as real <= had + Gain(l, latest - from)
    ensures spent as real <= Allowance(l, end - from)
  {
    hide Gain;
    GainAdds(l, from, latest, end);
  }

  lemma WindowStarts(qs: seq<Request>, s: Time, from: Time)
    requires qs != [] && Chronological(qs, s)
    ensures s <= qs[0].at && Chronological(qs, qs[0].at) && End(qs, from) == End(qs, qs[0].at)
  {
  }

  /** All buckets full, as the limiter starts. */
  ghost predicate Fresh(ls: seq<PrefixLimit>, global: Limit, st: LimiterState) {
    && |ls| == |st.gates| && st.global == NewGate(global)
    && forall k :: 0 <= k < |ls| ==> st.gates[k] == NewGate(ls[k].limit)
  }

  /** Every limit holds over every window of every run: of the requests that concern a bucket, the global one or that of
      a network prefix, at most T * RPS + Burst are allowed. A rate of zero means no limit. */
  lemma EveryWindowBound(ls: seq<PrefixLimit>, global: Limit, cfg: Config, st: LimiterState, before: seq<Request>,
                         window: seq<Request>, which: Which, from: Time)
    requires Fresh(ls, global, st) && FitsConfig(cfg, st.subnets) && which.In(ls) && from >= 0.0
    requires LimitOf(ls, global, which).rps != 0.0
    requires Chronological(before, from) && window != [] && Chronological(window, End(before, from))
    ensures var mid := AfterAll(ls, cfg, st, before);
            && Allowed(ls, cfg, mid, window, which) <= |Charged(ls, cfg, mid, window, which)|
            && |Charged(ls, cfg, mid, window, which)| as real
               <= Allowance(LimitOf(ls, global, which), End(window, from) - window[0].at)
  {
    hide *;
    var l := LimitOf(ls, global, which);
    StartsFull(ls, global, st, which);
    NewIsGood(l, from);
    StaysGood(ls, cfg, st, before, which, from);
    WindowStarts(window, End(before, from), from);
    var mid := AfterAll(ls, cfg, st, before);
    GoodLater(GateOf(mid, which).bucket, End(before, from), window[0].at);
    WindowSpends(ls, cfg, mid, window, which, window[0].at);
    AllowedAreCharged(ls, cfg, mid, window, which);
  }

  lemma StartsFull(ls: seq<PrefixLimit>, global: Limit, st: LimiterState, which: Which)
    requires Fresh(ls, global, st) && which.In(ls) && LimitOf(ls, global, which).rps != 0.0
    ensures |ls| == |st.gates| && (which.Network? ==> which.k < |ls|)
    ensures var l := LimitOf(ls, global, which);
            GateOf(st, which) == Metered(NewBucket(l)) && NewBucket(l).limit == l
  {
  }

  // ----- the object -----

  class Limiter {
    const limits: seq<PrefixLimit>
    const subnets: SubnetLimiter
    var gates: seq<Gate>
    var global: Gate

    ghost predicate Valid()
      reads this, subnets, subnets.v4Heaps, subnets.v6Heaps
    {
      |gates| == |limits| && NarrowFirst(limits) && subnets.Valid()
    }

    ghost function State(): LimiterState
      reads this, subnets
    {
      LimiterState(gates, subnets.state, global)
    }

    /** All buckets full, the widest prefix last. */
    constructor (prefixLimits: seq<PrefixLimit>, globalLimit: Limit, s: SubnetLimiter)
      requires s.Valid()
      ensures Valid() && subnets == s && multiset(limits) == multiset(prefixLimits)
      ensures Fresh(limits, globalLimit, State())
    {
      var sorted := SortByKey(prefixLimits, (l: PrefixLimit) => -(PrefixBits(l.prefix) as real));
      SortedIsNarrowFirst(sorted);
      var gs := [];
      for i := 0 to |sorted|
        invariant |gs| == i
        invariant forall k :: 0 <= k < i ==> gs[k] == NewGate(sorted[k].limit)
      {
        gs := gs + [NewGate(sorted[i].limit)];
      }
      limits, subnets := sorted, s;
      gates, global := gs, NewGate(globalLimit);
    }

    /** One call is one step of the value-level limiter. */
    method Allow(addr: Addr, now: Time) returns (ok: bool)
      requires Valid()
      modifies this, subnets, subnets.v4Heaps, subnets.v6Heaps
      ensures Valid()
      ensures ok == AllowPeer(limits, subnets.cfg, old(State()), addr, now).allowed
      ensures State() == AllowPeer(limits, subnets.cfg, old(State()), addr, now).state
    {
      hide SubnetLimiter.Valid, SubnetLimits.Allow, Contains, Gate.Take, FitsConfig;
      ValidFits(subnets);
      ghost var st := State();
      ghost var g := PassFrom(limits, gates, addr, now, 0, false);
      var within := false;
      for i := 0 to |limits|
        invariant |gates| == |limits| && subnets.Valid()
        invariant State() == st.(gates := gates)
        invariant g == PassFrom(limits, gates, addr, now, i, within)
      {
        if Contains(limits[i].prefix, addr) {
          var (passed, left) := gates[i].Take(now);
          if !passed {
            return false;
          }
          gates := gates[i := left];
          within := true;
        }
      }
      if within {
        return true;
      }
      var s := subnets.Allow(addr, now);
      if !s {
        return false;
      }
      RefusalIsFree(global, now);
      var (passed, left) := global.Take(now);
      global := left;
      return passed;
    }
  }

  lemma ValidFits(s: SubnetLimiter)
    requires s.Valid()
    ensures FitsConfig(s.cfg, s.state)
  {
  }

  lemma SortedIsNarrowFirst(ls: seq<PrefixLimit>)
    requires SortedBy(ls, (l: PrefixLimit) => -(PrefixBits(l.prefix) as real))
    ensures NarrowFirst(ls)
  {
    var key := (l: PrefixLimit) => -(PrefixBits(l.prefix) as real);
    forall i, j | 0 <= i < j < |ls| ensures PrefixBits(ls[i].prefix) >= PrefixBits(ls[j].prefix) {
      assert key(ls[i]) <= key(ls[j]);
    }
  }
}
