/** What the prefixes of addresses mean: ranges of numbers. And what the limiter's laws say about such ranges. */
module Subnets {
  import opened Common
  import opened Bits
  import opened TokenBuckets
  import opened BucketHeaps
  import opened SubnetLimits

  // ----- quotients -----

  lemma HalvesFirst(b: nat, p: nat)
    requires p > 0
    ensures b / 2 / p == b / (2 * p)
  {
    var h := b / 2;
    var q, r := h / p, h % p;
    assert h == q * p + r;
    assert b == 2 * h + b % 2;
    Doubled(q, p);
    QuotientIsUnique(b, 2 * p, q, 2 * r + b % 2);
  }

  lemma Doubled(q: nat, p: nat)
    ensures 2 * (q * p) == q * (2 * p)
  {
  }

  lemma {:induction false} HighBitsIs(bits: nat, dropped: nat)
    ensures HighBits(bits, dropped) == bits / Pow2(dropped)
    decreases dropped
  {
    if dropped > 0 {
      HighBitsIs(bits / 2, dropped - 1);
      HalvesFirst(bits, Pow2(dropped - 1));
    }
  }

  // ----- prefixes -----

  /** The number that addresses of one subnet share. */
  function SubnetNumber(a: Addr, n: nat): nat
    requires a != NoAddr && n <= a.Width()
  {
    Quotient(a.bits, a.Width() - n)
  }

  function Quotient(bits: nat, open: nat): nat {
    var size: nat := Pow2(open);
    QuotientNatural(bits, size);
    bits / size
  }

  lemma QuotientNatural(b: nat, m: nat)
    requires m > 0
    ensures b / m >= 0
  {
  }

  /** Two prefixes are the same exactly if the addresses are of one family, the lengths are equal and the addresses
      agree in that many leading bits; the invalid address has a prefix of its own. */
  lemma PrefixIff(a: Addr, m: nat, b: Addr, n: nat)
    requires a.Prefix(m).Some? && b.Prefix(n).Some?
    ensures a.Prefix(m) == b.Prefix(n) <==>
            if a == NoAddr || b == NoAddr then a == b
            else a.V4? == b.V4? && m == n && SubnetNumber(a, m) == SubnetNumber(b, n)
  {
    if a != NoAddr {
      HighBitsIs(a.bits, a.Width() - m);
    }
    if b != NoAddr {
      HighBitsIs(b.bits, b.Width() - n);
    }
  }

  /** The limiter treats addresses of one subnet alike: if two agree in the leading bits at every level, it gives them
      the same answer and ends in the same state. */
  lemma NeighboursAreAlike(cfg: Config, st: State, a: Addr, b: Addr, now: Time)
    requires FitsConfig(cfg, st) && a.V4? == b.V4?
    requires forall k :: 0 <= k < |cfg.Limits(a.V4?)| ==>
               a.Prefix(cfg.Limits(a.V4?)[k].prefixLength) == b.Prefix(cfg.Limits(a.V4?)[k].prefixLength)
    ensures Allow(cfg, st, a, now) == Allow(cfg, st, b, now)
  {
    AlikeFrom(cfg.Limits(a.V4?), cfg.grace, CleanUp(st, now).Tables(a.V4?), a, b, now, 0);
  }

  lemma {:induction false} AlikeFrom(ls: seq<SubnetLimit>, grace: Time, ts: seq<Table>, a: Addr, b: Addr, now: Time,
                                     i: nat)
    requires FitAll(ls, ts) && i <= |ls|
    requires forall k :: 0 <= k < |ls| ==> a.Prefix(ls[k].prefixLength) == b.Prefix(ls[k].prefixLength)
    ensures AllowFrom(ls, grace, ts, a, now, i) == AllowFrom(ls, grace, ts, b, now, i)
    decreases |ls| - i
  {
    if i < |ls| {
      SameTake(ls[i], grace, ts[i], a, b, now);
      hide TakeAt;
      match TakeAt(ls[i], grace, ts[i], a, now)
      case None =>
      case Some(t) => AlikeFrom(ls, grace, ts[i := t], a, b, now, i + 1);
    }
  }

  lemma SameTake(l: SubnetLimit, grace: Time, t: Table, a: Addr, b: Addr, now: Time)
    requires Fits(l, t) && a.Prefix(l.prefixLength) == b.Prefix(l.prefixLength)
    ensures TakeAt(l, grace, t, a, now) == TakeAt(l, grace, t, b, now)
  {
    hide Addr.Prefix;
  }

  // ----- the rate bound, for ranges of addresses -----

  /** An address of the family with a number from `low` on, `size` numbers. */
  predicate InRange(a: Addr, isV4: bool, low: nat, size: nat) {
    a != NoAddr && a.V4? == isV4 && low <= a.bits < low + size
  }

  /** How many requests from a range of addresses the limiter allowed. */
  function AllowedInRange(cfg: Config, st: State, qs: seq<Request>, isV4: bool, low: nat, size: nat): nat
    requires FitsConfig(cfg, st)
    decreases |qs|
  {
    if qs == [] then 0
    else
      var r := Allow(cfg, st, qs[0].addr, qs[0].at);
      (if InRange(qs[0].addr, isV4, low, size) && r.allowed then 1 else 0)
      + AllowedInRange(cfg, r.state, qs[1..], isV4, low, size)
  }

  function Width(isV4: bool): nat { if isV4 then 32 else 128 }

  function AddrOf(isV4: bool, bits: nat): Addr { if isV4 then V4(bits) else V6(bits) }

  lemma RangeIsQuotient(b: nat, q: nat, m: nat)
    requires m > 0
    ensures q * m <= b < q * m + m <==> b / m == q
  {
    if q * m <= b < q * m + m {
      QuotientIsUnique(b, m, q, b - q * m);
    }
    assert b == b / m * m + b % m;
  }

  /** A subnet is a range of addresses: as many as the bits that the prefix leaves open can number, from a multiple of
      that many on. */
  lemma RangeIsPrefix(a: Addr, isV4: bool, n: nat, q: nat)
    requires n <= Width(isV4)
    ensures var size := Pow2(Width(isV4) - n);
            InRange(a, isV4, q * size, size) <==> a.V4? == isV4 && a.Prefix(n) == AddrOf(isV4, q * size).Prefix(n)
  {
    var size := Pow2(Width(isV4) - n);
    var base := AddrOf(isV4, q * size);
    QuotientIsUnique(q * size, size, q, 0);
    if a != NoAddr && a.V4? == isV4 {
      RangeIsQuotient(a.bits, q, size);
      PrefixIff(a, n, base, n);
    } else if a == NoAddr && !isV4 {
      PrefixIff(a, n, base, n);
    }
  }

  lemma {:induction false} RangeCounts(cfg: Config, st: State, qs: seq<Request>, isV4: bool, k: nat, q: nat)
    requires FitsConfig(cfg, st) && k < |cfg.Limits(isV4)|
    requires 0 <= cfg.Limits(isV4)[k].prefixLength <= Width(isV4)
    ensures var n := cfg.Limits(isV4)[k].prefixLength;
            var size := Pow2(Width(isV4) - n);
            AllowedInRange(cfg, st, qs, isV4, q * size, size)
            == AllowedFrom(cfg, st, qs, isV4, k, AddrOf(isV4, q * size).Prefix(n).value)
    decreases |qs|
  {
    if qs != [] {
      var n := cfg.Limits(isV4)[k].prefixLength;
      var size := Pow2(Width(isV4) - n);
      RangeIsPrefix(qs[0].addr, isV4, n, q);
      hide Allow, InRange, Addr.Prefix, FitsConfig;
      RangeCounts(cfg, Allow(cfg, st, qs[0].addr, qs[0].at).state, qs[1..], isV4, k, q);
    }
  }

  /** The documented bound, for all the addresses of a subnet together: after any history, in any window of T seconds,
      at most T * RPS + Burst requests from a range of that size are allowed. */
  lemma RangeBound(cfg: Config, before: seq<Request>, window: seq<Request>, from: Time, isV4: bool, k: nat, q: nat)
    requires cfg.Refills() && cfg.grace >= 0.0 && k < |cfg.Limits(isV4)|
    requires 0 <= cfg.Limits(isV4)[k].prefixLength <= Width(isV4)
    requires Chronological(before, from) && window != [] && Chronological(window, End(before, from))
    ensures var l := cfg.Limits(isV4)[k];
            var size := Pow2(Width(isV4) - l.prefixLength);
            var count := AllowedInRange(cfg, After(cfg, Start(cfg), before), window, isV4, q * size, size);
            && (l.limit.burst >= 0 ==>
                  count as real <= (End(window, from) - window[0].at) * l.limit.rps + l.limit.burst as real)
            && (l.limit.burst < 0 ==> count == 0)
  {
    hide After, Admitted, AllowedFrom, AllowedInRange, Start, Fits, Addr.Prefix;
    var n := cfg.Limits(isV4)[k].prefixLength;
    var p := AddrOf(isV4, q * Pow2(Width(isV4) - n)).Prefix(n).value;
    WindowBound(cfg, before, window, from, isV4, k, p);
    RangeCounts(cfg, After(cfg, Start(cfg), before), window, isV4, k, q);
  }

  // ----- exactly when a request is allowed -----

  /** A request is allowed exactly if at every level of its family there is a subnet for it, and that subnet has a whole
      token left. */
  lemma AllowedIff(cfg: Config, st: State, addr: Addr, now: Time)
    requires FitsConfig(cfg, st)
    ensures var ls := if addr.V4? then cfg.v4 else cfg.v6;
            var ts := if addr.V4? then st.v4 else st.v6;
            Allow(cfg, st, addr, now).allowed <==>
            forall k :: 0 <= k < |ls| ==> HasToken(ls[k], Unexpired(ts[k], now), addr, now)
  {
    var ls, ts := cfg.Limits(addr.V4?), CleanUp(st, now).Tables(addr.V4?);
    LevelEffects(ls, cfg.grace, ts, addr, now, 0);
    forall k | 0 <= k < |ls|
      ensures TakeAt(ls[k], cfg.grace, ts[k], addr, now).Some? <==> HasToken(ls[k], ts[k], addr, now)
    {
      TakeIff(ls[k], cfg.grace, ts[k], addr, now);
    }
    hide TakeAt, HasToken;
    assert forall k :: 0 <= k < |ls| ==> ts[k] == Unexpired(st.Tables(addr.V4?)[k], now);
  }

  ghost predicate HasToken(l: SubnetLimit, t: Table, addr: Addr, now: Time) {
    var p := addr.Prefix(l.prefixLength);
    p.Some? && l.limit.burst >= 1 && TokensFor(l, t, p.value, now) >= 1.0
  }

  lemma TakeIff(l: SubnetLimit, grace: Time, t: Table, addr: Addr, now: Time)
    requires Fits(l, t)
    ensures TakeAt(l, grace, t, addr, now).Some? <==> HasToken(l, t, addr, now)
  {
    hide Addr.Prefix;
    NewIsFull(l.limit, now);
  }
}
