/** What a negative grace period does: buckets are dropped before they are full again. Exactly when that shows in the
    answers, and that it breaks the rate bound. */
module GracePeriods {
  import opened Common
  import opened TokenBuckets
  import opened BucketHeaps
  import opened SubnetLimits

  /** Some address of the family can be let through: there are levels, and none refuses everybody. */
  ghost predicate LetsThrough(cfg: Config, isV4: bool) {
    var ls := cfg.Limits(isV4);
    && ls != []
    && forall k :: 0 <= k < |ls| ==>
         ls[k].limit.burst >= 1 && 0 <= ls[k].prefixLength && (isV4 ==> ls[k].prefixLength <= 32)
  }

  /** An address that has a prefix of every length the family lets through. The invalid address counts as IPv6. */
  function Visitor(isV4: bool): (a: Addr)
    ensures a.V4? == isV4
  {
    if isV4 then V4(0) else NoAddr
  }

  function VisitorPrefix(cfg: Config, isV4: bool, k: nat): Prefix
    requires k < |cfg.Limits(isV4)| && Visitor(isV4).Prefix(cfg.Limits(isV4)[k].prefixLength).Some?
  {
    Visitor(isV4).Prefix(cfg.Limits(isV4)[k].prefixLength).value
  }

  /** The same visitor `n` times, `gap` seconds apart. */
  function Visits(isV4: bool, at: Time, gap: Time, n: nat): (qs: seq<Request>)
    ensures |qs| == n
    decreases n
  {
    if n == 0 then [] else [Request(Visitor(isV4), at)] + Visits(isV4, at + gap, gap, n - 1)
  }

  lemma {:induction false} VisitsChronological(isV4: bool, at: Time, gap: Time, n: nat, from: Time)
    requires from <= at && gap >= 0.0
    ensures Chronological(Visits(isV4, at, gap, n), from)
    ensures n > 0 ==> Visits(isV4, at, gap, n)[0].at == at
    decreases n
  {
    if n > 0 {
      VisitsChronological(isV4, at + gap, gap, n - 1, at);
      assert Visits(isV4, at, gap, n)[1..] == Visits(isV4, at + gap, gap, n - 1);
    }
  }

  lemma {:induction false} VisitsEnd(isV4: bool, at: Time, gap: Time, n: nat, from: Time)
    requires n > 0
    ensures End(Visits(isV4, at, gap, n), from) == at + (n - 1) as real * gap
    decreases n
  {
    var qs := Visits(isV4, at, gap, n);
    assert qs[1..] == Visits(isV4, at + gap, gap, n - 1);
    if n > 1 {
      hide Visits;
      VisitsEnd(isV4, at + gap, gap, n - 1, from);
      assert qs[|qs| - 1] == qs[1..][|qs| - 2];
      OneMore(n, gap);
    }
  }

  // ----- forgetting: the visitor is always let in -----

  /** Everything the family has stored will be gone at `at`. */
  ghost predicate GoneBy(st: State, isV4: bool, at: Time) {
    var ts := st.Tables(isV4);
    forall k, p :: 0 <= k < |ts| && p in ts[k] ==> ts[k][p].expiry <= at
  }

  /** A new bucket lets the visitor in, and would be full again `1 / rps` later. */
  lemma NewLetsIn(l: SubnetLimit, grace: Time, a: Addr, at: Time)
    requires l.limit.Refills() && l.limit.burst >= 1 && a.Prefix(l.prefixLength).Some?
    ensures var r := TakeAt(l, grace, map[], a, at);
            r.Some? && forall p :: p in r.value ==> r.value[p].expiry == at + 1.0 / l.limit.rps + grace
  {
    NewIsFull(l.limit, at);
    var b := NewBucket(l.limit).Take(at).1;
    TakeCostsOne(NewBucket(l.limit), at);
    assert b.FullAt(at) == at + 1.0 / l.limit.rps;
  }

  /** The level that refills most slowly decides how long to wait. */
  ghost predicate Slowest(cfg: Config, isV4: bool, j: nat) {
    var ls := cfg.Limits(isV4);
    j < |ls| && forall k :: 0 <= k < |ls| ==> ls[j].limit.rps <= ls[k].limit.rps
  }

  lemma {:induction false} SlowestUpTo(ls: seq<SubnetLimit>) returns (j: nat)
    requires ls != []
    ensures j < |ls| && forall k :: 0 <= k < |ls| ==> ls[j].limit.rps <= ls[k].limit.rps
  {
    if |ls| == 1 {
      j := 0;
    } else {
      var n := |ls| - 1;
      j := SlowestUpTo(ls[..n]);
      assert forall k :: 0 <= k < n ==> ls[..n][k] == ls[k];
      if ls[n].limit.rps < ls[j].limit.rps {
        j := n;
      }
    }
  }

  lemma SlowerIsLonger(r: real, s: real)
    requires 0.0 < r <= s
    ensures 1.0 / s <= 1.0 / r
  {
    var x, y := 1.0 / r, 1.0 / s;
    assert x * r == 1.0 && y * s == 1.0;
    ProductNonNegative(x, s - r);
    assert x * (s - r) == x * s - x * r;
    if x < y {
      ProductGrows(y - x, s);
    }
  }

  lemma VisitAccepted(cfg: Config, st: State, isV4: bool, at: Time, j: nat, gap: Time)
    requires FitsConfig(cfg, st) && LetsThrough(cfg, isV4) && GoneBy(st, isV4, at)
    requires Slowest(cfg, isV4, j) && gap >= 1.0 / cfg.Limits(isV4)[j].limit.rps + cfg.grace
    ensures var r := Allow(cfg, st, Visitor(isV4), at);
            r.allowed && GoneBy(r.state, isV4, at + gap)
  {
    var ls, a := cfg.Limits(isV4), Visitor(isV4);
    var ts := CleanUp(st, at).Tables(isV4);
    CleanUpFits(cfg, st, at);
    forall k | 0 <= k < |ts| ensures ts[k] == map[] {
      assert ts[k] == Unexpired(st.Tables(isV4)[k], at);
    }
    LevelEffects(ls, cfg.grace, ts, a, at, 0);
    var o := AllowFrom(ls, cfg.grace, ts, a, at, 0);
    forall k | 0 <= k < |ls|
      ensures TakeAt(ls[k], cfg.grace, ts[k], a, at).Some?
      ensures forall p :: p in TakeAt(ls[k], cfg.grace, ts[k], a, at).value ==>
                TakeAt(ls[k], cfg.grace, ts[k], a, at).value[p].expiry <= at + gap
    {
      hide TakeAt;
      NewLetsIn(ls[k], cfg.grace, a, at);
      SlowerIsLonger(ls[j].limit.rps, ls[k].limit.rps);
    }
    hide TakeAt, AllowFrom;
    assert o.depth == |ls|;
  }

  lemma {:induction false} AllVisitsAccepted(cfg: Config, st: State, isV4: bool, at: Time, j: nat, gap: Time, n: nat)
    requires FitsConfig(cfg, st) && LetsThrough(cfg, isV4) && GoneBy(st, isV4, at)
    requires Slowest(cfg, isV4, j) && gap >= 1.0 / cfg.Limits(isV4)[j].limit.rps + cfg.grace
    ensures forall i :: 0 <= i < n ==> Answers(cfg, st, Visits(isV4, at, gap, n), true)[i]
    decreases n
  {
    hide Allow, GoneBy, LetsThrough, FitsConfig, Slowest, Addr.Prefix;
    if n > 0 {
      var qs := Visits(isV4, at, gap, n);
      assert qs[1..] == Visits(isV4, at + gap, gap, n - 1);
      VisitAccepted(cfg, st, isV4, at, j, gap);
      AllVisitsAccepted(cfg, Allow(cfg, st, Visitor(isV4), at).state, isV4, at + gap, j, gap, n - 1);
    }
  }

  lemma HasPrefix(cfg: Config, isV4: bool, j: nat)
    requires LetsThrough(cfg, isV4) && Slowest(cfg, isV4, j)
    ensures j < |cfg.Limits(isV4)|
    ensures Visitor(isV4).Prefix(cfg.Limits(isV4)[j].prefixLength) == Some(VisitorPrefix(cfg, isV4, j))
  {
  }

  lemma {:induction false} AllVisitsCounted(cfg: Config, st: State, isV4: bool, at: Time, j: nat, gap: Time, n: nat)
    requires FitsConfig(cfg, st) && LetsThrough(cfg, isV4) && GoneBy(st, isV4, at)
    requires Slowest(cfg, isV4, j) && gap >= 1.0 / cfg.Limits(isV4)[j].limit.rps + cfg.grace
    ensures AllowedFrom(cfg, st, Visits(isV4, at, gap, n), isV4, j, VisitorPrefix(cfg, isV4, j)) == n
    decreases n
  {
    hide Allow, GoneBy, LetsThrough, FitsConfig, Slowest, Addr.Prefix;
    if n > 0 {
      var qs := Visits(isV4, at, gap, n);
      assert qs[1..] == Visits(isV4, at + gap, gap, n - 1);
      HasPrefix(cfg, isV4, j);
      VisitAccepted(cfg, st, isV4, at, j, gap);
      AllVisitsCounted(cfg, Allow(cfg, st, Visitor(isV4), at).state, isV4, at + gap, j, gap, n - 1);
    }
  }

  // ----- remembering: the visitor runs out of tokens -----

  /** What the level has left for the visitor. */
  function Credit(cfg: Config, st: State, isV4: bool, j: nat, at: Time): real
    requires FitsConfig(cfg, st) && j < |cfg.Limits(isV4)|
    requires Visitor(isV4).Prefix(cfg.Limits(isV4)[j].prefixLength).Some?
  {
    TokensFor(cfg.Limits(isV4)[j], st.Tables(isV4)[j], VisitorPrefix(cfg, isV4, j), at)
  }

  /** Its bucket, if there is one, is in order. */
  ghost predicate InOrder(cfg: Config, st: State, isV4: bool, j: nat, now: Time)
    requires FitsConfig(cfg, st) && j < |cfg.Limits(isV4)|
    requires Visitor(isV4).Prefix(cfg.Limits(isV4)[j].prefixLength).Some?
  {
    var t, p := st.Tables(isV4)[j], VisitorPrefix(cfg, isV4, j);
    p in t ==> t[p].bucket.Settled(cfg.Limits(isV4)[j].limit, now)
  }

  /** A visit that is let in finds a token, and leaves one less. */
  lemma VisitCosts(cfg: Config, st: State, isV4: bool, at: Time, j: nat)
    requires FitsConfig(cfg, st) && LetsThrough(cfg, isV4) && j < |cfg.Limits(isV4)|
    requires InOrder(cfg, st, isV4, j, at) && AllowRemembering(cfg, st, Visitor(isV4), at).allowed
    ensures var next := AllowRemembering(cfg, st, Visitor(isV4), at).state;
            && Credit(cfg, st, isV4, j, at) >= 1.0
            && Credit(cfg, next, isV4, j, at) == Credit(cfg, st, isV4, j, at) - 1.0
            && InOrder(cfg, next, isV4, j, at)
  {
    var l, t, p := cfg.Limits(isV4)[j], st.Tables(isV4)[j], VisitorPrefix(cfg, isV4, j);
    var next := AllowRemembering(cfg, st, Visitor(isV4), at).state;
    LevelEffects(cfg.Limits(isV4), cfg.grace, st.Tables(isV4), Visitor(isV4), at, 0);
    assert TakeAt(l, cfg.grace, t, Visitor(isV4), at) == Some(next.Tables(isV4)[j]);
    var b := if p in t then t[p].bucket else NewBucket(l.limit);
    NewIsFull(l.limit, at);
    TakeCostsOne(b, at);
  }

  lemma CreditLater(cfg: Config, st: State, isV4: bool, j: nat, s: Time, at: Time)
    requires FitsConfig(cfg, st) && LetsThrough(cfg, isV4) && j < |cfg.Limits(isV4)| && s <= at
    requires InOrder(cfg, st, isV4, j, s)
    ensures InOrder(cfg, st, isV4, j, at)
    ensures Credit(cfg, st, isV4, j, at)
            <= Credit(cfg, st, isV4, j, s) + (at - s) * cfg.Limits(isV4)[j].limit.rps
  {
    var l, t, p := cfg.Limits(isV4)[j], st.Tables(isV4)[j], VisitorPrefix(cfg, isV4, j);
    if p in t {
      RefillBound(t[p].bucket, s, at);
    } else {
      ProductNonNegative(at - s, l.limit.rps);
    }
  }

  /** Each visit in a row of accepted ones loses the same part of a token. */
  lemma {:induction false} VisitsDrain(cfg: Config, st: State, isV4: bool, at: Time, j: nat, gap: Time, n: nat,
                                       loss: real)
    requires FitsConfig(cfg, st) && LetsThrough(cfg, isV4) && j < |cfg.Limits(isV4)| && gap >= 0.0
    requires InOrder(cfg, st, isV4, j, at) && loss == 1.0 - gap * cfg.Limits(isV4)[j].limit.rps
    requires n > 0 && forall i :: 0 <= i < n ==> Answers(cfg, st, Visits(isV4, at, gap, n), false)[i]
    ensures (n - 1) as real * loss <= Credit(cfg, st, isV4, j, at) - 1.0
    decreases n
  {
    hide AllowRemembering, LetsThrough, FitsConfig, Credit, InOrder;
    var qs := Visits(isV4, at, gap, n);
    var next := AllowRemembering(cfg, st, Visitor(isV4), at).state;
    var answers := Answers(cfg, st, qs, false);
    assert answers[0];
    VisitCosts(cfg, st, isV4, at, j);
    if n > 1 {
      assert qs[1..] == Visits(isV4, at + gap, gap, n - 1);
      assert forall i :: 0 <= i < n - 1 ==> answers[i + 1] == Answers(cfg, next, qs[1..], false)[i];
      CreditLater(cfg, next, isV4, j, at, at + gap);
      VisitsDrain(cfg, next, isV4, at + gap, j, gap, n - 1, loss);
      OneMore(n, loss);
    }
  }

  lemma OneMore(n: nat, x: real)
    requires n > 1
    ensures (n - 1) as real * x == (n - 2) as real * x + x
  {
  }

  // ----- the two together -----

  /** Any loss adds up to any amount. */
  lemma AddsUp(loss: real, amount: real) returns (n: nat)
    requires loss > 0.0 && amount >= 0.0
    ensures n as real * loss > amount
  {
    var q := amount / loss;
    assert q * loss == amount;
    n := q.Floor + 1;
    assert n as real > q;
    ProductGrows(n as real - q, loss);
    assert (n as real - q) * loss == n as real * loss - q * loss;
  }

  lemma ProductGrows(x: real, y: real)
    requires x > 0.0 && y > 0.0
    ensures x * y > 0.0
  {
  }

  /** A gap after which all is forgotten, but the slowest level has not regained a whole token. */
  lemma ShortGap(rps: real, grace: Time) returns (gap: Time, loss: real)
    requires rps > 0.0 && grace < 0.0
    ensures gap >= 0.0 && gap >= 1.0 / rps + grace && loss == 1.0 - gap * rps && loss > 0.0
  {
    var whole := 1.0 / rps;
    assert whole * rps == 1.0;
    if whole + grace > 0.0 {
      gap := whole + grace;
      ProductGrows(-grace, rps);
      assert gap * rps == whole * rps + grace * rps;
      assert -grace * rps == -(grace * rps);
    } else {
      gap := 0.0;
      assert 0.0 * rps == 0.0;
    }
    loss := 1.0 - gap * rps;
  }

  /** With a negative grace period, in a family that lets anybody through, there is a run of visits that are all
      accepted, more than the slowest limit allows in the time, of which a limiter that remembers refuses one. */
  lemma TooManyVisits(cfg: Config, isV4: bool) returns (j: nat, gap: Time, n: nat)
    requires cfg.Refills() && cfg.grace < 0.0 && LetsThrough(cfg, isV4)
    ensures j < |cfg.Limits(isV4)| && gap >= 0.0 && n > 0
    ensures forall i :: 0 <= i < n ==> Answers(cfg, Start(cfg), Visits(isV4, 0.0, gap, n), true)[i]
    ensures exists i :: 0 <= i < n && !Answers(cfg, Start(cfg), Visits(isV4, 0.0, gap, n), false)[i]
    ensures AllowedFrom(cfg, Start(cfg), Visits(isV4, 0.0, gap, n), isV4, j, VisitorPrefix(cfg, isV4, j)) == n
    ensures var l := cfg.Limits(isV4)[j].limit;
            n as real > (n - 1) as real * gap * l.rps + l.burst as real
  {
    hide Answers, AllowedFrom, Visits;
    j := SlowestUpTo(cfg.Limits(isV4));
    var l := cfg.Limits(isV4)[j].limit;
    var loss;
    gap, loss := ShortGap(l.rps, cfg.grace);
    var m := AddsUp(loss, l.burst as real - 1.0);
    n := m + 1;
    StartIsEmpty(cfg, isV4, j);
    AllVisitsAccepted(cfg, Start(cfg), isV4, 0.0, j, gap, n);
    AllVisitsCounted(cfg, Start(cfg), isV4, 0.0, j, gap, n);
    if forall i :: 0 <= i < n ==> Answers(cfg, Start(cfg), Visits(isV4, 0.0, gap, n), false)[i] {
      VisitsDrain(cfg, Start(cfg), isV4, 0.0, j, gap, n, loss);
    }
    assert (n - 1) as real * loss == (n - 1) as real - (n - 1) as real * gap * l.rps;
  }

  lemma StartIsEmpty(cfg: Config, isV4: bool, j: nat)
    requires cfg.Refills() && LetsThrough(cfg, isV4) && j < |cfg.Limits(isV4)|
    ensures FitsConfig(cfg, Start(cfg)) && GoneBy(Start(cfg), isV4, 0.0)
    ensures InOrder(cfg, Start(cfg), isV4, j, 0.0)
    ensures Credit(cfg, Start(cfg), isV4, j, 0.0) == cfg.Limits(isV4)[j].limit.burst as real
  {
  }

  // ----- families that let nobody through, or everybody -----

  lemma ClosedRefuses(cfg: Config, st: State, a: Addr, at: Time)
    requires FitsConfig(cfg, st) && !LetsThrough(cfg, a.V4?)
    ensures AllowRemembering(cfg, st, a, at).allowed <==> cfg.Limits(a.V4?) == []
  {
    var ls := cfg.Limits(a.V4?);
    LevelEffects(ls, cfg.grace, st.Tables(a.V4?), a, at, 0);
    if ls != [] {
      var k :| 0 <= k < |ls|
               && !(ls[k].limit.burst >= 1 && 0 <= ls[k].prefixLength && (a.V4? ==> ls[k].prefixLength <= 32));
      assert TakeAt(ls[k], cfg.grace, st.Tables(a.V4?)[k], a, at) == None;
    }
  }

  lemma {:induction false} ClosedAgree(cfg: Config, st: State, all: State, qs: seq<Request>)
    requires FitsConfig(cfg, st) && FitsConfig(cfg, all) && !LetsThrough(cfg, true) && !LetsThrough(cfg, false)
    ensures Answers(cfg, st, qs, true) == Answers(cfg, all, qs, false)
    decreases |qs|
  {
    if qs != [] {
      hide AllowRemembering, LetsThrough, FitsConfig, CleanUp;
      var q := qs[0];
      CleanUpFits(cfg, st, q.at);
      ClosedRefuses(cfg, CleanUp(st, q.at), q.addr, q.at);
      ClosedRefuses(cfg, all, q.addr, q.at);
      ClosedAgree(cfg, Step(cfg, st, q, true).state, Step(cfg, all, q, false).state, qs[1..]);
    }
  }

  /** Whether some run gets another answer because buckets are forgotten. */
  ghost predicate ForgettingShows(cfg: Config)
    requires cfg.Refills()
  {
    exists qs: seq<Request>, from: Time ::
      Chronological(qs, from) && Answers(cfg, Start(cfg), qs, true) != Answers(cfg, Start(cfg), qs, false)
  }

  /** For every configuration: forgetting shows exactly if the grace period is negative and the limits of some address
      family let anybody through at all. */
  lemma ForgettingShowsIff(cfg: Config)
    requires cfg.Refills()
    ensures ForgettingShows(cfg) <==> cfg.grace < 0.0 && (LetsThrough(cfg, true) || LetsThrough(cfg, false))
  {
    hide LetsThrough, Answers, Chronological;
    if cfg.grace < 0.0 && (LetsThrough(cfg, true) || LetsThrough(cfg, false)) {
      var isV4 := LetsThrough(cfg, true);
      var j, gap, n := TooManyVisits(cfg, isV4);
      VisitsChronological(isV4, 0.0, gap, n, 0.0);
      assert Chronological(Visits(isV4, 0.0, gap, n), 0.0);
    } else {
      forall qs: seq<Request>, from: Time | Chronological(qs, from)
        ensures Answers(cfg, Start(cfg), qs, true) == Answers(cfg, Start(cfg), qs, false)
      {
        if cfg.grace >= 0.0 {
          ForgettingIsInvisible(cfg, qs, from);
        } else {
          ClosedAgree(cfg, Start(cfg), Start(cfg), qs);
        }
      }
    }
  }

  /** A window in which a subnet gets no more yes answers than its limit promises. */
  ghost predicate KeepsBound(cfg: Config, window: seq<Request>, isV4: bool, k: nat, p: Prefix)
    requires cfg.Refills() && k < |cfg.Limits(isV4)| && window != []
  {
    var l := cfg.Limits(isV4)[k].limit;
    AllowedFrom(cfg, Start(cfg), window, isV4, k, p) as real
    <= (End(window, 0.0) - window[0].at) * l.rps + l.burst as real
  }

  /** With a negative grace period the rate bound fails in every family that lets anybody through; otherwise it holds,
      as `WindowBound` says. */
  lemma BoundHoldsIff(cfg: Config, isV4: bool)
    requires cfg.Refills() && LetsThrough(cfg, isV4)
    ensures (forall window: seq<Request>, k: nat, p: Prefix ::
               window != [] && Chronological(window, 0.0) && k < |cfg.Limits(isV4)| ==>
                 KeepsBound(cfg, window, isV4, k, p))
            <==> cfg.grace >= 0.0
  {
    hide Answers, AllowedFrom, Chronological;
    if cfg.grace >= 0.0 {
      forall window: seq<Request>, k: nat, p: Prefix
        | window != [] && Chronological(window, 0.0) && k < |cfg.Limits(isV4)|
        ensures KeepsBound(cfg, window, isV4, k, p)
      {
        FirstWindow(cfg, window, isV4, k, p);
      }
    } else {
      var j, gap, n := TooManyVisits(cfg, isV4);
      VisitsChronological(isV4, 0.0, gap, n, 0.0);
      VisitsEnd(isV4, 0.0, gap, n, 0.0);
      assert !KeepsBound(cfg, Visits(isV4, 0.0, gap, n), isV4, j, VisitorPrefix(cfg, isV4, j));
    }
  }

  lemma FirstWindow(cfg: Config, window: seq<Request>, isV4: bool, k: nat, p: Prefix)
    requires cfg.Refills() && LetsThrough(cfg, isV4) && cfg.grace >= 0.0 && k < |cfg.Limits(isV4)|
    requires window != [] && Chronological(window, 0.0)
    ensures KeepsBound(cfg, window, isV4, k, p)
  {
    hide AllowedFrom, Admitted;
    assert Chronological([], 0.0) && End([], 0.0) == 0.0;
    assert After(cfg, Start(cfg), []) == Start(cfg);
    WindowBound(cfg, [], window, 0.0, isV4, k, p);
    assert cfg.Limits(isV4)[k].limit.burst >= 1;
    assert AllowedFrom(cfg, Start(cfg), window, isV4, k, p) <= Admitted(cfg, Start(cfg), window, isV4, k, p);
  }
}
