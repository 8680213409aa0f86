/** The subnet limiter on values: what one request does to the bucket tables,
    with and without forgetting expired buckets, and what that means for whole runs. */
module SubnetLimits {
  import opened Common
  import opened TokenBuckets
  import opened BucketHeaps

  datatype SubnetLimit = SubnetLimit(prefixLength: int, limit: Limit)

  /** The limits are listed from the most specific subnet to the least. */
  datatype Config = Config(v4: seq<SubnetLimit>, v6: seq<SubnetLimit>, grace: Time) {
    function Limits(isV4: bool): seq<SubnetLimit> { if isV4 then v4 else v6 }

    ghost predicate Refills() {
      (forall l :: l in v4 ==> l.limit.Refills()) && (forall l :: l in v6 ==> l.limit.Refills())
    }
  }

  datatype State = State(v4: seq<Table>, v6: seq<Table>) {
    function Tables(isV4: bool): seq<Table> { if isV4 then v4 else v6 }

    function With(isV4: bool, ts: seq<Table>): State {
      if isV4 then this.(v4 := ts) else this.(v6 := ts)
    }
  }

  ghost predicate Fits(l: SubnetLimit, t: Table) {
    l.limit.Refills() && forall p :: p in t ==> t[p].bucket.limit == l.limit
  }

  ghost predicate FitAll(ls: seq<SubnetLimit>, ts: seq<Table>) {
    |ls| == |ts| && forall k :: 0 <= k < |ls| ==> Fits(ls[k], ts[k])
  }

  ghost predicate FitsConfig(cfg: Config, st: State) {
    FitAll(cfg.v4, st.v4) && FitAll(cfg.v6, st.v6)
  }

  /** One level of `Allow`: the table after taking a token, or None when this level refuses. */
  function TakeAt(l: SubnetLimit, grace: Time, t: Table, addr: Addr, now: Time): (r: Option<Table>)
    requires Fits(l, t)
    ensures r.Some? ==> Fits(l, r.value)
  {
    match addr.Prefix(l.prefixLength)
    case None => None
    case Some(p) =>
      var (ok, b) := (if p in t then t[p].bucket else NewBucket(l.limit)).Take(now);
      if ok then Some(t[p := PrefixBucket(b, p, b.FullAt(now) + grace)]) else None
  }

  /** How many levels gave a token, and the tables afterwards: levels already passed keep their loss. */
  datatype Outcome = Outcome(depth: nat, tables: seq<Table>)

  function AllowFrom(ls: seq<SubnetLimit>, grace: Time, ts: seq<Table>, addr: Addr, now: Time, i: nat): (r: Outcome)
    requires FitAll(ls, ts) && i <= |ls|
    ensures FitAll(ls, r.tables) && i <= r.depth <= |ls|
    decreases |ls| - i
  {
    if i == |ls| then Outcome(i, ts)
    else
      match TakeAt(ls[i], grace, ts[i], addr, now)
      case None => Outcome(i, ts)
      case Some(t) => AllowFrom(ls, grace, ts[i := t], addr, now, i + 1)
  }

  lemma AllowFromStep(ls: seq<SubnetLimit>, grace: Time, ts: seq<Table>, addr: Addr, now: Time, i: nat)
    requires FitAll(ls, ts) && i <= |ls|
    ensures var o := AllowFrom(ls, grace, ts, addr, now, i);
            if i == |ls| then o == Outcome(i, ts)
            else match TakeAt(ls[i], grace, ts[i], addr, now)
                 case None => o == Outcome(i, ts)
                 case Some(t) => FitAll(ls, ts[i := t]) && o == AllowFrom(ls, grace, ts[i := t], addr, now, i + 1)
  {
    hide TakeAt;
  }

  /** What a request does, level by level: a token from each level it passed, nothing from the others,
      and the first level it did not pass is one that refuses. */
  lemma {:induction false} LevelEffects(ls: seq<SubnetLimit>, grace: Time, ts: seq<Table>, addr: Addr, now: Time,
                                        i: nat)
    requires FitAll(ls, ts) && i <= |ls|
    ensures var r := AllowFrom(ls, grace, ts, addr, now, i);
            && (forall k :: i <= k < r.depth ==> TakeAt(ls[k], grace, ts[k], addr, now) == Some(r.tables[k]))
            && (forall k :: 0 <= k < |ls| && !(i <= k < r.depth) ==> r.tables[k] == ts[k])
            && (r.depth < |ls| ==> TakeAt(ls[r.depth], grace, ts[r.depth], addr, now) == None)
    decreases |ls| - i
  {
    hide TakeAt;
    if i < |ls| && TakeAt(ls[i], grace, ts[i], addr, now).Some? {
      LevelEffects(ls, grace, ts[i := TakeAt(ls[i], grace, ts[i], addr, now).value], addr, now, i + 1);
    }
  }

  function UnexpiredAll(ts: seq<Table>, now: Time): (r: seq<Table>)
    ensures |r| == |ts| && forall k :: 0 <= k < |ts| ==> r[k] == Unexpired(ts[k], now)
  {
    seq(|ts|, k requires 0 <= k < |ts| => Unexpired(ts[k], now))
  }

  function CleanUp(st: State, now: Time): State {
    State(UnexpiredAll(st.v4, now), UnexpiredAll(st.v6, now))
  }

  lemma CleanUpFits(cfg: Config, st: State, now: Time)
    requires FitsConfig(cfg, st)
    ensures FitsConfig(cfg, CleanUp(st, now))
  {
  }

  datatype Reply = Reply(allowed: bool, depth: nat, state: State)

  /** A limiter that never drops a bucket. */
  function AllowRemembering(cfg: Config, st: State, addr: Addr, now: Time): (r: Reply)
    requires FitsConfig(cfg, st)
    ensures FitsConfig(cfg, r.state)
  {
    var o := AllowFrom(cfg.Limits(addr.V4?), cfg.grace, st.Tables(addr.V4?), addr, now, 0);
    Reply(o.depth == |cfg.Limits(addr.V4?)|, o.depth, st.With(addr.V4?, o.tables))
  }

  /** The limiter of the source: expired buckets go first. */
  function Allow(cfg: Config, st: State, addr: Addr, now: Time): (r: Reply)
    requires FitsConfig(cfg, st)
    ensures FitsConfig(cfg, r.state)
  {
    AllowRemembering(cfg, CleanUp(st, now), addr, now)
  }

  datatype Request = Request(addr: Addr, at: Time)

  function Step(cfg: Config, st: State, q: Request, forget: bool): (r: Reply)
    requires FitsConfig(cfg, st)
    ensures FitsConfig(cfg, r.state)
  {
    if forget then Allow(cfg, st, q.addr, q.at) else AllowRemembering(cfg, st, q.addr, q.at)
  }

  function Answers(cfg: Config, st: State, qs: seq<Request>, forget: bool): (a: seq<bool>)
    requires FitsConfig(cfg, st)
    ensures |a| == |qs|
    decreases |qs|
  {
    if qs == [] then []
    else
      var r := Step(cfg, st, qs[0], forget);
      [r.allowed] + Answers(cfg, r.state, qs[1..], forget)
  }

  /** The state after a run. */
  function After(cfg: Config, st: State, qs: seq<Request>): (r: State)
    requires FitsConfig(cfg, st)
    ensures FitsConfig(cfg, r)
    decreases |qs|
  {
    if qs == [] then st else After(cfg, Allow(cfg, st, qs[0].addr, qs[0].at).state, qs[1..])
  }

  function Start(cfg: Config): (st: State)
    ensures cfg.Refills() ==> FitsConfig(cfg, st)
  {
    State(seq(|cfg.v4|, _ => map[]), seq(|cfg.v6|, _ => map[]))
  }

  ghost predicate Chronological(qs: seq<Request>, from: Time) {
    qs != [] ==> from <= qs[0].at && Chronological(qs[1..], qs[0].at)
  }

  // ----- what every reachable table satisfies -----

  /** Stored buckets are settled, not overdrawn, and full by the time they expire. */
  ghost predicate Sound(l: SubnetLimit, t: Table, now: Time) {
    && Fits(l, t)
    && forall p :: p in t ==>
         && t[p].bucket.Settled(l.limit, now)
         && t[p].bucket.tokens >= 0.0
         && t[p].bucket.FullBy(t[p].expiry)
  }

  lemma TakeKeepsSound(l: SubnetLimit, grace: Time, t: Table, addr: Addr, now: Time)
    requires Sound(l, t, now) && grace >= 0.0
    requires TakeAt(l, grace, t, addr, now).Some?
    ensures Sound(l, TakeAt(l, grace, t, addr, now).value, now)
  {
    var p := addr.Prefix(l.prefixLength).value;
    var b := (if p in t then t[p].bucket else NewBucket(l.limit)).Take(now).1;
    FullAtIsFull(b, now, b.FullAt(now) + grace);
  }

  // ----- forgetting is invisible -----

  /** `m` forgets, `all` remembers: they agree on what `m` kept, and what `m` lost is full. */
  ghost predicate Simulates(l: SubnetLimit, m: Table, all: Table, now: Time) {
    && Sound(l, all, now)
    && (forall p :: p in m ==> p in all && m[p] == all[p])
    && (forall p :: p in all && p !in m ==> all[p].bucket.FullBy(now))
  }

  lemma ExpiryKeepsSimulation(l: SubnetLimit, m: Table, all: Table, s: Time, now: Time)
    requires Simulates(l, m, all, s) && s <= now
    ensures Simulates(l, Unexpired(m, now), all, now)
  {
    forall p | p in all && p !in Unexpired(m, now)
      ensures all[p].bucket.FullBy(now)
    {
      FullStaysFull(all[p].bucket, if p in m then all[p].expiry else s, now);
    }
  }

  lemma TakeAgrees(l: SubnetLimit, grace: Time, m: Table, all: Table, addr: Addr, now: Time)
    requires Simulates(l, m, all, now) && Fits(l, m) && grace >= 0.0
    ensures TakeAt(l, grace, m, addr, now).Some? == TakeAt(l, grace, all, addr, now).Some?
    ensures TakeAt(l, grace, all, addr, now).Some? ==>
              Simulates(l, TakeAt(l, grace, m, addr, now).value, TakeAt(l, grace, all, addr, now).value, now)
  {
    var prefix := addr.Prefix(l.prefixLength);
    if prefix.Some? && prefix.value in all && prefix.value !in m {
      FullStaysFull(all[prefix.value].bucket, now, now);
      FullIsLikeNew(all[prefix.value].bucket, l.limit, now);
    }
    if TakeAt(l, grace, all, addr, now).Some? {
      TakeKeepsSound(l, grace, all, addr, now);
    }
  }

  ghost predicate SimulatesAll(ls: seq<SubnetLimit>, ms: seq<Table>, alls: seq<Table>, now: Time) {
    |ls| == |ms| == |alls| && forall k :: 0 <= k < |ls| ==> Simulates(ls[k], ms[k], alls[k], now)
  }

  lemma LevelsAgree(ls: seq<SubnetLimit>, grace: Time, ms: seq<Table>, alls: seq<Table>, addr: Addr, now: Time)
    requires SimulatesAll(ls, ms, alls, now) && FitAll(ls, ms) && FitAll(ls, alls) && grace >= 0.0
    ensures AllowFrom(ls, grace, ms, addr, now, 0).depth == AllowFrom(ls, grace, alls, addr, now, 0).depth
    ensures SimulatesAll(ls, AllowFrom(ls, grace, ms, addr, now, 0).tables,
                         AllowFrom(ls, grace, alls, addr, now, 0).tables, now)
  {
    LevelEffects(ls, grace, ms, addr, now, 0);
    LevelEffects(ls, grace, alls, addr, now, 0);
    forall k | 0 <= k < |ls|
      ensures TakeAt(ls[k], grace, ms[k], addr, now).Some? == TakeAt(ls[k], grace, alls[k], addr, now).Some?
      ensures TakeAt(ls[k], grace, alls[k], addr, now).Some? ==>
                Simulates(ls[k], TakeAt(ls[k], grace, ms[k], addr, now).value,
                          TakeAt(ls[k], grace, alls[k], addr, now).value, now)
    {
      TakeAgrees(ls[k], grace, ms[k], alls[k], addr, now);
    }
  }

  ghost predicate SimulatesState(cfg: Config, st: State, all: State, now: Time) {
    SimulatesAll(cfg.v4, st.v4, all.v4, now) && SimulatesAll(cfg.v6, st.v6, all.v6, now)
  }

  lemma CleanUpKeepsSimulation(cfg: Config, st: State, all: State, s: Time, now: Time)
    requires SimulatesState(cfg, st, all, s) && s <= now
    ensures SimulatesState(cfg, CleanUp(st, now), all, now)
  {
    forall k | 0 <= k < |cfg.v4|
      ensures Simulates(cfg.v4[k], Unexpired(st.v4[k], now), all.v4[k], now)
    {
      ExpiryKeepsSimulation(cfg.v4[k], st.v4[k], all.v4[k], s, now);
    }
    forall k | 0 <= k < |cfg.v6|
      ensures Simulates(cfg.v6[k], Unexpired(st.v6[k], now), all.v6[k], now)
    {
      ExpiryKeepsSimulation(cfg.v6[k], st.v6[k], all.v6[k], s, now);
    }
  }

  lemma {:induction false} RunsAgree(cfg: Config, st: State, all: State, qs: seq<Request>, now: Time)
    requires FitsConfig(cfg, st) && FitsConfig(cfg, all) && cfg.grace >= 0.0
    requires SimulatesState(cfg, st, all, now) && Chronological(qs, now)
    ensures Answers(cfg, st, qs, true) == Answers(cfg, all, qs, false)
    decreases |qs|
  {
    if qs != [] {
      var q := qs[0];
      CleanUpKeepsSimulation(cfg, st, all, now, q.at);
      var clean := CleanUp(st, q.at);
      LevelsAgree(cfg.Limits(q.addr.V4?), cfg.grace, clean.Tables(q.addr.V4?), all.Tables(q.addr.V4?), q.addr, q.at);
      RunsAgree(cfg, Step(cfg, st, q, true).state, Step(cfg, all, q, false).state, qs[1..], q.at);
    }
  }

  /** Forgetting expired buckets is invisible: over every run the answers are those of a limiter
      that remembers every bucket for ever. */
  lemma ForgettingIsInvisible(cfg: Config, qs: seq<Request>, from: Time)
    requires cfg.Refills() && cfg.grace >= 0.0 && Chronological(qs, from)
    ensures Answers(cfg, Start(cfg), qs, true) == Answers(cfg, Start(cfg), qs, false)
  {
    RunsAgree(cfg, Start(cfg), Start(cfg), qs, from);
  }

  // ----- the rate bound -----

  /** What a prefix may still spend; one without a bucket has a whole burst. */
  function TokensFor(l: SubnetLimit, t: Table, p: Prefix, now: Time): real {
    if p in t then t[p].bucket.TokensAt(now) else l.limit.burst as real
  }

  ghost predicate SoundAll(ls: seq<SubnetLimit>, ts: seq<Table>, now: Time) {
    |ls| == |ts| && forall k :: 0 <= k < |ls| ==> Sound(ls[k], ts[k], now)
  }

  ghost predicate SoundState(cfg: Config, st: State, now: Time) {
    SoundAll(cfg.v4, st.v4, now) && SoundAll(cfg.v6, st.v6, now)
  }

  /** Dropping expired buckets changes no prefix's credit: what was dropped was full. */
  lemma ExpiryKeepsTokens(l: SubnetLimit, t: Table, p: Prefix, s: Time, now: Time)
    requires Sound(l, t, s) && s <= now
    ensures TokensFor(l, Unexpired(t, now), p, now) == TokensFor(l, t, p, now)
  {
    if p in t && t[p].expiry <= now {
      FullStaysFull(t[p].bucket, t[p].expiry, now);
    }
  }

  lemma ExpiryKeepsSound(l: SubnetLimit, t: Table, s: Time, now: Time)
    requires Sound(l, t, s) && s <= now
    ensures Sound(l, Unexpired(t, now), now)
  {
  }

  function Gained(rps: real, time: Time): real { time * rps }

  lemma TokensRefill(l: SubnetLimit, t: Table, p: Prefix, s: Time, now: Time)
    requires Sound(l, t, s) && s <= now
    ensures TokensFor(l, t, p, now) <= TokensFor(l, t, p, s) + Gained(l.limit.rps, now - s)
  {
    if p in t {
      RefillBound(t[p].bucket, s, now);
    } else {
      ProductNonNegative(now - s, l.limit.rps);
    }
  }

  lemma TakeSpendsOne(l: SubnetLimit, grace: Time, t: Table, addr: Addr, p: Prefix, now: Time)
    requires Sound(l, t, now) && grace >= 0.0
    requires TakeAt(l, grace, t, addr, now).Some?
    ensures var after := TakeAt(l, grace, t, addr, now).value;
            && Sound(l, after, now)
            && TokensFor(l, after, p, now) ==
               TokensFor(l, t, p, now) - (if addr.Prefix(l.prefixLength) == Some(p) then 1.0 else 0.0)
  {
    hide TokenBucket.TokensAt, TokenBucket.FullAt, Sound;
    TakeKeepsSound(l, grace, t, addr, now);
    if addr.Prefix(l.prefixLength) == Some(p) {
      NewIsFull(l.limit, now);
      TakeCostsOne(if p in t then t[p].bucket else NewBucket(l.limit), now);
    }
  }

  /** Whether the bucket of `p` at level `k` gave this request a token. */
  function Admits(cfg: Config, st: State, q: Request, isV4: bool, k: nat, p: Prefix): bool
    requires FitsConfig(cfg, st) && k < |cfg.Limits(isV4)|
  {
    && q.addr.V4? == isV4
    && q.addr.Prefix(cfg.Limits(isV4)[k].prefixLength) == Some(p)
    && Allow(cfg, st, q.addr, q.at).depth > k
  }

  function Admitted(cfg: Config, st: State, qs: seq<Request>, isV4: bool, k: nat, p: Prefix): nat
    requires FitsConfig(cfg, st) && k < |cfg.Limits(isV4)|
    decreases |qs|
  {
    if qs == [] then 0
    else (if Admits(cfg, st, qs[0], isV4, k, p) then 1 else 0)
         + Admitted(cfg, Allow(cfg, st, qs[0].addr, qs[0].at).state, qs[1..], isV4, k, p)
  }

  /** How many requests from inside `p` the limiter as a whole answered yes. */
  function AllowedFrom(cfg: Config, st: State, qs: seq<Request>, isV4: bool, k: nat, p: Prefix): nat
    requires FitsConfig(cfg, st) && k < |cfg.Limits(isV4)|
    decreases |qs|
  {
    if qs == [] then 0
    else
      var r := Allow(cfg, st, qs[0].addr, qs[0].at);
      var inside := qs[0].addr.V4? == isV4 && qs[0].addr.Prefix(cfg.Limits(isV4)[k].prefixLength) == Some(p);
      (if inside && r.allowed then 1 else 0) + AllowedFrom(cfg, r.state, qs[1..], isV4, k, p)
  }

  function End(qs: seq<Request>, from: Time): Time {
    if qs == [] then from else qs[|qs| - 1].at
  }

  lemma CleanUpKeepsSound(cfg: Config, st: State, now: Time, at: Time)
    requires SoundState(cfg, st, now) && now <= at
    ensures SoundState(cfg, CleanUp(st, at), at)
  {
    forall i | 0 <= i < |cfg.v4| ensures Sound(cfg.v4[i], CleanUp(st, at).v4[i], at) {
      ExpiryKeepsSound(cfg.v4[i], st.v4[i], now, at);
    }
    forall i | 0 <= i < |cfg.v6| ensures Sound(cfg.v6[i], CleanUp(st, at).v6[i], at) {
      ExpiryKeepsSound(cfg.v6[i], st.v6[i], now, at);
    }
  }

  lemma LevelsKeepSound(ls: seq<SubnetLimit>, grace: Time, ts: seq<Table>, addr: Addr, now: Time)
    requires SoundAll(ls, ts, now) && FitAll(ls, ts) && grace >= 0.0
    ensures SoundAll(ls, AllowFrom(ls, grace, ts, addr, now, 0).tables, now)
  {
    var o := AllowFrom(ls, grace, ts, addr, now, 0);
    LevelEffects(ls, grace, ts, addr, now, 0);
    forall i | 0 <= i < |ls| ensures Sound(ls[i], o.tables[i], now) {
      if i < o.depth {
        TakeKeepsSound(ls[i], grace, ts[i], addr, now);
      }
    }
  }

  lemma StepKeepsSound(cfg: Config, st: State, q: Request, now: Time)
    requires SoundState(cfg, st, now) && now <= q.at && cfg.grace >= 0.0 && FitsConfig(cfg, st)
    ensures SoundState(cfg, Allow(cfg, st, q.addr, q.at).state, q.at)
  {
    CleanUpKeepsSound(cfg, st, now, q.at);
    LevelsKeepSound(cfg.Limits(q.addr.V4?), cfg.grace, CleanUp(st, q.at).Tables(q.addr.V4?), q.addr, q.at);
  }

  function Cost(b: bool): real { if b then 1.0 else 0.0 }

  /** One request costs the prefix one token exactly if its bucket admitted it. */
  lemma StepSpends(cfg: Config, st: State, q: Request, now: Time, isV4: bool, k: nat, p: Prefix)
    requires FitsConfig(cfg, st) && k < |cfg.Limits(isV4)|
    requires Sound(cfg.Limits(isV4)[k], st.Tables(isV4)[k], now) && now <= q.at && cfg.grace >= 0.0
    ensures var l := cfg.Limits(isV4)[k];
            TokensFor(l, Allow(cfg, st, q.addr, q.at).state.Tables(isV4)[k], p, q.at)
            == TokensFor(l, st.Tables(isV4)[k], p, q.at) - Cost(Admits(cfg, st, q, isV4, k, p))
  {
    var l, t := cfg.Limits(isV4)[k], st.Tables(isV4)[k];
    ExpiryKeepsTokens(l, t, p, now, q.at);
    ExpiryKeepsSound(l, t, now, q.at);
    var u := CleanUp(st, q.at).Tables(isV4)[k];
    assert u == Unexpired(t, q.at);
    LevelEffects(cfg.Limits(q.addr.V4?), cfg.grace, CleanUp(st, q.at).Tables(q.addr.V4?), q.addr, q.at, 0);
    if q.addr.V4? == isV4 && k < Allow(cfg, st, q.addr, q.at).depth {
      assert TakeAt(l, cfg.grace, u, q.addr, q.at) == Some(Allow(cfg, st, q.addr, q.at).state.Tables(isV4)[k]);
      TakeSpendsOne(l, cfg.grace, u, q.addr, p, q.at);
    }
  }

  lemma {:induction false} RunKeepsSound(cfg: Config, st: State, qs: seq<Request>, now: Time)
    requires SoundState(cfg, st, now) && Chronological(qs, now) && cfg.grace >= 0.0 && FitsConfig(cfg, st)
    ensures SoundState(cfg, After(cfg, st, qs), End(qs, now))
    decreases |qs|
  {
    hide Sound, Allow;
    if qs != [] {
      StepKeepsSound(cfg, st, qs[0], now);
      RunKeepsSound(cfg, Allow(cfg, st, qs[0].addr, qs[0].at).state, qs[1..], qs[0].at);
    }
  }

  /** What time refills during a run, gap by gap. */
  function Refilled(rps: real, qs: seq<Request>, now: Time): real {
    if qs == [] then 0.0 else Gained(rps, qs[0].at - now) + Refilled(rps, qs[1..], qs[0].at)
  }

  lemma {:induction false} RefilledInAll(rps: real, qs: seq<Request>, now: Time)
    ensures Refilled(rps, qs, now) == Gained(rps, End(qs, now) - now)
  {
    if qs != [] {
      RefilledInAll(rps, qs[1..], qs[0].at);
      assert (End(qs, now) - now) * rps == (qs[0].at - now) * rps + (End(qs, now) - qs[0].at) * rps;
    }
  }

  lemma RefilledFirst(rps: real, qs: seq<Request>, now: Time)
    ensures Refilled(rps, qs, now) ==
            if qs == [] then 0.0 else Gained(rps, qs[0].at - now) + Refilled(rps, qs[1..], qs[0].at)
  {
  }

  /** Over a run, what a prefix spent is covered by what it had and what time refilled. */
  lemma {:induction false} RunSpends(cfg: Config, st: State, qs: seq<Request>, now: Time, isV4: bool, k: nat, p: Prefix)
    requires SoundState(cfg, st, now) && Chronological(qs, now) && cfg.grace >= 0.0
    requires FitsConfig(cfg, st) && k < |cfg.Limits(isV4)|
    ensures var l := cfg.Limits(isV4)[k];
            Admitted(cfg, st, qs, isV4, k, p) as real
            + TokensFor(l, After(cfg, st, qs).Tables(isV4)[k], p, End(qs, now))
            <= TokensFor(l, st.Tables(isV4)[k], p, now) + Refilled(l.limit.rps, qs, now)
    decreases |qs|
  {
    hide TokensFor, Sound, Allow, Admits, Refilled, Fits, Gained;
    RefilledFirst(cfg.Limits(isV4)[k].limit.rps, qs, now);
    if qs != [] {
      var q, l := qs[0], cfg.Limits(isV4)[k];
      StepKeepsSound(cfg, st, q, now);
      StepSpends(cfg, st, q, now, isV4, k, p);
      TokensRefill(l, st.Tables(isV4)[k], p, now, q.at);
      RunSpends(cfg, Allow(cfg, st, q.addr, q.at).state, qs[1..], q.at, isV4, k, p);
    }
  }

  lemma CreditRange(l: SubnetLimit, t: Table, p: Prefix, now: Time)
    requires Sound(l, t, now) && l.limit.burst >= 0
    ensures 0.0 <= TokensFor(l, t, p, now) <= l.limit.burst as real
  {
    if p in t {
      ProductNonNegative(now - t[p].bucket.last, l.limit.rps);
    }
  }

  lemma {:induction false} AllowedAreAdmitted(cfg: Config, st: State, qs: seq<Request>, isV4: bool, k: nat, p: Prefix)
    requires FitsConfig(cfg, st) && k < |cfg.Limits(isV4)|
    ensures AllowedFrom(cfg, st, qs, isV4, k, p) <= Admitted(cfg, st, qs, isV4, k, p)
    decreases |qs|
  {
    if qs != [] {
      AllowedAreAdmitted(cfg, Allow(cfg, st, qs[0].addr, qs[0].at).state, qs[1..], isV4, k, p);
    }
  }

  lemma NoBurstRefuses(cfg: Config, st: State, q: Request, isV4: bool, k: nat, p: Prefix)
    requires FitsConfig(cfg, st) && k < |cfg.Limits(isV4)| && cfg.Limits(isV4)[k].limit.burst < 1
    ensures !Admits(cfg, st, q, isV4, k, p)
  {
    LevelEffects(cfg.Limits(q.addr.V4?), cfg.grace, CleanUp(st, q.at).Tables(q.addr.V4?), q.addr, q.at, 0);
  }

  /** A limit without burst admits nothing. */
  lemma {:induction false} NoBurstNoToken(cfg: Config, st: State, qs: seq<Request>, isV4: bool, k: nat, p: Prefix)
    requires FitsConfig(cfg, st) && k < |cfg.Limits(isV4)| && cfg.Limits(isV4)[k].limit.burst < 1
    ensures Admitted(cfg, st, qs, isV4, k, p) == 0
    decreases |qs|
  {
    hide Allow, Admits, FitAll;
    if qs != [] {
      var q := qs[0];
      NoBurstRefuses(cfg, st, q, isV4, k, p);
      NoBurstNoToken(cfg, Allow(cfg, st, q.addr, q.at).state, qs[1..], isV4, k, p);
    }
  }

  /** After any history, in any window of T seconds, a subnet is given at most T * RPS + Burst tokens
      (and so at most that many yes answers), even when its bucket expires and is recreated meanwhile.
      A negative burst, for which that bound may be negative, admits nothing. */
  lemma WindowBound(cfg: Config, before: seq<Request>, window: seq<Request>, from: Time, isV4: bool, k: nat, p: Prefix)
    requires cfg.Refills() && cfg.grace >= 0.0 && k < |cfg.Limits(isV4)|
    requires Chronological(before, from) && window != [] && Chronological(window, End(before, from))
    ensures var l := cfg.Limits(isV4)[k].limit;
            var st := After(cfg, Start(cfg), before);
            var given := Admitted(cfg, st, window, isV4, k, p);
            && AllowedFrom(cfg, st, window, isV4, k, p) <= given
            && (l.burst >= 0 ==> given as real <= (End(window, from) - window[0].at) * l.rps + l.burst as real)
            && (l.burst < 0 ==> given == 0)
  {
    hide Sound, After, Admitted, AllowedFrom, Start, Fits;
    assert End(window, from) == End(window, window[0].at);
    StartSound(cfg, from);
    RunKeepsSound(cfg, Start(cfg), before, from);
    var st := After(cfg, Start(cfg), before);
    SoundStateLater(cfg, st, End(before, from), window[0].at);
    AllowedAreAdmitted(cfg, st, window, isV4, k, p);
    if cfg.Limits(isV4)[k].limit.burst < 0 {
      NoBurstNoToken(cfg, st, window, isV4, k, p);
    } else {
      WindowFrom(cfg, st, window, isV4, k, p);
    }
  }

  lemma StartSound(cfg: Config, now: Time)
    requires cfg.Refills()
    ensures SoundState(cfg, Start(cfg), now)
  {
  }

  lemma SoundStateLater(cfg: Config, st: State, s: Time, now: Time)
    requires SoundState(cfg, st, s) && s <= now
    ensures SoundState(cfg, st, now)
  {
  }

  lemma WindowFrom(cfg: Config, st: State, window: seq<Request>, isV4: bool, k: nat, p: Prefix)
    requires FitsConfig(cfg, st) && cfg.grace >= 0.0 && k < |cfg.Limits(isV4)|
    requires cfg.Limits(isV4)[k].limit.burst >= 0 && window != []
    requires SoundState(cfg, st, window[0].at) && Chronological(window, window[0].at)
    ensures var l := cfg.Limits(isV4)[k].limit;
            Admitted(cfg, st, window, isV4, k, p) as real
            <= Gained(l.rps, End(window, window[0].at) - window[0].at) + l.burst as real
  {
    hide TokensFor, Sound, After, Admitted, Gained;
    var l, t0 := cfg.Limits(isV4)[k], window[0].at;
    RunKeepsSound(cfg, st, window, t0);
    RunSpends(cfg, st, window, t0, isV4, k, p);
    RefilledInAll(l.limit.rps, window, t0);
    CreditRange(l, After(cfg, st, window).Tables(isV4)[k], p, End(window, t0));
    CreditRange(l, st.Tables(isV4)[k], p, t0);
  }
}
