/** One relay of the pool: its record of results, the tier that record puts it in, and its score. */
module RelayItems {
  import opened Common

  const DEMOTE_THRESHOLD: nat := 3
  const CIRCUIT_THRESHOLD: nat := 5
  const NEW_SCORE: real := 0.70

  datatype Result = Ok | RateLimited | Failed

  datatype RelayItem = RelayItem(
    inMain: bool,
    successScore: real,
    avgRtt: real,
    limitDuration: real,
    limitData: int,
    rateLimitHits: nat,
    consecutiveFails: nat,
    circuitOpen: bool,
    reservationExpires: Time,
    connectedSince: Time,
    lastResult: Time)

  function NewItem(now: Time): RelayItem {
    RelayItem(false, NEW_SCORE, 0.0, 0.0, 0, 0, 0, false, 0.0, now, 0.0)
  }

  function Ema(old_: real, new_: real, alpha: real): real {
    alpha * new_ + (1.0 - alpha) * old_
  }

  /** The item after one recorded result. */
  function Record(it: RelayItem, r: Result, now: Time): RelayItem {
    match r
    case Ok =>
      it.(successScore := Ema(it.successScore, 1.0, 0.3), consecutiveFails := 0, circuitOpen := false,
          inMain := true, lastResult := now)
    case RateLimited =>
      it.(successScore := Ema(it.successScore, 0.0, 0.5), rateLimitHits := it.rateLimitHits + 1, lastResult := now)
    case Failed =>
      var fails := it.consecutiveFails + 1;
      var demoted := it.inMain && fails >= DEMOTE_THRESHOLD;
      it.(successScore := if demoted then NEW_SCORE else Ema(it.successScore, 0.0, 0.3),
          consecutiveFails := fails,
          inMain := it.inMain && !demoted,
          circuitOpen := it.circuitOpen || fails >= CIRCUIT_THRESHOLD,
          lastResult := now)
  }

  /** A successful health ping: failures are forgotten, the tier is not touched. */
  function Ping(it: RelayItem, rtt: real): RelayItem {
    it.(avgRtt := Ema(it.avgRtt, rtt, 0.3), successScore := Ema(it.successScore, 1.0, 0.3), consecutiveFails := 0)
  }

  ghost predicate Sound(it: RelayItem) {
    && 0.0 <= it.successScore <= 1.0
    && (it.inMain ==> it.consecutiveFails < DEMOTE_THRESHOLD && !it.circuitOpen)
  }

  lemma RecordKeepsSound(it: RelayItem, r: Result, now: Time)
    requires Sound(it)
    ensures Sound(Record(it, r, now))
  {
  }

  lemma PingKeepsSound(it: RelayItem, rtt: real)
    requires Sound(it)
    ensures Sound(Ping(it, rtt))
  {
  }

  // ----- the tier as a function of the history -----

  /** What happens to a relay: a result is recorded, or a health ping succeeds. */
  datatype Event = Recorded(result: Result, at: Time) | Pinged(rtt: real)

  function After(it: RelayItem, e: Event): RelayItem {
    match e
    case Recorded(r, at) => Record(it, r, at)
    case Pinged(rtt) => Ping(it, rtt)
  }

  function Replay(it: RelayItem, h: seq<Event>): RelayItem {
    if h == [] then it else After(Replay(it, h[..|h| - 1]), h[|h| - 1])
  }

  predicate IsOk(e: Event) { e.Recorded? && e.result.Ok? }

  predicate IsFailure(e: Event) { e.Recorded? && e.result.Failed? }

  /** Failures since the last success or ping, or since the beginning; rate limiting counts for neither. */
  function Streak(h: seq<Event>): nat {
    if h == [] || IsOk(h[|h| - 1]) || h[|h| - 1].Pinged? then 0
    else Streak(h[..|h| - 1]) + if IsFailure(h[|h| - 1]) then 1 else 0
  }

  ghost predicate EverOk(h: seq<Event>) {
    exists i :: 0 <= i < |h| && IsOk(h[i])
  }

  /** No success from `i` on. */
  ghost predicate NoOkFrom(h: seq<Event>, i: nat) {
    forall k :: i <= k < |h| ==> !IsOk(h[k])
  }

  /** At some moment since the last success, or since the beginning, there was a streak of `n` failures. */
  ghost predicate Reached(h: seq<Event>, n: nat) {
    exists i :: 0 <= i <= |h| && NoOkFrom(h, i) && Streak(h[..i]) >= n
  }

  lemma EverOkLast(h: seq<Event>)
    requires h != []
    ensures EverOk(h) <==> EverOk(h[..|h| - 1]) || IsOk(h[|h| - 1])
  {
    var g := h[..|h| - 1];
    if EverOk(g) {
      var i :| 0 <= i < |g| && IsOk(g[i]);
      assert IsOk(h[i]);
    }
    if EverOk(h) && !IsOk(h[|h| - 1]) {
      var i :| 0 <= i < |h| && IsOk(h[i]);
      assert IsOk(g[i]);
    }
  }

  lemma ReachedLast(h: seq<Event>, n: nat)
    requires h != []
    ensures Reached(h, n) <==> Streak(h) >= n || (!IsOk(h[|h| - 1]) && Reached(h[..|h| - 1], n))
  {
    hide Streak, IsOk;
    var g := h[..|h| - 1];
    assert h[..|h|] == h;
    if Reached(h, n) && Streak(h) < n {
      var i :| 0 <= i <= |h| && NoOkFrom(h, i) && Streak(h[..i]) >= n;
      assert h[..i] == g[..i];
      assert NoOkFrom(g, i);
    }
    if Streak(h) >= n {
      assert NoOkFrom(h, |h|);
    } else if !IsOk(h[|h| - 1]) && Reached(g, n) {
      ReachedLonger(h, n);
    }
  }

  lemma ReachedLonger(h: seq<Event>, n: nat)
    requires h != [] && !IsOk(h[|h| - 1]) && Reached(h[..|h| - 1], n)
    ensures Reached(h, n)
  {
    hide Streak, IsOk;
    var g := h[..|h| - 1];
    var i :| 0 <= i <= |g| && NoOkFrom(g, i) && Streak(g[..i]) >= n;
    assert h[..i] == g[..i];
    assert forall k :: i <= k < |g| ==> h[k] == g[k];
    assert NoOkFrom(h, i);
  }

  /** Over every history of a new relay, pings included: the counter is the streak since the last success or ping; the
      circuit is open exactly if a streak of five was reached since the last success; the relay is in the main tier
      exactly if it has succeeded and no streak of three was reached since. */
  lemma {:induction false} TierFromHistory(added: Time, h: seq<Event>)
    ensures var it := Replay(NewItem(added), h);
            && it.consecutiveFails == Streak(h)
            && it.circuitOpen == Reached(h, 5)
            && it.inMain == (EverOk(h) && !Reached(h, 3))
            && Sound(it)
  {
    if h != [] {
      hide Reached, EverOk, Ema;
      TierFromHistory(added, h[..|h| - 1]);
      EverOkLast(h);
      ReachedLast(h, CIRCUIT_THRESHOLD);
      ReachedLast(h, DEMOTE_THRESHOLD);
      var before := Replay(NewItem(added), h[..|h| - 1]);
      match h[|h| - 1]
      case Recorded(r, at) => RecordKeepsSound(before, r, at);
      case Pinged(rtt) => PingKeepsSound(before, rtt);
    }
  }

  /** Pings hide failures: after a success, three failures with a ping before the last leave the relay in the main
      tier, and three in a row do not. */
  lemma PingHidesFailures(added: Time, at: Time, rtt: real)
    ensures var ok, failed := Recorded(Ok, at), Recorded(Failed, at);
            && Replay(NewItem(added), [ok, failed, failed, Pinged(rtt), failed]).inMain
            && !Replay(NewItem(added), [ok, failed, failed, failed]).inMain
  {
    hide Replay;
    var start, ok, failed := NewItem(added), Recorded(Ok, at), Recorded(Failed, at);
    var once := [ok, failed];
    var twice := once + [failed];
    ReplayLast(start, [], ok);
    ReplayLast(start, [ok], failed);
    ReplayLast(start, once, failed);
    ReplayLast(start, twice, Pinged(rtt));
    ReplayLast(start, twice + [Pinged(rtt)], failed);
    ReplayLast(start, twice, failed);
    NothingReplayed(start);
    assert [] + [ok] == [ok] && [ok] + [failed] == once;
    assert twice + [Pinged(rtt)] + [failed] == [ok, failed, failed, Pinged(rtt), failed];
    assert twice + [failed] == [ok, failed, failed, failed];
  }

  lemma ReplayLast(it: RelayItem, h: seq<Event>, e: Event)
    ensures Replay(it, h + [e]) == After(Replay(it, h), e)
  {
    assert (h + [e])[..|h|] == h;
  }

  lemma NothingReplayed(it: RelayItem)
    ensures Replay(it, []) == it
  {
  }

  // ----- the score -----

  datatype Weights = Weights(
    success: real,
    latency: real,
    dataLimit: real,
    durationLimit: real,
    ttl: real,
    uptime: real)

  const DEFAULT_WEIGHTS := Weights(0.35, 0.20, 0.15, 0.15, 0.10, 0.05)

  /** All weights zero asks for the defaults. */
  function EffectiveWeights(w: Weights): Weights {
    if w == Weights(0.0, 0.0, 0.0, 0.0, 0.0, 0.0) then DEFAULT_WEIGHTS else w
  }

  function MinReal(a: real, b: real): real { if a <= b then a else b }

  function LatencyFactor(rtt: real): real {
    if rtt == 0.0 then 0.5
    else if rtt < 0.050 then 1.0
    else if rtt > 2.0 then 0.1
    else 1.0 - (rtt - 0.050) / 1.950 * 0.9
  }

  function DataFactor(data: int): real {
    if data == 0 then 0.5 else MinReal(data as real / 131072.0, 1.0)
  }

  function DurationFactor(dur: real): real {
    if dur == 0.0 then 0.5 else MinReal(dur / 120.0, 1.0)
  }

  function TtlFactor(remaining: real): real {
    if remaining < 0.0 then 0.0 else if remaining > 600.0 then 1.0 else remaining / 600.0
  }

  function UptimeFactor(d: real): real {
    if d > 300.0 then 1.0 else if d < 10.0 then 0.3 else 0.3 + (d - 10.0) / 290.0 * 0.7
  }

  function Score(w: Weights, it: RelayItem, now: Time): real {
    if it.circuitOpen then 0.0
    else w.success * it.successScore
         + w.latency * LatencyFactor(it.avgRtt)
         + w.dataLimit * DataFactor(it.limitData)
         + w.durationLimit * DurationFactor(it.limitDuration)
         + w.ttl * TtlFactor(it.reservationExpires - now)
         + w.uptime * UptimeFactor(now - it.connectedSince)
  }

  // ----- what the record and the score mean -----

  /** A success or ping takes the success rate three tenths of the way to one, a failure three tenths of the way to
      zero, rate limiting halfway; a demotion sets it back to that of a new relay. */
  lemma SuccessMoves(it: RelayItem, now: Time, rtt: real)
    ensures 1.0 - Record(it, Ok, now).successScore == 0.7 * (1.0 - it.successScore)
    ensures 1.0 - Ping(it, rtt).successScore == 0.7 * (1.0 - it.successScore)
    ensures 2.0 * Record(it, RateLimited, now).successScore == it.successScore
    ensures var after := Record(it, Failed, now);
            after.successScore == if it.inMain && !after.inMain then 0.7
                                  else 0.7 * it.successScore
  {
  }

  /** A new relay is on probation, with its circuit closed, from now on. */
  lemma NewRelay(now: Time)
    ensures var it := NewItem(now);
            && !it.inMain && !it.circuitOpen && it.consecutiveFails == 0 && it.rateLimitHits == 0
            && it.successScore == 0.7 && it.connectedSince == now
  {
  }

  /** Every result, and no ping, counts as activity; rate limiting is counted and changes neither tier nor circuit. */
  lemma ResultsAreActivity(it: RelayItem, r: Result, now: Time, rtt: real)
    ensures Record(it, r, now).lastResult == now && Ping(it, rtt).lastResult == it.lastResult
    ensures Record(it, r, now).connectedSince == Ping(it, rtt).connectedSince == it.connectedSince
    ensures var limited := Record(it, RateLimited, now);
            && limited.rateLimitHits == it.rateLimitHits + 1 && limited.inMain == it.inMain
            && limited.circuitOpen == it.circuitOpen && limited.consecutiveFails == it.consecutiveFails
  {
  }

  /** The average round trip moves three tenths of the way to each new measurement. */
  lemma RttMoves(it: RelayItem, rtt: real)
    ensures rtt - Ping(it, rtt).avgRtt == 0.7 * (rtt - it.avgRtt)
  {
  }

  /** A faster relay is rated higher: best up to 50 ms, worst from 2 s on, straight in between. */
  lemma LatencyFalls(r: real, s: real)
    requires 0.0 < r <= s
    ensures 0.1 <= LatencyFactor(s) <= LatencyFactor(r) <= 1.0
    ensures LatencyFactor(r) == 1.0 <==> r <= 0.050
    ensures LatencyFactor(r) == 0.1 <==> r >= 2.0
    ensures r < s && r < 2.0 && s > 0.050 ==> LatencyFactor(s) < LatencyFactor(r)
    ensures 0.050 <= r && s <= 2.0 ==> LatencyFactor((r + s) / 2.0) == (LatencyFactor(r) + LatencyFactor(s)) / 2.0
  {
  }

  /** More data is rated higher, in proportion, up to 128 KiB. */
  lemma DataRises(a: int, b: int)
    requires 0 < a <= b
    ensures 0.0 < DataFactor(a) <= DataFactor(b) <= 1.0
    ensures DataFactor(b) == 1.0 <==> b >= 131072
    ensures a < b && a < 131072 ==> DataFactor(a) < DataFactor(b)
    ensures a + b <= 131072 ==> DataFactor(a + b) == DataFactor(a) + DataFactor(b)
  {
  }

  /** Longer circuits are rated higher, in proportion, up to two minutes. */
  lemma DurationRises(a: real, b: real)
    requires 0.0 < a <= b
    ensures 0.0 < DurationFactor(a) <= DurationFactor(b) <= 1.0
    ensures DurationFactor(b) == 1.0 <==> b >= 120.0
    ensures a < b && a < 120.0 ==> DurationFactor(a) < DurationFactor(b)
    ensures a + b <= 120.0 ==> DurationFactor(a + b) == DurationFactor(a) + DurationFactor(b)
  {
  }

  /** A reservation that lasts longer is rated higher, in proportion, up to ten minutes; an expired one not at all. */
  lemma TtlRises(a: real, b: real)
    requires a <= b
    ensures 0.0 <= TtlFactor(a) <= TtlFactor(b) <= 1.0
    ensures TtlFactor(a) == 0.0 <==> a <= 0.0
    ensures TtlFactor(a) == 1.0 <==> a >= 600.0
    ensures a < b && a < 600.0 && b > 0.0 ==> TtlFactor(a) < TtlFactor(b)
    ensures 0.0 <= a && a + b <= 600.0 ==> TtlFactor(a + b) == TtlFactor(a) + TtlFactor(b)
  {
  }

  /** A relay that has been up longer is rated higher: three tenths up to ten seconds, one from five minutes on,
      straight in between. */
  lemma UptimeRises(a: real, b: real)
    requires a <= b
    ensures 0.3 <= UptimeFactor(a) <= UptimeFactor(b) <= 1.0
    ensures UptimeFactor(a) == 0.3 <==> a <= 10.0
    ensures UptimeFactor(a) == 1.0 <==> a >= 300.0
    ensures a < b && a < 300.0 && b > 10.0 ==> UptimeFactor(a) < UptimeFactor(b)
    ensures 10.0 <= a && b <= 300.0 ==> UptimeFactor((a + b) / 2.0) == (UptimeFactor(a) + UptimeFactor(b)) / 2.0
  {
  }

  /** What is not known counts for half. */
  lemma UnknownIsHalf()
    ensures LatencyFactor(0.0) == DataFactor(0) == DurationFactor(0.0) == 0.5
  {
  }

  // ----- better relays score higher -----

  /** At least as good in one respect: the same, or both known and not worse. */
  predicate RttNoWorse(a: RelayItem, b: RelayItem) { a.avgRtt == b.avgRtt || 0.0 < a.avgRtt <= b.avgRtt }

  predicate DataNoWorse(a: RelayItem, b: RelayItem) { a.limitData == b.limitData || 0 < b.limitData <= a.limitData }

  predicate DurationNoWorse(a: RelayItem, b: RelayItem) {
    a.limitDuration == b.limitDuration || 0.0 < b.limitDuration <= a.limitDuration
  }

  /** At least as good in every respect that is rated, without naming a score. */
  predicate NoWorse(a: RelayItem, b: RelayItem) {
    && a.successScore >= b.successScore && RttNoWorse(a, b) && DataNoWorse(a, b) && DurationNoWorse(a, b)
    && a.reservationExpires >= b.reservationExpires && a.connectedSince <= b.connectedSince
  }

  /** Better in some respect that has weight, by a difference that is not beyond the ends of its scale. */
  predicate BetterInSome(w: Weights, a: RelayItem, b: RelayItem, now: Time) {
    || (w.success > 0.0 && a.successScore > b.successScore)
    || (w.latency > 0.0 && 0.0 < a.avgRtt < b.avgRtt && a.avgRtt < 2.0 && b.avgRtt > 0.050)
    || (w.dataLimit > 0.0 && 0 < b.limitData < a.limitData && b.limitData < 131072)
    || (w.durationLimit > 0.0 && 0.0 < b.limitDuration < a.limitDuration && b.limitDuration < 120.0)
    || (w.ttl > 0.0 && a.reservationExpires > b.reservationExpires
        && a.reservationExpires > now && b.reservationExpires < now + 600.0)
    || (w.uptime > 0.0 && a.connectedSince < b.connectedSince
        && now - a.connectedSince > 10.0 && now - b.connectedSince < 300.0)
  }

  predicate NonNegative(w: Weights) {
    && w.success >= 0.0 && w.latency >= 0.0 && w.dataLimit >= 0.0
    && w.durationLimit >= 0.0 && w.ttl >= 0.0 && w.uptime >= 0.0
  }

  function Share(w: real, x: real): real { w * x }

  lemma Weighed(w: real, x: real, y: real)
    requires w >= 0.0 && x <= y
    ensures Share(w, x) <= Share(w, y) && (w > 0.0 && x < y ==> Share(w, x) < Share(w, y))
    ensures Share(w, 0.0) == 0.0
  {
  }

  /** The six ratings of a relay. */
  function Ratings(it: RelayItem, now: Time): seq<real> {
    [it.successScore, LatencyFactor(it.avgRtt), DataFactor(it.limitData), DurationFactor(it.limitDuration),
     TtlFactor(it.reservationExpires - now), UptimeFactor(now - it.connectedSince)]
  }

  lemma RatingsRise(a: RelayItem, b: RelayItem, now: Time)
    requires NoWorse(a, b)
    ensures forall i :: 0 <= i < 6 ==> Ratings(a, now)[i] >= Ratings(b, now)[i]
  {
    if a.avgRtt != b.avgRtt {
      LatencyFalls(a.avgRtt, b.avgRtt);
    }
    if a.limitData != b.limitData {
      DataRises(b.limitData, a.limitData);
    }
    if a.limitDuration != b.limitDuration {
      DurationRises(b.limitDuration, a.limitDuration);
    }
    TtlRises(b.reservationExpires - now, a.reservationExpires - now);
    UptimeRises(now - b.connectedSince, now - a.connectedSince);
  }

  /** The rating that is strictly better. */
  lemma SomeRatingRises(w: Weights, a: RelayItem, b: RelayItem, now: Time)
    requires BetterInSome(w, a, b, now)
    ensures var x, y := Ratings(b, now), Ratings(a, now);
            || (w.success > 0.0 && x[0] < y[0]) || (w.latency > 0.0 && x[1] < y[1])
            || (w.dataLimit > 0.0 && x[2] < y[2]) || (w.durationLimit > 0.0 && x[3] < y[3])
            || (w.ttl > 0.0 && x[4] < y[4]) || (w.uptime > 0.0 && x[5] < y[5])
  {
    if w.latency > 0.0 && 0.0 < a.avgRtt < b.avgRtt && a.avgRtt < 2.0 && b.avgRtt > 0.050 {
      LatencyFalls(a.avgRtt, b.avgRtt);
    } else if w.dataLimit > 0.0 && 0 < b.limitData < a.limitData && b.limitData < 131072 {
      DataRises(b.limitData, a.limitData);
    } else if w.durationLimit > 0.0 && 0.0 < b.limitDuration < a.limitDuration && b.limitDuration < 120.0 {
      DurationRises(b.limitDuration, a.limitDuration);
    } else if a.reservationExpires > b.reservationExpires {
      TtlRises(b.reservationExpires - now, a.reservationExpires - now);
    }
    if a.connectedSince < b.connectedSince {
      UptimeRises(now - b.connectedSince, now - a.connectedSince);
    }
  }

  lemma ScoreIsWeighted(w: Weights, it: RelayItem, now: Time)
    requires !it.circuitOpen
    ensures var r := Ratings(it, now);
            Score(w, it, now) == Share(w.success, r[0]) + Share(w.latency, r[1]) + Share(w.dataLimit, r[2])
                                 + Share(w.durationLimit, r[3]) + Share(w.ttl, r[4]) + Share(w.uptime, r[5])
  {
  }

  /** A relay that is no worse scores no lower, and one that is also better in some respect scores higher. */
  lemma BetterScoresHigher(w: Weights, a: RelayItem, b: RelayItem, now: Time)
    requires NonNegative(w) && !a.circuitOpen && !b.circuitOpen && NoWorse(a, b)
    ensures Score(w, a, now) >= Score(w, b, now)
    ensures BetterInSome(w, a, b, now) ==> Score(w, a, now) > Score(w, b, now)
  {
    RatingsRise(a, b, now);
    if BetterInSome(w, a, b, now) {
      SomeRatingRises(w, a, b, now);
    }
    ScoreIsWeighted(w, a, now);
    ScoreIsWeighted(w, b, now);
    hide Ratings, Score, NoWorse, BetterInSome, Share;
    var x, y := Ratings(b, now), Ratings(a, now);
    Weighed(w.success, x[0], y[0]);
    Weighed(w.latency, x[1], y[1]);
    Weighed(w.dataLimit, x[2], y[2]);
    Weighed(w.durationLimit, x[3], y[3]);
    Weighed(w.ttl, x[4], y[4]);
    Weighed(w.uptime, x[5], y[5]);
  }

  /** A relay whose circuit is open never outranks one whose circuit is closed. */
  lemma OpenNeverOutranks(w: Weights, a: RelayItem, b: RelayItem, now: Time)
    requires NonNegative(w) && a.circuitOpen && !b.circuitOpen && Sound(b)
    requires b.avgRtt >= 0.0 && b.limitData >= 0 && b.limitDuration >= 0.0
    ensures Score(w, a, now) <= Score(w, b, now)
  {
    RatingsNatural(b, now);
    ScoreIsWeighted(w, b, now);
    assert Score(w, a, now) == 0.0;
    hide Ratings, Score, Sound, Share;
    var y := Ratings(b, now);
    Weighed(w.success, 0.0, y[0]);
    Weighed(w.latency, 0.0, y[1]);
    Weighed(w.dataLimit, 0.0, y[2]);
    Weighed(w.durationLimit, 0.0, y[3]);
    Weighed(w.ttl, 0.0, y[4]);
    Weighed(w.uptime, 0.0, y[5]);
  }

  lemma RatingsNatural(b: RelayItem, now: Time)
    requires Sound(b) && b.avgRtt >= 0.0 && b.limitData >= 0 && b.limitDuration >= 0.0
    ensures forall i :: 0 <= i < 6 ==> Ratings(b, now)[i] >= 0.0
  {
    if b.avgRtt > 0.0 {
      LatencyFalls(b.avgRtt, b.avgRtt);
    }
    if b.limitData > 0 {
      DataRises(b.limitData, b.limitData);
    }
    if b.limitDuration > 0.0 {
      DurationRises(b.limitDuration, b.limitDuration);
    }
    TtlRises(b.reservationExpires - now, b.reservationExpires - now);
    UptimeRises(now - b.connectedSince, now - b.connectedSince);
  }
}
