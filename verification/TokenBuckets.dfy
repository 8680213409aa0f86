/** The token bucket of `golang.org/x/time/rate`, over exact reals and one clock. */
module TokenBuckets {
  import opened Common

  datatype Limit = Limit(rps: real, burst: int) {
    ghost predicate Refills() { rps > 0.0 }
  }

  datatype TokenBucket = TokenBucket(limit: Limit, tokens: real, last: Time) {

    /** Every bucket the limiter ever stores has at most `burst` tokens and was last touched in the past. */
    ghost predicate Settled(l: Limit, now: Time) {
      limit == l && tokens <= l.burst as real && last <= now
    }

    function TokensAt(t: Time): real {
      var elapsed := if t < last then 0.0 else t - last;
      var gained := if limit.rps <= 0.0 then 0.0 else elapsed * limit.rps;
      if tokens + gained > limit.burst as real then limit.burst as real else tokens + gained
    }

    /** One request: whether it is admitted, and the bucket afterwards. A refusal changes nothing. */
    function Take(t: Time): (bool, TokenBucket) {
      var left := TokensAt(t) - 1.0;
      if 1 <= limit.burst && left >= 0.0 then (true, this.(tokens := left, last := t)) else (false, this)
    }

    function FullAt(now: Time): Time
      requires limit.Refills()
    {
      now + (limit.burst as real - TokensAt(now)) / limit.rps
    }

    ghost predicate FullBy(t: Time) {
      last <= t && tokens + (t - last) * limit.rps >= limit.burst as real
    }
  }

  /** A new bucket is full; the limiter library leaves its clock at the zero time. */
  function NewBucket(l: Limit): TokenBucket {
    TokenBucket(l, l.burst as real, 0.0)
  }

  lemma ProductNonNegative(x: real, y: real)
    requires x >= 0.0 && y >= 0.0
    ensures x * y >= 0.0
  {
  }

  /** Time passing adds at most `rps` tokens a second and never takes one away. */
  lemma RefillBound(b: TokenBucket, s: Time, t: Time)
    requires b.limit.Refills() && b.last <= s <= t
    ensures b.TokensAt(s) <= b.TokensAt(t) <= b.TokensAt(s) + (t - s) * b.limit.rps
    ensures b.TokensAt(t) <= b.limit.burst as real
  {
    assert (t - b.last) * b.limit.rps == (s - b.last) * b.limit.rps + (t - s) * b.limit.rps;
    ProductNonNegative(t - s, b.limit.rps);
  }

  /** A bucket refills at exactly its rate, up to its burst. */
  lemma RefillIsExact(b: TokenBucket, s: Time, t: Time)
    requires b.limit.Refills() && b.last <= s <= t
    ensures var more := b.TokensAt(s) + (t - s) * b.limit.rps;
            b.TokensAt(t) == if more > b.limit.burst as real then b.limit.burst as real else more
  {
    assert (t - b.last) * b.limit.rps == (s - b.last) * b.limit.rps + (t - s) * b.limit.rps;
    ProductNonNegative(t - s, b.limit.rps);
  }

  /** A request is admitted exactly if there is a whole token, and the bucket can hold one. */
  lemma TakeIffToken(b: TokenBucket, t: Time)
    ensures b.Take(t).0 <==> b.limit.burst >= 1 && b.TokensAt(t) >= 1.0
  {
  }

  /** `FullAt` really is an instant from which on the bucket is full. */
  lemma FullAtIsFull(b: TokenBucket, now: Time, t: Time)
    requires b.limit.Refills() && b.last <= now && b.FullAt(now) <= t
    ensures now <= b.FullAt(now)
    ensures b.FullBy(t)
  {
    var r, need := b.limit.rps, b.limit.burst as real - b.TokensAt(now);
    assert need >= 0.0;
    assert need / r * r == need;
    assert need / r >= 0.0;
    ProductNonNegative(t - now - need / r, r);
    assert (t - b.last) * r == (now - b.last) * r + (t - now) * r;
  }

  lemma FullStaysFull(b: TokenBucket, s: Time, t: Time)
    requires b.limit.Refills() && b.FullBy(s) && s <= t
    ensures b.FullBy(t)
    ensures b.TokensAt(t) == b.limit.burst as real
  {
    assert (t - b.last) * b.limit.rps == (s - b.last) * b.limit.rps + (t - s) * b.limit.rps;
    ProductNonNegative(t - s, b.limit.rps);
  }

  /** A full bucket is indistinguishable from a new one: same decision, and the same bucket once it admits. */
  lemma FullIsLikeNew(b: TokenBucket, l: Limit, t: Time)
    requires b.limit == l && l.Refills() && b.TokensAt(t) == l.burst as real
    ensures b.Take(t).0 == NewBucket(l).Take(t).0
    ensures b.Take(t).0 ==> b.Take(t).1 == NewBucket(l).Take(t).1
  {
    NewIsFull(l, t);
  }

  lemma NewIsFull(l: Limit, t: Time)
    requires l.Refills()
    ensures NewBucket(l).TokensAt(t) == l.burst as real
  {
    if t >= 0.0 {
      ProductNonNegative(t, l.rps);
    }
  }

  /** An admitted request costs exactly one token. */
  lemma TakeCostsOne(b: TokenBucket, t: Time)
    requires b.Take(t).0
    ensures b.Take(t).1.TokensAt(t) == b.TokensAt(t) - 1.0
  {
    assert (t - t) * b.limit.rps == 0.0;
  }
}
