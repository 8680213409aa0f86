/** What several modules share. */
module Common {

  datatype Option<+T> = None | Some(value: T)

  /** Instants and durations, in seconds. */
  type Time = real

  function Min(a: nat, b: nat): nat { if a <= b then a else b }

  /** Quotient and remainder are determined by what they are for. */
  lemma QuotientIsUnique(b: nat, m: nat, q: nat, r: nat)
    requires r < m && b == q * m + r
    ensures b / m == q && b % m == r
  {
    var p, s := b / m, b % m;
    assert b == p * m + s && s < m;
    if p < q {
      NextMultiple(p, q, m);
    } else if q < p {
      NextMultiple(q, p, m);
    }
  }

  lemma NextMultiple(p: nat, q: nat, m: nat)
    requires p < q
    ensures q * m >= p * m + m
  {
    assert q * m == p * m + (q - p) * m;
    AtLeast(q - p, m);
  }

  lemma AtLeast(d: nat, m: nat)
    requires d >= 1
    ensures d * m >= m
  {
  }
}
