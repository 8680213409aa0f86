/** LEB128 variable-length integers, and the length-prefixed fields of a signed envelope. */
module Leb128 {
  import opened Common
  import opened Bytes
  import opened Bits

  /** Seven bits a byte, least significant first, the high bit set on all but the last. */
  function Encode(v: nat): (s: seq<byte>)
    ensures |s| > 0
  {
    if v < 128 then [v] else [v % 128 + 128] + Encode(v / 128)
  }

  /** A 64-bit left shift: what leaves the word is lost, and shifting by 64 or more leaves nothing. */
  function Shl64(x: nat, k: nat): nat {
    if k >= 64 then 0 else x * Pow2(k) % Pow2(64)
  }

  function ConsumeFrom(buf: seq<byte>, i: nat, acc: nat): Option<(nat, nat)>
    requires i <= |buf|
    decreases |buf| - i
  {
    if i == |buf| then None
    else
      var v := Or(acc, Shl64(buf[i] % 128, 7 * i));
      if buf[i] < 128 then Some((v, i + 1)) else ConsumeFrom(buf, i + 1, v)
  }

  /** The value at the front of a buffer and how many bytes it took; None when the buffer ends first. */
  function Consume(buf: seq<byte>): Option<(nat, nat)> {
    ConsumeFrom(buf, 0, 0)
  }

  method AppendLEB128(buf: seq<byte>, v: nat) returns (r: seq<byte>)
    ensures r == buf + Encode(v)
  {
    r := buf;
    var left := v;
    while true
      invariant r + Encode(left) == buf + Encode(v)
      decreases left
    {
      var b := left % 128;
      ghost var before := left;
      left := left / 128;
      if left == 0 {
        r := r + [b];
        return;
      }
      assert r + Encode(before) == r + [b + 128] + Encode(left);
      r := r + [b + 128];
    }
  }

  method ConsumeLEB128(buf: seq<byte>) returns (r: Option<(nat, nat)>)
    ensures r == Consume(buf)
  {
    var v, i := 0, 0;
    while i < |buf|
      invariant 0 <= i <= |buf| && v >= 0
      invariant Consume(buf) == ConsumeFrom(buf, i, v)
    {
      v := Or(v, Shl64(buf[i] % 128, 7 * i));
      if buf[i] < 128 {
        return Some((v, i + 1));
      }
      i := i + 1;
    }
    r := None;
  }

  /** Decoding fails exactly on buffers in which every byte announces another. */
  lemma {:induction false} ConsumeFails(buf: seq<byte>, i: nat, acc: nat)
    requires i <= |buf|
    ensures ConsumeFrom(buf, i, acc) == None <==> forall k :: i <= k < |buf| ==> buf[k] >= 128
    decreases |buf| - i
  {
    if i < |buf| && buf[i] >= 128 {
      ConsumeFails(buf, i + 1, Or(acc, Shl64(buf[i] % 128, 7 * i)));
    }
  }

  lemma Pow2Zero()
    ensures Pow2(0) == 1
  {
  }

  /** Seven more bits land above those already read, without loss. */
  lemma ShiftIn(acc: nat, x: nat, w: nat, k: nat)
    requires acc < Pow2(k) && x <= w && w > 0 && w * Pow2(k) < Pow2(64)
    ensures Or(acc, Shl64(x, k)) == acc + x * Pow2(k)
  {
    hide Pow2, Or;
    if k >= 64 {
      Pow2Grows(64, k);
      ProductGrows(1, w, Pow2(k));
    }
    ProductGrows(x, w, Pow2(k));
    SmallMod(x * Pow2(k), Pow2(64));
    OrDisjoint(acc, x, k);
  }

  lemma SmallMod(a: nat, b: nat)
    requires a < b
    ensures a % b == a
  {
  }

  lemma ProductGrows(x: nat, y: nat, p: nat)
    requires x <= y
    ensures x * p <= y * p
  {
  }

  lemma Split128(w: nat, p: nat)
    ensures w * p == w % 128 * p + w / 128 * (128 * p)
  {
    assert w == w % 128 + w / 128 * 128;
  }

  lemma Pow2Seven(k: nat)
    ensures Pow2(k + 7) == 128 * Pow2(k)
  {
    assert Pow2(k + 2) == 4 * Pow2(k) && Pow2(k + 4) == 4 * Pow2(k + 2) && Pow2(k + 6) == 4 * Pow2(k + 4);
  }

  lemma EncodeHead(s: seq<byte>, w: nat, rest: seq<byte>)
    requires s == Encode(w) + rest
    ensures s != [] && s[0] % 128 == w % 128 && (s[0] < 128 <==> w < 128)
    ensures if w < 128 then |Encode(w)| == 1
            else |Encode(w)| == 1 + |Encode(w / 128)| && s[1..] == Encode(w / 128) + rest
  {
  }

  /** Reading the rest of an encoding, some of it already read. */
  lemma {:induction false} ConsumeRest(buf: seq<byte>, i: nat, acc: nat, w: nat, rest: seq<byte>)
    requires i <= |buf| && buf[i..] == Encode(w) + rest
    requires acc < Pow2(7 * i) && acc + w * Pow2(7 * i) < Pow2(64) && (w > 0 || i == 0)
    ensures ConsumeFrom(buf, i, acc) == Some((acc + w * Pow2(7 * i), i + |Encode(w)|))
    decreases w
  {
    hide Or, Shl64, Pow2, Encode;
    var k := 7 * i;
    EncodeHead(buf[i..], w, rest);
    assert buf[i] == buf[i..][0];
    if w == 0 {
      ZeroShifts(acc);
    } else {
      ShiftIn(acc, w % 128, w, k);
      if w >= 128 {
        Pow2Seven(k);
        Split128(w, Pow2(k));
        ProductGrows(w % 128, 127, Pow2(k));
        assert buf[i + 1..] == buf[i..][1..];
        ConsumeRest(buf, i + 1, acc + w % 128 * Pow2(k), w / 128, rest);
      }
    }
  }

  lemma ZeroShifts(acc: nat)
    requires acc < Pow2(0)
    ensures acc == 0 && Or(acc, Shl64(0, 0)) == 0 && 0 * Pow2(0) == 0
  {
    hide Pow2;
    Pow2Zero();
    SmallMod(0, Pow2(64));
  }

  lemma {:induction false} EncodeLength(v: nat, n: nat)
    requires v < Pow2(7 * n) && n > 0
    ensures |Encode(v)| <= n
    decreases n
  {
    if v >= 128 {
      Pow2Seven(7 * (n - 1));
      EncodeLength(v / 128, n - 1);
    }
  }

  /** Decoding an encoded 64-bit value gives it back with its length, at most ten, whatever bytes follow. */
  lemma RoundTrip(v: nat, rest: seq<byte>)
    requires v < Pow2(64)
    ensures Consume(Encode(v) + rest) == Some((v, |Encode(v)|)) && |Encode(v)| <= 10
  {
    hide Pow2, ConsumeFrom, Encode;
    Pow2Zero();
    ConsumeRest(Encode(v) + rest, 0, 0, v, rest);
    Pow2Grows(64, 70);
    EncodeLength(v, 10);
  }

  /** The value of base-128 digits, least significant first. */
  function Digits(s: seq<byte>): nat {
    if s == [] then 0 else s[0] % 128 + 128 * Digits(s[1..])
  }

  /** An encoding is the base-128 digits of its value, all but the last marked, and without a useless last zero. */
  lemma {:induction false} EncodeIsDigits(v: nat)
    ensures Digits(Encode(v)) == v
    ensures var s := Encode(v);
            && (forall i :: 0 <= i < |s| ==> (s[i] >= 128 <==> i < |s| - 1))
            && (|s| > 1 ==> s[|s| - 1] != 0)
  {
    if v >= 128 {
      EncodeIsDigits(v / 128);
      var s := Encode(v);
      assert s[1..] == Encode(v / 128);
      assert forall i :: 1 <= i < |s| ==> s[i] == s[1..][i - 1];
    } else {
      assert Encode(v)[1..] == [];
    }
  }

  // ----- what any buffer decodes to -----

  lemma {:induction false} Pow2Adds(m: nat, n: nat)
    ensures Pow2(m + n) == Pow2(m) * Pow2(n)
  {
    if m > 0 {
      Pow2Adds(m - 1, n);
      Twice(Pow2(m - 1), Pow2(n));
    }
  }

  lemma Twice(p: nat, q: nat)
    ensures 2 * (p * q) == (2 * p) * q
  {
  }

  lemma {:induction false} DigitsSnoc(s: seq<byte>, b: byte)
    ensures Digits(s + [b]) == Digits(s) + b % 128 * Pow2(7 * |s|)
  {
    if s == [] {
      Pow2Zero();
      assert [b][1..] == [] && s + [b] == [b];
    } else {
      var t, d := s[1..], b % 128;
      DigitsSnoc(t, b);
      assert (s + [b])[1..] == t + [b] && (s + [b])[0] == s[0];
      Pow2Seven(7 * |t|);
      hide Pow2;
      assert 7 * |s| == 7 * |t| + 7;
      OneDigitUp(d, Pow2(7 * |t|));
    }
  }

  lemma OneDigitUp(d: nat, p: nat)
    ensures 128 * (d * p) == d * (128 * p)
  {
  }

  lemma {:induction false} DigitsBound(s: seq<byte>)
    ensures Digits(s) < Pow2(7 * |s|)
  {
    if s != [] {
      DigitsBound(s[1..]);
      Pow2Seven(7 * (|s| - 1));
      assert 7 * |s| == 7 * (|s| - 1) + 7;
    }
  }

  lemma {:induction false} OrZero(a: nat)
    ensures Or(a, 0) == a
  {
  }

  /** Scaling: multiples of `p` modulo `p * q`. */
  lemma ScaledRemainder(d: nat, p: nat, q: nat)
    requires p > 0 && q > 0
    ensures d * p % (p * q) == d % q * p
    ensures d % q * p + p <= p * q
  {
    var a, r := d / q, d % q;
    assert d == a * q + r;
    Distribute(a, q, r, p);
    Below(r, q, p);
    QuotientIsUnique(d * p, p * q, a, r * p);
  }

  lemma Distribute(a: nat, q: nat, r: nat, p: nat)
    ensures (a * q + r) * p == a * (p * q) + r * p
  {
  }

  lemma Below(r: nat, q: nat, p: nat)
    requires r < q && p > 0
    ensures r * p + p <= p * q && r * p < p * q
  {
    NextMultiple(r, q, p);
    assert p * q == q * p;
  }

  /** One more byte: or-ing in its shifted bits adds its digit, modulo the width of the word. */
  lemma OneMoreByte(n: nat, k: nat, d: nat)
    requires n < Pow2(k)
    ensures Or(n % Pow2(64), Shl64(d, k)) == (n + d * Pow2(k)) % Pow2(64)
  {
    if k >= 64 {
      BeyondTheWord(n, k, d);
    } else {
      InTheWord(n, k, d);
    }
  }

  lemma BeyondTheWord(n: nat, k: nat, d: nat)
    requires k >= 64
    ensures Or(n % Pow2(64), Shl64(d, k)) == (n + d * Pow2(k)) % Pow2(64)
  {
    hide Pow2, Or;
    Pow2Adds(64, k - 64);
    OrZero(n % Pow2(64));
    MultipleVanishes(n, Pow2(64), d, Pow2(k - 64));
  }

  lemma MultipleVanishes(n: nat, m: nat, d: nat, p: nat)
    requires m > 0
    ensures (n + d * (m * p)) % m == n % m
  {
    var q, r := n / m, n % m;
    assert n == q * m + r;
    Collect(q, m, r, d, p);
    QuotientIsUnique(n + d * (m * p), m, q + d * p, r);
  }

  lemma Collect(q: nat, m: nat, r: nat, d: nat, p: nat)
    ensures q * m + r + d * (m * p) == (q + d * p) * m + r
  {
    assert d * (m * p) == d * p * m;
  }

  lemma InTheWord(n: nat, k: nat, d: nat)
    requires k < 64 && n < Pow2(k)
    ensures Or(n % Pow2(64), Shl64(d, k)) == (n + d * Pow2(k)) % Pow2(64)
  {
    hide Pow2, Or;
    Pow2Adds(k, 64 - k);
    LowPart(n, d, Pow2(k), Pow2(64 - k));
    ScaledRemainder(d, Pow2(k), Pow2(64 - k));
    OrDisjoint(n, d % Pow2(64 - k), k);
  }

  lemma LowPart(n: nat, d: nat, p: nat, q: nat)
    requires n < p && q > 0
    ensures n % (p * q) == n
    ensures (n + d * p) % (p * q) == n + d % q * p
  {
    AtLeast(q, p);
    assert p * q == q * p;
    SmallMod(n, p * q);
    ScaledRemainder(d, p, q);
    var a, r := d / q, d % q;
    assert d == a * q + r;
    Distribute(a, q, r, p);
    QuotientIsUnique(n + d * p, p * q, a, n + r * p);
  }

  /** Where a value ends: at the first byte without a mark. */
  predicate EndsAt(buf: seq<byte>, k: nat) {
    k < |buf| && buf[k] < 128 && forall i :: 0 <= i < k ==> buf[i] >= 128
  }

  lemma {:induction false} ConsumeFromIs(buf: seq<byte>, i: nat, k: nat)
    requires EndsAt(buf, k) && i <= k
    ensures ConsumeFrom(buf, i, Digits(buf[..i]) % Pow2(64)) == Some((Digits(buf[..k + 1]) % Pow2(64), k + 1))
    decreases k - i
  {
    hide Or, Shl64, Pow2, Digits;
    DigitsBound(buf[..i]);
    OneMoreByte(Digits(buf[..i]), 7 * i, buf[i] % 128);
    DigitsSnoc(buf[..i], buf[i]);
    assert buf[..i + 1] == buf[..i] + [buf[i]];
    if i < k {
      ConsumeFromIs(buf, i + 1, k);
    }
  }

  /** Whatever the buffer, minimal or not and however long: decoding gives the digits up to the first unmarked byte,
      modulo 2^64, and how many bytes those were; without such a byte it fails. */
  lemma ConsumeIs(buf: seq<byte>, k: nat)
    requires EndsAt(buf, k)
    ensures Consume(buf) == Some((Digits(buf[..k + 1]) % Pow2(64), k + 1))
  {
    hide Pow2, ConsumeFrom;
    assert Digits(buf[..0]) == 0;
    SmallMod(0, Pow2(64));
    ConsumeFromIs(buf, 0, k);
  }

  // ----- the bytes that are signed -----

  function Field(f: seq<byte>): seq<byte> { Encode(|f|) + f }

  function Fields(fs: seq<seq<byte>>): seq<byte> {
    if fs == [] then [] else Field(fs[0]) + Fields(fs[1..])
  }

  /** What gets signed: domain, payload type and payload, each behind its length. */
  function Unsigned(domain: seq<byte>, payloadType: seq<byte>, payload: seq<byte>): seq<byte> {
    Field(domain) + (Field(payloadType) + Field(payload))
  }

  /** A field can be told from what follows it. */
  lemma FieldIsPrefixFree(f: seq<byte>, g: seq<byte>, r: seq<byte>, s: seq<byte>)
    requires |f| < Pow2(64) && |g| < Pow2(64)
    requires Field(f) + r == Field(g) + s
    ensures f == g && r == s
  {
    hide Consume, Encode, Pow2;
    var whole := Field(f) + r;
    RoundTrip(|f|, f + r);
    RoundTrip(|g|, g + s);
    assert whole == Encode(|f|) + (f + r) == Encode(|g|) + (g + s);
    var n := |Encode(|f|)|;
    assert whole[n..] == f + r == g + s;
    assert (f + r)[..|f|] == f && (f + r)[|f|..] == r;
    assert (g + s)[..|g|] == g && (g + s)[|g|..] == s;
  }

  /** Signing one thing never stands for another: equal bytes come from equal domain, type and payload. */
  lemma UnsignedIsInjective(d1: seq<byte>, t1: seq<byte>, p1: seq<byte>, d2: seq<byte>, t2: seq<byte>, p2: seq<byte>)
    requires |d1| < Pow2(64) && |t1| < Pow2(64) && |p1| < Pow2(64)
    requires |d2| < Pow2(64) && |t2| < Pow2(64) && |p2| < Pow2(64)
    requires Unsigned(d1, t1, p1) == Unsigned(d2, t2, p2)
    ensures d1 == d2 && t1 == t2 && p1 == p2
  {
    hide Field, Pow2;
    FieldIsPrefixFree(d1, d2, Field(t1) + Field(p1), Field(t2) + Field(p2));
    FieldIsPrefixFree(t1, t2, Field(p1), Field(p2));
    assert Field(p1) + [] == Field(p1) && Field(p2) + [] == Field(p2);
    FieldIsPrefixFree(p1, p2, [], []);
  }

  /** Reads a length and as many bytes, and leaves the rest. */
  function ReadField(s: seq<byte>): Option<(seq<byte>, seq<byte>)> {
    match Consume(s)
    case None => None
    case Some((n, k)) => if k + n > |s| then None else Some((s[k..k + n], s[k + n..]))
  }

  lemma ReadsField(f: seq<byte>, rest: seq<byte>)
    requires |f| < Pow2(64)
    ensures ReadField(Field(f) + rest) == Some((f, rest))
  {
    hide Consume, Encode, Pow2;
    var s, k := Field(f) + rest, |Encode(|f|)|;
    RoundTrip(|f|, f + rest);
    assert s == Encode(|f|) + (f + rest);
    assert s[k..k + |f|] == f && s[k + |f|..] == rest;
  }

  /** What is signed reads back as three fields, in this order: the domain, the payload type, the payload. */
  lemma UnsignedReadsBack(domain: seq<byte>, payloadType: seq<byte>, payload: seq<byte>)
    requires |domain| < Pow2(64) && |payloadType| < Pow2(64) && |payload| < Pow2(64)
    ensures var first := ReadField(Unsigned(domain, payloadType, payload));
            && first.Some? && first.value.0 == domain
            && var second := ReadField(first.value.1);
            && second.Some? && second.value.0 == payloadType
            && ReadField(second.value.1) == Some((payload, []))
  {
    hide Field, ReadField, Pow2;
    ReadsField(domain, Field(payloadType) + Field(payload));
    ReadsField(payloadType, Field(payload));
    ReadsField(payload, []);
    assert Field(payload) + [] == Field(payload);
  }

  lemma {:induction false} FieldsSnoc(fs: seq<seq<byte>>, f: seq<byte>)
    ensures Fields(fs + [f]) == Fields(fs) + Field(f)
  {
    if fs == [] {
      assert fs + [f] == [f] && [f][1..] == [];
    } else {
      FieldsSnoc(fs[1..], f);
      assert (fs + [f])[1..] == fs[1..] + [f];
    }
  }

  /** First the size, then the fill at a moving offset: the fill ends exactly at the size. */
  method MakeUnsigned(domain: seq<byte>, payloadType: seq<byte>, payload: seq<byte>) returns (b: array<byte>, s: nat)
    ensures s == b.Length && b[..s] == Unsigned(domain, payloadType, payload)
  {
    hide Encode, Field;
    var fields := [domain, payloadType, payload];
    var size := 0;
    var flen: seq<seq<byte>> := [];
    for i := 0 to |fields|
      invariant |flen| == i && forall k :: 0 <= k < i ==> flen[k] == Encode(|fields[k]|)
      invariant size == |Fields(fields[..i])|
    {
      var l := AppendLEB128([], |fields[i]|);
      flen := flen + [l];
      size := size + |fields[i]| + |l|;
      FieldsTake(fields, i);
    }
    assert fields[..|fields|] == fields;
    b := new byte[size];
    s := 0;
    for i := 0 to |fields|
      invariant s == |Fields(fields[..i])| <= b.Length && b[..s] == Fields(fields[..i])
    {
      FieldsTake(fields, i);
      FieldsGrow(fields, i + 1);
      ghost var done := b[..s];
      CopyInto(b, s, flen[i]);
      assert b[..s + |flen[i]|] == done + flen[i];
      s := s + |flen[i]|;
      CopyInto(b, s, fields[i]);
      assert b[..s + |fields[i]|] == done + flen[i] + fields[i];
      s := s + |fields[i]|;
    }
    ThreeFields(domain, payloadType, payload);
  }

  lemma FieldsTake(fs: seq<seq<byte>>, i: nat)
    requires i < |fs|
    ensures Fields(fs[..i + 1]) == Fields(fs[..i]) + Encode(|fs[i]|) + fs[i]
  {
    FieldsSnoc(fs[..i], fs[i]);
    assert fs[..i + 1] == fs[..i] + [fs[i]];
  }

  lemma {:induction false} FieldsGrow(fs: seq<seq<byte>>, i: nat)
    requires i <= |fs|
    ensures |Fields(fs[..i])| <= |Fields(fs)|
    decreases |fs| - i
  {
    if i < |fs| {
      FieldsTake(fs, i);
      FieldsGrow(fs, i + 1);
    } else {
      assert fs[..i] == fs;
    }
  }

  lemma ThreeFields(a: seq<byte>, b: seq<byte>, c: seq<byte>)
    ensures Fields([a, b, c]) == Unsigned(a, b, c)
  {
    assert [a, b, c][1..] == [b, c] && [b, c][1..] == [c] && [c][1..] == [];
    assert Fields([c]) == Field(c);
    assert Fields([b, c]) == Field(b) + Field(c);
  }
}
