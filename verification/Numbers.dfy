// Integer helpers.
module Numbers {
  /** Division truncating toward zero. */
  function Truncated(a: int, b: int): int
    requires b > 0
  {
    if a >= 0 then a / b else -(-a / b)
  }

  function Abs(x: int): int { if x < 0 then -x else x }

  function Min(a: int, b: int): (m: int)
    ensures m == a || m == b
  {
    if b < a then b else a
  }

  function Max(a: int, b: int): (m: int)
    ensures m == a || m == b
  {
    if a < b then b else a
  }

  /** Dividing twice is dividing by the product. */
  lemma DivTwice(v: nat, a: nat, p: nat)
    requires a > 0 && p > 0
    ensures a * p > 0 && v / a / p == v / (a * p)
  {
    var w, c := v / a, v % a;
    var q, r := w / p, w % p;
    assert v == a * w + c;
    assert w == p * q + r;
    Regrouped(a, p, q, r);
    RestBelow(a, p, r, c);
    QuotientIs(v, a * p, q, a * r + c);
  }

  lemma Regrouped(a: nat, p: nat, q: nat, r: nat)
    ensures a * (p * q + r) == q * (a * p) + a * r
  {
    assert a * (p * q + r) == a * (p * q) + a * r;
    assert a * (p * q) == q * (a * p);
  }

  lemma RestBelow(a: nat, p: nat, r: nat, c: nat)
    requires r < p && c < a
    ensures a * r + c < a * p && 0 < a * p
  {
    TimesGrows(r + 1, p, a);
    assert (r + 1) * a == a * r + a;
  }

  lemma QuotientIs(v: nat, d: nat, q: nat, r: nat)
    requires v == q * d + r && r < d
    ensures v / d == q
  {
    var x, y := v / d, v % d;
    assert x * d + y == v && y < d;
    assert (x + 1) * d == x * d + d && (q + 1) * d == q * d + d;
    if x < q { TimesGrows(x + 1, q, d); }
    if q < x { TimesGrows(q + 1, x, d); }
  }

  lemma TimesGrows(a: nat, b: nat, d: nat)
    requires a <= b
    ensures a * d <= b * d
  {
    assert b * d == a * d + (b - a) * d;
  }
}
