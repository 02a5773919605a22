// Issued-currency amounts as 16-digit decimals and as text: `iou_string` and `nudge_amount`
// (crates/xrpl-node/src/fuzz_mutants.rs) over `amount_mant_exp` (crates/xrpl-ledger/src/ledger/keylet.rs).
module IouAmount {
  import opened Bytes
  import opened Numbers

  const LOW: nat := 1_000_000_000_000_000
  const HIGH: nat := 10_000_000_000_000_000
  const U64: nat := 0x1_0000_0000_0000_0000
  const U128: nat := 0x1_0000_0000_0000_0000_0000_0000_0000_0000

  /** A positive amount in the ledger's canonical form: mantissa × 10^exponent. */
  datatype Amount = Amount(mantissa: nat, exponent: int)

  predicate Canonical(a: Amount) { LOW <= a.mantissa < HIGH }

  function Pow10(n: nat): (p: nat)
    ensures p > 0
  {
    if n == 0 then 1 else 10 * Pow10(n - 1)
  }

  // ---- decimal text ----

  predicate IsDigit(c: char) { '0' <= c <= '9' }

  predicate AllDigits(s: string) { forall i | 0 <= i < |s| :: IsDigit(s[i]) }

  function DigitOf(n: nat): char
    requires n < 10
  {
    (n + '0' as int) as char
  }

  function Decimal(n: nat): (s: string)
    ensures |s| > 0 && AllDigits(s)
  {
    if n < 10 then [DigitOf(n)] else Decimal(n / 10) + [DigitOf(n % 10)]
  }

  function Number(s: string): nat
    requires AllDigits(s)
  {
    if |s| == 0 then 0 else Number(s[..|s| - 1]) * 10 + (s[|s| - 1] as int - '0' as int)
  }

  function Zeros(n: nat): string { seq(n, _ => '0') }

  predicate ZerosFrom(s: string, n: nat) { forall i | n <= i < |s| :: s[i] == '0' }

  /** `s.trim_end_matches('0')`, as the popping loop does it. */
  function TrimEnd(s: string): (r: string)
    ensures |r| <= |s| && r == s[..|r|] && (|r| > 0 ==> r[|r| - 1] != '0')
    ensures forall i | |r| <= i < |s| :: s[i] == '0'
  {
    if |s| > 0 && s[|s| - 1] == '0' then TrimEnd(s[..|s| - 1]) else s
  }

  function TrimStart(s: string, c: char): (r: string)
    ensures |r| <= |s| && r == s[|s| - |r|..] && (|r| > 0 ==> r[0] != c)
    ensures forall i | 0 <= i < |s| - |r| :: s[i] == c
  {
    if |s| > 0 && s[0] == c then TrimStart(s[1..], c) else s
  }

  /** The text before zeros and point are popped. */
  function Spelled(m: nat, e: int): string {
    var digits := Decimal(m);
    if e >= 0 then digits + Zeros(e)
    else
      var point := |digits| + e;
      if point <= 0 then "0." + Zeros(-point) + digits else digits[..point] + "." + digits[point..]
  }

  /** `iou_string`, as a function. */
  function Text(m: nat, e: int): string {
    if m == 0 then "0"
    else
      var s := Spelled(m, e);
      if '.' !in s then s
      else
        var t := TrimEnd(s);
        if |t| > 0 && t[|t| - 1] == '.' then t[..|t| - 1] else t
  }

  /** `iou_string`. */
  method IouString(m: nat, e: int) returns (s: string)
    ensures s == Text(m, e)
  {
    if m == 0 { return "0"; }
    s := Spelled(m, e);
    if '.' in s {
      while |s| > 0 && s[|s| - 1] == '0'
        invariant TrimEnd(s) == TrimEnd(Spelled(m, e))
      {
        s := s[..|s| - 1];
      }
      if |s| > 0 && s[|s| - 1] == '.' { s := s[..|s| - 1]; }
    }
  }

  // ---- reading text ----

  function IndexOf(s: string, c: char): (r: Option<nat>)
    ensures r.Some? ==> r.value < |s| && s[r.value] == c && c !in s[..r.value]
    ensures r.None? ==> c !in s
  {
    if |s| == 0 then None
    else if s[0] == c then Some(0)
    else
      var rest := IndexOf(s[1..], c);
      assert s == [s[0]] + s[1..];
      if rest.None? then None
      else
        assert s[..rest.value + 1] == [s[0]] + s[1..][..rest.value];
        Some(rest.value + 1)
  }

  /** The first `e` or `E`. */
  function ExponentAt(s: string): (r: Option<nat>)
    ensures r.Some? ==> r.value < |s|
    ensures r.None? <==> 'e' !in s && 'E' !in s
  {
    match (IndexOf(s, 'e'), IndexOf(s, 'E'))
    case (None, None) => None
    case (Some(i), None) => Some(i)
    case (None, Some(j)) => Some(j)
    case (Some(i), Some(j)) => Some(if i < j then i else j)
  }

  function ParseUnsigned(s: string, limit: nat): Option<nat> {
    var digits := if |s| > 0 && s[0] == '+' then s[1..] else s;
    if |digits| == 0 || !AllDigits(digits) || Number(digits) >= limit then None else Some(Number(digits))
  }

  function ParseI32(s: string): Option<int> {
    if |s| > 0 && s[0] == '-' then
      if |s| == 1 || !AllDigits(s[1..]) || Number(s[1..]) > 0x8000_0000 then None
      else
        var n: int := Number(s[1..]);
        Some(-n)
    else
      var n :- ParseUnsigned(s, 0x8000_0000);
      Some(n)
  }

  /** The digits around the first point, and how many stand after it. */
  function Unpointed(mant: string): (string, nat) {
    match IndexOf(mant, '.')
    case Some(point) => (mant[..point] + mant[point + 1..], |mant| - point - 1)
    case None => (mant, 0)
  }

  /** The first sixteen significant digits, and how many more there are. */
  function Significant(digits: string): (string, nat) {
    var kept := TrimStart(digits, '0');
    if |kept| > 16 then (kept[..16], |kept| - 16) else (kept, 0)
  }

  /** Digits around a point, and the exponent that goes with them. */
  function Scientific(mant: string, exp: int): Option<(nat, int)> {
    var (digits, frac) := Unpointed(mant);
    var (cut, shift) := Significant(digits);
    if |cut| == 0 then Some((0, exp - frac + shift))
    else
      var m :- ParseUnsigned(cut, U128);
      Some((m, exp - frac + shift))
  }

  /** `amount_mant_exp` on an issued amount's value. A sign is dropped, and of a long run of
      digits the first sixteen are kept. */
  function MantExp(text: string): Option<(nat, int)> {
    var s := TrimStart(text, '-');
    var at := ExponentAt(s);
    var exp :- if at.Some? then ParseI32(s[at.value + 1..]) else Some(0);
    Scientific(if at.Some? then s[..at.value] else s, exp)
  }

  // ---- normalising ----

  function Raised(m: nat, e: int): Amount
    requires m > 0
    decreases if m < LOW then LOW - m else 0
  {
    if m < LOW then Raised(m * 10, e - 1) else Amount(m, e)
  }

  function Lowered(m: nat, e: int): Amount {
    if m >= HIGH then Lowered(m / 10, e + 1) else Amount(m, e)
  }

  /** Sixteen digits: exact for a mantissa that has no more, cut off below otherwise. */
  function Normal(m: nat, e: int): Amount
    requires m > 0
  {
    if m < LOW then Raised(m, e) else Lowered(m, e)
  }

  lemma {:induction false} RaisedCanonical(m: nat, e: int)
    requires 0 < m < HIGH
    ensures Canonical(Raised(m, e))
    decreases if m < LOW then LOW - m else 0
  {
    if m < LOW { RaisedCanonical(m * 10, e - 1); }
  }

  lemma {:induction false} LoweredCanonical(m: nat, e: int)
    requires LOW <= m
    ensures Canonical(Lowered(m, e))
  {
    if m >= HIGH { LoweredCanonical(m / 10, e + 1); }
  }

  lemma NormalCanonical(m: nat, e: int)
    requires m > 0
    ensures Canonical(Normal(m, e))
  {
    if m < LOW { RaisedCanonical(m, e); } else { LoweredCanonical(m, e); }
  }

  /** The two loops: multiply up to sixteen digits, then cut down to them. */
  method Normalise(mant: nat, exp: int) returns (m: nat, e: int)
    requires mant > 0
    ensures Amount(m, e) == Normal(mant, exp)
  {
    m, e := mant, exp;
    while m < LOW
      invariant m > 0 && Raised(m, e) == Raised(mant, exp)
      invariant mant >= LOW ==> m == mant && e == exp
      invariant mant < LOW ==> m < HIGH
    {
      m := m * 10;
      e := e - 1;
    }
    while m >= HIGH
      invariant Lowered(m, e) == Normal(mant, exp)
    {
      m := m / 10;
      e := e + 1;
    }
  }

  lemma {:induction false} NormalScaled(m: nat, e: int, k: nat)
    requires m > 0 && LOW <= m * Pow10(k) < HIGH
    ensures Normal(m, e) == Raised(m, e) == Amount(m * Pow10(k), e - k)
    decreases k
  {
    if k > 0 {
      assert m * Pow10(k) == m * 10 * Pow10(k - 1);
      assert m < LOW by { Grows(10 * m, Pow10(k - 1)); }
      NormalScaled(m * 10, e - 1, k - 1);
    }
  }

  lemma Grows(x: nat, p: nat)
    requires p > 0
    ensures x * p >= x
  {
    assert x * p == x + x * (p - 1);
  }

  // ---- reading back what was written ----

  lemma {:induction false} DecimalNumber(n: nat)
    ensures Number(Decimal(n)) == n
    ensures n > 0 ==> Decimal(n)[0] != '0'
  {
    if n >= 10 {
      DecimalNumber(n / 10);
      assert Decimal(n)[..|Decimal(n)| - 1] == Decimal(n / 10);
    } else {
      assert Decimal(n)[..0] == [];
    }
  }

  lemma {:induction false} DecimalLength(n: nat, d: nat)
    requires d > 0 && Pow10(d - 1) <= n < Pow10(d)
    ensures |Decimal(n)| == d
  {
    if d > 1 {
      assert Pow10(d) == 10 * Pow10(d - 1) && Pow10(d - 1) == 10 * Pow10(d - 2);
      DecimalLength(n / 10, d - 1);
      assert n >= 10;
    } else {
      assert Pow10(1) == 10 * Pow10(0);
    }
  }

  lemma SixteenDigits(m: nat)
    requires LOW <= m < HIGH
    ensures |Decimal(m)| == 16
  {
    assert Pow10(5) == 100_000;
    assert Pow10(10) == 10_000_000_000 by { Pow10Add(5, 5); }
    assert Pow10(15) == LOW by { Pow10Add(10, 5); }
    assert Pow10(16) == HIGH;
    DecimalLength(m, 16);
  }

  lemma {:induction false} Pow10Add(a: nat, b: nat)
    ensures Pow10(a + b) == Pow10(a) * Pow10(b)
  {
    if a > 0 {
      Pow10Add(a - 1, b);
      assert 10 * (Pow10(a - 1) * Pow10(b)) == 10 * Pow10(a - 1) * Pow10(b);
    }
  }

  lemma Shift(x: nat, p: nat)
    ensures x * (10 * p) == 10 * (x * p)
  {
  }

  /** Cutting k zeros off the end divides by 10^k exactly. */
  lemma {:induction false} TrailingZeros(s: string, n: nat)
    requires AllDigits(s) && n <= |s| && ZerosFrom(s, n)
    ensures AllDigits(s[..n]) && Number(s[..n]) * Pow10(|s| - n) == Number(s)
    decreases |s|
  {
    if n == |s| {
      assert s[..n] == s;
    } else {
      var front := s[..|s| - 1];
      TrailingZeros(front, n);
      assert front[..n] == s[..n];
      Shift(Number(s[..n]), Pow10(|s| - n - 1));
    }
  }

  lemma {:induction false} IndexIs(s: string, c: char, i: nat)
    requires i < |s| && s[i] == c && forall j | 0 <= j < i :: s[j] != c
    ensures IndexOf(s, c) == Some(i)
  {
    if i > 0 { IndexIs(s[1..], c, i - 1); }
  }

  function Joined(whole: string, fraction: string, pointed: bool): string {
    if pointed then whole + "." + fraction else whole
  }

  lemma JoinedParts(whole: string, fraction: string, pointed: bool)
    requires AllDigits(whole) && AllDigits(fraction) && (!pointed ==> fraction == "")
    ensures Unpointed(Joined(whole, fraction, pointed)) == (whole + fraction, |fraction|)
  {
    var s := Joined(whole, fraction, pointed);
    if pointed {
      assert forall j | 0 <= j < |whole| :: IsDigit(s[j]);
      IndexIs(s, '.', |whole|);
      assert s[..|whole|] == whole && s[|whole| + 1..] == fraction;
    } else {
      assert forall j | 0 <= j < |s| :: IsDigit(s[j]);
      assert whole + fraction == whole;
    }
  }

  lemma NoSignNoExponent(s: string)
    requires |s| > 0 && IsDigit(s[0]) && forall i | 0 <= i < |s| :: s[i] == '.' || IsDigit(s[i])
    ensures TrimStart(s, '-') == s && ExponentAt(s) == None
  {
    assert 'e' !in s && 'E' !in s;
  }

  lemma JoinedPlain(whole: string, fraction: string, pointed: bool)
    requires AllDigits(whole) && AllDigits(fraction) && |whole| > 0
    ensures var s := Joined(whole, fraction, pointed); TrimStart(s, '-') == s && ExponentAt(s) == None
  {
    var s := Joined(whole, fraction, pointed);
    assert IsDigit(whole[0]) && s[0] == whole[0];
    NoSignNoExponent(s);
  }

  lemma ParsePlain(digits: string)
    requires |digits| > 0 && AllDigits(digits) && Number(digits) < U128
    ensures ParseUnsigned(digits, U128) == Some(Number(digits))
  {
    assert IsDigit(digits[0]) && digits[0] != '+';
  }

  /** Text of plain digits and at most one point. */
  lemma PlainText(whole: string, fraction: string, pointed: bool, cut: string, shift: nat)
    requires AllDigits(whole) && AllDigits(fraction) && |whole| > 0 && (!pointed ==> fraction == "")
    requires Significant(whole + fraction) == (cut, shift) && |cut| > 0 && AllDigits(cut) && Number(cut) < U128
    ensures MantExp(Joined(whole, fraction, pointed)) == Some((Number(cut), shift - |fraction|))
  {
    hide TrimStart, ExponentAt, Unpointed, Significant, Number, ParseUnsigned, Joined, AllDigits;
    JoinedPlain(whole, fraction, pointed);
    JoinedParts(whole, fraction, pointed);
    ParsePlain(cut);
  }

  /** What is left of a trimmed fraction. */
  lemma TrimmedFraction(whole: string, fraction: string)
    requires AllDigits(whole) && AllDigits(fraction) && |whole| > 0
    ensures var f := TrimEnd(fraction);
            AllDigits(f) && |f| <= |fraction| && TrimEnd(whole + "." + fraction) == whole + "." + f
  {
    TrimEndAppend(whole + ".", fraction);
  }

  lemma {:induction false} TrimEndAppend(a: string, b: string)
    requires |a| > 0 && a[|a| - 1] != '0'
    ensures TrimEnd(a + b) == a + TrimEnd(b)
    decreases |b|
  {
    if |b| == 0 {
      assert a + b == a;
    } else if b[|b| - 1] == '0' {
      TrimEndAppend(a, b[..|b| - 1]);
      assert (a + b)[..|a + b| - 1] == a + b[..|b| - 1];
    }
  }

  lemma {:induction false} TrimStartZeros(z: string, s: string)
    requires ZerosFrom(z, 0) && |s| > 0 && s[0] != '0'
    ensures TrimStart(z + s, '0') == s
  {
    if |z| > 0 {
      TrimStartZeros(z[1..], s);
      assert (z + s)[1..] == z[1..] + s;
    } else {
      assert z + s == s;
    }
  }

  /** The text of pointed digits: the fraction loses its zeros, and the point if nothing is left. */
  lemma TextOfPointed(m: nat, e: int, whole: string, fraction: string)
    requires m > 0 && Spelled(m, e) == whole + "." + fraction && AllDigits(whole) && AllDigits(fraction) && |whole| > 0
    ensures Text(m, e) == Joined(whole, TrimEnd(fraction), |TrimEnd(fraction)| > 0)
  {
    var f := TrimEnd(fraction);
    TrimmedFraction(whole, fraction);
    HasPoint(whole, fraction);
    if |f| > 0 { TrimEndLast(fraction); }
    hide AllDigits, TrimEnd, Spelled;
    var t := whole + "." + f;
    if |f| == 0 {
      assert t[..|t| - 1] == whole && t == whole + ".";
    } else {
      assert t[|t| - 1] == f[|f| - 1];
    }
  }

  lemma HasPoint(whole: string, fraction: string)
    ensures '.' in whole + "." + fraction
  {
    assert (whole + "." + fraction)[|whole|] == '.';
  }

  lemma TrimEndLast(s: string)
    requires AllDigits(s) && |TrimEnd(s)| > 0
    ensures TrimEnd(s)[|TrimEnd(s)| - 1] != '.' && TrimEnd(s)[|TrimEnd(s)| - 1] != '0'
  {
    if s[|s| - 1] == '0' { TrimEndLast(s[..|s| - 1]); }
  }

  // ---- the round trip ----

  /** The text of a canonical amount reads as the mantissa without its last k zeros. */
  ghost predicate ReadsScaled(m: nat, e: int, k: nat) {
    MantExp(Text(m, e)).Some?
    && var (x, y) := MantExp(Text(m, e)).value; x > 0 && x * Pow10(k) == m && y == e + k
  }

  lemma DigitsFacts(m: nat)
    requires LOW <= m < HIGH
    ensures var d := Decimal(m); |d| == 16 && d[0] != '0' && Number(d) == m
  {
    SixteenDigits(m);
    DecimalNumber(m);
  }

  lemma WholeText(m: nat, e: int)
    requires LOW <= m < HIGH && e >= 0
    ensures Text(m, e) == Decimal(m) + Zeros(e) && AllDigits(Decimal(m) + Zeros(e))
  {
    var s := Decimal(m) + Zeros(e);
    assert AllDigits(s);
    assert '.' !in s by { assert forall i | 0 <= i < |s| :: IsDigit(s[i]); }
  }

  lemma SignificantOf(d: string, z: string)
    requires |d| == 16 && d[0] != '0'
    ensures Significant(d + z) == (d, |z|)
  {
    var s := d + z;
    assert s[0] == d[0];
    assert TrimStart(s, '0') == s;
    assert s[..16] == d;
    if |z| == 0 { assert s == d; }
  }

  lemma ReadBare(text: string, bare: string)
    requires TrimStart(text, '-') == bare && ExponentAt(bare) == None
    ensures MantExp(text) == Scientific(bare, 0)
  {
    hide TrimStart, ExponentAt, Scientific, ParseI32;
  }

  lemma Unsplit(s: string)
    requires AllDigits(s)
    ensures Unpointed(s) == (s, 0)
  {
    assert '.' !in s;
  }

  lemma ReadDigits(s: string, cut: string, shift: nat)
    requires AllDigits(s) && |s| > 0 && Significant(s) == (cut, shift) && |cut| > 0 && AllDigits(cut) && Number(cut) < U128
    ensures MantExp(s) == Some((Number(cut), shift))
  {
    assert IsDigit(s[0]);
    NoSignNoExponent(s);
    Unsplit(s);
    ParsePlain(cut);
    hide AllDigits, Significant, TrimStart, MantExp, Number, Unpointed, ExponentAt, ParseUnsigned;
    ReadBare(s, s);
  }

  lemma ReadsWhole(m: nat, e: int)
    requires LOW <= m < HIGH && e >= 0
    ensures ReadsScaled(m, e, 0)
  {
    WholeText(m, e);
    DigitsFacts(m);
    hide MantExp, Text, Significant, Decimal, Number;
    assert m * Pow10(0) == m && |Zeros(e)| == e;
    SignificantOf(Decimal(m), Zeros(e));
    hide AllDigits, Zeros, Pow10;
    ReadDigits(Decimal(m) + Zeros(e), Decimal(m), e);
  }

  /** A number with k trailing zeros cut from its sixteen digits. */
  lemma CutDigits(m: nat, n: nat)
    requires LOW <= m < HIGH && n <= 16 && ZerosFrom(Decimal(m), n)
    ensures 0 < n <= |Decimal(m)| == 16
    ensures var cut := Decimal(m)[..n]; AllDigits(cut) && cut[0] != '0' && 0 < Number(cut) < U128 && Number(cut) * Pow10(16 - n) == m
  {
    DigitsFacts(m);
    TrailingZeros(Decimal(m), n);
    Grows(Number(Decimal(m)[..n]), Pow10(16 - n));
  }

  lemma SignificantCut(z: string, cut: string)
    requires ZerosFrom(z, 0) && 0 < |cut| <= 16 && cut[0] != '0'
    ensures Significant(z + cut) == (cut, 0)
  {
    TrimStartZeros(z, cut);
  }

  /** A pointed text whose digits, after zeros z, are the first n of the mantissa's. */
  lemma ReadsCut(m: nat, e: int, whole: string, f: string, z: string, n: nat)
    requires LOW <= m < HIGH && n <= 16 && ZerosFrom(Decimal(m), n)
    requires AllDigits(whole) && AllDigits(f) && |whole| > 0 && Text(m, e) == Joined(whole, f, |f| > 0)
    requires n <= |Decimal(m)| && whole + f == z + Decimal(m)[..n] && |f| == n - 16 - e
    requires ZerosFrom(z, 0)
    ensures MantExp(Text(m, e)) == Some((Number(Decimal(m)[..n]), e + (16 - n)))
    ensures Number(Decimal(m)[..n]) > 0 && Number(Decimal(m)[..n]) * Pow10(16 - n) == m
  {
    hide *;
    CutDigits(m, n);
    SignificantCut(z, Decimal(m)[..n]);
    if |f| == 0 { EmptyFraction(f); }
    PlainText(whole, f, |f| > 0, Decimal(m)[..n], 0);
  }

  lemma EmptyFraction(f: string)
    requires |f| == 0
    ensures f == ""
  {
  }

  /** Where the digits of a pointed text end: the zeros of a trimmed tail. */
  lemma TailZeros(d: string, point: nat)
    requires point <= |d|
    ensures var f := TrimEnd(d[point..]);
            point + |f| <= |d| && ZerosFrom(d, point + |f|) && d[..point] + f == "" + d[..point + |f|]
  {
    var fraction := d[point..];
    var f := TrimEnd(fraction);
    assert forall i | point + |f| <= i < |d| :: d[i] == fraction[i - point];
    assert f == fraction[..|f|] == d[point..point + |f|];
  }

  lemma PointedSpelled(m: nat, e: int)
    requires |Decimal(m)| == 16 && -16 < e < 0
    ensures Spelled(m, e) == Decimal(m)[..16 + e] + "." + Decimal(m)[16 + e..]
  {
  }

  lemma PointedText(m: nat, e: int)
    requires LOW <= m < HIGH && -16 < e < 0 && |Decimal(m)| == 16
    ensures var d, f := Decimal(m), TrimEnd(Decimal(m)[16 + e..]);
            AllDigits(d[..16 + e]) && AllDigits(f) && Text(m, e) == Joined(d[..16 + e], f, |f| > 0)
  {
    DigitsFacts(m);
    PointedSpelled(m, e);
    TextOfPointed(m, e, Decimal(m)[..16 + e], Decimal(m)[16 + e..]);
  }

  lemma ReadsPointed(m: nat, e: int) returns (k: nat)
    requires LOW <= m < HIGH && -16 < e < 0
    ensures ReadsScaled(m, e, k)
  {
    hide MantExp, Text, Decimal, Number, Pow10, TrimEnd, Joined, AllDigits, ZerosFrom;
    DigitsFacts(m);
    var d, point := Decimal(m), 16 + e;
    var f := TrimEnd(d[point..]);
    PointedText(m, e);
    TailZeros(d, point);
    k := 16 - (point + |f|);
    NoZeros();
    ReadsCut(m, e, d[..point], f, "", point + |f|);
  }

  lemma NoZeros()
    ensures ZerosFrom("", 0)
  {
  }

  lemma TrimmedDigits(d: string)
    requires |d| > 0 && d[0] != '0' && AllDigits(d)
    ensures var n := |TrimEnd(d)|; 0 < n <= |d| && ZerosFrom(d, n) && TrimEnd(d) == d[..n] && AllDigits(d[..n])
  {
    assert d[0] == '0' || !ZerosFrom(d, 0);
  }

  lemma LeadingZerosText(d: string, z: string, n: nat)
    requires 0 < n <= |d| && AllDigits(d[..n]) && ZerosFrom(z, 0)
    ensures AllDigits("0") && AllDigits(z + d[..n]) && ZerosFrom("0" + z, 0) && "0" + (z + d[..n]) == ("0" + z) + d[..n]
  {
    assert forall i | 0 <= i < |z| :: IsDigit(z[i]);
  }

  lemma FractionText(m: nat, e: int)
    requires LOW <= m < HIGH && e <= -16 && |Decimal(m)| == 16
    ensures var z := Zeros(-16 - e);
            ZerosFrom(z, 0) && AllDigits(z + Decimal(m)) && |z| == -16 - e
            && Text(m, e) == Joined("0", TrimEnd(z + Decimal(m)), |TrimEnd(z + Decimal(m))| > 0)
  {
    var d, z := Decimal(m), Zeros(-16 - e);
    assert "0." + z + d == "0" + "." + (z + d);
    TextOfPointed(m, e, "0", z + d);
  }

  lemma ReadsFraction(m: nat, e: int) returns (k: nat)
    requires LOW <= m < HIGH && e <= -16
    ensures ReadsScaled(m, e, k)
  {
    hide MantExp, Text, Decimal, Number, Pow10, TrimEnd, Joined, AllDigits, ZerosFrom;
    DigitsFacts(m);
    var d, z := Decimal(m), Zeros(-16 - e);
    var n := |TrimEnd(d)|;
    FractionText(m, e);
    TrimmedDigits(d);
    TrimEndKeepsLead(z, d);
    LeadingZerosText(d, z, n);
    k := 16 - n;
    ReadsCut(m, e, "0", z + d[..n], "0" + z, n);
  }

  lemma {:induction false} TrimEndKeepsLead(a: string, b: string)
    requires |b| > 0 && b[0] != '0'
    ensures TrimEnd(a + b) == a + TrimEnd(b)
    decreases |b|
  {
    if b[|b| - 1] == '0' {
      TrimEndKeepsLead(a, b[..|b| - 1]);
      assert (a + b)[..|a + b| - 1] == a + b[..|b| - 1];
    }
  }

  /** `iou_string` loses nothing: for every canonical amount, reading its text and normalising
      gives the same mantissa and exponent back, and the text denotes exactly that amount. */
  lemma TextRoundTrip(m: nat, e: int) returns (k: nat)
    requires LOW <= m < HIGH
    ensures ReadsScaled(m, e, k)
    ensures MantExp(Text(m, e)).Some? && MantExp(Text(m, e)).value.0 > 0
    ensures Normal(MantExp(Text(m, e)).value.0, MantExp(Text(m, e)).value.1) == Amount(m, e)
  {
    if e >= 0 {
      ReadsWhole(m, e);
      k := 0;
    } else if e > -16 {
      k := ReadsPointed(m, e);
    } else {
      k := ReadsFraction(m, e);
    }
    var (x, y) := MantExp(Text(m, e)).value;
    hide MantExp, Text;
    NormalScaled(x, y, k);
  }

  lemma JoinedShort(whole: string, fraction: string)
    requires AllDigits(whole) && AllDigits(fraction) && |whole| > 0
    ensures var f := TrimEnd(fraction);
            var s := Joined(whole, f, |f| > 0);
            |s| > 0 && ('.' in s ==> IsDigit(s[|s| - 1]) && s[|s| - 1] != '0')
  {
    var f := TrimEnd(fraction);
    if |f| > 0 {
      assert Joined(whole, f, true)[|whole| + 1 + |f| - 1] == f[|f| - 1];
      assert f[|f| - 1] == fraction[|f| - 1];
    } else {
      assert forall i | 0 <= i < |whole| :: IsDigit(whole[i]);
    }
  }

  lemma NoPoint(s: string)
    requires AllDigits(s)
    ensures '.' !in s
  {
  }

  /** A text that ends in a digit other than zero, if it has a point. */
  predicate Short(s: string) {
    |s| > 0 && ('.' in s ==> IsDigit(s[|s| - 1]) && s[|s| - 1] != '0')
  }

  lemma WholeIsShort(m: nat, e: int)
    requires LOW <= m < HIGH && e >= 0
    ensures Short(Text(m, e))
  {
    hide Text, Zeros, Decimal;
    DigitsFacts(m);
    WholeText(m, e);
    NoPoint(Text(m, e));
  }

  lemma PointedIsShort(m: nat, e: int)
    requires LOW <= m < HIGH && -16 < e < 0
    ensures Short(Text(m, e))
  {
    hide Text, Joined, Decimal, Zeros, TrimEnd;
    DigitsFacts(m);
    PointedText(m, e);
    JoinedShort(Decimal(m)[..16 + e], Decimal(m)[16 + e..]);
  }

  lemma FractionIsShort(m: nat, e: int)
    requires LOW <= m < HIGH && e <= -16
    ensures Short(Text(m, e))
  {
    hide Text, Joined, Decimal, TrimEnd;
    DigitsFacts(m);
    FractionText(m, e);
    JoinedShort("0", Zeros(-16 - e) + Decimal(m));
  }

  /** After a point the text ends in a digit other than zero. */
  lemma TextIsShort(m: nat, e: int)
    requires LOW <= m < HIGH
    ensures var s := Text(m, e); |s| > 0 && ('.' in s ==> IsDigit(s[|s| - 1]) && s[|s| - 1] != '0')
  {
    hide Text;
    if e >= 0 {
      WholeIsShort(m, e);
    } else if e > -16 {
      PointedIsShort(m, e);
    } else {
      FractionIsShort(m, e);
    }
  }

  // ---- nudging ----

  datatype Nudge = Ulp(d: int) | Ppm(p: int) | Halve | Double | Zero

  function Up(a: Amount): Amount {
    if a.mantissa + 1 >= HIGH then Amount((a.mantissa + 1) / 10, a.exponent + 1) else Amount(a.mantissa + 1, a.exponent)
  }

  function Down(a: Amount): Amount
    requires a.mantissa > 0
  {
    if a.mantissa - 1 < LOW then Amount(HIGH - 1, a.exponent - 1) else Amount(a.mantissa - 1, a.exponent)
  }

  function Scaled(m: nat, p: int): nat {
    var n := m + Truncated(m * p, 1_000_000);
    if n < 1 then 1 else n
  }

  function Nudged(a: Amount, how: Nudge): Amount
    requires Canonical(a) && !how.Zero?
  {
    match how
    case Ulp(d) => if d > 0 then Up(a) else Down(a)
    case Ppm(p) => Normal(Scaled(a.mantissa, p), a.exponent)
    case Halve => Raised(a.mantissa / 2, a.exponent)
    case Double => Lowered(a.mantissa * 2, a.exponent)
  }

  /** The arithmetic of `nudge_amount` on a canonical amount. */
  method NudgeAmount(a: Amount, how: Nudge) returns (m: nat, e: int)
    requires Canonical(a) && !how.Zero?
    ensures Amount(m, e) == Nudged(a, how)
  {
    m, e := a.mantissa, a.exponent;
    match how {
      case Ulp(d) =>
        if d > 0 {
          m := m + 1;
          if m >= HIGH { m := m / 10; e := e + 1; }
        } else {
          m := m - 1;
          if m < LOW { m := HIGH - 1; e := e - 1; }
        }
      case Ppm(p) =>
        m := Scaled(m, p);
        m, e := NormaliseDownUp(m, e);
      case Halve =>
        m := m / 2;
        while m < LOW
          invariant m > 0 && Raised(m, e) == Raised(a.mantissa / 2, a.exponent)
          decreases LOW - m
        {
          m := m * 10;
          e := e - 1;
        }
      case Double =>
        m := m * 2;
        while m >= HIGH
          invariant Lowered(m, e) == Lowered(a.mantissa * 2, a.exponent)
        {
          m := m / 10;
          e := e + 1;
        }
    }
  }

  /** What a nudge makes of a value's text; None where it gives no mutant. */
  ghost function NudgedText(value: string, how: Nudge): Option<string> {
    if how.Zero? then Some("0")
    else
      match MantExp(value)
      case None => None
      case Some((mant, exp)) =>
        if mant == 0 then None
        else
          NormalCanonical(mant, exp);
          var a := Nudged(Normal(mant, exp), how);
          Some(Text(a.mantissa, a.exponent))
  }

  /** `nudge_amount` on an issued amount's value. */
  method NudgeValue(value: string, how: Nudge) returns (r: Option<string>)
    ensures r == NudgedText(value, how)
  {
    hide MantExp, Text, Normal, Nudged;
    if how.Zero? { return Some("0"); }
    var read := MantExp(value);
    if read.None? || read.value.0 == 0 { return None; }
    NormalCanonical(read.value.0, read.value.1);
    var m, e := Normalise(read.value.0, read.value.1);
    m, e := NudgeAmount(Amount(m, e), how);
    var s := IouString(m, e);
    r := Some(s);
  }

  /** The two loops the other way about give the same amount. */
  method NormaliseDownUp(mant: nat, exp: int) returns (m: nat, e: int)
    requires mant > 0
    ensures Amount(m, e) == Normal(mant, exp)
  {
    m, e := mant, exp;
    while m >= HIGH
      invariant Lowered(m, e) == Lowered(mant, exp)
      invariant mant >= LOW ==> m >= LOW
      invariant mant < LOW ==> m == mant && e == exp
    {
      m := m / 10;
      e := e + 1;
    }
    while m < LOW
      invariant m > 0 && (mant < LOW ==> Raised(m, e) == Raised(mant, exp))
      invariant mant >= LOW ==> Amount(m, e) == Lowered(mant, exp)
      decreases LOW - m
    {
      m := m * 10;
      e := e - 1;
    }
  }

  /** Every nudge but the one to zero stays canonical. */
  lemma NudgedCanonical(a: Amount, how: Nudge)
    requires Canonical(a) && !how.Zero?
    ensures Canonical(Nudged(a, how))
  {
    match how {
      case Ulp(d) =>
      case Ppm(p) => NormalCanonical(Scaled(a.mantissa, p), a.exponent);
      case Halve => RaisedCanonical(a.mantissa / 2, a.exponent);
      case Double => LoweredCanonical(a.mantissa * 2, a.exponent);
    }
  }

  /** One ulp up and one down undo each other. */
  lemma UlpsInverse(a: Amount)
    requires Canonical(a)
    ensures Canonical(Up(a)) && Canonical(Down(a)) && Down(Up(a)) == a && Up(Down(a)) == a
  {
  }

  /** a < b as numbers: mantissas compared at the lower of the two exponents. */
  predicate Below(a: Amount, b: Amount) {
    if a.exponent <= b.exponent then a.mantissa < b.mantissa * Pow10(b.exponent - a.exponent)
    else a.mantissa * Pow10(a.exponent - b.exponent) < b.mantissa
  }

  lemma BelowIsLexicographic(a: Amount, b: Amount)
    requires Canonical(a) && Canonical(b)
    ensures Below(a, b) <==> a.exponent < b.exponent || (a.exponent == b.exponent && a.mantissa < b.mantissa)
  {
    if a.exponent < b.exponent {
      AtLeastTen(b.mantissa, b.exponent - a.exponent);
    } else if a.exponent > b.exponent {
      AtLeastTen(a.mantissa, a.exponent - b.exponent);
    }
  }

  lemma AtLeastTen(m: nat, n: nat)
    requires n > 0
    ensures m * Pow10(n) >= 10 * m
  {
    Grows(10 * m, Pow10(n - 1));
    assert m * (10 * Pow10(n - 1)) == 10 * m * Pow10(n - 1);
  }

  /** An ulp is the step to the next amount: no canonical amount lies between. */
  lemma UlpIsAdjacent(a: Amount, b: Amount)
    requires Canonical(a) && Canonical(b)
    ensures Below(a, Up(a)) && !(Below(a, b) && Below(b, Up(a)))
    ensures Below(Down(a), a) && !(Below(Down(a), b) && Below(b, a))
  {
    BelowIsLexicographic(a, Up(a));
    BelowIsLexicographic(a, b);
    BelowIsLexicographic(b, Up(a));
    BelowIsLexicographic(Down(a), a);
    BelowIsLexicographic(Down(a), b);
    BelowIsLexicographic(b, a);
  }

  /** Nudging the text of a canonical amount nudges the amount. */
  lemma NudgedCanonicalText(a: Amount, how: Nudge)
    requires Canonical(a) && !how.Zero?
    ensures NudgedText(Text(a.mantissa, a.exponent), how) == Some(Text(Nudged(a, how).mantissa, Nudged(a, how).exponent))
  {
    hide MantExp, Text, Normal, Raised, Lowered, ReadsScaled, Nudged;
    var _ := TextRoundTrip(a.mantissa, a.exponent);
  }

  /** A value nudged one ulp up, or down, and then back is the canonical text of what it named. */
  lemma TextUlpsInverse(value: string, mant: nat, exp: int)
    requires MantExp(value) == Some((mant, exp)) && mant > 0
    ensures var a := Normal(mant, exp);
            var up, down := NudgedText(value, Ulp(1)), NudgedText(value, Ulp(-1));
            && up.Some? && NudgedText(up.value, Ulp(-1)) == Some(Text(a.mantissa, a.exponent))
            && down.Some? && NudgedText(down.value, Ulp(1)) == Some(Text(a.mantissa, a.exponent))
  {
    hide MantExp, Text, Normal, Raised, Lowered;
    NormalCanonical(mant, exp);
    var a := Normal(mant, exp);
    UlpsInverse(a);
    NudgedCanonicalText(Up(a), Ulp(-1));
    NudgedCanonicalText(Down(a), Ulp(1));
  }

  // ---- drops ----

  /** `nudge_amount` on an XRP amount; the cast back to u64 wraps. */
  function NudgeDrops(drops: nat, how: Nudge): nat
    requires drops < U64
  {
    match how
    case Ulp(d) => (if drops + d < 1 then 1 else drops + d) % U64
    case Ppm(p) => Scaled(drops, p) % U64
    case Halve => if drops / 2 < 1 then 1 else drops / 2
    case Double => if 2 * drops < U64 then 2 * drops else U64 - 1
    case Zero => 0
  }

  /** A drop up is undone by a drop down exactly from 1 to the last but one amount; a drop down by a
      drop up exactly from 2 on. */
  lemma DropsInverse(drops: nat)
    requires drops < U64
    ensures NudgeDrops(NudgeDrops(drops, Ulp(1)), Ulp(-1)) == drops <==> 1 <= drops < U64 - 1
    ensures NudgeDrops(NudgeDrops(drops, Ulp(-1)), Ulp(1)) == drops <==> 2 <= drops
  {
  }
}
