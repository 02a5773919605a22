// What normalising, nudging and reading an amount do to the number it stands for, told by
// inequalities between numbers and not by the loops.
module NudgeLaws {
  import opened Bytes
  import opened Numbers
  import opened IouAmount

  /** Cutting down to sixteen digits drops k of them and nothing else: the mantissa is the whole part
      of m / 10^k, and one digit fewer would have been too long. */
  lemma {:induction false} LoweredCuts(m: nat, e: int) returns (k: nat)
    requires m >= LOW
    ensures var r := Lowered(m, e);
            && r.exponent == e + k && Canonical(r)
            && r.mantissa * Pow10(k) <= m < (r.mantissa + 1) * Pow10(k)
  {
    k := 0;
    if m >= HIGH {
      var n := LoweredCuts(m / 10, e + 1);
      k := n + 1;
      var x, p := Lowered(m, e).mantissa, Pow10(n);
      assert x * (10 * p) == 10 * (x * p) && (x + 1) * (10 * p) == 10 * ((x + 1) * p);
      assert 10 * (m / 10) <= m < 10 * (m / 10) + 10;
    }
  }

  /** Filling up to sixteen digits is exact. */
  lemma {:induction false} RaisedIsExact(m: nat, e: int) returns (k: nat)
    requires 0 < m < HIGH
    ensures var r := Raised(m, e);
            r.exponent == e - k && Canonical(r) && r.mantissa == m * Pow10(k)
    decreases if m < LOW then LOW - m else 0
  {
    k := 0;
    if m < LOW {
      var n := RaisedIsExact(m * 10, e - 1);
      k := n + 1;
      assert m * 10 * Pow10(n) == m * (10 * Pow10(n));
    }
  }

  /** Halving: half the mantissa, rounded down, in sixteen digits. */
  lemma HalvedIs(a: Amount) returns (q: nat)
    requires Canonical(a)
    ensures 2 * q <= a.mantissa <= 2 * q + 1
    ensures Nudged(a, Halve) == if 2 * LOW <= a.mantissa then Amount(q, a.exponent) else Amount(10 * q, a.exponent - 1)
  {
    q := a.mantissa / 2;
    if q < LOW {
      assert Raised(q, a.exponent) == Raised(q * 10, a.exponent - 1) == Amount(q * 10, a.exponent - 1);
    }
  }

  /** Doubling: exact where it fits, and else one digit is cut. */
  lemma DoubledIs(a: Amount)
    requires Canonical(a)
    ensures var r := Nudged(a, Double);
            if 2 * a.mantissa < HIGH then r == Amount(2 * a.mantissa, a.exponent)
            else r.exponent == a.exponent + 1 && 10 * r.mantissa <= 2 * a.mantissa < 10 * r.mantissa + 10
  {
    var m := a.mantissa * 2;
    if m >= HIGH {
      assert m / 10 < HIGH;
      assert Lowered(m, a.exponent) == Lowered(m / 10, a.exponent + 1) == Amount(m / 10, a.exponent + 1);
    }
  }

  /** x is m moved by p millionths of it, the part of a unit dropped, and at least 1. */
  ghost predicate MovedByPpm(x: nat, m: nat, p: int) {
    exists t: int {:trigger Part(t, m, p)} :: Part(t, m, p) && x == Max(1, m + t)
  }

  /** t is the whole part of m·p / 10^6, toward zero. */
  ghost predicate Part(t: int, m: nat, p: int) {
    if p >= 0 then t * 1_000_000 <= m * p < (t + 1) * 1_000_000
    else t * 1_000_000 >= m * p > (t - 1) * 1_000_000
  }

  lemma ScaledMoves(m: nat, p: int)
    ensures MovedByPpm(Scaled(m, p), m, p)
  {
    var v := m * p;
    var t := Truncated(v, 1_000_000);
    if p >= 0 { assert v >= 0; } else { assert v <= 0; }
    assert Part(t, m, p);
  }

  /** A nudge in millionths: the moved mantissa, cut or filled to sixteen digits. */
  lemma PpmIs(a: Amount, p: int) returns (x: nat)
    requires Canonical(a)
    ensures x > 0 && MovedByPpm(x, a.mantissa, p) && Nudged(a, Ppm(p)) == Normal(x, a.exponent)
  {
    x := Scaled(a.mantissa, p);
    ScaledMoves(a.mantissa, p);
  }

  /** What a nudge makes of drops. */
  lemma DropsMove(drops: nat, d: int, p: int)
    requires drops < U64
    ensures 1 <= drops + d < U64 ==> NudgeDrops(drops, Ulp(d)) == drops + d
    ensures drops + d < 1 ==> NudgeDrops(drops, Ulp(d)) == 1
    ensures exists x: nat {:trigger MovedByPpm(x, drops, p)} :: MovedByPpm(x, drops, p) && (x < U64 ==> NudgeDrops(drops, Ppm(p)) == x)
    ensures var q := NudgeDrops(drops, Halve); if drops < 2 then q == 1 else 2 * q <= drops <= 2 * q + 1
    ensures NudgeDrops(drops, Double) == Min(drops + drops, U64 - 1)
    ensures NudgeDrops(drops, Zero) == 0
  {
    ScaledMoves(drops, p);
  }

  // ---- reading ----

  lemma TrimStartOne(s: string, c: char)
    ensures TrimStart(s, c) == if |s| > 0 && s[0] == c then TrimStart(s[1..], c) else s
  {
  }

  lemma {:induction false} TrimStartLeads(s: string, t: string, c: char)
    requires |t| > 0 && t[0] != c
    ensures TrimStart(s + t, c) == TrimStart(s, c) + t
    decreases |s|
  {
    if |s| == 0 {
      assert s + t == t;
      hide TrimStart;
      TrimStartOne(s, c);
      TrimStartOne(t, c);
    } else {
      hide TrimStart;
      Behead(s, t);
      TrimStartOne(s, c);
      TrimStartOne(s + t, c);
      if s[0] == c { TrimStartLeads(s[1..], t, c); }
    }
  }

  lemma Behead(s: string, t: string)
    requires |s| > 0
    ensures (s + t)[0] == s[0] && (s + t)[1..] == s[1..] + t
  {
  }

  /** The exponent part of a value. */
  function Exponent(mark: char, negative: bool, k: nat): string {
    [mark] + (if negative then "-" else "") + Decimal(k)
  }

  lemma ExponentParses(negative: bool, k: nat)
    requires k < 0x8000_0000
    ensures ParseI32((if negative then "-" else "") + Decimal(k)) == Some(if negative then 0 - k else k)
  {
    var d := Decimal(k);
    DecimalNumber(k);
    hide Number, Decimal;
    assert IsDigit(d[0]);
    if negative {
      assert ("-" + d)[1..] == d;
      assert ParseI32("-" + d) == Some(0 - k);
    } else {
      assert "" + d == d;
      assert ParseI32(d) == Some(k);
    }
  }

  lemma FirstMark(s: string, t: string, mark: char)
    requires 'e' !in s && 'E' !in s && (mark == 'e' || mark == 'E') && |t| > 0 && t[0] == mark
    ensures ExponentAt(s + t) == Some(|s|)
  {
    var u := s + t;
    assert forall j | 0 <= j < |s| :: u[j] == s[j] && s[j] in s;
    IndexIs(u, mark, |s|);
    var other := if mark == 'e' then 'E' else 'e';
    assert u[|s|] != other;
    hide IndexOf;
    if IndexOf(u, other).Some? { assert IndexOf(u, other).value > |s|; }
  }

  lemma ScientificShifts(mant: string, exp: int, d: int)
    ensures match Scientific(mant, exp)
            case None => Scientific(mant, exp + d) == None
            case Some((m, e)) => Scientific(mant, exp + d) == Some((m, e + d))
  {
    hide Unpointed, Significant, ParseUnsigned;
  }

  lemma ReadMarked(text: string, bare: string, tail: string)
    requires TrimStart(text, '-') == bare + tail && |tail| > 0 && ExponentAt(bare + tail) == Some(|bare|)
    ensures match ParseI32(tail[1..])
            case None => MantExp(text) == None
            case Some(x) => MantExp(text) == Scientific(bare, x)
  {
    hide TrimStart, ExponentAt, Scientific, ParseI32;
    assert (bare + tail)[|bare| + 1..] == tail[1..] && (bare + tail)[..|bare|] == bare;
  }

  /** A value with an exponent part: it reads exactly if what stands before the mark does and what
      stands after it is a 32-bit number, and then that number moves the exponent. */
  lemma MarkShifts(s: string, mark: char, tail: string)
    requires 'e' !in s && 'E' !in s && (mark == 'e' || mark == 'E')
    ensures var text := s + ([mark] + tail);
            if MantExp(s).None? || ParseI32(tail).None? then MantExp(text) == None
            else MantExp(text) == Some((MantExp(s).value.0, MantExp(s).value.1 + ParseI32(tail).value))
  {
    hide *;
    var bare, t := TrimStart(s, '-'), [mark] + tail;
    assert t[1..] == tail;
    TrimStartLeads(s, t, '-');
    NoMarks(s, bare);
    FirstMark(bare, t, mark);
    ReadBare(s, bare);
    ReadMarked(s + t, bare, t);
    if ParseI32(tail).Some? { ScientificShifts(bare, 0, ParseI32(tail).value); }
  }

  /** A written exponent moves the amount's exponent by what it says, up or down, in either case of
      its letter. */
  lemma ExponentShifts(s: string, m: nat, e: int, mark: char, negative: bool, k: nat)
    requires MantExp(s) == Some((m, e)) && 'e' !in s && 'E' !in s
    requires (mark == 'e' || mark == 'E') && k < 0x8000_0000
    ensures MantExp(s + Exponent(mark, negative, k)) == Some((m, if negative then e - k else e + k))
  {
    hide MantExp, ParseI32, Decimal;
    var tail := (if negative then "-" else "") + Decimal(k);
    assert Exponent(mark, negative, k) == [mark] + tail;
    ExponentParses(negative, k);
    MarkShifts(s, mark, tail);
  }

  lemma NoMarks(s: string, bare: string)
    requires 'e' !in s && 'E' !in s && |bare| <= |s| && bare == s[|s| - |bare|..]
    ensures 'e' !in bare && 'E' !in bare && ExponentAt(bare) == None
  {
    assert forall c | c in bare :: c in s;
  }

  lemma {:induction false} NumberBelow(s: string)
    requires AllDigits(s)
    ensures Number(s) < Pow10(|s|)
  {
    if |s| > 0 { NumberBelow(s[..|s| - 1]); }
  }

  lemma SixteenBelow(lead: string)
    requires |lead| == 16 && AllDigits(lead)
    ensures Number(lead) < U128
  {
    NumberBelow(lead);
    Pow10Add(8, 8);
    assert Pow10(8) == 100_000_000;
    hide Number, Pow10;
  }

  lemma LeadIsSignificant(lead: string, rest: string)
    requires |lead| == 16 && lead[0] != '0'
    ensures Significant(lead + rest) == (lead, |rest|)
  {
    hide TrimStart;
    TrimStartOne(lead + rest, '0');
    assert (lead + rest)[..16] == lead;
    if rest == [] { assert lead + rest == lead; }
  }

  lemma DigitsJoin(lead: string, rest: string)
    requires AllDigits(lead) && AllDigits(rest)
    ensures AllDigits(lead + rest)
  {
  }

  /** Of a run of more than sixteen significant digits the first sixteen are read, and the rest count
      in the exponent. */
  lemma LongDigits(lead: string, rest: string)
    requires |lead| == 16 && AllDigits(lead) && AllDigits(rest) && lead[0] != '0'
    ensures MantExp(lead + rest) == Some((Number(lead), |rest|))
  {
    hide *;
    LeadIsSignificant(lead, rest);
    SixteenBelow(lead);
    DigitsJoin(lead, rest);
    ReadDigits(lead + rest, lead, |rest|);
  }

  /** Zeros are zero, at the exponent their point gives them. */
  lemma ZerosRead(whole: string, fraction: string, pointed: bool)
    requires ZerosFrom(whole, 0) && ZerosFrom(fraction, 0) && |whole| > 0 && (!pointed ==> fraction == "")
    ensures MantExp(Joined(whole, fraction, pointed)) == Some((0, 0 - |fraction|))
  {
    AllZeros(whole + fraction);
    JoinedPlain(whole, fraction, pointed);
    JoinedParts(whole, fraction, pointed);
    hide TrimStart, ExponentAt, Unpointed, Joined, AllDigits, MantExp, ZerosFrom;
    ReadBare(Joined(whole, fraction, pointed), Joined(whole, fraction, pointed));
  }

  lemma {:induction false} AllZeros(s: string)
    requires ZerosFrom(s, 0)
    ensures TrimStart(s, '0') == ""
  {
    if |s| > 0 { AllZeros(s[1..]); }
  }

  /** A minus sign is dropped. */
  lemma SignDropped(s: string)
    ensures MantExp("-" + s) == MantExp(s)
  {
    hide TrimStart, ExponentAt, ParseI32, Unpointed, Significant, ParseUnsigned;
    TrimStartOne("-" + s, '-');
    assert ("-" + s)[1..] == s;
  }
}
