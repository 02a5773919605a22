// The SNTP check on the signing clock (crates/xrpl-node/src/clock_check.rs): offset and delay from
// wrapping timestamps, the median of the servers' answers, and the gate's verdict.
module ClockCheck {
  import opened Bytes
  import opened Numbers

  const TWO32: int := 0x1_0000_0000
  const TWO63: int := 0x8000_0000_0000_0000
  const TWO64: int := 0x1_0000_0000_0000_0000
  const MICROS: int := 1_000_000
  const NTP_UNIX_OFFSET: int := 2_208_988_800

  /** An NTP timestamp: 32 bits of seconds and 32 of fraction, wrapping in 2036. */
  type Ntp = t: int | 0 <= t < TWO64

  /** A Rust cast to i64. */
  function WrapI64(x: int): int { (x + TWO63) % TWO64 - TWO63 }

  /** `ntp_from_system`, for a time of day after 1970. */
  function NtpFromSystem(secs: nat, nanos: nat): Ntp
    requires nanos < 1_000_000_000
  {
    (secs + NTP_UNIX_OFFSET) % TWO32 * TWO32 + nanos * TWO32 / 1_000_000_000
  }

  /** The same instant without the wrap: units of 2^-32 s since 1900. */
  function Unwrapped(secs: nat, nanos: nat): nat
    requires nanos < 1_000_000_000
  {
    (secs + NTP_UNIX_OFFSET) * TWO32 + nanos * TWO32 / 1_000_000_000
  }

  /** NTP counts from 1900: 70 years before 1970, 17 of them leap years. */
  lemma SeventyYears()
    ensures NTP_UNIX_OFFSET == (70 * 365 + 17) * 24 * 60 * 60
    ensures TWO32 * TWO32 == TWO64 == 2 * TWO63 && MICROS == 1000 * 1000
  {
  }

  lemma NtpIsWrapped(secs: nat, nanos: nat)
    requires nanos < 1_000_000_000
    ensures NtpFromSystem(secs, nanos) == Unwrapped(secs, nanos) % TWO64
  {
    var s, f := secs + NTP_UNIX_OFFSET, nanos * TWO32 / 1_000_000_000;
    assert 0 <= f < TWO32;
    assert s * TWO32 + f == s / TWO32 * TWO64 + (s % TWO32 * TWO32 + f);
  }

  /** The difference of two timestamps modulo 2^64, read as signed (section 3 of RFC 4330). */
  function Difference(a: Ntp, b: Ntp): (d: int)
    ensures -TWO63 <= d < TWO63
  {
    WrapI64((a - b) % TWO64)
  }

  /** Units of 2^-32 s as whole microseconds, halves rounded away from zero. */
  function FixedToMicros(fx: int): int {
    var scaled := fx * MICROS;
    WrapI64(Truncated(if scaled >= 0 then scaled + TWO32 / 2 else scaled - TWO32 / 2, TWO32))
  }

  /** `offset_and_delay_us` (section 5 of RFC 4330). */
  function OffsetAndDelay(t1: Ntp, t2: Ntp, t3: Ntp, t4: Ntp): (int, int) {
    var offset := Truncated(Difference(t2, t1) + Difference(t3, t4), 2);
    var delay := Difference(t4, t1) - Difference(t3, t2);
    (FixedToMicros(offset), FixedToMicros(delay))
  }

  /** Under 2^31 s apart, two instants' difference survives the wrap. */
  lemma DifferenceOfInstants(a: int, b: int)
    requires -TWO63 <= a - b < TWO63
    ensures Difference(a % TWO64, b % TWO64) == a - b
  {
    var qa, qb := a / TWO64, b / TWO64;
    assert a == qa * TWO64 + a % TWO64 && b == qb * TWO64 + b % TWO64;
    var x := (a % TWO64 - b % TWO64) % TWO64;
    assert x == (a - b) % TWO64 by {
      assert a % TWO64 - b % TWO64 == (a - b) - (qa - qb) * TWO64;
    }
    if a - b >= 0 { assert x == a - b; } else { assert x == a - b + TWO64; }
  }

  /** The rounding is to the nearest microsecond, and the cast loses nothing, for every span two
      differences can make. */
  lemma MicrosNearest(fx: int)
    requires Abs(fx) <= TWO64
    ensures 2 * Abs(FixedToMicros(fx) * TWO32 - fx * MICROS) <= TWO32
  {
    var scaled := fx * MICROS;
    var x := Truncated(if scaled >= 0 then scaled + TWO32 / 2 else scaled - TWO32 / 2, TWO32);
    assert Abs(x) <= TWO63 - 1;
    assert WrapI64(x) == x;
  }

  /** The measured offset is within half the measured round trip, plus at most one microsecond of
      rounding, of the true one, era wrap included. `offset` is how far the server's clock is ahead
      of ours, `out` and `back` the two network delays, all in units of 2^-32 s. */
  lemma OffsetWithinHalfDelay(u1: int, u3: int, offset: int, out: nat, back: nat)
    requires var u2, u4 := u1 + offset + out, u3 - offset + back;
             u2 <= u3 && Abs(u2 - u1) < TWO63 && Abs(u3 - u4) < TWO63 && Abs(u4 - u1) < TWO63 && Abs(u3 - u2) < TWO63
    ensures var u2, u4 := u1 + offset + out, u3 - offset + back;
            var (o, d) := OffsetAndDelay(u1 % TWO64, u2 % TWO64, u3 % TWO64, u4 % TWO64);
            && 2 * Abs(d * TWO32 - (out + back) * MICROS) <= TWO32
            && 2 * Abs(o * TWO32 - offset * MICROS) <= (d + 2) * TWO32
  {
    hide Difference, FixedToMicros, WrapI64;
    var u2, u4 := u1 + offset + out, u3 - offset + back;
    DifferenceOfInstants(u2, u1);
    DifferenceOfInstants(u3, u4);
    DifferenceOfInstants(u4, u1);
    DifferenceOfInstants(u3, u2);
    var sum := (u2 - u1) + (u3 - u4);
    assert sum == 2 * offset + out - back;
    var half := Truncated(sum, 2);
    assert Abs(2 * half - sum) <= 1;
    MicrosNearest(half);
    MicrosNearest(out + back);
    assert (u4 - u1) - (u3 - u2) == out + back;
    assert 2 * Abs(half - offset) <= out + back + 1;
  }

  // ---- the median ----

  predicate Ordered(v: seq<int>) { forall i, j | 0 <= i < j < |v| :: v[i] <= v[j] }

  lemma OrderedFrom(x: int, v: seq<int>)
    requires Ordered(v) && (|v| > 0 ==> x <= v[0])
    ensures Ordered([x] + v) && multiset([x] + v) == multiset(v) + multiset{x}
  {
  }

  function Inserted(x: int, v: seq<int>): (r: seq<int>)
    requires Ordered(v)
    ensures Ordered(r) && multiset(r) == multiset(v) + multiset{x}
    ensures |r| > 0 && (r[0] == x || (|v| > 0 && r[0] == v[0]))
  {
    if |v| == 0 || x <= v[0] then
      OrderedFrom(x, v);
      [x] + v
    else
      var rest := Inserted(x, v[1..]);
      OrderedFrom(v[0], rest);
      OrderedFrom(v[0], v[1..]);
      assert [v[0]] + v[1..] == v;
      [v[0]] + rest
  }

  /** `sort_unstable`. */
  function Sorted(v: seq<int>): (r: seq<int>)
    ensures Ordered(r) && multiset(r) == multiset(v) && |r| == |v|
  {
    if |v| == 0 then []
    else
      assert v == [v[0]] + v[1..];
      var r := Inserted(v[0], Sorted(v[1..]));
      assert |r| == |multiset(r)| == |multiset(v)| == |v|;
      r
  }

  /** The median; the mean of the middle two, truncated, for an even count. */
  function Median(offsets: seq<int>): Option<int> {
    var v, n := Sorted(offsets), |offsets|;
    if n == 0 then None
    else if n % 2 == 1 then Some(v[n / 2])
    else Some(Truncated(v[n / 2 - 1] + v[n / 2], 2))
  }

  /** How many answers lie in an interval. */
  function CountIn(v: seq<int>, lo: int, hi: int): (n: nat)
    ensures n <= |v|
  {
    if |v| == 0 then 0 else (if lo <= v[0] <= hi then 1 else 0) + CountIn(v[1..], lo, hi)
  }

  lemma {:induction false} CountInserted(x: int, v: seq<int>, lo: int, hi: int)
    requires Ordered(v)
    ensures CountIn(Inserted(x, v), lo, hi) == (if lo <= x <= hi then 1 else 0) + CountIn(v, lo, hi)
  {
    if |v| == 0 || x <= v[0] {
      assert ([x] + v)[1..] == v;
    } else {
      CountInserted(x, v[1..], lo, hi);
      assert ([v[0]] + Inserted(x, v[1..]))[1..] == Inserted(x, v[1..]);
    }
  }

  lemma {:induction false} CountSorted(v: seq<int>, lo: int, hi: int)
    ensures CountIn(Sorted(v), lo, hi) == CountIn(v, lo, hi)
  {
    if |v| > 0 {
      CountSorted(v[1..], lo, hi);
      CountInserted(v[0], Sorted(v[1..]), lo, hi);
    }
  }

  lemma {:induction false} CountSplit(v: seq<int>, k: nat, lo: int, hi: int)
    requires k <= |v|
    ensures CountIn(v, lo, hi) == CountIn(v[..k], lo, hi) + CountIn(v[k..], lo, hi)
  {
    if k > 0 {
      CountSplit(v[1..], k - 1, lo, hi);
      assert v[..k][1..] == v[1..][..k - 1] && v[1..][k - 1..] == v[k..];
    } else {
      assert v[0..] == v;
    }
  }

  lemma {:induction false} NoneIn(v: seq<int>, lo: int, hi: int)
    requires forall i | 0 <= i < |v| :: !(lo <= v[i] <= hi)
    ensures CountIn(v, lo, hi) == 0
  {
    if |v| > 0 { NoneIn(v[1..], lo, hi); }
  }

  /** Where more than the rest lie in an interval, a sorted list's k-th element does: k is out of
      reach of the elements below the interval and of those above it. */
  lemma MiddleIn(v: seq<int>, k: nat, lo: int, hi: int)
    requires Ordered(v) && k < |v| && CountIn(v, lo, hi) > k && CountIn(v, lo, hi) >= |v| - k
    ensures lo <= v[k] <= hi
  {
    if v[k] < lo {
      CountSplit(v, k + 1, lo, hi);
      assert forall i | 0 <= i < k :: v[i] <= v[k];
      NoneIn(v[..k + 1], lo, hi);
    } else if v[k] > hi {
      CountSplit(v, k, lo, hi);
      assert forall i | k < i < |v| :: v[k] <= v[i];
      NoneIn(v[k..], lo, hi);
    }
  }

  /** When a strict majority of the answers lies in an interval, so does the median. */
  lemma MajorityBindsMedian(offsets: seq<int>, lo: int, hi: int)
    requires 2 * CountIn(offsets, lo, hi) > |offsets|
    ensures Median(offsets).Some? && lo <= Median(offsets).value <= hi
  {
    hide CountIn, Sorted;
    CountSorted(offsets, lo, hi);
    var v, n := Sorted(offsets), |offsets|;
    MiddleIn(v, n / 2, lo, hi);
    if n % 2 == 0 { MiddleIn(v, n / 2 - 1, lo, hi); }
  }

  // ---- the gate ----

  const GATE_LIMIT_MS: int := 1000
  const MIN_ANSWERS_TO_GATE: nat := 2
  const STALE_AFTER: nat := 900

  /** One round of questions; `at` in seconds. */
  datatype Reading = Reading(at: nat, offset: Option<int>, answers: nat)

  function RoundOf(at: nat, offsets: seq<int>): Reading { Reading(at, Median(offsets), |offsets|) }

  /** `gate_verdict`: whether to skip signing. */
  predicate Skips(gateOn: bool, reading: Option<Reading>, now: nat) {
    && gateOn && reading.Some? && reading.value.offset.Some?
    && reading.value.answers >= MIN_ANSWERS_TO_GATE
    && (if now >= reading.value.at then now - reading.value.at else 0) <= STALE_AFTER
    && Abs(reading.value.offset.value) > GATE_LIMIT_MS
  }

  /** The gate signs when it is off, with no reading or no offset, on one answer alone, on a reading
      more than fifteen minutes old, and within a second; otherwise it skips. */
  lemma GateSigns(gateOn: bool, reading: Option<Reading>, now: nat)
    ensures !gateOn || reading.None? || reading.value.offset.None? || reading.value.answers <= 1 ==> !Skips(gateOn, reading, now)
    ensures reading.Some? && now > reading.value.at + 15 * 60 ==> !Skips(gateOn, reading, now)
    ensures reading.Some? && reading.value.offset.Some? && -1000 <= reading.value.offset.value <= 1000 ==> !Skips(gateOn, reading, now)
    ensures gateOn && reading.Some? && reading.value.offset.Some? && reading.value.answers >= 2 && now <= reading.value.at + 15 * 60
            && (reading.value.offset.value > 1000 || reading.value.offset.value < -1000)
            ==> Skips(gateOn, reading, now)
  {
  }

  /** Where a strict majority of the answers agrees that the clock is within the limit, or that it
      is over it on one side, the others cannot change the verdict: with three servers one wrong
      answer cannot, whatever it says. */
  lemma MajorityDecides(offsets: seq<int>, lo: int, hi: int, at: nat, now: nat)
    requires 2 * CountIn(offsets, lo, hi) > |offsets| >= MIN_ANSWERS_TO_GATE
    requires at <= now <= at + STALE_AFTER
    ensures -GATE_LIMIT_MS <= lo && hi <= GATE_LIMIT_MS ==> !Skips(true, Some(RoundOf(at, offsets)), now)
    ensures lo > GATE_LIMIT_MS || hi < -GATE_LIMIT_MS ==> Skips(true, Some(RoundOf(at, offsets)), now)
  {
    MajorityBindsMedian(offsets, lo, hi);
    hide CountIn, Median;
  }

  lemma CountThree(v: seq<int>, lo: int, hi: int)
    requires |v| == 3
    ensures CountIn(v, lo, hi) == (if lo <= v[0] <= hi then 1 else 0) + (if lo <= v[1] <= hi then 1 else 0) + (if lo <= v[2] <= hi then 1 else 0)
  {
    var w, u := v[1..], v[2..];
    assert w[1..] == u && u[1..] == [];
    assert CountIn([], lo, hi) == 0;
    assert CountIn(u, lo, hi) == (if lo <= u[0] <= hi then 1 else 0) + CountIn(u[1..], lo, hi);
    assert CountIn(w, lo, hi) == (if lo <= w[0] <= hi then 1 else 0) + CountIn(w[1..], lo, hi);
  }

  lemma {:induction false} SortedOrdered(v: seq<int>)
    requires Ordered(v)
    ensures Sorted(v) == v
  {
    if |v| > 0 {
      SortedOrdered(v[1..]);
      assert v == [v[0]] + v[1..];
    }
  }

  /** Both answers within the limit, or both over it on one side. */
  predicate Agree(a: int, b: int) {
    || (Abs(a) <= GATE_LIMIT_MS && Abs(b) <= GATE_LIMIT_MS)
    || (a > GATE_LIMIT_MS && b > GATE_LIMIT_MS)
    || (a < -GATE_LIMIT_MS && b < -GATE_LIMIT_MS)
  }

  lemma TwoOfThreeDecide(offsets: seq<int>, i: nat, j: nat, at: nat, now: nat)
    requires |offsets| == 3 && i < j < 3 && Agree(offsets[i], offsets[j]) && at <= now <= at + STALE_AFTER
    ensures Skips(true, Some(RoundOf(at, offsets)), now) <==> Abs(offsets[i]) > GATE_LIMIT_MS
  {
    hide Skips, Median;
    var lo, hi := Min(offsets[i], offsets[j]), Max(offsets[i], offsets[j]);
    CountThree(offsets, lo, hi);
    hide CountIn;
    MajorityDecides(offsets, lo, hi, at, now);
  }

  /** Where two of three servers agree, whatever the third says leaves the verdict as it is. */
  lemma OneOfThreeCannotFlip(offsets: seq<int>, k: nat, wrong: int, at: nat, now: nat)
    requires |offsets| == 3 && k < 3 && at <= now <= at + STALE_AFTER
    requires var i, j := if k == 0 then 1 else 0, if k == 2 then 1 else 2; Agree(offsets[i], offsets[j])
    ensures Skips(true, Some(RoundOf(at, offsets)), now) == Skips(true, Some(RoundOf(at, offsets[k := wrong])), now)
  {
    hide Skips, Median, RoundOf;
    var i, j := if k == 0 then 1 else 0, if k == 2 then 1 else 2;
    TwoOfThreeDecide(offsets, i, j, at, now);
    TwoOfThreeDecide(offsets[k := wrong], i, j, at, now);
  }

  lemma MedianOfTwo(a: int, b: int)
    requires a <= b
    ensures Median([a, b]) == Some(Truncated(a + b, 2))
  {
    SortedOrdered([a, b]);
    hide Sorted;
  }

  /** With only two answers one wrong server can stop signing: the gate asks for two answers, and
      the median of two is their mean. A good answer g leaves the verdict to the wrong one. */
  lemma OneOfTwoCanFlip(g: int, at: nat)
    requires Abs(g) <= GATE_LIMIT_MS
    ensures !Skips(true, Some(RoundOf(at, [g, g])), at)
    ensures Skips(true, Some(RoundOf(at, [g, 2 * GATE_LIMIT_MS + 2 - g])), at)
  {
    MedianOfTwo(g, g);
    MedianOfTwo(g, 2 * GATE_LIMIT_MS + 2 - g);
    hide Median, Sorted;
  }
}
