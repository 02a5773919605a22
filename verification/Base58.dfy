// XRPL addresses: base 58 text of a version byte, a 20-byte account and a 4-byte checksum.
// `decode_address` (crates/xrpl-node/src/engine.rs) against `_addr` and `acct_id`
// (scripts/fetch_tx_bundle.py).
module Base58 {
  import opened Bytes

  // ---- the alphabet, as a two-way table ----

  function CharOf(d: nat): char
    requires d < 58
  {
    match d
    case 0 => 'r' case 1 => 'p' case 2 => 's' case 3 => 'h' case 4 => 'n' case 5 => 'a' case 6 => 'f' case 7 => '3' case 8 => '9' case 9 => 'w'
    case 10 => 'B' case 11 => 'U' case 12 => 'D' case 13 => 'N' case 14 => 'E' case 15 => 'G' case 16 => 'H' case 17 => 'J' case 18 => 'K' case 19 => 'L'
    case 20 => 'M' case 21 => '4' case 22 => 'P' case 23 => 'Q' case 24 => 'R' case 25 => 'S' case 26 => 'T' case 27 => '7' case 28 => 'V' case 29 => 'W'
    case 30 => 'X' case 31 => 'Y' case 32 => 'Z' case 33 => '2' case 34 => 'b' case 35 => 'c' case 36 => 'd' case 37 => 'e' case 38 => 'C' case 39 => 'g'
    case 40 => '6' case 41 => '5' case 42 => 'j' case 43 => 'k' case 44 => 'm' case 45 => '8' case 46 => 'o' case 47 => 'F' case 48 => 'q' case 49 => 'i'
    case 50 => '1' case 51 => 't' case 52 => 'u' case 53 => 'v' case 54 => 'A' case 55 => 'x' case 56 => 'y'
    case _ => 'z'
  }

  function Digit(c: char): (r: Option<nat>)
    ensures r.Some? ==> r.value < 58
  {
    match c
    case 'r' => Some(0) case 'p' => Some(1) case 's' => Some(2) case 'h' => Some(3) case 'n' => Some(4) case 'a' => Some(5) case 'f' => Some(6) case '3' => Some(7)
    case '9' => Some(8) case 'w' => Some(9) case 'B' => Some(10) case 'U' => Some(11) case 'D' => Some(12) case 'N' => Some(13) case 'E' => Some(14) case 'G' => Some(15)
    case 'H' => Some(16) case 'J' => Some(17) case 'K' => Some(18) case 'L' => Some(19) case 'M' => Some(20) case '4' => Some(21) case 'P' => Some(22) case 'Q' => Some(23)
    case 'R' => Some(24) case 'S' => Some(25) case 'T' => Some(26) case '7' => Some(27) case 'V' => Some(28) case 'W' => Some(29) case 'X' => Some(30) case 'Y' => Some(31)
    case 'Z' => Some(32) case '2' => Some(33) case 'b' => Some(34) case 'c' => Some(35) case 'd' => Some(36) case 'e' => Some(37) case 'C' => Some(38) case 'g' => Some(39)
    case '6' => Some(40) case '5' => Some(41) case 'j' => Some(42) case 'k' => Some(43) case 'm' => Some(44) case '8' => Some(45) case 'o' => Some(46) case 'F' => Some(47)
    case 'q' => Some(48) case 'i' => Some(49) case '1' => Some(50) case 't' => Some(51) case 'u' => Some(52) case 'v' => Some(53) case 'A' => Some(54) case 'x' => Some(55)
    case 'y' => Some(56) case 'z' => Some(57)
    case _ => None
  }

  const FIRST: string := "rpshnaf39wBUDNEGHJKL"
  const SECOND: string := "M4PQRST7VWXYZ2bcdeCg"
  const THIRD: string := "65jkm8oFqi1tuvAxyz"

  /** The digits are the alphabet's characters, in its order. */
  lemma AlphabetIs(d: nat)
    requires d < 58
    ensures |FIRST| == |SECOND| == 20 && |THIRD| == 18
    ensures CharOf(d) == if d < 20 then FIRST[d] else if d < 40 then SECOND[d - 20] else THIRD[d - 40]
  {
    if d < 20 {} else if d < 40 {} else {}
  }

  lemma DigitOfChar(d: nat)
    requires d < 58
    ensures Digit(CharOf(d)) == Some(d)
  {
    if d < 20 {} else if d < 40 {} else {}
  }

  // ---- positional values, most significant first ----

  predicate AllDigits(s: string) { forall c <- s :: Digit(c).Some? }

  function Value58(s: string): nat
    requires AllDigits(s)
  {
    if |s| == 0 then 0 else Value58(s[..|s| - 1]) * 58 + Digit(s[|s| - 1]).value
  }

  /** The shortest bytes of a value; zero takes one. */
  function ToBytes(v: nat): (b: Bytes)
    ensures |b| > 0
  {
    if v < 256 then [v] else ToBytes(v / 256) + [v % 256]
  }

  function ToDigits(v: nat): string {
    if v == 0 then "" else ToDigits(v / 58) + [CharOf(v % 58)]
  }

  /** No leading zero byte, except zero itself. */
  predicate Shortest(b: Bytes) { |b| > 0 && (b[0] != 0 || b == [0]) }

  lemma {:induction false} ShortestIsToBytes(b: Bytes)
    requires Shortest(b)
    ensures b == ToBytes(Value256(b))
  {
    if |b| == 1 {
      assert b[..0] == [];
    } else {
      var front, last: int := b[..|b| - 1], b[|b| - 1];
      ShortestIsToBytes(front);
      ValuePrepend(b[0], front[1..]);
      assert front == [b[0]] + front[1..];
      var v := Value256(b);
      assert v == Value256(front) * 256 + last;
      assert v / 256 == Value256(front) && v % 256 == last;
      assert Value256(front) > 0 by { LeadPositive(b[0], Pow256(|front| - 1)); }
      assert b == front + [b[|b| - 1]];
    }
  }

  lemma LeadPositive(x: nat, p: nat)
    requires x > 0 && p > 0
    ensures x * p >= p > 0
  {
    assert x * p == p + (x - 1) * p;
  }

  lemma LeadNonZero(b: Bytes, least: nat)
    requires |b| > 0 && Value256(b) >= Pow256(|b| - 1)
    ensures b[0] != 0
  {
    if b[0] == 0 {
      ValuePrepend(0, b[1..]);
      assert b == [0] + b[1..];
      ValueBelow(b[1..]);
    }
  }

  // ---- decode_address ----

  function LeadingRs(s: string): (n: nat)
    ensures n <= |s| && (forall i | 0 <= i < n :: s[i] == 'r') && (n < |s| ==> s[n] != 'r')
  {
    if |s| > 0 && s[0] == 'r' then 1 + LeadingRs(s[1..]) else 0
  }

  function Zeros(n: nat): Bytes { seq(n, _ => 0) }

  /** What an address stands for: a zero byte for each leading `r`, then its value. */
  function AddressBytes(addr: string): Bytes
    requires AllDigits(addr)
  {
    Zeros(LeadingRs(addr)) + ToBytes(Value58(addr))
  }

  lemma CarryArithmetic(v: nat, x: nat, c: nat, p: nat)
    ensures var sum := c + 58 * x;
            ((v * 256 + x) * 58 + c) * p == (v * 58 + sum / 256) * (256 * p) + sum % 256 * p
  {
    var sum := c + 58 * x;
    var q, low := sum / 256, sum % 256;
    assert sum == 256 * q + low;
    calc {
      ((v * 256 + x) * 58 + c) * p;
      (256 * (58 * v + q) + low) * p;
      256 * (58 * v + q) * p + low * p;
      (v * 58 + q) * (256 * p) + low * p;
    }
  }

  /** The sum a carry makes with one byte. */
  function Sum(c: nat, x: nat): nat { c + 58 * x }

  /** Bytes from j on are done, and the carry stands for what is still to be added before them. */
  ghost predicate Carrying(n0: Bytes, n: Bytes, j: nat, c: nat, total: nat) {
    && j <= |n0| == |n| && n[..j] == n0[..j]
    && total == (Value256(n0[..j]) * 58 + c) * Pow256(|n| - j) + Value256(n[j..])
  }

  /** One carry step keeps the number read so far. */
  lemma CarryStep(n0: Bytes, n: Bytes, j: nat, c: nat, total: nat)
    requires 0 < j <= |n| && Carrying(n0, n, j, c, total)
    ensures Carrying(n0, n[j - 1 := Sum(c, n[j - 1]) % 256], j - 1, Sum(c, n[j - 1]) / 256, total)
  {
    assert n[j - 1] == n[..j][j - 1] == n0[..j][j - 1];
    var x, p, v := n0[j - 1], Pow256(|n| - j), Value256(n0[..j - 1]);
    var low: byte := Sum(c, x) % 256;
    assert n0[..j][..j - 1] == n0[..j - 1];
    assert n[j - 1 := low][j - 1..] == [low] + n[j..];
    assert n[j - 1 := low][..j - 1] == n[..j][..j - 1];
    ValuePrepend(low, n[j..]);
    CarryArithmetic(v, x, c, p);
  }

  lemma StaysShortest(n0: Bytes, n: Bytes, total: nat)
    requires Shortest(n0) && |n| == |n0| && Value256(n) == total >= Value256(n0) * 58
    ensures Shortest(n)
  {
    if n0[0] != 0 {
      ValuePrepend(n0[0], n0[1..]);
      assert n0 == [n0[0]] + n0[1..];
      LeadPositive(n0[0], Pow256(|n| - 1));
      LeadNonZero(n, total);
    } else {
      assert n[0] != 0 || n == [0];
    }
  }

  /** The pass over the bytes from the last one: what does not fit is left in the carry. */
  method Carry(n0: Bytes, d: nat) returns (n: Bytes, c: nat)
    requires d < 58
    ensures |n| == |n0| && Value256(n0) * 58 + d == c * Pow256(|n|) + Value256(n)
  {
    n, c := n0, d;
    var j: nat := |n|;
    ghost var total := Value256(n0) * 58 + d;
    CarryStart(n0, d);
    hide Value256, Pow256, Carrying, Sum;
    while j > 0
      invariant j <= |n| && Carrying(n0, n, j, c, total)
    {
      CarryStep(n0, n, j, c, total);
      c := Sum(c, n[j - 1]);
      n := n[j - 1 := c % 256];
      c := c / 256;
      j := j - 1;
    }
    CarryEnd(n0, n, c, total);
  }

  lemma CarryStart(n0: Bytes, d: nat)
    ensures Carrying(n0, n0, |n0|, d, Value256(n0) * 58 + d)
  {
    assert n0[..|n0|] == n0;
  }

  lemma CarryEnd(n0: Bytes, n: Bytes, c: nat, total: nat)
    requires Carrying(n0, n, 0, c, total)
    ensures |n| == |n0| && total == c * Pow256(|n|) + Value256(n)
  {
    assert n[0..] == n;
  }

  /** n becomes 58 n + d, in place from the last byte with a carry. */
  method MultiplyAdd(n0: Bytes, d: nat) returns (n: Bytes)
    requires Shortest(n0) && d < 58
    ensures Value256(n) == Value256(n0) * 58 + d && Shortest(n)
  {
    ghost var total := Value256(n0) * 58 + d;
    var c: nat;
    n, c := Carry(n0, d);
    if c == 0 { StaysShortest(n0, n, total); }
    hide Value256, Pow256;
    while c > 0
      invariant total == c * Pow256(|n|) + Value256(n)
      invariant c == 0 ==> Shortest(n)
    {
      Spill(n, c);
      n := [c % 256] + n;
      c := c / 256;
    }
    assert c * Pow256(|n|) == 0;
  }

  lemma Spill(n: Bytes, c: nat)
    ensures var m := [(c % 256) as byte] + n;
            c * Pow256(|n|) + Value256(n) == c / 256 * Pow256(|m|) + Value256(m)
  {
    var low: byte, q, p := c % 256, c / 256, Pow256(|n|);
    ValuePrepend(low, n);
    assert c == 256 * q + low;
    assert c * p == q * (256 * p) + low * p;
  }

  /** `decode_address`: None for a character outside the alphabet or fewer than 25 bytes. */
  method DecodeAddress(addr: string) returns (r: Option<Bytes>)
    ensures r == if AllDigits(addr) && |AddressBytes(addr)| >= 25 then Some(AddressBytes(addr)[1..21]) else None
  {
    var n: Bytes := [0];
    assert [0][..0] == [];
    for i := 0 to |addr|
      invariant AllDigits(addr[..i]) && Shortest(n) && Value256(n) == Value58(addr[..i])
    {
      var d := Digit(addr[i]);
      assert addr[..i + 1] == addr[..i] + [addr[i]] && addr[..i + 1][..i] == addr[..i];
      if d.None? {
        assert addr[i] in addr;
        return None;
      }
      n := MultiplyAdd(n, d.value);
    }
    assert addr[..|addr|] == addr;
    ShortestIsToBytes(n);
    var result := Zeros(LeadingRs(addr)) + n;
    if |result| < 25 { return None; }
    r := Some(result[1..21]);
  }

  /** `acct_id`, for a string of the alphabet: Python's to_bytes gives zero no byte at all. */
  function AcctId(addr: string): Bytes
    requires AllDigits(addr)
  {
    var raw := Zeros(LeadingRs(addr)) + (if Value58(addr) == 0 then [] else ToBytes(Value58(addr)));
    if |raw| <= 1 then [] else if |raw| < 21 then raw[1..] else raw[1..21]
  }

  // ---- _addr ----

  function LeadingZeros(b: Bytes): (n: nat)
    ensures n <= |b| && (forall i | 0 <= i < n :: b[i] == 0) && (n < |b| ==> b[n] != 0)
  {
    if |b| > 0 && b[0] == 0 then 1 + LeadingZeros(b[1..]) else 0
  }

  function Rs(n: nat): string { seq(n, _ => 'r') }

  /** The address of an account under a checksum. */
  function Address(account: Bytes, checksum: Bytes): string {
    TextOf([0] + account + checksum)
  }

  method PrintAddress(account: Bytes, checksum: Bytes) returns (s: string)
    ensures s == Address(account, checksum)
  {
    var payload := [0] + account + checksum;
    var n, out := Value256(payload), "";
    while n != 0
      invariant ToDigits(n) + out == ToDigits(Value256(payload))
      decreases n
    {
      assert ToDigits(n) == ToDigits(n / 58) + [CharOf(n % 58)];
      assert ToDigits(n) + out == ToDigits(n / 58) + ([CharOf(n % 58)] + out);
      out := [CharOf(n % 58)] + out;
      n := n / 58;
    }
    assert ToDigits(0) + out == out;
    s := Rs(LeadingZeros(payload)) + out;
  }

  // ---- decoding what was printed ----

  lemma {:induction false} DigitsValue(v: nat)
    ensures AllDigits(ToDigits(v)) && Value58(ToDigits(v)) == v
    ensures |ToDigits(v)| > 0 ==> ToDigits(v)[0] != 'r'
    ensures v > 0 ==> |ToDigits(v)| > 0
    decreases v
  {
    if v > 0 {
      DigitsValue(v / 58);
      DigitOfChar(v % 58);
      DigitOfChar(0);
      var front, c := ToDigits(v / 58), CharOf(v % 58);
      assert (front + [c])[..|front|] == front;
      if |front| == 0 {
        assert v / 58 == 0;
        if v % 58 != 0 { DigitOfChar(v % 58); }
      }
    }
  }

  lemma {:induction false} LeadingRsValue(n: nat, s: string)
    requires AllDigits(s)
    ensures AllDigits(Rs(n) + s) && Value58(Rs(n) + s) == Value58(s)
    decreases |s|, n
  {
    assert Digit('r') == Some(0);
    var whole := Rs(n) + s;
    forall c <- whole ensures Digit(c).Some? {
      if c !in s { assert c in Rs(n); }
    }
    if |s| > 0 {
      assert whole[..|whole| - 1] == Rs(n) + s[..|s| - 1];
      LeadingRsValue(n, s[..|s| - 1]);
    } else if n > 0 {
      assert whole[..|whole| - 1] == Rs(n - 1) + s;
      LeadingRsValue(n - 1, s);
    } else {
      assert whole == s;
    }
  }

  lemma {:induction false} LeadingRsCount(n: nat, s: string)
    requires |s| > 0 ==> s[0] != 'r'
    ensures LeadingRs(Rs(n) + s) == n
  {
    if n > 0 {
      LeadingRsCount(n - 1, s);
      assert (Rs(n) + s)[1..] == Rs(n - 1) + s;
    } else {
      assert Rs(0) + s == s;
    }
  }

  lemma {:induction false} LeadingZerosValue(n: nat, b: Bytes)
    ensures Value256(Zeros(n) + b) == Value256(b)
  {
    if n > 0 {
      LeadingZerosValue(n - 1, b);
      assert Zeros(n) + b == [0] + (Zeros(n - 1) + b);
      ValuePrepend(0, Zeros(n - 1) + b);
    } else {
      assert Zeros(0) + b == b;
    }
  }

  lemma PayloadParts(payload: Bytes)
    ensures payload == Zeros(LeadingZeros(payload)) + payload[LeadingZeros(payload)..]
    ensures Value256(payload) == Value256(payload[LeadingZeros(payload)..])
  {
    LeadingZerosValue(LeadingZeros(payload), payload[LeadingZeros(payload)..]);
    assert payload == Zeros(LeadingZeros(payload)) + payload[LeadingZeros(payload)..];
  }

  lemma ValueZero(payload: Bytes)
    ensures Value256(payload) == 0 <==> LeadingZeros(payload) == |payload|
  {
    PayloadParts(payload);
    var rest := payload[LeadingZeros(payload)..];
    if |rest| > 0 {
      assert rest == [rest[0]] + rest[1..];
      ValuePrepend(rest[0], rest[1..]);
      LeadPositive(rest[0], Pow256(|rest| - 1));
    }
  }

  /** What the text of a payload reads as: its leading zero count and its value. */
  lemma TextReads(z: nat, v: nat)
    ensures var addr := Rs(z) + ToDigits(v);
            AllDigits(addr) && LeadingRs(addr) == z && Value58(addr) == v
  {
    hide Digit, CharOf;
    DigitsValue(v);
    LeadingRsValue(z, ToDigits(v));
    LeadingRsCount(z, ToDigits(v));
  }

  function TextOf(payload: Bytes): string { Rs(LeadingZeros(payload)) + ToDigits(Value256(payload)) }

  lemma TextBytes(payload: Bytes)
    ensures AllDigits(TextOf(payload))
    ensures AddressBytes(TextOf(payload)) == Zeros(LeadingZeros(payload)) + ToBytes(Value256(payload))
    ensures Value58(TextOf(payload)) == Value256(payload) && LeadingRs(TextOf(payload)) == LeadingZeros(payload)
  {
    hide Digit, CharOf, ToDigits, AllDigits, Value58, LeadingRs, Value256, ToBytes, Zeros, Rs;
    TextReads(LeadingZeros(payload), Value256(payload));
  }

  /** The bytes an address was printed from, leading zero bytes included; the all-zero payload
      reads back one byte longer. */
  lemma AddressBytesOf(payload: Bytes)
    ensures AllDigits(TextOf(payload))
    ensures AddressBytes(TextOf(payload)) == if LeadingZeros(payload) == |payload| then payload + [0] else payload
  {
    TextBytes(payload);
    assert ToBytes(0) == [0];
    hide Digit, CharOf, ToDigits, AllDigits, Value58, LeadingRs, Value256, ToBytes, Zeros, Rs, TextOf, AddressBytes;
    PayloadParts(payload);
    ValueZero(payload);
    var z := LeadingZeros(payload);
    if z < |payload| {
      ShortestIsToBytes(payload[z..]);
    } else {
      assert payload[z..] == [];
      assert payload == Zeros(z);
    }
  }

  /** Decoding what `_addr` prints gives the account back, for every account and checksum, and
      both decoders agree on it. */
  lemma AddressRoundTrip(account: Bytes, checksum: Bytes)
    requires |account| == 20 && |checksum| == 4
    ensures var addr := Address(account, checksum);
            AllDigits(addr) && |AddressBytes(addr)| >= 25 && AddressBytes(addr)[1..21] == account == AcctId(addr)
  {
    hide Digit, CharOf, ToDigits, AllDigits, Value58, LeadingRs, Value256, ToBytes, Rs, TextOf, AddressBytes;
    var payload := [0] + account + checksum;
    TextBytes(payload);
    AddressBytesOf(payload);
    ValueZero(payload);
    PayloadParts(payload);
    assert payload[1..21] == account;
    assert (payload + [0])[1..21] == account;
    if LeadingZeros(payload) == |payload| {
      assert payload[|payload|..] == [];
      assert payload == Zeros(|payload|) + [];
    }
  }
}
