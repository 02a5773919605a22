// Byte strings, 32-byte hashes, their lexicographic order, and uppercase hex text.
module Bytes {
  import opened Numbers

  type byte = b: int | 0 <= b < 256
  type Bytes = seq<byte>

  /** A 32-byte value: a ledger key, a transaction id, a node hash. */
  type Hash = h: Bytes | |h| == 32 witness
    [0, 0, 0, 0, 0, 0, 0, 0, 0, 0, 0, 0, 0, 0, 0, 0, 0, 0, 0, 0, 0, 0, 0, 0, 0, 0, 0, 0, 0, 0, 0, 0]

  const ZERO: Hash :=
    [0, 0, 0, 0, 0, 0, 0, 0, 0, 0, 0, 0, 0, 0, 0, 0, 0, 0, 0, 0, 0, 0, 0, 0, 0, 0, 0, 0, 0, 0, 0, 0]

  datatype Option<+T> = None | Some(value: T) {
    predicate IsFailure() { None? }
    function PropagateFailure<U>(): Option<U> requires None? { None }
    function Extract(): T requires Some? { value }
  }

  // ---- lexicographic order, as byte slices compare ----

  predicate Less(a: Bytes, b: Bytes) {
    if |b| == 0 then false
    else if |a| == 0 then true
    else a[0] < b[0] || (a[0] == b[0] && Less(a[1..], b[1..]))
  }

  lemma {:induction false} LessTotal(a: Bytes, b: Bytes)
    ensures a == b || Less(a, b) || Less(b, a)
  {
    if |a| > 0 && |b| > 0 && a[0] == b[0] {
      LessTotal(a[1..], b[1..]);
      if a[1..] == b[1..] { assert a == [a[0]] + a[1..] && b == [b[0]] + b[1..]; }
    } else if |a| == 0 && |b| == 0 {
      assert a == b;
    }
  }

  lemma {:induction false} LessIrreflexive(a: Bytes)
    ensures !Less(a, a)
  {
    if |a| > 0 { LessIrreflexive(a[1..]); }
  }

  lemma {:induction false} LessTransitive(a: Bytes, b: Bytes, c: Bytes)
    requires Less(a, b) && Less(b, c)
    ensures Less(a, c)
  {
    if |a| > 0 && a[0] == b[0] == c[0] { LessTransitive(a[1..], b[1..], c[1..]); }
  }

  lemma LessAsymmetric(a: Bytes, b: Bytes)
    requires Less(a, b)
    ensures !Less(b, a)
  {
    if Less(b, a) {
      LessTransitive(a, b, a);
      LessIrreflexive(a);
    }
  }

  // ---- hex ----

  function HexDigit(n: int): (c: char)
    requires 0 <= n < 16
  {
    "0123456789ABCDEF"[n]
  }

  /** The value of one hex digit; both cases read. */
  function HexValue(c: char): (n: Option<int>)
    ensures n.Some? ==> 0 <= n.value < 16
  {
    if '0' <= c <= '9' then Some(c as int - '0' as int)
    else if 'A' <= c <= 'F' then Some(c as int - 'A' as int + 10)
    else if 'a' <= c <= 'f' then Some(c as int - 'a' as int + 10)
    else None
  }

  function HexUpper(b: Bytes): (s: string)
    ensures |s| == 2 * |b|
  {
    if |b| == 0 then "" else [HexDigit(b[0] / 16), HexDigit(b[0] % 16)] + HexUpper(b[1..])
  }

  /** None for an odd length or a character that is no hex digit. */
  function HexDecode(s: string): Option<Bytes> {
    if |s| == 0 then Some([])
    else if |s| == 1 then None
    else
      var hi :- HexValue(s[0]);
      var lo :- HexValue(s[1]);
      var rest :- HexDecode(s[2..]);
      Some([16 * hi + lo] + rest)
  }

  lemma HexDigitValue(n: int)
    requires 0 <= n < 16
    ensures HexValue(HexDigit(n)) == Some(n)
    ensures HexDigit(n) as int == n + if n < 10 then '0' as int else 'A' as int - 10
  {
  }

  /** Reading back what HexUpper wrote. */
  lemma {:induction false} HexRoundTrip(b: Bytes)
    ensures HexDecode(HexUpper(b)) == Some(b)
  {
    if |b| > 0 {
      HexDigitValue(b[0] / 16);
      HexDigitValue(b[0] % 16);
      HexRoundTrip(b[1..]);
      assert HexUpper(b)[2..] == HexUpper(b[1..]);
      assert b == [b[0]] + b[1..];
    }
  }

  lemma HexInjective(a: Bytes, b: Bytes)
    requires HexUpper(a) == HexUpper(b)
    ensures a == b
  {
    HexRoundTrip(a);
    HexRoundTrip(b);
  }

  /** Each byte is two digits, its high half first. */
  lemma {:induction false} HexUpperAt(b: Bytes, i: nat)
    requires i < |b|
    ensures HexUpper(b)[2 * i] == HexDigit(b[i] / 16) && HexUpper(b)[2 * i + 1] == HexDigit(b[i] % 16)
  {
    if i > 0 {
      HexUpperAt(b[1..], i - 1);
      assert HexUpper(b)[2..] == HexUpper(b[1..]);
      assert HexUpper(b)[2 * i] == HexUpper(b)[2..][2 * (i - 1)] && HexUpper(b)[2 * i + 1] == HexUpper(b)[2..][2 * (i - 1) + 1];
    }
  }

  // ---- numbers, most significant byte first ----

  function Value256(b: Bytes): nat {
    if |b| == 0 then 0 else Value256(b[..|b| - 1]) * 256 + b[|b| - 1]
  }

  function Pow256(n: nat): (p: nat)
    ensures p > 0
  {
    if n == 0 then 1 else 256 * Pow256(n - 1)
  }

  lemma {:induction false} ValuePrepend(x: byte, b: Bytes)
    ensures Value256([x] + b) == x * Pow256(|b|) + Value256(b)
  {
    if |b| == 0 {
      assert [x] + b == [x] && [x][..0] == [];
    } else {
      var front, last := b[..|b| - 1], b[|b| - 1];
      ValuePrepend(x, front);
      assert ([x] + b)[..|b|] == [x] + front;
      calc {
        Value256([x] + b);
        Value256([x] + front) * 256 + last;
        (x * Pow256(|front|) + Value256(front)) * 256 + last;
        x * (256 * Pow256(|front|)) + (Value256(front) * 256 + last);
        x * Pow256(|b|) + Value256(b);
      }
    }
  }

  lemma {:induction false} ValueBelow(b: Bytes)
    ensures Value256(b) < Pow256(|b|)
  {
    if |b| > 0 { ValueBelow(b[..|b| - 1]); }
  }

  /** A number in so many bytes. */
  function BigEndian(v: nat, width: nat): (b: Bytes)
    ensures |b| == width
  {
    if width == 0 then [] else BigEndian(v / 256, width - 1) + [v % 256]
  }

  lemma {:induction false} BigEndianReads(v: nat, width: nat)
    requires v < Pow256(width)
    ensures Value256(BigEndian(v, width)) == v
  {
    if width > 0 {
      BigEndianReads(v / 256, width - 1);
      assert BigEndian(v, width)[..width - 1] == BigEndian(v / 256, width - 1);
    }
  }

  lemma {:induction false} BigEndianFirst(v: nat, width: nat)
    requires width > 0 && v < Pow256(width)
    ensures BigEndian(v, width)[0] == v / Pow256(width - 1)
  {
    if width > 1 {
      BigEndianFirst(v / 256, width - 1);
      DivTwice(v, 256, Pow256(width - 2));
    } else {
      assert BigEndian(v, 1) == [] + [v % 256];
    }
  }

  /** Of two byte strings of one length the lesser is the lesser number. */
  lemma {:induction false} LessIsNumeric(a: Bytes, b: Bytes)
    requires |a| == |b|
    ensures Less(a, b) <==> Value256(a) < Value256(b)
  {
    if |a| > 0 {
      LessIsNumeric(a[1..], b[1..]);
      assert a == [a[0]] + a[1..] && b == [b[0]] + b[1..];
      ValuePrepend(a[0], a[1..]);
      ValuePrepend(b[0], b[1..]);
      ValueBelow(a[1..]);
      ValueBelow(b[1..]);
      Leading(a[0], b[0], Value256(a[1..]), Value256(b[1..]), Pow256(|a| - 1));
    }
  }

  lemma Leading(x: nat, y: nat, a: nat, b: nat, p: nat)
    requires a < p && b < p
    ensures x * p + a < y * p + b <==> x < y || (x == y && a < b)
  {
    if x < y {
      assert x * p + p <= y * p by { assert (x + 1) * p <= y * p; }
    } else if y < x {
      assert y * p + p <= x * p by { assert (y + 1) * p <= x * p; }
    }
  }

  /** A byte string comes before every longer one that it begins. */
  lemma {:induction false} LessThanLonger(a: Bytes, x: Bytes)
    requires |x| > 0
    ensures Less(a, a + x)
  {
    if |a| > 0 {
      assert (a + x)[1..] == a[1..] + x;
      LessThanLonger(a[1..], x);
    }
  }

  // ---- text and sequences ----

  /** ASCII letters only. */
  function UpperChar(c: char): char {
    if 'a' <= c <= 'z' then (c as int - 32) as char else c
  }

  function Upper(s: string): (u: string)
    ensures |u| == |s|
  {
    if |s| == 0 then "" else [UpperChar(s[0])] + Upper(s[1..])
  }

  lemma UpperDigit(c: char)
    ensures HexValue(UpperChar(c)) == HexValue(c)
    ensures HexValue(c).Some? ==> HexDigit(HexValue(c).value) == UpperChar(c)
  {
  }

  /** Hex text in either case denotes a byte string exactly if, in upper case, it is that string's
      upper-case text. */
  lemma {:induction false} UpperDenotes(s: string, b: Bytes)
    ensures HexDecode(s) == Some(b) <==> Upper(s) == HexUpper(b)
    decreases |s|
  {
    if |s| >= 2 && |b| > 0 {
      UpperDenotes(s[2..], b[1..]);
      DecodeSteps(s, b);
      UpperSteps(s, b);
      DigitDenotes(s[0], b[0] / 16);
      DigitDenotes(s[1], b[0] % 16);
    }
  }

  lemma DigitDenotes(c: char, n: int)
    requires 0 <= n < 16
    ensures UpperChar(c) == HexDigit(n) <==> HexValue(c) == Some(n)
  {
    UpperDigit(c);
    HexDigitValue(n);
  }

  lemma DecodeSteps(s: string, b: Bytes)
    requires |s| >= 2 && |b| > 0
    ensures HexDecode(s) == Some(b) <==>
            HexValue(s[0]) == Some(b[0] / 16) && HexValue(s[1]) == Some(b[0] % 16) && HexDecode(s[2..]) == Some(b[1..])
  {
    hide HexValue;
    assert b == [b[0]] + b[1..];
    if HexDecode(s) == Some(b) {
      var rest := HexDecode(s[2..]).value;
      assert b[1..] == ([16 * HexValue(s[0]).value + HexValue(s[1]).value] + rest)[1..] == rest;
    }
  }

  lemma UpperSteps(s: string, b: Bytes)
    requires |s| >= 2 && |b| > 0
    ensures Upper(s) == HexUpper(b) <==>
            UpperChar(s[0]) == HexDigit(b[0] / 16) && UpperChar(s[1]) == HexDigit(b[0] % 16) && Upper(s[2..]) == HexUpper(b[1..])
  {
    hide UpperChar, HexDigit;
    assert s[1..][1..] == s[2..];
    var u, v := [UpperChar(s[0]), UpperChar(s[1])] + Upper(s[2..]), [HexDigit(b[0] / 16), HexDigit(b[0] % 16)] + HexUpper(b[1..]);
    assert Upper(s) == u && HexUpper(b) == v;
    hide Upper, HexUpper;
    if u == v {
      assert u[0] == v[0] && u[1] == v[1] && u[2..] == v[2..];
    }
  }

  ghost predicate Distinct<T>(s: seq<T>) {
    forall i, j | 0 <= i < j < |s| :: s[i] != s[j]
  }
}
