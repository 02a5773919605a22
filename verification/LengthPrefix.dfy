// The variable-length prefix of a serialized blob, as its two writers and three readers do it.
module LengthPrefix {
  import opened Bytes

  /** The longest length the prefix of a serialized field may state. */
  const MAX_LENGTH: nat := 918744

  /** `vl`: None where the script raises. */
  function Write(n: nat): Option<Bytes> {
    if n <= 192 then Some([n])
    else if n <= 12480 then Some([193 + (n - 193) / 256, (n - 193) % 256])
    else if n <= MAX_LENGTH then
      var m := n - 12481;
      Some([241 + m / 65536, m / 256 % 256, m % 256])
    else None
  }

  /** `_vl_encode`, which has no upper bound of its own: None where a byte would not fit. */
  function WriteUnchecked(n: nat): Option<Bytes> {
    if n <= 192 then Some([n])
    else if n <= 12480 then Some([193 + (n - 193) / 256, (n - 193) % 256])
    else
      var m := n - 12481;
      if 241 + m / 65536 < 256 then Some([241 + m / 65536, m / 256 % 256, m % 256]) else None
  }

  function Two(b1: int, b2: int): int { 193 + (b1 - 193) * 256 + b2 }

  function Three(b1: int, b2: int, b3: int): int { 12481 + (b1 - 241) * 65536 + b2 * 256 + b3 }

  /** `_vl`: the length at `i` and the index past its prefix; None past the end of the buffer. */
  function Read(b: Bytes, i: nat): (r: Option<(nat, nat)>)
    ensures r.Some? ==> i < r.value.1 <= |b| && r.value.1 <= i + 3
  {
    if i >= |b| then None
    else if b[i] <= 192 then Some((b[i], i + 1))
    else if b[i] <= 240 then
      if i + 1 >= |b| then None else Some((Two(b[i], b[i + 1]), i + 2))
    else
      if i + 2 >= |b| then None else Some((Three(b[i], b[i + 1], b[i + 2]), i + 3))
  }

  /** `Reader.vl`: the same, refusing a first byte of 255. */
  function ReadStrict(b: Bytes, i: nat): (r: Option<(nat, nat)>)
    ensures r.Some? ==> i < r.value.1 <= |b|
  {
    if i >= |b| then None
    else if b[i] <= 192 then Some((b[i], i + 1))
    else if b[i] <= 240 then
      if i + 1 >= |b| then None else Some((Two(b[i], b[i + 1]), i + 2))
    else if b[i] <= 254 then
      if i + 2 >= |b| then None else Some((Three(b[i], b[i + 1], b[i + 2]), i + 3))
    else None
  }

  /** `read_vl_length`: the length and the number of prefix bytes. */
  function ReadConsumed(b: Bytes, i: nat): Option<(nat, nat)> {
    if i >= |b| then None
    else
      var b1 := b[i];
      if b1 <= 192 then Some((b1, 1))
      else if b1 <= 240 then
        if i + 1 >= |b| then None else Some((Two(b1, b[i + 1]), 2))
      else if b1 <= 254 then
        if i + 2 >= |b| then None else Some((Three(b1, b[i + 1], b[i + 2]), 3))
      else None
  }

  /** The three readers differ on no buffer but one whose prefix starts with 255, which only the
      first of them reads. */
  lemma ReadersAgree(b: Bytes, i: nat)
    ensures ReadStrict(b, i) == (if i < |b| && b[i] == 255 then None else Read(b, i))
    ensures match ReadConsumed(b, i)
            case None => ReadStrict(b, i).None?
            case Some((n, used)) => ReadStrict(b, i) == Some((n, i + used))
    ensures i < |b| && b[i] == 255 ==> (Read(b, i).Some? <==> i + 2 < |b|)
  {
  }

  /** Both writers agree up to the limit, and every reader gives the length back, wherever the
      prefix stands and whatever follows it. */
  lemma WriteThenRead(before: Bytes, n: nat, after: Bytes)
    ensures n <= MAX_LENGTH <==> Write(n).Some?
    ensures n <= MAX_LENGTH ==> Write(n) == WriteUnchecked(n)
    ensures n <= MAX_LENGTH ==>
              var b := before + Write(n).value + after;
              var past := |before| + |Write(n).value|;
              && Read(b, |before|) == Some((n, past)) && ReadStrict(b, |before|) == Some((n, past))
              && ReadConsumed(b, |before|) == Some((n, |Write(n).value|))
  {
    if n <= MAX_LENGTH {
      var w := Write(n).value;
      var b := before + w + after;
      assert b[|before|] == w[0];
      if n > 192 { assert b[|before| + 1] == w[1]; }
      if n > 12480 {
        assert b[|before| + 2] == w[2];
        var m := n - 12481;
        assert m == m / 65536 * 65536 + m / 256 % 256 * 256 + m % 256;
      }
    }
  }

  /** The prefix of a length is unique: what a strict reader accepts within the limit is exactly
      what the writer writes for it. */
  lemma ReadThenWrite(b: Bytes, i: nat)
    requires ReadStrict(b, i).Some? && ReadStrict(b, i).value.0 <= MAX_LENGTH
    ensures Write(ReadStrict(b, i).value.0) == Some(b[i..ReadStrict(b, i).value.1])
  {
    var (n, past) := ReadStrict(b, i).value;
    if 240 < b[i] {
      var m := n - 12481;
      var x: int, y: int, z: int := b[i], b[i + 1], b[i + 2];
      assert m == (x - 241) * 65536 + y * 256 + z;
      assert m / 65536 == x - 241 && m / 256 % 256 == y && m % 256 == z;
    }
    assert b[i..past] == Write(n).value;
  }

  lemma ReadsOwn(a: Bytes, rest: Bytes)
    requires |a| <= MAX_LENGTH
    ensures Write(|a|).Some? && Read(Write(|a|).value + a + rest, 0) == Some((|a|, |Write(|a|).value|))
  {
    WriteThenRead([], |a|, a + rest);
    hide Write, Read;
    var w := Write(|a|).value;
    assert [] + w + (a + rest) == w + a + rest;
  }

  lemma SplitEqual(p: Bytes, a: Bytes, restA: Bytes, q: Bytes, b: Bytes, restB: Bytes)
    requires p + a + restA == q + b + restB && |p| == |q| && |a| == |b|
    ensures a == b && restA == restB
  {
    var whole := p + a + restA;
    assert a == whole[|p|..|p| + |a|] && b == whole[|p|..|p| + |a|];
    assert restA == whole[|p| + |a|..] && restB == whole[|p| + |a|..];
  }

  /** Two length-prefixed strings with the same concatenation are the same strings. */
  lemma PrefixedInjective(a: Bytes, restA: Bytes, b: Bytes, restB: Bytes)
    requires |a| <= MAX_LENGTH && |b| <= MAX_LENGTH
    requires Write(|a|).Some? && Write(|b|).Some?
    requires Write(|a|).value + a + restA == Write(|b|).value + b + restB
    ensures a == b && restA == restB
  {
    hide Write, Read;
    ReadsOwn(a, restA);
    ReadsOwn(b, restB);
    SplitEqual(Write(|a|).value, a, restA, Write(|b|).value, b, restB);
  }
}
