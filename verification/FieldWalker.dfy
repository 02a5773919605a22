// Walking serialized ledger objects without decoding them: the field walkers of
// scripts/fetch_tx_bundle.py (Lenient) and scripts/check_field_meta.py (Strict), and the slicing
// and re-joining of fields built on them.
module FieldWalker {
  import opened Bytes
  import LengthPrefix

  /** Lenient: `_skip`, which computes an index and checks no bound but those it reads through.
      Strict: `Reader.skip_value`, which refuses a truncated value, an unknown array element or
      path step, and knows an MPT issue. */
  datatype Mode = Lenient | Strict

  const OBJECT_END: byte := 0xE1
  const ARRAY_END: byte := 0xF1

  /** The value lengths by type code. */
  function FixedLength(mode: Mode, t: nat): Option<nat> {
    match t
    case 1 => Some(2)
    case 2 => Some(4)
    case 3 => Some(8)
    case 4 => Some(16)
    case 5 => Some(32)
    case 9 => Some(12)
    case 16 => Some(1)
    case 17 => Some(20)
    case 21 => Some(24)
    case 26 => Some(20)
    case 10 => if mode.Strict? then Some(4) else None
    case 11 => if mode.Strict? then Some(8) else None
    case 20 => if mode.Strict? then Some(12) else None
    case 22 => if mode.Strict? then Some(48) else None
    case 23 => if mode.Strict? then Some(64) else None
    case _ => None
  }

  predicate Prefixed(t: nat) { t == 7 || t == 8 || t == 19 }

  // ---- field headers ----

  /** `_hdr`, `Reader.header` and `read_field_header`: (type, field, index past the header). */
  function Header(b: Bytes, i: nat): (r: Option<(nat, nat, nat)>)
    ensures r.Some? ==> i < r.value.2 <= |b|
  {
    if i >= |b| then None
    else
      var hi, lo := b[i] / 16, b[i] % 16;
      if hi == 0 && i + 1 >= |b| then None
      else
        var t, j := if hi == 0 then b[i + 1] else hi, if hi == 0 then i + 2 else i + 1;
        if lo == 0 && j >= |b| then None
        else Some((t, if lo == 0 then b[j] else lo, if lo == 0 then j + 1 else j))
  }

  function WriteHeader(t: byte, f: byte): (r: Bytes)
    ensures 0 < |r| <= 3
  {
    if t < 16 && f < 16 then [t as int * 16 + f]
    else if t < 16 then [t as int * 16, f]
    else if f < 16 then [f, t]
    else [0, t, f]
  }

  /** The serialization x stands at index i of b. */
  ghost predicate At(b: Bytes, i: nat, x: Bytes) {
    i + |x| <= |b| && forall k {:trigger x[k]} | 0 <= k < |x| :: b[i + k] == x[k]
  }

  lemma AtParts(b: Bytes, i: nat, x: Bytes, y: Bytes)
    requires At(b, i, x + y)
    ensures At(b, i, x) && At(b, i + |x|, y)
  {
    assert forall k | 0 <= k < |x| :: (x + y)[k] == x[k];
    assert forall k | 0 <= k < |y| :: (x + y)[|x| + k] == y[k];
  }

  lemma AtSlice(b: Bytes, i: nat, x: Bytes)
    requires At(b, i, x)
    ensures b[i..i + |x|] == x && Slice(b, i, i + |x|) == x
  {
  }

  lemma AtByte(b: Bytes, i: nat, x: Bytes, k: nat)
    requires At(b, i, x) && k < |x|
    ensures i + k < |b| && b[i + k] == x[k]
  {
  }

  lemma AtFirst(b: Bytes, i: nat, x: Bytes)
    requires At(b, i, x) && |x| > 0
    ensures i < |b|
  {
  }

  lemma HeaderExact(b: Bytes, i: nat, t: byte, f: byte)
    requires t > 0 && f > 0 && At(b, i, WriteHeader(t, f))
    ensures Header(b, i) == Some((t, f, i + |WriteHeader(t, f)|))
    ensures t == 14 && f == 1 <==> b[i] == OBJECT_END
    ensures t == 15 && f == 1 <==> b[i] == ARRAY_END
  {
    var w := WriteHeader(t, f);
    AtByte(b, i, w, 0);
    if |w| > 1 { AtByte(b, i, w, 1); }
    if |w| > 2 { AtByte(b, i, w, 2); }
  }

  // ---- skipping ----

  function Left(b: Bytes, i: nat): nat { if i < |b| then |b| - i else 0 }

  /** An index reached by adding a length: Strict refuses one past the buffer. */
  function Take(mode: Mode, b: Bytes, i: nat, n: nat): (r: Option<nat>)
    ensures r.Some? ==> r.value == i + n
  {
    if mode.Strict? && i + n > |b| then None else Some(i + n)
  }

  function SkipPrefixed(mode: Mode, b: Bytes, i: nat): (r: Option<nat>)
    ensures r.Some? ==> r.value > i
  {
    var (n, j) :- if mode.Strict? then LengthPrefix.ReadStrict(b, i) else LengthPrefix.Read(b, i);
    Take(mode, b, j, n)
  }

  const XRP20: Bytes := [0, 0, 0, 0, 0, 0, 0, 0, 0, 0, 0, 0, 0, 0, 0, 0, 0, 0, 0, 0]
  const NO_ACCOUNT: Bytes := [0, 0, 0, 0, 0, 0, 0, 0, 0, 0, 0, 0, 0, 0, 0, 0, 0, 0, 0, 1]

  /** b[i:j] as Python slices it. */
  function Slice(b: Bytes, i: nat, j: nat): Bytes
    requires i <= j
  {
    if i >= |b| then [] else if j > |b| then b[i..] else b[i..j]
  }

  function SkipIssue(mode: Mode, b: Bytes, i: nat): (r: Option<nat>)
    ensures r.Some? ==> r.value > i
  {
    if mode.Lenient? then Some(i + (if Slice(b, i, i + 20) == XRP20 then 20 else 40))
    else if i + 20 > |b| then None
    else if b[i..i + 20] == XRP20 then Some(i + 20)
    else if i + 40 > |b| then None
    else if b[i + 20..i + 40] == NO_ACCOUNT then Take(mode, b, i + 40, 4)
    else Some(i + 40)
  }

  /** IOU 48 bytes, MPT 33, XRP 8. */
  function SkipAmount(mode: Mode, b: Bytes, i: nat): (r: Option<nat>)
    ensures r.Some? ==> r.value > i
  {
    if i >= |b| then None
    else Take(mode, b, i, if b[i] >= 0x80 then 48 else if b[i] / 32 % 2 == 1 then 33 else 8)
  }

  /** Door account, issue, door account, issue. */
  function SkipBridge(mode: Mode, b: Bytes, i: nat): (r: Option<nat>)
    ensures r.Some? ==> r.value > i
  {
    var j1 :- SkipPrefixed(mode, b, i);
    var j2 :- SkipIssue(mode, b, j1);
    var j3 :- SkipPrefixed(mode, b, j2);
    SkipIssue(mode, b, j3)
  }

  predicate Account(flags: byte) { flags % 2 == 1 }
  predicate Currency(flags: byte) { flags / 16 % 2 == 1 }
  predicate Issuer(flags: byte) { flags / 32 % 2 == 1 }

  function PartsLength(flags: byte): nat {
    20 * ((if Account(flags) then 1 else 0) + (if Currency(flags) then 1 else 0) + (if Issuer(flags) then 1 else 0))
  }

  /** No bit but the three that name a part. */
  predicate KnownStep(flags: byte) {
    flags == (if Account(flags) then 1 else 0) + (if Currency(flags) then 16 else 0) + (if Issuer(flags) then 32 else 0)
  }

  function SkipPaths(mode: Mode, b: Bytes, i: nat): (r: Option<nat>)
    ensures r.Some? ==> r.value > i
    decreases Left(b, i)
  {
    if i >= |b| then None
    else if b[i] == 0x00 then Some(i + 1)
    else if b[i] == 0xFF then SkipPaths(mode, b, i + 1)
    else if mode.Strict? && !KnownStep(b[i]) then None
    else
      var j :- Take(mode, b, i + 1, PartsLength(b[i]));
      SkipPaths(mode, b, j)
  }

  /** The index just past a value of type t that starts at i. */
  function Skip(mode: Mode, b: Bytes, i: nat, t: nat): (r: Option<nat>)
    ensures r.Some? ==> r.value > i
    decreases Left(b, i), 1
  {
    var fixed := FixedLength(mode, t);
    if fixed.Some? then Take(mode, b, i, fixed.value)
    else if t == 6 then SkipAmount(mode, b, i)
    else if Prefixed(t) then SkipPrefixed(mode, b, i)
    else if t == 14 then SkipFields(mode, b, i)
    else if t == 15 then SkipElements(mode, b, i)
    else if t == 24 then SkipIssue(mode, b, i)
    else if t == 25 then SkipBridge(mode, b, i)
    else if t == 18 then SkipPaths(mode, b, i)
    else None
  }

  /** An object body: fields until its end marker. */
  function SkipFields(mode: Mode, b: Bytes, i: nat): (r: Option<nat>)
    ensures r.Some? ==> r.value > i
    decreases Left(b, i), 0
  {
    if i >= |b| then None
    else if b[i] == OBJECT_END then Some(i + 1)
    else
      var (t, _, j) :- Header(b, i);
      var k :- Skip(mode, b, j, t);
      SkipFields(mode, b, k)
  }

  /** An array body: (header, object body) until its end marker. */
  function SkipElements(mode: Mode, b: Bytes, i: nat): (r: Option<nat>)
    ensures r.Some? ==> r.value > i
    decreases Left(b, i), 0
  {
    if i >= |b| then None
    else if b[i] == ARRAY_END then Some(i + 1)
    else
      var (t, _, j) :- Header(b, i);
      if mode.Strict? && t != 14 then None
      else
        var k :- SkipFields(mode, b, j);
        SkipElements(mode, b, k)
  }

  /** On a length-prefixed value the strict walker is the lenient one, but that it refuses a first byte
      of 255 and a value that runs past the buffer. */
  lemma StrictOnBlob(b: Bytes, i: nat)
    ensures var lenient := SkipPrefixed(Lenient, b, i);
            SkipPrefixed(Strict, b, i)
            == if i < |b| && b[i] != 255 && lenient.Some? && lenient.value <= |b| then lenient else None
  {
    LengthPrefix.ReadersAgree(b, i);
    hide LengthPrefix.Read, LengthPrefix.ReadStrict, LengthPrefix.ReadConsumed;
  }

  // ---- the strict walker stays inside ----

  ghost predicate Inside(r: Option<nat>, b: Bytes) { r.Some? ==> r.value <= |b| }

  lemma FlatInside(b: Bytes, i: nat)
    ensures Inside(SkipPrefixed(Strict, b, i), b) && Inside(SkipIssue(Strict, b, i), b) && Inside(SkipAmount(Strict, b, i), b)
    ensures Inside(SkipBridge(Strict, b, i), b)
    ensures forall n: nat :: Inside(Take(Strict, b, i, n), b)
  {
    hide LengthPrefix.ReadStrict;
  }

  lemma {:induction false} PathsInside(b: Bytes, i: nat)
    ensures Inside(SkipPaths(Strict, b, i), b)
    decreases Left(b, i)
  {
    if i < |b| && b[i] != 0x00 {
      if b[i] == 0xFF {
        PathsInside(b, i + 1);
      } else {
        var j := Take(Strict, b, i + 1, PartsLength(b[i]));
        if j.Some? { PathsInside(b, j.value); }
      }
    }
    hide Take, KnownStep, PartsLength;
  }

  /** Whatever the bytes, the strict walker never stops past the buffer: what is cut short is refused. */
  lemma {:induction false} StrictStaysInside(b: Bytes, i: nat, t: nat)
    ensures Inside(Skip(Strict, b, i, t), b)
    decreases Left(b, i), 1
  {
    FlatInside(b, i);
    hide Take, SkipPrefixed, SkipIssue, SkipAmount, SkipBridge, SkipPaths, SkipFields, SkipElements, Prefixed, FixedLength;
    if t == 14 { FieldsInside(b, i); }
    if t == 15 { ElementsInside(b, i); }
    if t == 18 { PathsInside(b, i); }
  }

  lemma {:induction false} FieldsInside(b: Bytes, i: nat)
    ensures Inside(SkipFields(Strict, b, i), b)
    decreases Left(b, i), 0
  {
    hide Skip, Header;
    if i < |b| && b[i] != OBJECT_END {
      var h := Header(b, i);
      if h.Some? {
        var k := Skip(Strict, b, h.value.2, h.value.0);
        if k.Some? { FieldsInside(b, k.value); }
      }
    }
  }

  lemma {:induction false} ElementsInside(b: Bytes, i: nat)
    ensures Inside(SkipElements(Strict, b, i), b)
    decreases Left(b, i), 0
  {
    hide SkipFields, Header;
    if i < |b| && b[i] != ARRAY_END {
      var h := Header(b, i);
      if h.Some? {
        var k := SkipFields(Strict, b, h.value.2);
        if k.Some? { ElementsInside(b, k.value); }
      }
    }
  }

  // ---- the walkers as the scripts run them ----

  method WalkPaths(mode: Mode, b: Bytes, start: nat) returns (r: Option<nat>)
    ensures r == SkipPaths(mode, b, start)
  {
    var i: nat := start;
    while true
      invariant SkipPaths(mode, b, i) == SkipPaths(mode, b, start)
      decreases Left(b, i)
    {
      if i >= |b| { return None; }
      var step := b[i];
      if step == 0x00 { return Some(i + 1); }
      if step == 0xFF { i := i + 1; continue; }
      if mode.Strict? && !KnownStep(step) { return None; }
      var next := Take(mode, b, i + 1, PartsLength(step));
      if next.None? { return None; }
      i := next.value;
    }
  }

  method Walk(mode: Mode, b: Bytes, i: nat, t: nat) returns (r: Option<nat>)
    ensures r == Skip(mode, b, i, t)
    decreases Left(b, i), 1
  {
    var fixed := FixedLength(mode, t);
    if fixed.Some? { return Take(mode, b, i, fixed.value); }
    match t {
      case 14 => r := WalkFields(mode, b, i);
      case 15 => r := WalkElements(mode, b, i);
      case 18 => r := WalkPaths(mode, b, i);
      case _ => r := Skip(mode, b, i, t);
    }
  }

  method WalkFields(mode: Mode, b: Bytes, start: nat) returns (r: Option<nat>)
    ensures r == SkipFields(mode, b, start)
    decreases Left(b, start), 0
  {
    var i := start;
    while true
      invariant i >= start && SkipFields(mode, b, i) == SkipFields(mode, b, start)
      decreases Left(b, i)
    {
      if i >= |b| { return None; }
      if b[i] == OBJECT_END { return Some(i + 1); }
      var header := Header(b, i);
      if header.None? { return None; }
      var next := Walk(mode, b, header.value.2, header.value.0);
      if next.None? { return None; }
      i := next.value;
    }
  }

  method WalkElements(mode: Mode, b: Bytes, start: nat) returns (r: Option<nat>)
    ensures r == SkipElements(mode, b, start)
    decreases Left(b, start), 0
  {
    var i := start;
    while true
      invariant i >= start && SkipElements(mode, b, i) == SkipElements(mode, b, start)
      decreases Left(b, i)
    {
      if i >= |b| { return None; }
      if b[i] == ARRAY_END { return Some(i + 1); }
      var header := Header(b, i);
      if header.None? || (mode.Strict? && header.value.0 != 14) { return None; }
      var next := WalkFields(mode, b, header.value.2);
      if next.None? { return None; }
      i := next.value;
    }
  }

  // ---- what the format serializes ----

  datatype Asset =
    | XrpAsset
    | IouAsset(currency: Bytes, issuer: Bytes)
    | MptAsset(issuer: Bytes, sequence: Bytes)

  /** A path step names an account, a currency or an issuer, or more than one of them. */
  datatype PathItem = Separator | Step(account: Option<Bytes>, currency: Option<Bytes>, issuer: Option<Bytes>)

  /** The values of one width: numbers, hashes and codes. */
  datatype Scalar =
    | UInt8(n: nat) | UInt16(n: nat) | UInt32(n: nat) | UInt64(n: nat)
    | Int32(i: int) | Int64(i: int)
    | Number(mantissa: int, exponent: int)
    | Hash96(bits: Bytes) | Hash128(bits: Bytes) | Hash160(bits: Bytes) | Hash192(bits: Bytes) | Hash256(bits: Bytes)
    | Hash384(bits: Bytes) | Hash512(bits: Bytes)
    | CurrencyCode(bits: Bytes)

  datatype Value =
    | Fixed(scalar: Scalar)
    | Xrp(positive: bool, drops: nat)
    | Iou(number: nat, currency: Bytes, issuer: Bytes)    // sign, exponent and mantissa in one number
    | Mpt(positive: bool, amount: nat, issuance: Bytes)
    | Blob(bytes: Bytes)
    | AccountId(bytes: Bytes)
    | Vector(hashes: seq<Hash>)
    | Object(fields: seq<Field>)
    | Array(elements: seq<Field>)
    | Issue(asset: Asset)
    | Bridge(door: Bytes, asset: Asset, otherDoor: Bytes, otherAsset: Asset)
    | Paths(items: seq<PathItem>)

  datatype Field = Field(t: byte, f: byte, value: Value)

  /** The type codes of the format. */
  function ScalarType(s: Scalar): nat {
    match s
    case UInt16(_) => 1
    case UInt32(_) => 2
    case UInt64(_) => 3
    case Hash128(_) => 4
    case Hash256(_) => 5
    case Number(_, _) => 9
    case Int32(_) => 10
    case Int64(_) => 11
    case UInt8(_) => 16
    case Hash160(_) => 17
    case Hash96(_) => 20
    case Hash192(_) => 21
    case Hash384(_) => 22
    case Hash512(_) => 23
    case CurrencyCode(_) => 26
  }

  function TypeOf(v: Value): nat {
    match v
    case Fixed(scalar) => ScalarType(scalar)
    case Xrp(_, _) => 6
    case Iou(_, _, _) => 6
    case Mpt(_, _, _) => 6
    case Blob(_) => 7
    case AccountId(_) => 8
    case Vector(_) => 19
    case Object(_) => 14
    case Array(_) => 15
    case Issue(_) => 24
    case Bridge(_, _, _, _) => 25
    case Paths(_) => 18
  }

  ghost predicate ValidAsset(mode: Mode, a: Asset) {
    match a
    case XrpAsset => true
    case IouAsset(currency, issuer) => |currency| == |issuer| == 20 && currency != XRP20 && issuer != NO_ACCOUNT
    case MptAsset(issuer, sequence) => mode.Strict? && |issuer| == 20 && |sequence| == 4 && issuer != XRP20
  }

  ghost predicate Part(p: Option<Bytes>) { p.Some? ==> |p.value| == 20 }

  ghost predicate ValidItem(p: PathItem) {
    p.Step? ==>
      (p.account.Some? || p.currency.Some? || p.issuer.Some?) && Part(p.account) && Part(p.currency) && Part(p.issuer)
  }

  ghost predicate SignedFits(i: int, width: nat) { 0 <= 2 * i + Pow256(width) && 2 * i < Pow256(width) }

  /** Numbers within their bits, hashes of as many bits as their names say, eight to a byte; some only
      the strict walker knows. */
  ghost predicate ValidScalar(mode: Mode, s: Scalar) {
    match s
    case UInt8(n) => n < Pow256(1)
    case UInt16(n) => n < Pow256(2)
    case UInt32(n) => n < Pow256(4)
    case UInt64(n) => n < Pow256(8)
    case Int32(i) => mode.Strict? && SignedFits(i, 4)
    case Int64(i) => mode.Strict? && SignedFits(i, 8)
    case Number(m, e) => SignedFits(m, 8) && SignedFits(e, 4)
    case Hash96(b) => mode.Strict? && 8 * |b| == 96
    case Hash128(b) => 8 * |b| == 128
    case Hash160(b) => 8 * |b| == 160
    case Hash192(b) => 8 * |b| == 192
    case Hash256(b) => 8 * |b| == 256
    case Hash384(b) => mode.Strict? && 8 * |b| == 384
    case Hash512(b) => mode.Strict? && 8 * |b| == 512
    case CurrencyCode(b) => 8 * |b| == 160
  }

  /** A value of the format that a walker of this mode is meant for. */
  ghost predicate Valid(mode: Mode, v: Value) {
    match v
    case Fixed(scalar) => ValidScalar(mode, scalar)
    case Xrp(_, drops) => drops < 0x2000_0000_0000_0000
    case Iou(number, currency, issuer) => number < 0x8000_0000_0000_0000 && |currency| == |issuer| == 20
    case Mpt(_, amount, issuance) => amount < 0x8000_0000_0000_0000 && |issuance| == 24
    case Blob(bytes) => |bytes| <= LengthPrefix.MAX_LENGTH
    case AccountId(bytes) => |bytes| <= LengthPrefix.MAX_LENGTH
    case Vector(hashes) => 32 * |hashes| <= LengthPrefix.MAX_LENGTH
    case Object(fields) => forall x <- fields :: ValidField(mode, x)
    case Array(elements) => forall x <- elements :: x.t == 14 && x.value.Object? && ValidField(mode, x)
    case Issue(asset) => ValidAsset(mode, asset)
    case Bridge(door, asset, otherDoor, otherAsset) =>
      && |door| <= LengthPrefix.MAX_LENGTH && |otherDoor| <= LengthPrefix.MAX_LENGTH
      && ValidAsset(mode, asset) && ValidAsset(mode, otherAsset)
    case Paths(items) => forall p <- items :: ValidItem(p)
  }

  /** A field whose code is no end marker and whose type is its value's. */
  ghost predicate ValidField(mode: Mode, x: Field) {
    x.t > 0 && x.f > 0 && x.t == TypeOf(x.value) && !(x.t == 14 && x.f == 1) && !(x.t == 15 && x.f == 1) && Valid(mode, x.value)
  }

  /** Nothing longer than the limit is written. */
  function WritePrefixed(bytes: Bytes): Bytes {
    var prefix := LengthPrefix.Write(|bytes|);
    if prefix.Some? then prefix.value + bytes else []
  }

  function WriteAsset(a: Asset): Bytes {
    match a
    case XrpAsset => XRP20
    case IouAsset(currency, issuer) => currency + issuer
    case MptAsset(issuer, sequence) => issuer + (NO_ACCOUNT + sequence)
  }

  function WriteItems(items: seq<PathItem>): Bytes {
    if |items| == 0 then [0x00]
    else WriteItem(items[0]) + WriteItems(items[1..])
  }

  /** Two's complement in so many bytes. */
  function Signed(i: int, width: nat): Bytes { BigEndian(i % Pow256(width), width) }

  function WriteScalar(s: Scalar): Bytes {
    match s
    case UInt8(n) => BigEndian(n, 1)
    case UInt16(n) => BigEndian(n, 2)
    case UInt32(n) => BigEndian(n, 4)
    case UInt64(n) => BigEndian(n, 8)
    case Int32(i) => Signed(i, 4)
    case Int64(i) => Signed(i, 8)
    case Number(m, e) => Signed(m, 8) + Signed(e, 4)
    case _ => s.bits
  }

  function Concatenated(hashes: seq<Hash>): (b: Bytes)
    ensures |b| == 32 * |hashes|
  {
    if |hashes| == 0 then [] else hashes[0] + Concatenated(hashes[1..])
  }

  /** An XRP amount: bit 62 is the sign, the drops below it. */
  function WriteXrp(positive: bool, drops: nat): Bytes {
    BigEndian((if positive then 0x4000_0000_0000_0000 else 0) + drops, 8)
  }

  /** An issued amount: bit 63, then sign, exponent and mantissa; its currency and its issuer. */
  function WriteIou(number: nat, currency: Bytes, issuer: Bytes): Bytes {
    BigEndian(0x8000_0000_0000_0000 + number, 8) + (currency + issuer)
  }

  /** An MPT amount: a byte that says so and holds the sign, the amount, and the 192-bit issuance. */
  function WriteMpt(positive: bool, amount: nat, issuance: Bytes): Bytes {
    [if positive then 0x60 else 0x20] + (BigEndian(amount, 8) + issuance)
  }

  function Write(v: Value): Bytes
    decreases v, 0
  {
    match v
    case Fixed(scalar) => WriteScalar(scalar)
    case Xrp(positive, drops) => WriteXrp(positive, drops)
    case Iou(number, currency, issuer) => WriteIou(number, currency, issuer)
    case Mpt(positive, amount, issuance) => WriteMpt(positive, amount, issuance)
    case Blob(bytes) => WritePrefixed(bytes)
    case AccountId(bytes) => WritePrefixed(bytes)
    case Vector(hashes) => WritePrefixed(Concatenated(hashes))
    case Object(fields) => WriteFields(fields) + [OBJECT_END]
    case Array(elements) => WriteFields(elements) + [ARRAY_END]
    case Issue(asset) => WriteAsset(asset)
    case Bridge(door, asset, otherDoor, otherAsset) =>
      WritePrefixed(door) + (WriteAsset(asset) + (WritePrefixed(otherDoor) + WriteAsset(otherAsset)))
    case Paths(items) => WriteItems(items)
  }

  function WriteField(x: Field): Bytes
    decreases x, 1
  {
    WriteHeader(x.t, x.f) + Write(x.value)
  }

  function WriteFields(xs: seq<Field>): Bytes
    decreases xs, 2
  {
    if |xs| == 0 then [] else WriteField(xs[0]) + WriteFields(xs[1..])
  }

  // ---- the walkers stop exactly past each value ----

  lemma PrefixedExact(mode: Mode, b: Bytes, i: nat, bytes: Bytes)
    requires |bytes| <= LengthPrefix.MAX_LENGTH && At(b, i, WritePrefixed(bytes))
    ensures SkipPrefixed(mode, b, i) == Some(i + |WritePrefixed(bytes)|)
  {
    var w := LengthPrefix.Write(|bytes|).value;
    LengthPrefix.WriteThenRead(b[..i], |bytes|, b[i + |w|..]);
    AtParts(b, i, w, bytes);
    AtSlice(b, i, w);
    assert b == b[..i] + w + b[i + |w|..];
  }

  lemma AssetExact(mode: Mode, b: Bytes, i: nat, a: Asset)
    requires ValidAsset(mode, a) && At(b, i, WriteAsset(a))
    ensures SkipIssue(mode, b, i) == Some(i + |WriteAsset(a)|)
  {
    match a {
      case XrpAsset =>
      case IouAsset(currency, issuer) => AtParts(b, i, currency, issuer);
      case MptAsset(issuer, sequence) =>
        AtParts(b, i, issuer, NO_ACCOUNT + sequence);
        AtParts(b, i + 20, NO_ACCOUNT, sequence);
    }
  }

  /** The parts present, each in 20 bytes, after a byte with a bit for each. */
  function WriteItem(p: PathItem): Bytes {
    match p
    case Separator => [0xFF]
    case Step(account, currency, issuer) => [StepFlags(account.Some?, currency.Some?, issuer.Some?)] + WriteParts(account, currency, issuer)
  }

  function StepFlags(account: bool, currency: bool, issuer: bool): byte {
    (if account then 0x01 else 0) + (if currency then 0x10 else 0) + (if issuer then 0x20 else 0)
  }

  function WriteParts(account: Option<Bytes>, currency: Option<Bytes>, issuer: Option<Bytes>): Bytes {
    PartBytes(account) + (PartBytes(currency) + PartBytes(issuer))
  }

  function PartBytes(p: Option<Bytes>): Bytes { if p.Some? then p.value else [] }

  lemma FlagsTell(account: bool, currency: bool, issuer: bool)
    requires account || currency || issuer
    ensures var f := StepFlags(account, currency, issuer);
            && 0 < f < 0xFF && KnownStep(f)
            && PartsLength(f) == 20 * ((if account then 1 else 0) + (if currency then 1 else 0) + (if issuer then 1 else 0))
  {
  }

  /** A step's first byte says which parts follow: the account by bit 0, the currency by bit 4, the
      issuer by bit 5, in that order. */
  lemma StepTells(p: PathItem)
    requires p.Step? && ValidItem(p)
    ensures var w := WriteItem(p);
            && (w[0] % 2 == 1 <==> p.account.Some?) && (w[0] / 16 % 2 == 1 <==> p.currency.Some?)
            && (w[0] / 32 % 2 == 1 <==> p.issuer.Some?)
            && w[1..] == PartBytes(p.account) + PartBytes(p.currency) + PartBytes(p.issuer)
  {
  }

  lemma ItemExact(mode: Mode, b: Bytes, i: nat, p: PathItem)
    requires ValidItem(p) && At(b, i, WriteItem(p))
    ensures SkipPaths(mode, b, i) == SkipPaths(mode, b, i + |WriteItem(p)|)
  {
    AtByte(b, i, WriteItem(p), 0);
    if p.Step? { FlagsTell(p.account.Some?, p.currency.Some?, p.issuer.Some?); }
    hide StepFlags, KnownStep, PartsLength;
  }

  lemma {:induction false} PathsExact(mode: Mode, b: Bytes, i: nat, items: seq<PathItem>)
    requires (forall p <- items :: ValidItem(p)) && At(b, i, WriteItems(items))
    ensures SkipPaths(mode, b, i) == Some(i + |WriteItems(items)|)
    decreases |items|
  {
    hide *;
    if |items| > 0 {
      WriteItemsFirst(items);
      AtParts(b, i, WriteItem(items[0]), WriteItems(items[1..]));
      ItemExact(mode, b, i, items[0]);
      PathsExact(mode, b, i + |WriteItem(items[0])|, items[1..]);
    } else {
      NoItems(mode, b, i, items);
    }
  }

  lemma NoItems(mode: Mode, b: Bytes, i: nat, items: seq<PathItem>)
    requires |items| == 0 && At(b, i, WriteItems(items))
    ensures SkipPaths(mode, b, i) == Some(i + |WriteItems(items)|)
  {
    AtByte(b, i, [0x00], 0);
    hide At;
  }

  lemma WriteItemsFirst(items: seq<PathItem>)
    requires |items| > 0
    ensures WriteItems(items) == WriteItem(items[0]) + WriteItems(items[1..])
  {
    hide ValidItem;
  }

  /** XRP's currency is all zero bytes; the issuer that marks an MPT ends in a one. */
  lemma MarkedIssuers()
    ensures |XRP20| == |NO_ACCOUNT| == 20
    ensures forall i | 0 <= i < 20 :: XRP20[i] == 0 && NO_ACCOUNT[i] == if i == 19 then 1 else 0
  {
  }

  lemma Widths()
    ensures Pow256(1) == 0x100 && Pow256(2) == 0x1_0000 && Pow256(4) == 0x1_0000_0000
    ensures Pow256(7) == 0x100_0000_0000_0000 && Pow256(8) == 0x1_0000_0000_0000_0000
  {
    assert Pow256(3) == 0x100_0000 && Pow256(5) == 0x100_0000_0000 && Pow256(6) == 0x1_0000_0000_0000;
  }

  lemma EightFirst(v: nat)
    requires v < 0x1_0000_0000_0000_0000
    ensures BigEndian(v, 8)[0] == v / 0x100_0000_0000_0000 && Value256(BigEndian(v, 8)) == v
  {
    Widths();
    hide Pow256, BigEndian;
    BigEndianFirst(v, 8);
    BigEndianReads(v, 8);
  }

  /** An XRP amount reads back: the sign is bit 62, and the rest is the drops. */
  lemma XrpReads(positive: bool, drops: nat)
    requires drops < 0x4000_0000_0000_0000
    ensures Value256(WriteXrp(positive, drops)) == drops + if positive then 0x4000_0000_0000_0000 else 0
  {
    EightFirst((if positive then 0x4000_0000_0000_0000 else 0) + drops);
  }

  lemma XrpFirstByte(positive: bool, drops: nat)
    requires drops < 0x4000_0000_0000_0000
    ensures var w := WriteXrp(positive, drops);
            |w| == 8 && w[0] < 0x80 && (w[0] / 32 % 2 == 1 <==> drops >= 0x2000_0000_0000_0000)
  {
    hide BigEndian;
    EightFirst((if positive then 0x4000_0000_0000_0000 else 0) + drops);
    var top := drops / 0x100_0000_0000_0000;
    assert top < 64;
    assert top >= 32 <==> drops >= 0x2000_0000_0000_0000;
  }

  lemma AmountExact(mode: Mode, b: Bytes, i: nat, v: Value)
    requires v.Xrp? || v.Iou? || v.Mpt?
    requires Valid(mode, v) && At(b, i, Write(v))
    ensures SkipAmount(mode, b, i) == Some(i + |Write(v)|)
  {
    hide BigEndian, Concatenated, WritePrefixed, WriteScalar, WriteItems, WriteFields, WriteAsset;
    match v {
      case Xrp(positive, drops) => XrpFirstByte(positive, drops);
      case Iou(number, _, _) => EightFirst(0x8000_0000_0000_0000 + number);
      case Mpt(_, _, _) =>
    }
    AtByte(b, i, Write(v), 0);
  }

  lemma AtFour(b: Bytes, i: nat, p1: Bytes, a1: Bytes, p2: Bytes, a2: Bytes)
    requires At(b, i, p1 + (a1 + (p2 + a2)))
    ensures At(b, i, p1) && At(b, i + |p1|, a1) && At(b, i + |p1| + |a1|, p2) && At(b, i + |p1| + |a1| + |p2|, a2)
  {
    AtParts(b, i, p1, a1 + (p2 + a2));
    AtParts(b, i + |p1|, a1, p2 + a2);
    AtParts(b, i + |p1| + |a1|, p2, a2);
  }

  lemma BridgeExact(mode: Mode, b: Bytes, i: nat, door: Bytes, asset: Asset, otherDoor: Bytes, otherAsset: Asset)
    requires |door| <= LengthPrefix.MAX_LENGTH && |otherDoor| <= LengthPrefix.MAX_LENGTH
    requires ValidAsset(mode, asset) && ValidAsset(mode, otherAsset)
    requires At(b, i, Write(Bridge(door, asset, otherDoor, otherAsset)))
    ensures SkipBridge(mode, b, i) == Some(i + |Write(Bridge(door, asset, otherDoor, otherAsset))|)
  {
    hide SkipPrefixed, SkipIssue, WritePrefixed, WriteAsset, At;
    var p1, a1, p2, a2 := WritePrefixed(door), WriteAsset(asset), WritePrefixed(otherDoor), WriteAsset(otherAsset);
    AtFour(b, i, p1, a1, p2, a2);
    assert SkipPrefixed(mode, b, i) == Some(i + |p1|) by { PrefixedExact(mode, b, i, door); }
    assert SkipIssue(mode, b, i + |p1|) == Some(i + |p1| + |a1|) by { AssetExact(mode, b, i + |p1|, asset); }
    assert SkipPrefixed(mode, b, i + |p1| + |a1|) == Some(i + |p1| + |a1| + |p2|) by {
      PrefixedExact(mode, b, i + |p1| + |a1|, otherDoor);
    }
    assert SkipIssue(mode, b, i + |p1| + |a1| + |p2|) == Some(i + |p1| + |a1| + |p2| + |a2|) by {
      AssetExact(mode, b, i + |p1| + |a1| + |p2|, otherAsset);
    }
  }

  lemma FixedExact(mode: Mode, b: Bytes, i: nat, kind: nat, bytes: Bytes)
    requires FixedLength(mode, kind) == Some(|bytes|) && At(b, i, bytes)
    ensures Skip(mode, b, i, kind) == Some(i + |bytes|)
  {
    hide SkipAmount, SkipPrefixed, SkipPaths, SkipIssue, SkipBridge, SkipFields, SkipElements;
  }

  /** Which reader each type code selects. */
  lemma Selects(mode: Mode, b: Bytes, i: nat)
    ensures Skip(mode, b, i, 6) == SkipAmount(mode, b, i)
    ensures Skip(mode, b, i, 7) == Skip(mode, b, i, 8) == Skip(mode, b, i, 19) == SkipPrefixed(mode, b, i)
    ensures Skip(mode, b, i, 18) == SkipPaths(mode, b, i)
    ensures Skip(mode, b, i, 24) == SkipIssue(mode, b, i)
    ensures Skip(mode, b, i, 25) == SkipBridge(mode, b, i)
    ensures Skip(mode, b, i, 14) == SkipFields(mode, b, i) && Skip(mode, b, i, 15) == SkipElements(mode, b, i)
  {
    hide SkipAmount, SkipPrefixed, SkipPaths, SkipIssue, SkipBridge, SkipFields, SkipElements;
  }

  lemma AmountSkipped(mode: Mode, b: Bytes, i: nat, v: Value)
    requires v.Xrp? || v.Iou? || v.Mpt?
    requires Valid(mode, v) && At(b, i, Write(v))
    ensures Skip(mode, b, i, TypeOf(v)) == Some(i + |Write(v)|)
  {
    hide Skip, SkipAmount, Valid, Write, At;
    Selects(mode, b, i);
    AmountExact(mode, b, i, v);
  }

  function Contents(v: Value): Bytes
    requires v.Blob? || v.AccountId? || v.Vector?
  {
    if v.Vector? then Concatenated(v.hashes) else v.bytes
  }

  lemma BlobSkipped(mode: Mode, b: Bytes, i: nat, v: Value)
    requires (v.Blob? || v.AccountId? || v.Vector?) && Valid(mode, v) && At(b, i, Write(v))
    ensures Skip(mode, b, i, TypeOf(v)) == Some(i + |Write(v)|)
  {
    hide Skip, SkipPrefixed, WritePrefixed, At;
    Selects(mode, b, i);
    PrefixedExact(mode, b, i, Contents(v));
  }

  lemma IssueSkipped(mode: Mode, b: Bytes, i: nat, v: Value)
    requires v.Issue? && Valid(mode, v) && At(b, i, Write(v))
    ensures Skip(mode, b, i, TypeOf(v)) == Some(i + |Write(v)|)
  {
    hide Skip, SkipIssue, WriteAsset, ValidAsset, At;
    Selects(mode, b, i);
    AssetExact(mode, b, i, v.asset);
  }

  lemma BridgeSkipped(mode: Mode, b: Bytes, i: nat, v: Value)
    requires v.Bridge? && Valid(mode, v) && At(b, i, Write(v))
    ensures Skip(mode, b, i, TypeOf(v)) == Some(i + |Write(v)|)
  {
    hide Skip, SkipBridge, Write, ValidAsset, At;
    Selects(mode, b, i);
    BridgeExact(mode, b, i, v.door, v.asset, v.otherDoor, v.otherAsset);
  }

  lemma PathsParts(mode: Mode, v: Value)
    requires v.Paths? && Valid(mode, v)
    ensures TypeOf(v) == 18 && Write(v) == WriteItems(v.items) && forall p <- v.items :: ValidItem(p)
  {
    hide WriteItems, ValidItem;
  }

  lemma PathsSkipped(mode: Mode, b: Bytes, i: nat, v: Value)
    requires v.Paths? && Valid(mode, v) && At(b, i, Write(v))
    ensures Skip(mode, b, i, TypeOf(v)) == Some(i + |Write(v)|)
  {
    hide Skip, SkipPaths, WriteItems, ValidItem, At;
    hide *;
    PathsParts(mode, v);
    Selects(mode, b, i);
    PathsExact(mode, b, i, v.items);
  }

  /** Each type's width in the walkers' table is the width the format gives it. */
  lemma ScalarWidth(mode: Mode, s: Scalar)
    requires ValidScalar(mode, s)
    ensures FixedLength(mode, ScalarType(s)) == Some(|WriteScalar(s)|)
  {
    hide BigEndian, Pow256;
  }

  lemma FixedSkipped(mode: Mode, b: Bytes, i: nat, v: Value)
    requires v.Fixed? && Valid(mode, v) && At(b, i, Write(v))
    ensures Skip(mode, b, i, TypeOf(v)) == Some(i + |Write(v)|)
  {
    hide Skip, At, ValidScalar, WriteScalar, ScalarType, FixedLength;
    ScalarWidth(mode, v.scalar);
    FixedExact(mode, b, i, ScalarType(v.scalar), WriteScalar(v.scalar));
  }

  /** A number reads back as the value of its bytes. */
  lemma NumbersRead(n: nat)
    ensures n < Pow256(1) ==> Value256(WriteScalar(UInt8(n))) == n
    ensures n < Pow256(2) ==> Value256(WriteScalar(UInt16(n))) == n
    ensures n < Pow256(4) ==> Value256(WriteScalar(UInt32(n))) == n
    ensures n < Pow256(8) ==> Value256(WriteScalar(UInt64(n))) == n
  {
    hide Pow256, BigEndian, Value256;
    if n < Pow256(1) { BigEndianReads(n, 1); }
    if n < Pow256(2) { BigEndianReads(n, 2); }
    if n < Pow256(4) { BigEndianReads(n, 4); }
    if n < Pow256(8) { BigEndianReads(n, 8); }
  }

  /** A signed number in its range reads back, 2^32 or 2^64 more if it is negative. */
  lemma SignedRead(i: int)
    ensures -0x8000_0000 <= i < 0x8000_0000 ==>
              ValidScalar(Strict, Int32(i)) && Value256(WriteScalar(Int32(i))) == if i < 0 then i + 0x1_0000_0000 else i
    ensures -0x8000_0000_0000_0000 <= i < 0x8000_0000_0000_0000 ==>
              ValidScalar(Strict, Int64(i)) && Value256(WriteScalar(Int64(i))) == if i < 0 then i + 0x1_0000_0000_0000_0000 else i
  {
    Widths();
    hide Pow256, BigEndian, Value256;
    BigEndianReads(i % Pow256(4), 4);
    BigEndianReads(i % Pow256(8), 8);
  }

  /** The values that hold no other value. */
  lemma FlatExact(mode: Mode, b: Bytes, i: nat, v: Value)
    requires !v.Object? && !v.Array? && Valid(mode, v) && At(b, i, Write(v))
    ensures Skip(mode, b, i, TypeOf(v)) == Some(i + |Write(v)|)
  {
    hide *;
    match v {
      case Fixed(_) => FixedSkipped(mode, b, i, v);
      case Blob(_) => BlobSkipped(mode, b, i, v);
      case AccountId(_) => BlobSkipped(mode, b, i, v);
      case Vector(_) => BlobSkipped(mode, b, i, v);
      case Issue(_) => IssueSkipped(mode, b, i, v);
      case Bridge(_, _, _, _) => BridgeSkipped(mode, b, i, v);
      case Paths(_) => PathsSkipped(mode, b, i, v);
      case _ => AmountSkipped(mode, b, i, v);
    }
  }

  lemma NestedParts(mode: Mode, v: Value)
    requires Valid(mode, v)
    ensures v.Object? ==> TypeOf(v) == 14 && Write(v) == WriteFields(v.fields) + [OBJECT_END] && forall x <- v.fields :: ValidField(mode, x)
    ensures v.Array? ==>
              && TypeOf(v) == 15 && Write(v) == WriteFields(v.elements) + [ARRAY_END]
              && forall x <- v.elements :: x.t == 14 && x.value.Object? && ValidField(mode, x)
  {
    hide ValidField, ValidScalar, WriteScalar, WriteFields, WriteXrp, WriteIou, WriteMpt, WritePrefixed, WriteAsset, WriteItems, ValidAsset, ValidItem;
  }

  lemma FieldParts(mode: Mode, x: Field)
    requires ValidField(mode, x)
    ensures x.t > 0 && x.f > 0 && x.t == TypeOf(x.value) && !(x.t == 14 && x.f == 1) && !(x.t == 15 && x.f == 1) && Valid(mode, x.value)
    ensures WriteField(x) == WriteHeader(x.t, x.f) + Write(x.value)
    ensures x.value.Object? ==> x.t == 14
  {
    hide Valid, Write, WriteHeader;
  }

  /** Both walkers stop exactly past the serialization of every value they are meant for, nested
      to any depth, wherever it stands. */
  lemma {:induction false} SkipExact(mode: Mode, b: Bytes, i: nat, v: Value)
    requires Valid(mode, v) && At(b, i, Write(v))
    ensures Skip(mode, b, i, TypeOf(v)) == Some(i + |Write(v)|)
    decreases v, 0
  {
    hide *;
    Selects(mode, b, i);
    match v {
      case Object(fields) =>
        NestedParts(mode, v);
        FieldsExact(mode, b, i, fields);
      case Array(elements) =>
        NestedParts(mode, v);
        ElementsExact(mode, b, i, elements);
      case _ => FlatExact(mode, b, i, v);
    }
  }

  /** A field: its header and then its value. */
  lemma {:induction false} FieldExact(mode: Mode, b: Bytes, i: nat, x: Field)
    requires ValidField(mode, x) && At(b, i, WriteField(x))
    ensures b[i] != OBJECT_END && b[i] != ARRAY_END
    ensures var past := i + |WriteHeader(x.t, x.f)|;
            && Header(b, i) == Some((x.t, x.f, past))
            && Skip(mode, b, past, x.t) == Some(i + |WriteField(x)|)
            && (x.value.Object? ==> SkipFields(mode, b, past) == Some(i + |WriteField(x)|))
    decreases x, 1
  {
    hide *;
    FieldParts(mode, x);
    var past := i + |WriteHeader(x.t, x.f)|;
    AtParts(b, i, WriteHeader(x.t, x.f), Write(x.value));
    AtFirst(b, i, WriteHeader(x.t, x.f));
    HeaderExact(b, i, x.t, x.f);
    SkipExact(mode, b, past, x.value);
    Selects(mode, b, past);
  }

  lemma {:induction false} FieldsExact(mode: Mode, b: Bytes, i: nat, xs: seq<Field>)
    requires (forall x <- xs :: ValidField(mode, x)) && At(b, i, WriteFields(xs) + [OBJECT_END])
    ensures SkipFields(mode, b, i) == Some(i + |WriteFields(xs)| + 1)
    decreases xs, 2
  {
    hide Header, Skip, WriteField, At;
    if |xs| == 0 {
      AtByte(b, i, [] + [OBJECT_END], 0);
    } else {
      WriteFieldsEnd(xs, OBJECT_END);
      AtParts(b, i, WriteField(xs[0]), WriteFields(xs[1..]) + [OBJECT_END]);
      FieldExact(mode, b, i, xs[0]);
      FieldsExact(mode, b, i + |WriteField(xs[0])|, xs[1..]);
    }
  }

  lemma WriteFieldsEnd(xs: seq<Field>, end: byte)
    requires |xs| > 0
    ensures WriteFields(xs) + [end] == WriteField(xs[0]) + (WriteFields(xs[1..]) + [end])
  {
  }

  lemma {:induction false} ElementsExact(mode: Mode, b: Bytes, i: nat, xs: seq<Field>)
    requires (forall x <- xs :: x.t == 14 && x.value.Object? && ValidField(mode, x)) && At(b, i, WriteFields(xs) + [ARRAY_END])
    ensures SkipElements(mode, b, i) == Some(i + |WriteFields(xs)| + 1)
    decreases xs, 2
  {
    hide Header, Skip, WriteField, At;
    if |xs| == 0 {
      AtByte(b, i, [] + [ARRAY_END], 0);
    } else {
      WriteFieldsEnd(xs, ARRAY_END);
      AtParts(b, i, WriteField(xs[0]), WriteFields(xs[1..]) + [ARRAY_END]);
      FieldExact(mode, b, i, xs[0]);
      ElementsExact(mode, b, i + |WriteField(xs[0])|, xs[1..]);
    }
  }

  /** An XRP amount is walked as one if and only if it is under 2^61 drops; a larger one reads as
      an MPT amount. */
  lemma XrpWalkedExactly(mode: Mode, positive: bool, drops: nat, after: Bytes)
    requires drops < 0x4000_0000_0000_0000 && |after| >= 25
    ensures Skip(mode, WriteXrp(positive, drops) + after, 0, 6) == Some(8) <==> drops < 0x2000_0000_0000_0000
  {
    XrpFirstByte(positive, drops);
  }

  /** The lenient walker stops four bytes short of an MPT issue. */
  lemma LenientShortOnMptIssue(issuer: Bytes, sequence: Bytes, after: Bytes)
    requires |issuer| == 20 && issuer != XRP20 && |sequence| == 4
    ensures var b := WriteAsset(MptAsset(issuer, sequence)) + after;
            SkipIssue(Strict, b, 0) == Some(44) && SkipIssue(Lenient, b, 0) == Some(40)
  {
    var w := WriteAsset(MptAsset(issuer, sequence));
    var b := w + after;
    assert At(b, 0, w);
    AssetExact(Strict, b, 0, MptAsset(issuer, sequence));
    assert b[..20] == issuer;
  }

  // ---- slicing a buffer into fields and joining them again ----

  type Raw = map<(nat, nat), Bytes>

  /** `_fields_of`: each field's raw bytes, header included, of b[i:end). */
  function FieldsOf(b: Bytes, i: nat, end: nat, out: Raw): Option<Raw>
    decreases if i < end then end - i else 0
  {
    if i >= end then Some(out)
    else
      var (t, f, j) :- Header(b, i);
      var k :- Skip(Lenient, b, j, t);
      FieldsOf(b, k, end, out[(t, f) := Slice(b, i, k)])
  }

  method CutFields(b: Bytes, start: nat, end: nat) returns (r: Option<Raw>)
    ensures r == FieldsOf(b, start, end, map[])
  {
    var i, out: Raw := start, map[];
    while i < end
      invariant FieldsOf(b, i, end, out) == FieldsOf(b, start, end, map[])
      decreases if i < end then end - i else 0
    {
      var header := Header(b, i);
      if header.None? { return None; }
      var next := Walk(Lenient, b, header.value.2, header.value.0);
      if next.None? { return None; }
      out := out[(header.value.0, header.value.1) := Slice(b, i, next.value)];
      i := next.value;
    }
    r := Some(out);
  }

  predicate Before(a: (nat, nat), c: (nat, nat)) { a.0 < c.0 || (a.0 == c.0 && a.1 < c.1) }

  /** Fields go by type code and then by field code, as the two bytes of one number. */
  lemma BeforeIsNumeric(a: (nat, nat), c: (nat, nat))
    requires a.1 < 256 && c.1 < 256
    ensures Before(a, c) <==> 256 * a.0 + a.1 < 256 * c.0 + c.1
  {
  }

  ghost predicate Least(k: (nat, nat), keys: set<(nat, nat)>) {
    k in keys && forall x <- keys :: x == k || Before(k, x)
  }

  lemma LeastExists(keys: set<(nat, nat)>)
    requires keys != {}
    ensures exists k :: Least(k, keys)
    decreases keys
  {
    var x :| x in keys;
    var rest := keys - {x};
    assert forall y <- keys :: y == x || y in rest;
    if rest == {} {
      assert Least(x, keys);
    } else {
      LeastExists(rest);
      var k :| Least(k, rest);
      assert Least(if Before(x, k) then x else k, keys);
    }
  }

  /** The fields in (type, field) order, joined. */
  ghost function Joined(raw: Raw): Bytes
    decreases |raw|
  {
    if raw == map[] then []
    else
      LeastExists(raw.Keys);
      var k :| Least(k, raw.Keys);
      raw[k] + Joined(raw - {k})
  }

  method LeastKey(keys: set<(nat, nat)>) returns (k: (nat, nat))
    requires keys != {}
    ensures Least(k, keys)
  {
    k :| k in keys;
    var rest := keys - {k};
    while rest != {}
      invariant rest <= keys && Least(k, keys - rest)
      decreases rest
    {
      var x :| x in rest;
      assert keys - (rest - {x}) == (keys - rest) + {x};
      if Before(x, k) { k := x; }
      rest := rest - {x};
    }
    assert keys - {} == keys;
  }

  /** `canonical`, before its hex. */
  method Canonical(raw: Raw) returns (out: Bytes)
    ensures out == Joined(raw)
  {
    hide *;
    out := [];
    var rest := raw;
    AddEmpty(Joined(raw));
    while rest != map[]
      invariant out + Joined(rest) == Joined(raw)
      decreases |rest|
    {
      var k := LeastKey(rest.Keys);
      JoinedLeast(rest, k);
      InKeys(rest, k);
      Regroup(out, rest[k], Joined(rest - {k}));
      out := out + rest[k];
      rest := rest - {k};
    }
    JoinedNothing();
    AddEmpty(out);
  }

  lemma JoinedNothing()
    ensures Joined(map[]) == []
  {
  }

  lemma AddEmpty(a: Bytes)
    ensures a + [] == a && [] + a == a
  {
  }

  lemma Regroup(a: Bytes, b: Bytes, c: Bytes)
    ensures (a + b) + c == a + (b + c)
  {
  }

  lemma InKeys(raw: Raw, k: (nat, nat))
    requires Least(k, raw.Keys)
    ensures k in raw && |raw - {k}| < |raw|
  {
    assert raw.Keys == (raw - {k}).Keys + {k};
  }

  lemma JoinedLeast(raw: Raw, k: (nat, nat))
    requires raw != map[] && Least(k, raw.Keys)
    ensures Joined(raw) == raw[k] + Joined(raw - {k})
  {
  }

  function RawOf(xs: seq<Field>): Raw {
    if |xs| == 0 then map[] else RawOf(xs[1..])[(xs[0].t, xs[0].f) := WriteField(xs[0])]
  }

  ghost predicate InOrder(xs: seq<Field>) {
    forall i, j | 0 <= i < j < |xs| :: Before((xs[i].t, xs[i].f), (xs[j].t, xs[j].f))
  }

  lemma {:induction false} RawKeys(xs: seq<Field>)
    ensures forall k <- RawOf(xs) :: exists i :: 0 <= i < |xs| && (xs[i].t, xs[i].f) == k
  {
    if |xs| > 0 {
      RawKeys(xs[1..]);
      forall k <- RawOf(xs) ensures exists i :: 0 <= i < |xs| && (xs[i].t, xs[i].f) == k {
        if k != (xs[0].t, xs[0].f) {
          assert k in RawOf(xs[1..]);
          var i :| 0 <= i < |xs[1..]| && (xs[1..][i].t, xs[1..][i].f) == k;
          assert (xs[i + 1].t, xs[i + 1].f) == k;
        } else {
          assert (xs[0].t, xs[0].f) == k;
        }
      }
    }
  }

  lemma HeadApart(xs: seq<Field>)
    requires |xs| > 0 && InOrder(xs)
    ensures forall y <- xs[1..] :: (y.t, y.f) != (xs[0].t, xs[0].f)
    ensures (xs[0].t, xs[0].f) !in RawOf(xs[1..])
    ensures forall k <- RawOf(xs[1..]) :: Before((xs[0].t, xs[0].f), k)
  {
    RawKeys(xs[1..]);
    forall i | 1 <= i < |xs| ensures Before((xs[0].t, xs[0].f), (xs[i].t, xs[i].f)) {}
    forall k <- RawOf(xs[1..]) ensures Before((xs[0].t, xs[0].f), k) {
      var i :| 0 <= i < |xs[1..]| && (xs[1..][i].t, xs[1..][i].f) == k;
      assert xs[1..][i] == xs[i + 1];
    }
    forall y <- xs[1..] ensures (y.t, y.f) != (xs[0].t, xs[0].f) {
      var i :| 0 <= i < |xs[1..]| && xs[1..][i] == y;
      assert y == xs[i + 1];
    }
  }

  lemma CutStep(b: Bytes, i: nat, x: Field, out: Raw)
    requires ValidField(Lenient, x) && At(b, i, WriteField(x))
    ensures FieldsOf(b, i, |b|, out) == FieldsOf(b, i + |WriteField(x)|, |b|, out[(x.t as nat, x.f as nat) := WriteField(x)])
  {
    hide Header, Skip, WriteField, At;
    FieldExact(Lenient, b, i, x);
    AtSlice(b, i, WriteField(x));
  }

  lemma CutEnd(b: Bytes, out: Raw)
    ensures FieldsOf(b, |b|, |b|, out) == Some(out)
  {
  }

  lemma {:induction false} CutExact(b: Bytes, i: nat, xs: seq<Field>, out: Raw)
    requires (forall x <- xs :: ValidField(Lenient, x)) && InOrder(xs)
    requires At(b, i, WriteFields(xs)) && i + |WriteFields(xs)| == |b|
    requires forall k <- out, x <- xs :: k != (x.t, x.f)
    ensures FieldsOf(b, i, |b|, out) == Some(out + RawOf(xs))
    decreases |xs|
  {
    hide Header, Skip, WriteField, At, FieldsOf;
    if |xs| > 0 {
      var x, head := xs[0], WriteField(xs[0]);
      AtParts(b, i, head, WriteFields(xs[1..]));
      CutStep(b, i, x, out);
      HeadApart(xs);
      var next := out[(x.t as nat, x.f as nat) := head];
      CutExact(b, i + |head|, xs[1..], next);
      assert next + RawOf(xs[1..]) == out + RawOf(xs);
    } else {
      CutEnd(b, out);
      assert out + RawOf(xs) == out;
    }
  }

  lemma {:induction false} JoinExact(xs: seq<Field>)
    requires InOrder(xs)
    ensures Joined(RawOf(xs)) == WriteFields(xs)
    decreases |xs|
  {
    if |xs| > 0 {
      var k := (xs[0].t, xs[0].f);
      assert xs[0] in xs;
      HeadApart(xs);
      assert Least(k, RawOf(xs).Keys);
      JoinedLeast(RawOf(xs), k);
      assert RawOf(xs) - {k} == RawOf(xs[1..]);
      JoinExact(xs[1..]);
    }
  }

  /** Cutting an object serialized in field order and joining the pieces restores it byte for byte. */
  lemma CutThenJoin(xs: seq<Field>)
    requires (forall x <- xs :: ValidField(Lenient, x)) && InOrder(xs)
    ensures var b := WriteFields(xs);
            var cut := FieldsOf(b, 0, |b|, map[]);
            cut == Some(RawOf(xs)) && Joined(cut.value) == b
  {
    var b := WriteFields(xs);
    CutExact(b, 0, xs, map[]);
    assert map[] + RawOf(xs) == RawOf(xs);
    JoinExact(xs);
  }
}
