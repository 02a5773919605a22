// JSON values as the round recorder writes and reads them. Objects are keyed by the fixed set of
// names its lines use; text form and escaping are not part of this model.
module RoundJson {
  import opened Bytes

  type u32 = n: int | 0 <= n < 0x1_0000_0000
  type u64 = n: int | 0 <= n < 0x1_0000_0000_0000_0000

  datatype Name =
    | K | Ver | T | Keys
    | Seq | HashOf | Parent | Ct | Pct | Res | Flags | Txh | Th
    | T0 | Tw | H | Pr | Pu | Va | Uk | N
    | Pdup | Vdup | Vu | Vbad | Lost

  datatype Json =
    | Null
    | Num(n: int)
    | Str(s: string)
    | Arr(items: seq<Json>)
    | Obj(fields: map<Name, Json>)

  /** A missing field reads as null. */
  function Field(v: Json, name: Name): Json {
    if v.Obj? && name in v.fields then v.fields[name] else Null
  }

  function At(v: Json, i: nat): Json {
    if v.Arr? && i < |v.items| then v.items[i] else Null
  }

  function AsU64(v: Json): Option<u64> {
    if v.Num? && 0 <= v.n < 0x1_0000_0000_0000_0000 then Some(v.n) else None
  }

  /** A number below the bound of a narrower type. */
  function Small(v: Json, bound: nat): (r: Option<nat>)
    ensures r.Some? ==> r.value < bound
  {
    var n :- AsU64(v);
    if n < bound then Some(n) else None
  }

  function SmallU32(v: Json): Option<u32> {
    var n :- Small(v, 0x1_0000_0000);
    Some(n)
  }

  function SmallByte(v: Json): Option<byte> {
    var n :- Small(v, 256);
    Some(n)
  }

  function AsI64(v: Json): Option<int> {
    if v.Num? && -0x8000_0000_0000_0000 <= v.n < 0x8000_0000_0000_0000 then Some(v.n) else None
  }

  function HexOf(b: Bytes): Json { Str(HexUpper(b)) }

  function FromHex(v: Json): Option<Bytes> {
    if v.Str? then HexDecode(v.s) else None
  }

  function FromHex32(v: Json): Option<Hash> {
    var b :- FromHex(v);
    if |b| == 32 then Some(b) else None
  }

  function AsArray(v: Json): Option<seq<Json>> {
    if v.Arr? then Some(v.items) else None
  }

  lemma HexReadsBack(b: Bytes)
    ensures FromHex(HexOf(b)) == Some(b)
    ensures |b| == 32 ==> FromHex32(HexOf(b)) == Some(b)
  {
    HexRoundTrip(b);
  }
}
