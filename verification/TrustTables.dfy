// The validator table of crates/xrpl-node/src/consensus_record.rs: built from the verified list,
// looked up by either key, written as a line and read back.
module TrustTables {
  import opened Bytes
  import opened RoundJson

  /** One validator: its master key, and its signing key if the list carried a manifest. */
  type KeyPair = (Bytes, Option<Bytes>)

  datatype TrustTable = TrustTable(keys: seq<KeyPair>, index: map<Bytes, nat>) {
    function Lookup(key: Bytes): Option<nat> {
      if key in index then Some(index[key]) else None
    }
  }

  // ---- the index ----

  function AddKeys(index: map<Bytes, nat>, pair: KeyPair, i: nat): map<Bytes, nat> {
    var withMaster := index[pair.0 := i];
    if pair.1.Some? then withMaster[pair.1.value := i] else withMaster
  }

  function IndexOf(keys: seq<KeyPair>): map<Bytes, nat> {
    if |keys| == 0 then map[]
    else AddKeys(IndexOf(keys[..|keys| - 1]), keys[|keys| - 1], |keys| - 1)
  }

  function TableOf(keys: seq<KeyPair>): TrustTable { TrustTable(keys, IndexOf(keys)) }

  method FromKeys(keys: seq<KeyPair>) returns (table: TrustTable)
    ensures table == TableOf(keys)
  {
    var index := map[];
    for i := 0 to |keys|
      invariant index == IndexOf(keys[..i])
    {
      index := index[keys[i].0 := i];
      if keys[i].1.Some? { index := index[keys[i].1.value := i]; }
      assert keys[..i + 1][..i] == keys[..i];
    }
    assert keys[..|keys|] == keys;
    table := TrustTable(keys, index);
  }

  predicate Owns(pair: KeyPair, key: Bytes) { pair.0 == key || pair.1 == Some(key) }

  ghost predicate LastOwner(keys: seq<KeyPair>, key: Bytes, i: nat) {
    && i < |keys| && Owns(keys[i], key)
    && forall j | i < j < |keys| :: !Owns(keys[j], key)
  }

  /** A key finds the last validator that has it as master or signing key, and nothing otherwise. */
  lemma {:induction false} LookupFindsOwner(keys: seq<KeyPair>, key: Bytes)
    ensures match TableOf(keys).Lookup(key)
            case Some(i) => LastOwner(keys, key, i)
            case None => forall j | 0 <= j < |keys| :: !Owns(keys[j], key)
  {
    if |keys| > 0 { LookupFindsOwner(keys[..|keys| - 1], key); }
  }

  // ---- from the verified list ----

  datatype UnlEntry = UnlEntry(publicKey: string, signingKey: Option<string>)

  function SigningOf(e: UnlEntry): Option<Bytes> {
    if e.signingKey.Some? then HexDecode(e.signingKey.value) else None
  }

  /** The entries whose master key is hex. */
  function Decoded(entries: seq<UnlEntry>): seq<KeyPair> {
    if |entries| == 0 then []
    else
      var rest := Decoded(entries[1..]);
      match HexDecode(entries[0].publicKey)
      case None => rest
      case Some(master) => [(master, SigningOf(entries[0]))] + rest
  }

  /** Pairs in order: by master key, then those without a signing key first. */
  predicate Before(a: KeyPair, b: KeyPair) {
    || Less(a.0, b.0)
    || (a.0 == b.0 && ((a.1.None? && b.1.Some?) || (a.1.Some? && b.1.Some? && Less(a.1.value, b.1.value))))
  }

  function Insert(x: KeyPair, s: seq<KeyPair>): seq<KeyPair> {
    if |s| == 0 || !Before(s[0], x) then [x] + s else [s[0]] + Insert(x, s[1..])
  }

  function SortPairs(s: seq<KeyPair>): seq<KeyPair> {
    if |s| == 0 then [] else Insert(s[0], SortPairs(s[1..]))
  }

  /** Of neighbours with the same master key, the first stays. */
  function Dedup(s: seq<KeyPair>): (r: seq<KeyPair>)
    ensures |s| > 0 ==> |r| > 0 && r[0] == s[0]
    decreases |s|
  {
    if |s| < 2 then s
    else if s[0].0 == s[1].0 then Dedup([s[0]] + s[2..])
    else [s[0]] + Dedup(s[1..])
  }

  function FromEntries(entries: seq<UnlEntry>): TrustTable {
    TableOf(Dedup(SortPairs(Decoded(entries))))
  }

  // ---- the order is total ----

  lemma BeforeTotal(a: KeyPair, b: KeyPair)
    ensures a == b || Before(a, b) || Before(b, a)
    ensures !Before(a, a)
    ensures Before(a, b) ==> !Before(b, a)
  {
    LessTotal(a.0, b.0);
    LessIrreflexive(a.0);
    if Less(a.0, b.0) { LessAsymmetric(a.0, b.0); }
    if a.1.Some? { LessIrreflexive(a.1.value); }
    if a.1.Some? && b.1.Some? {
      LessTotal(a.1.value, b.1.value);
      if Less(a.1.value, b.1.value) { LessAsymmetric(a.1.value, b.1.value); }
    }
  }

  lemma BeforeTransitive(a: KeyPair, b: KeyPair, c: KeyPair)
    requires !Before(b, a) && !Before(c, b)
    ensures !Before(c, a)
  {
    BeforeTotal(a, b);
    BeforeTotal(b, c);
    if a != b && b != c {
      if Less(a.0, b.0) && Less(b.0, c.0) {
        LessTransitive(a.0, b.0, c.0);
      } else if a.0 == b.0 == c.0 && a.1.Some? {
        LessTransitive(a.1.value, b.1.value, c.1.value);
      }
      assert Before(a, c);
      BeforeTotal(a, c);
    }
  }

  ghost predicate Ordered(s: seq<KeyPair>) {
    forall i | 0 < i < |s| :: !Before(s[i], s[i - 1])
  }

  lemma OrderedTail(s: seq<KeyPair>)
    requires Ordered(s) && |s| > 0
    ensures Ordered(s[1..])
  {
    forall i | 0 < i < |s[1..]| ensures !Before(s[1..][i], s[1..][i - 1]) {
      assert !Before(s[i + 1], s[i]);
    }
  }

  lemma {:induction false} InsertKeeps(x: KeyPair, s: seq<KeyPair>)
    requires Ordered(s)
    ensures Ordered(Insert(x, s)) && multiset(Insert(x, s)) == multiset(s) + multiset{x}
    ensures |s| > 0 ==> Insert(x, s)[0] == x || Insert(x, s)[0] == s[0]
  {
    hide Before;
    if |s| > 0 && Before(s[0], x) {
      OrderedTail(s);
      InsertKeeps(x, s[1..]);
      assert s == [s[0]] + s[1..];
      BeforeTotal(s[0], x);
      if |s| > 1 { assert !Before(s[1], s[0]); }
    } else if |s| > 0 {
      BeforeTotal(s[0], x);
    }
  }

  lemma {:induction false} SortKeeps(s: seq<KeyPair>)
    ensures Ordered(SortPairs(s)) && multiset(SortPairs(s)) == multiset(s)
  {
    if |s| > 0 {
      SortKeeps(s[1..]);
      InsertKeeps(s[0], SortPairs(s[1..]));
      assert s == [s[0]] + s[1..];
    }
  }

  lemma {:induction false} FirstIsLeast(s: seq<KeyPair>, i: nat)
    requires Ordered(s) && i < |s|
    ensures !Before(s[i], s[0])
  {
    hide Before;
    BeforeTotal(s[0], s[0]);
    if i > 0 {
      FirstIsLeast(s, i - 1);
      BeforeTransitive(s[0], s[i - 1], s[i]);
    }
  }

  lemma {:induction false} OrderedUnique(a: seq<KeyPair>, b: seq<KeyPair>)
    requires Ordered(a) && Ordered(b) && multiset(a) == multiset(b)
    ensures a == b
  {
    hide Before;
    assert |a| == |multiset(a)| == |multiset(b)| == |b|;
    if |a| > 0 {
      assert a[0] in multiset(b) && b[0] in multiset(a);
      var i :| 0 <= i < |b| && b[i] == a[0];
      var j :| 0 <= j < |a| && a[j] == b[0];
      FirstIsLeast(b, i);
      FirstIsLeast(a, j);
      BeforeTotal(a[0], b[0]);
      OrderedTail(a);
      OrderedTail(b);
      assert a == [a[0]] + a[1..] && b == [b[0]] + b[1..];
      TailMultiset(a);
      TailMultiset(b);
      hide Ordered;
      OrderedUnique(a[1..], b[1..]);
    }
  }

  lemma TailMultiset(s: seq<KeyPair>)
    requires |s| > 0
    ensures multiset(s[1..]) == multiset(s) - multiset{s[0]}
  {
    assert s == [s[0]] + s[1..];
  }

  /** A list served in another order is the same table, so it is not written again. */
  lemma ListOrderIrrelevant(a: seq<UnlEntry>, b: seq<UnlEntry>)
    requires multiset(Decoded(a)) == multiset(Decoded(b))
    ensures FromEntries(a) == FromEntries(b)
  {
    SortKeeps(Decoded(a));
    SortKeeps(Decoded(b));
    OrderedUnique(SortPairs(Decoded(a)), SortPairs(Decoded(b)));
  }

  // ---- one row per master key, in order ----

  ghost predicate MastersAscend(s: seq<KeyPair>) {
    forall i | 0 < i < |s| :: Less(s[i - 1].0, s[i].0)
  }

  lemma {:induction false} DedupAscends(s: seq<KeyPair>)
    requires Ordered(s)
    ensures MastersAscend(Dedup(s))
    decreases |s|
  {
    if |s| >= 2 {
      DropKeeps(s);
      DedupAscends(if s[0].0 == s[1].0 then [s[0]] + s[2..] else s[1..]);
      hide Before, Less;
    }
  }

  /** Some row has this master key, and no greater signing key. */
  ghost predicate Covered(p: KeyPair, s: seq<KeyPair>) {
    exists q | q in s :: q.0 == p.0 && !Before(p, q)
  }

  lemma {:induction false} DedupCovers(s: seq<KeyPair>, p: KeyPair)
    requires Ordered(s)
    ensures p in Dedup(s) ==> p in s
    ensures p in s ==> Covered(p, Dedup(s))
    decreases |s|
  {
    BeforeTotal(p, p);
    if |s| >= 2 {
      DropKeeps(s);
      var rest := if s[0].0 == s[1].0 then [s[0]] + s[2..] else s[1..];
      DedupCovers(rest, p);
      hide Before;
      assert s == [s[0], s[1]] + s[2..] && s == [s[0]] + s[1..];
      if p in s && p !in rest {
        assert Dedup(s)[0] == s[0];
        assert s[0] in Dedup(s) && s[0].0 == p.0 && !Before(p, s[0]);
      } else if p in s {
        var q :| q in Dedup(rest) && q.0 == p.0 && !Before(p, q);
        assert q in Dedup(s);
      }
    }
  }

  lemma DropKeeps(s: seq<KeyPair>)
    requires Ordered(s) && |s| >= 2
    ensures s[0].0 == s[1].0 ==> Ordered([s[0]] + s[2..])
    ensures s[0].0 != s[1].0 ==> Ordered(s[1..]) && Less(s[0].0, s[1].0)
    ensures !Before(s[1], s[0])
  {
    OrderedTail(s);
    assert !Before(s[1], s[0]);
    LessTotal(s[0].0, s[1].0);
    if s[0].0 == s[1].0 {
      var t := [s[0]] + s[2..];
      hide Before;
      forall i | 0 < i < |t| ensures !Before(t[i], t[i - 1]) {
        if i == 1 {
          assert !Before(s[2], s[1]);
          BeforeTransitive(s[0], s[1], s[2]);
        } else {
          assert !Before(s[i + 1], s[i]);
        }
      }
    }
  }

  /** The table has one row for each master key the list names in hex, in ascending order; where the
      list names one twice, the row is the lesser pair. */
  lemma TableIsSorted(entries: seq<UnlEntry>)
    ensures MastersAscend(FromEntries(entries).keys)
    ensures forall p | p in FromEntries(entries).keys :: p in Decoded(entries)
    ensures forall p | p in Decoded(entries) :: Covered(p, FromEntries(entries).keys)
  {
    var d := Decoded(entries);
    var sorted := SortPairs(d);
    SortKeeps(d);
    DedupAscends(sorted);
    assert FromEntries(entries).keys == Dedup(sorted);
    hide *;
    forall p ensures (p in Dedup(sorted) ==> p in d) && (p in d ==> Covered(p, Dedup(sorted))) {
      DedupCovers(sorted, p);
      assert p in d <==> p in multiset(d);
      assert p in sorted <==> p in multiset(sorted);
    }
  }

  // ---- a listed key is found ----

  lemma {:induction false} DecodedHas(entries: seq<UnlEntry>, e: UnlEntry)
    requires e in entries && HexDecode(e.publicKey).Some?
    ensures (HexDecode(e.publicKey).value, if e.signingKey.Some? then HexDecode(e.signingKey.value) else None) in Decoded(entries)
  {
    if e != entries[0] {
      assert entries == [entries[0]] + entries[1..];
      DecodedHas(entries[1..], e);
    }
    hide HexDecode;
  }

  lemma {:induction false} DecodedFrom(entries: seq<UnlEntry>, p: KeyPair)
    requires p in Decoded(entries)
    ensures exists e | e in entries ::
              HexDecode(e.publicKey) == Some(p.0) && p.1 == (if e.signingKey.Some? then HexDecode(e.signingKey.value) else None)
  {
    hide HexDecode;
    assert entries == [entries[0]] + entries[1..];
    assert entries[0] in entries;
    if p in Decoded(entries[1..]) {
      DecodedFrom(entries[1..], p);
      var e :| e in entries[1..] && HexDecode(e.publicKey) == Some(p.0) && p.1 == (if e.signingKey.Some? then HexDecode(e.signingKey.value) else None);
      assert e in entries;
    }
  }

  lemma RowIsFound(keys: seq<KeyPair>, i: nat, key: Bytes)
    requires i < |keys| && Owns(keys[i], key)
    ensures TableOf(keys).Lookup(key).Some?
  {
    LookupFindsOwner(keys, key);
    hide TableOf;
  }

  /** The table's row for a master key the list gives. */
  lemma RowOf(entries: seq<UnlEntry>, e: UnlEntry) returns (i: nat)
    requires e in entries && HexDecode(e.publicKey).Some?
    ensures var t := FromEntries(entries);
            i < |t.keys| && t == TableOf(t.keys) && t.keys[i].0 == HexDecode(e.publicKey).value && t.keys[i] in Decoded(entries)
  {
    hide FromEntries, Decoded, HexDecode, TableOf, Covered, MastersAscend;
    var t := FromEntries(entries);
    var p: KeyPair := (HexDecode(e.publicKey).value, if e.signingKey.Some? then HexDecode(e.signingKey.value) else None);
    DecodedHas(entries, e);
    TableIsSorted(entries);
    IsTable(entries);
    i := CoveredRow(p, t.keys);
    assert t.keys[i] in t.keys;
  }

  lemma IsTable(entries: seq<UnlEntry>)
    ensures FromEntries(entries) == TableOf(FromEntries(entries).keys)
  {
    hide IndexOf, Dedup, SortPairs, Decoded;
  }

  lemma CoveredRow(p: KeyPair, keys: seq<KeyPair>) returns (i: nat)
    requires Covered(p, keys)
    ensures i < |keys| && keys[i].0 == p.0
  {
    hide Before;
    var q :| q in keys && q.0 == p.0;
    i :| 0 <= i < |keys| && keys[i] == q;
  }

  /** Every master key the list gives in hex is found; so is a signing key it gives, when the entries
      of that master do not disagree about it. */
  lemma ListedKeysAreFound(entries: seq<UnlEntry>, e: UnlEntry)
    requires e in entries && HexDecode(e.publicKey).Some?
    ensures FromEntries(entries).Lookup(HexDecode(e.publicKey).value).Some?
    ensures e.signingKey.Some? && HexDecode(e.signingKey.value).Some? && Agreed(entries, e)
            ==> FromEntries(entries).Lookup(HexDecode(e.signingKey.value).value).Some?
  {
    hide FromEntries, Decoded, HexDecode, TableOf;
    var i := RowOf(entries, e);
    var keys := FromEntries(entries).keys;
    RowIsFound(keys, i, HexDecode(e.publicKey).value);
    DecodedFrom(entries, keys[i]);
    if e.signingKey.Some? && HexDecode(e.signingKey.value).Some? && Agreed(entries, e) {
      RowIsFound(keys, i, HexDecode(e.signingKey.value).value);
    }
  }

  /** The entries of one master key give one signing key. */
  ghost predicate Agreed(entries: seq<UnlEntry>, e: UnlEntry) {
    forall f | f in entries && HexDecode(f.publicKey) == HexDecode(e.publicKey) :: f.signingKey == e.signingKey
  }

  // ---- the table line ----

  function PairJson(pair: KeyPair): Json {
    Arr([HexOf(pair.0), if pair.1.Some? then HexOf(pair.1.value) else Null])
  }

  function PairsJson(keys: seq<KeyPair>): (r: seq<Json>)
    ensures |r| == |keys|
  {
    if |keys| == 0 then [] else PairsJson(keys[..|keys| - 1]) + [PairJson(keys[|keys| - 1])]
  }

  const FORMAT_VERSION: nat := 1

  function TableLine(table: TrustTable, t: u64): Json {
    Obj(map[K := Str("unl"), Ver := Num(FORMAT_VERSION), T := Num(t), Keys := Arr(PairsJson(table.keys))])
  }

  /** A table line, field by field: a row is the master key's hex and then the signing key's or null. */
  lemma TableLayout(table: TrustTable, t: u64, i: nat)
    requires i < |table.keys|
    ensures var v := TableLine(table, t);
            && Field(v, K) == Str("unl") && Field(v, Ver) == Num(1) && Field(v, T) == Num(t) && Field(v, Keys).Arr?
            && |Field(v, Keys).items| == |table.keys|
            && At(Field(v, Keys), i)
               == Arr([HexOf(table.keys[i].0), if table.keys[i].1.Some? then HexOf(table.keys[i].1.value) else Null])
  {
    PairsAt(table.keys, i);
    hide PairsJson, HexOf;
  }

  lemma {:induction false} PairsAt(keys: seq<KeyPair>, i: nat)
    requires i < |keys|
    ensures PairsJson(keys)[i] == PairJson(keys[i])
  {
    if i < |keys| - 1 { PairsAt(keys[..|keys| - 1], i); }
  }

  function ParsePair(v: Json): Option<KeyPair> {
    var master :- FromHex(At(v, 0));
    if At(v, 1).Str? then
      var signing :- FromHex(At(v, 1));
      Some((master, Some(signing)))
    else Some((master, None))
  }

  function ParsePairs(rows: seq<Json>): Option<seq<KeyPair>> {
    if |rows| == 0 then Some([])
    else
      var init :- ParsePairs(rows[..|rows| - 1]);
      var last :- ParsePair(rows[|rows| - 1]);
      Some(init + [last])
  }

  predicate IsTableLine(v: Json) { Field(v, K) == Str("unl") }

  /** Reads a table line back. */
  function ParseLine(v: Json): Option<TrustTable> {
    if !IsTableLine(v) then None
    else
      var rows :- AsArray(Field(v, Keys));
      var keys :- ParsePairs(rows);
      Some(TableOf(keys))
  }

  lemma PairReadsBack(pair: KeyPair)
    ensures ParsePair(PairJson(pair)) == Some(pair)
  {
    HexReadsBack(pair.0);
    if pair.1.Some? { HexReadsBack(pair.1.value); }
  }

  lemma ParseOnePair(rows: seq<Json>, r: Json, init: seq<KeyPair>, last: KeyPair)
    requires ParsePairs(rows) == Some(init) && ParsePair(r) == Some(last)
    ensures ParsePairs(rows + [r]) == Some(init + [last])
  {
    assert (rows + [r])[..|rows|] == rows;
    hide ParsePair;
  }

  lemma PairsJsonOne(keys: seq<KeyPair>)
    requires |keys| > 0
    ensures PairsJson(keys) == PairsJson(keys[..|keys| - 1]) + [PairJson(keys[|keys| - 1])]
  {
    hide PairJson;
  }

  lemma NoPairs()
    ensures ParsePairs(PairsJson([])) == Some([])
  {
  }

  lemma {:induction false} PairsReadBack(keys: seq<KeyPair>)
    ensures ParsePairs(PairsJson(keys)) == Some(keys)
  {
    hide *;
    if |keys| == 0 {
      NoPairs();
      assert keys == [];
    } else {
      var init, last := keys[..|keys| - 1], keys[|keys| - 1];
      PairsReadBack(init);
      PairsJsonOne(keys);
      PairReadsBack(last);
      ParseOnePair(PairsJson(init), PairJson(last), init, last);
      assert keys == init + [last];
    }
  }

  /** A table line read back is the table that was written, index and all. */
  lemma TableReadsBack(table: TrustTable, t: u64)
    requires table == TableOf(table.keys)
    ensures ParseLine(TableLine(table, t)) == Some(table)
  {
    PairsReadBack(table.keys);
  }
}
