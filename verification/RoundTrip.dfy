// Decoding undoes encoding: a round line read under the table it was written with gives back the
// batch and header it was made from.
module RoundTrip {
  import opened Bytes
  import opened RoundJson
  import opened TrustTables
  import opened RoundCodec

  ghost predicate Prefix(a: seq<Hash>, b: seq<Hash>) {
    |a| <= |b| && b[..|a|] == a
  }

  lemma PrefixJoins(a: seq<Hash>, b: seq<Hash>, c: seq<Hash>)
    requires Prefix(a, b) && Prefix(b, c)
    ensures Prefix(a, c)
  {
    assert c[..|a|] == c[..|b|][..|a|];
  }

  /** Whatever is interned later, an index keeps resolving to its own hash. */
  lemma InternedResolves(list: seq<Hash>, h: Hash, later: seq<Hash>)
    requires Prefix(Interned(list, h), later)
    ensures Prefix(list, later)
    ensures Find(Interned(list, h), h) < |later| && later[Find(Interned(list, h), h)] == h
  {
    var i := Find(Interned(list, h), h);
    assert later[..|Interned(list, h)|][i] == h;
    assert Prefix(list, Interned(list, h));
    PrefixJoins(list, Interned(list, h), later);
  }

  // ---- the line's first time ----

  lemma {:induction false} EarliestProposalBound(ps: seq<Proposal>, i: nat)
    requires i < |ps|
    ensures EarliestProposal(ps).Some? && EarliestProposal(ps).value <= ps[i].seenMs
  {
    if i < |ps| - 1 { EarliestProposalBound(ps[..|ps| - 1], i); }
  }

  lemma {:induction false} EarliestValidationBound(vs: seq<Validation>, i: nat)
    requires i < |vs|
    ensures EarliestValidation(vs).Some? && EarliestValidation(vs).value <= vs[i].seenMs
  {
    if i < |vs| - 1 { EarliestValidationBound(vs[..|vs| - 1], i); }
  }

  ghost predicate ProposalsSince(ps: seq<Proposal>, t0: u64) {
    forall p | p in ps :: t0 <= p.seenMs
  }

  ghost predicate ValidationsSince(vs: seq<Validation>, t0: u64) {
    forall v | v in vs :: t0 <= v.seenMs
  }

  lemma {:induction false} EarliestProposalIs(ps: seq<Proposal>)
    ensures match EarliestProposal(ps)
            case None => ps == []
            case Some(t) => exists p | p in ps :: p.seenMs == t
  {
    if |ps| > 0 {
      EarliestProposalIs(ps[..|ps| - 1]);
      assert ps[|ps| - 1] in ps;
    }
  }

  lemma {:induction false} EarliestValidationIs(vs: seq<Validation>)
    ensures match EarliestValidation(vs)
            case None => vs == []
            case Some(t) => exists v | v in vs :: v.seenMs == t
  {
    if |vs| > 0 {
      EarliestValidationIs(vs[..|vs| - 1]);
      assert vs[|vs| - 1] in vs;
    }
  }

  /** t0 is the earliest time any of the line's messages was seen. */
  lemma FirstSeenIsLeast(batch: Batch, written: u64)
    ensures ProposalsSince(batch.proposals, FirstSeen(batch, written))
    ensures ValidationsSince(batch.validations, FirstSeen(batch, written))
    ensures batch.Rows() == 0 ==> FirstSeen(batch, written) == written
    ensures batch.Rows() > 0 ==>
              || (exists p | p in batch.proposals :: p.seenMs == FirstSeen(batch, written))
              || (exists v | v in batch.validations :: v.seenMs == FirstSeen(batch, written))
  {
    EarliestProposalIs(batch.proposals);
    EarliestValidationIs(batch.validations);
    var t0 := FirstSeen(batch, written);
    forall p | p in batch.proposals ensures t0 <= p.seenMs {
      var i :| 0 <= i < |batch.proposals| && batch.proposals[i] == p;
      EarliestProposalBound(batch.proposals, i);
    }
    forall v | v in batch.validations ensures t0 <= v.seenMs {
      var i :| 0 <= i < |batch.validations| && batch.validations[i] == v;
      EarliestValidationBound(batch.validations, i);
    }
  }

  // ---- the proposal rows ----

  lemma SeqReadsBack(s: u32)
    ensures ReadSeq(SeqJson(s)) == Some(s)
  {
  }

  lemma HashReads(hashes: seq<Hash>, i: nat)
    requires i < |hashes| < 0x1_0000_0000
    ensures HashAt(hashes, Num(i)) == Some(hashes[i])
  {
  }

  lemma TimeReads(ms: u64, t0: u64)
    requires t0 <= ms
    ensures AsU64(Num(After(ms, t0))) == Some(After(ms, t0)) && Plus(t0, After(ms, t0)) == ms
  {
  }

  lemma ProposalRowReads(who: Json, prev: nat, p: Proposal, pos: nat, t0: u64, validator: Option<nat>, key: Bytes, hashes: seq<Hash>)
    requires prev < |hashes| < 0x1_0000_0000 && pos < |hashes| && t0 <= p.seenMs
    requires hashes[prev] == p.prevLedger && hashes[pos] == p.position
    ensures ReadProposalRow(ProposalRow(who, prev, p, pos, t0), validator, key, hashes, t0)
            == Some(ReadProposal(validator, p.(signingKey := key)))
    ensures At(ProposalRow(who, prev, p, pos, t0), 0) == who
  {
    SeqReadsBack(p.proposeSeq);
    HashReads(hashes, prev);
    HashReads(hashes, pos);
    TimeReads(p.seenMs, t0);
    hide ReadSeq, SeqJson, HashAt, After, Plus;
  }

  /** The table a lookup answers from, as the decoder sees it. */
  lemma LookupHasKey(table: TrustTable, key: Bytes)
    requires table == TableOf(table.keys) && |table.keys| < 0x1_0000_0000
    ensures table.Lookup(key).Some? ==>
              && SmallU32(Num(table.Lookup(key).value)) == Some(table.Lookup(key).value)
              && KeyOf(table, table.Lookup(key).value).Some?
  {
    LookupFindsOwner(table.keys, key);
  }

  /** What holds of the rows written so far, read under any later list of hashes. */
  ghost predicate ProposalsReadBack(st: ProposalRows, ps: seq<Proposal>, table: TrustTable, t0: u64, later: seq<Hash>) {
    && ReadTrusted(st.trusted, later, table, t0) == Some(TrustedOf(ps, table))
    && ReadUnknown(st.unknown, later, t0) == Some(FirstOf(UnknownOf(ps, table), MAX_UNKNOWN_PROPOSALS))
    && st.count == |UnknownOf(ps, table)|
    && |st.unknown| == |FirstOf(UnknownOf(ps, table), MAX_UNKNOWN_PROPOSALS)|
  }

  lemma ReadTrustedOne(rows: seq<Json>, r: Json, hashes: seq<Hash>, table: TrustTable, t0: u64,
                       init: seq<ReadProposal>, v: u32, key: Bytes, last: ReadProposal)
    requires ReadTrusted(rows, hashes, table, t0) == Some(init) && SmallU32(At(r, 0)) == Some(v)
    requires KeyOf(table, v) == Some(key) && ReadProposalRow(r, Some(v), key, hashes, t0) == Some(last)
    ensures ReadTrusted(rows + [r], hashes, table, t0) == Some(init + [last])
  {
    assert (rows + [r])[..|rows|] == rows;
    hide ReadProposalRow, KeyOf, At, SmallU32;
  }

  lemma ReadUnknownOne(rows: seq<Json>, r: Json, hashes: seq<Hash>, t0: u64, init: seq<ReadProposal>, key: Bytes, last: ReadProposal)
    requires ReadUnknown(rows, hashes, t0) == Some(init) && FromHex(At(r, 0)) == Some(key)
    requires ReadProposalRow(r, None, key, hashes, t0) == Some(last)
    ensures ReadUnknown(rows + [r], hashes, t0) == Some(init + [last])
  {
    assert (rows + [r])[..|rows|] == rows;
    hide ReadProposalRow, At, FromHex;
  }

  lemma FirstOfOne<T>(s: seq<T>, x: T, n: nat)
    ensures |s| >= n ==> FirstOf(s + [x], n) == FirstOf(s, n)
    ensures |s| < n ==> FirstOf(s + [x], n) == FirstOf(s, n) + [x]
  {
    if |s| >= n { assert (s + [x])[..n] == s[..n]; }
  }

  lemma OneProposalReads(st: ProposalRows, ps: seq<Proposal>, table: TrustTable, t0: u64, later: seq<Hash>)
    requires |ps| > 0 && table == TableOf(table.keys) && |table.keys| < 0x1_0000_0000 && |later| < 0x1_0000_0000
    requires t0 <= ps[|ps| - 1].seenMs
    requires Prefix(AddProposal(st, ps[|ps| - 1], table, t0).hashes, later)
    requires ProposalsReadBack(st, ps[..|ps| - 1], table, t0, later)
    ensures ProposalsReadBack(AddProposal(st, ps[|ps| - 1], table, t0), ps, table, t0, later)
  {
    var p := ps[|ps| - 1];
    var h1 := Interned(st.hashes, p.prevLedger);
    var h2 := Interned(h1, p.position);
    var prev, pos := Find(h1, p.prevLedger), Find(h2, p.position);
    LookupHasKey(table, p.signingKey);
    HexReadsBack(p.signingKey);
    hide Find, Interned, ProposalRow, ReadProposalRow, HexOf, FromHex, SmallU32, KeyOf, TableOf, IndexOf;
    if table.Lookup(p.signingKey).Some? || |st.unknown| < MAX_UNKNOWN_PROPOSALS {
      InternedResolves(h1, p.position, later);
      InternedResolves(st.hashes, p.prevLedger, later);
    }
    hide Prefix, Distinct;
    match table.Lookup(p.signingKey) {
      case Some(v) =>
        var key := KeyOf(table, v).value;
        ProposalRowReads(Num(v), prev, p, pos, t0, Some(v), key, later);
        ReadTrustedOne(st.trusted, ProposalRow(Num(v), prev, p, pos, t0), later, table, t0,
                       TrustedOf(ps[..|ps| - 1], table), v, key, ReadProposal(Some(v), p.(signingKey := key)));
      case None =>
        FirstOfOne(UnknownOf(ps[..|ps| - 1], table), ReadProposal(None, p), MAX_UNKNOWN_PROPOSALS);
        hide FirstOf;
        if |st.unknown| < MAX_UNKNOWN_PROPOSALS {
          ProposalRowReads(HexOf(p.signingKey), prev, p, pos, t0, None, p.signingKey, later);
          ReadUnknownOne(st.unknown, ProposalRow(HexOf(p.signingKey), prev, p, pos, t0), later, t0,
                         UnknownOf(ps[..|ps| - 1], table), p.signingKey, ReadProposal(None, p));
          assert p.(signingKey := p.signingKey) == p;
        }
    }
  }

  lemma AddProposalGrows(st: ProposalRows, p: Proposal, table: TrustTable, t0: u64)
    ensures Prefix(st.hashes, AddProposal(st, p, table, t0).hashes)
    ensures |AddProposal(st, p, table, t0).hashes| <= |st.hashes| + 2
  {
    var h1 := Interned(st.hashes, p.prevLedger);
    PrefixJoins(st.hashes, h1, Interned(h1, p.position));
  }

  lemma {:induction false} ProposalsRead(ps: seq<Proposal>, table: TrustTable, t0: u64, later: seq<Hash>)
    requires table == TableOf(table.keys) && |table.keys| < 0x1_0000_0000 && |later| < 0x1_0000_0000
    requires ProposalsSince(ps, t0) && Prefix(AddProposals(ps, table, t0).hashes, later)
    ensures ProposalsReadBack(AddProposals(ps, table, t0), ps, table, t0, later)
  {
    if |ps| > 0 {
      var init, p := ps[..|ps| - 1], ps[|ps| - 1];
      var st := AddProposals(init, table, t0);
      hide TableOf, AddProposal, ProposalsReadBack;
      AddProposalGrows(st, p, table, t0);
      PrefixJoins(st.hashes, AddProposal(st, p, table, t0).hashes, later);
      hide Prefix;
      ProposalsRead(init, table, t0, later);
      OneProposalReads(st, ps, table, t0, later);
    }
  }

  lemma {:induction false} ProposalHashes(ps: seq<Proposal>, table: TrustTable, t0: u64)
    ensures |AddProposals(ps, table, t0).hashes| <= 2 * |ps|
  {
    if |ps| > 0 {
      ProposalHashes(ps[..|ps| - 1], table, t0);
      AddProposalGrows(AddProposals(ps[..|ps| - 1], table, t0), ps[|ps| - 1], table, t0);
    }
  }

  // ---- the validation rows ----

  lemma ReadValidationOne(rows: seq<Json>, r: Json, hashes: seq<Hash>, table: TrustTable, t0: u64,
                          init: seq<(nat, Validation)>, last: (nat, Validation))
    requires ReadValidations(rows, hashes, table, t0) == Some(init) && ReadValidationRow(r, hashes, table, t0) == Some(last)
    ensures ReadValidations(rows + [r], hashes, table, t0) == Some(init + [last])
  {
    assert (rows + [r])[..|rows|] == rows;
    hide ReadValidationRow;
  }

  lemma ReadKeyOne(rows: seq<Json>, r: Json, init: seq<Bytes>, last: Bytes)
    requires ReadKeys(rows) == Some(init) && FromHex(r) == Some(last)
    ensures ReadKeys(rows + [r]) == Some(init + [last])
  {
    assert (rows + [r])[..|rows|] == rows;
    hide FromHex;
  }

  /** A consensus hash as a row refers to it. */
  ghost predicate Refers(consensus: Json, c: Option<Hash>, hashes: seq<Hash>) {
    match c
    case None => consensus == Num(-1)
    case Some(h) => consensus.Num? && 0 <= consensus.n < |hashes| && hashes[consensus.n] == h
  }

  lemma ConsensusReads(consensus: Json, c: Option<Hash>, hashes: seq<Hash>)
    requires |hashes| < 0x1_0000_0000 && Refers(consensus, c, hashes)
    ensures ReadConsensus(consensus, hashes) == Some(c)
  {
    if c.Some? { HashReads(hashes, consensus.n); }
  }

  lemma ValidationRowReads(who: nat, v: Validation, ledger: nat, consensus: Json, t0: u64, hashes: seq<Hash>, table: TrustTable)
    requires ledger < |hashes| < 0x1_0000_0000 && t0 <= v.seenMs && hashes[ledger] == v.ledgerHash
    requires Refers(consensus, v.consensusHash, hashes)
    requires SmallU32(Num(who)) == Some(who) && KeyOf(table, who).Some?
    ensures ReadValidationRow(ValidationRow(who, v, ledger, consensus, t0), hashes, table, t0)
            == Some((who, v.(signingKey := KeyOf(table, who).value)))
  {
    HashReads(hashes, ledger);
    ConsensusReads(consensus, v.consensusHash, hashes);
    TimeReads(v.seenMs, t0);
    hide HashAt, ReadConsensus, Refers, After, Plus, KeyOf;
  }

  ghost predicate ValidationsReadBack(st: ValidationRows, vs: seq<Validation>, noted: set<Bytes>, table: TrustTable, t0: u64,
                                      later: seq<Hash>)
  {
    var keys := UnknownKeys(vs, table);
    && ReadValidations(st.rows, later, table, t0) == Some(ValidationsOf(vs, table))
    && ReadKeys(st.newKeys) == Some(NewKeys(keys, noted))
    && st.count == |keys|
    && st.noted == WithKeys(noted, NewKeys(keys, noted)) && |st.noted| == |noted| + |NewKeys(keys, noted)|
  }

  lemma NewKeyOne(keys: seq<Bytes>, key: Bytes, noted: set<Bytes>)
    ensures var init := NewKeys(keys, noted);
            NewKeys(keys + [key], noted)
            == if |noted| + |init| < MAX_NOTED_KEYS && key !in noted && key !in init then init + [key] else init
  {
    assert (keys + [key])[..|keys|] == keys;
  }

  /** The keys noted after listing some more. */
  ghost function WithKeys(noted: set<Bytes>, keys: seq<Bytes>): set<Bytes> { noted + (set k | k in keys) }

  lemma NotedOne(noted: set<Bytes>, news: seq<Bytes>, key: Bytes)
    ensures WithKeys(noted, news) + {key} == WithKeys(noted, news + [key])
    ensures key in WithKeys(noted, news) <==> key in noted || key in news
  {
  }

  lemma NotedSize(noted: set<Bytes>, key: Bytes)
    requires key !in noted
    ensures |noted + {key}| == |noted| + 1
  {
  }

  lemma OneUnknownReads(st: ValidationRows, vs: seq<Validation>, noted: set<Bytes>, table: TrustTable, t0: u64, later: seq<Hash>)
    requires |vs| > 0 && table.Lookup(vs[|vs| - 1].signingKey).None?
    requires ValidationsReadBack(st, vs[..|vs| - 1], noted, table, t0, later)
    ensures ValidationsReadBack(AddValidation(st, vs[|vs| - 1], table, t0), vs, noted, table, t0, later)
  {
    var init, key := vs[..|vs| - 1], vs[|vs| - 1].signingKey;
    var keys := UnknownKeys(init, table);
    var news := NewKeys(keys, noted);
    var next := AddValidation(st, vs[|vs| - 1], table, t0);
    assert UnknownKeys(vs, table) == keys + [key] && ValidationsOf(vs, table) == ValidationsOf(init, table);
    assert next.rows == st.rows && next.count == st.count + 1;
    hide ValidationsOf, UnknownKeys, ReadValidations, WithKeys;
    NewKeyOne(keys, key, noted);
    NotedOne(noted, news, key);
    if |st.noted| < MAX_NOTED_KEYS && key !in st.noted {
      HexReadsBack(key);
      ReadKeyOne(st.newKeys, HexOf(key), news, key);
      NotedSize(st.noted, key);
      assert next.newKeys == st.newKeys + [HexOf(key)] && next.noted == st.noted + {key};
      hide AddValidation, NewKeys, ReadKeys, HexOf, FromHex;
    } else {
      assert next.newKeys == st.newKeys && next.noted == st.noted;
      hide AddValidation, NewKeys, ReadKeys;
    }
  }

  /** The interned indexes of a trusted validation's hashes. */
  lemma TrustedRefers(list: seq<Hash>, v: Validation, later: seq<Hash>)
    requires var h1 := Interned(list, v.ledgerHash);
             Prefix(if v.consensusHash.None? then h1 else Interned(h1, v.consensusHash.value), later)
    ensures var h1 := Interned(list, v.ledgerHash);
            && Find(h1, v.ledgerHash) < |later| && later[Find(h1, v.ledgerHash)] == v.ledgerHash
            && Refers(if v.consensusHash.None? then Num(-1) else Num(Find(Interned(h1, v.consensusHash.value), v.consensusHash.value)),
                      v.consensusHash, later)
  {
    var h1 := Interned(list, v.ledgerHash);
    hide Find, Interned;
    if v.consensusHash.Some? { InternedResolves(h1, v.consensusHash.value, later); }
    InternedResolves(list, v.ledgerHash, later);
  }

  lemma OneTrustedReads(st: ValidationRows, vs: seq<Validation>, noted: set<Bytes>, table: TrustTable, t0: u64, later: seq<Hash>)
    requires |vs| > 0 && table == TableOf(table.keys) && |table.keys| < 0x1_0000_0000 && |later| < 0x1_0000_0000
    requires table.Lookup(vs[|vs| - 1].signingKey).Some? && t0 <= vs[|vs| - 1].seenMs
    requires Prefix(AddValidation(st, vs[|vs| - 1], table, t0).hashes, later)
    requires ValidationsReadBack(st, vs[..|vs| - 1], noted, table, t0, later)
    ensures ValidationsReadBack(AddValidation(st, vs[|vs| - 1], table, t0), vs, noted, table, t0, later)
  {
    var init, v := vs[..|vs| - 1], vs[|vs| - 1];
    var who := table.Lookup(v.signingKey).value;
    var h1 := Interned(st.hashes, v.ledgerHash);
    var ledger := Find(h1, v.ledgerHash);
    LookupHasKey(table, v.signingKey);
    hide Find, Interned, ValidationRow, ReadValidationRow, KeyOf, SmallU32, TableOf, ReadKeys, NewKeys, ReadValidations;
    TrustedRefers(st.hashes, v, later);
    hide Prefix, Refers;
    var consensus :=
      if v.consensusHash.None? then Num(-1) else Num(Find(Interned(h1, v.consensusHash.value), v.consensusHash.value));
    ValidationRowReads(who, v, ledger, consensus, t0, later, table);
    ReadValidationOne(st.rows, ValidationRow(who, v, ledger, consensus, t0), later, table, t0,
                      ValidationsOf(init, table), (who, v.(signingKey := KeyOf(table, who).value)));
    assert ValidationsOf(vs, table) == ValidationsOf(init, table) + [(who, v.(signingKey := KeyOf(table, who).value))];
    assert UnknownKeys(vs, table) == UnknownKeys(init, table);
    hide ValidationsOf, UnknownKeys;
  }

  lemma AddValidationGrows(st: ValidationRows, v: Validation, table: TrustTable, t0: u64)
    ensures Prefix(st.hashes, AddValidation(st, v, table, t0).hashes)
    ensures |AddValidation(st, v, table, t0).hashes| <= |st.hashes| + 2
  {
    if table.Lookup(v.signingKey).Some? && v.consensusHash.Some? {
      var h1 := Interned(st.hashes, v.ledgerHash);
      PrefixJoins(st.hashes, h1, Interned(h1, v.consensusHash.value));
    }
  }

  lemma {:induction false} ValidationsRead(vs: seq<Validation>, hashes: seq<Hash>, noted: set<Bytes>, table: TrustTable, t0: u64,
                                           later: seq<Hash>)
    requires table == TableOf(table.keys) && |table.keys| < 0x1_0000_0000 && |later| < 0x1_0000_0000
    requires ValidationsSince(vs, t0) && Prefix(AddValidations(vs, hashes, noted, table, t0).hashes, later)
    ensures ValidationsReadBack(AddValidations(vs, hashes, noted, table, t0), vs, noted, table, t0, later)
    ensures Prefix(hashes, later)
  {
    if |vs| > 0 {
      var init, v := vs[..|vs| - 1], vs[|vs| - 1];
      var st := AddValidations(init, hashes, noted, table, t0);
      hide TableOf, AddValidation, ValidationsReadBack;
      AddValidationGrows(st, v, table, t0);
      PrefixJoins(st.hashes, AddValidation(st, v, table, t0).hashes, later);
      hide Prefix;
      ValidationsRead(init, hashes, noted, table, t0, later);
      if table.Lookup(v.signingKey).None? {
        OneUnknownReads(st, vs, noted, table, t0, later);
      } else {
        OneTrustedReads(st, vs, noted, table, t0, later);
      }
    }
  }

  lemma {:induction false} ValidationHashes(vs: seq<Validation>, hashes: seq<Hash>, noted: set<Bytes>, table: TrustTable, t0: u64)
    ensures |AddValidations(vs, hashes, noted, table, t0).hashes| <= |hashes| + 2 * |vs|
  {
    if |vs| > 0 {
      ValidationHashes(vs[..|vs| - 1], hashes, noted, table, t0);
      AddValidationGrows(AddValidations(vs[..|vs| - 1], hashes, noted, table, t0), vs[|vs| - 1], table, t0);
    }
  }

  // ---- the whole line ----

  lemma ReadOneHash(rows: seq<Json>, r: Json, init: seq<Hash>, last: Hash)
    requires ReadHashes(rows) == Some(init) && FromHex32(r) == Some(last)
    ensures ReadHashes(rows + [r]) == Some(init + [last])
  {
    assert (rows + [r])[..|rows|] == rows;
    hide FromHex32;
  }

  lemma {:induction false} HashesRead(list: seq<Hash>)
    ensures ReadHashes(HexList(list)) == Some(list)
  {
    if |list| > 0 {
      var init, last := list[..|list| - 1], list[|list| - 1];
      HashesRead(init);
      assert HexList(list) == HexList(init) + [HexOf(last)] && list == init + [last];
      hide *;
      HexReadsBack(last);
      ReadOneHash(HexList(init), HexOf(last), init, last);
    }
  }

  lemma {:induction false} UnknownCount(ps: seq<Proposal>, table: TrustTable)
    ensures |UnknownOf(ps, table)| <= |ps|
  {
    if |ps| > 0 { UnknownCount(ps[..|ps| - 1], table); }
  }

  lemma {:induction false} UnknownKeyCount(vs: seq<Validation>, table: TrustTable)
    ensures |UnknownKeys(vs, table)| <= |vs|
  {
    if |vs| > 0 { UnknownKeyCount(vs[..|vs| - 1], table); }
  }

  lemma CountsRead(batch: Batch, pu: nat, vu: nat, lost: u64)
    requires pu < 0x1_0000_0000 && vu < 0x1_0000_0000
    requires batch.proposalDups < 0x1_0000_0000_0000_0000 && batch.validationDups < 0x1_0000_0000_0000_0000
    requires batch.validationBad < 0x1_0000_0000_0000_0000
    ensures ReadCounts(CountFields(batch, pu, vu, lost))
            == Some(LineCounts(batch.proposalDups, batch.validationDups, pu, vu, batch.validationBad, lost))
  {
  }

  lemma UnionField(a: map<Name, Json>, b: map<Name, Json>, c: map<Name, Json>, n: Name)
    ensures n in c ==> Field(Obj(a + b + c), n) == c[n]
    ensures n !in c && n in b ==> Field(Obj(a + b + c), n) == b[n]
    ensures n !in c && n !in b && n in a ==> Field(Obj(a + b + c), n) == a[n]
    ensures n !in c && n !in b && n !in a ==> n !in (a + b + c)
    ensures n in c || n in b ==> n in (a + b + c)
  {
  }

  lemma BodyHas(batch: Batch, ps: ProposalRows, vs: ValidationRows, lost: u64, t0: u64, written: u64)
    ensures var c := BodyFields(batch, ps, vs, lost, t0, written);
            && c.Keys == {T0, Tw, H, Pr, Pu, Va, Uk, N}
            && c[T0] == Num(t0) && c[Tw] == Num(written) && c[H] == Arr(HexList(vs.hashes)) && c[Pr] == Arr(ps.trusted)
            && c[Pu] == Arr(ps.unknown) && c[Va] == Arr(vs.rows) && c[Uk] == Arr(vs.newKeys)
            && c[N] == CountFields(batch, ps.count, vs.count, lost)
  {
    hide HexList, CountFields;
  }

  lemma HeaderHas(h: Header)
    ensures var b := HeaderFields(Some(h));
            && b.Keys == {Seq, HashOf, Parent, Ct, Pct, Res, Flags, Txh, Th}
            && b[Seq] == Num(h.seqNo) && b[HashOf] == HexOf(h.hash) && b[Parent] == HexOf(h.parentHash)
            && b[Ct] == Num(h.closeTime) && b[Pct] == Num(h.parentCloseTime) && b[Res] == Num(h.closeResolution)
            && b[Flags] == Num(h.closeFlags) && b[Txh] == HexOf(h.transactionHash) && b[Th] == Num(h.seenMs)
  {
    hide HexOf;
  }

  lemma NumbersRead(h: Header)
    ensures SmallU32(Num(h.seqNo)) == Some(h.seqNo) && SmallU32(Num(h.closeTime)) == Some(h.closeTime)
    ensures SmallU32(Num(h.parentCloseTime)) == Some(h.parentCloseTime)
    ensures SmallByte(Num(h.closeResolution)) == Some(h.closeResolution) && SmallByte(Num(h.closeFlags)) == Some(h.closeFlags)
    ensures AsU64(Num(h.seenMs)) == Some(h.seenMs)
    ensures FromHex32(HexOf(h.hash)) == Some(h.hash) && FromHex32(HexOf(h.parentHash)) == Some(h.parentHash)
    ensures FromHex32(HexOf(h.transactionHash)) == Some(h.transactionHash)
  {
    HexReadsBack(h.hash);
    HexReadsBack(h.parentHash);
    HexReadsBack(h.transactionHash);
  }

  lemma FieldsSome(a: map<Name, Json>, h: Header, c: map<Name, Json>)
    requires c.Keys == {T0, Tw, H, Pr, Pu, Va, Uk, N}
    ensures ReadHeader(Obj(a + HeaderFields(Some(h)) + c)) == Some(Some(h))
  {
    var b := HeaderFields(Some(h));
    HeaderHas(h);
    NumbersRead(h);
    hide HeaderFields, Field, HexOf, FromHex32, SmallU32, SmallByte, AsU64;
    UnionField(a, b, c, Seq);
    UnionField(a, b, c, HashOf);
    UnionField(a, b, c, Parent);
    UnionField(a, b, c, Ct);
    UnionField(a, b, c, Pct);
    UnionField(a, b, c, Res);
    UnionField(a, b, c, Flags);
    UnionField(a, b, c, Txh);
    UnionField(a, b, c, Th);
  }

  lemma FieldsNone(a: map<Name, Json>, c: map<Name, Json>)
    requires Seq !in a && c.Keys == {T0, Tw, H, Pr, Pu, Va, Uk, N}
    ensures ReadHeader(Obj(a + HeaderFields(None) + c)) == Some(None)
  {
    assert HeaderFields(None) == map[];
    hide HeaderFields, Field, SmallU32, SmallByte, FromHex32, AsU64, HexOf;
    UnionField(a, HeaderFields(None), c, Seq);
  }

  lemma HeaderReads(batch: Batch, header: Option<Header>, ps: ProposalRows, vs: ValidationRows, lost: u64, t0: u64, written: u64)
    ensures ReadHeader(RoundLine(batch, header, ps, vs, lost, t0, written)) == Some(header)
  {
    hide BodyFields, ReadHeader, HeaderFields;
    var a := map[K := Str("r"), Ver := Num(FORMAT_VERSION)];
    var c := BodyFields(batch, ps, vs, lost, t0, written);
    BodyHas(batch, ps, vs, lost, t0, written);
    match header {
      case Some(h) => FieldsSome(a, h, c);
      case None => FieldsNone(a, c);
    }
  }

  lemma FieldsRead(batch: Batch, header: Option<Header>, ps: ProposalRows, vs: ValidationRows, lost: u64, t0: u64, written: u64)
    ensures var v := RoundLine(batch, header, ps, vs, lost, t0, written);
            && IsRoundLine(v) && Field(v, H) == Arr(HexList(vs.hashes)) && Field(v, T0) == Num(t0) && Field(v, Tw) == Num(written)
            && Field(v, Pr) == Arr(ps.trusted) && Field(v, Pu) == Arr(ps.unknown) && Field(v, Va) == Arr(vs.rows)
            && Field(v, Uk) == Arr(vs.newKeys) && Field(v, N) == CountFields(batch, ps.count, vs.count, lost)
  {
    var a, b := map[K := Str("r"), Ver := Num(FORMAT_VERSION)], HeaderFields(header);
    var c := BodyFields(batch, ps, vs, lost, t0, written);
    BodyHas(batch, ps, vs, lost, t0, written);
    if header.Some? { HeaderHas(header.value); }
    assert K !in b && K in a;
    hide BodyFields, HeaderFields, HexList, CountFields, HexOf, Field;
    UnionField(a, b, c, K);
    UnionField(a, b, c, H);
    UnionField(a, b, c, T0);
    UnionField(a, b, c, Tw);
    UnionField(a, b, c, Pr);
    UnionField(a, b, c, Pu);
    UnionField(a, b, c, Va);
    UnionField(a, b, c, Uk);
    UnionField(a, b, c, N);
  }

  /** Decoding undoes encoding, for every batch, header, table and set of keys already noted: the
      header, times and bow-outs exactly; the trusted proposals, then the first 64 others; every
      trusted message under its validator's table key; every hash its own. */
  lemma DecodeUndoesEncode(round: Round, noted: set<Bytes>)
    requires Fits(round)
    ensures DecodeRound(round.Line(noted), round.table) == Some(Meaning(round, noted))
  {
    var t0, ps, vs := round.T0(), round.Proposals(), round.Validations(noted);
    var b, table := round.batch, round.table;
    FirstSeenIsLeast(b, round.written);
    ProposalHashes(b.proposals, table, t0);
    ValidationHashes(b.validations, ps.hashes, noted, table, t0);
    assert Prefix(vs.hashes, vs.hashes);
    ValidationsRead(b.validations, ps.hashes, noted, table, t0, vs.hashes);
    ProposalsRead(b.proposals, table, t0, vs.hashes);
    HashesRead(vs.hashes);
    UnknownCount(b.proposals, table);
    UnknownKeyCount(b.validations, table);
    hide Prefix, TableOf, FirstSeen, AddProposals, AddValidations, ProposalsSince, ValidationsSince;
    Assemble(round, noted);
  }

  lemma Assemble(round: Round, noted: set<Bytes>)
    requires var t0, ps, vs := round.T0(), round.Proposals(), round.Validations(noted);
             && ProposalsReadBack(ps, round.batch.proposals, round.table, t0, vs.hashes)
             && ValidationsReadBack(vs, round.batch.validations, noted, round.table, t0, vs.hashes)
             && ReadHashes(HexList(vs.hashes)) == Some(vs.hashes)
             && ps.count < 0x1_0000_0000 && vs.count < 0x1_0000_0000 && Fits(round)
    ensures DecodeRound(round.Line(noted), round.table) == Some(Meaning(round, noted))
  {
    var t0, ps, vs := round.T0(), round.Proposals(), round.Validations(noted);
    var b, table := round.batch, round.table;
    hide FirstSeen, AddProposals, AddValidations, HexList, ReadHashes, ReadTrusted, ReadUnknown, ReadValidations, ReadKeys;
    hide TrustedOf, UnknownOf, ValidationsOf, UnknownKeys, NewKeys, FirstOf;
    FieldsRead(b, round.header, ps, vs, round.lost, t0, round.written);
    HeaderReads(b, round.header, ps, vs, round.lost, t0, round.written);
    CountsRead(b, ps.count, vs.count, round.lost);
    hide RoundLine, CountFields, IsRoundLine, ReadHeader, ReadCounts;
  }

  // ---- what a line's meaning says ----

  /** A trusted row carries the key of a validator that owns the key the message was signed with. */
  lemma {:induction false} TrustedRowsAreOwned(ps: seq<Proposal>, table: TrustTable, i: nat)
    requires table == TableOf(table.keys) && i < |TrustedOf(ps, table)|
    ensures var r := TrustedOf(ps, table)[i];
            exists p | p in ps :: r.validator.Some? && LastOwner(table.keys, p.signingKey, r.validator.value)
                                  && KeyOf(table, r.validator.value) == Some(r.proposal.signingKey)
                                  && r.proposal == p.(signingKey := r.proposal.signingKey)
  {
    var init, p := ps[..|ps| - 1], ps[|ps| - 1];
    LookupFindsOwner(table.keys, p.signingKey);
    assert p in ps;
    if i < |TrustedOf(init, table)| {
      TrustedRowsAreOwned(init, table, i);
      assert forall q :: q in init ==> q in ps;
    }
  }

  lemma {:induction false} EveryProposalIsCounted(ps: seq<Proposal>, table: TrustTable)
    requires table == TableOf(table.keys)
    ensures |TrustedOf(ps, table)| + |UnknownOf(ps, table)| == |ps|
  {
    if |ps| > 0 {
      EveryProposalIsCounted(ps[..|ps| - 1], table);
      LookupFindsOwner(table.keys, ps[|ps| - 1].signingKey);
    }
  }

  lemma {:induction false} EveryValidationIsCounted(vs: seq<Validation>, table: TrustTable)
    requires table == TableOf(table.keys)
    ensures |ValidationsOf(vs, table)| + |UnknownKeys(vs, table)| == |vs|
  {
    if |vs| > 0 {
      EveryValidationIsCounted(vs[..|vs| - 1], table);
      LookupFindsOwner(table.keys, vs[|vs| - 1].signingKey);
    }
  }

  /** The keys a line lists are unknown ones, new to the file, each once; and all of them are listed
      unless the file's allowance ran out. */
  lemma {:induction false} NewKeysAreNew(keys: seq<Bytes>, noted: set<Bytes>)
    ensures forall k | k in NewKeys(keys, noted) :: k in keys && k !in noted
    ensures forall i, j | 0 <= i < j < |NewKeys(keys, noted)| :: NewKeys(keys, noted)[i] != NewKeys(keys, noted)[j]
    ensures |noted| <= 4_096 ==> |noted| + |NewKeys(keys, noted)| <= 4_096
    ensures |noted| + |NewKeys(keys, noted)| < 4_096 ==>
              forall k | k in keys :: k in noted || k in NewKeys(keys, noted)
  {
    if |keys| > 0 { NewKeysAreNew(keys[..|keys| - 1], noted); }
  }

  lemma {:induction false} NotedAfter(vs: seq<Validation>, hashes: seq<Hash>, noted: set<Bytes>, table: TrustTable, t0: u64)
    ensures var st, news := AddValidations(vs, hashes, noted, table, t0), NewKeys(UnknownKeys(vs, table), noted);
            st.noted == WithKeys(noted, news) && |st.noted| == |noted| + |news|
  {
    if |vs| > 0 {
      var init, key := vs[..|vs| - 1], vs[|vs| - 1].signingKey;
      var st, keys := AddValidations(init, hashes, noted, table, t0), UnknownKeys(init, table);
      NotedAfter(init, hashes, noted, table, t0);
      NewKeyOne(keys, key, noted);
      NotedOne(noted, NewKeys(keys, noted), key);
      if key !in st.noted { NotedSize(st.noted, key); }
      hide WithKeys, NewKeys, HexOf, Interned, ValidationRow;
    }
  }

  /** The keys noted afterwards are those noted before and those just listed. */
  lemma NotedGrows(round: Round, noted: set<Bytes>)
    ensures round.Noted(noted) == WithKeys(noted, Meaning(round, noted).unknownKeys)
  {
    NotedAfter(round.batch.validations, round.Proposals().hashes, noted, round.table, round.T0());
    hide AddValidations, AddProposals, NewKeys, UnknownKeys, TrustedOf, UnknownOf, FirstSeen;
  }

  // ---- each hash once ----

  lemma InternedOnce(list: seq<Hash>, h: Hash)
    requires Distinct(list)
    ensures Distinct(Interned(list, h))
  {
  }

  lemma {:induction false} ProposalHashesOnce(ps: seq<Proposal>, table: TrustTable, t0: u64)
    ensures Distinct(AddProposals(ps, table, t0).hashes)
  {
    if |ps| > 0 {
      var st, p := AddProposals(ps[..|ps| - 1], table, t0), ps[|ps| - 1];
      ProposalHashesOnce(ps[..|ps| - 1], table, t0);
      InternedOnce(st.hashes, p.prevLedger);
      InternedOnce(Interned(st.hashes, p.prevLedger), p.position);
      hide Distinct, Interned;
    }
  }

  lemma {:induction false} ValidationHashesOnce(vs: seq<Validation>, hashes: seq<Hash>, noted: set<Bytes>, table: TrustTable, t0: u64)
    requires Distinct(hashes)
    ensures Distinct(AddValidations(vs, hashes, noted, table, t0).hashes)
  {
    if |vs| > 0 {
      var st, v := AddValidations(vs[..|vs| - 1], hashes, noted, table, t0), vs[|vs| - 1];
      ValidationHashesOnce(vs[..|vs| - 1], hashes, noted, table, t0);
      InternedOnce(st.hashes, v.ledgerHash);
      if v.consensusHash.Some? { InternedOnce(Interned(st.hashes, v.ledgerHash), v.consensusHash.value); }
      hide Distinct, Interned;
    }
  }

  /** A line writes each 32-byte value once. */
  lemma HashesWrittenOnce(round: Round, noted: set<Bytes>)
    ensures Distinct(round.Validations(noted).hashes)
    ensures Field(round.Line(noted), H) == Arr(HexList(round.Validations(noted).hashes))
  {
    ProposalHashesOnce(round.batch.proposals, round.table, round.T0());
    ValidationHashesOnce(round.batch.validations, round.Proposals().hashes, noted, round.table, round.T0());
    hide Distinct, AddProposals, AddValidations, HexList, FirstSeen;
    FieldsRead(round.batch, round.header, round.Proposals(), round.Validations(noted), round.lost, round.T0(), round.written);
  }
}
