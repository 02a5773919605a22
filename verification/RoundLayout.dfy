// What stands where in a round line: the order of a row's columns and the meaning of each, told
// without the encoder or the decoder.
module RoundLayout {
  import opened Bytes
  import opened RoundJson
  import opened TrustTables
  import opened RoundCodec
  import opened RoundTrip

  /** A cell naming a hash of the line's list. */
  ghost predicate Names(cell: Json, h: Hash, hashes: seq<Hash>) {
    cell.Num? && 0 <= cell.n < |hashes| && hashes[cell.n] == h
  }

  /** A cell holding a time as milliseconds since the line's first message. */
  ghost predicate Since(cell: Json, ms: u64, t0: u64) { cell.Num? && cell.n >= 0 && t0 + cell.n == ms }

  /** A proposal row: who, the ledger it builds on, its number (-1 when bowing out), its close time,
      its position, and when it was seen. */
  ghost predicate SaysProposal(row: Json, who: Json, p: Proposal, hashes: seq<Hash>, t0: u64) {
    && row.Arr? && |row.items| == 6 && row.items[0] == who
    && Names(row.items[1], p.prevLedger, hashes)
    && row.items[2] == Num(if p.proposeSeq == 0xFFFF_FFFF then -1 else p.proposeSeq)
    && row.items[3] == Num(p.closeTime)
    && Names(row.items[4], p.position, hashes)
    && Since(row.items[5], p.seenMs, t0)
  }

  /** A validation row: who, the ledger's number and hash, the consensus hash or -1, when it was
      signed, when it was seen, and 1 if it is a full one. */
  ghost predicate SaysValidation(row: Json, who: nat, v: Validation, hashes: seq<Hash>, t0: u64) {
    && row.Arr? && |row.items| == 7 && row.items[0] == Num(who)
    && row.items[1] == Num(v.ledgerSeq)
    && Names(row.items[2], v.ledgerHash, hashes)
    && (if v.consensusHash.None? then row.items[3] == Num(-1) else Names(row.items[3], v.consensusHash.value, hashes))
    && row.items[4] == Num(v.signingTime)
    && Since(row.items[5], v.seenMs, t0)
    && row.items[6] == Num(if v.full then 1 else 0)
  }

  /** Each trusted row says its own proposal under the validator's number in the table. */
  ghost predicate TrustedSaid(rows: seq<Json>, said: seq<ReadProposal>, hashes: seq<Hash>, t0: u64) {
    && |rows| == |said|
    && forall k | 0 <= k < |rows| ::
         said[k].validator.Some? && SaysProposal(rows[k], Num(said[k].validator.value), said[k].proposal, hashes, t0)
  }

  /** Each other row says its own proposal under the hex text of its key. */
  ghost predicate UnknownSaid(rows: seq<Json>, said: seq<ReadProposal>, hashes: seq<Hash>, t0: u64) {
    && |rows| == |said|
    && forall k | 0 <= k < |rows| ::
         SaysProposal(rows[k], Str(HexUpper(said[k].proposal.signingKey)), said[k].proposal, hashes, t0)
  }

  ghost predicate ValidationsSaid(rows: seq<Json>, said: seq<(nat, Validation)>, hashes: seq<Hash>, t0: u64) {
    && |rows| == |said|
    && forall k | 0 <= k < |rows| :: SaysValidation(rows[k], said[k].0, said[k].1, hashes, t0)
  }

  lemma ProposalRowSays(who: Json, prev: nat, p: Proposal, pos: nat, t0: u64, key: Bytes, hashes: seq<Hash>)
    requires prev < |hashes| && pos < |hashes| && t0 <= p.seenMs
    requires hashes[prev] == p.prevLedger && hashes[pos] == p.position
    ensures SaysProposal(ProposalRow(who, prev, p, pos, t0), who, p.(signingKey := key), hashes, t0)
  {
  }

  lemma ValidationRowSays(who: nat, v: Validation, ledger: nat, consensus: Json, t0: u64, key: Bytes, hashes: seq<Hash>)
    requires ledger < |hashes| && t0 <= v.seenMs && hashes[ledger] == v.ledgerHash && Refers(consensus, v.consensusHash, hashes)
    ensures SaysValidation(ValidationRow(who, v, ledger, consensus, t0), who, v.(signingKey := key), hashes, t0)
  {
  }

  lemma {:induction false} OneProposalSaid(st: ProposalRows, ps: seq<Proposal>, table: TrustTable, t0: u64, later: seq<Hash>)
    requires |ps| > 0 && table == TableOf(table.keys) && |table.keys| < 0x1_0000_0000 && t0 <= ps[|ps| - 1].seenMs
    requires Prefix(AddProposal(st, ps[|ps| - 1], table, t0).hashes, later)
    requires TrustedSaid(st.trusted, TrustedOf(ps[..|ps| - 1], table), later, t0)
    requires UnknownSaid(st.unknown, FirstOf(UnknownOf(ps[..|ps| - 1], table), 64), later, t0)
    ensures TrustedSaid(AddProposal(st, ps[|ps| - 1], table, t0).trusted, TrustedOf(ps, table), later, t0)
    ensures UnknownSaid(AddProposal(st, ps[|ps| - 1], table, t0).unknown, FirstOf(UnknownOf(ps, table), 64), later, t0)
  {
    var p := ps[|ps| - 1];
    var h1 := Interned(st.hashes, p.prevLedger);
    var h2 := Interned(h1, p.position);
    var prev, pos := Find(h1, p.prevLedger), Find(h2, p.position);
    LookupHasKey(table, p.signingKey);
    hide Find, Interned, ProposalRow, SmallU32, KeyOf, TableOf, IndexOf, SaysProposal, HexUpper;
    if table.Lookup(p.signingKey).Some? || |st.unknown| < MAX_UNKNOWN_PROPOSALS {
      InternedResolves(h1, p.position, later);
      InternedResolves(st.hashes, p.prevLedger, later);
    }
    hide Prefix, Distinct;
    match table.Lookup(p.signingKey) {
      case Some(v) =>
        ProposalRowSays(Num(v), prev, p, pos, t0, KeyOf(table, v).value, later);
      case None =>
        FirstOfOne(UnknownOf(ps[..|ps| - 1], table), ReadProposal(None, p), MAX_UNKNOWN_PROPOSALS);
        hide FirstOf;
        if |st.unknown| < MAX_UNKNOWN_PROPOSALS {
          ProposalRowSays(HexOf(p.signingKey), prev, p, pos, t0, p.signingKey, later);
          assert p.(signingKey := p.signingKey) == p;
        }
    }
  }

  lemma {:induction false} ProposalsAreSaid(ps: seq<Proposal>, table: TrustTable, t0: u64, later: seq<Hash>)
    requires table == TableOf(table.keys) && |table.keys| < 0x1_0000_0000
    requires ProposalsSince(ps, t0) && Prefix(AddProposals(ps, table, t0).hashes, later)
    ensures TrustedSaid(AddProposals(ps, table, t0).trusted, TrustedOf(ps, table), later, t0)
    ensures UnknownSaid(AddProposals(ps, table, t0).unknown, FirstOf(UnknownOf(ps, table), 64), later, t0)
  {
    if |ps| > 0 {
      var init, p := ps[..|ps| - 1], ps[|ps| - 1];
      var st := AddProposals(init, table, t0);
      hide TableOf, AddProposal, TrustedSaid, UnknownSaid, TrustedOf, UnknownOf, FirstOf;
      AddProposalGrows(st, p, table, t0);
      PrefixJoins(st.hashes, AddProposal(st, p, table, t0).hashes, later);
      hide Prefix;
      ProposalsAreSaid(init, table, t0, later);
      OneProposalSaid(st, ps, table, t0, later);
    }
  }

  lemma {:induction false} OneValidationSaid(st: ValidationRows, vs: seq<Validation>, table: TrustTable, t0: u64, later: seq<Hash>)
    requires |vs| > 0 && table == TableOf(table.keys) && |table.keys| < 0x1_0000_0000 && t0 <= vs[|vs| - 1].seenMs
    requires Prefix(AddValidation(st, vs[|vs| - 1], table, t0).hashes, later)
    requires ValidationsSaid(st.rows, ValidationsOf(vs[..|vs| - 1], table), later, t0)
    ensures ValidationsSaid(AddValidation(st, vs[|vs| - 1], table, t0).rows, ValidationsOf(vs, table), later, t0)
  {
    var v := vs[|vs| - 1];
    LookupHasKey(table, v.signingKey);
    hide Find, Interned, ValidationRow, SmallU32, KeyOf, TableOf, IndexOf, SaysValidation, HexOf;
    if table.Lookup(v.signingKey).Some? {
      TrustedRefers(st.hashes, v, later);
      hide Prefix, Refers;
      var who := table.Lookup(v.signingKey).value;
      var h1 := Interned(st.hashes, v.ledgerHash);
      var consensus :=
        if v.consensusHash.None? then Num(-1) else Num(Find(Interned(h1, v.consensusHash.value), v.consensusHash.value));
      ValidationRowSays(who, v, Find(h1, v.ledgerHash), consensus, t0, KeyOf(table, who).value, later);
    }
  }

  lemma {:induction false} ValidationsAreSaid(vs: seq<Validation>, hashes: seq<Hash>, noted: set<Bytes>, table: TrustTable,
                                              t0: u64, later: seq<Hash>)
    requires table == TableOf(table.keys) && |table.keys| < 0x1_0000_0000
    requires ValidationsSince(vs, t0) && Prefix(AddValidations(vs, hashes, noted, table, t0).hashes, later)
    ensures ValidationsSaid(AddValidations(vs, hashes, noted, table, t0).rows, ValidationsOf(vs, table), later, t0)
    ensures Prefix(hashes, later)
  {
    if |vs| > 0 {
      var init, v := vs[..|vs| - 1], vs[|vs| - 1];
      var st := AddValidations(init, hashes, noted, table, t0);
      hide TableOf, AddValidation, ValidationsSaid, ValidationsOf;
      AddValidationGrows(st, v, table, t0);
      PrefixJoins(st.hashes, AddValidation(st, v, table, t0).hashes, later);
      hide Prefix;
      ValidationsAreSaid(init, hashes, noted, table, t0, later);
      OneValidationSaid(st, vs, table, t0, later);
    }
  }

  lemma {:induction false} HexListAt(list: seq<Hash>, i: nat)
    requires i < |list|
    ensures HexList(list)[i] == Str(HexUpper(list[i]))
  {
    if i < |list| - 1 { HexListAt(list[..|list| - 1], i); }
  }

  /** The line's named parts, version 1 of its format. */
  ghost predicate Marked(line: Json, round: Round) {
    && Field(line, K) == Str("r") && Field(line, Ver) == Num(1)
    && Field(line, Tw) == Num(round.written) && Field(line, T0) == Num(round.T0())
  }

  /** The counters: duplicates, messages of keys not on the list, validations that did not parse,
      and messages turned away. */
  ghost predicate Counted(n: Json, round: Round) {
    && Field(n, Pdup) == Num(round.batch.proposalDups) && Field(n, Vdup) == Num(round.batch.validationDups)
    && Field(n, Pu) == Num(|UnknownOf(round.batch.proposals, round.table)|)
    && Field(n, Vu) == Num(|UnknownKeys(round.batch.validations, round.table)|)
    && Field(n, Vbad) == Num(round.batch.validationBad) && Field(n, Lost) == Num(round.lost)
  }

  /** The hashes in the line, each spelt in upper-case hex. */
  ghost predicate Spells(cell: Json, hashes: seq<Hash>) {
    cell.Arr? && |cell.items| == |hashes| && forall i | 0 <= i < |hashes| :: cell.items[i] == Str(HexUpper(hashes[i]))
  }

  /** The ledger the line closes on, if there is one. */
  ghost predicate Headed(line: Json, header: Option<Header>) {
    match header
    case None => Field(line, Seq) == Null
    case Some(h) =>
      && Field(line, Seq) == Num(h.seqNo) && Field(line, HashOf) == Str(HexUpper(h.hash))
      && Field(line, Parent) == Str(HexUpper(h.parentHash)) && Field(line, Ct) == Num(h.closeTime)
      && Field(line, Pct) == Num(h.parentCloseTime) && Field(line, Res) == Num(h.closeResolution)
      && Field(line, Flags) == Num(h.closeFlags) && Field(line, Txh) == Str(HexUpper(h.transactionHash))
      && Field(line, Th) == Num(h.seenMs)
  }

  lemma HeadedLine(a: map<Name, Json>, h: Header, c: map<Name, Json>)
    requires a.Keys == {K, Ver} && c.Keys == {T0, Tw, H, Pr, Pu, Va, Uk, N}
    ensures Headed(Obj(a + HeaderFields(Some(h)) + c), Some(h))
  {
    var b := HeaderFields(Some(h));
    HeaderHas(h);
    hide HeaderFields, Field, HexUpper;
    UnionField(a, b, c, Seq);
    UnionField(a, b, c, HashOf);
    UnionField(a, b, c, Parent);
    UnionField(a, b, c, Ct);
    UnionField(a, b, c, Pct);
    UnionField(a, b, c, Res);
    UnionField(a, b, c, Flags);
    UnionField(a, b, c, Txh);
    UnionField(a, b, c, Th);
  }

  lemma BareLine(a: map<Name, Json>, c: map<Name, Json>)
    requires a.Keys == {K, Ver} && c.Keys == {T0, Tw, H, Pr, Pu, Va, Uk, N}
    ensures Headed(Obj(a + HeaderFields(None) + c), None)
  {
    assert Seq !in a + HeaderFields(None) + c;
  }

  lemma CountsAre(round: Round, ps: ProposalRows, vs: ValidationRows)
    requires ps.count == |UnknownOf(round.batch.proposals, round.table)| && vs.count == |UnknownKeys(round.batch.validations, round.table)|
    ensures Counted(CountFields(round.batch, ps.count, vs.count, round.lost), round)
  {
    hide UnknownOf, UnknownKeys;
  }

  /** The rows a round's line is made of say what its messages say. */
  ghost predicate RowsSay(round: Round, ps: ProposalRows, vs: ValidationRows) {
    var b, table, t0 := round.batch, round.table, round.T0();
    && TrustedSaid(ps.trusted, TrustedOf(b.proposals, table), vs.hashes, t0)
    && UnknownSaid(ps.unknown, FirstOf(UnknownOf(b.proposals, table), 64), vs.hashes, t0)
    && ValidationsSaid(vs.rows, ValidationsOf(b.validations, table), vs.hashes, t0)
    && ps.count == |UnknownOf(b.proposals, table)| && vs.count == |UnknownKeys(b.validations, table)|
  }

  lemma RowsAreSaid(round: Round, noted: set<Bytes>)
    requires Fits(round)
    ensures RowsSay(round, round.Proposals(), round.Validations(noted))
  {
    var b, table, t0, ps, vs := round.batch, round.table, round.T0(), round.Proposals(), round.Validations(noted);
    FirstSeenIsLeast(b, round.written);
    assert Prefix(vs.hashes, vs.hashes);
    hide TableOf, FirstSeen, AddProposals, AddValidations, TrustedOf, UnknownOf, ValidationsOf, UnknownKeys, FirstOf;
    hide TrustedSaid, UnknownSaid, ValidationsSaid, ProposalsSince, ValidationsSince, Prefix;
    ValidationsAreSaid(b.validations, ps.hashes, noted, table, t0, vs.hashes);
    ProposalsAreSaid(b.proposals, table, t0, vs.hashes);
    ProposalCount(b.proposals, table, t0);
    ValidationCount(b.validations, ps.hashes, noted, table, t0);
  }

  lemma SpelledOut(hashes: seq<Hash>)
    ensures Spells(Arr(HexList(hashes)), hashes)
  {
    hide HexList, HexUpper;
    forall i | 0 <= i < |hashes| ensures HexList(hashes)[i] == Str(HexUpper(hashes[i])) { HexListAt(hashes, i); }
  }

  lemma LineMarked(round: Round, ps: ProposalRows, vs: ValidationRows)
    ensures Marked(RoundLine(round.batch, round.header, ps, vs, round.lost, round.T0(), round.written), round)
  {
    var a := map[K := Str("r"), Ver := Num(FORMAT_VERSION)];
    var b, c := HeaderFields(round.header), BodyFields(round.batch, ps, vs, round.lost, round.T0(), round.written);
    BodyHas(round.batch, ps, vs, round.lost, round.T0(), round.written);
    if round.header.Some? { HeaderHas(round.header.value); }
    assert K !in b && Ver !in b && a[K] == Str("r") && a[Ver] == Num(1);
    hide BodyFields, HeaderFields, Field, FirstSeen, HexList, HexOf, CountFields;
    UnionField(a, b, c, K);
    UnionField(a, b, c, Ver);
    UnionField(a, b, c, T0);
    UnionField(a, b, c, Tw);
  }

  lemma LineHeaded(round: Round, ps: ProposalRows, vs: ValidationRows)
    ensures Headed(RoundLine(round.batch, round.header, ps, vs, round.lost, round.T0(), round.written), round.header)
  {
    var a := map[K := Str("r"), Ver := Num(FORMAT_VERSION)];
    var c := BodyFields(round.batch, ps, vs, round.lost, round.T0(), round.written);
    BodyHas(round.batch, ps, vs, round.lost, round.T0(), round.written);
    hide BodyFields, HeaderFields, Field, Headed, FirstSeen, HexList, CountFields;
    match round.header {
      case Some(h) => HeadedLine(a, h, c);
      case None => BareLine(a, c);
    }
  }

  /** Where a line's rows, hashes, keys and counts stand, for every batch, header, table and set of
      keys already noted. */
  lemma LineLayout(round: Round, noted: set<Bytes>)
    requires Fits(round)
    ensures var line, hashes, b := round.Line(noted), round.Validations(noted).hashes, round.batch;
            && Marked(line, round) && Headed(line, round.header) && Counted(Field(line, N), round)
            && Spells(Field(line, H), hashes)
            && Field(line, Pr).Arr? && Field(line, Pu).Arr? && Field(line, Va).Arr?
            && TrustedSaid(Field(line, Pr).items, TrustedOf(b.proposals, round.table), hashes, round.T0())
            && UnknownSaid(Field(line, Pu).items, FirstOf(UnknownOf(b.proposals, round.table), 64), hashes, round.T0())
            && ValidationsSaid(Field(line, Va).items, ValidationsOf(b.validations, round.table), hashes, round.T0())
  {
    var ps, vs := round.Proposals(), round.Validations(noted);
    RowsAreSaid(round, noted);
    hide TableOf, FirstSeen, AddProposals, AddValidations, TrustedOf, UnknownOf, ValidationsOf, UnknownKeys, FirstOf;
    hide TrustedSaid, UnknownSaid, ValidationsSaid, Headed, Counted, Marked, Spells, HexList, RoundLine, CountFields, Field, Fits;
    CountsAre(round, ps, vs);
    SpelledOut(vs.hashes);
    FieldsRead(round.batch, round.header, ps, vs, round.lost, round.T0(), round.written);
    LineMarked(round, ps, vs);
    LineHeaded(round, ps, vs);
  }

  lemma {:induction false} ProposalCount(ps: seq<Proposal>, table: TrustTable, t0: u64)
    ensures AddProposals(ps, table, t0).count == |UnknownOf(ps, table)|
  {
    if |ps| > 0 { ProposalCount(ps[..|ps| - 1], table, t0); }
    hide ProposalRow, Interned, Find, HexOf;
  }

  lemma {:induction false} ValidationCount(vs: seq<Validation>, hashes: seq<Hash>, noted: set<Bytes>, table: TrustTable, t0: u64)
    ensures AddValidations(vs, hashes, noted, table, t0).count == |UnknownKeys(vs, table)|
  {
    if |vs| > 0 { ValidationCount(vs[..|vs| - 1], hashes, noted, table, t0); }
    hide ValidationRow, Interned, Find, HexOf;
  }
}
