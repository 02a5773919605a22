// The round lines of crates/xrpl-node/src/consensus_record.rs: the encoder with its table of
// interned hashes, the decoder, and what reading a line back gives.
module RoundCodec {
  import opened Bytes
  import opened Numbers
  import opened RoundJson
  import opened TrustTables

  const MAX_UNKNOWN_PROPOSALS: nat := 64
  const MAX_NOTED_KEYS: nat := 4_096
  const SEQ_LEAVE: u32 := 0xFFFF_FFFF

  datatype Proposal = Proposal(signingKey: Bytes, prevLedger: Hash, proposeSeq: u32, closeTime: u32, position: Hash, seenMs: u64)

  datatype Validation = Validation(signingKey: Bytes, ledgerSeq: u32, ledgerHash: Hash, consensusHash: Option<Hash>,
                                   signingTime: u32, full: bool, seenMs: u64)

  datatype Header = Header(seqNo: u32, hash: Hash, parentHash: Hash, closeTime: u32, parentCloseTime: u32,
                           closeResolution: byte, closeFlags: byte, transactionHash: Hash, seenMs: u64)

  datatype Batch = Batch(proposals: seq<Proposal>, validations: seq<Validation>,
                         proposalDups: nat, validationDups: nat, validationBad: nat) {
    function Rows(): nat { |proposals| + |validations| }
  }

  // ---- the interned hashes ----

  function Find(list: seq<Hash>, h: Hash): (i: nat)
    ensures h in list ==> i < |list| && list[i] == h
    ensures i <= |list|
  {
    if |list| == 0 || list[0] == h then 0 else 1 + Find(list[1..], h)
  }

  function Interned(list: seq<Hash>, h: Hash): (r: seq<Hash>)
    ensures h in r
    ensures |r| <= |list| + 1
  {
    if h in list then list else list + [h]
  }

  /** The values a line has interned so far: in order of first use, and where each one stands. */
  class HashTable {
    var list: seq<Hash>
    var index: map<Hash, nat>

    ghost predicate Valid()
      reads this
    {
      && Distinct(list)
      && (forall h :: h in index <==> h in list)
      && (forall h | h in index :: index[h] < |list| && list[index[h]] == h)
    }

    constructor ()
      ensures Valid() && list == []
    {
      list, index := [], map[];
    }

    method Ix(h: Hash) returns (i: nat)
      requires Valid()
      modifies this
      ensures Valid() && list == Interned(old(list), h) && i == Find(list, h)
    {
      var next := |list|;
      if h !in index { index := index[h := next]; }
      i := index[h];
      if i == next { list := list + [h]; }
    }
  }

  // ---- what the encoder computes ----

  function SeqJson(s: u32): Json { if s == SEQ_LEAVE then Num(-1) else Num(s) }

  function After(ms: u64, t0: u64): u64 { if ms < t0 then 0 else ms - t0 }

  function EarliestProposal(ps: seq<Proposal>): Option<u64> {
    if |ps| == 0 then None
    else match EarliestProposal(ps[..|ps| - 1])
      case None => Some(ps[|ps| - 1].seenMs)
      case Some(t) => Some(Min(t, ps[|ps| - 1].seenMs))
  }

  function EarliestValidation(vs: seq<Validation>): Option<u64> {
    if |vs| == 0 then None
    else match EarliestValidation(vs[..|vs| - 1])
      case None => Some(vs[|vs| - 1].seenMs)
      case Some(t) => Some(Min(t, vs[|vs| - 1].seenMs))
  }

  /** The first message's time, or the writing time when there is no message. */
  function FirstSeen(batch: Batch, written: u64): u64 {
    match (EarliestProposal(batch.proposals), EarliestValidation(batch.validations))
    case (None, None) => written
    case (Some(a), None) => a
    case (None, Some(b)) => b
    case (Some(a), Some(b)) => Min(a, b)
  }

  function ProposalRow(who: Json, prev: nat, p: Proposal, pos: nat, t0: u64): Json {
    Arr([who, Num(prev), SeqJson(p.proposeSeq), Num(p.closeTime), Num(pos), Num(After(p.seenMs, t0))])
  }

  datatype ProposalRows = ProposalRows(hashes: seq<Hash>, trusted: seq<Json>, unknown: seq<Json>, count: nat)

  function AddProposal(st: ProposalRows, p: Proposal, table: TrustTable, t0: u64): ProposalRows {
    var h1 := Interned(st.hashes, p.prevLedger);
    var h2 := Interned(h1, p.position);
    var prev, pos := Find(h1, p.prevLedger), Find(h2, p.position);
    match table.Lookup(p.signingKey)
    case Some(v) => st.(hashes := h2, trusted := st.trusted + [ProposalRow(Num(v), prev, p, pos, t0)])
    case None =>
      if |st.unknown| < MAX_UNKNOWN_PROPOSALS then
        st.(hashes := h2, unknown := st.unknown + [ProposalRow(HexOf(p.signingKey), prev, p, pos, t0)], count := st.count + 1)
      else st.(count := st.count + 1)
  }

  function AddProposals(ps: seq<Proposal>, table: TrustTable, t0: u64): ProposalRows {
    if |ps| == 0 then ProposalRows([], [], [], 0)
    else AddProposal(AddProposals(ps[..|ps| - 1], table, t0), ps[|ps| - 1], table, t0)
  }

  function ValidationRow(who: nat, v: Validation, ledger: nat, consensus: Json, t0: u64): Json {
    Arr([Num(who), Num(v.ledgerSeq), Num(ledger), consensus, Num(v.signingTime), Num(After(v.seenMs, t0)),
         Num(if v.full then 1 else 0)])
  }

  datatype ValidationRows = ValidationRows(hashes: seq<Hash>, rows: seq<Json>, noted: set<Bytes>, newKeys: seq<Json>, count: nat)

  function AddValidation(st: ValidationRows, v: Validation, table: TrustTable, t0: u64): ValidationRows {
    match table.Lookup(v.signingKey)
    case Some(who) =>
      var h1 := Interned(st.hashes, v.ledgerHash);
      var ledger := Find(h1, v.ledgerHash);
      if v.consensusHash.None? then
        st.(hashes := h1, rows := st.rows + [ValidationRow(who, v, ledger, Num(-1), t0)])
      else
        var h2 := Interned(h1, v.consensusHash.value);
        st.(hashes := h2, rows := st.rows + [ValidationRow(who, v, ledger, Num(Find(h2, v.consensusHash.value)), t0)])
    case None =>
      if |st.noted| < MAX_NOTED_KEYS && v.signingKey !in st.noted then
        st.(noted := st.noted + {v.signingKey}, newKeys := st.newKeys + [HexOf(v.signingKey)], count := st.count + 1)
      else st.(count := st.count + 1)
  }

  function AddValidations(vs: seq<Validation>, hashes: seq<Hash>, noted: set<Bytes>, table: TrustTable, t0: u64): ValidationRows {
    if |vs| == 0 then ValidationRows(hashes, [], noted, [], 0)
    else AddValidation(AddValidations(vs[..|vs| - 1], hashes, noted, table, t0), vs[|vs| - 1], table, t0)
  }

  function HexList(list: seq<Hash>): (r: seq<Json>)
    ensures |r| == |list|
  {
    if |list| == 0 then [] else HexList(list[..|list| - 1]) + [HexOf(list[|list| - 1])]
  }

  function HeaderFields(header: Option<Header>): map<Name, Json> {
    match header
    case None => map[]
    case Some(h) =>
      map[Seq := Num(h.seqNo), HashOf := HexOf(h.hash), Parent := HexOf(h.parentHash), Ct := Num(h.closeTime),
          Pct := Num(h.parentCloseTime), Res := Num(h.closeResolution), Flags := Num(h.closeFlags),
          Txh := HexOf(h.transactionHash), Th := Num(h.seenMs)]
  }

  function CountFields(batch: Batch, unknownProposals: nat, unknownValidations: nat, lost: u64): Json {
    Obj(map[Pdup := Num(batch.proposalDups), Vdup := Num(batch.validationDups), Pu := Num(unknownProposals),
            Vu := Num(unknownValidations), Vbad := Num(batch.validationBad), Lost := Num(lost)])
  }

  function BodyFields(batch: Batch, ps: ProposalRows, vs: ValidationRows, lost: u64, t0: u64, written: u64): map<Name, Json> {
    map[T0 := Num(t0), Tw := Num(written), H := Arr(HexList(vs.hashes)), Pr := Arr(ps.trusted), Pu := Arr(ps.unknown),
        Va := Arr(vs.rows), Uk := Arr(vs.newKeys), N := CountFields(batch, ps.count, vs.count, lost)]
  }

  function RoundLine(batch: Batch, header: Option<Header>, ps: ProposalRows, vs: ValidationRows,
                     lost: u64, t0: u64, written: u64): Json
  {
    Obj(map[K := Str("r"), Ver := Num(FORMAT_VERSION)] + HeaderFields(header) + BodyFields(batch, ps, vs, lost, t0, written))
  }

  /** Everything a line is made from, but for the keys already noted. */
  datatype Round = Round(batch: Batch, header: Option<Header>, table: TrustTable, lost: u64, written: u64) {
    function T0(): u64 { FirstSeen(batch, written) }
    function Proposals(): ProposalRows { AddProposals(batch.proposals, table, T0()) }
    function Validations(noted: set<Bytes>): ValidationRows {
      AddValidations(batch.validations, Proposals().hashes, noted, table, T0())
    }
    function Line(noted: set<Bytes>): Json {
      RoundLine(batch, header, Proposals(), Validations(noted), lost, T0(), written)
    }
    function Noted(noted: set<Bytes>): set<Bytes> { Validations(noted).noted }
  }

  // ---- the encoder ----

  method EarliestSeen(batch: Batch, written: u64) returns (t0: u64)
    ensures t0 == FirstSeen(batch, written)
  {
    var first: Option<u64> := None;
    for i := 0 to |batch.proposals|
      invariant first == EarliestProposal(batch.proposals[..i])
    {
      assert batch.proposals[..i + 1][..i] == batch.proposals[..i];
      first := Some(if first.None? then batch.proposals[i].seenMs else Min(first.value, batch.proposals[i].seenMs));
    }
    assert batch.proposals[..|batch.proposals|] == batch.proposals;
    var early: Option<u64> := None;
    for i := 0 to |batch.validations|
      invariant early == EarliestValidation(batch.validations[..i])
    {
      assert batch.validations[..i + 1][..i] == batch.validations[..i];
      early := Some(if early.None? then batch.validations[i].seenMs else Min(early.value, batch.validations[i].seenMs));
    }
    assert batch.validations[..|batch.validations|] == batch.validations;
    t0 := match (first, early)
      case (None, None) => written
      case (Some(a), None) => a
      case (None, Some(b)) => b
      case (Some(a), Some(b)) => Min(a, b);
  }

  method EncodeProposal(p: Proposal, table: TrustTable, t0: u64, hashes: HashTable,
                        trusted: seq<Json>, unknown: seq<Json>, count: nat)
    returns (trusted': seq<Json>, unknown': seq<Json>, count': nat)
    requires hashes.Valid()
    modifies hashes
    ensures hashes.Valid()
    ensures ProposalRows(hashes.list, trusted', unknown', count')
            == AddProposal(ProposalRows(old(hashes.list), trusted, unknown, count), p, table, t0)
  {
    hide Find, Interned, ProposalRow, HexOf;
    trusted', unknown', count' := trusted, unknown, count;
    match table.Lookup(p.signingKey) {
      case Some(v) =>
        var prev := hashes.Ix(p.prevLedger);
        var pos := hashes.Ix(p.position);
        trusted' := trusted' + [ProposalRow(Num(v), prev, p, pos, t0)];
      case None =>
        count' := count' + 1;
        if |unknown| < MAX_UNKNOWN_PROPOSALS {
          var prev := hashes.Ix(p.prevLedger);
          var pos := hashes.Ix(p.position);
          unknown' := unknown' + [ProposalRow(HexOf(p.signingKey), prev, p, pos, t0)];
        }
    }
  }

  method EncodeProposals(ps: seq<Proposal>, table: TrustTable, t0: u64, hashes: HashTable)
    returns (trusted: seq<Json>, unknown: seq<Json>, count: nat)
    requires hashes.Valid() && hashes.list == []
    modifies hashes
    ensures hashes.Valid() && ProposalRows(hashes.list, trusted, unknown, count) == AddProposals(ps, table, t0)
  {
    hide AddProposal;
    trusted, unknown, count := [], [], 0;
    for i := 0 to |ps|
      invariant hashes.Valid() && ProposalRows(hashes.list, trusted, unknown, count) == AddProposals(ps[..i], table, t0)
    {
      assert ps[..i + 1][..i] == ps[..i];
      trusted, unknown, count := EncodeProposal(ps[i], table, t0, hashes, trusted, unknown, count);
    }
    assert ps[..|ps|] == ps;
  }

  method EncodeValidation(v: Validation, table: TrustTable, t0: u64, hashes: HashTable,
                          rows: seq<Json>, noted: set<Bytes>, newKeys: seq<Json>, count: nat)
    returns (rows': seq<Json>, noted': set<Bytes>, newKeys': seq<Json>, count': nat)
    requires hashes.Valid()
    modifies hashes
    ensures hashes.Valid()
    ensures ValidationRows(hashes.list, rows', noted', newKeys', count')
            == AddValidation(ValidationRows(old(hashes.list), rows, noted, newKeys, count), v, table, t0)
  {
    hide Find, Interned, ValidationRow, HexOf;
    rows', noted', newKeys', count' := rows, noted, newKeys, count;
    match table.Lookup(v.signingKey) {
      case Some(who) =>
        var ledger := hashes.Ix(v.ledgerHash);
        var consensus := Num(-1);
        if v.consensusHash.Some? {
          var c := hashes.Ix(v.consensusHash.value);
          consensus := Num(c);
        }
        rows' := rows' + [ValidationRow(who, v, ledger, consensus, t0)];
      case None =>
        count' := count' + 1;
        if |noted| < MAX_NOTED_KEYS && v.signingKey !in noted {
          noted' := noted' + {v.signingKey};
          newKeys' := newKeys' + [HexOf(v.signingKey)];
        }
    }
  }

  method EncodeValidations(vs: seq<Validation>, table: TrustTable, noted: set<Bytes>, t0: u64, hashes: HashTable)
    returns (rows: seq<Json>, noted': set<Bytes>, newKeys: seq<Json>, count: nat)
    requires hashes.Valid()
    modifies hashes
    ensures hashes.Valid()
    ensures ValidationRows(hashes.list, rows, noted', newKeys, count) == AddValidations(vs, old(hashes.list), noted, table, t0)
  {
    hide AddValidation;
    rows, noted', newKeys, count := [], noted, [], 0;
    for i := 0 to |vs|
      invariant hashes.Valid()
      invariant ValidationRows(hashes.list, rows, noted', newKeys, count) == AddValidations(vs[..i], old(hashes.list), noted, table, t0)
    {
      assert vs[..i + 1][..i] == vs[..i];
      rows, noted', newKeys, count := EncodeValidation(vs[i], table, t0, hashes, rows, noted', newKeys, count);
    }
    assert vs[..|vs|] == vs;
  }

  /** Builds one round line, and the set of unknown keys the file has then listed. */
  method EncodeRound(round: Round, noted: set<Bytes>) returns (line: Json, noted': set<Bytes>)
    ensures line == round.Line(noted) && noted' == round.Noted(noted)
  {
    hide AddProposals, AddValidations, FirstSeen;
    var t0 := EarliestSeen(round.batch, round.written);
    var hashes := new HashTable();
    var trusted, unknown, unknownProposals := EncodeProposals(round.batch.proposals, round.table, t0, hashes);
    var rows, keys, newKeys, unknownValidations :=
      EncodeValidations(round.batch.validations, round.table, noted, t0, hashes);
    noted' := keys;
    line := RoundLine(round.batch, round.header, ProposalRows(hashes.list, trusted, unknown, unknownProposals),
                      ValidationRows(hashes.list, rows, keys, newKeys, unknownValidations), round.lost, t0, round.written);
  }

  // ---- the decoder ----

  datatype ReadProposal = ReadProposal(validator: Option<nat>, proposal: Proposal)

  datatype LineCounts = LineCounts(proposalDups: nat, validationDups: nat, unknownProposals: nat,
                                   unknownValidations: nat, validationBad: nat, lost: nat)

  datatype ReadRound = ReadRound(header: Option<Header>, t0: u64, writtenMs: u64, proposals: seq<ReadProposal>,
                                 validations: seq<(nat, Validation)>, unknownKeys: seq<Bytes>, counts: LineCounts)

  function ReadSeq(v: Json): Option<u32> {
    var s :- AsI64(v);
    if s == -1 then Some(SEQ_LEAVE)
    else if 0 <= s < 0x1_0000_0000 then Some(s)
    else None
  }

  function ReadHashes(rows: seq<Json>): Option<seq<Hash>> {
    if |rows| == 0 then Some([])
    else
      var init :- ReadHashes(rows[..|rows| - 1]);
      var last :- FromHex32(rows[|rows| - 1]);
      Some(init + [last])
  }

  function HashAt(hashes: seq<Hash>, v: Json): Option<Hash> {
    var i :- AsU64(v);
    if i < |hashes| then Some(hashes[i]) else None
  }

  /** A validator's signing key in the table, or its master key when the list had no manifest. */
  function KeyOf(table: TrustTable, i: nat): Option<Bytes> {
    if i < |table.keys| then
      Some(if table.keys[i].1.Some? then table.keys[i].1.value else table.keys[i].0)
    else None
  }

  /** Time arithmetic wraps at 64 bits. */
  function Plus(a: u64, b: u64): u64 { (a + b) % 0x1_0000_0000_0000_0000 }

  function ReadProposalRow(r: Json, validator: Option<nat>, key: Bytes, hashes: seq<Hash>, t0: u64): Option<ReadProposal> {
    var prev :- HashAt(hashes, At(r, 1));
    var s :- ReadSeq(At(r, 2));
    var close :- SmallU32(At(r, 3));
    var pos :- HashAt(hashes, At(r, 4));
    var dt :- AsU64(At(r, 5));
    Some(ReadProposal(validator, Proposal(key, prev, s, close, pos, Plus(t0, dt))))
  }

  function ReadTrusted(rows: seq<Json>, hashes: seq<Hash>, table: TrustTable, t0: u64): Option<seq<ReadProposal>> {
    if |rows| == 0 then Some([])
    else
      var init :- ReadTrusted(rows[..|rows| - 1], hashes, table, t0);
      var r := rows[|rows| - 1];
      var validator :- SmallU32(At(r, 0));
      var key :- KeyOf(table, validator);
      var last :- ReadProposalRow(r, Some(validator), key, hashes, t0);
      Some(init + [last])
  }

  function ReadUnknown(rows: seq<Json>, hashes: seq<Hash>, t0: u64): Option<seq<ReadProposal>> {
    if |rows| == 0 then Some([])
    else
      var init :- ReadUnknown(rows[..|rows| - 1], hashes, t0);
      var r := rows[|rows| - 1];
      var key :- FromHex(At(r, 0));
      var last :- ReadProposalRow(r, None, key, hashes, t0);
      Some(init + [last])
  }

  function ReadConsensus(v: Json, hashes: seq<Hash>): Option<Option<Hash>> {
    if AsI64(v) == Some(-1) then Some(None)
    else
      var h :- HashAt(hashes, v);
      Some(Some(h))
  }

  function ReadValidationRow(r: Json, hashes: seq<Hash>, table: TrustTable, t0: u64): Option<(nat, Validation)> {
    var validator :- SmallU32(At(r, 0));
    var key :- KeyOf(table, validator);
    var s :- SmallU32(At(r, 1));
    var ledger :- HashAt(hashes, At(r, 2));
    var consensus :- ReadConsensus(At(r, 3), hashes);
    var signed :- SmallU32(At(r, 4));
    var full :- AsU64(At(r, 6));
    var dt :- AsU64(At(r, 5));
    Some((validator, Validation(key, s, ledger, consensus, signed, full == 1, Plus(t0, dt))))
  }

  function ReadValidations(rows: seq<Json>, hashes: seq<Hash>, table: TrustTable, t0: u64): Option<seq<(nat, Validation)>> {
    if |rows| == 0 then Some([])
    else
      var init :- ReadValidations(rows[..|rows| - 1], hashes, table, t0);
      var last :- ReadValidationRow(rows[|rows| - 1], hashes, table, t0);
      Some(init + [last])
  }

  function ReadKeys(rows: seq<Json>): Option<seq<Bytes>> {
    if |rows| == 0 then Some([])
    else
      var init :- ReadKeys(rows[..|rows| - 1]);
      var last :- FromHex(rows[|rows| - 1]);
      Some(init + [last])
  }

  function ReadHeader(v: Json): Option<Option<Header>> {
    if !(v.Obj? && Seq in v.fields) then Some(None)
    else
      var s :- SmallU32(Field(v, Seq));
      var hash :- FromHex32(Field(v, HashOf));
      var parent :- FromHex32(Field(v, Parent));
      var ct :- SmallU32(Field(v, Ct));
      var pct :- SmallU32(Field(v, Pct));
      var res :- SmallByte(Field(v, Res));
      var flags :- SmallByte(Field(v, Flags));
      var txh :- FromHex32(Field(v, Txh));
      var th :- AsU64(Field(v, Th));
      Some(Some(Header(s, hash, parent, ct, pct, res, flags, txh, th)))
  }

  function ReadCounts(n: Json): Option<LineCounts> {
    var pdup :- AsU64(Field(n, Pdup));
    var vdup :- AsU64(Field(n, Vdup));
    var pu :- AsU64(Field(n, Pu));
    var vu :- AsU64(Field(n, Vu));
    var vbad :- AsU64(Field(n, Vbad));
    var lost :- AsU64(Field(n, Lost));
    Some(LineCounts(pdup, vdup, pu, vu, vbad, lost))
  }

  predicate IsRoundLine(v: Json) { Field(v, K) == Str("r") }

  /** Reads a round line back; the table is the last one before it in its file. */
  function DecodeRound(v: Json, table: TrustTable): Option<ReadRound> {
    if !IsRoundLine(v) then None
    else
      var hexes :- AsArray(Field(v, H));
      var hashes :- ReadHashes(hexes);
      var t0 :- AsU64(Field(v, T0));
      var header :- ReadHeader(v);
      var pr :- AsArray(Field(v, Pr));
      var trusted :- ReadTrusted(pr, hashes, table, t0);
      var pu :- AsArray(Field(v, Pu));
      var unknown :- ReadUnknown(pu, hashes, t0);
      var va :- AsArray(Field(v, Va));
      var validations :- ReadValidations(va, hashes, table, t0);
      var uk :- AsArray(Field(v, Uk));
      var keys :- ReadKeys(uk);
      var counts :- ReadCounts(Field(v, N));
      var written :- AsU64(Field(v, Tw));
      Some(ReadRound(header, t0, written, trusted + unknown, validations, keys, counts))
  }

  // ---- what a line says, independent of how it is laid out ----

  /** The proposals of validators on the list, in order, each under its validator's table key. */
  function TrustedOf(ps: seq<Proposal>, table: TrustTable): seq<ReadProposal> {
    if |ps| == 0 then []
    else
      var init, p := TrustedOf(ps[..|ps| - 1], table), ps[|ps| - 1];
      match table.Lookup(p.signingKey)
      case None => init
      case Some(v) =>
        match KeyOf(table, v)
        case None => init
        case Some(key) => init + [ReadProposal(Some(v), p.(signingKey := key))]
  }

  /** The proposals of everyone else, in order. */
  function UnknownOf(ps: seq<Proposal>, table: TrustTable): seq<ReadProposal> {
    if |ps| == 0 then []
    else
      var init, p := UnknownOf(ps[..|ps| - 1], table), ps[|ps| - 1];
      if table.Lookup(p.signingKey).Some? then init else init + [ReadProposal(None, p)]
  }

  function ValidationsOf(vs: seq<Validation>, table: TrustTable): seq<(nat, Validation)> {
    if |vs| == 0 then []
    else
      var init, v := ValidationsOf(vs[..|vs| - 1], table), vs[|vs| - 1];
      match table.Lookup(v.signingKey)
      case None => init
      case Some(who) =>
        match KeyOf(table, who)
        case None => init
        case Some(key) => init + [(who, v.(signingKey := key))]
  }

  function UnknownKeys(vs: seq<Validation>, table: TrustTable): seq<Bytes> {
    if |vs| == 0 then []
    else
      var init, v := UnknownKeys(vs[..|vs| - 1], table), vs[|vs| - 1];
      if table.Lookup(v.signingKey).Some? then init else init + [v.signingKey]
  }

  /** The keys not noted yet, each where it first comes, until the file's allowance is used up. */
  function NewKeys(keys: seq<Bytes>, noted: set<Bytes>): seq<Bytes> {
    if |keys| == 0 then []
    else
      var init, key := NewKeys(keys[..|keys| - 1], noted), keys[|keys| - 1];
      if |noted| + |init| < MAX_NOTED_KEYS && key !in noted && key !in init then init + [key] else init
  }

  function FirstOf<T>(s: seq<T>, n: nat): (r: seq<T>)
    ensures |r| == if |s| < n then |s| else n
  {
    if |s| <= n then s else s[..n]
  }

  /** What reading a line back gives. */
  function Meaning(round: Round, noted: set<Bytes>): ReadRound {
    var b := round.batch;
    var unknown := UnknownOf(b.proposals, round.table);
    var keys := UnknownKeys(b.validations, round.table);
    ReadRound(round.header, round.T0(), round.written,
              TrustedOf(b.proposals, round.table) + FirstOf(unknown, MAX_UNKNOWN_PROPOSALS),
              ValidationsOf(b.validations, round.table), NewKeys(keys, noted),
              LineCounts(b.proposalDups, b.validationDups, |unknown|, |keys|, b.validationBad, round.lost))
  }

  /** The limits the encoder's 32-bit indexes and 64-bit counters rest on. */
  predicate Fits(round: Round) {
    && round.batch.proposalDups < 0x1_0000_0000_0000_0000 && round.batch.validationDups < 0x1_0000_0000_0000_0000
    && round.batch.validationBad < 0x1_0000_0000_0000_0000
    && round.table == TableOf(round.table.keys)
    && |round.table.keys| < 0x1_0000_0000
    && round.batch.Rows() < 0x7FFF_FFFF
  }
}
