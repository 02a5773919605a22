// The writer thread of crates/xrpl-node/src/consensus_record.rs: its state, what each operation does
// to it, and the class that updates it in place.
module RoundWriter {
  import opened Bytes
  import opened RoundJson
  import opened TrustTables
  import opened RoundCodec

  const MAX_BATCH_ROWS: nat := 8_192

  /** What two messages must share to be copies of each other. */
  datatype Message =
    | ProposalMessage(signingKey: Bytes, prevLedger: Hash, proposeSeq: u32, closeTime: u32, position: Hash)
    | ValidationMessage(blob: Bytes)

  datatype Event =
    | UnlEvent(entries: seq<UnlEntry>)
    | ProposalEvent(proposal: Proposal)
    | ValidationEvent(blob: Bytes, seenMs: u64)
    | HeaderEvent(header: Header)

  /** The configuration, and what the writer calls: the length of a line's text, the validation
      parser, and the 64-bit digest that stands for a message. */
  datatype Setup = Setup(rotateBytes: u64, keep: nat, length: Json -> nat, parse: (Bytes, u64) -> Option<Validation>,
                         digest: Message -> u64)

  function MessageOf(p: Proposal): Message {
    ProposalMessage(p.signingKey, p.prevLedger, p.proposeSeq, p.closeTime, p.position)
  }

  /** Two proposals are one message exactly if they differ in nothing but when they were seen, and two
      validations exactly if they are one blob. */
  lemma SameMessage(p: Proposal, q: Proposal, a: Bytes, b: Bytes)
    ensures MessageOf(p) == MessageOf(q) <==> p == q.(seenMs := p.seenMs)
    ensures ValidationMessage(a) == ValidationMessage(b) <==> a == b
    ensures MessageOf(p) != ValidationMessage(a)
  {
  }

  // ---- what is in the files ----

  /** What a validation in a batch was parsed from, and when it was seen. */
  type Source = (Bytes, u64)

  /** A line and what it was made from: for a round line, also the keys the file had noted before
      it, the source of each validation, and which writer wrote it. */
  datatype Record =
    | TableRecord(table: TrustTable, written: u64)
    | RoundRecord(round: Round, noted: set<Bytes>, sources: seq<Source>, author: nat)

  function Text(r: Record): Json {
    match r
    case TableRecord(table, written) => TableLine(table, written)
    case RoundRecord(round, noted, _, _) => round.Line(noted)
  }

  function Texts(rs: seq<Record>): (lines: seq<Json>)
    ensures |lines| == |rs|
  {
    if |rs| == 0 then [] else Texts(rs[..|rs| - 1]) + [Text(rs[|rs| - 1])]
  }

  /** A file's length: every line and its newline. */
  function FileBytes(length: Json -> nat, lines: seq<Json>): nat {
    if |lines| == 0 then 0 else FileBytes(length, lines[..|lines| - 1]) + length(lines[|lines| - 1]) + 1
  }

  /** The recorder's directory: 0 is the path itself, i > 0 the i-th newest rotated file. */
  type Files<T> = map<nat, seq<T>>

  function FileAt<T>(files: Files<T>, i: nat): seq<T> { if i in files then files[i] else [] }

  function MoveUp<T>(files: Files<T>, i: nat): Files<T> {
    if i in files then files[i + 1 := files[i]] - {i} else files
  }

  /** Moves i, then i - 1, down to 1, each one number up. */
  function ShiftFrom<T>(files: Files<T>, i: nat): Files<T>
    decreases i
  {
    if i == 0 then files else ShiftFrom(MoveUp(files, i), i - 1)
  }

  function Rotated<T>(files: Files<T>, keep: nat): Files<T> {
    var shifted := if keep == 0 then files else ShiftFrom(files, keep - 1);
    if keep == 0 then shifted - {0} else MoveUp(shifted, 0)
  }

  function Created<T>(files: Files<T>): (r: Files<T>)
    ensures 0 in r
  {
     if 0 in files then files else files[0 := []]
  }

  // ---- the writer's state ----

  /** What was written, and where it is. */
  datatype Trace = Trace(
    files: Files<Record>,   // what the disk holds
    log: seq<Record>,       // everything ever written, rotated away or not
    ours: seq<Record>,      // what this writer put into the current file
    rounds: seq<Record>,    // the round lines of this writer
    sources: seq<Source>,   // of the batch's validations
    writer: nat)            // how many writers there were before this one
  {
    function Append(r: Record): Trace
      requires 0 in files
    {
      Trace(files[0 := files[0] + [r]], log + [r], ours + [r], if r.RoundRecord? then rounds + [r] else rounds, sources, writer)
    }
  }

  datatype State = State(
    open: bool, size: nat, table: TrustTable, due: bool, batch: Batch, seen: set<u64>, seenBefore: set<u64>,
    noted: set<Bytes>, last: Option<(u32, Hash)>, trace: Trace)

  const NO_BATCH: Batch := Batch([], [], 0, 0, 0)

  /** A new writer over a directory that an earlier one may have left. */
  function Started(files: Files<Record>, log: seq<Record>, writer: nat): State {
    State(false, 0, TableOf([]), true, NO_BATCH, {}, {}, {}, None, Trace(files, log, [], [], [], writer))
  }

  function Opened(setup: Setup, s: State): State {
    if s.open then s
    else
      var files := Created(s.trace.files);
      s.(open := true, size := FileBytes(setup.length, Texts(files[0])), due := true, trace := s.trace.(files := files))
  }

  function Wrote(setup: Setup, s: State, r: Record): State
    requires 0 in s.trace.files
  {
    s.(size := s.size + setup.length(Text(r)) + 1, trace := s.trace.Append(r))
  }

  function RotatedState(setup: Setup, s: State): State {
    Opened(setup, s.(open := false, noted := {}, trace := s.trace.(files := Rotated(s.trace.files, setup.keep), ours := [])))
  }

  /** Whether the next line would take the file past its limit. */
  predicate Overflows(setup: Setup, s: State, line: Json) {
    s.size > 0 && s.size + setup.length(line) + 1 > setup.rotateBytes
  }

  /** The file the line goes to: open, and begun anew if the line would not fit. */
  function Ready(setup: Setup, s: State, round: Round): (r: State)
    requires s.open ==> 0 in s.trace.files
    ensures 0 in r.trace.files && r.open
  {
    var s1 := Opened(setup, s);
    if Overflows(setup, s1, round.Line(s1.noted)) then RotatedState(setup, s1) else s1
  }

  function WroteTable(setup: Setup, s: State, now: u64): (r: State)
    requires 0 in s.trace.files
    ensures 0 in r.trace.files
  {
    if s.due then Wrote(setup, s, TableRecord(s.table, now)).(due := false) else s
  }

  function WroteRound(setup: Setup, s: State, round: Round, sources: seq<Source>): (r: State)
    requires s.open ==> 0 in s.trace.files
    ensures r.open && 0 in r.trace.files
  {
    var s2 := Ready(setup, s, round);
    var s3 := WroteTable(setup, s2, round.written);
    Wrote(setup, s3, RoundRecord(round, s2.noted, sources, s2.trace.writer)).(noted := round.Noted(s2.noted))
  }

  /** The batch becomes a line, under the header that closed it if any. */
  function Flushed(setup: Setup, s: State, header: Option<Header>, lost: u64, now: u64): (r: State)
    requires s.open ==> 0 in s.trace.files
    ensures r.open ==> 0 in r.trace.files
  {
    WroteRound(setup, s.(batch := NO_BATCH, seenBefore := s.seen, seen := {}, trace := s.trace.(sources := [])),
               Round(s.batch, header, s.table, lost, now), s.trace.sources)
  }

  predicate IsCopy(s: State, d: u64) { d in s.seenBefore || d in s.seen }

  function Received(setup: Setup, s: State, e: Event): State {
    match e
    case UnlEvent(entries) =>
      var table := FromEntries(entries);
      if table != s.table then s.(table := table, due := true) else s
    case ProposalEvent(p) =>
      var d := setup.digest(MessageOf(p));
      if IsCopy(s, d) then s.(batch := s.batch.(proposalDups := s.batch.proposalDups + 1))
      else s.(seen := s.seen + {d}, batch := s.batch.(proposals := s.batch.proposals + [p]))
    case ValidationEvent(blob, seenMs) =>
      var d := setup.digest(ValidationMessage(blob));
      if IsCopy(s, d) then s.(batch := s.batch.(validationDups := s.batch.validationDups + 1))
      else (
        match setup.parse(blob, seenMs)
        case Some(v) =>
          s.(seen := s.seen + {d}, batch := s.batch.(validations := s.batch.validations + [v]),
             trace := s.trace.(sources := s.trace.sources + [(blob, seenMs)]))
        case None => s.(seen := s.seen + {d}, batch := s.batch.(validationBad := s.batch.validationBad + 1)))
    case HeaderEvent(h) => s.(last := Some((h.seqNo, h.hash)))
  }

  /** Whether this event closes a line, and under which header. */
  function Closes(s: State, received: State, e: Event): Option<Option<Header>> {
    if e.HeaderEvent? && s.last != Some((e.header.seqNo, e.header.hash)) then Some(Some(e.header))
    else if received.batch.Rows() >= MAX_BATCH_ROWS then Some(None)
    else None
  }

  /** One event. `lost` is what the counter held and `now` the time, should a line be written. */
  function Handled(setup: Setup, s: State, e: Event, lost: u64, now: u64): (r: State)
    requires s.open ==> 0 in s.trace.files
    ensures r.open ==> 0 in r.trace.files
  {
    var received := Received(setup, s, e);
    match Closes(s, received, e)
    case None => received
    case Some(header) => Flushed(setup, received, header, lost, now)
  }

  /** The channel closed: what is left of the rows is written. */
  function Closed(setup: Setup, s: State, lost: u64, now: u64): (r: State)
    requires s.open ==> 0 in s.trace.files
    ensures r.open ==> 0 in r.trace.files
  {
    if s.batch.Rows() > 0 then Flushed(setup, s, None, lost, now) else s
  }

  /** Writing a line leaves the rest of the state alone. */
  lemma WritingTouchesFilesOnly(setup: Setup, s: State, round: Round, sources: seq<Source>)
    requires s.open ==> 0 in s.trace.files
    ensures var r := WroteRound(setup, s, round, sources);
            && r.open && 0 in r.trace.files && !r.due
            && r.table == s.table && r.batch == s.batch && r.seen == s.seen && r.seenBefore == s.seenBefore
            && r.last == s.last && r.trace.sources == s.trace.sources && r.trace.writer == s.trace.writer
            && Ready(setup, s, round).trace.writer == s.trace.writer
  {
    hide FileBytes, Text, Texts, Rotated, Created;
  }

  // ---- the writer itself ----

  lemma TextsOne(rs: seq<Record>, r: Record)
    ensures Texts(rs + [r]) == Texts(rs) + [Text(r)]
  {
    assert (rs + [r])[..|rs|] == rs;
  }

  lemma BytesOne(length: Json -> nat, lines: seq<Json>, line: Json)
    ensures FileBytes(length, lines + [line]) == FileBytes(length, lines) + length(line) + 1
  {
    assert (lines + [line])[..|lines|] == lines;
  }

  /** The same directory, as text. */
  ghost predicate SameFiles(disk: Files<Json>, files: Files<Record>) {
    disk.Keys == files.Keys && forall i | i in files :: disk[i] == Texts(files[i])
  }

  lemma AppendSame(disk: Files<Json>, files: Files<Record>, line: Json, r: Record)
    requires SameFiles(disk, files) && 0 in files && line == Text(r)
    ensures SameFiles(disk[0 := disk[0] + [line]], files[0 := files[0] + [r]])
  {
    TextsOne(files[0], r);
    hide Text, Texts;
  }

  lemma CreateSame(disk: Files<Json>, files: Files<Record>)
    requires SameFiles(disk, files)
    ensures SameFiles(Created(disk), Created(files)) && Created(disk)[0] == Texts(Created(files)[0])
  {
  }

  lemma MoveUpSame(disk: Files<Json>, files: Files<Record>, i: nat)
    requires SameFiles(disk, files)
    ensures SameFiles(MoveUp(disk, i), MoveUp(files, i))
  {
    hide Texts;
  }

  class Writer {
    const setup: Setup
    var disk: Files<Json>
    var out: bool
    var size: nat
    var table: TrustTable
    var tableDue: bool
    var batch: Batch
    var seen: set<u64>
    var seenBefore: set<u64>
    var noted: set<Bytes>
    var lastHeader: Option<(u32, Hash)>

    ghost var trace: Trace

    ghost predicate Valid()
      reads this
    {
      SameFiles(disk, trace.files) && (out ==> 0 in trace.files)
    }

    ghost function Abstract(): State
      reads this
    {
      State(out, size, table, tableDue, batch, seen, seenBefore, noted, lastHeader, trace)
    }

    constructor (setup: Setup, disk: Files<Json>, ghost files: Files<Record>, ghost log: seq<Record>, ghost writer: nat)
      requires SameFiles(disk, files)
      ensures Valid() && Abstract() == Started(files, log, writer)
      ensures this.setup == setup
    {
      this.setup, this.disk := setup, disk;
      out, size, table, tableDue := false, 0, TrustTable([], map[]), true;
      batch, seen, seenBefore, noted, lastHeader := NO_BATCH, {}, {}, {}, None;
      trace := Trace(files, log, [], [], [], writer);
    }

    method WriteLine(line: Json, ghost r: Record)
      requires Valid() && out && line == Text(r)
      modifies this
      ensures Valid() && out && Abstract() == Wrote(setup, old(Abstract()), r)
    {
      AppendSame(disk, trace.files, line, r);
      hide Text, SameFiles;
      disk := disk[0 := disk[0] + [line]];
      size := size + setup.length(line) + 1;
      trace := trace.Append(r);
    }

    method Open()
      requires Valid()
      modifies this
      ensures Valid() && out && Abstract() == Opened(setup, old(Abstract()))
    {
      hide FileBytes, SameFiles, Created;
      if !out {
        CreateSame(disk, trace.files);
        disk, trace := Created(disk), trace.(files := Created(trace.files));
        size := FileBytes(setup.length, disk[0]);
        out, tableDue := true, true;
      }
    }

    method Rotate()
      requires Valid() && out
      modifies this
      ensures Valid() && out && Abstract() == RotatedState(setup, old(Abstract()))
    {
      hide SameFiles, Rotated, Opened;
      out := false;
      Shift();
      noted, trace := {}, trace.(ours := []);
      Open();
    }

    /** Every kept file one number up, and the current one out of the way. */
    method Shift()
      requires Valid() && !out
      modifies this`disk, this`trace
      ensures Valid() && trace == old(trace).(files := Rotated(old(trace.files), setup.keep))
    {
      hide SameFiles, Texts;
      var i := setup.keep;
      ghost var files := trace.files;
      ghost var shifted := if i == 0 then files else ShiftFrom(files, i - 1);
      while i > 1
        invariant SameFiles(disk, files) && trace == old(trace) && (i == 0 <==> setup.keep == 0)
        invariant shifted == if i == 0 then files else ShiftFrom(files, i - 1)
      {
        i := i - 1;
        MoveUpSame(disk, files, i);
        disk, files := MoveUp(disk, i), MoveUp(files, i);
      }
      if setup.keep == 0 {
        RemoveSame(disk, files);
        disk, files := disk - {0}, files - {0};
      } else {
        MoveUpSame(disk, files, 0);
        disk, files := MoveUp(disk, 0), MoveUp(files, 0);
      }
      trace := trace.(files := files);
    }

    method WriteRound(round: Round, ghost sources: seq<Source>)
      requires Valid() && round.table == table
      modifies this
      ensures Valid() && Abstract() == WroteRound(setup, old(Abstract()), round, sources)
    {
      hide SameFiles, Ready, WroteTable, Wrote;
      var line, keys := MakeReady(round);
      ghost var r := RoundRecord(round, noted, sources, trace.writer);
      TextOf(r);
      WriteTable(round.written);
      WriteLine(line, r);
      noted := keys;
    }

    /** The file opened, or begun anew if the line would not fit, and the line for it. */
    method MakeReady(round: Round) returns (line: Json, keys: set<Bytes>)
      requires Valid() && round.table == table
      modifies this
      ensures Valid() && out && Abstract() == Ready(setup, old(Abstract()), round)
      ensures line == round.Line(noted) && keys == round.Noted(noted)
    {
      hide SameFiles, Opened, RotatedState;
      Open();
      line, keys := EncodeRound(round, noted);
      if size > 0 && size + setup.length(line) + 1 > setup.rotateBytes {
        Rotate();
        // The noted keys start over with the file.
        line, keys := EncodeRound(round, noted);
      }
    }

    /** The table, if it is due. */
    method WriteTable(now: u64)
      requires Valid() && out
      modifies this
      ensures Valid() && out && Abstract() == WroteTable(setup, old(Abstract()), now)
    {
      hide SameFiles, Wrote;
      if tableDue {
        TextOf(TableRecord(table, now));
        WriteLine(TableLine(table, now), TableRecord(table, now));
        tableDue := false;
      }
    }

    method Flush(header: Option<Header>, lost: u64, now: u64)
      requires Valid()
      modifies this
      ensures Valid() && Abstract() == Flushed(setup, old(Abstract()), header, lost, now)
    {
      hide WroteRound, SameFiles;
      var taken := batch;
      ghost var sources := trace.sources;
      batch, trace := NO_BATCH, trace.(sources := []);
      seenBefore, seen := seen, {};
      WriteRound(Round(taken, header, table, lost, now), sources);
    }

    /** Whether no copy was seen since the last line or in the line before it; a first copy is then
        remembered. */
    method FirstCopy(d: u64) returns (first: bool)
      modifies this`seen
      ensures first == !IsCopy(old(Abstract()), d)
      ensures seen == if first then old(seen) + {d} else old(seen)
    {
      first := d !in seenBefore && d !in seen;
      if first { seen := seen + {d}; }
    }

    method Receive(e: Event)
      requires Valid() && !e.HeaderEvent?
      modifies this
      ensures Valid() && Abstract() == Received(setup, old(Abstract()), e)
    {
      hide SameFiles, FromEntries;
      match e {
        case UnlEvent(entries) =>
          var list := FromEntries(entries);
          if list != table { table, tableDue := list, true; }
        case ProposalEvent(p) =>
          var d := setup.digest(MessageOf(p));
          var first := FirstCopy(d);
          if first {
            batch := batch.(proposals := batch.proposals + [p]);
          } else {
            batch := batch.(proposalDups := batch.proposalDups + 1);
          }
        case ValidationEvent(blob, seenMs) =>
          var d := setup.digest(ValidationMessage(blob));
          var first := FirstCopy(d);
          if !first {
            batch := batch.(validationDups := batch.validationDups + 1);
          } else {
            match setup.parse(blob, seenMs) {
              case Some(v) =>
                batch := batch.(validations := batch.validations + [v]);
                trace := trace.(sources := trace.sources + [(blob, seenMs)]);
              case None =>
                batch := batch.(validationBad := batch.validationBad + 1);
            }
          }
      }
    }

    /** One event from the channel. */
    method Handle(e: Event, lost: u64, now: u64)
      requires Valid()
      modifies this
      ensures Valid() && Abstract() == Handled(setup, old(Abstract()), e, lost, now)
    {
      hide SameFiles, WroteRound;
      if e.HeaderEvent? {
        if lastHeader != Some((e.header.seqNo, e.header.hash)) {
          lastHeader := Some((e.header.seqNo, e.header.hash));
          ghost var t := Abstract();
          Flush(Some(e.header), lost, now);
          WritingTouchesFilesOnly(setup, t.(batch := NO_BATCH, seenBefore := t.seen, seen := {}, trace := t.trace.(sources := [])),
                                  Round(t.batch, Some(e.header), t.table, lost, now), t.trace.sources);
        }
      } else {
        Receive(e);
      }
      if batch.Rows() >= MAX_BATCH_ROWS { Flush(None, lost, now); }
    }

    /** The channel closed. */
    method Close(lost: u64, now: u64)
      requires Valid()
      modifies this
      ensures Valid() && Abstract() == Closed(setup, old(Abstract()), lost, now)
    {
      hide WroteRound;
      if batch.Rows() > 0 { Flush(None, lost, now); }
    }
  }

  lemma TextOf(r: Record)
    ensures r.TableRecord? ==> Text(r) == TableLine(r.table, r.written)
    ensures r.RoundRecord? ==> Text(r) == r.round.Line(r.noted)
  {
  }

  lemma RemoveSame(disk: Files<Json>, files: Files<Record>)
    requires SameFiles(disk, files)
    ensures SameFiles(disk - {0}, files - {0})
  {
    hide Texts;
  }
}
