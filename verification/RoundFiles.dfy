// What every run of the recorder's writer leaves in its files: whatever arrives, however often the
// list changes, the file rotates or the writer is restarted, as long as no write fails.
module RoundFiles {
  import opened Bytes
  import opened RoundJson
  import opened TrustTables
  import opened RoundCodec
  import opened RoundTrip
  import opened RoundWriter

  // ---- runs ----

  /** One event of a run: a message from the channel, or a restart, after a shutdown that writes what
      is left or after a crash that does not. Each names the lost counter and the time it finds. */
  datatype Step =
    | Take(event: Event, lost: u64, now: u64)
    | Restart(shutdown: Option<(u64, u64)>)

  function Next(setup: Setup, s: State, step: Step): (r: State)
    requires s.open ==> 0 in s.trace.files
    ensures r.open ==> 0 in r.trace.files
  {
    match step
    case Take(event, lost, now) => Handled(setup, s, event, lost, now)
    case Restart(None) => Started(s.trace.files, s.trace.log, s.trace.writer + 1)
    case Restart(Some((lost, now))) =>
      var c := Closed(setup, s, lost, now);
      Started(c.trace.files, c.trace.log, c.trace.writer + 1)
  }

  /** A run that begins with an empty directory. */
  function Run(setup: Setup, steps: seq<Step>): (r: State)
    ensures r.open ==> 0 in r.trace.files
  {
    if |steps| == 0 then Started(map[], [], 0)
    else Next(setup, Run(setup, steps[..|steps| - 1]), steps[|steps| - 1])
  }

  /** Lists and counters within the program's integer widths. */
  ghost predicate WithinWidths(steps: seq<Step>) {
    && |steps| < 0x1_0000_0000_0000_0000
    && forall step | step in steps :: step.Take? && step.event.UnlEvent? ==> |step.event.entries| < 0x1_0000_0000
  }

  // ---- a file that can be read ----

  ghost predicate TableFits(table: TrustTable) {
    table == TableOf(table.keys) && |table.keys| < 0x1_0000_0000
  }

  function LastTable(rs: seq<Record>): Option<TrustTable> {
    if |rs| == 0 then None
    else if rs[|rs| - 1].TableRecord? then Some(rs[|rs| - 1].table)
    else LastTable(rs[..|rs| - 1])
  }

  /** Every round line was made with the last table before it. */
  ghost predicate Readable(rs: seq<Record>) {
    |rs| > 0 ==>
      var init, r := rs[..|rs| - 1], rs[|rs| - 1];
      && Readable(init)
      && match r
         case TableRecord(table, _) => TableFits(table)
         case RoundRecord(round, _, _, _) => LastTable(init) == Some(round.table) && Fits(round)
  }

  /** The table a reader has in hand after these lines. */
  function ReaderTable(lines: seq<Json>): Option<TrustTable> {
    if |lines| == 0 then None
    else if IsTableLine(lines[|lines| - 1]) then ParseLine(lines[|lines| - 1])
    else ReaderTable(lines[..|lines| - 1])
  }

  lemma KindOfLine(r: Record)
    ensures IsTableLine(Text(r)) <==> r.TableRecord?
    ensures IsRoundLine(Text(r)) <==> r.RoundRecord?
  {
    if r.RoundRecord? {
      var round := r.round;
      FieldsRead(round.batch, round.header, round.Proposals(), round.Validations(r.noted), round.lost, round.T0(), round.written);
      assert "r" != "unl";
    } else {
      TableKind(r.table, r.written);
    }
  }

  lemma TableKind(table: TrustTable, t: u64)
    ensures Field(TableLine(table, t), K) == Str("unl") && "unl" != "r"
  {
    hide PairsJson;
  }

  lemma {:induction false} ReaderHasTable(rs: seq<Record>)
    requires Readable(rs)
    ensures ReaderTable(Texts(rs)) == LastTable(rs)
  {
    if |rs| > 0 {
      var init, r := rs[..|rs| - 1], rs[|rs| - 1];
      ReaderHasTable(init);
      KindOfLine(r);
      assert Texts(rs)[..|rs| - 1] == Texts(init);
      if r.TableRecord? { TableReadsBack(r.table, r.written); }
      hide Readable, TableLine, IsTableLine, ParseLine, IsRoundLine;
    }
  }

  lemma {:induction false} TextsPrefix(rs: seq<Record>, k: nat)
    requires k <= |rs|
    ensures Texts(rs)[..k] == Texts(rs[..k])
    ensures k < |rs| ==> Texts(rs)[k] == Text(rs[k])
  {
    if k < |rs| {
      TextsPrefix(rs[..|rs| - 1], k);
      assert rs[..|rs| - 1][..k] == rs[..k];
      assert Texts(rs)[..k] == Texts(rs[..|rs| - 1])[..k];
    } else {
      assert rs[..k] == rs && Texts(rs)[..k] == Texts(rs);
    }
  }

  lemma {:induction false} ReadablePrefix(rs: seq<Record>, k: nat)
    requires Readable(rs) && k <= |rs|
    ensures Readable(rs[..k])
    ensures k < |rs| && rs[k].RoundRecord? ==> LastTable(rs[..k]) == Some(rs[k].round.table) && Fits(rs[k].round)
  {
    if k < |rs| - 1 {
      ReadablePrefix(rs[..|rs| - 1], k);
      assert rs[..|rs| - 1][..k] == rs[..k];
    } else if k == |rs| {
      assert rs[..k] == rs;
    }
  }

  /** Reading a file from the top, each round line decodes under the last table line before it and
      gives back what the writer held. */
  lemma LineReadsBack(rs: seq<Record>, k: nat)
    requires Readable(rs) && k < |rs| && rs[k].RoundRecord?
    ensures var lines := Texts(rs);
            && IsRoundLine(lines[k])
            && ReaderTable(lines[..k]).Some?
            && DecodeRound(lines[k], ReaderTable(lines[..k]).value) == Some(Meaning(rs[k].round, rs[k].noted))
  {
    ReadablePrefix(rs, k);
    TextsPrefix(rs, k);
    ReaderHasTable(rs[..k]);
    KindOfLine(rs[k]);
    TextOf(rs[k]);
    DecodeUndoesEncode(rs[k].round, rs[k].noted);
    hide Readable, Fits, LastTable, ReaderTable, Texts, Text, IsRoundLine, DecodeRound, Meaning;
  }

  // ---- the invariants of a run ----

  ghost predicate AllReadable(files: Files<Record>) {
    forall i | i in files :: Readable(files[i])
  }

  /** The open file's last table is the current one, unless it is due. */
  ghost predicate Current(s: State) {
    s.open ==> 0 in s.trace.files && (!s.due ==> LastTable(s.trace.files[0]) == Some(s.table))
  }

  ghost predicate BatchWithin(s: State, n: nat) {
    && s.batch.Rows() < MAX_BATCH_ROWS
    && s.batch.proposalDups <= n && s.batch.validationDups <= n && s.batch.validationBad <= n
  }

  ghost predicate Sound(s: State, n: nat) {
    && AllReadable(s.trace.files) && Current(s) && TableFits(s.table) && BatchWithin(s, n)
  }

  // ---- what the file operations keep ----

  lemma AppendReadable(rs: seq<Record>, r: Record)
    requires Readable(rs)
    requires match r
             case TableRecord(table, _) => TableFits(table)
             case RoundRecord(round, _, _, _) => LastTable(rs) == Some(round.table) && Fits(round)
    ensures Readable(rs + [r])
    ensures LastTable(rs + [r]) == if r.TableRecord? then Some(r.table) else LastTable(rs)
  {
    assert (rs + [r])[..|rs|] == rs;
    hide Fits, TableFits;
  }

  lemma {:induction false} ShiftReadable(files: Files<Record>, i: nat)
    requires AllReadable(files)
    ensures AllReadable(ShiftFrom(files, i))
    decreases i
  {
    hide Readable;
    if i > 0 { ShiftReadable(MoveUp(files, i), i - 1); }
  }

  lemma RotateReadable(files: Files<Record>, keep: nat)
    requires AllReadable(files)
    ensures AllReadable(Rotated(files, keep))
  {
    hide Readable, ShiftFrom;
    if keep > 0 { ShiftReadable(files, keep - 1); }
  }

  lemma OpenKeeps(setup: Setup, s: State)
    requires AllReadable(s.trace.files) && Current(s)
    ensures var r := Opened(setup, s); r.open && AllReadable(r.trace.files) && Current(r)
  {
    hide Texts, FileBytes, LastTable;
  }

  lemma ReadyKeeps(setup: Setup, s: State, round: Round)
    requires AllReadable(s.trace.files) && Current(s)
    ensures var r := Ready(setup, s, round);
            r.open && AllReadable(r.trace.files) && Current(r) && r.table == s.table
  {
    var s1 := Opened(setup, s);
    OpenKeeps(setup, s);
    assert s1.table == s.table;
    if Overflows(setup, s1, round.Line(s1.noted)) {
      RotateReadable(s1.trace.files, setup.keep);
      var s2 := s1.(open := false, noted := {}, trace := s1.trace.(files := Rotated(s1.trace.files, setup.keep), ours := []));
      OpenKeeps(setup, s2);
      hide Rotated, Overflows, AllReadable;
      assert RotatedState(setup, s1) == Opened(setup, s2);
      assert Opened(setup, s2).table == s2.table;
      hide Opened, RotatedState, Current;
    } else {
      hide Opened, Overflows, Current, AllReadable;
    }
  }

  /** Appending to the open file. */
  lemma WroteKeeps(setup: Setup, s: State, r: Record)
    requires s.open && AllReadable(s.trace.files) && Current(s)
    requires match r
             case TableRecord(table, _) => table == s.table && TableFits(table)
             case RoundRecord(round, _, _, _) => !s.due && round.table == s.table && Fits(round)
    ensures var w := Wrote(setup, s, r);
            w.open && AllReadable(w.trace.files) && Current(if r.TableRecord? then w.(due := false) else w)
  {
    var rs := s.trace.files[0];
    AppendReadable(rs, r);
    hide Readable, Texts, FileBytes, Text, LastTable, Fits, TableFits;
  }

  lemma WroteTableKeeps(setup: Setup, s: State, now: u64)
    requires s.open && AllReadable(s.trace.files) && Current(s) && TableFits(s.table)
    ensures var r := WroteTable(setup, s, now);
            && r.open && !r.due && AllReadable(r.trace.files) && Current(r) && r.table == s.table
  {
    if s.due { WroteKeeps(setup, s, TableRecord(s.table, now)); }
    hide AllReadable, FileBytes, Texts, Text, TableFits, LastTable;
  }

  lemma WroteRoundKeeps(setup: Setup, s: State, round: Round, sources: seq<Source>)
    requires AllReadable(s.trace.files) && Current(s) && TableFits(s.table) && round.table == s.table && Fits(round)
    ensures var r := WroteRound(setup, s, round, sources); AllReadable(r.trace.files) && Current(r)
  {
    var s2 := Ready(setup, s, round);
    ReadyKeeps(setup, s, round);
    hide Ready, TableFits, AllReadable, Fits;
    WroteTableKeeps(setup, s2, round.written);
    var s3 := WroteTable(setup, s2, round.written);
    hide WroteTable;
    WroteKeeps(setup, s3, RoundRecord(round, s2.noted, sources, s2.trace.writer));
    hide Wrote, LastTable, Texts, FileBytes;
  }

  lemma FlushKeeps(setup: Setup, s: State, header: Option<Header>, lost: u64, now: u64)
    requires AllReadable(s.trace.files) && Current(s) && TableFits(s.table)
    requires s.batch.Rows() <= MAX_BATCH_ROWS && s.batch.proposalDups < 0x1_0000_0000_0000_0000
    requires s.batch.validationDups < 0x1_0000_0000_0000_0000 && s.batch.validationBad < 0x1_0000_0000_0000_0000
    ensures Sound(Flushed(setup, s, header, lost, now), 0)
  {
    var taken := s.(batch := NO_BATCH, seenBefore := s.seen, seen := {}, trace := s.trace.(sources := []));
    var round := Round(s.batch, header, s.table, lost, now);
    assert Current(taken);
    assert Fits(round);
    hide AllReadable, Current, TableFits, Fits;
    WroteRoundKeeps(setup, taken, round, s.trace.sources);
    WritingTouchesFilesOnly(setup, taken, round, s.trace.sources);
    hide WroteRound;
  }

  lemma {:induction false} DecodedSize(entries: seq<UnlEntry>)
    ensures |Decoded(entries)| <= |entries|
  {
    if |entries| > 0 { DecodedSize(entries[1..]); }
  }

  lemma {:induction false} DedupSize(s: seq<KeyPair>)
    ensures |Dedup(s)| <= |s|
    decreases |s|
  {
    if |s| >= 2 { DedupSize(if s[0].0 == s[1].0 then [s[0]] + s[2..] else s[1..]); }
  }

  lemma ListFits(entries: seq<UnlEntry>)
    requires |entries| < 0x1_0000_0000
    ensures TableFits(FromEntries(entries))
  {
    DecodedSize(entries);
    SortKeeps(Decoded(entries));
    assert |SortPairs(Decoded(entries))| == |multiset(SortPairs(Decoded(entries)))| == |Decoded(entries)|;
    DedupSize(SortPairs(Decoded(entries)));
    hide IndexOf, Dedup, SortPairs, Decoded;
  }

  /** Receiving writes nothing. */
  lemma ReceivedFiles(setup: Setup, s: State, e: Event)
    requires TableFits(s.table) && (e.UnlEvent? ==> |e.entries| < 0x1_0000_0000)
    ensures var r := Received(setup, s, e);
            && r.trace.files == s.trace.files && r.trace.log == s.trace.log && r.trace.ours == s.trace.ours
            && r.trace.rounds == s.trace.rounds && r.open == s.open && r.size == s.size && r.noted == s.noted
            && (r.due || (!s.due && r.table == s.table)) && TableFits(r.table)
  {
    if e.UnlEvent? { ListFits(e.entries); }
    hide TableFits, FromEntries;
  }

  lemma ReceivedCounts(setup: Setup, s: State, e: Event, n: nat)
    requires BatchWithin(s, n)
    ensures var r := Received(setup, s, e);
            && r.batch.Rows() <= s.batch.Rows() + 1 && r.batch.proposalDups <= n + 1 && r.batch.validationDups <= n + 1
            && r.batch.validationBad <= n + 1
  {
    hide FromEntries;
  }

  lemma ReceivedKeeps(setup: Setup, s: State, e: Event, n: nat)
    requires Sound(s, n)
    requires e.UnlEvent? ==> |e.entries| < 0x1_0000_0000
    ensures var r := Received(setup, s, e);
            && AllReadable(r.trace.files) && Current(r) && TableFits(r.table)
            && r.batch.Rows() <= s.batch.Rows() + 1 && r.batch.proposalDups <= n + 1 && r.batch.validationDups <= n + 1
            && r.batch.validationBad <= n + 1
  {
    ReceivedFiles(setup, s, e);
    ReceivedCounts(setup, s, e, n);
    hide AllReadable, TableFits, Texts, FileBytes, LastTable, Received, IsCopy;
  }

  lemma HandledKeeps(setup: Setup, s: State, e: Event, lost: u64, now: u64, n: nat)
    requires Sound(s, n) && n + 1 < 0x1_0000_0000_0000_0000
    requires e.UnlEvent? ==> |e.entries| < 0x1_0000_0000
    ensures Sound(Handled(setup, s, e, lost, now), n + 1)
  {
    var r := Received(setup, s, e);
    ReceivedKeeps(setup, s, e, n);
    hide AllReadable, TableFits, Current, Received;
    match Closes(s, r, e) {
      case None =>
      case Some(header) =>
        FlushKeeps(setup, r, header, lost, now);
        hide Flushed;
    }
  }

  lemma StartKeeps(files: Files<Record>, log: seq<Record>, writer: nat, n: nat)
    requires AllReadable(files)
    ensures Sound(Started(files, log, writer), n)
  {
    hide AllReadable;
  }

  lemma ClosedKeeps(setup: Setup, s: State, lost: u64, now: u64, n: nat)
    requires Sound(s, n) && n < 0x1_0000_0000_0000_0000
    ensures AllReadable(Closed(setup, s, lost, now).trace.files)
  {
    hide AllReadable, TableFits, Current;
    if s.batch.Rows() > 0 { FlushKeeps(setup, s, None, lost, now); }
    hide Flushed;
  }

  lemma SoundOpen(s: State, n: nat)
    requires Sound(s, n)
    ensures AllReadable(s.trace.files) && (s.open ==> 0 in s.trace.files)
  {
    hide AllReadable;
  }

  lemma NextKeeps(setup: Setup, s: State, step: Step, n: nat)
    requires Sound(s, n) && n + 1 < 0x1_0000_0000_0000_0000
    requires step.Take? && step.event.UnlEvent? ==> |step.event.entries| < 0x1_0000_0000
    requires s.open ==> 0 in s.trace.files
    ensures Sound(Next(setup, s, step), n + 1)
  {
    SoundOpen(s, n);
    hide Sound, Handled, Started, Closed;
    match step {
      case Take(event, lost, now) =>
        HandledKeeps(setup, s, event, lost, now, n);
      case Restart(None) =>
        StartKeeps(s.trace.files, s.trace.log, s.trace.writer + 1, n + 1);
      case Restart(Some((lost, now))) =>
        ClosedKeeps(setup, s, lost, now, n);
        var c := Closed(setup, s, lost, now);
        StartKeeps(c.trace.files, c.trace.log, c.trace.writer + 1, n + 1);
    }
  }

  /** Every reachable state is sound. */
  lemma {:induction false} RunIsSound(setup: Setup, steps: seq<Step>)
    requires WithinWidths(steps)
    ensures Sound(Run(setup, steps), |steps|)
  {
    if |steps| == 0 {
      StartKeeps(map[], [], 0, 0);
    } else {
      var init, last := steps[..|steps| - 1], steps[|steps| - 1];
      assert last in steps && forall step :: step in init ==> step in steps;
      RunIsSound(setup, init);
      hide Sound, Next;
      NextKeeps(setup, Run(setup, init), last, |init|);
    }
  }

  // ---- the file theorems ----

  /** Over every run, each round line in each file decodes under the last table line before it in
      that same file, and gives back what the writer held. */
  lemma EveryLineReadsBack(setup: Setup, steps: seq<Step>, i: nat, k: nat)
    requires WithinWidths(steps) && i in Run(setup, steps).trace.files && k < |Run(setup, steps).trace.files[i]|
    requires Run(setup, steps).trace.files[i][k].RoundRecord?
    ensures var r := Run(setup, steps).trace.files[i][k];
            var lines := Texts(Run(setup, steps).trace.files[i]);
            && IsRoundLine(lines[k])
            && ReaderTable(lines[..k]).Some?
            && DecodeRound(lines[k], ReaderTable(lines[..k]).value) == Some(Meaning(r.round, r.noted))
  {
    RunIsSound(setup, steps);
    hide Run, Current, TableFits, BatchWithin;
    LineReadsBack(Run(setup, steps).trace.files[i], k);
  }
}
