// The unknown keys a file lists, over every run and every file: once for each writer that put them
// there, so twice exactly where two writers did.
module RoundListing {
  import opened Bytes
  import opened RoundJson
  import opened TrustTables
  import opened RoundCodec
  import opened RoundTrip
  import opened RoundWriter
  import opened RoundFiles
  import opened RoundRotation
  import opened RoundFilter

  /** The round lines one writer put into a file. */
  function LinesBy(rs: seq<Record>, writer: nat): seq<Record> {
    if |rs| == 0 then []
    else
      var init, r := LinesBy(rs[..|rs| - 1], writer), rs[|rs| - 1];
      if r.RoundRecord? && r.author == writer then init + [r] else init
  }

  function OtherLines(rs: seq<Record>, writer: nat): seq<Record> {
    if |rs| == 0 then []
    else
      var init, r := OtherLines(rs[..|rs| - 1], writer), rs[|rs| - 1];
      if r.RoundRecord? && r.author == writer then init else init + [r]
  }

  /** How often a key is listed. */
  function Times(rs: seq<Record>, k: Bytes): nat { multiset(Listed(rs))[k] }

  /** No writer lists a key twice in the file. */
  ghost predicate EachWriterOnce(rs: seq<Record>) {
    forall w: nat, k :: Times(LinesBy(rs, w), k) <= 1
  }

  lemma ListedOne(rs: seq<Record>, r: Record)
    ensures Listed(rs + [r]) == Listed(rs) + ListedBy(r)
  {
    assert (rs + [r])[..|rs|] == rs;
  }

  lemma TimesOne(rs: seq<Record>, r: Record, k: Bytes)
    ensures Times(rs + [r], k) == Times(rs, k) + multiset(ListedBy(r))[k]
  {
    ListedOne(rs, r);
    hide Listed, ListedBy;
  }

  lemma LinesOne(rs: seq<Record>, r: Record, w: nat)
    ensures LinesBy(rs + [r], w) == if r.RoundRecord? && r.author == w then LinesBy(rs, w) + [r] else LinesBy(rs, w)
    ensures OtherLines(rs + [r], w) == if r.RoundRecord? && r.author == w then OtherLines(rs, w) else OtherLines(rs, w) + [r]
  {
    assert (rs + [r])[..|rs|] == rs;
  }

  lemma {:induction false} TimesSplit(rs: seq<Record>, w: nat, k: Bytes)
    ensures Times(rs, k) == Times(LinesBy(rs, w), k) + Times(OtherLines(rs, w), k)
  {
    hide *;
    if |rs| > 0 {
      var init, r := rs[..|rs| - 1], rs[|rs| - 1];
      assert rs == init + [r];
      TimesSplit(init, w, k);
      SplitOne(init, r, w, k);
    } else {
      SplitNone(rs, w, k);
    }
  }

  lemma SplitNone(rs: seq<Record>, w: nat, k: Bytes)
    requires |rs| == 0
    ensures Times(rs, k) == 0 && Times(LinesBy(rs, w), k) == 0 && Times(OtherLines(rs, w), k) == 0
  {
  }

  lemma SplitOne(init: seq<Record>, r: Record, w: nat, k: Bytes)
    requires Times(init, k) == Times(LinesBy(init, w), k) + Times(OtherLines(init, w), k)
    ensures Times(init + [r], k) == Times(LinesBy(init + [r], w), k) + Times(OtherLines(init + [r], w), k)
  {
    hide *;
    LinesOne(init, r, w);
    TimesOne(init, r, k);
    TimesOne(LinesBy(init, w), r, k);
    TimesOne(OtherLines(init, w), r, k);
  }

  lemma {:induction false} OtherLinesBy(rs: seq<Record>, w: nat, v: nat)
    ensures LinesBy(OtherLines(rs, w), v) == if v == w then [] else LinesBy(rs, v)
  {
    if |rs| > 0 {
      var init, r := rs[..|rs| - 1], rs[|rs| - 1];
      OtherLinesBy(init, w, v);
      assert (OtherLines(init, w) + [r])[..|OtherLines(init, w)|] == OtherLines(init, w);
    }
  }

  lemma {:induction false} SomeWriter(rs: seq<Record>, k: Bytes) returns (w: nat)
    requires Times(rs, k) > 0
    ensures Times(LinesBy(rs, w), k) > 0
  {
    var init, r := rs[..|rs| - 1], rs[|rs| - 1];
    assert rs == init + [r];
    TimesOne(init, r, k);
    if Times(init, k) > 0 {
      w := SomeWriter(init, k);
      TimesOne(LinesBy(init, w), r, k);
    } else {
      assert r.RoundRecord?;
      w := r.author;
      TimesOne(LinesBy(init, w), r, k);
    }
  }

  /** A file lists a key more than once if and only if two writers of the file each listed it. */
  lemma TwiceExactly(rs: seq<Record>, k: Bytes)
    requires EachWriterOnce(rs)
    ensures Times(rs, k) > 1 <==>
            exists v: nat, w: nat :: v != w && Times(LinesBy(rs, v), k) > 0 && Times(LinesBy(rs, w), k) > 0
  {
    hide Times;
    if Times(rs, k) > 1 {
      var w := SomeWriter(rs, k);
      TimesSplit(rs, w, k);
      assert Times(LinesBy(rs, w), k) <= 1;
      var v := SomeWriter(OtherLines(rs, w), k);
      OtherLinesBy(rs, w, v);
      NoLines(k);
    }
    if v: nat, w: nat :| v != w && Times(LinesBy(rs, v), k) > 0 && Times(LinesBy(rs, w), k) > 0 {
      TimesSplit(rs, v, k);
      TimesSplit(OtherLines(rs, v), w, k);
      OtherLinesBy(rs, v, w);
    }
  }

  lemma NoLines(k: Bytes)
    ensures Times([], k) == 0
  {
  }

  // ---- the invariant over runs ----

  /** Every line in a file is by this writer or an earlier one. */
  ghost predicate WrittenUpTo(rs: seq<Record>, writer: nat) {
    forall r | r in rs && r.RoundRecord? :: r.author <= writer
  }

  ghost predicate FileOk(rs: seq<Record>, writer: nat) {
    EachWriterOnce(rs) && WrittenUpTo(rs, writer)
  }

  ghost predicate AllFilesOk(files: Files<Record>, writer: nat) {
    forall i | i in files :: FileOk(files[i], writer)
  }

  /** What this writer has in the current file is what it put there. */
  ghost predicate OursIsThere(s: State) {
    Listed(LinesBy(FileAt(s.trace.files, 0), s.trace.writer)) == Listed(s.trace.ours)
  }

  ghost predicate PerWriter(s: State) {
    NotedOk(s) && AllFilesOk(s.trace.files, s.trace.writer) && OursIsThere(s)
  }

  lemma {:induction false} ShiftFilesOk(files: Files<Record>, i: nat, writer: nat)
    requires AllFilesOk(files, writer)
    ensures AllFilesOk(ShiftFrom(files, i), writer)
    decreases i
  {
    hide FileOk;
    if i > 0 { ShiftFilesOk(MoveUp(files, i), i - 1, writer); }
  }

  lemma RotatedFilesOk(files: Files<Record>, keep: nat, writer: nat)
    requires AllFilesOk(files, writer)
    ensures AllFilesOk(Rotated(files, keep), writer) && 0 !in Rotated(files, keep)
  {
    RotationKeepsSuffix(files, keep);
    hide FileOk, ShiftFrom, Kept, Suffix;
    if keep > 0 { ShiftFilesOk(files, keep - 1, writer); }
  }

  lemma EmptyFileOk(writer: nat)
    ensures FileOk([], writer) && Listed(LinesBy([], writer)) == [] && Listed([]) == []
  {
  }

  lemma OpenedPerWriter(setup: Setup, s: State)
    requires AllFilesOk(s.trace.files, s.trace.writer) && OursIsThere(s)
    ensures AllFilesOk(Opened(setup, s).trace.files, s.trace.writer) && OursIsThere(Opened(setup, s))
    ensures Opened(setup, s).trace.writer == s.trace.writer
  {
    EmptyFileOk(s.trace.writer);
    hide FileOk, Listed, LinesBy, FileBytes, Texts;
  }

  lemma ReadyPerWriter(setup: Setup, s: State, round: Round)
    requires PerWriter(s)
    ensures PerWriter(Ready(setup, s, round)) && Ready(setup, s, round).trace.writer == s.trace.writer
  {
    ReadyNoted(setup, s, round);
    var s1 := Opened(setup, s);
    OpenedPerWriter(setup, s);
    var s2 := s1.(open := false, noted := {}, trace := s1.trace.(files := Rotated(s1.trace.files, setup.keep), ours := []));
    RotatedFilesOk(s1.trace.files, setup.keep, s.trace.writer);
    EmptyFileOk(s.trace.writer);
    assert OursIsThere(s2);
    OpenedPerWriter(setup, s2);
    assert RotatedState(setup, s1) == Opened(setup, s2);
    hide RotatedState, Opened, OursIsThere, AllFilesOk, NotedOk, Overflows, Rotated;
  }

  lemma LinesGrow(rs: seq<Record>, table: Option<Record>, line: Record, w: nat)
    requires line.RoundRecord? && (table.Some? ==> table.value.TableRecord?)
    ensures LinesBy(Grown(rs, table, line), w) == LinesBy(rs, w) + if line.author == w then [line] else []
  {
    var more := if table.Some? then rs + [table.value] else rs;
    assert (more + [line])[..|more|] == more;
    if table.Some? { assert more[..|rs|] == rs; }
    assert LinesBy(more, w) == LinesBy(rs, w);
  }

  lemma {:induction false} OnceCounts(keys: seq<Bytes>, k: Bytes)
    requires Distinct(keys)
    ensures multiset(keys)[k] <= 1
  {
    if |keys| > 0 {
      var init, last := keys[..|keys| - 1], keys[|keys| - 1];
      assert keys == init + [last];
      OnceCounts(init, k);
      forall i | 0 <= i < |init| ensures init[i] != last { assert keys[i] != keys[|init|]; }
      assert last !in init;
    }
  }

  lemma GrownFileOk(rs: seq<Record>, ours: seq<Record>, table: Option<Record>, line: Record)
    requires line.RoundRecord? && (table.Some? ==> table.value.TableRecord?)
    requires FileOk(rs, line.author) && Listed(LinesBy(rs, line.author)) == Listed(ours)
    requires Distinct(Listed(Grown(ours, table, line)))
    ensures FileOk(Grown(rs, table, line), line.author)
    ensures Listed(LinesBy(Grown(rs, table, line), line.author)) == Listed(Grown(ours, table, line))
  {
    var more := Grown(rs, table, line);
    hide ListedBy, Listed, Distinct, LinesBy, Grown, Times, WrittenUpTo;
    LinesGrow(rs, table, line, line.author);
    ListedOne(LinesBy(rs, line.author), line);
    ListedMore(ours, table, line);
    forall w: nat, k ensures Times(LinesBy(more, w), k) <= 1 {
      LinesGrow(rs, table, line, w);
      if w == line.author {
        TimesIs(LinesBy(more, w), k);
        OnceCounts(Listed(Grown(ours, table, line)), k);
      } else {
        AddNothing(LinesBy(rs, w));
        assert Times(LinesBy(rs, w), k) <= 1;
      }
    }
    GrownUpTo(rs, table, line);
  }

  lemma TimesIs(rs: seq<Record>, k: Bytes)
    ensures Times(rs, k) == multiset(Listed(rs))[k]
  {
  }

  lemma AddNothing(rs: seq<Record>)
    ensures rs + [] == rs
  {
  }

  lemma GrownUpTo(rs: seq<Record>, table: Option<Record>, line: Record)
    requires line.RoundRecord? && (table.Some? ==> table.value.TableRecord?) && WrittenUpTo(rs, line.author)
    ensures WrittenUpTo(Grown(rs, table, line), line.author)
  {
  }

  /** What holds of the files and of our part of the current one after a line. */
  lemma FilesGrow(s2: State, r: State, table: Option<Record>, line: Record)
    requires 0 in s2.trace.files && line.RoundRecord? && line.author == s2.trace.writer == r.trace.writer
    requires table.Some? ==> table.value.TableRecord?
    requires AllFilesOk(s2.trace.files, line.author) && OursIsThere(s2)
    requires r.trace.ours == Grown(s2.trace.ours, table, line) && Distinct(Listed(r.trace.ours))
    requires r.trace.files == s2.trace.files[0 := Grown(s2.trace.files[0], table, line)]
    ensures AllFilesOk(r.trace.files, line.author) && OursIsThere(r)
  {
    hide FileOk, Listed, LinesBy, Distinct, Grown;
    GrownFileOk(s2.trace.files[0], s2.trace.ours, table, line);
  }

  lemma WroteRoundPerWriter(setup: Setup, s: State, round: Round, sources: seq<Source>)
    requires PerWriter(s)
    ensures PerWriter(WroteRound(setup, s, round, sources))
  {
    var s2, r := Ready(setup, s, round), WroteRound(setup, s, round, sources);
    var table := if s2.due then Some(TableRecord(s2.table, round.written)) else None;
    var line := RoundRecord(round, s2.noted, sources, s2.trace.writer);
    OpenFirst(s);
    hide WroteRound, Ready, Grown, FileOk, Listed, LinesBy, Distinct, OursIsThere, AllFilesOk, WithKeys, Suffix;
    ReadyPerWriter(setup, s, round);
    WroteRoundNoted(setup, s, round, sources);
    WroteRoundTrace(setup, s, round, sources);
    WritingTouchesFilesOnly(setup, s, round, sources);
    FilesGrow(s2, r, table, line);
  }

  lemma OpenFirst(s: State)
    requires NotedOk(s)
    ensures s.open ==> 0 in s.trace.files
  {
    hide Listed, WithKeys, Distinct, Suffix;
  }

  lemma FlushedPerWriter(setup: Setup, s: State, header: Option<Header>, lost: u64, now: u64)
    requires PerWriter(s)
    ensures PerWriter(Flushed(setup, s, header, lost, now))
  {
    var taken := s.(batch := NO_BATCH, seenBefore := s.seen, seen := {}, trace := s.trace.(sources := []));
    assert PerWriter(taken) by { hide FileOk, Listed, LinesBy, WithKeys, Distinct, Suffix; }
    hide PerWriter, WroteRound;
    WroteRoundPerWriter(setup, taken, Round(s.batch, header, s.table, lost, now), s.trace.sources);
  }

  lemma ReceivedPerWriter(setup: Setup, s: State, e: Event)
    requires PerWriter(s)
    ensures PerWriter(Received(setup, s, e))
  {
    ReceivedTrace(setup, s, e);
    hide Received, FileOk, Listed, LinesBy, WithKeys, Distinct, Suffix;
  }

  lemma {:induction false} NoneYet(rs: seq<Record>, writer: nat)
    requires WrittenUpTo(rs, writer)
    ensures LinesBy(rs, writer + 1) == []
  {
    if |rs| > 0 {
      assert forall r :: r in rs[..|rs| - 1] ==> r in rs;
      NoneYet(rs[..|rs| - 1], writer);
    }
  }

  /** A new writer has listed nothing in the files it finds. */
  lemma RestartPerWriter(files: Files<Record>, log: seq<Record>, writer: nat)
    requires AllFilesOk(files, writer)
    ensures PerWriter(Started(files, log, writer + 1))
  {
    if 0 in files { NoneYet(files[0], writer); }
    EmptyFileOk(writer + 1);
    StartNoted(files, log, writer + 1);
    hide EachWriterOnce, Listed, LinesBy, NotedOk;
  }

  lemma NextPerWriter(setup: Setup, s: State, step: Step)
    requires (s.open ==> 0 in s.trace.files) && PerWriter(s)
    ensures PerWriter(Next(setup, s, step))
  {
    hide Received, Flushed, Started, NotedOk, AllFilesOk, OursIsThere;
    match step {
      case Take(event, lost, now) =>
        var r := Received(setup, s, event);
        ReceivedTrace(setup, s, event);
        ReceivedPerWriter(setup, s, event);
        match Closes(s, r, event) {
          case None =>
          case Some(header) => FlushedPerWriter(setup, r, header, lost, now);
        }
      case Restart(shutdown) =>
        if shutdown.Some? && s.batch.Rows() > 0 { FlushedPerWriter(setup, s, None, shutdown.value.0, shutdown.value.1); }
        var c := if shutdown.Some? then Closed(setup, s, shutdown.value.0, shutdown.value.1) else s;
        RestartPerWriter(c.trace.files, c.trace.log, c.trace.writer);
    }
  }

  lemma {:induction false} RunPerWriter(setup: Setup, steps: seq<Step>)
    ensures PerWriter(Run(setup, steps))
  {
    if |steps| == 0 {
      StartNoted(map[], [], 0);
      EmptyFileOk(0);
      hide NotedOk;
    } else {
      RunPerWriter(setup, steps[..|steps| - 1]);
      hide PerWriter, Next;
      NextPerWriter(setup, Run(setup, steps[..|steps| - 1]), steps[|steps| - 1]);
    }
  }

  /** Over every run and in every file: a key is listed more than once if and only if two writers of
      that file each listed it, so once in a file that has one writer. */
  lemma ListedTwiceExactly(setup: Setup, steps: seq<Step>, i: nat, k: Bytes)
    requires i in Run(setup, steps).trace.files
    ensures var rs := Run(setup, steps).trace.files[i];
            && (Times(rs, k) > 1 <==>
                  exists v: nat, w: nat :: v != w && Times(LinesBy(rs, v), k) > 0 && Times(LinesBy(rs, w), k) > 0)
            && forall w: nat :: Times(LinesBy(rs, w), k) <= 1
  {
    RunPerWriter(setup, steps);
    hide Run, NotedOk, OursIsThere, Times;
    TwiceExactly(Run(setup, steps).trace.files[i], k);
  }

  // ---- a run without a restart ----

  ghost predicate NoRestart(steps: seq<Step>) { forall step | step in steps :: step.Take? }

  lemma HandledWriter(setup: Setup, s: State, e: Event, lost: u64, now: u64)
    requires s.open ==> 0 in s.trace.files
    ensures Handled(setup, s, e, lost, now).trace.writer == s.trace.writer
  {
    var r := Received(setup, s, e);
    ReceivedTrace(setup, s, e);
    hide Received, WroteRound, Ready;
    match Closes(s, r, e) {
      case None =>
      case Some(header) =>
        var taken := r.(batch := NO_BATCH, seenBefore := r.seen, seen := {}, trace := r.trace.(sources := []));
        WritingTouchesFilesOnly(setup, taken, Round(r.batch, header, r.table, lost, now), r.trace.sources);
    }
  }

  lemma {:induction false} FirstWriter(setup: Setup, steps: seq<Step>)
    requires NoRestart(steps)
    ensures Run(setup, steps).trace.writer == 0
  {
    if |steps| > 0 {
      var init, last := steps[..|steps| - 1], steps[|steps| - 1];
      assert last in steps && forall step :: step in init ==> step in steps;
      FirstWriter(setup, init);
      UnfoldRun(setup, steps);
      hide Run, Handled;
      HandledWriter(setup, Run(setup, init), last.event, last.lost, last.now);
    }
  }

  /** The lines of no writer list nothing. */
  lemma {:induction false} TablesListNothing(rs: seq<Record>, k: Bytes)
    requires WrittenUpTo(rs, 0)
    ensures Times(OtherLines(rs, 0), k) == 0
  {
    if |rs| > 0 {
      var init, r := rs[..|rs| - 1], rs[|rs| - 1];
      assert rs == init + [r] && r in rs;
      assert WrittenUpTo(init, 0) by { assert forall x :: x in init ==> x in rs; }
      TablesListNothing(init, k);
      LinesOne(init, r, 0);
      TimesOne(OtherLines(init, 0), r, k);
      hide Times, OtherLines, LinesBy;
    }
  }

  /** Over every run without a restart, every file lists a key at most once. */
  lemma ListedOnceWithoutRestart(setup: Setup, steps: seq<Step>, i: nat, k: Bytes)
    requires NoRestart(steps) && i in Run(setup, steps).trace.files
    ensures Times(Run(setup, steps).trace.files[i], k) <= 1
  {
    RunPerWriter(setup, steps);
    FirstWriter(setup, steps);
    var rs := Run(setup, steps).trace.files[i];
    assert FileOk(rs, 0) by { hide Run, NotedOk, OursIsThere, FileOk; }
    hide Run, Times;
    TimesSplit(rs, 0, k);
    TablesListNothing(rs, k);
  }

  // ---- a run that lists a key twice ----

  const STRANGER: Bytes := [1]
  const SAMPLE: Validation := Validation(STRANGER, 0, ZERO, None, 0, false, 0)
  const CLOSING: Header := Header(1, ZERO, ZERO, 0, 0, 0, 0, ZERO, 0)

  /** Room for a thousand empty lines. */
  function Roomy(): Setup {
    Setup(1000, 2, (line: Json) => 0, (blob: Bytes, ms: u64) => Some(SAMPLE), (m: Message) => 0)
  }

  const ARRIVES: Step := Take(ValidationEvent([], 0), 0, 0)
  const CLOSES: Step := Take(HeaderEvent(CLOSING), 0, 0)

  lemma {:induction false} EmptyLines(lines: seq<Json>)
    ensures FileBytes(Roomy().length, lines) == |lines|
  {
    if |lines| > 0 { EmptyLines(lines[..|lines| - 1]); }
  }

  lemma OneStranger(noted: set<Bytes>, author: nat, sources: seq<Source>)
    requires noted == {}
    ensures ListedBy(RoundRecord(Round(NO_BATCH.(validations := [SAMPLE]), Some(CLOSING), TableOf([]), 0, 0), noted, sources, author))
            == [STRANGER]
  {
    var round := Round(NO_BATCH.(validations := [SAMPLE]), Some(CLOSING), TableOf([]), 0, 0);
    NewKeysOf(RoundRecord(round, noted, sources, author));
    assert [SAMPLE][..0] == [] && [STRANGER][..0] == [];
    assert UnknownKeys([], TableOf([])) == [] && UnknownKeys([SAMPLE], TableOf([])) == [STRANGER];
    assert NewKeys([], {}) == [];
    hide Meaning;
  }

  /** What the validation leaves waiting. */
  lemma StrangerWaits(files: Files<Record>, log: seq<Record>, writer: nat)
    ensures var s := Started(files, log, writer);
            Next(Roomy(), s, ARRIVES)
            == s.(seen := {0}, batch := NO_BATCH.(validations := [SAMPLE]), trace := s.trace.(sources := [([], 0)]))
  {
    hide WroteRound, TableOf, FromEntries;
    assert Roomy().parse([], 0) == Some(SAMPLE) && Roomy().digest(ValidationMessage([])) == 0;
  }

  /** What the header then does. */
  lemma StrangerClosed(a: State)
    requires a.batch == NO_BATCH.(validations := [SAMPLE]) && a.last == None && !a.open
    ensures var taken := a.(batch := NO_BATCH, seenBefore := a.seen, seen := {}, trace := a.trace.(sources := []),
                            last := Some((CLOSING.seqNo, CLOSING.hash)));
            Next(Roomy(), a, CLOSES)
            == WroteRound(Roomy(), taken, Round(a.batch, Some(CLOSING), a.table, 0, 0), a.trace.sources)
  {
    hide WroteRound, TableOf, FromEntries;
  }

  lemma RoomLeft(s: State, line: Json)
    requires !s.open && |FileAt(s.trace.files, 0)| < 999
    ensures !Overflows(Roomy(), Opened(Roomy(), s), line)
  {
    EmptyLines(Texts(Created(s.trace.files)[0]));
    hide Texts, FileBytes;
  }

  /** A writer that finds a short file, or none, and meets one validation and one header. */
  lemma ListsStranger(files: Files<Record>, log: seq<Record>, writer: nat)
    requires |FileAt(files, 0)| < 999
    ensures var r := Next(Roomy(), Next(Roomy(), Started(files, log, writer), ARRIVES), CLOSES);
            && 0 in r.trace.files && |r.trace.files[0]| == |FileAt(files, 0)| + 2
            && Listed(r.trace.files[0]) == Listed(FileAt(files, 0)) + [STRANGER]
  {
    var s := Started(files, log, writer);
    var a := Next(Roomy(), s, ARRIVES);
    StrangerWaits(files, log, writer);
    StrangerClosed(a);
    var taken := a.(batch := NO_BATCH, seenBefore := a.seen, seen := {}, trace := a.trace.(sources := []),
                    last := Some((CLOSING.seqNo, CLOSING.hash)));
    assert s.table == TableOf([]) && !taken.open && taken.noted == {} && taken.trace.ours == [] && taken.trace.files == files;
    var round := Round(a.batch, Some(CLOSING), a.table, 0, 0);
    var sources := a.trace.sources;
    assert Created(files)[0] == FileAt(files, 0);
    hide *;
    RoomLeft(taken, round.Line({}));
    ReadyAfterStart(Roomy(), taken, round);
    WroteRoundTrace(Roomy(), taken, round, sources);
    var s2 := Ready(Roomy(), taken, round);
    var table, line := TableRecord(s2.table, 0), RoundRecord(round, {}, sources, s2.trace.writer);
    OneStranger({}, s2.trace.writer, sources);
    ListedMore(s2.trace.files[0], Some(table), line);
    GrownByTwo(s2.trace.files[0], table, line);
  }

  lemma GrownByTwo(rs: seq<Record>, table: Record, line: Record)
    ensures |Grown(rs, Some(table), line)| == |rs| + 2
  {
  }

  /** One validation by an unmapped key and one header, a restart, and the same again: the file lists
      the key twice. */
  lemma ListedTwice() returns (steps: seq<Step>)
    ensures var files := Run(Roomy(), steps).trace.files; 0 in files && Times(files[0], STRANGER) == 2
  {
    hide *;
    var setup := Roomy();
    var first: seq<Step> := [ARRIVES, CLOSES];
    var again := first + [Restart(None)];
    steps := again + first;
    RunTwo(setup, [], ARRIVES, CLOSES);
    RunTwo(setup, again, ARRIVES, CLOSES);
    assert [] + [ARRIVES, CLOSES] == first;
    RunNothing(setup);
    ListsStranger(map[], [], 0);
    RunRestart(setup, first);
    var r := Run(setup, first);
    ShortFile(r.trace.files);
    ListsStranger(r.trace.files, r.trace.log, r.trace.writer + 1);
    TwoTimes(Run(setup, steps).trace.files[0]);
  }

  lemma RunNothing(setup: Setup)
    ensures Run(setup, []) == Started(map[], [], 0)
    ensures FileAt<Record>(map[], 0) == [] && Listed([]) == []
  {
  }

  lemma ShortFile(files: Files<Record>)
    requires 0 in files
    ensures FileAt(files, 0) == files[0]
  {
  }

  lemma RunTwo(setup: Setup, steps: seq<Step>, a: Step, b: Step)
    ensures Run(setup, steps + [a, b]) == Next(setup, Next(setup, Run(setup, steps), a), b)
  {
    hide *;
    var two := steps + [a, b];
    assert two[..|two| - 1] == steps + [a] && (steps + [a])[..|steps|] == steps;
    UnfoldRun(setup, two);
    UnfoldRun(setup, steps + [a]);
  }

  lemma TwoTimes(rs: seq<Record>)
    requires Listed(rs) == Listed([]) + [STRANGER] + [STRANGER]
    ensures Times(rs, STRANGER) == 2
  {
    assert Listed([]) == [];
    hide Listed;
  }
}
