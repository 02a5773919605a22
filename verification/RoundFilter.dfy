// The recorder's duplicate filter and its list of unknown keys, over every run: a message is a row at
// most once in any two lines in a row, and a file lists an unknown key once per writer.
module RoundFilter {
  import opened Bytes
  import opened RoundJson
  import opened TrustTables
  import opened RoundCodec
  import opened RoundTrip
  import opened RoundWriter
  import opened RoundFiles
  import opened RoundRotation

  // ---- what a written line adds ----

  lemma WroteRoundTrace(setup: Setup, s: State, round: Round, sources: seq<Source>)
    requires s.open ==> 0 in s.trace.files
    ensures var s2, r := Ready(setup, s, round), WroteRound(setup, s, round, sources);
            var table := if s2.due then Some(TableRecord(s2.table, round.written)) else None;
            var line := RoundRecord(round, s2.noted, sources, s2.trace.writer);
            && r.open && r.trace.rounds == s.trace.rounds + [line] && r.noted == round.Noted(s2.noted)
            && r.trace.ours == Grown(s2.trace.ours, table, line)
            && r.trace.files == s2.trace.files[0 := Grown(s2.trace.files[0], table, line)]
  {
    hide FileBytes, Text, Texts, Rotated, Created;
  }

  // ---- the rows of a line, by digest ----

  function ProposalDigests(setup: Setup, ps: seq<Proposal>): multiset<u64> {
    if |ps| == 0 then multiset{}
    else ProposalDigests(setup, ps[..|ps| - 1]) + multiset{setup.digest(MessageOf(ps[|ps| - 1]))}
  }

  function SourceDigests(setup: Setup, sources: seq<Source>): multiset<u64> {
    if |sources| == 0 then multiset{}
    else SourceDigests(setup, sources[..|sources| - 1]) + multiset{setup.digest(ValidationMessage(sources[|sources| - 1].0))}
  }

  /** The messages that are rows, one digest a row. */
  function RowDigests(setup: Setup, batch: Batch, sources: seq<Source>): multiset<u64> {
    ProposalDigests(setup, batch.proposals) + SourceDigests(setup, sources)
  }

  function LineDigests(setup: Setup, r: Record): multiset<u64> {
    if r.RoundRecord? then RowDigests(setup, r.round.batch, r.sources) else multiset{}
  }

  ghost predicate Once(m: multiset<u64>) {
    forall d | d in m :: m[d] == 1
  }

  /** Each validation is what its source parses to. */
  ghost predicate Parsed(setup: Setup, validations: seq<Validation>, sources: seq<Source>) {
    && |sources| == |validations|
    && forall i | 0 <= i < |sources| :: setup.parse(sources[i].0, sources[i].1) == Some(validations[i])
  }

  ghost predicate RoundParsed(setup: Setup, r: Record) {
    r.RoundRecord? && Parsed(setup, r.round.batch.validations, r.sources)
  }

  // ---- the filter's invariant ----

  ghost predicate WithinSet(m: multiset<u64>, s: set<u64>) {
    forall d | d in m :: d in s
  }

  ghost predicate PairsOnce(setup: Setup, rounds: seq<Record>) {
    && (forall i | 0 <= i < |rounds| :: RoundParsed(setup, rounds[i]) && Once(LineDigests(setup, rounds[i])))
    && (forall i | 0 < i < |rounds| :: Once(LineDigests(setup, rounds[i - 1]) + LineDigests(setup, rounds[i])))
  }

  ghost predicate RowsOk(rows: multiset<u64>, seen: set<u64>, seenBefore: set<u64>) {
    Once(rows) && WithinSet(rows, seen) && seen !! seenBefore
  }

  ghost predicate LinesOk(setup: Setup, rounds: seq<Record>, seenBefore: set<u64>) {
    && PairsOnce(setup, rounds)
    && (|rounds| > 0 ==> WithinSet(LineDigests(setup, rounds[|rounds| - 1]), seenBefore))
  }

  ghost predicate Filtered(setup: Setup, s: State) {
    && RowsOk(RowDigests(setup, s.batch, s.trace.sources), s.seen, s.seenBefore)
    && Parsed(setup, s.batch.validations, s.trace.sources)
    && LinesOk(setup, s.trace.rounds, s.seenBefore)
  }

  lemma OnceApart(a: multiset<u64>, b: multiset<u64>, s: set<u64>, t: set<u64>)
    requires Once(a) && Once(b) && WithinSet(a, s) && WithinSet(b, t) && s !! t
    ensures Once(a + b)
  {
    forall d | d in a + b ensures (a + b)[d] == 1 {
      if d in a { assert d !in b; }
    }
  }

  lemma OneMoreProposal(setup: Setup, batch: Batch, sources: seq<Source>, p: Proposal)
    ensures RowDigests(setup, batch.(proposals := batch.proposals + [p]), sources)
            == RowDigests(setup, batch, sources) + multiset{setup.digest(MessageOf(p))}
  {
    assert (batch.proposals + [p])[..|batch.proposals|] == batch.proposals;
  }

  lemma OneMoreValidation(setup: Setup, batch: Batch, sources: seq<Source>, v: Validation, source: Source)
    ensures RowDigests(setup, batch.(validations := batch.validations + [v]), sources + [source])
            == RowDigests(setup, batch, sources) + multiset{setup.digest(ValidationMessage(source.0))}
  {
    assert (sources + [source])[..|sources|] == sources;
  }

  lemma OneMoreRow(rows: multiset<u64>, d: u64, seen: set<u64>, seenBefore: set<u64>)
    requires RowsOk(rows, seen, seenBefore) && d !in seen && d !in seenBefore
    ensures RowsOk(rows + multiset{d}, seen + {d}, seenBefore) && RowsOk(rows, seen + {d}, seenBefore)
  {
  }

  lemma OneMoreParsed(setup: Setup, vs: seq<Validation>, sources: seq<Source>, v: Validation, source: Source)
    requires Parsed(setup, vs, sources) && setup.parse(source.0, source.1) == Some(v)
    ensures Parsed(setup, vs + [v], sources + [source])
  {
  }

  lemma ReceivedFiltered(setup: Setup, s: State, e: Event)
    requires Filtered(setup, s)
    ensures Filtered(setup, Received(setup, s, e))
  {
    hide RowsOk, LinesOk, Parsed, RowDigests, FromEntries, MessageOf;
    match e {
      case UnlEvent(_) =>
      case HeaderEvent(_) =>
      case ProposalEvent(p) => ReceivedProposal(setup, s, p);
      case ValidationEvent(blob, seenMs) => ReceivedValidation(setup, s, blob, seenMs);
    }
  }

  lemma ReceivedProposal(setup: Setup, s: State, p: Proposal)
    requires Filtered(setup, s)
    ensures Filtered(setup, Received(setup, s, ProposalEvent(p)))
  {
    var d := setup.digest(MessageOf(p));
    OneMoreProposal(setup, s.batch, s.trace.sources, p);
    SameRows(setup, s.batch, s.batch.(proposalDups := s.batch.proposalDups + 1), s.trace.sources);
    if !IsCopy(s, d) { OneMoreRow(RowDigests(setup, s.batch, s.trace.sources), d, s.seen, s.seenBefore); }
    hide RowsOk, LinesOk, Parsed, RowDigests, MessageOf;
  }

  lemma ReceivedValidation(setup: Setup, s: State, blob: Bytes, seenMs: u64)
    requires Filtered(setup, s)
    ensures Filtered(setup, Received(setup, s, ValidationEvent(blob, seenMs)))
  {
    var d := setup.digest(ValidationMessage(blob));
    if IsCopy(s, d) {
      SameRows(setup, s.batch, s.batch.(validationDups := s.batch.validationDups + 1), s.trace.sources);
      hide RowsOk, LinesOk, Parsed, RowDigests;
    } else {
      OneMoreRow(RowDigests(setup, s.batch, s.trace.sources), d, s.seen, s.seenBefore);
      match setup.parse(blob, seenMs) {
        case Some(v) =>
          OneMoreValidation(setup, s.batch, s.trace.sources, v, (blob, seenMs));
          OneMoreParsed(setup, s.batch.validations, s.trace.sources, v, (blob, seenMs));
          hide RowsOk, LinesOk, Parsed, RowDigests;
        case None =>
          SameRows(setup, s.batch, s.batch.(validationBad := s.batch.validationBad + 1), s.trace.sources);
          hide RowsOk, LinesOk, Parsed, RowDigests;
      }
    }
  }

  lemma SameRows(setup: Setup, a: Batch, b: Batch, sources: seq<Source>)
    requires a.proposals == b.proposals
    ensures RowDigests(setup, a, sources) == RowDigests(setup, b, sources)
  {
  }

  lemma FlushedFiltered(setup: Setup, s: State, header: Option<Header>, lost: u64, now: u64)
    requires (s.open ==> 0 in s.trace.files) && Filtered(setup, s)
    ensures Filtered(setup, Flushed(setup, s, header, lost, now))
  {
    var taken := s.(batch := NO_BATCH, seenBefore := s.seen, seen := {}, trace := s.trace.(sources := []));
    var round := Round(s.batch, header, s.table, lost, now);
    var r := Flushed(setup, s, header, lost, now);
    WroteRoundTrace(setup, taken, round, s.trace.sources);
    WritingTouchesFilesOnly(setup, taken, round, s.trace.sources);
    var line := RoundRecord(round, Ready(setup, taken, round).noted, s.trace.sources, s.trace.writer);
    NewWindow(setup, s.trace.rounds, line, s.seen, s.seenBefore);
    NoRows(setup, s.seen);
    hide WroteRound, Ready, Grown, RowsOk, LinesOk, Parsed, RowDigests;
  }

  lemma NoRows(setup: Setup, seenBefore: set<u64>)
    ensures RowsOk(RowDigests(setup, NO_BATCH, []), {}, seenBefore) && Parsed(setup, NO_BATCH.validations, [])
  {
  }

  /** A written line's rows are what the next two windows must not repeat. */
  lemma NewWindow(setup: Setup, rounds: seq<Record>, line: Record, seen: set<u64>, seenBefore: set<u64>)
    requires RoundParsed(setup, line) && RowsOk(LineDigests(setup, line), seen, seenBefore) && LinesOk(setup, rounds, seenBefore)
    ensures LinesOk(setup, rounds + [line], seen)
  {
    if |rounds| > 0 {
      OnceApart(LineDigests(setup, rounds[|rounds| - 1]), LineDigests(setup, line), seenBefore, seen);
    }
    PairsGrow(setup, rounds, line);
    hide PairsOnce, LineDigests, RoundParsed, Once, WithinSet;
  }

  lemma PairsGrow(setup: Setup, rounds: seq<Record>, line: Record)
    requires PairsOnce(setup, rounds) && RoundParsed(setup, line) && Once(LineDigests(setup, line))
    requires |rounds| > 0 ==> Once(LineDigests(setup, rounds[|rounds| - 1]) + LineDigests(setup, line))
    ensures PairsOnce(setup, rounds + [line])
  {
    hide RoundParsed, Once, LineDigests;
  }

  lemma StartFiltered(setup: Setup, files: Files<Record>, log: seq<Record>, writer: nat)
    ensures Filtered(setup, Started(files, log, writer))
  {
  }

  lemma NextFiltered(setup: Setup, s: State, step: Step)
    requires (s.open ==> 0 in s.trace.files) && Filtered(setup, s)
    ensures Filtered(setup, Next(setup, s, step))
  {
    hide Received, Flushed, Filtered, Started;
    match step {
      case Take(event, lost, now) =>
        var r := Received(setup, s, event);
        ReceivedTrace(setup, s, event);
        ReceivedFiltered(setup, s, event);
        match Closes(s, r, event) {
          case None =>
          case Some(header) => FlushedFiltered(setup, r, header, lost, now);
        }
      case Restart(shutdown) =>
        var c := if shutdown.Some? then Closed(setup, s, shutdown.value.0, shutdown.value.1) else s;
        StartFiltered(setup, c.trace.files, c.trace.log, c.trace.writer + 1);
    }
  }

  lemma {:induction false} RunIsFiltered(setup: Setup, steps: seq<Step>)
    ensures Filtered(setup, Run(setup, steps))
  {
    if |steps| == 0 {
      StartFiltered(setup, map[], [], 0);
    } else {
      RunIsFiltered(setup, steps[..|steps| - 1]);
      hide Filtered, Next;
      NextFiltered(setup, Run(setup, steps[..|steps| - 1]), steps[|steps| - 1]);
    }
  }

  /** Over every run, a message is a row at most once in any two lines in a row of one writer, the
      batch it is filling included. */
  lemma RowsOnceInTwoLines(setup: Setup, steps: seq<Step>, i: nat)
    requires i < |Run(setup, steps).trace.rounds|
    ensures var s := Run(setup, steps);
            Once(LineDigests(setup, s.trace.rounds[i])
                 + if i + 1 < |s.trace.rounds| then LineDigests(setup, s.trace.rounds[i + 1])
                   else RowDigests(setup, s.batch, s.trace.sources))
    ensures RoundParsed(setup, Run(setup, steps).trace.rounds[i])
  {
    RunIsFiltered(setup, steps);
    var s := Run(setup, steps);
    hide Run, LineDigests, RowDigests, RoundParsed, Parsed;
    if i + 1 < |s.trace.rounds| {
      var j := i + 1;
      assert Once(LineDigests(setup, s.trace.rounds[j - 1]) + LineDigests(setup, s.trace.rounds[j]));
    } else {
      OnceApart(LineDigests(setup, s.trace.rounds[i]), RowDigests(setup, s.batch, s.trace.sources), s.seenBefore, s.seen);
    }
  }

  // ---- the unknown keys ----

  /** The unknown keys a line lists. */
  function ListedBy(r: Record): seq<Bytes> {
    if r.RoundRecord? then Meaning(r.round, r.noted).unknownKeys else []
  }

  function Listed(rs: seq<Record>): seq<Bytes> {
    if |rs| == 0 then [] else Listed(rs[..|rs| - 1]) + ListedBy(rs[|rs| - 1])
  }

  /** What is noted is what this writer listed in the current file, each key once. */
  ghost predicate NotedOk(s: State) {
    && s.noted == WithKeys({}, Listed(s.trace.ours)) && Distinct(Listed(s.trace.ours))
    && (if s.open then 0 in s.trace.files && Suffix(s.trace.ours, s.trace.files[0]) else s.trace.ours == [])
  }

  lemma ListedMore(rs: seq<Record>, table: Option<Record>, line: Record)
    requires table.Some? ==> table.value.TableRecord?
    ensures Listed(Grown(rs, table, line)) == Listed(rs) + ListedBy(line)
  {
    var more := if table.Some? then rs + [table.value] else rs;
    assert (more + [line])[..|more|] == more;
    if table.Some? {
      assert (rs + [table.value])[..|rs|] == rs;
      assert Listed(more) == Listed(rs) + [];
    }
  }

  lemma NewKeysOf(r: Record)
    requires r.RoundRecord?
    ensures ListedBy(r) == NewKeys(UnknownKeys(r.round.batch.validations, r.round.table), r.noted)
  {
    hide NewKeys, UnknownKeys, TrustedOf, UnknownOf, ValidationsOf, FirstSeen;
  }

  lemma JoinOnce(a: seq<Bytes>, b: seq<Bytes>)
    requires Distinct(a) && Distinct(b) && forall k | k in b :: k !in a
    ensures Distinct(a + b)
  {
    var both := a + b;
    forall i, j | 0 <= i < j < |both| ensures both[i] != both[j] {
      if i < |a| <= j { assert b[j - |a|] in b && a[i] in a; }
    }
  }

  lemma JoinKeys(a: seq<Bytes>, b: seq<Bytes>)
    ensures WithKeys(WithKeys({}, a), b) == WithKeys({}, a + b)
    ensures forall k :: k in WithKeys({}, a) <==> k in a
  {
    HasKey({}, a);
    HasKey({}, a + b);
    HasKey(WithKeys({}, a), b);
    hide WithKeys;
    forall k ensures k in WithKeys(WithKeys({}, a), b) <==> k in WithKeys({}, a + b) {
      assert k in a + b <==> k in a || k in b;
    }
  }

  lemma HasKey(noted: set<Bytes>, keys: seq<Bytes>)
    ensures forall k :: k in WithKeys(noted, keys) <==> k in noted || k in keys
  {
  }

  lemma GrowSuffix(a: seq<Record>, b: seq<Record>, table: Option<Record>, line: Record)
    requires Suffix(a, b)
    ensures Suffix(Grown(a, table, line), Grown(b, table, line))
  {
    if table.Some? { SuffixAppend(a, b, table.value); }
    SuffixAppend(if table.Some? then a + [table.value] else a, if table.Some? then b + [table.value] else b, line);
  }

  lemma ReadyNoted(setup: Setup, s: State, round: Round)
    requires NotedOk(s)
    ensures NotedOk(Ready(setup, s, round))
  {
    var s1 := Opened(setup, s);
    assert NotedOk(s1) by { hide WithKeys, Distinct, Listed, FileBytes, Texts; }
    assert Listed([]) == [] && WithKeys({}, []) == {};
    hide WithKeys, Distinct, Listed, FileBytes, Texts, Rotated, Overflows;
    var s2 := RotatedState(setup, s1);
    assert s2.open && 0 in s2.trace.files && s2.noted == {} && s2.trace.ours == [];
    assert Suffix(s2.trace.ours, s2.trace.files[0]);
    assert Distinct<Bytes>([]) by { NoneTwice(); }
  }

  lemma NoneTwice()
    ensures Distinct<Bytes>([])
  {
  }

  lemma LineNoted(s2: State, round: Round, sources: seq<Source>, table: Option<Record>)
    requires NotedOk(s2) && (table.Some? ==> table.value.TableRecord?)
    ensures var ours := Grown(s2.trace.ours, table, RoundRecord(round, s2.noted, sources, s2.trace.writer));
            round.Noted(s2.noted) == WithKeys({}, Listed(ours)) && Distinct(Listed(ours))
  {
    var line := RoundRecord(round, s2.noted, sources, s2.trace.writer);
    ListedMore(s2.trace.ours, table, line);
    NewKeysOf(line);
    NewKeysAreNew(UnknownKeys(round.batch.validations, round.table), s2.noted);
    NotedGrows(round, s2.noted);
    assert ListedBy(line) == Meaning(round, s2.noted).unknownKeys;
    JoinKeys(Listed(s2.trace.ours), ListedBy(line));
    hide Listed, ListedBy, WithKeys, NewKeys, UnknownKeys, Meaning, Grown, Suffix;
    JoinOnce(Listed(s2.trace.ours), ListedBy(line));
  }

  lemma WroteRoundNoted(setup: Setup, s: State, round: Round, sources: seq<Source>)
    requires NotedOk(s)
    ensures NotedOk(WroteRound(setup, s, round, sources))
  {
    var s2 := Ready(setup, s, round);
    var table := if s2.due then Some(TableRecord(s2.table, round.written)) else None;
    ReadyNoted(setup, s, round);
    LineNoted(s2, round, sources, table);
    GrowSuffix(s2.trace.ours, s2.trace.files[0], table, RoundRecord(round, s2.noted, sources, s2.trace.writer));
    WroteRoundTrace(setup, s, round, sources);
    hide WroteRound, Ready, Grown, Listed, WithKeys, Distinct, Suffix;
  }

  lemma FlushedNoted(setup: Setup, s: State, header: Option<Header>, lost: u64, now: u64)
    requires NotedOk(s)
    ensures NotedOk(Flushed(setup, s, header, lost, now))
  {
    var taken := s.(batch := NO_BATCH, seenBefore := s.seen, seen := {}, trace := s.trace.(sources := []));
    assert NotedOk(taken) by { hide Listed, WithKeys, Distinct, Suffix; }
    hide NotedOk, WroteRound;
    WroteRoundNoted(setup, taken, Round(s.batch, header, s.table, lost, now), s.trace.sources);
  }

  lemma StartNoted(files: Files<Record>, log: seq<Record>, writer: nat)
    ensures NotedOk(Started(files, log, writer))
  {
  }

  lemma NextNoted(setup: Setup, s: State, step: Step)
    requires (s.open ==> 0 in s.trace.files) && NotedOk(s)
    ensures NotedOk(Next(setup, s, step))
  {
    hide Received, Flushed, Listed, WithKeys, Distinct, Suffix, Started;
    match step {
      case Take(event, lost, now) =>
        var r := Received(setup, s, event);
        ReceivedTrace(setup, s, event);
        assert NotedOk(r);
        hide NotedOk;
        match Closes(s, r, event) {
          case None =>
          case Some(header) => FlushedNoted(setup, r, header, lost, now);
        }
      case Restart(shutdown) =>
        var c := if shutdown.Some? then Closed(setup, s, shutdown.value.0, shutdown.value.1) else s;
        StartNoted(c.trace.files, c.trace.log, c.trace.writer + 1);
    }
  }

  /** Over every run, the writer lists each unknown key at most once in what it puts into a file, and
      what it has put into the current file is that file's end. */
  lemma {:induction false} ListedOncePerWriter(setup: Setup, steps: seq<Step>)
    ensures NotedOk(Run(setup, steps))
  {
    if |steps| == 0 {
      StartNoted(map[], [], 0);
    } else {
      ListedOncePerWriter(setup, steps[..|steps| - 1]);
      hide NotedOk, Next;
      NextNoted(setup, Run(setup, steps[..|steps| - 1]), steps[|steps| - 1]);
    }
  }

  /** Which keys the next line lists, while the file's allowance lasts: the unknown ones this writer
      has not listed in this file. So a key the file already holds is listed again exactly if an
      earlier writer listed it and this one has not. */
  lemma ListedExactly(setup: Setup, steps: seq<Step>, round: Round, sources: seq<Source>, k: Bytes)
    requires var s2 := Ready(setup, Run(setup, steps), round);
             |s2.noted| + |ListedBy(RoundRecord(round, s2.noted, sources, s2.trace.writer))| < MAX_NOTED_KEYS
    ensures var s2 := Ready(setup, Run(setup, steps), round);
            k in ListedBy(RoundRecord(round, s2.noted, sources, s2.trace.writer))
            <==> k in UnknownKeys(round.batch.validations, round.table) && k !in Listed(s2.trace.ours)
  {
    var s2 := Ready(setup, Run(setup, steps), round);
    ListedOncePerWriter(setup, steps);
    ReadyNoted(setup, Run(setup, steps), round);
    hide Run, Ready;
    NewKeysOf(RoundRecord(round, s2.noted, sources, s2.trace.writer));
    NewKeysAreNew(UnknownKeys(round.batch.validations, round.table), s2.noted);
    JoinKeys(Listed(s2.trace.ours), []);
    hide Listed, ListedBy, WithKeys, NewKeys, UnknownKeys, Distinct;
  }

  /** A restart forgets what the file lists: whatever files a new writer finds, the first line it
      appends lists an unknown key again that the file already holds. */
  lemma RestartListsAgain(setup: Setup, files: Files<Record>, log: seq<Record>, writer: nat, round: Round, sources: seq<Source>, k: Bytes)
    requires 0 in files && k in Listed(files[0]) && k in UnknownKeys(round.batch.validations, round.table)
    requires |ListedBy(RoundRecord(round, {}, sources, writer))| < MAX_NOTED_KEYS
    requires !Overflows(setup, Opened(setup, Started(files, log, writer)), round.Line({}))
    ensures var s2 := Ready(setup, Started(files, log, writer), round);
            && s2.trace.files[0] == files[0] && s2.trace.writer == writer
            && k in Listed(s2.trace.files[0]) && k in ListedBy(RoundRecord(round, s2.noted, sources, writer))
  {
    var s := Started(files, log, writer);
    assert !s.open && s.noted == {} && s.trace.ours == [] && Created(files) == files;
    hide *;
    ReadyAfterStart(setup, s, round);
    NewKeysOf(RoundRecord(round, {}, sources, writer));
    NewKeysAreNew(UnknownKeys(round.batch.validations, round.table), {});
  }

  lemma RunRestart(setup: Setup, steps: seq<Step>)
    ensures var s := Run(setup, steps);
            Run(setup, steps + [Restart(None)]) == Started(s.trace.files, s.trace.log, s.trace.writer + 1)
  {
    hide *;
    var more := steps + [Restart(None)];
    assert more[..|steps|] == steps && more[|steps|] == Restart(None);
    UnfoldRun(setup, more);
    RestartIs(setup, Run(setup, steps));
  }

  lemma RestartIs(setup: Setup, s: State)
    requires s.open ==> 0 in s.trace.files
    ensures Next(setup, s, Restart(None)) == Started(s.trace.files, s.trace.log, s.trace.writer + 1)
  {
    hide Started;
  }

  lemma UnfoldRun(setup: Setup, steps: seq<Step>)
    requires |steps| > 0
    ensures Run(setup, steps) == Next(setup, Run(setup, steps[..|steps| - 1]), steps[|steps| - 1])
  {
    hide Next;
  }

  /** A new writer appends to the file it finds, if the line fits. */
  lemma ReadyAfterStart(setup: Setup, s: State, round: Round)
    requires !s.open && s.noted == {} && s.trace.ours == [] && !Overflows(setup, Opened(setup, s), round.Line({}))
    ensures var s2 := Ready(setup, s, round);
            && s2.open && s2.due && s2.noted == {} && s2.trace.ours == [] && s2.trace.writer == s.trace.writer && s2.table == s.table
            && s2.trace.files == Created(s.trace.files)
    ensures Listed([]) == []
  {
    hide FileBytes, Texts, Overflows, Created, RotatedState;
  }
}
