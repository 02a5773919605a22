// What the recorder's lines hold, over every run: the first copies of the messages in the order they
// came, one line to each new header, and nothing else.
module RoundContents {
  import opened Bytes
  import opened RoundJson
  import opened TrustTables
  import opened RoundCodec
  import opened RoundTrip
  import opened RoundWriter
  import opened RoundFiles
  import opened RoundRotation
  import opened RoundFilter

  // ---- what came in since the writer started ----

  function LastHeader(steps: seq<Step>): Option<(u32, Hash)> {
    if |steps| == 0 || steps[|steps| - 1].Restart? then None
    else
      var e := steps[|steps| - 1].event;
      if e.HeaderEvent? then Some((e.header.seqNo, e.header.hash)) else LastHeader(steps[..|steps| - 1])
  }

  /** The digests accepted since the last line and between the last two, and how many of the first
      became rows. */
  datatype Windows = Windows(now: set<u64>, before: set<u64>, rows: nat)

  function DigestOf(setup: Setup, e: Event): Option<u64> {
    match e
    case ProposalEvent(p) => Some(setup.digest(MessageOf(p)))
    case ValidationEvent(blob, _) => Some(setup.digest(ValidationMessage(blob)))
    case _ => None
  }

  /** Whether a message is accepted: its digest is in neither window. */
  predicate Accepts(setup: Setup, w: Windows, e: Event) {
    var d := DigestOf(setup, e);
    d.Some? && d.value !in w.now && d.value !in w.before
  }

  function IsRow(setup: Setup, e: Event): nat {
    if e.ProposalEvent? || (e.ValidationEvent? && setup.parse(e.blob, e.seenMs).Some?) then 1 else 0
  }

  function Noticed(setup: Setup, w: Windows, e: Event): Windows {
    if Accepts(setup, w, e) then Windows(w.now + {DigestOf(setup, e).value}, w.before, w.rows + IsRow(setup, e)) else w
  }

  predicate IsNewHeader(init: seq<Step>, e: Event) {
    e.HeaderEvent? && LastHeader(init) != Some((e.header.seqNo, e.header.hash))
  }

  /** The windows, from what came in alone: a new header or the 8,192nd row ends the first. */
  function WindowsOf(setup: Setup, steps: seq<Step>): Windows {
    if |steps| == 0 || steps[|steps| - 1].Restart? then Windows({}, {}, 0)
    else
      var init, e := steps[..|steps| - 1], steps[|steps| - 1].event;
      var w := Noticed(setup, WindowsOf(setup, init), e);
      if IsNewHeader(init, e) || w.rows >= MAX_BATCH_ROWS then Windows({}, w.now, 0) else w
  }

  /** The proposals that were no copy when they came. */
  function FirstProposals(setup: Setup, steps: seq<Step>): seq<Proposal> {
    if |steps| == 0 || steps[|steps| - 1].Restart? then []
    else
      var init, e := steps[..|steps| - 1], steps[|steps| - 1].event;
      var before := FirstProposals(setup, init);
      if e.ProposalEvent? && Accepts(setup, WindowsOf(setup, init), e) then before + [e.proposal] else before
  }

  /** The validations that parse and were no copy when they came. */
  function FirstValidations(setup: Setup, steps: seq<Step>): seq<Validation> {
    if |steps| == 0 || steps[|steps| - 1].Restart? then []
    else
      var init, e := steps[..|steps| - 1], steps[|steps| - 1].event;
      var before := FirstValidations(setup, init);
      if e.ValidationEvent? && Accepts(setup, WindowsOf(setup, init), e) && setup.parse(e.blob, e.seenMs).Some?
      then before + [setup.parse(e.blob, e.seenMs).value]
      else before
  }

  /** The headers that differ from the one before them. */
  function NewHeaders(steps: seq<Step>): seq<Header> {
    if |steps| == 0 || steps[|steps| - 1].Restart? then []
    else
      var init, e := steps[..|steps| - 1], steps[|steps| - 1].event;
      if IsNewHeader(init, e) then NewHeaders(init) + [e.header] else NewHeaders(init)
  }

  /** The table of the last list that came. */
  function CurrentTable(steps: seq<Step>): TrustTable {
    if |steps| == 0 || steps[|steps| - 1].Restart? then TableOf([])
    else
      var e := steps[|steps| - 1].event;
      if e.UnlEvent? then FromEntries(e.entries) else CurrentTable(steps[..|steps| - 1])
  }

  // ---- what the lines hold ----

  function LineProposals(rs: seq<Record>): seq<Proposal> {
    if |rs| == 0 then []
    else LineProposals(rs[..|rs| - 1]) + if rs[|rs| - 1].RoundRecord? then rs[|rs| - 1].round.batch.proposals else []
  }

  function LineValidations(rs: seq<Record>): seq<Validation> {
    if |rs| == 0 then []
    else LineValidations(rs[..|rs| - 1]) + if rs[|rs| - 1].RoundRecord? then rs[|rs| - 1].round.batch.validations else []
  }

  function LineHeaders(rs: seq<Record>): seq<Header> {
    if |rs| == 0 then []
    else
      var r := rs[|rs| - 1];
      LineHeaders(rs[..|rs| - 1]) + if r.RoundRecord? && r.round.header.Some? then [r.round.header.value] else []
  }

  /** A line without a header was closed by its rows. */
  ghost predicate FullWithoutHeader(rs: seq<Record>) {
    forall r | r in rs :: r.RoundRecord? && (r.round.header.None? ==> r.round.batch.Rows() == 8_192)
  }

  ghost predicate Follows(setup: Setup, s: State, steps: seq<Step>) {
    && LineProposals(s.trace.rounds) + s.batch.proposals == FirstProposals(setup, steps)
    && LineValidations(s.trace.rounds) + s.batch.validations == FirstValidations(setup, steps)
    && LineHeaders(s.trace.rounds) == NewHeaders(steps) && s.last == LastHeader(steps)
    && s.table == CurrentTable(steps)
    && FullWithoutHeader(s.trace.rounds) && s.batch.Rows() < MAX_BATCH_ROWS
    && |s.seen| == s.batch.Rows() + s.batch.validationBad
    && InWindows(s, WindowsOf(setup, steps))
  }

  /** The writer's windows are these. */
  ghost predicate InWindows(s: State, w: Windows) {
    s.seen == w.now && s.seenBefore == w.before && s.batch.Rows() == w.rows
  }

  /** The same before a full batch is closed. */
  ghost predicate FollowsSoFar(setup: Setup, s: State, steps: seq<Step>, headers: seq<Header>, w: Windows) {
    && LineProposals(s.trace.rounds) + s.batch.proposals == FirstProposals(setup, steps)
    && LineValidations(s.trace.rounds) + s.batch.validations == FirstValidations(setup, steps)
    && LineHeaders(s.trace.rounds) == headers && s.last == LastHeader(steps)
    && s.table == CurrentTable(steps)
    && FullWithoutHeader(s.trace.rounds) && s.batch.Rows() <= MAX_BATCH_ROWS
    && |s.seen| == s.batch.Rows() + s.batch.validationBad
    && InWindows(s, w)
  }

  lemma OneMoreLine(rs: seq<Record>, r: Record)
    requires r.RoundRecord?
    ensures LineProposals(rs + [r]) == LineProposals(rs) + r.round.batch.proposals
    ensures LineValidations(rs + [r]) == LineValidations(rs) + r.round.batch.validations
    ensures LineHeaders(rs + [r]) == LineHeaders(rs) + if r.round.header.Some? then [r.round.header.value] else []
  {
    assert (rs + [r])[..|rs|] == rs;
  }

  /** The line a flush writes, made of all that waits, and what is left. */
  lemma FlushedLine(setup: Setup, s: State, header: Option<Header>, lost: u64, now: u64)
    requires s.open ==> 0 in s.trace.files
    ensures var r := Flushed(setup, s, header, lost, now);
            && |r.trace.rounds| == |s.trace.rounds| + 1 && r.trace.rounds[..|s.trace.rounds|] == s.trace.rounds
            && r.trace.rounds[|s.trace.rounds|].RoundRecord?
            && r.trace.rounds[|s.trace.rounds|].round == Round(s.batch, header, s.table, lost, now)
            && r.batch == NO_BATCH && r.seen == {} && r.seenBefore == s.seen && r.last == s.last && r.table == s.table
  {
    var taken := s.(batch := NO_BATCH, seenBefore := s.seen, seen := {}, trace := s.trace.(sources := []));
    var round := Round(s.batch, header, s.table, lost, now);
    WroteRoundTrace(setup, taken, round, s.trace.sources);
    WritingTouchesFilesOnly(setup, taken, round, s.trace.sources);
    hide WroteRound, Ready, Grown;
  }

  lemma FlushFollows(setup: Setup, s: State, header: Option<Header>, lost: u64, now: u64, steps: seq<Step>, headers: seq<Header>, w: Windows)
    requires (s.open ==> 0 in s.trace.files) && FollowsSoFar(setup, s, steps, headers, w)
    requires header.None? ==> s.batch.Rows() == MAX_BATCH_ROWS
    requires NewHeaders(steps) == headers + if header.Some? then [header.value] else []
    requires WindowsOf(setup, steps) == Windows({}, w.now, 0)
    ensures Follows(setup, Flushed(setup, s, header, lost, now), steps)
  {
    hide *;
    var r := Flushed(setup, s, header, lost, now);
    var rounds := s.trace.rounds;
    FlushedLine(setup, s, header, lost, now);
    var line := r.trace.rounds[|rounds|];
    assert r.trace.rounds == rounds + [line];
    OneMoreLine(rounds, line);
    Unpacked(setup, s, steps, headers, w);
    FullGrows(rounds, line);
    Packed(setup, r, steps);
  }

  lemma FullGrows(rs: seq<Record>, r: Record)
    requires FullWithoutHeader(rs) && r.RoundRecord? && (r.round.header.None? ==> r.round.batch.Rows() == MAX_BATCH_ROWS)
    ensures FullWithoutHeader(rs + [r])
  {
  }

  lemma Unpacked(setup: Setup, s: State, steps: seq<Step>, headers: seq<Header>, w: Windows)
    requires FollowsSoFar(setup, s, steps, headers, w)
    ensures LineProposals(s.trace.rounds) + s.batch.proposals == FirstProposals(setup, steps)
    ensures LineValidations(s.trace.rounds) + s.batch.validations == FirstValidations(setup, steps)
    ensures LineHeaders(s.trace.rounds) == headers && s.last == LastHeader(steps) && s.table == CurrentTable(steps)
    ensures FullWithoutHeader(s.trace.rounds) && s.seen == w.now
  {
    hide LineProposals, LineValidations, LineHeaders, FirstProposals, FirstValidations, LastHeader, CurrentTable, FullWithoutHeader;
  }

  /** A state with nothing waiting follows when its lines hold everything. */
  lemma Packed(setup: Setup, r: State, steps: seq<Step>)
    requires r.batch == NO_BATCH && r.seen == {} && FullWithoutHeader(r.trace.rounds)
    requires LineProposals(r.trace.rounds) == FirstProposals(setup, steps)
    requires LineValidations(r.trace.rounds) == FirstValidations(setup, steps)
    requires LineHeaders(r.trace.rounds) == NewHeaders(steps) && r.last == LastHeader(steps) && r.table == CurrentTable(steps)
    requires WindowsOf(setup, steps) == Windows({}, r.seenBefore, 0)
    ensures Follows(setup, r, steps)
  {
    hide WindowsOf, LineProposals, LineValidations, LineHeaders, FirstProposals, FirstValidations, NewHeaders, LastHeader, CurrentTable, FullWithoutHeader;
    assert LineProposals(r.trace.rounds) + [] == LineProposals(r.trace.rounds);
    assert LineValidations(r.trace.rounds) + [] == LineValidations(r.trace.rounds);
  }

  /** What one event changes in the waiting batch. */
  lemma ReceivedContents(setup: Setup, s: State, e: Event, w: Windows)
    requires InWindows(s, w)
    ensures var r := Received(setup, s, e);
            && r.batch.proposals == s.batch.proposals + (if e.ProposalEvent? && Accepts(setup, w, e) then [e.proposal] else [])
            && r.batch.validations == s.batch.validations
                 + (if e.ValidationEvent? && Accepts(setup, w, e) && setup.parse(e.blob, e.seenMs).Some?
                    then [setup.parse(e.blob, e.seenMs).value] else [])
            && r.last == (if e.HeaderEvent? then Some((e.header.seqNo, e.header.hash)) else s.last)
            && r.table == (if e.UnlEvent? then FromEntries(e.entries) else s.table)
  {
    hide FromEntries, MessageOf;
  }

  lemma CopiesAgree(setup: Setup, s: State, e: Event, w: Windows)
    requires InWindows(s, w) && DigestOf(setup, e).Some?
    ensures Accepts(setup, w, e) <==> !IsCopy(s, DigestOf(setup, e).value)
  {
    hide DigestOf;
  }

  /** One digest more, and one row more if the message is one. */
  lemma WindowGrows(s: State, r: State, w: Windows, d: u64, row: nat)
    requires InWindows(s, w) && d !in s.seen && |s.seen| == s.batch.Rows() + s.batch.validationBad
    requires r.seen == s.seen + {d} && r.seenBefore == s.seenBefore && r.batch.Rows() == s.batch.Rows() + row
    requires row <= 1 && r.batch.validationBad == s.batch.validationBad + 1 - row
    ensures |r.seen| == r.batch.Rows() + r.batch.validationBad && InWindows(r, Windows(w.now + {d}, w.before, w.rows + row))
  {
    hide Batch.Rows;
  }

  /** What one event changes in the windows. */
  lemma ReceivedWindows(setup: Setup, s: State, e: Event, w: Windows)
    requires |s.seen| == s.batch.Rows() + s.batch.validationBad && InWindows(s, w)
    ensures var r := Received(setup, s, e); |r.seen| == r.batch.Rows() + r.batch.validationBad && InWindows(r, Noticed(setup, w, e))
  {
    hide FromEntries, MessageOf;
    var r := Received(setup, s, e);
    if DigestOf(setup, e).Some? {
      CopiesAgree(setup, s, e, w);
      var d := DigestOf(setup, e).value;
      if !IsCopy(s, d) {
        hide InWindows;
        WindowGrows(s, r, w, d, IsRow(setup, e));
      }
    }
  }

  lemma TakeFollows(setup: Setup, s: State, step: Step, steps: seq<Step>)
    requires step.Take? && (s.open ==> 0 in s.trace.files)
    requires |steps| > 0 && steps[|steps| - 1] == step
    requires Follows(setup, s, steps[..|steps| - 1])
    ensures Follows(setup, Handled(setup, s, step.event, step.lost, step.now), steps)
  {
    var init, e := steps[..|steps| - 1], step.event;
    var r := Received(setup, s, e);
    var w := Noticed(setup, WindowsOf(setup, init), e);
    ReceivedContents(setup, s, e, WindowsOf(setup, init));
    ReceivedWindows(setup, s, e, WindowsOf(setup, init));
    ReceivedTrace(setup, s, e);
    Steps(setup, steps);
    hide Received, MessageOf, LineProposals, LineValidations, LineHeaders, Flushed, FullWithoutHeader, InWindows, Noticed, Accepts,
         FirstProposals, FirstValidations, NewHeaders, LastHeader, CurrentTable, WindowsOf;
    assert FollowsSoFar(setup, r, steps, NewHeaders(init), w) by {
      Longer(LineProposals(s.trace.rounds), s.batch.proposals, r.batch.proposals, FirstProposals(setup, init), FirstProposals(setup, steps));
      Longer(LineValidations(s.trace.rounds), s.batch.validations, r.batch.validations, FirstValidations(setup, init), FirstValidations(setup, steps));
    }
    RowsInWindow(r, w);
    match Closes(s, r, e) {
      case None =>
      case Some(header) => FlushFollows(setup, r, header, step.lost, step.now, steps, NewHeaders(init), w);
    }
  }

  lemma RowsInWindow(s: State, w: Windows)
    requires InWindows(s, w)
    ensures s.batch.Rows() == w.rows
  {
  }

  lemma Longer<T>(lines: seq<T>, before: seq<T>, after: seq<T>, all: seq<T>, all': seq<T>)
    requires lines + before == all && |before| <= |after| && after[..|before|] == before
    requires all' == all + after[|before|..]
    ensures lines + after == all'
  {
    assert after == before + after[|before|..];
  }

  /** The reference functions, one step on. */
  lemma Steps(setup: Setup, steps: seq<Step>)
    requires |steps| > 0 && steps[|steps| - 1].Take?
    ensures var init, e := steps[..|steps| - 1], steps[|steps| - 1].event;
            var w := WindowsOf(setup, init);
            && FirstProposals(setup, steps) == FirstProposals(setup, init)
                 + (if e.ProposalEvent? && Accepts(setup, w, e) then [e.proposal] else [])
            && FirstValidations(setup, steps) == FirstValidations(setup, init)
                 + (if e.ValidationEvent? && Accepts(setup, w, e) && setup.parse(e.blob, e.seenMs).Some?
                    then [setup.parse(e.blob, e.seenMs).value] else [])
            && NewHeaders(steps) == NewHeaders(init) + (if IsNewHeader(init, e) then [e.header] else [])
            && LastHeader(steps) == (if e.HeaderEvent? then Some((e.header.seqNo, e.header.hash)) else LastHeader(init))
            && CurrentTable(steps) == (if e.UnlEvent? then FromEntries(e.entries) else CurrentTable(init))
            && WindowsOf(setup, steps) == (var n := Noticed(setup, w, e);
                 if IsNewHeader(init, e) || n.rows >= MAX_BATCH_ROWS then Windows({}, n.now, 0) else n)
  {
    hide FromEntries, Accepts, Noticed;
  }

  lemma StartFollows(setup: Setup, files: Files<Record>, log: seq<Record>, writer: nat, steps: seq<Step>)
    requires |steps| == 0 || steps[|steps| - 1].Restart?
    ensures Follows(setup, Started(files, log, writer), steps)
  {
    hide Run, TableOf, FromEntries;
  }

  /** Over every run, what this writer's lines hold and what waits are exactly the first copies of the
      messages since it started, in order; the lines with a header are one for each new header, in
      order; a line without one holds 8,192 rows; and the windows remember no message but those that
      are rows or did not parse. */
  lemma {:induction false} LinesFollowEvents(setup: Setup, steps: seq<Step>)
    ensures Follows(setup, Run(setup, steps), steps)
  {
    if |steps| == 0 {
      StartFollows(setup, map[], [], 0, steps);
    } else {
      var init, step := steps[..|steps| - 1], steps[|steps| - 1];
      var s := Run(setup, init);
      assert Run(setup, steps) == Next(setup, s, step);
      hide Run, Follows, Handled, Started, Closed;
      match step {
        case Take(event, lost, now) =>
          LinesFollowEvents(setup, init);
          TakeFollows(setup, s, step, steps);
        case Restart(None) => StartFollows(setup, s.trace.files, s.trace.log, s.trace.writer + 1, steps);
        case Restart(Some((lost, now))) =>
          var c := Closed(setup, s, lost, now);
          StartFollows(setup, c.trace.files, c.trace.log, c.trace.writer + 1, steps);
      }
    }
  }

  /** Over every run, a message is taken for a copy exactly if its digest was accepted since the last
      line or between the last two. */
  lemma CopiesExactly(setup: Setup, steps: seq<Step>, d: u64)
    ensures var w := WindowsOf(setup, steps); IsCopy(Run(setup, steps), d) <==> d in w.now || d in w.before
  {
    LinesFollowEvents(setup, steps);
    hide Run, LineProposals, LineValidations, LineHeaders, FirstProposals, FirstValidations, NewHeaders, LastHeader, CurrentTable, WindowsOf,
         FullWithoutHeader;
  }

  /** The line an event closes, if it closes one: under the current table, with the lost count and the
      time it found. */
  lemma ClosedLine(setup: Setup, steps: seq<Step>, step: Step)
    requires step.Take?
    ensures var before, after := Run(setup, steps).trace.rounds, Run(setup, steps + [step]).trace.rounds;
            || after == before
            || (|after| == |before| + 1 && after[..|before|] == before && after[|before|].RoundRecord?
                && after[|before|].round.table == CurrentTable(steps + [step])
                && after[|before|].round.lost == step.lost && after[|before|].round.written == step.now)
  {
    var more := steps + [step];
    assert more[..|steps|] == steps && more[|steps|] == step;
    var s := Run(setup, steps);
    assert Run(setup, more) == Handled(setup, s, step.event, step.lost, step.now);
    LinesFollowEvents(setup, steps);
    Steps(setup, more);
    var r := Received(setup, s, step.event);
    ReceivedTrace(setup, s, step.event);
    assert s.table == CurrentTable(steps) && |s.seen| == s.batch.Rows() + s.batch.validationBad;
    ReceivedContents(setup, s, step.event, WindowsOf(setup, steps));
    hide Run, Follows, Received, Flushed, CurrentTable;
    match Closes(s, r, step.event) {
      case None =>
      case Some(header) => FlushedLine(setup, r, header, step.lost, step.now);
    }
  }
}
