// The recorder's two sides together: the senders, the bounded channel and the lost counter on one,
// the writer on the other, in any interleaving. Nothing sent goes unaccounted for.
module RoundConservation {
  import opened Bytes
  import opened RoundJson
  import opened TrustTables
  import opened RoundCodec
  import opened RoundTrip
  import opened RoundWriter
  import opened RoundFiles
  import opened RoundRotation
  import opened RoundFilter

  const CHANNEL_CAPACITY: nat := 16_384

  /** How many proposals and validations. */
  datatype Tally = Tally(proposals: nat, validations: nat) {
    function Plus(other: Tally): Tally {
      Tally(proposals + other.proposals, validations + other.validations)
    }
  }

  function One(e: Event): Tally {
    Tally(if e.ProposalEvent? then 1 else 0, if e.ValidationEvent? then 1 else 0)
  }

  function CountOf(events: seq<Event>): Tally {
    if |events| == 0 then Tally(0, 0) else CountOf(events[..|events| - 1]).Plus(One(events[|events| - 1]))
  }

  // ---- the system ----

  datatype System = System(
    queue: seq<Event>,
    received: Option<Event>,   // taken from the channel, not yet handled
    lost: u64,                 // the shared counter
    uncounted: nat,            // sends turned away whose sender has not added to the counter yet
    closed: bool,
    writer: State,
    steps: seq<Step>,          // what the writer has done so far
    sent: Tally, refused: Tally, refusals: nat)

  datatype Action =
    | Send(event: Event)       // a sender's try_send
    | AddLost                  // a sender whose event was turned away adds to the counter
    | Receive                  // the writer takes the next event from the channel
    | Handle(now: u64)         // the writer handles it, at the moment it reads the counter if it does
    | Close(now: u64)          // every sender is gone and the channel is drained

  function Begin(): System {
    System([], None, 0, 0, false, Started(map[], [], 0), [], Tally(0, 0), Tally(0, 0), 0)
  }

  function Sent(y: System, e: Event): System {
    var sent := y.(sent := y.sent.Plus(One(e)));
    if !y.closed && |y.queue| < CHANNEL_CAPACITY then sent.(queue := y.queue + [e])
    else sent.(refused := y.refused.Plus(One(e)), refusals := y.refusals + 1, uncounted := y.uncounted + 1)
  }

  /** Whether a line is written; then the counter is swapped for zero. */
  predicate Writes(before: State, after: State) { |after.trace.rounds| > |before.trace.rounds| }

  function HandleNext(setup: Setup, y: System, now: u64): System
    requires y.received.Some? && (y.writer.open ==> 0 in y.writer.trace.files)
  {
    var after := Handled(setup, y.writer, y.received.value, y.lost, now);
    y.(writer := after, received := None, lost := if Writes(y.writer, after) then 0 else y.lost,
       steps := y.steps + [Take(y.received.value, y.lost, now)])
  }

  function CloseWriter(setup: Setup, y: System, now: u64): System
    requires y.writer.open ==> 0 in y.writer.trace.files
  {
    var after := Closed(setup, y.writer, y.lost, now);
    y.(writer := after, closed := true, lost := if Writes(y.writer, after) then 0 else y.lost)
  }

  /** An action that cannot happen yet changes nothing. */
  function Act(setup: Setup, y: System, a: Action): (r: System)
    requires y.writer.open ==> 0 in y.writer.trace.files
    ensures r.writer.open ==> 0 in r.writer.trace.files
  {
    match a
    case Send(e) => Sent(y, e)
    case AddLost =>
      if y.uncounted > 0 then y.(uncounted := y.uncounted - 1, lost := (y.lost + 1) % 0x1_0000_0000_0000_0000) else y
    case Receive =>
      if y.received.None? && |y.queue| > 0 then y.(received := Some(y.queue[0]), queue := y.queue[1..]) else y
    case Handle(now) => if y.received.Some? then HandleNext(setup, y, now) else y
    case Close(now) =>
      if y.received.None? && y.queue == [] && !y.closed then CloseWriter(setup, y, now) else y
  }

  function History(setup: Setup, actions: seq<Action>): (r: System)
    ensures r.writer.open ==> 0 in r.writer.trace.files
  {
    if |actions| == 0 then Begin()
    else Act(setup, History(setup, actions[..|actions| - 1]), actions[|actions| - 1])
  }

  // ---- what a line accounts for, as a reader of the file counts it ----

  function TrustedRows(ps: seq<ReadProposal>): nat {
    if |ps| == 0 then 0
    else TrustedRows(ps[..|ps| - 1]) + if ps[|ps| - 1].validator.Some? then 1 else 0
  }

  function LineTally(r: Record): Tally {
    if r.TableRecord? then Tally(0, 0)
    else
      var m := Meaning(r.round, r.noted);
      Tally(TrustedRows(m.proposals) + m.counts.unknownProposals + m.counts.proposalDups,
            |m.validations| + m.counts.unknownValidations + m.counts.validationDups + m.counts.validationBad)
  }

  function LinesTally(rs: seq<Record>): Tally {
    if |rs| == 0 then Tally(0, 0) else LinesTally(rs[..|rs| - 1]).Plus(LineTally(rs[|rs| - 1]))
  }

  /** The events the lines say were turned away. */
  function LinesLost(rs: seq<Record>): nat {
    if |rs| == 0 then 0
    else LinesLost(rs[..|rs| - 1]) + if rs[|rs| - 1].RoundRecord? then Meaning(rs[|rs| - 1].round, rs[|rs| - 1].noted).counts.lost else 0
  }

  /** What waits for the next line. */
  function BatchTally(b: Batch): Tally {
    Tally(|b.proposals| + b.proposalDups, |b.validations| + b.validationDups + b.validationBad)
  }

  lemma {:induction false} AllTrusted(ps: seq<Proposal>, table: TrustTable)
    ensures TrustedRows(TrustedOf(ps, table)) == |TrustedOf(ps, table)|
  {
    if |ps| > 0 {
      AllTrusted(ps[..|ps| - 1], table);
      var init := TrustedOf(ps[..|ps| - 1], table);
      if |TrustedOf(ps, table)| > |init| {
        assert TrustedOf(ps, table)[..|init|] == init;
      }
    }
  }

  lemma {:induction false} NoneTrusted(ps: seq<Proposal>, table: TrustTable, i: nat)
    requires i < |UnknownOf(ps, table)|
    ensures UnknownOf(ps, table)[i].validator.None?
  {
    var init := UnknownOf(ps[..|ps| - 1], table);
    if i < |init| { NoneTrusted(ps[..|ps| - 1], table, i); }
  }

  lemma {:induction false} UntrustedAddNothing(a: seq<ReadProposal>, b: seq<ReadProposal>)
    requires forall p | p in b :: p.validator.None?
    ensures TrustedRows(a + b) == TrustedRows(a)
  {
    if |b| > 0 {
      UntrustedAddNothing(a, b[..|b| - 1]);
      assert (a + b)[..|a + b| - 1] == a + b[..|b| - 1];
    } else {
      assert a + b == a;
    }
  }

  /** A line accounts for exactly the messages its batch stood for. */
  lemma LineAccounts(round: Round, noted: set<Bytes>, sources: seq<Source>, author: nat)
    requires round.table == TableOf(round.table.keys)
    ensures LineTally(RoundRecord(round, noted, sources, author)) == BatchTally(round.batch)
    ensures Meaning(round, noted).counts.lost == round.lost
  {
    var ps, table := round.batch.proposals, round.table;
    var shown := FirstOf(UnknownOf(ps, table), MAX_UNKNOWN_PROPOSALS);
    forall p | p in shown ensures p.validator.None? {
      var i :| 0 <= i < |shown| && shown[i] == p;
      NoneTrusted(ps, table, i);
    }
    AllTrusted(ps, table);
    UntrustedAddNothing(TrustedOf(ps, table), shown);
    EveryProposalIsCounted(ps, table);
    EveryValidationIsCounted(round.batch.validations, table);
    hide TableOf, FirstSeen, TrustedOf, UnknownOf, ValidationsOf, UnknownKeys, NewKeys, TrustedRows, FirstOf;
  }

  // ---- the accounts ----

  ghost predicate TableBuilt(s: State) { s.table == TableOf(s.table.keys) }

  /** The messages the writer has in hand or has written. */
  function WriterTally(s: State): Tally { LinesTally(s.trace.rounds).Plus(BatchTally(s.batch)) }

  /** The messages between the senders and the writer. */
  function InHand(queue: seq<Event>, received: Option<Event>): Tally {
    CountOf(queue).Plus(if received.Some? then One(received.value) else Tally(0, 0))
  }

  ghost predicate Accounted(sent: Tally, inHand: Tally, refused: Tally, writer: Tally) {
    sent == inHand.Plus(refused).Plus(writer)
  }

  ghost predicate LossCounted(refusals: nat, lines: nat, lost: nat, uncounted: nat) {
    refusals == lines + lost + uncounted
  }

  lemma FlushAccounts(setup: Setup, s: State, header: Option<Header>, lost: u64, now: u64)
    requires (s.open ==> 0 in s.trace.files) && TableBuilt(s)
    ensures var r := Flushed(setup, s, header, lost, now);
            && TableBuilt(r) && WriterTally(r) == WriterTally(s) && |r.trace.rounds| == |s.trace.rounds| + 1
            && LinesLost(r.trace.rounds) == LinesLost(s.trace.rounds) + lost
  {
    var taken := s.(batch := NO_BATCH, seenBefore := s.seen, seen := {}, trace := s.trace.(sources := []));
    var round := Round(s.batch, header, s.table, lost, now);
    WroteRoundTrace(setup, taken, round, s.trace.sources);
    WritingTouchesFilesOnly(setup, taken, round, s.trace.sources);
    var line := RoundRecord(round, Ready(setup, taken, round).noted, s.trace.sources, s.trace.writer);
    hide WroteRound, Ready, Grown, Meaning, LineTally, TableOf;
    LineAccounts(round, line.noted, line.sources, line.author);
    assert (s.trace.rounds + [line])[..|s.trace.rounds|] == s.trace.rounds;
  }

  lemma ReceivedAccounts(setup: Setup, s: State, e: Event)
    requires TableBuilt(s)
    ensures var r := Received(setup, s, e);
            TableBuilt(r) && WriterTally(r) == WriterTally(s).Plus(One(e)) && r.trace.rounds == s.trace.rounds
  {
    hide LinesTally, TableOf, Dedup, SortPairs, Decoded, IndexOf, MessageOf;
    if e.UnlEvent? { IsTable(e.entries); }
    hide FromEntries, IsCopy;
  }

  lemma HandledAccounts(setup: Setup, s: State, e: Event, lost: u64, now: u64)
    requires (s.open ==> 0 in s.trace.files) && TableBuilt(s)
    ensures var r := Handled(setup, s, e, lost, now);
            && TableBuilt(r) && WriterTally(r) == WriterTally(s).Plus(One(e))
            && LinesLost(r.trace.rounds) == LinesLost(s.trace.rounds) + if Writes(s, r) then lost else 0
  {
    var received := Received(setup, s, e);
    ReceivedAccounts(setup, s, e);
    ReceivedTrace(setup, s, e);
    hide Received, TableBuilt, WriterTally, LinesLost, One, Flushed;
    match Closes(s, received, e) {
      case None =>
      case Some(header) => FlushAccounts(setup, received, header, lost, now);
    }
  }

  lemma ClosedAccounts(setup: Setup, s: State, lost: u64, now: u64)
    requires (s.open ==> 0 in s.trace.files) && TableBuilt(s)
    ensures var r := Closed(setup, s, lost, now);
            && TableBuilt(r) && WriterTally(r) == WriterTally(s)
            && LinesLost(r.trace.rounds) == LinesLost(s.trace.rounds) + if Writes(s, r) then lost else 0
  {
    hide TableBuilt, WriterTally, LinesLost, Flushed;
    if s.batch.Rows() > 0 { FlushAccounts(setup, s, None, lost, now); }
  }

  lemma {:induction false} CountFront(events: seq<Event>)
    requires |events| > 0
    ensures CountOf(events) == CountOf(events[1..]).Plus(One(events[0]))
  {
    hide One;
    if |events| > 1 {
      CountFront(events[..|events| - 1]);
      assert events[..|events| - 1][1..] == events[1..][..|events| - 2];
    }
  }

  lemma CountBack(events: seq<Event>, e: Event)
    ensures CountOf(events + [e]) == CountOf(events).Plus(One(e))
  {
    assert (events + [e])[..|events|] == events;
  }

  ghost predicate Fair(y: System) {
    && (y.writer.open ==> 0 in y.writer.trace.files) && TableBuilt(y.writer)
    && Accounted(y.sent, InHand(y.queue, y.received), y.refused, WriterTally(y.writer))
    && LossCounted(y.refusals, LinesLost(y.writer.trace.rounds), y.lost, y.uncounted)
  }

  lemma SendBalances(y: System, e: Event)
    requires Fair(y)
    ensures Fair(Sent(y, e))
  {
    CountBack(y.queue, e);
    hide TableBuilt, WriterTally, LinesLost, One, CountOf;
  }

  lemma ReceiveBalances(y: System)
    requires Fair(y) && y.received.None? && |y.queue| > 0
    ensures Fair(y.(received := Some(y.queue[0]), queue := y.queue[1..]))
  {
    hide TableBuilt, WriterTally, LinesLost, InHand, Accounted, LossCounted;
    FrontInHand(y.queue);
  }

  lemma FrontInHand(queue: seq<Event>)
    requires |queue| > 0
    ensures InHand(queue[1..], Some(queue[0])) == InHand(queue, None)
  {
    CountFront(queue);
    hide One, CountOf;
  }

  lemma AddLostBalances(y: System)
    requires Fair(y) && y.uncounted > 0 && y.lost + 1 < 0x1_0000_0000_0000_0000
    ensures Fair(y.(uncounted := y.uncounted - 1, lost := y.lost + 1))
  {
    hide TableBuilt, WriterTally, LinesLost, InHand;
  }

  lemma Handed(queue: seq<Event>, e: Event)
    ensures InHand(queue, Some(e)) == InHand(queue, None).Plus(One(e))
  {
    hide One, CountOf;
  }

  lemma HandleBalances(setup: Setup, y: System, now: u64)
    requires Fair(y) && y.received.Some?
    ensures Fair(HandleNext(setup, y, now))
  {
    hide TableBuilt, WriterTally, LinesLost, One, InHand, Handled, Writes, CountOf;
    var after := Handled(setup, y.writer, y.received.value, y.lost, now);
    HandledAccounts(setup, y.writer, y.received.value, y.lost, now);
    Handed(y.queue, y.received.value);
    Moved(y.sent, InHand(y.queue, None), One(y.received.value), y.refused, WriterTally(y.writer));
    Swapped(y.refusals, LinesLost(y.writer.trace.rounds), y.lost, y.uncounted, Writes(y.writer, after));
    hide Accounted, LossCounted;
  }

  lemma Moved(sent: Tally, inHand: Tally, one: Tally, refused: Tally, writer: Tally)
    requires Accounted(sent, inHand.Plus(one), refused, writer)
    ensures Accounted(sent, inHand, refused, writer.Plus(one))
  {
  }

  lemma Swapped(refusals: nat, lines: nat, lost: nat, uncounted: nat, swap: bool)
    requires LossCounted(refusals, lines, lost, uncounted)
    ensures LossCounted(refusals, lines + (if swap then lost else 0), if swap then 0 else lost, uncounted)
  {
  }

  lemma CloseBalances(setup: Setup, y: System, now: u64)
    requires Fair(y)
    ensures Fair(CloseWriter(setup, y, now))
  {
    hide TableBuilt, WriterTally, LinesLost, InHand, Closed, Writes;
    var after := Closed(setup, y.writer, y.lost, now);
    ClosedAccounts(setup, y.writer, y.lost, now);
    Swapped(y.refusals, LinesLost(y.writer.trace.rounds), y.lost, y.uncounted, Writes(y.writer, after));
    hide Accounted, LossCounted;
  }

  lemma ActBalances(setup: Setup, y: System, a: Action)
    requires Fair(y) && y.lost + 1 < 0x1_0000_0000_0000_0000 && (y.writer.open ==> 0 in y.writer.trace.files)
    ensures Fair(Act(setup, y, a))
  {
    hide Fair, Sent, HandleNext, CloseWriter;
    match a {
      case Send(e) => SendBalances(y, e);
      case AddLost =>
        if y.uncounted > 0 { AddLostBalances(y); }
      case Receive =>
        if y.received.None? && |y.queue| > 0 { ReceiveBalances(y); }
      case Handle(now) =>
        if y.received.Some? { HandleBalances(setup, y, now); }
      case Close(now) => CloseBalances(setup, y, now);
    }
  }

  lemma RefusalsGrow(setup: Setup, y: System, a: Action)
    requires y.writer.open ==> 0 in y.writer.trace.files
    ensures Act(setup, y, a).refusals <= y.refusals + 1
  {
    hide Handled, Closed;
  }

  lemma BeginIsFair()
    ensures Fair(Begin()) && Begin().refusals == 0
  {
    StartIsBuilt();
    StartTally();
    hide Started, TableBuilt, WriterTally, LinesLost, InHand;
  }

  lemma NoEvents(events: seq<Event>)
    requires |events| == 0
    ensures CountOf(events) == Tally(0, 0)
  {
  }

  lemma NoneInHand(events: seq<Event>)
    requires |events| == 0
    ensures InHand(events, None) == Tally(0, 0)
  {
    NoEvents(events);
    hide CountOf, One;
  }

  lemma NoLines(rs: seq<Record>)
    requires |rs| == 0
    ensures LinesLost(rs) == 0 && LinesTally(rs) == Tally(0, 0)
  {
  }

  lemma StartTally()
    ensures var w := Started(map[], [], 0);
            !w.open && InHand([], None) == Tally(0, 0) && LinesLost(w.trace.rounds) == 0 && WriterTally(w) == Tally(0, 0)
  {
    NoneInHand([]);
    NoLines([]);
    hide LinesTally, LinesLost, InHand, TableOf;
  }

  lemma StartIsBuilt()
    ensures TableBuilt(Started(map[], [], 0))
  {
    BuiltKeys([]);
    hide TableOf;
  }

  lemma BuiltKeys(keys: seq<KeyPair>)
    ensures TableOf(keys).keys == keys
  {
  }

  lemma LostIsRefused(y: System)
    requires Fair(y)
    ensures y.lost <= y.refusals
  {
    hide TableBuilt, WriterTally, LinesLost, InHand, Accounted;
  }

  lemma {:induction false} HistoryIsFair(setup: Setup, actions: seq<Action>)
    requires |actions| < 0xFFFF_FFFF_FFFF_FFFF
    ensures Fair(History(setup, actions)) && History(setup, actions).refusals <= |actions|
  {
    hide Fair, Act, Begin;
    if |actions| == 0 {
      BeginIsFair();
    } else {
      var init, a := actions[..|actions| - 1], actions[|actions| - 1];
      HistoryIsFair(setup, init);
      var y := History(setup, init);
      LostIsRefused(y);
      ActBalances(setup, y, a);
      RefusalsGrow(setup, y, a);
    }
  }

  /** Conservation, in every interleaving: each proposal sent is in the channel, in hand, was turned
      away, waits in the batch, or is counted in a line as a trusted row, a message from an unmapped
      key or a copy; likewise each validation, which may also be counted as unreadable; and each
      event turned away is in a line's lost count, in the live counter, or about to be added to it. */
  lemma NothingUnaccounted(setup: Setup, actions: seq<Action>)
    requires |actions| < 0xFFFF_FFFF_FFFF_FFFF
    ensures var y := History(setup, actions);
            && y.sent == InHand(y.queue, y.received).Plus(y.refused).Plus(BatchTally(y.writer.batch)).Plus(LinesTally(y.writer.trace.rounds))
            && y.refusals == LinesLost(y.writer.trace.rounds) + y.lost + y.uncounted
  {
    hide History, InHand, BatchTally, LinesTally, LinesLost, TableBuilt;
    HistoryIsFair(setup, actions);
    var y := History(setup, actions);
    Regroup(InHand(y.queue, y.received), y.refused, LinesTally(y.writer.trace.rounds), BatchTally(y.writer.batch));
  }

  lemma Regroup(a: Tally, b: Tally, c: Tally, d: Tally)
    ensures a.Plus(b).Plus(c.Plus(d)) == a.Plus(b).Plus(d).Plus(c)
  {
  }

  ghost predicate Runs(setup: Setup, y: System) { !y.closed ==> y.writer == Run(setup, y.steps) }

  lemma HandleRuns(setup: Setup, y: System, now: u64)
    requires Runs(setup, y) && y.received.Some? && (y.writer.open ==> 0 in y.writer.trace.files)
    ensures Runs(setup, HandleNext(setup, y, now))
  {
    hide Run, Handled, Writes;
    RunOneMore(setup, y.steps, y.received.value, y.lost, now);
  }

  lemma ActRuns(setup: Setup, y: System, a: Action)
    requires Runs(setup, y) && (y.writer.open ==> 0 in y.writer.trace.files)
    ensures Runs(setup, Act(setup, y, a))
  {
    hide Run, HandleNext, Closed;
    if a.Handle? && y.received.Some? {
      hide Runs;
      HandleRuns(setup, y, a.now);
    }
  }

  lemma BeginRuns(setup: Setup)
    ensures Runs(setup, Begin())
  {
    hide Started;
  }

  /** Until the channel is closed, the writer is in a state that its own runs reach, so its files read
      back as every run's do. */
  lemma {:induction false} WriterRuns(setup: Setup, actions: seq<Action>)
    ensures var y := History(setup, actions); !y.closed ==> y.writer == Run(setup, y.steps)
  {
    hide Act, Begin;
    if |actions| == 0 {
      BeginRuns(setup);
    } else {
      WriterRuns(setup, actions[..|actions| - 1]);
      ActRuns(setup, History(setup, actions[..|actions| - 1]), actions[|actions| - 1]);
    }
  }

  lemma RunOneMore(setup: Setup, steps: seq<Step>, e: Event, lost: u64, now: u64)
    ensures Run(setup, steps + [Take(e, lost, now)]) == Handled(setup, Run(setup, steps), e, lost, now)
  {
    var more := steps + [Take(e, lost, now)];
    assert more[..|steps|] == steps;
    hide Run, Handled;
    UnfoldRun(setup, more);
  }

  /** What a shutdown leaves unwritten: no row, and at most counts of copies and unreadable
      validations. */
  lemma ShutdownWritesRows(setup: Setup, s: State, lost: u64, now: u64)
    requires s.open ==> 0 in s.trace.files
    ensures Closed(setup, s, lost, now).batch.Rows() == 0
    ensures s.batch.Rows() > 0 ==> Closed(setup, s, lost, now).batch == NO_BATCH
  {
    var taken := s.(batch := NO_BATCH, seenBefore := s.seen, seen := {}, trace := s.trace.(sources := []));
    WritingTouchesFilesOnly(setup, taken, Round(s.batch, None, s.table, lost, now), s.trace.sources);
    hide WroteRound;
  }
}
