// The recorder's rotation, over every run: what is kept is the end of everything written, and no
// file outgrows its limit by more than a table line.
module RoundRotation {
  import opened Bytes
  import opened Numbers
  import opened RoundJson
  import opened TrustTables
  import opened RoundCodec
  import opened RoundWriter
  import opened RoundFiles

  // ---- the kept files, oldest first ----

  function Between<T>(files: Files<T>, hi: nat, lo: nat): seq<T>
    decreases hi
  {
    if hi < lo then []
    else if hi == 0 then FileAt(files, 0)
    else FileAt(files, hi) + Between(files, hi - 1, lo)
  }

  /** The rotated files from the oldest to the newest, then the current one. */
  function Kept<T>(files: Files<T>, keep: nat): seq<T> { Between(files, keep, 0) }

  ghost predicate Suffix<T>(a: seq<T>, b: seq<T>) {
    |a| <= |b| && b[|b| - |a|..] == a
  }

  lemma SuffixJoins<T>(a: seq<T>, b: seq<T>, c: seq<T>)
    requires Suffix(a, b) && Suffix(b, c)
    ensures Suffix(a, c)
  {
    assert c[|c| - |a|..] == c[|c| - |b|..][|b| - |a|..];
  }

  lemma SuffixAppend<T>(a: seq<T>, b: seq<T>, x: T)
    requires Suffix(a, b)
    ensures Suffix(a + [x], b + [x])
  {
    assert (b + [x])[|b + [x]| - |a + [x]|..] == b[|b| - |a|..] + [x];
  }

  lemma DropFront<T>(a: seq<T>, b: seq<T>)
    ensures Suffix(b, a + b)
  {
  }

  lemma Joins<T>(a: seq<T>, b: seq<T>, c: seq<T>)
    ensures (a + b) + c == a + (b + c)
  {
  }

  lemma {:induction false} BetweenSplits<T>(files: Files<T>, hi: nat, mid: nat, lo: nat)
    requires lo <= mid <= hi
    ensures Between(files, hi, lo) == Between(files, hi, mid + 1) + Between(files, mid, lo)
    decreases hi
  {
    hide FileAt;
    if mid < hi {
      assert Between(files, hi, lo) == FileAt(files, hi) + Between(files, hi - 1, lo);
      assert Between(files, hi, mid + 1) == FileAt(files, hi) + Between(files, hi - 1, mid + 1);
      hide Between;
      BetweenSplits(files, hi - 1, mid, lo);
      Joins(FileAt(files, hi), Between(files, hi - 1, mid + 1), Between(files, mid, lo));
    } else {
      assert Between(files, hi, mid + 1) == [];
      hide Between;
    }
  }

  ghost predicate SameBetween<T>(f: Files<T>, g: Files<T>, hi: nat, lo: nat) {
    forall i | lo <= i <= hi :: FileAt(f, i) == FileAt(g, i)
  }

  lemma {:induction false} BetweenSame<T>(f: Files<T>, g: Files<T>, hi: nat, lo: nat)
    requires SameBetween(f, g, hi, lo)
    ensures Between(f, hi, lo) == Between(g, hi, lo)
    decreases hi
  {
    hide FileAt;
    if lo <= hi && hi > 0 { BetweenSame(f, g, hi - 1, lo); }
  }

  lemma {:induction false} ShiftLeavesRest<T>(files: Files<T>, i: nat, j: nat)
    requires j == 0 || j > i + 1
    ensures j in ShiftFrom(files, i) <==> j in files
    ensures j in files ==> ShiftFrom(files, i)[j] == files[j]
    decreases i
  {
    if i > 0 { ShiftLeavesRest(MoveUp(files, i), i - 1, j); }
  }

  lemma MoveUpKeepsTwo<T>(files: Files<T>, i: nat)
    requires i + 1 !in files || i !in files
    ensures i !in MoveUp(files, i)
    ensures FileAt(MoveUp(files, i), i + 1) + FileAt(MoveUp(files, i), i) == FileAt(files, i + 1) + FileAt(files, i)
  {
  }

  /** Shifting into a free place loses nothing, and frees place 1. */
  lemma {:induction false} ShiftLosesNothing<T>(files: Files<T>, i: nat)
    requires i + 1 !in files
    ensures Between(ShiftFrom(files, i), i + 1, 1) == Between(files, i + 1, 1)
    ensures 1 !in ShiftFrom(files, i)
    decreases i
  {
    if i > 0 {
      var g := MoveUp(files, i);
      MoveUpKeepsTwo(files, i);
      ShiftLosesNothing(g, i - 1);
      ShiftLeavesRest(g, i - 1, i + 1);
      BetweenSame(files, g, i - 1, 1);
      hide ShiftFrom, MoveUp;
      TopTwo(files, i);
      TopTwo(g, i);
      assert FileAt(ShiftFrom(g, i - 1), i + 1) == FileAt(g, i + 1);
      Top(ShiftFrom(g, i - 1), i);
      Top(g, i);
      hide FileAt, Between;
      assert ShiftIs(files, i) by { ShiftStep(files, i); }
    }
  }

  ghost predicate ShiftIs<T>(files: Files<T>, i: nat) {
    i > 0 ==> ShiftFrom(files, i) == ShiftFrom(MoveUp(files, i), i - 1)
  }

  lemma ShiftStep<T>(files: Files<T>, i: nat)
    ensures ShiftIs(files, i)
  {
  }

  lemma Top<T>(files: Files<T>, i: nat)
    ensures Between(files, i + 1, 1) == FileAt(files, i + 1) + Between(files, i, 1)
  {
  }

  lemma TopTwo<T>(files: Files<T>, i: nat)
    requires i > 0
    ensures Between(files, i + 1, 1) == FileAt(files, i + 1) + FileAt(files, i) + Between(files, i - 1, 1)
  {
    Top(files, i);
    assert Between(files, i, 1) == FileAt(files, i) + Between(files, i - 1, 1);
  }

  /** Shifting into a taken place loses at most the oldest file. */
  lemma ShiftLosesOldest<T>(files: Files<T>, i: nat)
    requires i > 0
    ensures Suffix(Between(ShiftFrom(files, i), i + 1, 1), Between(files, i + 1, 1))
    ensures 1 !in ShiftFrom(files, i)
  {
    if i in files { ShiftOver(files, i); } else { ShiftPast(files, i); }
  }

  lemma ShiftOver<T>(files: Files<T>, i: nat)
    requires i > 0 && i in files
    ensures Suffix(Between(ShiftFrom(files, i), i + 1, 1), Between(files, i + 1, 1))
    ensures Between(files, i + 1, 1) == FileAt(files, i + 1) + Between(ShiftFrom(files, i), i + 1, 1)
    ensures 1 !in ShiftFrom(files, i)
  {
    var free := files - {i + 1};
    assert MoveUp(free, i) == MoveUp(files, i);
    assert ShiftFrom(free, i) == ShiftFrom(files, i);
    assert SameBetween(files, free, i, 1) && FileAt(free, i + 1) == [];
    hide ShiftFrom, MoveUp, SameBetween, FileAt;
    ShiftLosesNothing(free, i);
    BetweenSame(files, free, i, 1);
    Top(files, i);
    Top(free, i);
    hide Between;
    DropFront(FileAt(files, i + 1), Between(files, i, 1));
  }

  lemma ShiftPast<T>(files: Files<T>, i: nat)
    requires i > 0 && i !in files
    ensures Between(ShiftFrom(files, i), i + 1, 1) == Between(files, i + 1, 1)
    ensures 1 !in ShiftFrom(files, i)
  {
    assert ShiftFrom(files, i) == ShiftFrom(files, i - 1);
    ShiftLosesNothing(files, i - 1);
    ShiftLeavesRest(files, i - 1, i + 1);
    hide ShiftFrom;
    Top(files, i);
    Top(ShiftFrom(files, i - 1), i);
    hide Between;
  }

  lemma KeptSplits<T>(files: Files<T>, keep: nat)
    requires keep > 0
    ensures Kept(files, keep) == Between(files, keep, 1) + FileAt(files, 0)
  {
    BetweenSplits(files, keep, 0, 0);
    assert Between(files, 0, 0) == FileAt(files, 0);
    hide FileAt, Between;
  }

  lemma NewestLast<T>(files: Files<T>, keep: nat)
    requires keep > 0
    ensures Between(files, keep, 1) == Between(files, keep, 2) + FileAt(files, 1)
  {
    BetweenSplits(files, keep, 1, 1);
    assert Between(files, 1, 1) == FileAt(files, 1) + Between(files, 0, 1) == FileAt(files, 1);
    hide FileAt, Between;
  }

  /** Moving the current file into place 1, once that is free. */
  lemma MoveCurrent<T>(shifted: Files<T>, keep: nat)
    requires keep > 0 && 1 !in shifted
    ensures Kept(MoveUp(shifted, 0), keep) == Between(shifted, keep, 1) + FileAt(shifted, 0)
    ensures 0 !in MoveUp(shifted, 0)
  {
    var rotated := MoveUp(shifted, 0);
    MovedFiles(shifted, keep);
    hide Kept, Between, FileAt, MoveUp;
    KeptSplits(rotated, keep);
    NewestLast(rotated, keep);
    NewestLast(shifted, keep);
    BetweenSame(shifted, rotated, keep, 2);
  }

  lemma MovedFiles<T>(shifted: Files<T>, keep: nat)
    requires 1 !in shifted
    ensures var rotated := MoveUp(shifted, 0);
            && SameBetween(shifted, rotated, keep, 2) && 0 !in rotated
            && FileAt(shifted, 1) == [] && FileAt(rotated, 0) == [] && FileAt(rotated, 1) == FileAt(shifted, 0)
  {
  }

  /** Rotation keeps the end of what was kept, and leaves the current place free. */
  lemma RotationKeepsSuffix<T>(files: Files<T>, keep: nat)
    ensures Suffix(Kept(Rotated(files, keep), keep), Kept(files, keep))
    ensures 0 !in Rotated(files, keep)
  {
    if keep == 0 {
      DropFront(FileAt(files, 0), []);
    } else if keep == 1 {
      RotateOne(files);
    } else {
      var shifted := ShiftFrom(files, keep - 1);
      ShiftLosesOldest(files, keep - 1);
      ShiftLeavesRest(files, keep - 1, 0);
      assert FileAt(shifted, 0) == FileAt(files, 0);
      MoveCurrent(shifted, keep);
      KeptSplits(files, keep);
      SuffixExtends(Between(shifted, keep, 1), Between(files, keep, 1), FileAt(files, 0));
      hide Between, FileAt, ShiftFrom, MoveUp, Kept, Suffix;
    }
  }

  lemma RotateOne<T>(files: Files<T>)
    ensures Suffix(Kept(Rotated(files, 1), 1), Kept(files, 1))
  {
    var rotated := Rotated(files, 1);
    assert Kept(files, 1) == FileAt(files, 1) + (FileAt(files, 0) + []);
    assert Kept(rotated, 1) == FileAt(rotated, 1) + (FileAt(rotated, 0) + []);
    DropFront(FileAt(files, 1), FileAt(files, 0));
    if 0 !in files { assert Suffix(Kept(rotated, 1), Kept(files, 1)); }
  }

  lemma SuffixExtends<T>(a: seq<T>, b: seq<T>, tail: seq<T>)
    requires Suffix(a, b)
    ensures Suffix(a + tail, b + tail)
  {
    assert (b + tail)[|b + tail| - |a + tail|..] == b[|b| - |a|..] + tail;
  }

  // ---- what is kept is the end of what was written ----

  ghost predicate InOrder(setup: Setup, s: State) {
    Suffix(Kept(s.trace.files, setup.keep), s.trace.log)
  }

  lemma AppendKept(files: Files<Record>, keep: nat, r: Record)
    requires 0 in files
    ensures Kept(files[0 := files[0] + [r]], keep) == Kept(files, keep) + [r]
  {
    var more := files[0 := files[0] + [r]];
    if keep > 0 {
      KeptSplits(files, keep);
      KeptSplits(more, keep);
      BetweenSame(files, more, keep, 1);
      hide Kept, Between;
      Joins(Between(files, keep, 1), files[0], [r]);
    }
  }

  lemma WroteInOrder(setup: Setup, s: State, r: Record)
    requires 0 in s.trace.files && InOrder(setup, s)
    ensures InOrder(setup, Wrote(setup, s, r))
  {
    AppendKept(s.trace.files, setup.keep, r);
    hide Kept, Suffix, Text;
    SuffixAppend(Kept(s.trace.files, setup.keep), s.trace.log, r);
  }

  lemma OpenedInOrder(setup: Setup, s: State)
    requires InOrder(setup, s)
    ensures InOrder(setup, Opened(setup, s))
  {
    BetweenSame(s.trace.files, Created(s.trace.files), setup.keep, 0);
    hide FileBytes, Texts, Between, Suffix;
  }

  lemma ReadyInOrder(setup: Setup, s: State, round: Round)
    requires (s.open ==> 0 in s.trace.files) && InOrder(setup, s)
    ensures InOrder(setup, Ready(setup, s, round))
  {
    var s1 := Opened(setup, s);
    OpenedInOrder(setup, s);
    if Overflows(setup, s1, round.Line(s1.noted)) {
      var files := Rotated(s1.trace.files, setup.keep);
      RotationKeepsSuffix(s1.trace.files, setup.keep);
      SuffixJoins(Kept(files, setup.keep), Kept(s1.trace.files, setup.keep), s1.trace.log);
      var s2 := s1.(open := false, noted := {}, trace := s1.trace.(files := files, ours := []));
      assert InOrder(setup, s2) by { hide Kept, Suffix, Rotated; }
      OpenedInOrder(setup, s2);
      hide Opened, Overflows, InOrder, Rotated;
    } else {
      hide Opened, Overflows, InOrder;
    }
  }

  lemma WroteRoundInOrder(setup: Setup, s: State, round: Round, sources: seq<Source>)
    requires (s.open ==> 0 in s.trace.files) && InOrder(setup, s)
    ensures InOrder(setup, WroteRound(setup, s, round, sources))
  {
    var s2 := Ready(setup, s, round);
    ReadyInOrder(setup, s, round);
    if s2.due { WroteInOrder(setup, s2, TableRecord(s2.table, round.written)); }
    var s3 := WroteTable(setup, s2, round.written);
    SameTrace(setup, if s2.due then Wrote(setup, s2, TableRecord(s2.table, round.written)) else s2, s3);
    hide InOrder, Ready, WroteTable;
    WroteInOrder(setup, s3, RoundRecord(round, s2.noted, sources, s2.trace.writer));
    SameTrace(setup, Wrote(setup, s3, RoundRecord(round, s2.noted, sources, s2.trace.writer)), WroteRound(setup, s, round, sources));
  }

  lemma SameTrace(setup: Setup, s: State, t: State)
    requires s.trace.files == t.trace.files && s.trace.log == t.trace.log
    ensures InOrder(setup, s) == InOrder(setup, t)
  {
  }

  lemma FlushedInOrder(setup: Setup, s: State, header: Option<Header>, lost: u64, now: u64)
    requires (s.open ==> 0 in s.trace.files) && InOrder(setup, s)
    ensures InOrder(setup, Flushed(setup, s, header, lost, now))
  {
    var taken := s.(batch := NO_BATCH, seenBefore := s.seen, seen := {}, trace := s.trace.(sources := []));
    SameTrace(setup, s, taken);
    hide InOrder, WroteRound;
    WroteRoundInOrder(setup, taken, Round(s.batch, header, s.table, lost, now), s.trace.sources);
  }

  lemma ReceivedTrace(setup: Setup, s: State, e: Event)
    ensures var r := Received(setup, s, e);
            && r.trace.files == s.trace.files && r.trace.log == s.trace.log && r.trace.ours == s.trace.ours
            && r.trace.rounds == s.trace.rounds && r.trace.writer == s.trace.writer && r.open == s.open && r.size == s.size && r.noted == s.noted
  {
    hide FromEntries;
  }

  lemma NextInOrder(setup: Setup, s: State, step: Step)
    requires (s.open ==> 0 in s.trace.files) && InOrder(setup, s)
    ensures InOrder(setup, Next(setup, s, step))
  {
    hide Received, Flushed, WroteRound;
    match step {
      case Take(event, lost, now) =>
        var r := Received(setup, s, event);
        ReceivedTrace(setup, s, event);
        SameTrace(setup, s, r);
        hide InOrder;
        match Closes(s, r, event) {
          case None =>
          case Some(header) => FlushedInOrder(setup, r, header, lost, now);
        }
      case Restart(None) =>
      case Restart(Some((lost, now))) =>
        if s.batch.Rows() > 0 { FlushedInOrder(setup, s, None, lost, now); }
    }
  }

  /** Over every run, the kept files read oldest to newest are the end of everything written: nothing
      but the oldest goes missing. */
  lemma {:induction false} KeptIsSuffix(setup: Setup, steps: seq<Step>)
    ensures Suffix(Kept(Run(setup, steps).trace.files, setup.keep), Run(setup, steps).trace.log)
  {
    if |steps| == 0 {
      NothingKept<Record>(setup.keep);
    } else {
      KeptIsSuffix(setup, steps[..|steps| - 1]);
      hide Kept, Suffix, Next;
      NextInOrder(setup, Run(setup, steps[..|steps| - 1]), steps[|steps| - 1]);
    }
  }

  lemma {:induction false} NothingKept<T>(keep: nat)
    ensures Kept<T>(map[], keep) == []
  {
    NothingBetween<T>(keep, 0);
  }

  lemma {:induction false} NothingBetween<T>(hi: nat, lo: nat)
    ensures Between<T>(map[], hi, lo) == []
    decreases hi
  {
    if hi > 0 && lo <= hi { NothingBetween<T>(hi - 1, lo); }
  }

  // ---- how many files there are ----

  /** No file is numbered past the last one kept. */
  ghost predicate InRange<T>(files: Files<T>, keep: nat) {
    forall i | i in files :: i <= keep
  }

  lemma {:induction false} ShiftInRange<T>(files: Files<T>, i: nat, keep: nat)
    requires i < keep && InRange(files, keep)
    ensures InRange(ShiftFrom(files, i), keep)
    decreases i
  {
    if i > 0 { ShiftInRange(MoveUp(files, i), i - 1, keep); }
  }

  lemma RotatedInRange<T>(files: Files<T>, keep: nat)
    requires InRange(files, keep)
    ensures InRange(Rotated(files, keep), keep)
  {
    hide ShiftFrom;
    if keep > 0 { ShiftInRange(files, keep - 1, keep); }
  }

  lemma WroteRoundInRange(setup: Setup, s: State, round: Round, sources: seq<Source>)
    requires (s.open ==> 0 in s.trace.files) && InRange(s.trace.files, setup.keep)
    ensures InRange(WroteRound(setup, s, round, sources).trace.files, setup.keep)
  {
    var s1 := Opened(setup, s);
    RotatedInRange(s1.trace.files, setup.keep);
    hide Rotated, FileBytes, Texts, Text, Overflows;
  }

  lemma NextInRange(setup: Setup, s: State, step: Step)
    requires (s.open ==> 0 in s.trace.files) && InRange(s.trace.files, setup.keep)
    ensures InRange(Next(setup, s, step).trace.files, setup.keep)
  {
    hide Received, WroteRound, InRange;
    match step {
      case Take(event, lost, now) =>
        var r := Received(setup, s, event);
        ReceivedTrace(setup, s, event);
        FlushedInRange(setup, r, lost, now);
      case Restart(_) =>
        FlushedInRange(setup, s, 0, 0);
        if step.shutdown.Some? { FlushedInRange(setup, s, step.shutdown.value.0, step.shutdown.value.1); }
    }
  }

  lemma FlushedInRange(setup: Setup, s: State, lost: u64, now: u64)
    requires (s.open ==> 0 in s.trace.files) && InRange(s.trace.files, setup.keep)
    ensures forall header :: InRange(Flushed(setup, s, header, lost, now).trace.files, setup.keep)
  {
    hide WroteRound, InRange;
    var taken := s.(batch := NO_BATCH, seenBefore := s.seen, seen := {}, trace := s.trace.(sources := []));
    forall header ensures InRange(Flushed(setup, s, header, lost, now).trace.files, setup.keep) {
      WroteRoundInRange(setup, taken, Round(s.batch, header, s.table, lost, now), s.trace.sources);
    }
  }

  /** Over every run the directory holds the current file and at most `keep` old ones. */
  lemma {:induction false} FilesAreLimited(setup: Setup, steps: seq<Step>)
    ensures forall i | i in Run(setup, steps).trace.files :: i <= setup.keep
  {
    if |steps| > 0 {
      FilesAreLimited(setup, steps[..|steps| - 1]);
      hide Next;
      NextInRange(setup, Run(setup, steps[..|steps| - 1]), steps[|steps| - 1]);
    }
  }

  // ---- how long a file gets ----

  function BytesIn(setup: Setup, rs: seq<Record>): nat { FileBytes(setup.length, Texts(rs)) }

  function LineBytes(setup: Setup, r: Record): nat { setup.length(Text(r)) + 1 }

  function LastTableRecord(rs: seq<Record>): Option<Record> {
    if |rs| == 0 then None
    else if rs[|rs| - 1].TableRecord? then Some(rs[|rs| - 1])
    else LastTableRecord(rs[..|rs| - 1])
  }

  /** A file ends in a round line, and is past its limit (or past that one line, if the line alone is
      longer) by no more than one table line, the last one in it. */
  ghost predicate Bounded(setup: Setup, rs: seq<Record>) {
    |rs| > 0 ==>
      && rs[|rs| - 1].RoundRecord?
      && BytesIn(setup, rs) <= Max(setup.rotateBytes, LineBytes(setup, rs[|rs| - 1]))
                             + match LastTableRecord(rs)
                               case None => 0
                               case Some(t) => LineBytes(setup, t)
  }

  ghost predicate Tracked(setup: Setup, s: State) {
    s.open ==> 0 in s.trace.files && s.size == BytesIn(setup, s.trace.files[0])
  }

  ghost predicate AllBounded(setup: Setup, files: Files<Record>) {
    forall i | i in files :: Bounded(setup, files[i])
  }

  lemma BytesMore(setup: Setup, rs: seq<Record>, r: Record)
    ensures BytesIn(setup, rs + [r]) == BytesIn(setup, rs) + LineBytes(setup, r)
  {
    TextsOne(rs, r);
    BytesOne(setup.length, Texts(rs), Text(r));
    hide FileBytes, Texts, Text;
  }

  lemma {:induction false} ShiftBounded(setup: Setup, files: Files<Record>, i: nat)
    requires AllBounded(setup, files)
    ensures AllBounded(setup, ShiftFrom(files, i))
    decreases i
  {
    hide Bounded;
    if i > 0 { ShiftBounded(setup, MoveUp(files, i), i - 1); }
  }

  lemma RotatedBounded(setup: Setup, files: Files<Record>, keep: nat)
    requires AllBounded(setup, files)
    ensures AllBounded(setup, Rotated(files, keep)) && 0 !in Rotated(files, keep)
  {
    RotationKeepsSuffix(files, keep);
    hide Bounded, ShiftFrom, Kept, Suffix;
    if keep > 0 { ShiftBounded(setup, files, keep - 1); }
  }

  lemma OpenedTracked(setup: Setup, s: State)
    requires AllBounded(setup, s.trace.files) && Tracked(setup, s)
    ensures var r := Opened(setup, s); r.open && AllBounded(setup, r.trace.files) && Tracked(setup, r)
    ensures !s.open && 0 !in s.trace.files ==> Opened(setup, s).size == 0
  {
    hide LineBytes, LastTableRecord;
  }

  /** The file a line goes to has room for it, or is empty. */
  lemma ReadyHasRoom(setup: Setup, s: State, round: Round)
    requires AllBounded(setup, s.trace.files) && Tracked(setup, s)
    ensures var r := Ready(setup, s, round);
            && r.open && AllBounded(setup, r.trace.files) && Tracked(setup, r)
            && (r.size == 0 || r.size + setup.length(round.Line(r.noted)) + 1 <= setup.rotateBytes)
  {
    var s1 := Opened(setup, s);
    OpenedTracked(setup, s);
    if Overflows(setup, s1, round.Line(s1.noted)) {
      var files := Rotated(s1.trace.files, setup.keep);
      RotatedBounded(setup, s1.trace.files, setup.keep);
      var s2 := s1.(open := false, noted := {}, trace := s1.trace.(files := files, ours := []));
      OpenedTracked(setup, s2);
      assert RotatedState(setup, s1) == Opened(setup, s2);
      hide Opened, AllBounded, Rotated, BytesIn, RotatedState;
    } else {
      hide Opened, AllBounded, BytesIn;
    }
  }

  lemma LastTableMore(rs: seq<Record>, r: Record)
    ensures LastTableRecord(rs + [r]) == if r.TableRecord? then Some(r) else LastTableRecord(rs)
  {
    assert (rs + [r])[..|rs|] == rs;
  }

  /** What a line, with the table before it when that is due, adds to a file. */
  function Grown(rs: seq<Record>, table: Option<Record>, line: Record): seq<Record> {
    (if table.Some? then rs + [table.value] else rs) + [line]
  }

  lemma GrownBytes(setup: Setup, rs: seq<Record>, table: Option<Record>, line: Record)
    ensures BytesIn(setup, Grown(rs, table, line))
            == BytesIn(setup, rs) + (if table.Some? then LineBytes(setup, table.value) else 0) + LineBytes(setup, line)
  {
    if table.Some? { BytesMore(setup, rs, table.value); }
    BytesMore(setup, if table.Some? then rs + [table.value] else rs, line);
    hide BytesIn, LineBytes;
  }

  lemma GrownTable(rs: seq<Record>, table: Option<Record>, line: Record)
    requires line.RoundRecord? && (table.Some? ==> table.value.TableRecord?)
    ensures LastTableRecord(Grown(rs, table, line)) == if table.Some? then table else LastTableRecord(rs)
  {
    if table.Some? { LastTableMore(rs, table.value); }
    LastTableMore(if table.Some? then rs + [table.value] else rs, line);
    hide LastTableRecord;
  }

  lemma GrownBounded(setup: Setup, rs: seq<Record>, table: Option<Record>, line: Record)
    requires line.RoundRecord? && (table.Some? ==> table.value.TableRecord?)
    requires BytesIn(setup, rs) == 0 || BytesIn(setup, rs) + LineBytes(setup, line) <= setup.rotateBytes
    ensures Bounded(setup, Grown(rs, table, line))
  {
    GrownBytes(setup, rs, table, line);
    GrownTable(rs, table, line);
    var more := Grown(rs, table, line);
    assert |more| > 0 && more[|more| - 1] == line;
    hide BytesIn, LineBytes, LastTableRecord, Grown;
  }

  lemma SetBounded(setup: Setup, files: Files<Record>, rs: seq<Record>)
    requires AllBounded(setup, files) && Bounded(setup, rs)
    ensures AllBounded(setup, files[0 := rs])
  {
    hide Bounded;
  }

  lemma WroteRoundBounded(setup: Setup, s: State, round: Round, sources: seq<Source>)
    requires AllBounded(setup, s.trace.files) && Tracked(setup, s)
    ensures var r := WroteRound(setup, s, round, sources); AllBounded(setup, r.trace.files) && Tracked(setup, r)
  {
    hide *;
    TrackedMeans(setup, s);
    var s2 := Ready(setup, s, round);
    var rs := s2.trace.files[0];
    var table := if s2.due then Some(TableRecord(s2.table, round.written)) else None;
    var line := RoundRecord(round, s2.noted, sources, s2.trace.writer);
    RoundBytes(setup, round, s2.noted, sources, s2.trace.writer);
    ReadyHasRoom(setup, s, round);
    TrackedMeans(setup, s2);
    GrownBounded(setup, rs, table, line);
    GrownBytes(setup, rs, table, line);
    SetBounded(setup, s2.trace.files, Grown(rs, table, line));
    WroteRoundFiles(setup, s, round, sources);
    TrackedMeans(setup, WroteRound(setup, s, round, sources));
  }

  lemma TrackedMeans(setup: Setup, s: State)
    ensures Tracked(setup, s) <==> (s.open ==> 0 in s.trace.files && s.size == BytesIn(setup, s.trace.files[0]))
  {
    hide BytesIn;
  }

  lemma RoundBytes(setup: Setup, round: Round, noted: set<Bytes>, sources: seq<Source>, author: nat)
    ensures LineBytes(setup, RoundRecord(round, noted, sources, author)) == setup.length(round.Line(noted)) + 1
  {
    TextOf(RoundRecord(round, noted, sources, author));
  }

  /** Where a round's lines go, and what they add to the tracked size. */
  lemma WroteRoundFiles(setup: Setup, s: State, round: Round, sources: seq<Source>)
    requires s.open ==> 0 in s.trace.files
    ensures var s2, r := Ready(setup, s, round), WroteRound(setup, s, round, sources);
            var rs, line := s2.trace.files[0], RoundRecord(round, s2.noted, sources, s2.trace.writer);
            var table := if s2.due then Some(TableRecord(s2.table, round.written)) else None;
            && r.open && r.trace.files == s2.trace.files[0 := Grown(rs, table, line)]
            && r.size == s2.size + (if table.Some? then LineBytes(setup, table.value) else 0) + LineBytes(setup, line)
  {
    hide Ready, Text;
  }

  lemma FlushedBounded(setup: Setup, s: State, header: Option<Header>, lost: u64, now: u64)
    requires AllBounded(setup, s.trace.files) && Tracked(setup, s)
    ensures var r := Flushed(setup, s, header, lost, now); AllBounded(setup, r.trace.files) && Tracked(setup, r)
  {
    hide WroteRound, AllBounded, BytesIn;
    var taken := s.(batch := NO_BATCH, seenBefore := s.seen, seen := {}, trace := s.trace.(sources := []));
    WroteRoundBounded(setup, taken, Round(s.batch, header, s.table, lost, now), s.trace.sources);
  }

  lemma NextBounded(setup: Setup, s: State, step: Step)
    requires AllBounded(setup, s.trace.files) && Tracked(setup, s)
    ensures var r := Next(setup, s, step); AllBounded(setup, r.trace.files) && Tracked(setup, r)
  {
    hide Received, Flushed, AllBounded, BytesIn;
    match step {
      case Take(event, lost, now) =>
        var r := Received(setup, s, event);
        ReceivedTrace(setup, s, event);
        match Closes(s, r, event) {
          case None =>
          case Some(header) => FlushedBounded(setup, r, header, lost, now);
        }
      case Restart(None) =>
      case Restart(Some((lost, now))) =>
        if s.batch.Rows() > 0 { FlushedBounded(setup, s, None, lost, now); }
    }
  }

  /** Over every run, the tracked size is the open file's length, and no file is past
      max(rotateBytes, its last line) by more than one table line. */
  lemma {:induction false} FilesStayBounded(setup: Setup, steps: seq<Step>)
    ensures AllBounded(setup, Run(setup, steps).trace.files) && Tracked(setup, Run(setup, steps))
  {
    if |steps| > 0 {
      FilesStayBounded(setup, steps[..|steps| - 1]);
      hide AllBounded, Tracked, Next;
      NextBounded(setup, Run(setup, steps[..|steps| - 1]), steps[|steps| - 1]);
    }
  }
}
