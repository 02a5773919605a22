// Where the recorder's rotation puts each file, and what leaves the directory: over every run nothing
// but whole files that stood at the last number kept, at most one with each event.
module RoundPlaces {
  import opened Bytes
  import opened RoundJson
  import opened TrustTables
  import opened RoundCodec
  import opened RoundWriter
  import opened RoundFiles
  import opened RoundRotation

  // ---- one rotation ----

  /** What stands at a number after each file below it moved one up. */
  ghost predicate MovedOneUp<T>(files: Files<T>, after: Files<T>, j: nat, top: nat)
    requires j > 0
  {
    if j - 1 in files then j in after && after[j] == files[j - 1]
    else if j == top then (j in after <==> j in files) && (j in files ==> after[j] == files[j])
    else j !in after
  }

  lemma {:induction false} ShiftMoves<T>(files: Files<T>, i: nat, j: nat)
    requires 1 < j <= i + 1
    ensures MovedOneUp(files, ShiftFrom(files, i), j, i + 1)
    decreases i
  {
    var g := MoveUp(files, i);
    if j <= i {
      ShiftMoves(g, i - 1, j);
    } else {
      ShiftLeavesRest(g, i - 1, j);
    }
  }

  lemma {:induction false} ShiftFreesFirst<T>(files: Files<T>, i: nat)
    requires i > 0
    ensures 1 !in ShiftFrom(files, i)
    decreases i
  {
    if i > 1 { ShiftFreesFirst(MoveUp(files, i), i - 1); }
  }

  /** A rotation leaves the current place free, and below the last number kept it moves every file one
      number up, into a place that holds nothing else; a file at the last number goes exactly if the
      one below it takes its place. Files past it are left alone. With nothing kept, the current file
      goes. */
  lemma RotationMoves<T>(files: Files<T>, keep: nat, j: nat)
    ensures var after := Rotated(files, keep);
            && 0 !in after
            && (0 < j <= keep ==> MovedOneUp(files, after, j, keep))
            && (j > keep && j > 0 ==> (j in after <==> j in files) && (j in files ==> after[j] == files[j]))
  {
    if keep > 0 {
      ShiftLeavesRest(files, keep - 1, 0);
      if 1 < j <= keep { ShiftMoves(files, keep - 1, j); }
      if j > keep { ShiftLeavesRest(files, keep - 1, j); }
      if keep > 1 { ShiftFreesFirst(files, keep - 1); }
    }
  }

  /** The file a rotation drops: the one at the last number, if another takes its place. */
  function Dropped<T>(files: Files<T>, keep: nat): seq<T> {
    if keep == 0 || keep - 1 in files then FileAt(files, keep) else []
  }

  /** What was kept is what a rotation drops, and then what it keeps. */
  lemma RotationDrops<T>(files: Files<T>, keep: nat)
    ensures Kept(files, keep) == Dropped(files, keep) + Kept(Rotated(files, keep), keep)
  {
    if keep == 0 {
      assert FileAt(Rotated(files, 0), 0) == [];
    } else if keep == 1 {
      DropOne(files);
    } else {
      var i := keep - 1;
      var shifted := ShiftFrom(files, i);
      if i in files { ShiftOver(files, i); } else { ShiftPast(files, i); }
      ShiftLeavesRest(files, i, 0);
      assert FileAt(shifted, 0) == FileAt(files, 0);
      assert Rotated(files, keep) == MoveUp(shifted, 0);
      MoveCurrent(shifted, keep);
      KeptSplits(files, keep);
      hide Between, FileAt, ShiftFrom, MoveUp, Kept, Rotated, Suffix;
      Joins(Dropped(files, keep), Between(shifted, keep, 1), FileAt(files, 0));
      NothingBefore(Between(shifted, keep, 1));
    }
  }

  lemma NothingBefore<T>(a: seq<T>)
    ensures [] + a == a
  {
  }

  lemma DropOne<T>(files: Files<T>)
    ensures Kept(files, 1) == Dropped(files, 1) + Kept(Rotated(files, 1), 1)
  {
    var rotated := Rotated(files, 1);
    assert Kept(files, 1) == FileAt(files, 1) + FileAt(files, 0);
    assert Kept(rotated, 1) == FileAt(rotated, 1) + FileAt(rotated, 0);
    NothingBefore(FileAt(files, 1));
  }

  // ---- when a line rotates ----

  /** A line that fits goes to the file that is open; any other is the first line of a fresh file, and
      with old files kept the file it would not fit in is the newest of them. */
  lemma LineFindsItsFile(setup: Setup, s: State, round: Round)
    requires s.open && 0 in s.trace.files
    ensures var r, bytes := Ready(setup, s, round), setup.length(round.Line(s.noted)) + 1;
            if s.size == 0 || s.size + bytes <= setup.rotateBytes then r == s
            else
              && r.trace.files[0] == [] && r.size == 0 && r.due && r.noted == {}
              && (setup.keep > 0 ==> 1 in r.trace.files && r.trace.files[1] == s.trace.files[0])
  {
    RotationMoves(s.trace.files, setup.keep, 1);
    hide Rotated;
  }

  // ---- what leaves the directory, over every run ----

  /** Everything written is what has left, and then what is kept. */
  ghost predicate Splits(setup: Setup, s: State, left: seq<Record>) {
    s.trace.log == left + Kept(s.trace.files, setup.keep)
  }

  /** The same has left, or one more file: the one that stood at the last number. */
  ghost predicate OneMoreLeft(setup: Setup, s: State, r: State, left: seq<Record>) {
    Splits(setup, r, left) || Splits(setup, r, left + FileAt(s.trace.files, setup.keep))
  }

  lemma AppendSplits(setup: Setup, s: State, r: Record, left: seq<Record>)
    requires 0 in s.trace.files && Splits(setup, s, left)
    ensures Splits(setup, Wrote(setup, s, r), left)
  {
    AppendKept(s.trace.files, setup.keep, r);
    hide Kept, Text;
    Joins(left, Kept(s.trace.files, setup.keep), [r]);
  }

  lemma OpenSplits(setup: Setup, s: State, left: seq<Record>)
    requires Splits(setup, s, left)
    ensures Splits(setup, Opened(setup, s), left)
    ensures setup.keep > 0 ==> FileAt(Opened(setup, s).trace.files, setup.keep) == FileAt(s.trace.files, setup.keep)
    ensures FileAt(Opened(setup, s).trace.files, 0) == FileAt(s.trace.files, 0)
  {
    BetweenSame(s.trace.files, Created(s.trace.files), setup.keep, 0);
    hide FileBytes, Texts, Between;
  }

  lemma RotateSplits(files: Files<Record>, keep: nat, log: seq<Record>, left: seq<Record>)
    requires log == left + Kept(files, keep)
    ensures log == left + Dropped(files, keep) + Kept(Rotated(files, keep), keep)
  {
    RotationDrops(files, keep);
    hide Kept, Rotated, Dropped;
    Joins(left, Dropped(files, keep), Kept(Rotated(files, keep), keep));
  }

  lemma ReadySplits(setup: Setup, s: State, round: Round, left: seq<Record>)
    requires (s.open ==> 0 in s.trace.files) && Splits(setup, s, left)
    ensures OneMoreLeft(setup, s, Ready(setup, s, round), left)
  {
    var s1 := Opened(setup, s);
    OpenSplits(setup, s, left);
    if Overflows(setup, s1, round.Line(s1.noted)) {
      var files := Rotated(s1.trace.files, setup.keep);
      var s2 := s1.(open := false, noted := {}, trace := s1.trace.(files := files, ours := []));
      RotateSplits(s1.trace.files, setup.keep, s1.trace.log, left);
      var more := left + Dropped(s1.trace.files, setup.keep);
      DroppedIs(s1.trace.files, setup.keep, left);
      hide Kept, Rotated, Dropped, FileBytes, Texts;
      OpenSplits(setup, s2, more);
      assert RotatedState(setup, s1) == Opened(setup, s2);
      hide Opened, Overflows, RotatedState, Splits, FileAt;
    } else {
      hide Opened, Overflows, Splits, FileAt;
    }
  }

  lemma DroppedIs(files: Files<Record>, keep: nat, left: seq<Record>)
    ensures left + Dropped(files, keep) == left || left + Dropped(files, keep) == left + FileAt(files, keep)
  {
  }

  lemma WroteRoundSplits(setup: Setup, s: State, round: Round, sources: seq<Source>, left: seq<Record>)
    requires (s.open ==> 0 in s.trace.files) && Splits(setup, s, left)
    ensures OneMoreLeft(setup, s, WroteRound(setup, s, round, sources), left)
  {
    ReadySplits(setup, s, round, left);
    var s2 := Ready(setup, s, round);
    var more := if Splits(setup, s2, left) then left else left + FileAt(s.trace.files, setup.keep);
    assert Splits(setup, s2, more);
    hide Ready, FileAt;
    LinesSplit(setup, s2, round, sources, more);
    SplitsSame(setup, WroteLines(setup, s2, round, sources), WroteRound(setup, s, round, sources), more);
    hide Splits;
  }

  /** The lines of a round in a file made ready for them. */
  function WroteLines(setup: Setup, s2: State, round: Round, sources: seq<Source>): State
    requires 0 in s2.trace.files
  {
    Wrote(setup, WroteTable(setup, s2, round.written), RoundRecord(round, s2.noted, sources, s2.trace.writer))
  }

  lemma LinesSplit(setup: Setup, s2: State, round: Round, sources: seq<Source>, left: seq<Record>)
    requires 0 in s2.trace.files && Splits(setup, s2, left)
    ensures Splits(setup, WroteLines(setup, s2, round, sources), left)
  {
    var s3 := WroteTable(setup, s2, round.written);
    if s2.due {
      AppendSplits(setup, s2, TableRecord(s2.table, round.written), left);
      SplitsSame(setup, Wrote(setup, s2, TableRecord(s2.table, round.written)), s3, left);
    }
    hide Splits, WroteTable;
    AppendSplits(setup, s3, RoundRecord(round, s2.noted, sources, s2.trace.writer), left);
  }

  lemma SplitsSame(setup: Setup, s: State, t: State, left: seq<Record>)
    requires s.trace.files == t.trace.files && s.trace.log == t.trace.log
    ensures Splits(setup, s, left) == Splits(setup, t, left)
  {
  }

  lemma FlushedSplits(setup: Setup, s: State, header: Option<Header>, lost: u64, now: u64, left: seq<Record>)
    requires (s.open ==> 0 in s.trace.files) && Splits(setup, s, left)
    ensures OneMoreLeft(setup, s, Flushed(setup, s, header, lost, now), left)
  {
    var taken := s.(batch := NO_BATCH, seenBefore := s.seen, seen := {}, trace := s.trace.(sources := []));
    SplitsSame(setup, s, taken, left);
    hide Splits, WroteRound;
    WroteRoundSplits(setup, taken, Round(s.batch, header, s.table, lost, now), s.trace.sources, left);
  }

  /** One event of a run. */
  lemma NextSplits(setup: Setup, s: State, step: Step, left: seq<Record>)
    requires (s.open ==> 0 in s.trace.files) && Splits(setup, s, left)
    ensures OneMoreLeft(setup, s, Next(setup, s, step), left)
  {
    hide Received, Flushed, Kept;
    match step {
      case Take(event, lost, now) =>
        var r := Received(setup, s, event);
        ReceivedTrace(setup, s, event);
        SplitsSame(setup, s, r, left);
        hide Splits;
        match Closes(s, r, event) {
          case None =>
          case Some(header) => FlushedSplits(setup, r, header, lost, now, left);
        }
      case Restart(None) =>
      case Restart(Some((lost, now))) =>
        if s.batch.Rows() > 0 { FlushedSplits(setup, s, None, lost, now, left); }
    }
  }

  function Joined<T>(parts: seq<seq<T>>): seq<T> {
    if |parts| == 0 then [] else Joined(parts[..|parts| - 1]) + parts[|parts| - 1]
  }

  /** Which files have left: the n-th with step at[n], when it stood at the last number. */
  ghost predicate FilesLeft(setup: Setup, steps: seq<Step>, gone: seq<seq<Record>>, at: seq<nat>) {
    && |gone| == |at|
    && (forall n | 0 <= n < |at| ::
          at[n] < |steps| && gone[n] == FileAt(Run(setup, steps[..at[n]]).trace.files, setup.keep))
    && (forall n | 0 < n < |at| :: at[n - 1] < at[n])
  }

  lemma MoreSteps(setup: Setup, steps: seq<Step>, step: Step, gone: seq<seq<Record>>, at: seq<nat>)
    requires FilesLeft(setup, steps, gone, at)
    ensures FilesLeft(setup, steps + [step], gone, at)
    ensures FilesLeft(setup, steps + [step], gone + [FileAt(Run(setup, steps).trace.files, setup.keep)], at + [|steps|])
  {
    hide Run, FileAt;
    var more := steps + [step];
    assert forall k | 0 <= k <= |steps| :: more[..k] == steps[..k];
    assert steps[..|steps|] == steps;
  }

  lemma JoinedOne<T>(parts: seq<seq<T>>, part: seq<T>)
    ensures Joined(parts + [part]) == Joined(parts) + part
  {
    assert (parts + [part])[..|parts|] == parts;
  }

  /** Over every run, everything written is the files that have left, whole and one after another, and
      then the kept files. Each of those stood at the last number kept when it left, and no event of
      the run makes more than one leave. */
  lemma {:induction false} OnlyOldestLeave(setup: Setup, steps: seq<Step>) returns (gone: seq<seq<Record>>, at: seq<nat>)
    ensures Run(setup, steps).trace.log == Joined(gone) + Kept(Run(setup, steps).trace.files, setup.keep)
    ensures FilesLeft(setup, steps, gone, at)
  {
    if |steps| == 0 {
      gone, at := [], [];
      NothingKept<Record>(setup.keep);
    } else {
      var init, step := steps[..|steps| - 1], steps[|steps| - 1];
      gone, at := OnlyOldestLeave(setup, init);
      assert steps == init + [step];
      var s, r := Run(setup, init), Run(setup, steps);
      assert r == Next(setup, s, step);
      hide Run, Next, Kept, FileAt, FilesLeft;
      NextSplits(setup, s, step, Joined(gone));
      MoreSteps(setup, init, step, gone, at);
      if !Splits(setup, r, Joined(gone)) {
        var last := FileAt(s.trace.files, setup.keep);
        JoinedOne(gone, last);
        gone, at := gone + [last], at + [|init|];
      }
    }
  }
}
