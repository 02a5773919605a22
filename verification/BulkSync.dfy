// The bulk state sync of crates/xrpl-node/src/bulk_sync.rs: four range workers paging through a
// server's state into one channel, and the builder behind it.
module BulkSync {
  import opened Bytes

  const NUM_WORKERS: nat := 4
  const RANGE: nat := 64
  const MAX_ERRORS: nat := 50
  const WRITE_BATCH: nat := 10_000

  type Entry = (Hash, Bytes)

  // ---- the server ----

  /** A server's whole state, in key order. */
  ghost predicate Sorted(server: seq<Entry>) {
    forall i, j | 0 <= i < j < |server| :: Less(server[i].0, server[j].0)
  }

  datatype Reply = SendError | ParseError | Page(entries: seq<Entry>, marker: Option<Hash>)

  /** Whether an entry lies at or past a marker; servers differ on a marker that is itself a key. */
  predicate Resumes(key: Hash, marker: Option<Hash>, inclusive: bool) {
    marker.None? || Less(marker.value, key) || (inclusive && marker.value == key)
  }

  /** The index a marker resumes at. */
  function Position(server: seq<Entry>, marker: Option<Hash>, inclusive: bool): (p: nat)
    ensures p <= |server|
    ensures forall i | 0 <= i < p :: !Resumes(server[i].0, marker, inclusive)
    ensures p < |server| ==> Resumes(server[p].0, marker, inclusive)
  {
    if |server| == 0 || Resumes(server[0].0, marker, inclusive) then 0
    else 1 + Position(server[1..], marker, inclusive)
  }

  /** A page holds the entries from its marker on, and names where the next one starts, if any. */
  ghost predicate TruePage(server: seq<Entry>, inclusive: bool, marker: Option<Hash>, reply: Reply) {
    reply.Page? ==>
      var p := Position(server, marker, inclusive);
      var q := p + |reply.entries|;
      && q <= |server| && reply.entries == server[p..q]
      && match reply.marker
         case None => q == |server|
         case Some(next) => |reply.entries| > 0 && Position(server, Some(next), inclusive) == q
  }

  /** Every parsed reply, whenever it is asked for, is a true page. */
  ghost predicate Truthful(fetch: (Option<Hash>, nat) -> Reply, server: seq<Entry>, inclusive: bool) {
    forall marker, attempt :: TruePage(server, inclusive, marker, fetch(marker, attempt))
  }

  // ---- the workers ----

  function StartKey(i: nat): Hash
    requires i < NUM_WORKERS
  {
    [(i * RANGE) as byte, 0, 0, 0, 0, 0, 0, 0, 0, 0, 0, 0, 0, 0, 0, 0, 0, 0, 0, 0, 0, 0, 0, 0, 0, 0, 0, 0, 0, 0, 0, 0]
  }

  function StartMarker(i: nat): Option<Hash>
    requires i < NUM_WORKERS
  {
    if i == 0 then None else Some(StartKey(i))
  }

  function EndByte(i: nat): byte
    requires i < NUM_WORKERS
  {
    if i == NUM_WORKERS - 1 then 0xFF else (i + 1) * RANGE - 1
  }

  /** The first index past the entries whose first byte is at most b. */
  function Past(server: seq<Entry>, b: byte): (p: nat)
    ensures p <= |server|
    ensures forall i | 0 <= i < p :: server[i].0[0] <= b
    ensures p < |server| ==> server[p].0[0] > b
  {
    if |server| == 0 || server[0].0[0] > b then 0 else 1 + Past(server[1..], b)
  }

  lemma FirstBytesAscend(server: seq<Entry>, i: nat, j: nat)
    requires Sorted(server) && i <= j < |server|
    ensures server[i].0[0] <= server[j].0[0]
  {
    if i < j { assert Less(server[i].0, server[j].0); }
  }

  /** The slice a worker is to collect. */
  ghost function Share(server: seq<Entry>, inclusive: bool, i: nat): seq<Entry>
    requires i < NUM_WORKERS
  {
    var lo, hi := Position(server, StartMarker(i), inclusive), Past(server, EndByte(i));
    if lo <= hi then server[lo..hi] else []
  }

  function Flat(batches: seq<seq<Entry>>): seq<Entry> {
    if |batches| == 0 then [] else Flat(batches[..|batches| - 1]) + batches[|batches| - 1]
  }

  /** The entries of a page before the first past the end byte. */
  method Keep(entries: seq<Entry>, isLast: bool, end: byte) returns (page: seq<Entry>, pastEnd: bool)
    ensures |page| <= |entries| && page == entries[..|page|]
    ensures !isLast ==> forall i | 0 <= i < |page| :: page[i].0[0] <= end
    ensures pastEnd ==> !isLast && |page| < |entries| && entries[|page|].0[0] > end
    ensures !pastEnd ==> page == entries
  {
    page, pastEnd := [], false;
    for j := 0 to |entries|
      invariant page == entries[..j]
      invariant !isLast ==> forall i | 0 <= i < j :: entries[i].0[0] <= end
    {
      if !isLast && entries[j].0[0] > end { return entries[..j], true; }
      page := page + [entries[j]];
    }
  }

  /** What a worker has sent when it stands at index pos. */
  ghost predicate Sent(server: seq<Entry>, inclusive: bool, i: nat, pos: nat, batches: seq<seq<Entry>>)
    requires i < NUM_WORKERS
  {
    var lo := Position(server, StartMarker(i), inclusive);
    && lo <= pos <= |server| && Flat(batches) == server[lo..pos]
    && (forall j | lo <= j < pos :: server[j].0[0] <= EndByte(i))
  }

  lemma SendPage(server: seq<Entry>, inclusive: bool, i: nat, pos: nat, batches: seq<seq<Entry>>, page: seq<Entry>)
    requires i < NUM_WORKERS && Sent(server, inclusive, i, pos, batches)
    requires pos + |page| <= |server| && page == server[pos..pos + |page|]
    requires forall k | 0 <= k < |page| :: page[k].0[0] <= EndByte(i)
    ensures Sent(server, inclusive, i, pos + |page|, if page == [] then batches else batches + [page])
  {
    hide Position, StartMarker, EndByte, Flat;
    SliceJoin(server, Position(server, StartMarker(i), inclusive), pos, page);
    FlatAppend(batches, page);
  }

  lemma SliceJoin(server: seq<Entry>, lo: nat, pos: nat, page: seq<Entry>)
    requires lo <= pos && pos + |page| <= |server| && page == server[pos..pos + |page|]
    ensures server[lo..pos] + page == server[lo..pos + |page|]
    ensures forall k | pos <= k < pos + |page| :: server[k] == page[k - pos]
  {
  }

  lemma FlatAppend(batches: seq<seq<Entry>>, page: seq<Entry>)
    ensures Flat(batches + [page]) == Flat(batches) + page
  {
    assert (batches + [page])[..|batches|] == batches;
  }

  /** One parsed reply: what is in range is sent, and the loop ends past the range or with the
      last page. */
  method TakePage(i: nat, batches: seq<seq<Entry>>, entries: seq<Entry>, next: Option<Hash>,
                  ghost server: seq<Entry>, ghost inclusive: bool, ghost marker: Option<Hash>)
    returns (sent: seq<seq<Entry>>, done: bool)
    requires i < NUM_WORKERS && Sorted(server) && TruePage(server, inclusive, marker, Page(entries, next))
    requires Sent(server, inclusive, i, Position(server, marker, inclusive), batches)
    ensures done <==> !GoesOn(i, Page(entries, next))
    ensures done ==> Flat(sent) == Share(server, inclusive, i)
    ensures !done ==>
              && next.Some? && Position(server, next, inclusive) > Position(server, marker, inclusive)
              && Sent(server, inclusive, i, Position(server, next, inclusive), sent)
  {
    hide *;
    var page, pastEnd := Keep(entries, i == NUM_WORKERS - 1, EndByte(i));
    PageFacts(server, inclusive, marker, entries, next);
    ghost var pos := Position(server, marker, inclusive);
    PrefixOf(server, pos, entries, page);
    WithinRange(i, page);
    SendPage(server, inclusive, i, pos, batches, page);
    sent := if page == [] then batches else batches + [page];
    done := pastEnd || next.None?;
    EndsWith(i, entries, next, page, pastEnd);
    if done { ShareIs(server, inclusive, i, pos + |page|, sent); }
  }

  lemma EndsWith(i: nat, entries: seq<Entry>, next: Option<Hash>, page: seq<Entry>, pastEnd: bool)
    requires i < NUM_WORKERS && (forall k | 0 <= k < |page| :: page[k].0[0] <= EndByte(i))
    requires pastEnd ==> i != NUM_WORKERS - 1 && |page| < |entries| && entries[|page|].0[0] > EndByte(i)
    requires !pastEnd ==> page == entries
    ensures pastEnd || next.None? <==> !GoesOn(i, Page(entries, next))
  {
    hide EndByte;
  }

  lemma PageFacts(server: seq<Entry>, inclusive: bool, marker: Option<Hash>, entries: seq<Entry>, next: Option<Hash>)
    requires TruePage(server, inclusive, marker, Page(entries, next))
    ensures var p := Position(server, marker, inclusive);
            && p + |entries| <= |server| && entries == server[p..p + |entries|]
            && (next.None? ==> p + |entries| == |server|)
            && (next.Some? ==> |entries| > 0 && Position(server, next, inclusive) == p + |entries|)
  {
    hide Position;
  }

  lemma WithinRange(i: nat, page: seq<Entry>)
    requires i < NUM_WORKERS
    requires i != NUM_WORKERS - 1 ==> forall k | 0 <= k < |page| :: page[k].0[0] <= EndByte(i)
    ensures forall k | 0 <= k < |page| :: page[k].0[0] <= EndByte(i)
  {
  }

  // ---- what a worker asks, and when it gives up ----

  /** Whether an entry past the worker's range ends its loop. */
  predicate PastEnd(i: nat, entries: seq<Entry>)
    requires i < NUM_WORKERS
  {
    i != NUM_WORKERS - 1 && exists k | 0 <= k < |entries| :: entries[k].0[0] > EndByte(i)
  }

  /** Whether a page leads to another one. */
  predicate GoesOn(i: nat, reply: Reply)
    requires i < NUM_WORKERS
  {
    reply.Page? && reply.marker.Some? && !PastEnd(i, reply.entries)
  }

  /** What is asked after a reply: the same again after an error, the next page's marker otherwise. */
  predicate Asks(i: nat, reply: Reply, marker: Option<Hash>, next: Option<Hash>)
    requires i < NUM_WORKERS
  {
    if reply.Page? then GoesOn(i, reply) && next == reply.marker else next == marker
  }

  /** The markers a worker asks for, one after another, for as long as nothing ends its loop. */
  ghost predicate Chain(i: nat, fetch: (Option<Hash>, nat) -> Reply, asked: seq<Option<Hash>>)
    requires i < NUM_WORKERS
  {
    && |asked| > 0 && asked[0] == StartMarker(i)
    && forall n | 0 < n < |asked| :: Asks(i, fetch(asked[n - 1], n - 1), asked[n - 1], asked[n])
  }

  /** How many of these questions had an error for a reply. */
  function Errors(fetch: (Option<Hash>, nat) -> Reply, asked: seq<Option<Hash>>): nat {
    if |asked| == 0 then 0
    else Errors(fetch, asked[..|asked| - 1]) + if fetch(asked[|asked| - 1], |asked| - 1).Page? then 0 else 1
  }

  /** Before its last page a worker of this server meets more than 50 errors. */
  ghost predicate GivesUp(i: nat, fetch: (Option<Hash>, nat) -> Reply)
    requires i < NUM_WORKERS
  {
    exists asked :: Chain(i, fetch, asked) && Errors(fetch, asked) > 50
  }

  lemma {:induction false} ChainUnique(i: nat, fetch: (Option<Hash>, nat) -> Reply, a: seq<Option<Hash>>, b: seq<Option<Hash>>, n: nat)
    requires i < NUM_WORKERS && Chain(i, fetch, a) && Chain(i, fetch, b) && n <= |a| && n <= |b|
    ensures a[..n] == b[..n]
  {
    hide StartMarker, PastEnd;
    if n > 1 {
      ChainUnique(i, fetch, a, b, n - 1);
      assert a[n - 2] == a[..n - 1][n - 2] && b[n - 2] == b[..n - 1][n - 2];
      assert a[..n] == a[..n - 1] + [a[n - 1]] && b[..n] == b[..n - 1] + [b[n - 1]];
    }
  }

  lemma {:induction false} ErrorsGrow(fetch: (Option<Hash>, nat) -> Reply, asked: seq<Option<Hash>>, n: nat)
    requires n <= |asked|
    ensures Errors(fetch, asked[..n]) <= Errors(fetch, asked)
  {
    if n < |asked| {
      ErrorsGrow(fetch, asked[..|asked| - 1], n);
      assert asked[..|asked| - 1][..n] == asked[..n];
    } else {
      assert asked[..n] == asked;
    }
  }

  /** A worker that came to its end within the allowance never gives up. */
  lemma EndedInTime(i: nat, fetch: (Option<Hash>, nat) -> Reply, asked: seq<Option<Hash>>)
    requires i < NUM_WORKERS && Chain(i, fetch, asked) && Errors(fetch, asked) <= MAX_ERRORS
    requires var reply := fetch(asked[|asked| - 1], |asked| - 1); reply.Page? && !GoesOn(i, reply)
    ensures !GivesUp(i, fetch)
  {
    hide Errors, PastEnd, StartMarker, GoesOn;
    forall b | Chain(i, fetch, b) ensures Errors(fetch, b) <= MAX_ERRORS {
      NoLonger(i, fetch, asked, b);
      ChainUnique(i, fetch, asked, b, |b|);
      assert b[..|b|] == b;
      ErrorsGrow(fetch, asked, |b|);
    }
  }

  lemma NoLonger(i: nat, fetch: (Option<Hash>, nat) -> Reply, asked: seq<Option<Hash>>, b: seq<Option<Hash>>)
    requires i < NUM_WORKERS && Chain(i, fetch, asked) && Chain(i, fetch, b)
    requires var reply := fetch(asked[|asked| - 1], |asked| - 1); reply.Page? && !GoesOn(i, reply)
    ensures |b| <= |asked|
  {
    hide GoesOn, StartMarker, PastEnd;
    var n := |asked|;
    if |b| > n {
      ChainUnique(i, fetch, asked, b, n);
      SameLast(asked, b, n);
      ChainAsks(i, fetch, b, n);
    }
  }

  lemma SameLast<T>(a: seq<T>, b: seq<T>, n: nat)
    requires 0 < n <= |a| && n <= |b| && a[..n] == b[..n]
    ensures a[n - 1] == b[n - 1]
  {
    assert a[n - 1] == a[..n][n - 1];
  }

  lemma ChainAsks(i: nat, fetch: (Option<Hash>, nat) -> Reply, asked: seq<Option<Hash>>, n: nat)
    requires i < NUM_WORKERS && Chain(i, fetch, asked) && 0 < n < |asked|
    ensures Asks(i, fetch(asked[n - 1], n - 1), asked[n - 1], asked[n])
  {
  }

  /** A server that answers every question is never given up on. */
  lemma AnsweredInFull(i: nat, fetch: (Option<Hash>, nat) -> Reply)
    requires i < NUM_WORKERS && forall marker, attempt :: fetch(marker, attempt).Page?
    ensures !GivesUp(i, fetch)
  {
    forall asked ensures Errors(fetch, asked) == 0 { NoErrors(fetch, asked); }
  }

  lemma {:induction false} NoErrors(fetch: (Option<Hash>, nat) -> Reply, asked: seq<Option<Hash>>)
    requires forall marker, attempt :: fetch(marker, attempt).Page?
    ensures Errors(fetch, asked) == 0
  {
    if |asked| > 0 { NoErrors(fetch, asked[..|asked| - 1]); }
  }

  /** A server that only ever fails is given up on. */
  lemma NeverAnswered(i: nat, fetch: (Option<Hash>, nat) -> Reply)
    requires i < NUM_WORKERS && forall marker, attempt :: !fetch(marker, attempt).Page?
    ensures GivesUp(i, fetch)
  {
    var asked := seq(MAX_ERRORS + 1, _ => StartMarker(i));
    OnlyErrors(fetch, asked);
    assert Chain(i, fetch, asked);
  }

  lemma {:induction false} OnlyErrors(fetch: (Option<Hash>, nat) -> Reply, asked: seq<Option<Hash>>)
    requires forall marker, attempt :: !fetch(marker, attempt).Page?
    ensures Errors(fetch, asked) == |asked|
  {
    if |asked| > 0 { OnlyErrors(fetch, asked[..|asked| - 1]); }
  }

  /** Where a worker's loop stands: about to ask for a marker, with so many errors behind it. */
  ghost predicate Asking(i: nat, fetch: (Option<Hash>, nat) -> Reply, asked: seq<Option<Hash>>, marker: Option<Hash>, tries: nat, errors: nat)
    requires i < NUM_WORKERS
  {
    && Chain(i, fetch, asked) && |asked| == tries + 1 && asked[tries] == marker
    && errors == Errors(fetch, asked[..tries]) <= MAX_ERRORS
  }

  lemma FirstAsked(i: nat, fetch: (Option<Hash>, nat) -> Reply)
    requires i < NUM_WORKERS
    ensures Asking(i, fetch, [StartMarker(i)], StartMarker(i), 0, 0)
  {
  }

  lemma AskedNext(i: nat, fetch: (Option<Hash>, nat) -> Reply, asked: seq<Option<Hash>>, marker: Option<Hash>, tries: nat, errors: nat,
                  next: Option<Hash>)
    requires i < NUM_WORKERS && Asking(i, fetch, asked, marker, tries, errors)
    requires !fetch(marker, tries).Page? ==> next == marker && errors < MAX_ERRORS
    requires fetch(marker, tries).Page? ==> GoesOn(i, fetch(marker, tries)) && next == fetch(marker, tries).marker
    ensures Asking(i, fetch, asked + [next], next, tries + 1, if fetch(marker, tries).Page? then errors else errors + 1)
  {
    hide StartMarker, GoesOn;
    assert (asked + [next])[..tries + 1] == asked;
  }

  lemma AskedTooOften(i: nat, fetch: (Option<Hash>, nat) -> Reply, asked: seq<Option<Hash>>, marker: Option<Hash>, tries: nat, errors: nat)
    requires i < NUM_WORKERS && Asking(i, fetch, asked, marker, tries, errors)
    requires !fetch(marker, tries).Page? && errors == MAX_ERRORS
    ensures GivesUp(i, fetch)
  {
    hide Chain;
  }

  lemma AskedLast(i: nat, fetch: (Option<Hash>, nat) -> Reply, asked: seq<Option<Hash>>, marker: Option<Hash>, tries: nat, errors: nat)
    requires i < NUM_WORKERS && Asking(i, fetch, asked, marker, tries, errors)
    requires fetch(marker, tries).Page? && !GoesOn(i, fetch(marker, tries))
    ensures !GivesUp(i, fetch)
  {
    hide Chain, GivesUp, GoesOn;
    EndedInTime(i, fetch, asked);
  }

  /** What is sent on the way is a prefix of the share. */
  lemma SentIsPrefix(server: seq<Entry>, inclusive: bool, i: nat, pos: nat, batches: seq<seq<Entry>>)
    requires i < NUM_WORKERS && Sorted(server) && Sent(server, inclusive, i, pos, batches)
    ensures Flat(batches) <= Share(server, inclusive, i)
  {
    hide Position, StartMarker, EndByte, Flat;
    var lo := Position(server, StartMarker(i), inclusive);
    if lo < pos {
      forall j | 0 <= j < pos ensures server[j].0[0] <= EndByte(i) {
        if j < lo { FirstBytesAscend(server, j, lo); }
      }
      PastBeyond(server, EndByte(i), pos - 1);
      var hi := Past(server, EndByte(i));
      assert server[lo..hi][..pos - lo] == server[lo..pos];
    }
  }

  /** One worker's paging loop. It aborts exactly if the server makes it meet more than 50 errors;
      otherwise what it sends is exactly its share, in order, whatever the page sizes. */
  method Collect(i: nat, fetch: (Option<Hash>, nat) -> Reply, ghost server: seq<Entry>, ghost inclusive: bool)
    returns (batches: seq<seq<Entry>>, aborted: bool)
    requires i < NUM_WORKERS && Sorted(server) && Truthful(fetch, server, inclusive)
    ensures aborted <==> GivesUp(i, fetch)
    ensures Flat(batches) <= Share(server, inclusive, i)
    ensures !aborted ==> Flat(batches) == Share(server, inclusive, i)
  {
    var marker := StartMarker(i);
    var errors, tries := 0, 0;
    batches, aborted := [], false;
    ghost var asked := [marker];
    FirstAsked(i, fetch);
    assert server[Position(server, marker, inclusive)..Position(server, marker, inclusive)] == [];
    assert Sent(server, inclusive, i, Position(server, marker, inclusive), batches);
    hide *;
    while true
      invariant Sent(server, inclusive, i, Position(server, marker, inclusive), batches)
      invariant Asking(i, fetch, asked, marker, tries, errors) && errors <= MAX_ERRORS
      decreases |server| - Position(server, marker, inclusive), MAX_ERRORS - errors
    {
      var reply := fetch(marker, tries);
      TruthOf(fetch, server, inclusive, marker, tries);
      ghost var pos := Position(server, marker, inclusive);
      if !reply.Page? {
        if errors == MAX_ERRORS {
          AskedTooOften(i, fetch, asked, marker, tries, errors);
          SentIsPrefix(server, inclusive, i, pos, batches);
        } else {
          AskedNext(i, fetch, asked, marker, tries, errors, marker);
        }
        errors := errors + 1;
        if errors > MAX_ERRORS { return batches, true; }
        asked, tries := asked + [marker], tries + 1;
        continue;
      }
      var done;
      batches, done := TakePage(i, batches, reply.entries, reply.marker, server, inclusive, marker);
      if done {
        AskedLast(i, fetch, asked, marker, tries, errors);
        return;
      }
      AskedNext(i, fetch, asked, marker, tries, errors, reply.marker);
      marker := reply.marker;
      asked, tries := asked + [marker], tries + 1;
    }
  }

  lemma TruthOf(fetch: (Option<Hash>, nat) -> Reply, server: seq<Entry>, inclusive: bool, marker: Option<Hash>, attempt: nat)
    requires Truthful(fetch, server, inclusive)
    ensures TruePage(server, inclusive, marker, fetch(marker, attempt))
  {
  }

  lemma PrefixOf(server: seq<Entry>, pos: nat, entries: seq<Entry>, page: seq<Entry>)
    requires pos + |entries| <= |server| && entries == server[pos..pos + |entries|]
    requires |page| <= |entries| && page == entries[..|page|]
    ensures page == server[pos..pos + |page|]
    ensures |page| < |entries| ==> server[pos + |page|] == entries[|page|]
  {
  }

  lemma {:induction false} PastIs(server: seq<Entry>, b: byte, p: nat)
    requires p <= |server| && (forall i | 0 <= i < p :: server[i].0[0] <= b) && (p < |server| ==> server[p].0[0] > b)
    ensures Past(server, b) == p
  {
    if p > 0 { PastIs(server[1..], b, p - 1); }
  }

  lemma {:induction false} PastAtMost(server: seq<Entry>, b: byte, p: nat)
    requires p <= |server| && (p < |server| ==> server[p].0[0] > b)
    ensures Past(server, b) <= p
  {
    if p > 0 { PastAtMost(server[1..], b, p - 1); }
  }

  lemma {:induction false} PositionIs(server: seq<Entry>, marker: Option<Hash>, inclusive: bool, p: nat)
    requires p <= |server| && (forall i | 0 <= i < p :: !Resumes(server[i].0, marker, inclusive))
    requires p < |server| ==> Resumes(server[p].0, marker, inclusive)
    ensures Position(server, marker, inclusive) == p
  {
    if p > 0 { PositionIs(server[1..], marker, inclusive, p - 1); }
  }

  lemma ShareIs(server: seq<Entry>, inclusive: bool, i: nat, pos: nat, batches: seq<seq<Entry>>)
    requires i < NUM_WORKERS && Sorted(server) && Sent(server, inclusive, i, pos, batches)
    requires pos < |server| ==> server[pos].0[0] > EndByte(i)
    ensures Share(server, inclusive, i) == Flat(batches)
  {
    hide Position, StartMarker, EndByte, Flat;
    var lo := Position(server, StartMarker(i), inclusive);
    if lo < pos {
      forall j | 0 <= j < pos ensures server[j].0[0] <= EndByte(i) {
        if j < lo { FirstBytesAscend(server, j, lo); }
      }
      PastIs(server, EndByte(i), pos);
    } else {
      PastAtMost(server, EndByte(i), pos);
    }
  }

  // ---- the shares cover the state ----

  lemma {:induction false} NotBelowZeros(x: Bytes, z: Bytes)
    requires |x| == |z| && forall i | 0 <= i < |z| :: z[i] == 0
    ensures !Less(x, z)
  {
    if |x| > 0 { NotBelowZeros(x[1..], z[1..]); }
  }

  lemma BelowStart(key: Hash, i: nat)
    requires i < NUM_WORKERS
    ensures Less(key, StartKey(i)) <==> key[0] < i * RANGE
  {
    NotBelowZeros(key[1..], StartKey(i)[1..]);
  }

  /** A key comes at or after a worker's start key exactly if its first byte does. */
  lemma StartKeyBound(key: Hash, i: nat)
    requires i < NUM_WORKERS
    ensures key[0] >= i * RANGE <==> Resumes(key, Some(StartKey(i)), true)
  {
    BelowStart(key, i);
    hide StartKey, Less;
    LessTotal(StartKey(i), key);
    LessIrreflexive(key);
    if Less(StartKey(i), key) { LessAsymmetric(StartKey(i), key); }
  }

  /** A server that resumes past the marker leaves the marker's own key out. */
  lemma ExclusiveBound(key: Hash, m: Hash)
    ensures Resumes(key, Some(m), false) <==> Resumes(key, Some(m), true) && key != m
  {
    hide Less;
    LessIrreflexive(m);
  }

  /** A worker's share is the keys of its own quarter: 64 first bytes from 64 times its number on. */
  lemma ShareRange(server: seq<Entry>, inclusive: bool, i: nat, e: Entry)
    requires Sorted(server) && i < NUM_WORKERS && e in Share(server, inclusive, i)
    ensures 64 * i <= e.0[0] as int < 64 * i + 64
  {
    hide Position, Less, StartKey;
    var lo, hi := Position(server, StartMarker(i), inclusive), Past(server, EndByte(i));
    var j :| 0 <= j < |server[lo..hi]| && server[lo..hi][j] == e;
    assert server[lo + j] == e;
    if i > 0 {
      ExclusiveBound(server[lo].0, StartKey(i));
      StartKeyBound(server[lo].0, i);
      FirstBytesAscend(server, lo, lo + j);
    }
  }

  ghost predicate Skipped(server: seq<Entry>, inclusive: bool, i: nat)
    requires 0 < i < NUM_WORKERS
  {
    var hi := Past(server, EndByte(i - 1));
    !inclusive && hi < |server| && server[hi].0 == StartKey(i)
  }

  /** Where one share ends the next begins, unless a server that resumes past the marker leaves out
      a key that is itself the next worker's start key. */
  lemma SharesMeet(server: seq<Entry>, inclusive: bool, i: nat)
    requires Sorted(server) && 0 < i < NUM_WORKERS
    ensures Position(server, StartMarker(i), inclusive)
            == if Skipped(server, inclusive, i) then Past(server, EndByte(i - 1)) + 1 else Past(server, EndByte(i - 1))
  {
    var hi, s := Past(server, EndByte(i - 1)), StartKey(i);
    assert EndByte(i - 1) as int + 1 == i * RANGE;
    hide StartKey, Position, Less;
    forall j | 0 <= j < hi ensures !Resumes(server[j].0, Some(s), inclusive) {
      StartKeyBound(server[j].0, i);
      ExclusiveBound(server[j].0, s);
    }
    if hi < |server| {
      StartKeyBound(server[hi].0, i);
      ExclusiveBound(server[hi].0, s);
    }
    if Skipped(server, inclusive, i) {
      if hi + 1 < |server| { assert Less(server[hi].0, server[hi + 1].0); }
      PositionIs(server, Some(s), inclusive, hi + 1);
    } else {
      PositionIs(server, Some(s), inclusive, hi);
    }
  }

  ghost function All(server: seq<Entry>, inclusive: bool): seq<Entry> {
    Share(server, inclusive, 0) + Share(server, inclusive, 1) + Share(server, inclusive, 2) + Share(server, inclusive, 3)
  }

  predicate IsStartKey(k: Hash) { k == StartKey(1) || k == StartKey(2) || k == StartKey(3) }

  lemma {:induction false} PastOrder(server: seq<Entry>, a: byte, b: byte)
    requires a <= b
    ensures Past(server, a) <= Past(server, b)
  {
    if |server| > 0 { PastOrder(server[1..], a, b); }
  }

  lemma {:induction false} PastAll(server: seq<Entry>)
    ensures Past(server, 0xFF) == |server|
  {
    if |server| > 0 { PastAll(server[1..]); }
  }

  lemma FourSlices(server: seq<Entry>, a: nat, b: nat, c: nat)
    requires a <= b <= c <= |server|
    ensures server[0..a] + server[a..b] + server[b..c] + server[c..|server|] == server
  {
  }

  lemma ShareSlice(server: seq<Entry>, i: nat)
    requires Sorted(server) && i < NUM_WORKERS
    ensures var lo, hi := if i == 0 then 0 else Past(server, EndByte(i - 1)), Past(server, EndByte(i));
            lo <= hi && Share(server, true, i) == server[lo..hi]
  {
    if i == 0 {
      PositionIs(server, None, true, 0);
    } else {
      SharesMeet(server, true, i);
      assert EndByte(i - 1) <= EndByte(i);
      PastOrder(server, EndByte(i - 1), EndByte(i));
    }
  }

  /** Each key is in exactly one share: with an inclusive server the four shares in a row are the
      whole state. */
  lemma SharesCover(server: seq<Entry>)
    requires Sorted(server)
    ensures All(server, true) == server
  {
    ShareSlice(server, 0);
    ShareSlice(server, 1);
    ShareSlice(server, 2);
    ShareSlice(server, 3);
    assert EndByte(3) == 0xFF;
    PastAll(server);
    hide Past, Position, Sorted, EndByte, StartMarker, StartKey, Share;
    FourSlices(server, Past(server, EndByte(0)), Past(server, EndByte(1)), Past(server, EndByte(2)));
  }

  // ---- a server that resumes past the marker ----

  lemma StartsDiffer(i: nat)
    requires 0 < i < NUM_WORKERS
    ensures StartKey(i)[0] == 64 * i
    ensures EndByte(i) == 64 * i + 63 && EndByte(i - 1) == 64 * i - 1
  {
  }

  /** A start key the server holds is the first entry of its worker's range. */
  lemma StartKeyFirst(server: seq<Entry>, i: nat, j: nat)
    requires Sorted(server) && 0 < i < NUM_WORKERS && j < |server| && server[j].0 == StartKey(i)
    ensures j == Past(server, EndByte(i - 1)) < Past(server, EndByte(i))
  {
    StartsDiffer(i);
    hide StartKey, EndByte, Less;
    forall k | 0 <= k < j ensures server[k].0[0] <= EndByte(i - 1) {
      assert Less(server[k].0, server[j].0);
      BelowStart(server[k].0, i);
    }
    PastIs(server, EndByte(i - 1), j);
    PastBeyond(server, EndByte(i), j);
  }

  lemma {:induction false} PastBeyond(server: seq<Entry>, b: byte, p: nat)
    requires p < |server| && forall i | 0 <= i <= p :: server[i].0[0] <= b
    ensures Past(server, b) > p
  {
    if p > 0 { PastBeyond(server[1..], b, p - 1); }
  }

  /** The share of a server that resumes past the marker: all of it but the start key. */
  lemma ExclusiveSlice(server: seq<Entry>, i: nat)
    requires Sorted(server) && i < NUM_WORKERS
    ensures var lo, hi := if i == 0 then 0 else Past(server, EndByte(i - 1)), Past(server, EndByte(i));
            && lo <= hi
            && (i > 0 && lo < hi && server[lo].0 == StartKey(i) ==> Share(server, false, i) == server[lo + 1..hi])
            && (!(i > 0 && lo < hi && server[lo].0 == StartKey(i)) ==> Share(server, false, i) == server[lo..hi])
  {
    if i == 0 {
      PositionIs(server, None, false, 0);
    } else {
      assert EndByte(i - 1) <= EndByte(i);
      PastOrder(server, EndByte(i - 1), EndByte(i));
      SharesMeet(server, false, i);
      var lo := Past(server, EndByte(i - 1));
      if lo < |server| && server[lo].0 == StartKey(i) { StartKeyFirst(server, i, lo); }
      hide StartKey, EndByte, Position, Past, Sorted;
    }
  }

  /** Membership in one exclusive share, by index. */
  lemma ExclusiveShareHas(server: seq<Entry>, i: nat, e: Entry)
    requires Sorted(server) && i < NUM_WORKERS
    ensures e in Share(server, false, i)
            <==> exists j :: (if i == 0 then 0 else Past(server, EndByte(i - 1))) <= j < Past(server, EndByte(i))
                             && server[j] == e && !IsStartKey(e.0)
  {
    ExclusiveSlice(server, i);
    var lo, hi := if i == 0 then 0 else Past(server, EndByte(i - 1)), Past(server, EndByte(i));
    forall j | lo <= j < hi && IsStartKey(server[j].0) ensures i > 0 && j == lo && server[j].0 == StartKey(i) {
      StartKeyHome(server, i, j);
    }
    hide *;
    if i > 0 { StartKeyIs(i); }
    var skip := i > 0 && lo < hi && server[lo].0 == StartKey(i);
    SliceHas(server, if skip then lo + 1 else lo, hi, e);
    WithoutFirst(server, lo, hi, e, skip);
  }

  /** The slice without its first entry has what the slice has but that entry, when no other is a start key. */
  lemma WithoutFirst(server: seq<Entry>, lo: nat, hi: nat, e: Entry, skip: bool)
    requires lo <= hi <= |server| && (skip ==> lo < hi && IsStartKey(server[lo].0))
    requires forall j | lo <= j < hi && IsStartKey(server[j].0) :: skip && j == lo
    ensures (exists j :: (if skip then lo + 1 else lo) <= j < hi && server[j] == e)
            <==> exists j :: lo <= j < hi && server[j] == e && !IsStartKey(e.0)
  {
    hide IsStartKey;
  }

  lemma StartKeyIs(i: nat)
    requires 0 < i < NUM_WORKERS
    ensures IsStartKey(StartKey(i))
  {
    hide StartKey;
  }

  lemma SliceHas(server: seq<Entry>, lo: nat, hi: nat, e: Entry)
    requires lo <= hi <= |server|
    ensures e in server[lo..hi] <==> exists j :: lo <= j < hi && server[j] == e
  {
    if e in server[lo..hi] {
      var k :| 0 <= k < hi - lo && server[lo..hi][k] == e;
      assert server[lo + k] == e;
    }
    if j :| lo <= j < hi && server[j] == e { assert server[lo..hi][j - lo] == e; }
  }

  lemma StartKeyHome(server: seq<Entry>, i: nat, j: nat)
    requires Sorted(server) && i < NUM_WORKERS && j < |server| && IsStartKey(server[j].0)
    requires (if i == 0 then 0 else Past(server, EndByte(i - 1))) <= j < Past(server, EndByte(i))
    ensures i > 0 && j == Past(server, EndByte(i - 1)) && server[j].0 == StartKey(i)
  {
    hide *;
    var w := Which(server[j].0);
    EndBytes(i);
    StartsDiffer(w);
    StartKeyFirst(server, w, j);
    assert server[j].0[0] <= EndByte(i);
    FirstBytesAscend(server, Past(server, EndByte(i - 1)), j);
  }

  lemma Which(k: Hash) returns (w: nat)
    requires IsStartKey(k)
    ensures 0 < w < NUM_WORKERS && k == StartKey(w)
  {
    hide StartKey;
    w := if k == StartKey(1) then 1 else if k == StartKey(2) then 2 else 3;
  }

  lemma EndBytes(i: nat)
    requires i < NUM_WORKERS
    ensures EndByte(i) == 64 * i + 63
    ensures i > 0 ==> EndByte(i - 1) == 64 * i - 1
  {
  }

  /** What four completed workers hold when the server resumes past the marker: the state without
      the three start keys. */
  lemma ExclusiveMisses(server: seq<Entry>, e: Entry)
    requires Sorted(server)
    ensures e in All(server, false) <==> e in server && !IsStartKey(e.0)
  {
    ExclusiveShareHas(server, 0, e);
    ExclusiveShareHas(server, 1, e);
    ExclusiveShareHas(server, 2, e);
    ExclusiveShareHas(server, 3, e);
    assert EndByte(3) == 0xFF;
    PastAll(server);
    hide Past, Sorted, EndByte, Share, IsStartKey, StartKey;
    if e in server && !IsStartKey(e.0) {
      var j :| 0 <= j < |server| && server[j] == e;
      assert e in All(server, false);
    }
  }
}
