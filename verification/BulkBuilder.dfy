// The builder half of the bulk state sync of crates/xrpl-node/src/bulk_sync.rs: whatever order the
// channel hands the workers' pages over in, the store and the tree end up the same; and what
// "verified" does and does not say about the store.
module BulkBuilder {
  import opened Bytes
  import opened BulkSync

  // The letters MLN and a zero byte.
  const LEAF_PREFIX: Bytes := ['M' as int as byte, 'L' as int as byte, 'N' as int as byte, 0]

  function Leaf(h: Bytes -> Hash, key: Hash, data: Bytes): Hash {
    h(LEAF_PREFIX + (data + key))
  }

  /** The entries written one after another. */
  function PutAll(store: map<Hash, Bytes>, entries: seq<Entry>): map<Hash, Bytes> {
    if |entries| == 0 then store
    else PutAll(store, entries[..|entries| - 1])[entries[|entries| - 1].0 := entries[|entries| - 1].1]
  }

  /** A server's state as a map. */
  function StateMap(server: seq<Entry>): map<Hash, Bytes> { PutAll(map[], server) }

  /** The leaves of the tree over a state. */
  function TreeOf(h: Bytes -> Hash, state: map<Hash, Bytes>): map<Hash, Hash> {
    map key | key in state :: Leaf(h, key, state[key])
  }

  lemma PutOne(store: map<Hash, Bytes>, entries: seq<Entry>, e: Entry)
    ensures PutAll(store, entries + [e]) == PutAll(store, entries)[e.0 := e.1]
  {
    assert (entries + [e])[..|entries|] == entries;
  }

  lemma {:induction false} PutJoin(store: map<Hash, Bytes>, a: seq<Entry>, b: seq<Entry>)
    ensures PutAll(store, a + b) == PutAll(PutAll(store, a), b)
  {
    if |b| == 0 {
      assert a + b == a;
    } else {
      PutJoin(store, a, b[..|b| - 1]);
      assert (a + b)[..|a + b| - 1] == a + b[..|b| - 1];
    }
  }

  /** What a store built from nothing holds was written, and every key written is held. */
  lemma {:induction false} PutHolds(entries: seq<Entry>)
    ensures forall k | k in PutAll(map[], entries) :: (k, PutAll(map[], entries)[k]) in entries
    ensures forall e | e in entries :: e.0 in PutAll(map[], entries)
  {
    if |entries| > 0 {
      var rest, last := entries[..|entries| - 1], entries[|entries| - 1];
      PutHolds(rest);
      assert entries == rest + [last];
    }
  }

  /** No two entries share a key. */
  ghost predicate OneEach(entries: seq<Entry>) {
    forall e, f | e in entries && f in entries && e.0 == f.0 :: e == f
  }

  lemma KeysDiffer(server: seq<Entry>, i: nat, j: nat)
    requires Sorted(server) && i < j < |server|
    ensures server[i].0 != server[j].0
  {
    LessIrreflexive(server[i].0);
  }

  lemma SortedOneEach(server: seq<Entry>)
    requires Sorted(server)
    ensures OneEach(server)
  {
    forall e, f | e in server && f in server && e.0 == f.0 ensures e == f {
      var i :| 0 <= i < |server| && server[i] == e;
      var j :| 0 <= j < |server| && server[j] == f;
      if i < j { KeysDiffer(server, i, j); }
      if j < i { KeysDiffer(server, j, i); }
    }
  }

  lemma {:induction false} SortedSize(server: seq<Entry>)
    requires Sorted(server)
    ensures |StateMap(server)| == |server|
  {
    if |server| > 0 {
      var rest, last := server[..|server| - 1], server[|server| - 1];
      SortedSize(rest);
      PutHolds(rest);
      if last.0 in StateMap(rest) {
        var i :| 0 <= i < |rest| && rest[i] == (last.0, StateMap(rest)[last.0]);
        KeysDiffer(server, i, |rest|);
      }
    }
  }

  /** A store depends only on which entries were written, not on their order. */
  lemma OrderIrrelevant(a: seq<Entry>, b: seq<Entry>)
    requires multiset(a) == multiset(b) && OneEach(b)
    ensures PutAll(map[], a) == PutAll(map[], b)
  {
    PutHolds(a);
    PutHolds(b);
    SameMembers(a, b);
    var m, n := PutAll(map[], a), PutAll(map[], b);
    hide PutAll;
    forall k ensures k in m <==> k in n {
      if k in m { assert (k, m[k]) in b; }
      if k in n { assert (k, n[k]) in a; }
    }
    forall k | k in m ensures m[k] == n[k] {
      assert (k, m[k]) in b && (k, n[k]) in b;
    }
  }

  lemma SameMembers(a: seq<Entry>, b: seq<Entry>)
    requires multiset(a) == multiset(b)
    ensures forall e :: e in a <==> e in b
  {
    assert forall e :: e in a <==> e in multiset(a);
    assert forall e :: e in b <==> e in multiset(b);
  }

  // ---- the channel ----

  type Queues = q: seq<seq<seq<Entry>>> | |q| == NUM_WORKERS witness [[], [], [], []]

  /** The channel keeps each worker's batches in order and mixes the workers in any way. */
  ghost predicate Interleaves(arrivals: seq<seq<Entry>>, queues: Queues)
    decreases |arrivals|
  {
    if |arrivals| == 0 then forall w | 0 <= w < NUM_WORKERS :: queues[w] == []
    else exists w | 0 <= w < NUM_WORKERS :: CameFrom(arrivals, queues, w)
  }

  ghost predicate CameFrom(arrivals: seq<seq<Entry>>, queues: Queues, w: nat)
    requires w < NUM_WORKERS && |arrivals| > 0
    decreases |arrivals|, 0
  {
    var n := |queues[w]|;
    && n > 0 && queues[w][n - 1] == arrivals[|arrivals| - 1]
    && Interleaves(arrivals[..|arrivals| - 1], queues[w := queues[w][..n - 1]])
  }

  ghost function Sum(queues: Queues): multiset<Entry> {
    multiset(Flat(queues[0])) + multiset(Flat(queues[1])) + multiset(Flat(queues[2])) + multiset(Flat(queues[3]))
  }

  lemma TakeLast(queues: Queues, w: nat)
    requires w < NUM_WORKERS && |queues[w]| > 0
    ensures var n := |queues[w]|;
            Sum(queues) == Sum(queues[w := queues[w][..n - 1]]) + multiset(queues[w][n - 1])
  {
    var n := |queues[w]|;
    assert queues[w] == queues[w][..n - 1] + [queues[w][n - 1]];
    FlatAppend(queues[w][..n - 1], queues[w][n - 1]);
    hide Flat;
    MoveOut(multiset(Flat(queues[0])), multiset(Flat(queues[1])), multiset(Flat(queues[2])), multiset(Flat(queues[3])),
            w, multiset(Flat(queues[w][..n - 1])), multiset(queues[w][n - 1]));
  }

  lemma MoveOut(a: multiset<Entry>, b: multiset<Entry>, c: multiset<Entry>, d: multiset<Entry>, w: nat,
                rest: multiset<Entry>, x: multiset<Entry>)
    requires w < 4 && [a, b, c, d][w] == rest + x
    ensures a + b + c + d == (if w == 0 then rest else a) + (if w == 1 then rest else b)
                             + (if w == 2 then rest else c) + (if w == 3 then rest else d) + x
  {
  }

  lemma {:induction false} InterleavedSum(arrivals: seq<seq<Entry>>, queues: Queues)
    requires Interleaves(arrivals, queues)
    ensures multiset(Flat(arrivals)) == Sum(queues)
    decreases |arrivals|
  {
    if |arrivals| > 0 {
      var w :| 0 <= w < NUM_WORKERS && CameFrom(arrivals, queues, w);
      hide Sum;
      InterleavedSum(arrivals[..|arrivals| - 1], queues[w := queues[w][..|queues[w]| - 1]]);
      TakeLast(queues, w);
    }
  }

  /** Any interleaving of four completed workers' batches is what the server hands out, each entry once. */
  lemma InterleavedShares(server: seq<Entry>, inclusive: bool, queues: Queues, arrivals: seq<seq<Entry>>)
    requires Interleaves(arrivals, queues) && EachItsShare(queues, server, inclusive)
    ensures multiset(Flat(arrivals)) == multiset(All(server, inclusive))
  {
    hide Share, Flat;
    InterleavedSum(arrivals, queues);
    assert multiset(All(server, inclusive)) == Sum(queues);
  }

  /** With a server that resumes at the marker that is its state: the same store and the same tree. */
  lemma AnyInterleaving(server: seq<Entry>, queues: Queues, arrivals: seq<seq<Entry>>)
    requires Sorted(server) && Interleaves(arrivals, queues)
    requires EachItsShare(queues, server, true)
    ensures multiset(Flat(arrivals)) == multiset(server)
    ensures PutAll(map[], Flat(arrivals)) == StateMap(server)
  {
    hide Share, PutAll, Sorted, Flat, Interleaves, EachItsShare;
    InterleavedShares(server, true, queues, arrivals);
    SharesCover(server);
    SortedOneEach(server);
    OrderIrrelevant(Flat(arrivals), server);
  }

  lemma Received(arrivals: seq<seq<Entry>>, taken: Queues, w: nat, page: seq<Entry>)
    requires w < NUM_WORKERS && Interleaves(arrivals, taken)
    ensures Interleaves(arrivals + [page], taken[w := taken[w] + [page]])
  {
    var more, after := arrivals + [page], taken[w := taken[w] + [page]];
    assert more[..|more| - 1] == arrivals;
    assert after[w := after[w][..|after[w]| - 1]] == taken;
    assert CameFrom(more, after, w) by { hide Interleaves; }
  }

  /** The worker asked for, or another one if that one has nothing waiting. */
  method Pick(left: Queues, wish: nat) returns (w: nat)
    requires Waiting(left)
    ensures w < NUM_WORKERS && |left[w]| > 0
  {
    w := wish % NUM_WORKERS;
    if |left[w]| == 0 { w :| 0 <= w < NUM_WORKERS && |left[w]| > 0; }
  }

  lemma AllWaiting(queues: Queues)
    ensures Together([[], [], [], []], queues, queues)
  {
    forall w | 0 <= w < NUM_WORKERS ensures [[], [], [], []][w] + queues[w] == queues[w] { }
  }

  /** The batches the builder receives, in an order the channel is free to choose. */
  method Deliver(queues: Queues, choose: nat -> nat) returns (arrivals: seq<seq<Entry>>)
    ensures Interleaves(arrivals, queues)
  {
    arrivals := [];
    var left: Queues := queues;
    ghost var taken: Queues := [[], [], [], []];
    assert Interleaves(arrivals, taken);
    AllWaiting(queues);
    hide *;
    while Waiting(left)
      invariant Interleaves(arrivals, taken) && Together(taken, left, queues)
      decreases |left[0]| + |left[1]| + |left[2]| + |left[3]|
    {
      var w := Pick(left, choose(|arrivals|));
      Received(arrivals, taken, w, left[w][0]);
      TakeFirst(taken, left, queues, w);
      arrivals := arrivals + [left[w][0]];
      taken := taken[w := taken[w] + [left[w][0]]];
      left := left[w := left[w][1..]];
    }
    NoneLeft(taken, left, queues);
  }

  predicate Waiting(left: Queues) { exists w | 0 <= w < NUM_WORKERS :: |left[w]| > 0 }

  ghost predicate Together(taken: Queues, left: Queues, queues: Queues) {
    forall w | 0 <= w < NUM_WORKERS :: taken[w] + left[w] == queues[w]
  }

  lemma TakeFirst(taken: Queues, left: Queues, queues: Queues, w: nat)
    requires w < NUM_WORKERS && |left[w]| > 0 && Together(taken, left, queues)
    ensures Together(taken[w := taken[w] + [left[w][0]]], left[w := left[w][1..]], queues)
    ensures var l := left[w := left[w][1..]];
            |l[0]| + |l[1]| + |l[2]| + |l[3]| < |left[0]| + |left[1]| + |left[2]| + |left[3]|
  {
    assert taken[w] + [left[w][0]] + left[w][1..] == taken[w] + left[w];
  }

  lemma NoneLeft(taken: Queues, left: Queues, queues: Queues)
    requires Together(taken, left, queues) && !Waiting(left)
    ensures taken == queues
  {
    forall w | 0 <= w < NUM_WORKERS ensures taken[w] == queues[w] {
      assert taken[w] + left[w] == queues[w] && |left[w]| == 0;
    }
  }

  // ---- the builder ----

  /** One page: every entry joins the write batch and the tree. */
  method AddPage(h: Bytes -> Hash, page: seq<Entry>, batch: seq<Entry>, tree: map<Hash, Hash>, ghost before: seq<Entry>)
    returns (batch': seq<Entry>, tree': map<Hash, Hash>)
    requires tree == TreeOf(h, PutAll(map[], before))
    ensures batch' == batch + page && tree' == TreeOf(h, PutAll(map[], before + page))
  {
    batch', tree' := batch, tree;
    assert before + page[..0] == before;
    for i := 0 to |page|
      invariant batch' == batch + page[..i]
      invariant tree' == TreeOf(h, PutAll(map[], before + page[..i]))
    {
      PutOne(map[], before + page[..i], page[i]);
      assert before + page[..i] + [page[i]] == before + page[..i + 1];
      hide PutAll, Leaf;
      batch' := batch' + [page[i]];
      tree' := tree'[page[i].0 := Leaf(h, page[i].0, page[i].1)];
    }
    assert page[..|page|] == page;
  }

  // ---- the write batches ----

  /** The write batches closed so far, and the one being filled. */
  datatype Batching = Batching(closed: seq<seq<Entry>>, open: seq<Entry>)

  /** A page joins the open batch, which is closed once it holds 10,000 entries. */
  function Batched(b: Batching, page: seq<Entry>): Batching {
    var more := b.open + page;
    if |more| >= WRITE_BATCH then Batching(b.closed + [more], []) else Batching(b.closed, more)
  }

  function BatchingOf(arrivals: seq<seq<Entry>>): Batching {
    if |arrivals| == 0 then Batching([], []) else Batched(BatchingOf(arrivals[..|arrivals| - 1]), arrivals[|arrivals| - 1])
  }

  function Chunks(b: Batching): seq<seq<Entry>> {
    if |b.open| > 0 then b.closed + [b.open] else b.closed
  }

  /** The batches the arrivals are written in, one write each. */
  function WriteBatches(arrivals: seq<seq<Entry>>): seq<seq<Entry>> { Chunks(BatchingOf(arrivals)) }

  /** Every write but the last holds 10,000 entries or more, and the last fewer. */
  lemma {:induction false} BatchSizes(arrivals: seq<seq<Entry>>)
    ensures var b := BatchingOf(arrivals);
            (forall k | 0 <= k < |b.closed| :: |b.closed[k]| >= 10_000) && |b.open| < 10_000
  {
    if |arrivals| > 0 { BatchSizes(arrivals[..|arrivals| - 1]); }
  }

  /** The entries of the batches whose write succeeded, when `writes` says which do. */
  function Written(chunks: seq<seq<Entry>>, writes: nat -> bool): seq<Entry> {
    if |chunks| == 0 then []
    else Written(chunks[..|chunks| - 1], writes) + if writes(|chunks| - 1) then chunks[|chunks| - 1] else []
  }

  function Lost(chunks: seq<seq<Entry>>, writes: nat -> bool): seq<Entry> {
    if |chunks| == 0 then []
    else Lost(chunks[..|chunks| - 1], writes) + if writes(|chunks| - 1) then [] else chunks[|chunks| - 1]
  }

  ghost predicate AllSucceed(writes: nat -> bool, n: nat) { forall k | 0 <= k < n :: writes(k) }

  lemma OneMoreChunk(chunks: seq<seq<Entry>>, chunk: seq<Entry>, writes: nat -> bool)
    ensures Written(chunks + [chunk], writes) == Written(chunks, writes) + if writes(|chunks|) then chunk else []
    ensures Lost(chunks + [chunk], writes) == Lost(chunks, writes) + if writes(|chunks|) then [] else chunk
  {
    assert (chunks + [chunk])[..|chunks|] == chunks;
  }

  lemma {:induction false} SplitInTwo(chunks: seq<seq<Entry>>, writes: nat -> bool)
    ensures multiset(Written(chunks, writes)) + multiset(Lost(chunks, writes)) == multiset(Flat(chunks))
  {
    if |chunks| > 0 { SplitInTwo(chunks[..|chunks| - 1], writes); }
  }

  lemma {:induction false} NothingLost(chunks: seq<seq<Entry>>, writes: nat -> bool)
    requires AllSucceed(writes, |chunks|)
    ensures Lost(chunks, writes) == [] && Written(chunks, writes) == Flat(chunks)
  {
    if |chunks| > 0 { NothingLost(chunks[..|chunks| - 1], writes); }
  }

  lemma {:induction false} SomethingLost(chunks: seq<seq<Entry>>, writes: nat -> bool, k: nat)
    requires k < |chunks| && !writes(k) && |chunks[k]| > 0
    ensures |Lost(chunks, writes)| > 0
  {
    if k < |chunks| - 1 { SomethingLost(chunks[..|chunks| - 1], writes, k); }
  }

  lemma {:induction false} BatchingHolds(arrivals: seq<seq<Entry>>)
    ensures var b := BatchingOf(arrivals);
            && Flat(b.closed) + b.open == Flat(arrivals)
            && forall k | 0 <= k < |b.closed| :: |b.closed[k]| > 0
  {
    if |arrivals| > 0 {
      var init, page := arrivals[..|arrivals| - 1], arrivals[|arrivals| - 1];
      BatchingHolds(init);
      assert arrivals == init + [page];
      hide Flat, BatchingOf;
      OneMorePage(init, page);
      BatchedHolds(BatchingOf(init), page, Flat(init));
    }
  }

  lemma BatchedHolds(b: Batching, page: seq<Entry>, all: seq<Entry>)
    requires Flat(b.closed) + b.open == all && forall k | 0 <= k < |b.closed| :: |b.closed[k]| > 0
    ensures var c := Batched(b, page);
            && Flat(c.closed) + c.open == all + page
            && forall k | 0 <= k < |c.closed| :: |c.closed[k]| > 0
  {
    hide Flat;
    FlatAppend(b.closed, b.open + page);
    assert (Flat(b.closed) + b.open) + page == Flat(b.closed) + (b.open + page);
    assert Flat(b.closed) + (b.open + page) + [] == Flat(b.closed) + (b.open + page);
  }

  /** The write batches hold what arrived, in order, and none is empty. */
  lemma BatchesHold(arrivals: seq<seq<Entry>>)
    ensures Flat(WriteBatches(arrivals)) == Flat(arrivals)
    ensures forall k | 0 <= k < |WriteBatches(arrivals)| :: |WriteBatches(arrivals)[k]| > 0
  {
    var b := BatchingOf(arrivals);
    BatchingHolds(arrivals);
    FlatAppend(b.closed, b.open);
    hide Flat, BatchingOf;
    assert |b.open| == 0 ==> Flat(b.closed) + b.open == Flat(b.closed);
  }

  /** One write. */
  method Commit(store: map<Hash, Bytes>, batch: seq<Entry>, ok: bool, failed: nat,
                ghost before: map<Hash, Bytes>, ghost chunks: seq<seq<Entry>>, ghost writes: nat -> bool)
    returns (store': map<Hash, Bytes>, failed': nat)
    requires store == PutAll(before, Written(chunks, writes)) && ok == writes(|chunks|)
    ensures store' == PutAll(before, Written(chunks + [batch], writes))
    ensures failed' == if ok then failed else failed + 1
  {
    PutJoin(before, Written(chunks, writes), batch);
    OneMoreChunk(chunks, batch, writes);
    hide PutAll, Written;
    assert Written(chunks, writes) + [] == Written(chunks, writes);
    store', failed' := store, failed;
    if ok { store' := PutAll(store, batch); } else { failed' := failed + 1; }
  }

  function Failures(writes: nat -> bool, n: nat): nat {
    if n == 0 then 0 else Failures(writes, n - 1) + if writes(n - 1) then 0 else 1
  }

  /** The builder's state once these pages have arrived. */
  ghost predicate Standing(h: Bytes -> Hash, before: map<Hash, Bytes>, writes: nat -> bool, arrivals: seq<seq<Entry>>,
                           store: map<Hash, Bytes>, tree: map<Hash, Hash>, count: nat, b: Batching, failed: nat)
  {
    && tree == TreeOf(h, PutAll(map[], Flat(arrivals))) && count == |Flat(arrivals)| && b == BatchingOf(arrivals)
    && store == PutAll(before, Written(b.closed, writes)) && failed == Failures(writes, |b.closed|)
  }

  lemma OneMorePage(arrivals: seq<seq<Entry>>, page: seq<Entry>)
    ensures Flat(arrivals + [page]) == Flat(arrivals) + page
    ensures BatchingOf(arrivals + [page]) == Batched(BatchingOf(arrivals), page)
  {
    FlatAppend(arrivals, page);
    assert (arrivals + [page])[..|arrivals|] == arrivals;
  }

  /** One page of the builder loop. */
  method Absorb(h: Bytes -> Hash, page: seq<Entry>, store: map<Hash, Bytes>, tree: map<Hash, Hash>, count: nat, batch: seq<Entry>,
                failed: nat, attempts: nat, writes: nat -> bool,
                ghost before: map<Hash, Bytes>, ghost arrivals: seq<seq<Entry>>, ghost closed: seq<seq<Entry>>)
    returns (store': map<Hash, Bytes>, tree': map<Hash, Hash>, count': nat, batch': seq<Entry>, failed': nat, attempts': nat,
             ghost closed': seq<seq<Entry>>)
    requires Standing(h, before, writes, arrivals, store, tree, count, Batching(closed, batch), failed) && attempts == |closed|
    ensures Standing(h, before, writes, arrivals + [page], store', tree', count', Batching(closed', batch'), failed')
    ensures attempts' == |closed'|
  {
    OneMorePage(arrivals, page);
    hide PutAll, TreeOf, Flat, Written, BatchingOf;
    store', failed', attempts', closed' := store, failed, attempts, closed;
    batch', tree' := AddPage(h, page, batch, tree, Flat(arrivals));
    count' := count + |page|;
    if |batch'| >= WRITE_BATCH {
      store', failed' := Commit(store, batch', writes(attempts), failed, before, closed, writes);
      closed' := closed + [batch'];
      attempts', batch' := attempts + 1, [];
    }
  }

  lemma NothingYet(h: Bytes -> Hash, before: map<Hash, Bytes>, writes: nat -> bool)
    ensures Standing(h, before, writes, [], before, map[], 0, Batching([], []), 0)
  {
  }

  /** The builder loop. The tree and the count follow what was received, whatever is written; the
      store takes exactly the batches whose write succeeds. */
  method Build(h: Bytes -> Hash, arrivals: seq<seq<Entry>>, before: map<Hash, Bytes>, writes: nat -> bool)
    returns (store: map<Hash, Bytes>, tree: map<Hash, Hash>, count: nat, failed: nat)
    ensures tree == TreeOf(h, PutAll(map[], Flat(arrivals))) && count == |Flat(arrivals)|
    ensures store == PutAll(before, Written(WriteBatches(arrivals), writes))
    ensures failed == Failures(writes, |WriteBatches(arrivals)|)
  {
    hide PutAll, TreeOf, Flat, Written, BatchingOf, Standing;
    var batch, attempts := [], 0;
    store, tree, count, failed := before, map[], 0, 0;
    ghost var closed := [];
    NothingYet(h, before, writes);
    assert arrivals[..0] == [];
    for n := 0 to |arrivals|
      invariant Standing(h, before, writes, arrivals[..n], store, tree, count, Batching(closed, batch), failed) && attempts == |closed|
    {
      store, tree, count, batch, failed, attempts, closed :=
        Absorb(h, arrivals[n], store, tree, count, batch, failed, attempts, writes, before, arrivals[..n], closed);
      assert arrivals[..n + 1] == arrivals[..n] + [arrivals[n]];
    }
    assert arrivals[..|arrivals|] == arrivals;
    LastBatch(h, before, writes, arrivals, store, tree, count, Batching(closed, batch), failed);
    if |batch| > 0 {
      store, failed := Commit(store, batch, writes(attempts), failed, before, closed, writes);
    }
  }

  lemma LastBatch(h: Bytes -> Hash, before: map<Hash, Bytes>, writes: nat -> bool, arrivals: seq<seq<Entry>>,
                  store: map<Hash, Bytes>, tree: map<Hash, Hash>, count: nat, b: Batching, failed: nat)
    requires Standing(h, before, writes, arrivals, store, tree, count, b, failed)
    ensures tree == TreeOf(h, PutAll(map[], Flat(arrivals))) && count == |Flat(arrivals)|
    ensures WriteBatches(arrivals) == Chunks(b)
    ensures store == PutAll(before, Written(b.closed, writes)) && failed == Failures(writes, |b.closed|)
    ensures Failures(writes, |b.closed| + 1) == failed + if writes(|b.closed|) then 0 else 1
  {
    hide PutAll, TreeOf, Flat, Written, BatchingOf;
  }

  // ---- what a failed write leaves out ----

  /** A key's value after some writes: the entry's if there is one, what was there before otherwise. */
  lemma {:induction false} PutReads(before: map<Hash, Bytes>, entries: seq<Entry>, k: Hash)
    ensures (forall e | e in entries :: e.0 != k) ==>
              (k in PutAll(before, entries) <==> k in before) && (k in before ==> PutAll(before, entries)[k] == before[k])
    ensures (exists e | e in entries :: e.0 == k) ==> k in PutAll(before, entries) && (k, PutAll(before, entries)[k]) in entries
  {
    if |entries| > 0 {
      var rest, last := entries[..|entries| - 1], entries[|entries| - 1];
      PutReads(before, rest, k);
      assert entries == rest + [last];
    }
  }

  lemma {:induction false} SortedOnce(server: seq<Entry>)
    requires Sorted(server)
    ensures EachOnce(server)
  {
    if |server| > 0 {
      var rest, last := server[..|server| - 1], server[|server| - 1];
      SortedOnce(rest);
      assert server == rest + [last];
      if last in rest {
        var i :| 0 <= i < |rest| && rest[i] == last;
        KeysDiffer(server, i, |rest|);
      }
    }
  }

  /** The server's entries in two parts: each in one of them. */
  ghost predicate Parted(server: seq<Entry>, written: seq<Entry>, lost: seq<Entry>) {
    && (forall e :: e in server <==> e in written || e in lost)
    && forall e | e in lost :: e !in written
  }

  ghost predicate EachOnce(entries: seq<Entry>) {
    forall e | e in multiset(entries) :: multiset(entries)[e] == 1
  }

  lemma PartsApart(all: seq<Entry>, written: seq<Entry>, lost: seq<Entry>)
    requires EachOnce(all) && multiset(written) + multiset(lost) == multiset(all)
    ensures Parted(all, written, lost)
  {
    forall e ensures e in all <==> e in written || e in lost {
      assert e in multiset(all) <==> e in multiset(written) || e in multiset(lost);
    }
    forall e | e in lost ensures e !in written {
      assert multiset(lost)[e] > 0 && multiset(written)[e] + multiset(lost)[e] == multiset(all)[e];
      assert e in multiset(all);
    }
  }

  /** A store after some of the server's entries were written equals the one after all of them exactly
      if the others stood in it already. */
  lemma CompleteOver(before: map<Hash, Bytes>, server: seq<Entry>, written: seq<Entry>)
    requires OneEach(server) && forall e | e in written :: e in server
    ensures PutAll(before, written) == PutAll(before, server)
            <==> forall e | e in server && e !in written :: e.0 in before && before[e.0] == e.1
  {
    hide PutAll;
    if forall e | e in server && e !in written :: e.0 in before && before[e.0] == e.1 {
      forall k ensures k in PutAll(before, written) <==> k in PutAll(before, server) { SameValue(before, server, written, k); }
      forall k | k in PutAll(before, written) ensures PutAll(before, written)[k] == PutAll(before, server)[k] {
        SameValue(before, server, written, k);
      }
    }
    if PutAll(before, written) == PutAll(before, server) {
      forall e | e in server && e !in written ensures e.0 in before && before[e.0] == e.1 {
        PutReads(before, server, e.0);
        PutReads(before, written, e.0);
        assert (e.0, PutAll(before, server)[e.0]) == e;
      }
    }
  }

  /** The store holds the server's state exactly if what was not written stood in it already. */
  lemma CompleteExactly(before: map<Hash, Bytes>, server: seq<Entry>, written: seq<Entry>, lost: seq<Entry>)
    requires Sorted(server) && multiset(written) + multiset(lost) == multiset(server)
    ensures PutAll(before, written) == PutAll(before, server)
            <==> forall e | e in lost :: e.0 in before && before[e.0] == e.1
  {
    SortedOneEach(server);
    SortedOnce(server);
    hide PutAll, Sorted;
    PartsApart(server, written, lost);
    CompleteOver(before, server, written);
  }

  lemma SameValue(before: map<Hash, Bytes>, server: seq<Entry>, written: seq<Entry>, k: Hash)
    requires OneEach(server) && forall e | e in written :: e in server
    requires forall e | e in server && e !in written :: e.0 in before && before[e.0] == e.1
    ensures k in PutAll(before, written) <==> k in PutAll(before, server)
    ensures k in PutAll(before, written) ==> PutAll(before, written)[k] == PutAll(before, server)[k]
  {
    PutReads(before, server, k);
    PutReads(before, written, k);
    hide PutAll;
    if exists e | e in server :: e.0 == k {
      var e :| e in server && e.0 == k;
      assert forall w | w in written && w.0 == k :: w == e;
    }
  }

  // ---- what a server hands out, and when it is all it has ----

  /** Whether the shares are the whole state: the server resumes at the marker, or has no start key. */
  ghost predicate Whole(server: seq<Entry>, inclusive: bool) {
    inclusive || forall e | e in server :: !IsStartKey(e.0)
  }

  /** What a server that resumes past the marker leaves out of a worker's share. */
  ghost function Missed(server: seq<Entry>, i: nat): multiset<Entry>
    requires i < NUM_WORKERS
  {
    var lo, hi := if i == 0 then 0 else Past(server, EndByte(i - 1)), Past(server, EndByte(i));
    if i > 0 && lo < hi && server[lo].0 == StartKey(i) then multiset{server[lo]} else multiset{}
  }

  lemma SliceAndFirst(server: seq<Entry>, lo: nat, hi: nat)
    requires lo < hi <= |server|
    ensures multiset(server[lo..hi]) == multiset(server[lo + 1..hi]) + multiset{server[lo]}
  {
    assert server[lo..hi] == [server[lo]] + server[lo + 1..hi];
  }

  lemma ShareAndMissed(server: seq<Entry>, i: nat)
    requires Sorted(server) && i < NUM_WORKERS
    ensures multiset(Share(server, true, i)) == multiset(Share(server, false, i)) + Missed(server, i)
  {
    hide Past, EndByte, StartKey, Share, Sorted;
    ShareSlice(server, i);
    ExclusiveSlice(server, i);
    var lo, hi := if i == 0 then 0 else Past(server, EndByte(i - 1)), Past(server, EndByte(i));
    if lo < hi { SliceAndFirst(server, lo, hi); }
  }

  ghost function AllMissed(server: seq<Entry>): multiset<Entry> {
    Missed(server, 0) + Missed(server, 1) + Missed(server, 2) + Missed(server, 3)
  }

  lemma AllAndMissed(server: seq<Entry>)
    requires Sorted(server)
    ensures multiset(server) == multiset(All(server, false)) + AllMissed(server)
  {
    hide Share, Missed, Sorted;
    SharesCover(server);
    ShareAndMissed(server, 0);
    ShareAndMissed(server, 1);
    ShareAndMissed(server, 2);
    ShareAndMissed(server, 3);
    AllIs(server, true);
    AllIs(server, false);
    hide All;
    FourSums(multiset(Share(server, false, 0)), multiset(Share(server, false, 1)), multiset(Share(server, false, 2)),
             multiset(Share(server, false, 3)), Missed(server, 0), Missed(server, 1), Missed(server, 2), Missed(server, 3));
  }

  lemma AllIs(server: seq<Entry>, inclusive: bool)
    ensures multiset(All(server, inclusive))
            == multiset(Share(server, inclusive, 0)) + multiset(Share(server, inclusive, 1)) + multiset(Share(server, inclusive, 2))
               + multiset(Share(server, inclusive, 3))
  {
    hide Share;
  }

  lemma FourSums(a: multiset<Entry>, b: multiset<Entry>, c: multiset<Entry>, d: multiset<Entry>,
                 p: multiset<Entry>, q: multiset<Entry>, r: multiset<Entry>, t: multiset<Entry>)
    ensures (a + p) + (b + q) + (c + r) + (d + t) == (a + b + c + d) + (p + q + r + t)
  {
  }

  /** The shares are of the server's entries, each once, and they are all of them exactly if the server
      resumes at the marker or has no start key. */
  lemma WholeExactly(server: seq<Entry>, inclusive: bool)
    requires Sorted(server)
    ensures forall e | e in All(server, inclusive) :: e in server
    ensures OneEach(All(server, inclusive)) && EachOnce(All(server, inclusive))
    ensures Whole(server, inclusive) || exists e | e in server :: e !in All(server, inclusive)
    ensures Whole(server, inclusive) <==> multiset(All(server, inclusive)) == multiset(server)
    ensures Whole(server, inclusive) <==> |All(server, inclusive)| == |server|
  {
    SortedOneEach(server);
    SortedOnce(server);
    hide Sorted, All, AllMissed, IsStartKey;
    if inclusive {
      SharesCover(server);
    } else {
      AllAndMissed(server);
      forall e ensures e in All(server, false) <==> e in server && !IsStartKey(e.0) { ExclusiveMisses(server, e); }
      MissedNone(server);
      StillOnce(server, All(server, false), AllMissed(server));
    }
  }

  lemma StillOnce(server: seq<Entry>, some: seq<Entry>, rest: multiset<Entry>)
    requires EachOnce(server) && multiset(server) == multiset(some) + rest
    ensures EachOnce(some)
  {
    forall e | e in multiset(some) ensures multiset(some)[e] == 1 {
      assert e in multiset(server) && multiset(server)[e] == multiset(some)[e] + rest[e];
    }
  }

  lemma MissedNone(server: seq<Entry>)
    requires multiset(server) == multiset(All(server, false)) + AllMissed(server)
    requires forall e :: e in All(server, false) <==> e in server && !IsStartKey(e.0)
    ensures AllMissed(server) == multiset{} <==> forall e | e in server :: !IsStartKey(e.0)
  {
    hide All, AllMissed, IsStartKey;
    var m := AllMissed(server);
    MissedAreStartKeys(server);
    if exists e | e in server :: IsStartKey(e.0) {
      var e :| e in server && IsStartKey(e.0);
      assert e in multiset(server) && e !in multiset(All(server, false));
    } else {
      forall e ensures e !in m { assert e in m ==> e in multiset(server); }
    }
  }

  lemma MissedAreStartKeys(server: seq<Entry>)
    ensures forall e | e in AllMissed(server) :: IsStartKey(e.0)
  {
    MissedIsStartKey(server, 0);
    MissedIsStartKey(server, 1);
    MissedIsStartKey(server, 2);
    MissedIsStartKey(server, 3);
    hide Missed, IsStartKey;
  }

  lemma MissedIsStartKey(server: seq<Entry>, i: nat)
    requires i < NUM_WORKERS
    ensures forall e | e in Missed(server, i) :: IsStartKey(e.0)
  {
    hide StartKey, EndByte, Past;
    if i > 0 { StartKeyIs(i); }
    hide IsStartKey;
  }

  // ---- the comparison with the server's own root ----

  predicate IsSpace(c: char) { c == ' ' || '\t' <= c <= '\r' }

  function Trim(s: string): (t: string)
    ensures |t| <= |s|
  {
    if |s| == 0 then s
    else if IsSpace(s[0]) then Trim(s[1..])
    else if IsSpace(s[|s| - 1]) then Trim(s[..|s| - 1])
    else s
  }

  ghost predicate AllSpaces(s: string) { forall i | 0 <= i < |s| :: IsSpace(s[i]) }

  /** Trimming takes off the space around a text and nothing more: not what is inside it. */
  lemma {:induction false} TrimExact(before: string, text: string, after: string)
    requires AllSpaces(before) && AllSpaces(after) && |text| > 0 && !IsSpace(text[0]) && !IsSpace(text[|text| - 1])
    ensures Trim(before + text + after) == text
    decreases |before| + |after|
  {
    hide IsSpace;
    var s := before + text + after;
    if |before| > 0 {
      TrimExact(before[1..], text, after);
      assert s[1..] == before[1..] + text + after;
    } else if |after| > 0 {
      TrimExact(before, text, after[..|after| - 1]);
      assert s[..|s| - 1] == before + text + after[..|after| - 1];
    } else {
      assert s == text;
    }
  }

  /** The server's answer matches exactly if, trimmed and in either case, it spells our root. */
  function VerifyRoot(ours: Hash, theirs: string): (matched: bool)
    ensures matched <==> HexDecode(Trim(theirs)) == Some(ours)
  {
    UpperDenotes(Trim(theirs), ours);
    var text := Upper(Trim(theirs));
    text != "" && HexUpper(ours) == text
  }

  // ---- the whole sync ----

  /** The file that keeps the next start from syncing again. */
  datatype DoneFile = NotWritten | Noted(count: nat, unverified: bool)

  ghost predicate AllTruthful(fetch: nat -> (Option<Hash>, nat) -> Reply, server: seq<Entry>, inclusive: bool) {
    forall w | 0 <= w < NUM_WORKERS :: Truthful(fetch(w), server, inclusive)
  }

  ghost predicate EachItsShare(queues: Queues, server: seq<Entry>, inclusive: bool) {
    forall w | 0 <= w < NUM_WORKERS :: Flat(queues[w]) == Share(server, inclusive, w)
  }

  /** Some worker meets more than 50 errors before its last page. */
  ghost predicate SomeGivesUp(fetch: nat -> (Option<Hash>, nat) -> Reply) {
    exists w | 0 <= w < NUM_WORKERS :: GivesUp(w, fetch(w))
  }

  /** The four workers. */
  method Download(fetch: nat -> (Option<Hash>, nat) -> Reply, ghost server: seq<Entry>, ghost inclusive: bool)
    returns (queues: Queues, aborted: bool)
    requires Sorted(server) && AllTruthful(fetch, server, inclusive)
    ensures aborted <==> SomeGivesUp(fetch)
    ensures forall w | 0 <= w < NUM_WORKERS :: Flat(queues[w]) <= Share(server, inclusive, w)
    ensures !aborted ==> EachItsShare(queues, server, inclusive)
  {
    hide Sorted, Truthful, Flat, Share, GivesUp;
    var sent: seq<seq<seq<Entry>>> := [];
    aborted := false;
    for w := 0 to NUM_WORKERS
      invariant |sent| == w
      invariant aborted <==> exists v | 0 <= v < w :: GivesUp(v, fetch(v))
      invariant forall v | 0 <= v < w :: Flat(sent[v]) <= Share(server, inclusive, v)
      invariant !aborted ==> forall v | 0 <= v < w :: Flat(sent[v]) == Share(server, inclusive, v)
    {
      var batches, gaveUp := Collect(w, fetch(w), server, inclusive);
      sent := sent + [batches];
      aborted := aborted || gaveUp;
    }
    queues := sent;
  }

  /** Four workers, the channel and the builder, over any store. If no worker gives up on the server,
      the tree and the count are what the server hands out whatever is written, so the verdict is that
      of their root; they are the server's state exactly if it resumes at the marker or has no start
      key; and the store holds the state exactly if each entry not written already stood in it: begun
      empty, exactly if the shares are the state and every write succeeds. */
  method Sync(fetch: nat -> (Option<Hash>, nat) -> Reply, choose: nat -> nat, writes: nat -> bool, before: map<Hash, Bytes>,
              h: Bytes -> Hash, rootOf: map<Hash, Hash> -> Hash, accountHash: string,
              ghost server: seq<Entry>, ghost inclusive: bool)
    returns (store: map<Hash, Bytes>, tree: map<Hash, Hash>, count: nat, verified: bool, done: DoneFile,
             ghost arrivals: seq<seq<Entry>>)
    requires Sorted(server) && AllTruthful(fetch, server, inclusive)
    ensures tree == TreeOf(h, PutAll(map[], Flat(arrivals))) && count == |Flat(arrivals)|
    ensures store == PutAll(before, Written(WriteBatches(arrivals), writes))
    ensures verified <==> HexDecode(Trim(accountHash)) == Some(rootOf(tree))
    ensures done == if verified || accountHash == "" then Noted(count, !verified) else NotWritten
    ensures !SomeGivesUp(fetch) ==> Synced(before, h, server, inclusive, arrivals, writes, store, tree, count)
  {
    var queues, _ := Download(fetch, server, inclusive);
    var received := Deliver(queues, choose);
    arrivals := received;
    hide *;
    var failed;
    store, tree, count, failed := Build(h, received, before, writes);
    if !SomeGivesUp(fetch) {
      InterleavedShares(server, inclusive, queues, received);
      SyncedWhen(before, h, server, inclusive, received, writes);
    }
    verified := VerifyRoot(rootOf(tree), accountHash);
    done := if verified then Noted(count, false) else if accountHash == "" then Noted(count, true) else NotWritten;
  }

  /** What a sync that no worker gives up leaves. */
  ghost predicate Synced(before: map<Hash, Bytes>, h: Bytes -> Hash, server: seq<Entry>, inclusive: bool, arrivals: seq<seq<Entry>>,
                         writes: nat -> bool, store: map<Hash, Bytes>, tree: map<Hash, Hash>, count: nat)
  {
    var shares, chunks := All(server, inclusive), WriteBatches(arrivals);
    && multiset(Flat(arrivals)) == multiset(shares)
    && tree == TreeOf(h, PutAll(map[], shares)) && count == |shares|
    && (tree == TreeOf(h, StateMap(server)) <==> Whole(server, inclusive))
    && (count == |server| <==> Whole(server, inclusive))
    && (Whole(server, inclusive) && AllSucceed(writes, |chunks|) ==> store == PutAll(before, server))
    && (store == PutAll(before, server)
        <==> forall e | e in server && e !in Written(chunks, writes) :: e.0 in before && before[e.0] == e.1)
    && (before == map[] ==> (store == StateMap(server) <==> Whole(server, inclusive) && AllSucceed(writes, |chunks|)))
  }

  lemma SyncedWhen(before: map<Hash, Bytes>, h: Bytes -> Hash, server: seq<Entry>, inclusive: bool, arrivals: seq<seq<Entry>>,
                   writes: nat -> bool)
    requires Sorted(server) && multiset(Flat(arrivals)) == multiset(All(server, inclusive))
    ensures Synced(before, h, server, inclusive, arrivals, writes, PutAll(before, Written(WriteBatches(arrivals), writes)),
                   TreeOf(h, PutAll(map[], Flat(arrivals))), |Flat(arrivals)|)
  {
    var shares := All(server, inclusive);
    hide *;
    StateIs(server);
    SortedOneEach(server);
    WholeExactly(server, inclusive);
    OrderIrrelevant(Flat(arrivals), shares);
    SameSize(Flat(arrivals), shares);
    TreeTells(h, server, shares);
    StoreTells(before, server, shares, arrivals, writes);
    SizeTells(server, shares);
    Pack(before, h, server, inclusive, arrivals, writes, PutAll(before, Written(WriteBatches(arrivals), writes)),
         TreeOf(h, PutAll(map[], Flat(arrivals))), |Flat(arrivals)|);
  }

  lemma StateIs(server: seq<Entry>)
    ensures StateMap(server) == PutAll(map[], server)
  {
  }

  lemma SizeTells(server: seq<Entry>, shares: seq<Entry>)
    requires EachOnce(shares) && (forall e | e in shares :: e in server)
    requires multiset(shares) == multiset(server) || exists e | e in server :: e !in shares
    ensures |shares| == |server| <==> multiset(shares) == multiset(server)
  {
    SubMultiset(shares, server);
    assert |multiset(shares)| == |shares| && |multiset(server)| == |server|;
    if multiset(shares) != multiset(server) {
      var e :| e in server && e !in shares;
      assert e in multiset(server) && e !in multiset(shares);
      assert multiset(server) == multiset(shares) + (multiset(server) - multiset(shares));
      assert (multiset(server) - multiset(shares))[e] > 0;
    }
  }

  lemma SubMultiset(shares: seq<Entry>, server: seq<Entry>)
    requires EachOnce(shares) && forall e | e in shares :: e in server
    ensures multiset(shares) <= multiset(server)
  {
    forall e | e in multiset(shares) ensures multiset(shares)[e] <= multiset(server)[e] {
      assert e in shares;
    }
  }

  lemma Pack(before: map<Hash, Bytes>, h: Bytes -> Hash, server: seq<Entry>, inclusive: bool, arrivals: seq<seq<Entry>>,
             writes: nat -> bool, store: map<Hash, Bytes>, tree: map<Hash, Hash>, count: nat)
    requires multiset(Flat(arrivals)) == multiset(All(server, inclusive))
    requires tree == TreeOf(h, PutAll(map[], All(server, inclusive))) && count == |All(server, inclusive)|
    requires tree == TreeOf(h, StateMap(server)) <==> Whole(server, inclusive)
    requires count == |server| <==> Whole(server, inclusive)
    requires Whole(server, inclusive) && AllSucceed(writes, |WriteBatches(arrivals)|) ==> store == PutAll(before, server)
    requires store == PutAll(before, server)
             <==> forall e | e in server && e !in Written(WriteBatches(arrivals), writes) :: e.0 in before && before[e.0] == e.1
    requires before == map[] ==> (store == StateMap(server) <==> Whole(server, inclusive) && AllSucceed(writes, |WriteBatches(arrivals)|))
    ensures Synced(before, h, server, inclusive, arrivals, writes, store, tree, count)
  {
    hide Flat, All, TreeOf, PutAll, StateMap, Whole, AllSucceed, WriteBatches, Written;
  }

  /** The tree over some of the server's entries is the tree over all of them exactly if they are all. */
  lemma TreeTells(h: Bytes -> Hash, server: seq<Entry>, shares: seq<Entry>)
    requires OneEach(server) && OneEach(shares) && (forall e | e in shares :: e in server)
    requires multiset(shares) == multiset(server) || exists e | e in server :: e !in shares
    ensures TreeOf(h, PutAll(map[], shares)) == TreeOf(h, PutAll(map[], server)) <==> multiset(shares) == multiset(server)
  {
    PutHolds(server);
    PutHolds(shares);
    if multiset(shares) == multiset(server) {
      OrderIrrelevant(shares, server);
    } else {
      var e :| e in server && e !in shares;
      hide PutAll, Leaf;
      var all, some := PutAll(map[], server), PutAll(map[], shares);
      assert e.0 in all && e.0 !in some;
      assert e.0 in TreeOf(h, all) && e.0 !in TreeOf(h, some);
    }
  }

  /** The store once the shares arrived. */
  lemma StoreTells(before: map<Hash, Bytes>, server: seq<Entry>, shares: seq<Entry>, arrivals: seq<seq<Entry>>, writes: nat -> bool)
    requires OneEach(server) && EachOnce(shares) && (forall e | e in shares :: e in server)
    requires multiset(Flat(arrivals)) == multiset(shares)
    requires multiset(shares) == multiset(server) || exists e | e in server :: e !in shares
    ensures var chunks := WriteBatches(arrivals);
            var written := Written(chunks, writes);
            var store, all := PutAll(before, written), PutAll(before, server);
            var whole := multiset(shares) == multiset(server);
            && (store == all <==> forall e | e in server && e !in written :: e.0 in before && before[e.0] == e.1)
            && (whole && AllSucceed(writes, |chunks|) ==> store == all)
            && (before == map[] ==> (store == all <==> whole && AllSucceed(writes, |chunks|)))
  {
    var chunks := WriteBatches(arrivals);
    var written, lost := Written(chunks, writes), Lost(chunks, writes);
    hide PutAll, Written, Lost, WriteBatches, Flat, OneEach;
    BatchesHold(arrivals);
    SplitInTwo(chunks, writes);
    PartsApart(shares, written, lost);
    CompleteOver(before, server, written);
    Members(shares, server);
    if AllSucceed(writes, |chunks|) {
      NothingLost(chunks, writes);
    } else {
      var k :| 0 <= k < |chunks| && !writes(k);
      SomethingLost(chunks, writes, k);
      assert lost[0] in lost;
    }
  }

  lemma Members(a: seq<Entry>, b: seq<Entry>)
    ensures multiset(a) == multiset(b) ==> forall e :: e in a <==> e in b
  {
    if multiset(a) == multiset(b) { SameMembers(a, b); }
  }

  /** A sync whose every write fails leaves an empty store empty, and is verified all the same. */
  lemma VerifiedThoughUnwritten(h: Bytes -> Hash, rootOf: map<Hash, Hash> -> Hash, server: seq<Entry>, arrivals: seq<seq<Entry>>)
    requires Sorted(server) && |server| > 0 && multiset(Flat(arrivals)) == multiset(server)
    ensures var store := PutAll(map[], Written(WriteBatches(arrivals), k => false));
            var tree := TreeOf(h, PutAll(map[], Flat(arrivals)));
            && store == map[] != StateMap(server)
            && VerifyRoot(rootOf(tree), HexUpper(rootOf(TreeOf(h, StateMap(server)))))
  {
    var r := rootOf(TreeOf(h, StateMap(server)));
    NoneWritten(WriteBatches(arrivals));
    SortedSize(server);
    SortedOneEach(server);
    OrderIrrelevant(Flat(arrivals), server);
    HexRoundTrip(r);
    NoSpaces(r);
    assert PutAll(map[], []) == map[];
    hide PutAll, Flat, Written, WriteBatches, TreeOf, HexUpper, HexDecode, Trim;
    assert StateMap(server) == PutAll(map[], server);
    assert |StateMap(server)| > 0;
  }

  lemma {:induction false} NoneWritten(chunks: seq<seq<Entry>>)
    ensures Written(chunks, k => false) == []
  {
    if |chunks| > 0 { NoneWritten(chunks[..|chunks| - 1]); }
  }

  lemma NoSpaces(b: Bytes)
    requires |b| > 0
    ensures Trim(HexUpper(b)) == HexUpper(b)
  {
    var s := HexUpper(b);
    HexChars(b);
    assert !IsSpace(s[0]) && !IsSpace(s[|s| - 1]);
    hide HexUpper;
  }

  lemma {:induction false} HexChars(b: Bytes)
    ensures forall i | 0 <= i < |HexUpper(b)| :: !IsSpace(HexUpper(b)[i])
  {
    if |b| > 0 { HexChars(b[1..]); }
  }

  lemma SameSize(a: seq<Entry>, b: seq<Entry>)
    requires multiset(a) == multiset(b)
    ensures |a| == |b|
  {
    assert |multiset(a)| == |a| && |multiset(b)| == |b|;
  }
}
