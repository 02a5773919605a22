# Verified models of an XRPL validator

Dafny models of the parts of this XRP Ledger validator whose correctness is an argument and not a
lookup, and proofs about them. `dafny verify dfyconfig.toml` checks everything.

## What is modelled

**The consensus round recorder** (`RoundJson`, `TrustTables`, `RoundCodec`, `RoundTrip`,
`RoundLayout`, `RoundWriter`, `RoundFiles`, `RoundRotation`, `RoundPlaces`, `RoundFilter`,
`RoundListing`, `RoundContents`, `RoundConservation`, `RoundChannel`).
`RoundWriter.Writer` is the writer thread's state with the source's fields; each method is proved equal
to a function on an abstract state, and the theorems are about every run of those functions: list changes, rotations,
shutdowns, crashes and restarts in any order. They say that every round line of every file decodes
under the last table line before it in that file and gives back what the writer held; that what the
lines hold is the first copies of the messages in order, one line to each new header; that the kept
files are the end of everything written, and what is gone are whole files, one at a time, from the last
number kept; what stands in each column of a line; how long a file gets; that a message is a row at most once in
two lines; and, with senders, channel and counter running beside the writer in any interleaving, that
no message goes unaccounted for, and that the channel keeps their order and can be drained.

**The overlay view and in-order ledger application** (`StateView`, `LedgerApply`, `ConsultBudget`).
A transactor is any function that asks the provider questions and then finishes. Reads and the ordered
successor answer from the materialised state, and the ledger loop refines plain sequential application.

**The transaction tree** (`LengthPrefix`, `TxTree`, `TxTreeShape`). SHA-512Half is any function; binding is stated
as "the same pairs, or the builds collided or hashed something to 32 zero bytes".

**Images and batch bundles** (`ObjectHistory`, `BatchBundle`). Object images rebuilt from metadata,
backward and forward, over histories of any length; batch bundles folded into one pre/post pair.

**Batch modes and bulk sync** (`BatchModes`, `BulkSync`, `BulkBuilder`).

**Wire formats and arithmetic** (`FieldWalker`, `Base58`, `IouAmount`, `NudgeLaws`,
`ClockCheck`).

## Where the code and its claims part

Each of these is proved, with the condition under which the claim does hold.

- The recorder's documentation says an unknown validation key is listed the first time a file sees it.
  A restart appends to the same file with nothing noted, so the key is listed again:
  `RoundListing.ListedTwice` is a run in which it is. A run without a restart lists it at most once in
  every file (`RoundListing.ListedOnceWithoutRestart`), and of every run and every file, a key is listed
  more than once if and only if two writers of the file each listed it (`RoundListing.ListedTwiceExactly`).
- `merge_batch_bundle.py` takes the first bundle's pre value as the state before the batch. That is
  false of an object the batch itself created (`BatchBundle.MergeSeatsMidBatchImage`) and true exactly
  where `build_batch.py`'s first repair would leave the key alone (`BatchBundle.FirstOccurrenceIsPreBatch`).
- `verify` in `fetch_meta_ledgers.py` does not ask that transaction ids be distinct. A list is bound by
  its root, up to a break of the hash, if and only if its ids are distinct (`TxTree.BoundExactly`), and an
  answer padded with a pair that a later one overwrites is accepted exactly if the answer is
  (`TxTree.OverwrittenIsAccepted`).
- The field walkers take an XRP amount of 2^61 drops or more for an MPT amount
  (`FieldWalker.XrpWalkedExactly`), and `_skip` stops four bytes short of an MPT issue
  (`FieldWalker.LenientShortOnMptIssue`).
- The clock gate asks for two answers; with exactly two, one wrong server can stop signing
  (`ClockCheck.OneOfTwoCanFlip`), with three it cannot (`ClockCheck.OneOfThreeCannotFlip`).
- Bulk sync decides `verified` by the tree's root alone, and the tree is built from what was received.
  When no worker gives up, the tree is the server's state if and only if the server resumes at a marker
  or holds no start key: one that resumes past it leaves out exactly the three start keys it may have
  (`BulkSync.ExclusiveMisses`, `BulkBuilder.WholeExactly`). The store then holds the server's state exactly
  if each entry not written already stood in it, so begun empty exactly if the shares are the state and
  every write succeeds (`BulkBuilder.Sync`); with every write failing it is verified all the same
  (`BulkBuilder.VerifiedThoughUnwritten`).
- The head of `bulk_sync.rs` says the done file is written only once the root is verified. It is also
  written, marked as unverified, when the server's account hash could not be had: exactly then or when the
  root matches (`BulkBuilder.Sync`).
- All-or-nothing commits all inners or none if and only if, in a batch whose inners all succeed, the
  engine applies all of them or none (`BatchModes.AtomicExactly`); an engine that applies what it calls a
  success always does (`BatchModes.AllWhenSuccessIsApplied`), and one that does not can end with half
  (`BatchModes.AllOrNothingNeedsApplied`).
- `forward` rebuilds an object's image if and only if the first full toucher added no field
  (`ObjectHistory.ForwardExact`).

## Model

| member | source | states |
|---|---|---|
| RoundFiles.EveryLineReadsBack | crates/xrpl-node/src/consensus_record.rs:712-835 | over every run, with list changes, rotations and restarts: each round line of each file decodes under the last table line before it in that same file, to the batch, header, counters and times the writer held |
| RoundFiles.LineReadsBack | crates/xrpl-node/src/consensus_record.rs:527-632 | reading one file from the top: the table in hand at a round line is the one it was made with, and the line decodes under it |
| RoundFiles.RunIsSound | crates/xrpl-node/src/consensus_record.rs:771-826 | the invariant: every file is readable, an open file's last table is the current one or is due, and a batch stays under its limit |
| RoundTrip.DecodeUndoesEncode | crates/xrpl-node/src/consensus_record.rs:350-632 | decode after encode: header and times exact, bow-outs back as the leave value, the trusted proposals in order and then the first 64 others, each trusted key its validator's table key, every count |
| RoundTrip.InternedResolves | crates/xrpl-node/src/consensus_record.rs:330-346 | an interned index keeps resolving to its own hash, whatever is interned later |
| RoundTrip.HashesWrittenOnce | crates/xrpl-node/src/consensus_record.rs:330-460 | a line writes each 32-byte value once |
| RoundTrip.FirstSeenIsLeast | crates/xrpl-node/src/consensus_record.rs:358-365 | t0 is the earliest time any of the line's messages was seen, and the writing time if there is none, so no dt saturates |
| RoundTrip.TrustedRowsAreOwned | crates/xrpl-node/src/consensus_record.rs:370-394 | a trusted row's validator owns the key its message was signed with, and the row carries that validator's table key |
| RoundTrip.EveryProposalIsCounted | crates/xrpl-node/src/consensus_record.rs:369-394 | every proposal of a batch is a trusted row or counted as unmapped |
| RoundTrip.NewKeysAreNew | crates/xrpl-node/src/consensus_record.rs:415-420 | the keys a line lists are unknown, new to the noted set, each once, within the allowance, and all of them while it lasts |
| RoundTrip.NotedGrows | crates/xrpl-node/src/consensus_record.rs:415-420 | what is noted after a line is what was noted before and what reading the line back lists |
| RoundLayout.LineLayout | crates/xrpl-node/src/consensus_record.rs:350-460 | where everything stands in a line and what it means, without encoder or decoder: the marks, the header's and the counters' names, the hashes in hex, and the columns of every trusted, other and validation row, each hash by its index and each time from the line's first |
| RoundCodec.HashTable.Ix | crates/xrpl-node/src/consensus_record.rs:336-346 | the list grows by the value if it is new, and the index returned is where the value stands |
| RoundCodec.EncodeRound | crates/xrpl-node/src/consensus_record.rs:350-460 | the loops over proposals and validations, with the interning table updated in place, produce the line and noted set that the codec's theorems are about |
| RoundCodec.EncodeProposals | crates/xrpl-node/src/consensus_record.rs:369-394 | the proposal loop, row for row, with the 64-row limit |
| RoundCodec.EncodeValidations | crates/xrpl-node/src/consensus_record.rs:396-422 | the validation loop, row for row, with the noted-key limit |
| TrustTables.TableReadsBack | crates/xrpl-node/src/consensus_record.rs:274-308 | a table line read back is the table written, index and all |
| TrustTables.LookupFindsOwner | crates/xrpl-node/src/consensus_record.rs:258-272 | a key finds the last validator that has it as master or signing key, and nothing if none has |
| TrustTables.FromKeys | crates/xrpl-node/src/consensus_record.rs:258-267 | the insertion loop builds the index in which a later validator's keys win |
| TrustTables.TableIsSorted | crates/xrpl-node/src/consensus_record.rs:244-256 | one row for each master key the list gives in hex, in ascending order, the least pair where one repeats |
| TrustTables.ListOrderIrrelevant | crates/xrpl-node/src/consensus_record.rs:244-256 | a list served in another order is the same table, so no new table line is due |
| TrustTables.ListedKeysAreFound | crates/xrpl-node/src/consensus_record.rs:244-272 | every master key the list gives in hex is found by lookup, and so is its signing key when the entries of that master agree on it |
| TrustTables.TableLayout | crates/xrpl-node/src/consensus_record.rs:274-290 | a table line field by field, a row being the master key's hex and the signing key's or null |
| RoundWriter.Writer.Handle | crates/xrpl-node/src/consensus_record.rs:712-747 | one event takes the writer's whole state to the state the run theorems are about, closing a line on a new header or a full batch |
| RoundWriter.Writer.FirstCopy | crates/xrpl-node/src/consensus_record.rs:749-751 | true exactly if the message was accepted neither since the last line nor in the window before it, and then it is remembered |
| RoundWriter.SameMessage | crates/xrpl-node/src/consensus_record.rs:648-661 | two proposals are one message exactly if all but the time seen agree, two validations exactly if they are one blob |
| RoundWriter.Writer.Flush | crates/xrpl-node/src/consensus_record.rs:753-769 | the batch is taken, the windows shift, and the line written is made of that batch |
| RoundWriter.Writer.WriteRound | crates/xrpl-node/src/consensus_record.rs:771-795 | the line goes to a file with room for it, after a rotation and re-encoding if needed and behind the table if that is due |
| RoundWriter.Writer.Open | crates/xrpl-node/src/consensus_record.rs:797-807 | the size is the file's length and the table is due again |
| RoundWriter.Writer.Rotate | crates/xrpl-node/src/consensus_record.rs:809-826 | the directory becomes what RoundPlaces.RotationMoves describes, and a fresh file is open with nothing noted |
| RoundWriter.Writer.Shift | crates/xrpl-node/src/consensus_record.rs:813-823 | the renaming loop, from the oldest kept file down |
| RoundWriter.Writer.Close | crates/xrpl-node/src/consensus_record.rs:702-710 | rows that are left are written when the channel closes |
| RoundRotation.KeptIsSuffix | crates/xrpl-node/src/consensus_record.rs:797-835 | over every run, the kept files read oldest to newest are a suffix of everything ever written |
| RoundPlaces.OnlyOldestLeave | crates/xrpl-node/src/consensus_record.rs:712-835 | over every run, everything written is the files that have left, whole and in order, and then what is kept; each left when it stood at the last number, and no step makes more than one leave |
| RoundPlaces.RotationMoves | crates/xrpl-node/src/consensus_record.rs:809-826 | with old files kept, a rotation leaves the current place free and moves every file below the last number one up; a file at the last number stays only if none comes to replace it |
| RoundPlaces.RotationDrops | crates/xrpl-node/src/consensus_record.rs:809-826 | what was kept is what a rotation drops, the file at the last number if another takes its place, and then what it keeps |
| RoundPlaces.LineFindsItsFile | crates/xrpl-node/src/consensus_record.rs:771-795 | a line that fits goes to the open file; any other is the first of a fresh one, and the file it would not fit in is then number 1 |
| RoundRotation.RotationKeepsSuffix | crates/xrpl-node/src/consensus_record.rs:809-826 | one rotation keeps the end of what was kept, whatever places are free, and leaves the current place free |
| RoundRotation.FilesAreLimited | crates/xrpl-node/src/consensus_record.rs:809-826 | over every run there is no file past the last number kept |
| RoundRotation.FilesStayBounded | crates/xrpl-node/src/consensus_record.rs:771-835 | over every run the tracked size is the open file's length, and every file ends in a round line and exceeds max(rotate_bytes, that line + 1) by at most one table line and its newline |
| RoundRotation.ReadyHasRoom | crates/xrpl-node/src/consensus_record.rs:778-783 | the file a line goes to has room for it or is empty, also when the re-encoded line is longer |
| RoundFilter.RowsOnceInTwoLines | crates/xrpl-node/src/consensus_record.rs:720-751 | over every run a message is a row at most once in any two lines in a row, the batch being filled included, and each validation row is what its message parses to |
| RoundFilter.ListedOncePerWriter | crates/xrpl-node/src/consensus_record.rs:415-420 | over every run a writer lists an unknown key at most once in what it puts into a file, and that is the file's end |
| RoundFilter.ListedExactly | crates/xrpl-node/src/consensus_record.rs:771-783 | while the allowance lasts, the next line lists exactly the unknown keys this writer has not listed in this file |
| RoundFilter.RestartListsAgain | crates/xrpl-node/src/consensus_record.rs:682-700 | whatever files a new writer finds, the first line it appends lists an unknown key again that the file already holds |
| RoundListing.ListedTwiceExactly | crates/xrpl-node/src/consensus_record.rs:682-835 | over every run and every file: a key is listed more than once if and only if two writers of that file each listed it; no writer lists it twice |
| RoundListing.ListedOnceWithoutRestart | crates/xrpl-node/src/consensus_record.rs:712-835 | over every run without a restart, every file lists a key at most once |
| RoundListing.ListedTwice | crates/xrpl-node/src/consensus_record.rs:682-700 | a run of one validation, one header, a restart and the same again leaves one file with the key listed twice |
| RoundContents.LinesFollowEvents | crates/xrpl-node/src/consensus_record.rs:702-769 | over every run, the rows of the writer's lines and of the waiting batch are the messages since it started that were in neither window when they came, the windows being those of the events alone, in order; the lines with a header are one for each header that differs from the one before; a line without one holds 8,192 rows |
| RoundContents.CopiesExactly | crates/xrpl-node/src/consensus_record.rs:749-751 | over every run a message is taken for a copy exactly if its digest was accepted since the last line or between the last two, as told from the events alone |
| RoundContents.ClosedLine | crates/xrpl-node/src/consensus_record.rs:753-795 | an event closes at most one line, under the table of the last list that came and with the lost count and time it found |
| RoundContents.FlushedLine | crates/xrpl-node/src/consensus_record.rs:753-769 | a flush writes one line, made of all that waits, and leaves nothing waiting |
| RoundConservation.NothingUnaccounted | crates/xrpl-node/src/consensus_record.rs:844-885 | in every interleaving: proposals sent = in the channel + in hand + turned away + waiting + the sum over lines of trusted rows, n.pu and n.pdup; validations likewise with vu, vdup and vbad; events turned away = the sum of n.lost + the live counter + those about to be added |
| RoundConservation.LineAccounts | crates/xrpl-node/src/consensus_record.rs:369-455 | what a reader of one line counts is exactly what the batch stood for |
| RoundConservation.WriterRuns | crates/xrpl-node/src/consensus_record.rs:702-710 | beside any senders the writer's state is one its own runs reach, so the file theorems apply |
| RoundConservation.ShutdownWritesRows | crates/xrpl-node/src/consensus_record.rs:702-710 | a shutdown leaves no row unwritten; with no row waiting it leaves at most counts |
| RoundChannel.ChannelKeepsOrder | crates/xrpl-node/src/consensus_record.rs:844-885 | in every interleaving, what the writer has handled, what it holds and what waits are together the events that found room, in the order sent; at most 16,384 wait, and none once closed |
| RoundChannel.CanDrain | crates/xrpl-node/src/consensus_record.rs:702-710 | from any state the writer can go on alone until it has handled every event that found room, and shut down |
| LedgerApply.ApplyLedger | crates/xrpl-node/src/ffi_engine.rs:2305-2519 | from peers: the returned overlay over the snapshot is the state after all transactions in sequence |
| LedgerApply.ApplyInOrder | crates/xrpl-node/src/ffi_engine.rs:2374-2519 | the loop, with no consult and no recovery: by the provider's own logs each transaction begins on the state left by all earlier ones in sequence, and threads its mutations once if its result is tes or tec; the provider ends on the state after all of them |
| LedgerApply.ApplyNext | crates/xrpl-node/src/ffi_engine.rs:2389-2519 | one transaction takes the provider's view to the state the transaction makes of it, or leaves it if the entry is an inner one; on tesSUCCESS or a tec code the view ends mutated and that one list is logged, on ter, tef, tem and tel view and log stay |
| LedgerApply.StepByText | crates/xrpl-node/src/ffi_engine.rs:2474-2519 | by the result's text: tesSUCCESS and every tec code leave the mutated state and thread that one list, ter, tef, tem and tel leave the state and thread nothing |
| LedgerApply.ThreadsByText | crates/xrpl-node/src/ffi_engine.rs:2474-2475 | what threads is tesSUCCESS and what begins with tec |
| LedgerApply.MutatedReads | crates/xrpl-node/src/ffi_engine.rs:2502-2519 | a key holds what the last mutation of it left, nothing after a deletion |
| LedgerApply.MutatedKeeps | crates/xrpl-node/src/ffi_engine.rs:2502-2519 | a key no mutation names is as it was |
| LedgerApply.InnersAre | crates/xrpl-node/src/ffi_engine.rs:2321-2396 | the entries passed over are exactly those some transaction carries |
| LedgerApply.Provider.ReadKey | crates/xrpl-node/src/ffi_engine.rs:968-1083 | a read is the effective state's entry, a tombstone is never read past, a miss consults only within the budget and takes one, and every miss is counted once |
| LedgerApply.Provider.Apply | crates/xrpl-node/src/ffi_engine.rs:2400-2470 | outcome and budget are those of the transactor against overlay, snapshot and server, consults included; with no consult allowed, those against the materialised state; the view it began on goes on the log |
| LedgerApply.Provider.Thread | crates/xrpl-node/src/ffi_engine.rs:2502-2519 | the mutations in order, a deletion as a tombstone, and the list goes on the log of lists threaded |
| LedgerApply.ThreadingApplies | crates/xrpl-node/src/ffi_engine.rs:2502-2519 | threading mutations into the overlay is applying them to the state under it |
| LedgerApply.ApplyOne | crates/xrpl-node/src/ffi_engine.rs:2474-2637 | the final outcome, the entries fetched and the budget are those of one attempt and its recovery; the log of lists threaded grows by exactly the final mutations if the result is tes or tec and by nothing otherwise |
| LedgerApply.Recover | crates/xrpl-node/src/ffi_engine.rs:2534-2637 | outcome, entries fetched and budget are those of the recovery: round by round the missing entry is fetched, put in the overlay and the transactor tried again, until no new entry is named, nobody has it, 20 rounds are over, or the result is another; the log grows by at most the final list |
| LedgerApply.RecoveryEnds | crates/xrpl-node/src/ffi_engine.rs:2534-2637 | a recovery takes at most its rounds, never fetches one entry twice running, and ends in an outcome of the transactor on the state with what was fetched, unless it ends as it began |
| LedgerApply.RecoveryGoesOn | crates/xrpl-node/src/ffi_engine.rs:2534-2637 | a recovery does not stop early: one that ends in tefBAD_LEDGER has no round left, no new entry named that somebody has, or a last attempt without outcome |
| LedgerApply.NoConsultNoDifference | crates/xrpl-node/src/ffi_engine.rs:1022-1045 | with no consult allowed the answers through the provider are those of the materialised state, whatever the server would say |
| LedgerApply.CapturePreState | crates/xrpl-node/src/ffi_engine.rs:2018-2043 | the captured images are the effective state's entries for the Modified keys that have one, and nothing else |
| LedgerApply.ComparedSet | crates/xrpl-node/src/ffi_engine.rs:2125-2142 | capture and filter together drop exactly the Modified mutations whose bytes the effective state already had |
| ConsultBudget.GrantsAreExact | crates/xrpl-node/src/ffi_engine.rs:1023-1045 | under every interleaving of the compare-and-swap loops, consults granted = budget spent, and of N finished misses exactly min(N, budget) were granted |
| StateView.Succ | crates/xrpl-node/src/ffi_engine.rs:1085-1143 | the least key of snapshot minus tombstones plus live overlay keys in the open interval, or none exactly if there is none, though the store holds keys of other lengths and the overlay is unsorted |
| StateView.SnapshotCandidate | crates/xrpl-node/src/ffi_engine.rs:1098-1124 | the scan's least 32-byte key in the interval that no tombstone hides |
| StateView.OverlayCandidate | crates/xrpl-node/src/ffi_engine.rs:1126-1135 | the least live overlay key in the interval |
| StateView.Get | crates/xrpl-node/src/ffi_engine.rs:789-791 | the snapshot's entry under a key, or none |
| StateView.IntervalIsOpen | crates/xrpl-node/src/ffi_engine.rs:1085-1143 | the interval asked about is open at both ends, in the order of the numbers the keys' bytes are |
| TxTree.RootBindsLists | scripts/fetch_meta_ledgers.py:58-77 | two lists of distinct ids with one root are permutations of each other, or their builds hold a collision or a preimage of 32 zero bytes |
| TxTree.RootBinding | scripts/fetch_meta_ledgers.py:58-77 | a root binds the dictionary of pairs under it, ids repeated or not |
| TxTree.NodeBinding | scripts/fetch_meta_ledgers.py:65-74 | two subtrees at one depth with one hash hold the same pairs, or their builds break the hash |
| TxTree.RepeatedIdEscapes | scripts/fetch_meta_ledgers.py:60-63 | the least instance: two pairs of one blob leave the dictionary of the later one |
| TxTree.BoundExactly | scripts/fetch_meta_ledgers.py:58-77 | a list is bound by its root among the lists no longer than it, up to a break of the hash, if and only if its ids are distinct |
| TxTree.OverwrittenLeavesNoTrace | scripts/fetch_meta_ledgers.py:60-63 | a pair whose id comes again later leaves the dictionary, and so the root, as it was |
| TxTree.RepeatedHasShorter | scripts/fetch_meta_ledgers.py:60-63 | every list with a repeated id has the dictionary of a shorter list of its own pairs |
| TxTree.OverwrittenIsAccepted | scripts/fetch_meta_ledgers.py:114-134 | an answer padded with an overwritten pair is accepted exactly if the answer is |
| TxTree.FullPrefixIsOneKey | scripts/fetch_meta_ledgers.py:65-74 | keys that share 64 nibbles are one key, so the recursion ends |
| TxTreeShape.NibbleIsHexDigit | scripts/fetch_meta_ledgers.py:65-74 | a key's path is its hex text: the child taken at each depth is the next digit |
| TxTreeShape.RootShape | scripts/fetch_meta_ledgers.py:58-77 | the root of a dictionary with a pair in it, one included, is the hash of the inner prefix and sixteen children, each the leaf, the node or the zeros of the ids that begin with its digit; of none, zeros |
| TxTreeShape.InnerShape | scripts/fetch_meta_ledgers.py:65-74 | the same of every inner node, a key alone under its digit standing there as its leaf |
| TxTreeShape.LeafTextReads | scripts/fetch_meta_ledgers.py:60-63 | a leaf's text is the prefix, blob and metadata each behind its length, and the id, and reads back as such |
| TxTreeShape.PrefixText | scripts/fetch_meta_ledgers.py:62-74 | the three prefixes are TXN, SND and MIN, each with a zero byte |
| TxTreeShape.HonestIsAccepted | scripts/fetch_meta_ledgers.py:114-134 | an honest answer is accepted, its hex in either case and its list in any order |
| TxTreeShape.AcceptedHeader | scripts/fetch_meta_ledgers.py:114-134 | what is accepted has the rebuilt root for a header |
| TxTree.BuildNode | scripts/fetch_meta_ledgers.py:65-74 | the recursion over filtered lists computes the trie's hash and ends within 64 levels |
| TxTree.Build | scripts/fetch_meta_ledgers.py:58-77 | the root of the list's dictionary and its ids in order; refused exactly if a blob or metadata has no length prefix |
| TxTree.Verify | scripts/fetch_meta_ledgers.py:114-134 | acceptance holds exactly if the answers are validated, name one ledger, rebuild the header's root and list the same ids |
| TxTree.AcceptedUnderOneHeader | scripts/fetch_meta_ledgers.py:114-134 | two answers accepted under one header keep the same pairs, or break the hash |
| LengthPrefix.WriteThenRead | scripts/fetch_tx_bundle.py:259-266 | both writers agree up to 918744, and all three readers give the length and the prefix's end back wherever it stands |
| LengthPrefix.ReadThenWrite | scripts/fetch_meta_ledgers.py:45-55 | what the strict readers accept within the limit is exactly what the writer writes |
| LengthPrefix.ReadersAgree | crates/xrpl-node/src/engine.rs:147-164 | the three readers differ only where a prefix starts with 255 or runs past the buffer |
| LengthPrefix.PrefixedInjective | scripts/fetch_meta_ledgers.py:61-63 | a concatenation of length-prefixed strings is of one pair of strings only |
| ObjectHistory.BackwardExact | scripts/fetch_tx_bundle.py:1419-1437 | for any legal history, the image this transaction found, to the byte, whenever the last full earlier touch is a modification or there is none |
| ObjectHistory.ForwardExact | scripts/fetch_tx_bundle.py:1439-1465 | for any legal continuation, the image this transaction found if and only if the first full toucher added no field |
| ObjectHistory.ForwardOwn | scripts/fetch_tx_bundle.py:1439-1465 | the same for an object nobody touched earlier, whose own thread stands in the metadata |
| ObjectHistory.DerivationsAgree | scripts/fetch_tx_bundle.py:1419-1465 | the two derivations never disagree where both are exact |
| ObjectHistory.ForwardStopsAtCreation | scripts/fetch_tx_bundle.py:1448-1449 | no image is rebuilt across a re-creation |
| ObjectHistory.Backward | scripts/fetch_tx_bundle.py:1419-1437 | the loop over earlier touchers, last one first, is the derivation the theorem is about |
| ObjectHistory.Forward | scripts/fetch_tx_bundle.py:1439-1465 | the loop over later touchers gives the specified derivation, and `own` exactly if the first full toucher is this transaction with only thread stamps before it |
| ObjectHistory.StampReads | scripts/fetch_tx_bundle.py:186-197 | the stamp reads back: type 2, field 5 and the ledger's number big-endian; type 5, field 5 and the transaction's hash |
| BatchBundle.BuiltBundleIsNetEffect | scripts/build_batch.py:105-161 | every pre value is the state before the whole batch, every post value the state after it; what changed is in post, and in pre if it existed; what was made and unmade inside is in neither |
| BatchBundle.FirstOccurrenceIsPreBatch | scripts/build_batch.py:108-126 | first occurrence gives the image before the batch if and only if repair 1 leaves the key alone |
| BatchBundle.LastOccurrenceIsPostBatch | scripts/merge_batch_bundle.py:62-70 | last occurrence gives the image after the batch |
| BatchBundle.MergeSeatsMidBatchImage | scripts/merge_batch_bundle.py:62-70 | without the repairs a mid-batch image is seated in pre |
| BatchBundle.Merge | scripts/merge_batch_bundle.py:62-70 | first occurrence wins in pre, last occurrence in expect |
| BatchBundle.Build | scripts/build_batch.py:105-161 | the dictionaries after the merge and its repairs, as the net-effect theorem reads them, and how many keys each repair added |
| BatchBundle.HydratedReads | scripts/build_batch.py:136-155 | a synthesised read reaches pre, the first one of a key winning, unless the batch created the key or pre has it; nothing else does |
| BatchBundle.PinnedReads | scripts/build_batch.py:128-161 | an untouched pre value is pinned in post, a touched key stands as it was left, and what goes is exactly the deletions of keys not there before |
| BatchModes.ApplyInners | ffi/xrpl_shim.cpp:156-179 | the view is left holding the in-order fold of the kept inners among those reached; which are reached, and when the answer is to commit |
| BatchModes.KeptByCode | ffi/xrpl_shim.cpp:167-169 | an inner is kept exactly if it was applied with code 0 or one from 100 to 255 |
| BatchModes.ApplyBatch | ffi/xrpl_shim.cpp:183-194 | what the ledger's view holds after a successful outer |
| BatchModes.OpenView.FoldInto | ffi/xrpl_shim.cpp:165-169 | folding a nested view into the one below makes its state that view's state |
| BatchModes.AllOrNothing | ffi/xrpl_shim.cpp:171-173 | the view is as the outer left it unless every inner succeeded, and then holds the fold of those the engine applied |
| BatchModes.AtomicExactly | ffi/xrpl_shim.cpp:167-178 | for every engine and batch: all inners are committed or none if and only if, where every inner succeeds, the engine applies all or none |
| BatchModes.AllWhenSuccessIsApplied | ffi/xrpl_shim.cpp:167-178 | where tes implies applied, a batch of successes is committed in full and any other leaves the view as it was |
| BatchModes.CommittedIsHeld | ffi/xrpl_shim.cpp:189-193 | the view holds the writes of the committed inners in order, and with none committed it is as it was |
| BatchModes.OnlyOne | ffi/xrpl_shim.cpp:174-176 | every inner before the last reached failed, and the run ends early only on a success |
| BatchModes.UntilFailure | ffi/xrpl_shim.cpp:171-174 | only the last inner reached may have failed, and the run ends early only on a failure |
| BatchModes.Independent | ffi/xrpl_shim.cpp:164-178 | every inner runs, and the view holds the fold of those kept |
| BatchModes.AllOrNothingNeedsApplied | ffi/xrpl_shim.cpp:167-178 | an engine that calls two inners a success and applies one ends an all-or-nothing batch with that one committed |
| BulkSync.Collect | crates/xrpl-node/src/bulk_sync.rs:207-303 | a worker aborts exactly if the server makes it meet more than 50 errors before its last page; otherwise it sends exactly its share, in order, whatever the page sizes; aborted or not, what it sends is a prefix of it |
| BulkSync.AnsweredInFull | crates/xrpl-node/src/bulk_sync.rs:225-303 | a worker whose every question is answered never gives up |
| BulkSync.NeverAnswered | crates/xrpl-node/src/bulk_sync.rs:225-303 | a server that only fails is given up on |
| BulkSync.ShareRange | crates/xrpl-node/src/bulk_sync.rs:204-224 | a worker's share holds only keys whose first byte is in its own sixty-four |
| BulkSync.SharesCover | crates/xrpl-node/src/bulk_sync.rs:204-224 | with a server that resumes at the marker the four shares in a row are the whole state: each key in exactly one |
| BulkSync.ExclusiveMisses | crates/xrpl-node/src/bulk_sync.rs:222-224 | with one that resumes after it, exactly the three start keys are missed |
| BulkBuilder.AnyInterleaving | crates/xrpl-node/src/bulk_sync.rs:308-345 | with a server that resumes at the marker, every interleaving of the completed workers' batches is its state, each entry once |
| BulkBuilder.InterleavedShares | crates/xrpl-node/src/bulk_sync.rs:308-345 | with any server, every interleaving of the completed workers' batches is the four shares, each entry once |
| BulkBuilder.WholeExactly | crates/xrpl-node/src/bulk_sync.rs:204-224 | the shares are entries of the server's, each once, and all of them if and only if it resumes at the marker or has no start key |
| BulkBuilder.Build | crates/xrpl-node/src/bulk_sync.rs:311-345 | tree and count follow what was received whatever is written; the store takes exactly the write batches whose write succeeds, and the failures are the false answers among the writes made |
| BulkBuilder.BatchSizes | crates/xrpl-node/src/bulk_sync.rs:328-345 | every write but the last holds at least 10,000 entries, the last fewer |
| BulkBuilder.Sync | crates/xrpl-node/src/bulk_sync.rs:200-409 | end to end, over any store, server, page sizes, interleaving and write results: if no worker gives up, tree and count are the shares whatever is written, and the server's state exactly if it resumes at the marker or has no start key; the store holds the state exactly if each entry not written stood in it before, begun empty exactly if the shares are the state and every write succeeds; verdict and done file follow the tree's root |
| BulkBuilder.CompleteExactly | crates/xrpl-node/src/bulk_sync.rs:328-345 | a store after some of the server's entries were written equals the one after all of them exactly if the others stood in it already |
| BulkBuilder.CompleteOver | crates/xrpl-node/src/bulk_sync.rs:328-345 | the same for any of the server's entries written, in any number |
| BulkBuilder.VerifiedThoughUnwritten | crates/xrpl-node/src/bulk_sync.rs:332-409 | with every write failing the store stays empty and the sync is verified |
| BulkBuilder.VerifyRoot | crates/xrpl-node/src/bulk_sync.rs:72-77 | a match is exactly hex text of our root, in either case and any surrounding space; empty text never matches |
| BulkBuilder.TrimExact | crates/xrpl-node/src/bulk_sync.rs:72-77 | trimming takes off the space around a text and none inside it |
| FieldWalker.SkipExact | scripts/fetch_tx_bundle.py:95-129 | both walkers stop exactly past the serialization of every value they are meant for, nested to any depth, numbers being written big-endian in the width of their type, hashes in theirs and path parts in twenty bytes |
| FieldWalker.ScalarWidth | scripts/fetch_tx_bundle.py:68-129 | the width in the walkers' table is the width the format gives each fixed type |
| FieldWalker.NumbersRead | scripts/check_field_meta.py:43 | a number of 1, 2, 4 or 8 bytes is the big-endian value of its bytes |
| FieldWalker.SignedRead | scripts/check_field_meta.py:43 | a signed number of 4 or 8 bytes is its two's complement |
| FieldWalker.XrpReads | scripts/fetch_tx_bundle.py:95-101 | an XRP amount is its drops and, above them, the sign bit |
| FieldWalker.FlagsTell | scripts/check_field_meta.py:152-163 | a path step's flag byte tells which of its parts follow and how long they are together |
| FieldWalker.StepTells | scripts/check_field_meta.py:152-163 | a step's first byte names the account, the currency and the issuer by bits 0, 4 and 5, and they follow in that order |
| FieldWalker.StrictStaysInside | scripts/check_field_meta.py:110-163 | whatever the bytes, the strict walker never stops past the buffer |
| FieldWalker.StrictOnBlob | scripts/check_field_meta.py:98-109 | on a length-prefixed value the strict walker is the lenient one, but that it refuses a first byte of 255 and a value past the buffer |
| FieldWalker.HeaderExact | scripts/check_field_meta.py:89-97 | a header written in its shortest form is read back with the index past it |
| FieldWalker.Walk | scripts/check_field_meta.py:110-132 | the cursor's loops and mutual recursion compute the specified index, in either mode |
| FieldWalker.WalkFields | scripts/check_field_meta.py:134-142 | the loop over an object's fields to its end marker |
| FieldWalker.WalkPaths | scripts/check_field_meta.py:152-163 | the loop over path steps |
| FieldWalker.CutThenJoin | scripts/fetch_tx_bundle.py:143-202 | an object serialized in field order is cut into consecutive slices, and joining them restores it byte for byte |
| FieldWalker.CutFields | scripts/fetch_tx_bundle.py:143-151 | the cutting loop |
| FieldWalker.Canonical | scripts/fetch_tx_bundle.py:200-202 | the fields joined in (type, field) order |
| FieldWalker.BeforeIsNumeric | scripts/fetch_tx_bundle.py:200-202 | the order of fields is that of 256 × type + field |
| FieldWalker.XrpWalkedExactly | scripts/fetch_tx_bundle.py:99-100 | an XRP amount is walked as eight bytes if and only if it is under 2^61 drops |
| FieldWalker.LenientShortOnMptIssue | scripts/fetch_tx_bundle.py:114-115 | on an MPT issue the lenient walker stops four bytes short |
| Base58.DecodeAddress | crates/xrpl-node/src/engine.rs:12-35 | the account is bytes 1 to 20 of the address's leading zero bytes followed by its base-58 value; refused exactly for a foreign character or fewer than 25 bytes |
| Base58.AlphabetIs | crates/xrpl-node/src/engine.rs:13 | the fifty-eight digits in the ledger's own order |
| Base58.MultiplyAdd | crates/xrpl-node/src/engine.rs:17-26 | one in-place carry pass makes the buffer's value 58 times itself plus the digit, and keeps it shortest |
| Base58.Carry | crates/xrpl-node/src/engine.rs:18-22 | what the bytes cannot hold is left in the carry |
| Base58.AddressRoundTrip | scripts/fetch_tx_bundle.py:473-481 | decoding what `_addr` prints gives the account back, for every account and checksum, and both decoders agree |
| Base58.AddressBytesOf | scripts/fetch_tx_bundle.py:658-663 | the text denotes the payload it was printed from, leading zero bytes included |
| Base58.PrintAddress | scripts/fetch_tx_bundle.py:658-663 | the division loop prints the payload's text |
| IouAmount.TextRoundTrip | crates/xrpl-node/src/fuzz_mutants.rs:61-86 | reading a canonical amount's text denotes exactly mantissa × 10^exponent, and normalising it gives the canonical pair back |
| IouAmount.TextIsShort | crates/xrpl-node/src/fuzz_mutants.rs:77-84 | after a point the text ends in a digit other than zero |
| IouAmount.IouString | crates/xrpl-node/src/fuzz_mutants.rs:61-86 | the popping loop leaves the text the round trip is about |
| IouAmount.NudgeAmount | crates/xrpl-node/src/fuzz_mutants.rs:123-178 | the loops compute the nudge of the canonical amount |
| IouAmount.NudgedCanonical | crates/xrpl-node/src/fuzz_mutants.rs:134-178 | every nudge but the one to zero keeps the mantissa in [10^15, 10^16) |
| NudgeLaws.PpmIs | crates/xrpl-node/src/fuzz_mutants.rs:150-162 | a nudge in millionths moves the mantissa by p millionths of it, the part of a unit dropped, and never below 1 |
| NudgeLaws.HalvedIs | crates/xrpl-node/src/fuzz_mutants.rs:163-169 | halving is half the mantissa rounded down, in sixteen digits |
| NudgeLaws.DoubledIs | crates/xrpl-node/src/fuzz_mutants.rs:170-176 | doubling is exact where it fits and otherwise cuts one digit |
| IouAmount.UlpsInverse | crates/xrpl-node/src/fuzz_mutants.rs:135-149 | an ulp up and an ulp down undo each other on every canonical amount |
| IouAmount.UlpIsAdjacent | crates/xrpl-node/src/fuzz_mutants.rs:135-149 | an ulp is the step to the next amount: no canonical amount lies between |
| IouAmount.TextUlpsInverse | crates/xrpl-node/src/fuzz_mutants.rs:102-182 | a value's text nudged an ulp and back is the canonical text of what it named |
| IouAmount.DropsInverse | crates/xrpl-node/src/fuzz_mutants.rs:103-112 | a drop up is undone by a drop down exactly from 1 drop to the last but one amount, a drop down by a drop up exactly from 2 drops |
| NudgeLaws.DropsMove | crates/xrpl-node/src/fuzz_mutants.rs:103-112 | what each nudge makes of drops, with its least drop and its greatest amount |
| IouAmount.NormalCanonical | crates/xrpl-node/src/fuzz_mutants.rs:125-133 | normalising a positive amount gives sixteen digits |
| NudgeLaws.LoweredCuts | crates/xrpl-node/src/fuzz_mutants.rs:129-132 | cutting down to sixteen digits leaves the whole part of the amount at the new exponent |
| NudgeLaws.RaisedIsExact | crates/xrpl-node/src/fuzz_mutants.rs:125-128 | filling up to sixteen digits is exact |
| NudgeLaws.MarkShifts | crates/xrpl-ledger/src/ledger/keylet.rs:321-332 | a value with an exponent part reads exactly if what stands before the first mark does and what follows is a 32-bit number, which then moves the exponent |
| NudgeLaws.ExponentShifts | crates/xrpl-ledger/src/ledger/keylet.rs:321-332 | an exponent written after any value moves its exponent by what it says, up or down, in either case of the letter |
| NudgeLaws.LongDigits | crates/xrpl-ledger/src/ledger/keylet.rs:341-349 | of more than sixteen significant digits the first sixteen are read and the rest count in the exponent |
| NudgeLaws.ZerosRead | crates/xrpl-ledger/src/ledger/keylet.rs:328-349 | zeros are zero, at the exponent their point gives them |
| ClockCheck.OffsetWithinHalfDelay | crates/xrpl-node/src/clock_check.rs:113-118 | for spans under 2^31 s, across the 2036 wrap, the measured offset is within half the measured round trip plus rounding of the true one |
| ClockCheck.DifferenceOfInstants | crates/xrpl-node/src/clock_check.rs:114 | the wrapping difference of two instants is their true difference |
| ClockCheck.NtpIsWrapped | crates/xrpl-node/src/clock_check.rs:51-56 | a timestamp is the instant modulo 2^64 |
| ClockCheck.MicrosNearest | crates/xrpl-node/src/clock_check.rs:104-108 | the conversion rounds to the nearest microsecond and the cast loses nothing |
| ClockCheck.MajorityBindsMedian | crates/xrpl-node/src/clock_check.rs:121-130 | when a strict majority of answers lies in an interval so does the median |
| ClockCheck.MajorityDecides | crates/xrpl-node/src/clock_check.rs:150-162 | a majority within, or beyond on one side of, the limit decides the verdict |
| ClockCheck.OneOfThreeCannotFlip | crates/xrpl-node/src/clock_check.rs:150-162 | where two of three servers agree, whatever the third says leaves the verdict |
| ClockCheck.OneOfTwoCanFlip | crates/xrpl-node/src/clock_check.rs:150-162 | with two answers one wrong server can stop signing |
| ClockCheck.GateSigns | crates/xrpl-node/src/clock_check.rs:150-162 | the gate skips exactly if it is on and two answers or more, no older than fifteen minutes, put the clock more than a second off |
| Bytes.HexRoundTrip | crates/xrpl-node/src/consensus_record.rs:274-308 | upper-case hex text reads back |

## Left out

- RPC, HTTP, websocket, DNS and UDP traffic, retry sleeps, RocksDB internals, logging, metrics and the
  dashboard: a store is a map, a snapshot a sorted sequence, a page server a sorted sequence behind any
  function that answers truthfully.
- The recorder under write errors: a failed or partial write, and the batch it drops, are not modelled.
  The run theorems begin with an empty directory and assume fewer than 2^64 steps and lists of fewer
  than 2^32 entries.
- JSON text: lines are JSON values and a line's length is any function of the value, so escaping and
  number formatting are not modelled. The 64-bit message digest is any function of the message.
- The 32-bit casts of table and hash indexes: indexes are natural numbers, and the decoding theorem asks
  for a table and a batch that stay within them; the writer's batches always do.
- `parse_validation` is any function from a blob to a validation or nothing.
- Proposals whose hashes are not 32 bytes are dropped before the channel and are not modelled.
- RoundConservation.NothingUnaccounted: counts messages between senders and lines; what the rows hold is
  RoundContents.LinesFollowEvents. A message whose digest collides with another's counts as its copy.
- The end-of-ledger account injected on terPRE_SEQ (crates/xrpl-node/src/ffi_engine.rs:2644-2681): the
  refinement is stated with peers as the source, where that recovery is off.
- LedgerApply.Provider.Apply: a transactor that asks more questions than a bound given to it counts as
  one that gives no outcome; the bound is arbitrary and the same on both sides of every theorem.
- Snapshot read errors, the object arena, latency and per-type statistics of the provider: no effect on
  what is read.
- `LayeredProvider`, `RpcProvider::succ`, offer-book and NFT-page prefetching: they rest on modules not
  modelled here.
- libxrpl itself: a transactor and the batch engine are any functions.
- Directory page reconstruction (`replay_dir`, `indexes_raw`, `page_pre`), default-field restoration and
  `created_consistent`: not part of the object-image theorem.
- ObjectHistory.BackwardExact: metadata is taken to be what a metadata builder leaves for the history
  (`Truthful`), with thread fields in a deleted node's final fields.
- BatchBundle.BuiltBundleIsNetEffect: synthesised read-sets are taken to hold images from before the batch.
- FieldWalker.SkipExact: XRP amounts under 2^61 drops and, for the lenient walker, no MPT issue; the
  exact boundary of the first and the failure of the second are lemmas of their own.
- The byte-scan heuristics (`extract_fee_drops`, `set_xrp_balance` and the like) and the 64-bit float
  value check have no exact property.
- IouAmount.NudgeValue: reads leading minus signs away as the parser does, and does not model the
  JSON object around the value or the exponent's 32-bit overflow.
- ClockCheck: `parse_reply` and the watcher's log throttling are not modelled.
- BulkBuilder.VerifyRoot: trims ASCII white space only.
- BulkSync.Collect: the flag that stops a running sync, and replies with malformed entries, are not
  modelled.
- `verify_header` and the header chain of `fetch_meta_ledgers.py`: a second use of the same hashing.
- The choice and seeding of fuzz mutants (`Rng`, `candidates`, `mutants`): lists.
