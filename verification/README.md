# Verified model of the blockchain simulator

A Dafny model of a deterministic blockchain simulator: a round-based Tendermint-style consensus with locks, a replicated
state machine with nonces and per-sender namespaces, a crash-safe ledger, canonical byte encodings, and a bandwidth-limited
simulated network over a scheduler with lazy deletion. `dafny verify dfyconfig.toml` checks all of it.

## How it is built

Entities that the source changes in place are classes (`State`, `BlockStore`, `VoteSet`, `ConsensusState`,
`VoteSentTracker`, `Disk`, `Ledger`, `EventLog`, `Scheduler`, `Network`), with the source's fields, loops and error branches.
Each has a `View()`, the value of the object, and each method is proved to move the view exactly as a specification function
on values does, whatever the outcome. The theorems are then proved about the specification functions: over every run of a
state machine, every log of votes, every chain, every crash point.

| files | what they hold |
|---|---|
| `Encoding`, `Ordering`, `Crypto`, `Layout` | the encoders, proved decoders for them, the sorted order they rely on, and which field is at which offset |
| `Transactions`, `Votes`, `Blocks`, `BlockStores` | records, their wire forms and identifiers, the write-once store |
| `States`, `Executor`, `Interleaving`, `Bodies`, `Acceptance` | the state object, execution of a block, its independence of interleaving, body validation, and exactly what is accepted |
| `Ledgers`, `Chain` | finalize, persist and load with crash points; what a grown ledger says about the whole chain |
| `VoteSets`, `VoteCounting`, `Consensus`, `Decisions` | vote storage and counting; prevote, lock, precommit, finalize, round change, and exactly when each happens |
| `VoteLog`, `Agreement`, `Replication`, `Scenario` | the transition system with byzantine validators, and what holds in all its runs |
| `Progress`, `SoloRound`, `Runs`, `ProgressRun`, `Tightness`, `LockEscape` | what good rounds achieve, and runs that exist: progress, disagreement beyond the bound, a precommit off the lock |
| `EventLog`, `Scheduler`, `Network`, `Delivery` | the log, the priority queue, the network, and what holds in all their runs |

## Main results

- Agreement: in every run, with votes lost, duplicated, reordered and delayed at will, no two correct validators finalize
  different blocks at one height. It rests on the lock lemma, proved by descent on the round and the position in the vote log.
- The bound is exact: given two valid blocks to disagree about, no run shows a disagreement if and only if fewer than
  2(2f+1) - n validators are byzantine or at most one is correct. The other direction is a run of the code's own steps.
- Replication: correct ledgers that store a height store the same entry there, state and nonces included, although the nonces
  are not in the header. A chain applies each sender's nonces 0, 1, 2, … in order and no identifier twice.
- Crash safety: whatever point of `finalize` is interrupted, the restarted ledger gives every later answer of a ledger that
  never crashed, one that has the entry exactly when the snapshot had been replaced.
- Round progress, for nodes that are unlocked or locked on the proposed block, for every n except 2, 3 and 6, also as a run
  of the system in which the vote tracker is asked; and for these three n a vote set can hold two quorums in one slot.
- Bounded wait: message number s sent for tick t is delivered by tick t + s, whatever is sent before, between or afterwards;
  no tick exceeds the bandwidth; `run` terminates and then every message has been delivered exactly once.
- Exact conditions, counted and written out rather than taken from the code: when a block executes and what it leaves, when a
  snapshot loads, a vote is for the proposal, a node locks, commits, finalizes and proposes, an envelope is accepted, a message
  is sent or put off. Every logged vote of a correct validator carries its signature.
- Every wire form is read back by a proved decoder, in both directions: b encodes x if and only if the decoder reads x from b.

## Hypotheses, and where the code and its documentation differ

- SHA-256 and Ed25519 are parameters. A theorem that needs collision resistance names the hash inputs of the run in question
  and assumes that no two of them collide (`CollisionFree`); no global injectivity is assumed.
- `f = (n - 1) // 3` and the quorum is `2f + 1` (src/vote_set.py:229-230). The protocol document under docs/ speaks of
  n = 3f + 1, where the hypothesis of `Agreement` is that at most f validators are byzantine. The code accepts every n, and
  for n = 8, say, two byzantine validators, although f is 2, are enough for a run in which correct ones disagree.
- `make_prevote` and `make_precommit` do not ask the `VoteSentTracker`; the correct validators of `Agreement` do, as its
  docstring asks (src/consensus.py:956-964), and lock at the current round immediately before they precommit.
  `make_precommit` alone may leave the lock (`LockEscapes.PrecommitMayLeaveTheLock`).
- A correct validator admits a prevote only for a block whose header it holds, as the protocol document asks: `apply_lock`
  skips unknown headers while `make_precommit` does not (src/consensus.py:664, src/consensus.py:726-735).
- The protocol document asks that an identifier is new in the whole finalized history. The executor only looks inside the
  block; that nothing is replayed follows from the nonces, and is proved (`Chain.NoReplay`).
- src/event_log.py:4 and its docstrings speak of 18 event types; the code has 21, and so has the model.
- Delivery is not first-in first-out: a small later message may fit into a tick in which a large earlier one does not.
- A header contains its round and `propose` never re-proposes a valid block, so no progress is claimed for a node locked on
  another block than the proposed one.

## Model

| member | source | states |
|---|---|---|
| Encoding.BigEndianDecodes | src/encoding.py:12-19 | fixed-width big-endian bytes read back as the number they encode |
| Encoding.BigEndianIsCanonical | src/encoding.py:12-19 | the number read from any byte string encodes to that byte string |
| Encoding.Uint64Decodes | src/encoding.py:12-19 | whatever follows, the decoder recovers the 64-bit integer and leaves the rest |
| Encoding.Uint64IsCanonical | src/encoding.py:12-19 | what the decoder accepts is the encoding of what it returns |
| Encoding.BytesDecodes | src/encoding.py:27-32 | a length-prefixed byte string is recovered, whatever follows |
| Encoding.BytesIsCanonical | src/encoding.py:27-32 | a byte string has one accepted form |
| Encoding.OptionalHashDecodes | src/encoding.py:42-55 | an optional 32-byte hash is recovered, whatever follows |
| Encoding.OptionalHashIsCanonical | src/encoding.py:42-55 | presence bytes other than 0 and 1 are refused, so the form is unique |
| Encoding.ListDecodes | src/transaction.py:33-47 | a counted list of decodable elements is decodable |
| Encoding.ListIsCanonical | src/transaction.py:33-47 | and has one accepted form, when its elements do |
| Encoding.AppendAll | src/encoding.py:92-102 | the loop that grows the buffer element by element computes the concatenation, and fails exactly when one element cannot be encoded |
| Encoding.SortedItems | src/encoding.py:72-90 | the list built and sorted in place is the listing of the map in key order |
| Encoding.EncodeSortedMap | src/encoding.py:58-102 | the loop computes the canonical bytes of the map: the count, then the pairs in key order |
| Encoding.MapOfItems | src/state.py:105-107 | listing a map and storing the pairs again gives the map back |
| Encoding.ItemsOfMap | src/state.py:105-107 | a list with strictly sorted keys is the only listing of its map |
| Encoding.MapDecodes | src/encoding.py:58-102 | a decoder recovers the map from its canonical bytes, so they are injective on maps |
| Encoding.MapIsCanonical | src/encoding.py:58-102 | only the canonical bytes decode to a map: unsorted, repeated or trailing input is refused |
| Ordering.SortedIsUnique | src/encoding.py:90 | there is one sorted order: a strictly sorted list is determined by its elements |
| Ordering.SortSet | src/consensus.py:655 | `sorted` of a set: the strictly sorted list of exactly its elements |
| Crypto.HexIsInjective | src/transaction.py:121-133 | two keys with the same hexadecimal text are equal |
| Transactions.SignedDecodes | src/transaction.py:87-100 | a decoder recovers a transaction from its signed bytes, whatever follows |
| Transactions.SignedIsCanonical | src/transaction.py:87-100 | and a transaction has one accepted byte form |
| Transactions.IdPreimageIsInjective | src/transaction.py:102-119 | the bytes hashed for the identifier determine the transaction although the signature carries no length |
| Transactions.TxIdCommits | src/transaction.py:102-119 | equal identifiers mean equal transactions, as far as the preimages of the run do not collide |
| Transactions.ListRoundTrip | src/transaction.py:30-47 | b is the encoding of a transaction list exactly when the decoder reads that list from b: the decoder the source asks for |
| Transactions.EncodeTransactionList | src/transaction.py:33-47 | the loop computes that encoding, or fails when an element cannot be encoded |
| Transactions.NamespacesAreDisjoint | src/transaction.py:290-301 | no key starts with the namespaces of two senders whose public keys do not collide |
| Votes.SignedDecodes | src/vote.py:82-92 | a decoder recovers a vote from its signed bytes |
| Votes.SignedIsCanonical | src/vote.py:82-92 | and a vote has one accepted byte form |
| Votes.VoteRoundTrip | src/vote.py:65-92 | b is the wire form of v exactly when the decoder reads v from b with nothing left over |
| Blocks.TxRootPayloadIsInjective | src/block.py:41-74 | the hashed payload determines the identifiers and their order |
| Blocks.ComputeTxRoot | src/block.py:41-74 | the loop hashes the count followed by the identifiers in body order |
| Blocks.HeaderRoundTrip | src/block.py:113-141 | b is the wire form of a header exactly when the decoder reads it from b with nothing left over |
| Blocks.BlockHashCommits | src/block.py:143-156 | equal block hashes mean equal headers, as far as the two encodings do not collide |
| Blocks.VotesAreNotHeaders | src/block.py:113-141 | no prevote or precommit has the bytes of a header with a 32-byte parent hash |
| BlockStores.StoreIsWriteOnce | src/block_store.py:37-128 | over every sequence of stores nothing is lost or replaced, and no body is there before its header |
| BlockStores.BlockStore.StoreHeader | src/block_store.py:50-75 | the object becomes the store with the header under its hash, or stays as it is with the reason |
| BlockStores.BlockStore.StoreBody | src/block_store.py:77-110 | a body is stored only under a known header and only once |
| States.StateHashCommits | src/state.py:135-149 | two states with one commitment are equal, unless their canonical bytes collide |
| States.InsertionOrderIsIrrelevant | src/state.py:128-149 | consistent writes in any order, any number of times, give the same commitment |
| States.State.Insert | src/state.py:67-73 | an empty key is refused; otherwise the latest value wins and nothing else changes |
| States.State.Delete | src/state.py:75-81 | the key is gone, nothing else changes, and the result says whether it was there; an empty key is refused |
| States.State.Copy | src/state.py:115-124 | a fresh object with the same entries |
| States.State.Items | src/state.py:105-107 | the pairs in key order |
| States.State.Commitment | src/state.py:135-149 | the digest of the canonical bytes |
| Executor.ExecuteBlock | src/executor.py:84-178 | the loop computes the in-order execution; on failure the very parent objects come back, and the parent is never written |
| Executor.FailureIsFinal | src/executor.py:126-170 | a block that fails at a transaction fails there whatever follows |
| Executor.NonceAfter | src/executor.py:165-170 | a sender's new nonce is the old one plus the number of its transactions |
| Executor.SuccessNonces | src/executor.py:126-170 | in a block that succeeds every sender uses consecutive nonces from the expected one |
| Executor.SuccessIds | src/executor.py:126-178 | the reported identifiers are those of the body in order |
| Executor.NoncesDistinct | src/executor.py:126-170 | no sender uses a nonce twice in one block |
| Executor.DuplicateFailsNonce | src/executor.py:130-153 | a transaction repeated in the block already fails its nonce check |
| Executor.GuardIsRedundant | src/executor.py:132-144 | the in-block duplicate guard never changes which blocks succeed, nor what they produce |
| Interleaving.NamespaceView | src/executor.py:117-178 | seen in the namespace of p, the post-state of a block is that of the transactions of p alone |
| Interleaving.PartSucceeds | src/executor.py:117-178 | a block that succeeds succeeds for each sender alone |
| Interleaving.PartsSuffice | src/executor.py:117-178 | a block whose senders all succeed alone succeeds |
| Interleaving.InterleavingIsIrrelevant | src/executor.py:117-178 | two blocks with the same subsequence for every sender have the same success flag, post-state and nonces |
| Bodies.ComputeTxIds | src/block.py:256 | the identifiers in body order, or failure when one cannot be computed |
| Bodies.ValidateBlockBody | src/block.py:241-304 | the root check, the re-execution and the state check, in that order, with the first failure reported |
| Bodies.ValidMeans | src/block.py:241-304 | an accepted body is executed on the parent to the state the header commits to, and its identifiers hash to the root |
| Bodies.TxRootCommits | src/block.py:41-74 | two bodies with the same root are equal, as far as the hashed inputs do not collide |
| Ledgers.Ledger.ComputeFinalizedHeight | src/ledger.py:87-90 | the largest stored height, 0 for an empty ledger |
| Ledgers.Ledger.PersistEntry | src/ledger.py:212-235 | the disk after a write that succeeds, fails or is cut off at any point: the old snapshot or the new one |
| Ledgers.Ledger.FinalizeBlock | src/ledger.py:103-169 | the guards in order, persisting before publishing, with the whole new ledger and disk |
| Ledgers.Ledger.GetState | src/ledger.py:374-381 | a fresh copy of the stored state; None for a height that is not stored |
| Ledgers.LoadSnapshot | src/ledger.py:241-364 | the restore loops and checks: the one persisted entry comes back, or the error |
| Ledgers.LoadRestores | src/ledger.py:179-364 | writing a sound entry to disk and loading it gives that entry back |
| Ledgers.CrashSafety | src/ledger.py:155-169 | wherever finalize is interrupted, loading gives the head in memory or the one entry being finalized, never older, and a reported append is never lost |
| Ledgers.SameHeadSameAnswers | src/ledger.py:103-169 | two ledgers with the same head accept and reject the same later calls with the same entries and errors |
| Ledgers.RestartIsInvisible | src/ledger.py:241-364 | a restart between calls changes no later answer |
| Ledgers.InterruptedCallIsAtomic | src/ledger.py:155-169 | whatever point of finalize is interrupted, the restarted ledger gives every later answer of one that has the entry, if the snapshot was replaced, and of one that was never asked otherwise |
| Ledgers.LifeStaysSynced | src/ledger.py:155-235 | over every life with crashes and restarts the disk stays in step and the finalized height never goes back |
| Chain.CommitLinks | src/consensus.py:827-867 | a commit that succeeds appends the entry that links to the head; any other leaves the entries alone |
| Chain.TryStaysHealthy | src/consensus.py:827-867 | one commit, crash or restart keeps the ledger a window of one history |
| Chain.GrownLedgersAreChains | src/ledger.py:103-169 | in every state reached by commits, failed writes, crashes and restarts the stored heights are contiguous, end at the finalized height, and form one hash-linked history |
| Chain.HistoryReplays | src/consensus.py:827-867 | every entry holds the state and nonces of replaying all bodies from genesis |
| Chain.SameHeadersBelow | src/block.py:143-156 | equal block hashes at a height force equal headers at every height below |
| Chain.SameHashSameHistory | src/block.py:241-304 | and equal bodies and entries, nonces included |
| Chain.ReplicatedState | src/consensus.py:827-867 | two ledgers grown from empty with the same block hash at a height have equal chains, states and nonces up to it |
| Chain.ChainNonces | src/executor.py:126-170 | along a chain each sender's nonces are 0, 1, 2, … in order and the nonce map counts them |
| Chain.NoReplay | src/executor.py:126-170 | no transaction identifier is applied twice anywhere in a chain |
| VoteSets.VoteSet.Add | src/vote_set.py:68-119 | the first vote of a slot stays; a repetition is ignored; a conflict is recorded and changes no vote |
| VoteSets.VoteSet.VotesOf | src/vote_set.py:145-167 | the stored votes of a slot sorted by validator, none missing |
| VoteSets.ListingIsComplete | src/vote_set.py:145-167 | every stored vote of the slot is in that list |
| VoteSets.VoteSet.CountQuorum | src/vote_set.py:193-243 | the counting loop answers whether 2f+1 distinct validators support the block, and refuses n < 1 |
| VoteSets.QuorumBlocksMeans | src/vote_set.py:193-243 | a block is among the quorum blocks exactly when it has a quorum |
| VoteSets.VotersOfAnyBlock | src/vote_set.py:193-243 | without a block asked for, exactly the validators counted for some block count: NIL never does |
| VoteCounting.OrderAndDuplicationAreIrrelevant | src/vote_set.py:68-119 | without equivocation any reordering and duplication of the votes leaves the same blocks and quorum answers |
| VoteCounting.QuorumIsForever | src/vote_set.py:193-243 | a quorum survives every further vote, conflicting ones included |
| VoteCounting.UniqueQuorum | src/vote_set.py:229-243 | for n other than 2, 3 and 6 two blocks of one slot never both have a quorum |
| VoteCounting.TwoQuorums | src/vote_set.py:229-243 | two large enough halves of the validators give two blocks a quorum in one vote set |
| VoteCounting.UniqueExactlyWhen | src/vote_set.py:229-243 | a slot has at most one quorum block whatever n validators send exactly when n is not 2, 3 or 6 |
| Consensus.FirstWithQuorum | src/consensus.py:655-672 | the scan over sorted candidates returns the least block with a quorum (and a known header, if asked) |
| Consensus.NewConsensusState | src/consensus.py:120-162 | a fresh node at the height, round 0, unlocked, with nothing stored; None for a height that is not positive |
| Consensus.ConsensusState.HasLaterRoundPrevoteQuorum | src/consensus.py:502-529 | the round loop answers whether the block has a prevote quorum in a round after the lock, up to the current one |
| Consensus.ConsensusState.PrevoteBlockOrNil | src/consensus.py:532-588 | the block when unlocked, locked on it or released by a later quorum; NIL otherwise; an error for a hash that is not 32 bytes |
| Consensus.ConsensusState.CastPrevote | src/consensus.py:591-623 | stores and returns the signed prevote for that target |
| Consensus.ConsensusState.HandleProposalTimeout | src/consensus.py:449-495 | a NIL prevote that is sent but not stored, unless a proposal arrived |
| Consensus.ConsensusState.Lock | src/consensus.py:631-672 | locks the least known block with a prevote quorum in the round, and only the lock fields change |
| Consensus.ConsensusState.CastPrecommit | src/consensus.py:687-763 | stores and returns the signed precommit: the lock if it has a quorum, else the least quorum block, else NIL |
| Consensus.PrecommitsOnlyTheLock | src/consensus.py:719-735 | a precommit for a block names the lock exactly when no block has a quorum or the locked one has |
| LockEscapes.PrecommitMayLeaveTheLock | src/consensus.py:719-735 | a run with only correct validators, four of them say, after which a node is locked on a while make_precommit alone would name b |
| Consensus.ConsensusState.DoRoundChange | src/consensus.py:883-918 | the next round with empty vote sets; the lock stays |
| Consensus.ConsensusState.ResetHeight | src/consensus.py:272-293 | a fresh node at the new height; for a height that is not positive, false and no change |
| Consensus.CommitBlock | src/consensus.py:827-867 | re-validates the body on the stored parent and finalizes, with every refusal |
| Consensus.ConsensusState.Finalize | src/consensus.py:779-867 | node and ledger after the precommit scan, the header and body checks, the commit and the height reset, for every outcome |
| Consensus.TrackerRemembers | src/consensus.py:951-991 | over every sequence of record_vote and reset_height a slot is refused exactly when it was recorded and no later height was set since |
| Consensus.VoteSentTracker.RecordVote | src/consensus.py:974-976 | the slot is recorded, nothing else changes |
| Consensus.VoteSentTracker.ResetHeight | src/consensus.py:982-991 | records of lower heights are forgotten, the others stay |
| VoteLog.UsualBound | src/vote_set.py:229-230 | with n = 3f + 1 the hypothesis on byzantine validators is at most f of them |
| VoteLog.HonestOverlap | src/vote_set.py:229-230 | any two quorums of the log share a correct validator |
| VoteLog.OneVotePerSlot | src/consensus.py:956-964 | a correct validator has one vote per slot in the whole log |
| VoteLog.SlotQuorumIsUnique | src/vote_set.py:229-243 | one slot has at most one block with a quorum in the log |
| VoteLog.LockLemma | src/consensus.py:502-588 | once the log holds a precommit quorum for b, no later round ever has a prevote quorum for another block |
| VoteLog.PrecommitQuorumsAgree | src/consensus.py:779-815 | two precommit quorums at one height, in whatever rounds, are for the same block |
| Tightness.SideCommits | src/consensus.py:502-867 | a side with a quorum of votes, byzantine ones included, can be led through the steps of the code until all its correct members have finalized its block, while nobody else moves |
| Tightness.TwoBlocksCommitted | src/consensus.py:502-867 | beyond the bound, with at least two correct validators, there is a run of these steps after which two correct ledgers hold two given blocks at height 1 |
| Tightness.AloneAgrees | src/ledger.py:103-169 | a single correct validator never disagrees with itself, however many are byzantine: no stored entry ever changes |
| Tightness.AgreesExactlyWhen | src/vote_set.py:229-230 | given two valid first blocks to disagree about, no run shows a disagreement exactly when fewer than 2(2f+1) - n validators are byzantine or at most one is correct |
| Tightness.AgreesExactlyWhenHashed | src/vote_set.py:229-230 | the same, with the two empty blocks of rounds 0 and 1, as far as the hash tells their headers apart |
| Agreement.PrevoteIsReleased | src/consensus.py:532-588 | a prevote of a locked node keeps the promise of its earlier precommits |
| Agreement.PrecommitsTheLock | src/consensus.py:631-763 | locking at the current round and then precommitting precommits the block just locked, or NIL |
| Agreement.NextKeepsOk | src/consensus.py:502-918 | every step of a correct or byzantine validator keeps the system invariant |
| Agreement.RunIsOk | src/consensus.py:502-918 | so every reachable system satisfies it |
| Agreement.LogOnlyGrows | src/consensus.py:502-918 | votes once signed stay in the log |
| Agreement.AgreementHolds | src/consensus.py:779-867 | in every run two correct validators never store different blocks at one height, whenever they are looked at and whatever rounds they finalized in |
| Replication.RunIsCovered | src/consensus.py:779-867 | everything hashed in a run is among the inputs its steps delivered |
| Replication.LedgersReplicate | src/consensus.py:779-867 | in every run two correct ledgers that store a height store the same entry there: block, state and nonces |
| Scenario.SortHeights | src/scenario.py:188-206 | the heights in ascending order, each once |
| Scenario.ListViolations | src/scenario.py:188-206 | one violation, in height order, for exactly the heights with more than one hash |
| Scenario.AssertSafety | src/scenario.py:188-206 | reports exactly the heights at which two registered nodes finalized different blocks, with every hash and its holders in node order |
| Scenario.ReachableIsSafe | src/scenario.py:188-206 | for the correct validators of any reachable system there is nothing to report |
| Progress.ProposeBlock | src/consensus.py:315-414 | executes the pending transactions on the finalized parent and signs a header that commits to the result, with every error |
| Progress.ProposalCommits | src/consensus.py:315-414 | what propose built is accepted by every ledger with the same parent, and gives the same entry |
| Progress.PrevotesForBlock | src/consensus.py:591-623 | a node unlocked or locked on b prevotes b |
| Progress.OnlyQuorum | src/vote_set.py:193-243 | once every good validator's vote for b is stored, b is the only quorum block |
| Progress.PrecommitsBlock | src/consensus.py:631-763 | with the good prevotes a node locks b and precommits b |
| Progress.FinalizesBlock | src/consensus.py:779-867 | with the good precommits too it finalizes the planned block |
| Progress.RoundProgress | src/consensus.py:591-867 | if 2f+1 validators share a parent and round, hold the proposal, are unlocked or locked on it, and exchange votes, all of them finalize it with the same entry, whatever the others vote, for every n except 2, 3 and 6 |
| ProgressRuns.RoundProgressInRun | src/consensus.py:591-867 | the same as a run: from any state in which such validators are ready and their trackers allow both votes, there are steps of the system after which all of them have finalized the block |
| SoloRounds.SoloHypotheses | src/consensus.py:591-867 | the hypotheses of round progress hold of a single validator, whatever the hash and the signing oracle |
| SoloRounds.SoloRound | src/consensus.py:591-867 | so they can be met: it proposes, prevotes, locks, precommits and finalizes its own empty block |
| EventLogs.EventLog.constructor | src/event_log.py:224-258 | an empty open log |
| EventLogs.EventLog.WriteEvent | src/event_log.py:260-387 | the guards in order, then one more line and the new counters; a refusal changes nothing |
| EventLogs.EventLog.Close | src/event_log.py:389-402 | the log is closed, its lines stay, and closing twice is harmless |
| EventLogs.AcceptedExactlyWhen | src/event_log.py:299-347 | a record is accepted exactly when the log is open and stays well numbered with it |
| EventLogs.EveryLogIsNumbered | src/event_log.py:321-387 | over every sequence of writes and closes the lines are numbered 1..k, times never decrease, lines are never lost, and nothing follows the close |
| Schedulers.EveryRunIsOrdered | src/scheduler.py:112-196 | over every run of schedule, pop and cancel the popped keys strictly increase, and every accepted key is exactly one of waiting, popped and cancelled |
| Schedulers.NewSchedulerIsOrdered | src/scheduler.py:28-36 | so for every run of a new scheduler |
| Schedulers.PopIsAccounted | src/scheduler.py:173-196 | one pop keeps that account |
| Schedulers.PushKeepsOrder | src/scheduler.py:112-150 | pushing keeps the queue in key order and adds just the envelope |
| Schedulers.HeadIsNext | src/scheduler.py:157-196 | a head that is not stale is the least waiting key |
| Schedulers.Scheduler.constructor | src/scheduler.py:28-36 | an idle scheduler at tick 0 |
| Schedulers.Scheduler.Schedule | src/scheduler.py:112-150 | accepts or refuses as the plain table does: past times, past keys and used keys are errors that change nothing |
| Schedulers.Scheduler.DiscardStaleHeads | src/scheduler.py:157-163 | stale heads go; what is left at the head waits, and the queue is empty exactly when nothing waits |
| Schedulers.Scheduler.Peek | src/scheduler.py:165-171 | the envelope the next pop returns, with the meaning of the scheduler unchanged |
| Schedulers.Scheduler.Pop | src/scheduler.py:173-196 | heap and lazy deletion refine taking the least key out of a plain table |
| Schedulers.Scheduler.Cancel | src/scheduler.py:239-254 | removes exactly a waiting envelope and keeps its key used |
| Schedulers.Scheduler.Empty | src/scheduler.py:256-260 | true exactly when nothing waits |
| Schedulers.Scheduler.Len | src/scheduler.py:279-281 | the number of waiting envelopes |
| Schedulers.Scheduler.Run | src/scheduler.py:226-237 | without a handler: terminates with every waiting envelope once, unaltered, in key order |
| Networks.EarliestTick | src/network.py:429-446 | the first tick with room for the payload: it fits there and at no tick before |
| Networks.OnlyThisTickOrTheNext | src/network.py:429-446 | with nothing charged later, the search returns the tick itself when there is room, and else the next one |
| Networks.NewNetwork | src/network.py:220-276 | an unused network over a fresh scheduler and log; None for a limit that is not positive |
| Networks.Network.Send | src/network.py:354-391 | a message is refused with nothing changed, or queued under the next sequence number with its SEND event held back |
| Networks.Network.EarliestDeliveryTick | src/network.py:429-446 | the search loop terminates with that tick |
| Networks.Network.WriteEvent | src/network.py:313-340 | writes the next number with the time clamped up to the last one |
| Networks.Network.TryDeliver | src/network.py:448-517 | delivers, defers to the tick found, or raises, with the whole new state |
| Networks.Network.PopAndDeliverOne | src/network.py:519-547 | the loop terminates and does what repeated single pops do until one delivers or raises |
| Networks.Network.RunNext | src/network.py:549-555 | the payload of the next delivery, None on an empty queue |
| Networks.Network.Run | src/network.py:557-565 | the loop terminates and collects the payloads until the queue is empty |
| Networks.PopOnceProgresses | src/network.py:519-547 | a deferral leaves as many waiting and fewer due now; any other pop leaves one less: the termination measure |
| Networks.DeliverNextProgresses | src/network.py:549-565 | run_next takes exactly one message out unless the queue is empty |
| Delivering.PopForm | src/network.py:448-547 | a pop delivers when there is room, defers by exactly one tick when not, raises only beyond 64 bits, and the log refuses nothing |
| Delivering.PopOnceKeepsOk | src/network.py:448-547 | one pop keeps the network invariant |
| Delivering.SubmitKeepsOk | src/network.py:354-391 | one send keeps the network invariant |
| Delivering.EveryRunIsOk | src/network.py:354-565 | so do all runs of send, run_next and run, and history is never altered |
| Delivering.NoRoomMeansSmaller | src/network.py:442-446 | a message finds no room only because one with a smaller number was delivered in the same tick |
| Delivering.CoverBoundsWait | src/network.py:354-565 | each tick of waiting cost a different smaller number, so the wait is at most the sequence number |
| Delivering.BoundedWait | src/network.py:354-565 | in every run the message with number s sent for tick t is delivered, or still waits, within [t, t + s]; it is lost only when t + s leaves the 64-bit range |
| Delivering.BudgetIsKept | src/network.py:429-482 | no tick carries more payload bytes than the limit |
| Delivering.RunDeliversEverything | src/network.py:557-565 | from any reached state run empties the queue, after which every message ever sent has been delivered exactly once; it returns the payloads in delivery order |
| Delivering.LogPairsEvents | src/network.py:313-340 | with the network as sole writer the log is the SEND of each delivery right before its DELIVER, numbered 1..k, the DELIVER at the very tick of the delivery |
| Acceptance.FirstFailureIsNamed | src/transaction.py:135-321 | validation passes exactly a transaction that has every property asked for, signature included, and otherwise names the first one missing |
| Acceptance.ExecutesExactlyWhen | src/executor.py:126-178 | a block executes exactly when every transaction has a new identifier, the next nonce, the chain, lengths, sizes and namespace asked for and an authentic signature; a rejection names the first that has not, and why |
| Acceptance.BlockWrites | src/executor.py:126-178 | afterwards each key holds the value of its last writer, and keys nobody writes are as before |
| Acceptance.BodyValidExactlyWhen | src/block.py:241-304 | a body is valid exactly when it executes and its identifiers and its state hash to what the header commits to; which refusal comes when |
| Acceptance.RootLayout | src/block.py:41-74 | the root hashes an eight-byte count and then the identifiers, 32 bytes each, at their places |
| Ledgers.LoadsExactlyWhen | src/ledger.py:241-364 | a snapshot loads exactly when it has no empty key, the chain identifier asked for, the height of its header and the hash of its header; every loaded entry is then sound |
| Ledgers.LoadRefusals | src/ledger.py:241-364 | which error a snapshot that does not load gives |
| Ledgers.FinalizesExactlyWhen | src/ledger.py:103-169 | a block is finalized exactly when it extends the head on this chain, can be hashed and is written; which error it gives otherwise |
| Layout.LessExactlyWhen | src/encoding.py:90 | the order of byte strings: smaller at the first difference, or a proper prefix |
| Layout.BigEndianKeepsOrder | src/encoding.py:12-19 | fixed-width integers are ordered as their encodings are, so the most significant byte comes first |
| Layout.VoteLayout | src/vote.py:65-80 | which field a reader finds at which offset of a vote |
| Layout.TransactionLayout | src/transaction.py:72-85 | the same for a transaction |
| Layout.HeaderLayout | src/block.py:113-129 | the same for a header |
| Layout.SignedLayout | src/block.py:131-141 | the signature follows the unsigned bytes with its length, in all three records |
| Layout.IdPreimageLayout | src/transaction.py:102-119 | in the identifier the signature follows bare |
| Crypto.HexIsLowercase | src/transaction.py:121-133 | two lowercase digits for each byte, the high one first |
| BlockStores.StoreHoldsTheFirst | src/block_store.py:50-112 | over every sequence of calls a hash has a header exactly when one was offered, and its body is the first one offered after the header |
| BlockStores.SucceedsExactlyWhenHeld | src/block_store.py:50-112 | a call succeeds exactly when the store then holds what it brought; which refusal it gives otherwise |
| Consensus.PrevotesExactlyWhen | src/consensus.py:532-623 | for a 32-byte proposal the vote is for it exactly when the node is unlocked, locked on it, or 2f+1 validators have a stored prevote for it in one round after the lock up to the current one |
| Consensus.LocksExactlyWhen | src/consensus.py:631-672 | the node locks the first known block for which 2f+1 validators have a stored prevote, and nothing exactly when there is none |
| Consensus.PrecommitsExactlyWhen | src/consensus.py:687-763 | the precommit is for the locked block if it has 2f+1 prevotes in this round, else for the first block that has, else NIL |
| Consensus.SignedVoteIsProper | src/vote.py:214-258 | a vote names the chain and the validator of its signer and carries the signature over its unsigned bytes |
| Consensus.RoundsAdvance | src/consensus.py:883-918 | k round changes lead from round r to r + k, keep the lock and leave no vote |
| LockEscapes.LockedPrevotesAnother | src/consensus.py:577-588 | there is a run in which a correct validator locked on a prevotes b, released by a later quorum |
| Decisions.CommitsExactlyWhen | src/consensus.py:829-862 | a block is committed exactly when its parent is stored, its body is sound on it, and its header extends the head; what each refusal means |
| Decisions.NodeFinalizesExactlyWhen | src/consensus.py:779-867 | the node takes the first block with 2f+1 stored precommits, needs its header and body, commits them, and starts afresh at the next height; what is left alone otherwise |
| Decisions.ProposesExactlyWhen | src/consensus.py:315-414 | a header is proposed exactly on the turn of height plus round, with the parent stored, when it describes the executed transactions on that parent and carries the signature over its unsigned bytes |
| Decisions.CorrectVotesAreSigned | src/vote.py:214-258 | in every run every logged vote of a correct validator is on the chain and carries the signature over its unsigned bytes |
| EventLogs.RefusedBecause | src/event_log.py:299-347 | which rule a refused record breaks |
| Schedulers.AcceptedExactlyWhen | src/scheduler.py:112-150 | in every run of a new scheduler an envelope is accepted exactly when its key was never accepted and comes after the last one popped |
| Schedulers.RefusedBecause | src/scheduler.py:112-150 | which error a refused envelope gives |
| Schedulers.CancelledExactlyWhen | src/scheduler.py:239-254 | in every run cancelling takes out exactly a waiting envelope, whose key stays used |
| Networks.DeliveryTickIsFirst | src/network.py:429-446 | the tick found is exactly the first, from the clock and the tick asked for on, in which the payload fits |
| Delivering.SentExactlyWhen | src/network.py:354-391 | in every reached network a message is accepted exactly when its payload is at most the limit, sender and receiver are not empty, the clock is at most its tick, and tick and number fit 64 bits |
| Delivering.SendRefusedBecause | src/network.py:354-391 | which of these faults the error of a refused message names |
| Delivering.PutOffExactlyWhen | src/network.py:429-482 | in every reached network the popped message is delivered exactly when it fits next to what was delivered in its tick |

## Left out

- Consensus.ConsensusState.CastPrevote: returns the vote; the loop that sends it to the peers is not modelled.
- Consensus.ConsensusState.CastPrecommit: likewise, the vote is returned and not sent.
- Consensus.ConsensusState.HandleProposalTimeout: likewise, the NIL vote is returned and not sent.
- Consensus.SignedVoteIsProper: a vote whose height or round does not fit 64 bits is returned unsigned, where the source raises.
- Consensus.NewConsensusState: the other fields start at their defaults; a state created with a lock or votes is not modelled.
- Progress.ProposeBlock: the header is returned; sending it and the body is not modelled, and the proposer comes from a list of public keys instead of key files.
- Schedulers.Scheduler.Cancel: envelopes are compared by value; the source compares object identity, so it also refuses an equal copy.
- Schedulers.Scheduler.Schedule: the heap is modelled by the order in which it yields its entries, not by the array layout of heapq.
- Schedulers.Scheduler.Run: only the run without a handler; a handler is foreign code that may schedule more.
- Networks.NewNetwork: the network owns its scheduler, its log and its event counter; a counter injected by a caller, and other writers of the log, are not modelled.
- Ledgers.LoadSnapshot: the snapshot is a record; JSON, hexadecimal and base64 text, unreadable files and path handling are not modelled.
- States.State.Insert: keys are normalised UTF-8 byte strings; Unicode normalisation, and two spellings of one key, are not modelled.
- EventLogs.EventLog.WriteEvent: lines are records; their JSON text and the digest of the file are not modelled.
- Progress.RoundProgress: no lock carry-over between rounds is claimed, see above.
- Agreement.AgreementHolds: crash and restart of a voting validator are not steps of the system, because the vote tracker is not persisted; crashes are covered for the ledger alone.
- Signing keys, Ed25519 and SHA-256 internals (src/identity.py, src/crypto.py): oracles.
- Guard chains of src/router.py, src/block_validator.py and `Vote.validate`: what they ensure is a premise about the votes and headers a node admits.
- `Network.deliver`, `enqueue` with an envelope made by the caller, `block_peer`, `unblock_peer`: the first two break the freshness of sequence numbers on which the waiting bound rests, the others only write an event.
- src/gossip.py, src/fault_injector.py and the seeded random numbers of src/scheduler.py: the consensus model already allows every loss, duplicate and reordering.
- Setters and getters without logic (`lock`, `unlock`, `set_valid_block`, `next_round`, dictionary-style access to `State`, `get_entry`), `encode_bool`, `Envelope.serialize`: easy members.
- Type checks at run time: the types of the model cover them.
- Liveness assertions, reporting, spreadsheets and the dashboard (src/scenario.py:208-230, src/summary.py, dashboard/): user interface.
