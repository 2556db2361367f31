# Verified model of an external-consensus go-ethereum node

The repository turns go-ethereum 1.10.3 into a node whose blocks are decided by an external
consensus engine: the engine asks for a candidate block, seals it, and is asked in turn
whether headers of other nodes carry a good seal. This project models the parts of it in
which a mistake would be hard to see from one function, and proves what they are for:

| module | what it models |
|---|---|
| `ForkConfig` | fork schedules: is a stored chain valid under a new configuration, and how far must it be rewound |
| `Rlp`, `ExtraData` | the seal in a header's extra data, down to its bytes |
| `ChainTypes`, `Blocks` | headers, blocks, their hashes and caches; sealing |
| `Execution` | the transaction executor as an arbitrary function under two contracts, one on gas and one on nonces, and plain in-order execution |
| `Packer` | the two-pass transaction packer as functions on an environment, and its refinement of plain execution |
| `Completeness` | all that is due in a pool that fits is packed, however often an environment is refilled |
| `Turns` | the packing loops told by the account lists alone: whose turn is next, who is dropped, local before remote, interrupts |
| `Coinbase` | fees, and what becomes of them when others execute a block under another author |
| `Candidate`, `Batcher` | the batcher's state, and the objects that hold it (proved equal to the functions) |
| `Pipeline` | build, seal and insert calls under every interleaving with head events and work requests |
| `Building`, `Acceptance` | what a build call gets out of the pool; what is written can be verified by other nodes |
| `LightFilter` | the light client's walk from one head to another |
| `TxSync` | dripping the pool to new peers, one pack in flight |
| `HeadDelivery`, `VerifySeal` | the two directions of the link to the external consensus, as traces |
| `Broadcast` | spreading transactions over peers |
| `MapSums`, `Wrappers` | sums over maps; `Option` |

Conventions. Hashes are injective: a hash is the term it was taken of. Go's `*big.Int` is an
optional integer. 64-bit conversion is written out where it matters (`RewindTo`, the header
number in `VerifyHeader`, integers in the seal). Clocks, replies of the remote, outcomes of
sends, the interrupt flag and the choice among several ready events are parameters, over
which every result quantifies.

## What the proofs found

- `CheckCompatible` returns the largest compatible height whenever the stored configuration
  passes the fork-order check (the new one need not). For unordered stored configurations it
  may skip compatible heights; `ForkConfig.Overshoots` is the exact condition: where the
  Petersburg test first reports, above the earlier of the two Petersburg blocks, no other test
  reports before it, and the pair is compatible at that earlier block. It can be evaluated before
  the call; `ForkConfig.UnorderedCanOvershoot` is an instance.
- A compatible configuration agrees on every fork predicate except Petersburg (whose exception
  in params/config.go:562-567 lets it change retroactively) and Catalyst (not checked,
  `ForkConfig.CatalystIsNotChecked`).
  `ForkConfig.PetersburgAgreement` says exactly when Petersburg agrees.
- Transactions are executed under the batcher's coinbase, but `Prepare` zeroes the header's
  coinbase and `Author` always answers the zero address (consensus/ecpon/ecponbada.go:127-133,
  251-269). So the replay theorem keeps one author per transaction. For transactions that do
  not look at who is paid, other nodes get the same receipts, and the same state exactly when
  every transaction packed under another address than zero paid no fee
  (`Coinbase.AuthorAgreement`; `Coinbase.FeeToAnotherCoinbase` is an instance that differs).
- `BuildBlock(n)` as one step only returns block n+1. Interleaved with everything else it does
  so exactly when no work on a head beyond n has started since its head check
  (`Pipeline.BuildYieldsNextBlock`); `Pipeline.BuildCanBeOvertaken` is a run that yields n+2.
- `SealBlock` reports success when the insertion fails: it returns the error of the sealing
  step (ecconnector/api.go:88-92). Only "broadcast implies written" is claimed; a head event
  between build and seal suffices (`Pipeline.SealCanWriteNothing`).
- An accepted header is backed by an accepting response exactly when its number is not 0 in
  the low 64 bits. The others, which include 2^64, are accepted unasked
  (`VerifySeal.AcceptedIsBacked`, `VerifySeal.UnaskedAcceptance`, `VerifySeal.BeyondGenesis`).
- The light client's walk dereferences nil when the old head's ancestry gives out while the
  new one goes on past it (`LightFilter.PanicsExactly`; `LightFilter.CanPanic` is an input).
- A broadcast sends no peer a transaction both in full and as an announcement, whatever peers
  it meets, exactly when no transaction is listed twice (`Broadcast.OneWayExactly`).

## Model

| member | source | states |
|---|---|---|
| ForkConfig.CheckCompatible | params/config.go:475-489 | terminates for every pair of configurations; nil iff there is no conflict at the height; otherwise rewinds strictly below it (or the height is 0) to a compatible height or 0, which is the largest compatible one iff the pair does not overshoot, in particular whenever the stored schedule is ordered |
| ForkConfig.LoopIsExact | params/config.go:475-489 | the rewinding loop, from any point of its run: exactness of the final height iff the Petersburg row does not overshoot, both directions |
| ForkConfig.OneRewind | params/config.go:621-636 | an error's rewind height is below the head it was found at, and everything skipped over is incompatible unless Petersburg is stepped over |
| ForkConfig.FirstFiring | params/config.go:534-585 | the chain of tests reports the first row, in order, of a table of start heights |
| ForkConfig.ErrorNamesItsBlocks | params/config.go:534-585 | every error names a fork that is active on one side and really differs - in its block, its flag or the chain ID - with the blocks that the two configurations have for it |
| ForkConfig.ConflictsPersist | params/config.go:534-599 | compatibility at a height implies it at every lower one |
| ForkConfig.IncompatibleMeansDisagreement | params/config.go:589-599 | two schedules of one fork are incompatible at a head iff some block up to it distinguishes them |
| ForkConfig.CompatibleMeansAgreement | params/config.go:534-599 | compatible at a head iff both configurations agree, on every block up to it, on each fork predicate but Petersburg and Catalyst, on the DAO flag and (under EIP-158) on the chain ID, and the Petersburg test is quiet |
| ForkConfig.PetersburgAgreement | params/config.go:449-451 | Petersburg agrees up to a head iff the effective Petersburg blocks (unset means Constantinople's) are compatible there |
| ForkConfig.PetersburgExceptionDisagrees | params/config.go:562-567 | an accepted pair of configurations under which an old block changes sides |
| ForkConfig.CatalystIsNotChecked | params/config.go:464-466 | an accepted pair that disagrees on Catalyst below the head |
| ForkConfig.OrderedNeverOvershoots | params/config.go:493-532 | a stored schedule in fork order never loses a compatible height |
| ForkConfig.UnorderedCanOvershoot | params/config.go:475-489 | a concrete unordered pair whose rewind skips compatible heights 3 to 6 |
| ForkConfig.CheckForkList | params/config.go:512-531 | the single pass with `lastFork` decides the order of every pair of the list, and its error names the first fork out of order |
| ForkConfig.CheckConfigForkOrder | params/config.go:493-532 | nil iff all set blocks are non-decreasing and nothing is set after an unset mandatory fork |
| ForkConfig.OnlyTwoForksAreOptional | params/config.go:501-531 | a schedule in order stays so without the DAO or the Muir Glacier fork; a set Berlin needs every other fork set |
| ForkConfig.BerlinWithoutOptionals | params/config.go:501-511 | a concrete schedule without those two, with forks that share a block, passes |
| ForkConfig.ActiveForksFormPrefix | params/config.go:655-673 | in an ordered schedule without YOLOv3 the active mandatory forks form a prefix, at every block |
| Rlp.ReadEncoded | consensus/ecpon/extradata.go:69-81 | reading any encoded item, short, long or single byte, returns it and leaves what follows |
| Rlp.ReadIsCanonical | consensus/ecpon/extradata.go:69-81 | the reader accepts nothing but canonical encodings |
| Rlp.KnownShortEncodings | consensus/ecpon/extradata.go:69-81 | the bytes of short items: a string, the empty ones, single bytes on either side of 0x80 |
| Rlp.KnownNumber | consensus/ecpon/extradata.go:69-81 | numbers are written most significant byte first |
| Rlp.KnownList | consensus/ecpon/extradata.go:69-81 | the bytes of a list of two strings |
| Rlp.KnownLengths | consensus/ecpon/extradata.go:69-81 | the prefixes of payloads of 55, 56 and 1024 bytes |
| ExtraData.ExtraRoundTrip | consensus/ecpon/extradata.go:15-81 | `ReadExtra` inverts the encoding, for nil and non-nil committee and proof |
| ExtraData.DecodedExtraIsCanonical | consensus/ecpon/extradata.go:69-81 | extra data that reads has exactly one spelling, the encoder's |
| ExtraData.KnownProofLayout | consensus/ecpon/extradata.go:15-47 | committee before proof, the proof's strings in declared order, a nil pointer as the empty list: byte by byte |
| ExtraData.KnownCommitteeLayout | consensus/ecpon/extradata.go:15-29 | the block number before the list of validators: byte by byte |
| ChainTypes.SigningHashCoversTheRest | core/types/block.go:104-110 | two headers have one signing hash iff they agree on every field but the extra data |
| ChainTypes.SigningHashAndExtra | core/types/block.go:98-110 | two headers have one block hash iff they have one signing hash and one extra data |
| ChainTypes.AssembledNames | core/types/block.go:193-223 | an assembled header names the transactions by their root, the receipts by theirs and by the bloom, and no uncles; every other field is the original's |
| Candidate.UnsealedExtraIsUnreadable | ecconnector/batcher.go:764-776 | the placeholder extra of an unsealed header never reads as a seal |
| Candidate.NewHeaderFollows | ecconnector/batcher.go:747-783 | a new cycle's header, field by field: next number on its parent, a time no earlier than the parent's or the clock's, the fixed gas limit, no beneficiary |
| Candidate.CommittedSnapshotIsCandidate | ecconnector/batcher.go:835-861 | after a commit the snapshot is the candidate; the environment goes on with the same transactions, receipts and state |
| Blocks.Block.Hash | core/types/block.go:365-374 | the cached hash is always that of the block's own header |
| Blocks.Block.Assemble | core/types/block.go:193-223 | a new block owns a fresh header copy, so that later writes to the original cannot reach it; the copy names the transactions by their root, the receipts by theirs and by the bloom, and no uncles; every other field is the original's |
| Blocks.Block.WithSeal | core/types/block.go:339-349 | the sealed block is a fresh object with the given header and the old transactions |
| Blocks.SealEcPonBada | consensus/ecpon/ecponbada.go:304-332 | the sealed block reads back as the proof and committee given, keeps the signing hash, and leaves the original alone |
| Blocks.SealOnlyChangesExtra | core/types/block.go:104-110 | sealing keeps every other field and the signing hash; the block hash changes iff the extra data does |
| Blocks.SealsAreDistinct | consensus/ecpon/ecponbada.go:304-332 | two seals of one block have equal block hashes iff proof and committee are equal |
| Execution.ReplayConservesGas | ecconnector/batcher.go:470-485 | in any replay, gas left plus gas used is the gas limit and the total is the receipts' sum |
| Execution.ReceiptsAreInOrder | ecconnector/batcher.go:470-485 | in any replay the i-th receipt is the i-th transaction's, numbered i, with the gas of all up to it as its cumulative gas |
| Execution.ContextCovers | ecconnector/batcher.go:470-485 | execution sees the fields of a header that packing and sealing leave alone, and exactly those |
| Execution.NoncesAreConsecutive | ecconnector/batcher.go:470-485 | each included nonce is the parent state's nonce plus the sender's earlier transactions, whatever contracts do to nonces of accounts without keys |
| Execution.NoTransactionTwice | ecconnector/batcher.go:517-520 | no replayable list contains a transaction twice |
| Packer.CommitTxKeeps | ecconnector/batcher.go:470-485 | executing, or failing and reverting, one transaction keeps the environment equal to the replay of its own transactions, within gas and count limits |
| Packer.UpdatePassKeeps | ecconnector/batcher.go:488-583 | a whole update pass keeps that, and only appends, under its own coinbase, on the same block and parent |
| Packer.CommitPassKeeps | ecconnector/batcher.go:586-706 | so does a commit pass, through every interrupt and break |
| Packer.UpdateLoopSelects | ecconnector/batcher.go:507-530 | an update pass executes nothing the commit pass has seen, only what the pool offers, and nothing replay protected before EIP-155 |
| Packer.CommitLoopSelects | ecconnector/batcher.go:621-645 | a commit pass marks all it executes as seen, and takes only what is offered and permitted |
| Completeness.CommitLoopTakesAll | ecconnector/batcher.go:598-686 | a commit pass is complete: if nothing interrupts, and the offered lists are in nonce order up to and from their accounts' nonces, and what is due of them fits the gas and the count and can be executed, every offered transaction that is due is included; those whose turn has passed do not stand in the way, and what fitted behind still fits |
| Completeness.UpdateLoopTakesAll | ecconnector/batcher.go:498-581 | so is an update pass, where what was seen must not be due any more; lists may begin with stale transactions, seen or not |
| Completeness.VisitsTakeAll | ecconnector/batcher.go:425-467 | however often one environment is refilled and finalized, all that was offered and due at any visit, as far as it fitted, is in it at the end |
| Completeness.WholeCycleTakesAll | ecconnector/batcher.go:425-861 | so over a whole cycle: the first pool's, and every later visit's |
| Completeness.FillTakesLocals | ecconnector/batcher.go:807-828 | when gas does not suffice for both, the local accounts are served in full, whatever the remote ones offer |
| Completeness.RefillTakesLocals | ecconnector/batcher.go:725-739 | likewise in a refill |
| Completeness.CycleTakesAll | ecconnector/batcher.go:709-830 | a new cycle and the refill for its candidate, local and remote accounts each: everything that either pool offers, as far as it fits, is in the candidate, by hash |
| Turns.CommitTurnMovesOn | ecconnector/batcher.go:627-684 | a turn of a commit pass, on the lists: out of gas, nonce too high, unsupported type or early replay protection drop the account; executed, nonce too low or any other error bring up its next transaction; other accounts are untouched; too many transactions end the pass |
| Turns.UpdateTurnMovesOn | ecconnector/batcher.go:509-581 | so an update pass, which passes by what was seen |
| Turns.RejectedLeavesTheRest | ecconnector/batcher.go:470-485 | a failed execution changes nothing but the gas pool, and its error is the executor's |
| Turns.CommitDropsSender | ecconnector/batcher.go:637-681 | nothing more of a dropped account is executed in the pass |
| Turns.UpdateDropsSender | ecconnector/batcher.go:526-574 | nor in an update pass |
| Turns.FillTakesLocalsFirst | ecconnector/batcher.go:807-828 | what a new cycle takes from local accounts comes before all that it takes from remote ones |
| Turns.RefillTakesLocalsFirst | ecconnector/batcher.go:725-739 | so does a refill |
| Turns.FlagStopsPass | ecconnector/batcher.go:598-608 | a flag raised at the m-th look lets at most m transactions be tried, and the interruption is reported exactly for a new head |
| Turns.NewHeadKeepsRemotesOut | ecconnector/batcher.go:815-821 | a new head that interrupts the local pass leaves only local transactions in |
| Turns.FlagUpFromTheStart | ecconnector/batcher.go:813-828 | with the flag up from the start: nothing is packed for a new head, and the remote pass is still made otherwise |
| Packer.RunVisitsKeeps | ecconnector/batcher.go:425-467 | any number of refills and finalizations keep the environment in order and what is in stays in |
| Packer.CycleRefinesReplay | ecconnector/batcher.go:425-861 | over a whole cycle, state, receipts and gas equal executing exactly the included transactions in order on the parent state, within the packing and gas limits; nothing is assumed of nonces |
| Packer.CycleHasNoRepeats | ecconnector/batcher.go:425-861 | over a whole cycle each included nonce follows on from the parent state, and no transaction is included twice |
| Packer.OneCoinbaseReplays | ecconnector/batcher.go:212-217 | if the coinbase did not change during the cycle the block replays under that one coinbase |
| Coinbase.CreditedReplay | ecconnector/batcher.go:470-485 | a list that does not look at who is paid runs as if fees were burnt, under any authors, and each fee ends up with its author |
| Coinbase.AuthorAgreement | consensus/ecpon/ecponbada.go:127-133 | executed under `Author`, such a block gives the packed receipts, and the packed state iff every transaction packed under another address than zero paid no fee |
| Coinbase.FeeToAnotherCoinbase | consensus/ecpon/ecponbada.go:251-269 | one priced transaction under another coinbase gives other nodes another state |
| Batcher.Environment.CommitTransactions | ecconnector/batcher.go:586-706 | the loop over the mutable environment and iterator is the commit pass, including the interrupted result |
| Batcher.Environment.UpdateTransactions | ecconnector/batcher.go:488-583 | the loop over the mutable environment and iterator is the update pass |
| Batcher.EcBatcher.CommitNewWork | ecconnector/batcher.go:743-830 | a new cycle replaces the environment by a fresh one, or leaves the old one when the parent state cannot be opened; task and snapshot stay |
| Batcher.EcBatcher.Commit | ecconnector/batcher.go:835-861 | finalizes the environment's header, assembles a fresh block whose header names its transactions and receipts, and makes it the pending task and the snapshot |
| Batcher.EcBatcher.BuildBlock | ecconnector/batcher.go:425-467 | no block, and nothing changed, iff the snapshot is missing or stale; else the refilled environment's block, now pending |
| Batcher.EcConnector.BuildBlock | ecconnector/api.go:32-63 | each error in its case, with no effect on the candidate; else the hash of the new candidate, which is the pending task's block; a candidate handed out earlier keeps its contents and hash |
| Batcher.EcConnector.SealBlock | ecconnector/api.go:66-101 | writes and broadcasts the sealed candidate with the receipts and state of its own task, or does neither; candidate and batcher unchanged |
| Batcher.EcConnector.HandleNewWork | ecconnector/batcher.go:283-300 | filling a new cycle never changes the candidate handed out before |
| Batcher.EcConnector.Serve | ecconnector/api.go:32-101 | over any run of calls, head events and work requests on one connector: the batcher, the candidates handed out and the seals made are those the requests determine one by one; every candidate handed out keeps its contents and hash to the end; what was written and broadcast is exactly the sealed tasks |
| Batcher.SealedWereHandedOut | ecconnector/api.go:66-101 | over any such run the pending task is the last candidate's, and nothing is sealed that was not handed out |
| Candidate.CommittedTaskOk | consensus/ecpon/ecponbada.go:273-288 | the assembled block names the root of the state it executes to, from the state of the parent it names, and its own transactions and receipts |
| Candidate.PackedUnderCoinbase | ecconnector/batcher.go:743-830 | a new cycle executes under the coinbase of the moment, and changes nothing that is pending |
| Candidate.RefilledUnderCoinbase | ecconnector/batcher.go:709-740 | so does a refill, which only appends |
| Pipeline.StepKeeps | ecconnector/batcher.go:224-355 | every step of head, events, work, build and seal keeps the protocol invariant |
| Pipeline.RunKeeps | ecconnector/batcher.go:224-355 | so does every run |
| Pipeline.CandidateExtendsHead | ecconnector/api.go:32-63 | in every interleaving the snapshot is no newer than the environment, which is at most one past the head, and a block built for n lies beyond n and at most one past the head it was assembled at |
| Pipeline.BuildYieldsNextBlock | ecconnector/api.go:32-63 | over every interleaving, a build call for n yields block n+1 iff no work that could open its state has started on a head beyond n since the call's head check |
| Pipeline.UninterruptedBuild | ecconnector/api.go:32-63 | a build call with nothing in between returns block n+1, however old its snapshot |
| Pipeline.BuildCanBeOvertaken | ecconnector/api.go:32-63 | a run in which the call for block 0 yields block 2 |
| Pipeline.WrongNumberBuildsNothing | ecconnector/api.go:32-47 | a build call for another block than the head changes nothing |
| Pipeline.SnapshotDecides | ecconnector/batcher.go:425-436 | one for the head goes on exactly if there is a snapshot beyond it |
| Pipeline.ClearedRefusesBuild | ecconnector/batcher.go:425-436 | after a head event a build call is refused until there is a new snapshot |
| Pipeline.SealAgreesWithBuild | ecconnector/batcher.go:934-972 | between calls the pending task is nil or that of the last candidate returned; all that is written is the seal of a returned candidate whose hash the seal call named, with that candidate's receipts and state; all that is broadcast was written |
| Pipeline.UninterruptedSeal | ecconnector/api.go:66-101 | a seal call with the right hash, a pending task and a willing chain, with nothing in between, writes exactly the sealed candidate with its receipts and state, and broadcasts it |
| Pipeline.WrongHashSealsNothing | ecconnector/api.go:66-83 | a seal call for any other hash, or without a candidate, changes nothing |
| Pipeline.SealCanWriteNothing | ecconnector/api.go:84-101 | a seal call with the right hash, on a willing chain, that writes and broadcasts nothing because a head event came first |
| Pipeline.WrittenBlocksExecute | ecconnector/batcher.go:934-972 | every written block executes, from the state of the parent it names, to the receipts and state written with it; its header names that state's root, its transactions and those receipts |
| Pipeline.TxHashNamesTransactions | core/types/block.go:193-223 | of two written blocks: equal transaction roots iff equal transactions, equal receipt roots iff equal receipts |
| Building.WorkTakesAll | ecconnector/batcher.go:743-830 | a work request, as a step of the system, packs all that its pool offers and is due, if it fits, and moves nothing else |
| Building.BuiltTakesAll | ecconnector/api.go:32-63 | an uninterrupted build call returns block n+1 with all packed before it and all that the pool of its refill offers and is due, if it fits |
| Building.PackedUnderEtherbase | ecconnector/batcher.go:212-217 | after the etherbase is set, a new cycle is packed under it |
| Acceptance.WrittenCarriesProof | ecconnector/api.go:66-101 | the extra data of every written block reads back as the proof of its seal call |
| Acceptance.WrittenIsVerifiable | consensus/ecpon/ecponbada.go:167-247 | any client accepts a written header exactly when its clock and fork hash check allow it and the remote vouches for it, or its number is zero in the low 64 bits |
| LightFilter.EventSystem.LightFilterNewHead | eth/filters/filter_system.go:375-406 | terminates on every database; fails exactly in the case below; otherwise reports exactly this: ancestries readable down to the same header give the script between their readable parts (their chains, when complete); else all that can be read of the new one is announced and the old one is rolled back from the same number up |
| LightFilter.PanicsExactly | eth/filters/filter_system.go:382-397 | the walk steps onto a missing header iff the old ancestry gives out above the new head, or where the new ancestry has another header |
| LightFilter.PathMeets | eth/filters/filter_system.go:382-397 | the walk stops exactly at the last common header |
| LightFilter.PathIsReport | eth/filters/filter_system.go:382-405 | on every database on which it does not fail, the walk finds exactly the headers of that report |
| LightFilter.CanPanic | eth/filters/filter_system.go:382-397 | a database and two heads on which the walk fails |
| LightFilter.ScriptTurnsOldIntoNew | eth/filters/filter_system.go:398-405 | popping and pushing along the callbacks turns the old head's chain into the new head's: each removal is of the top, each addition names the top as its parent |
| LightFilter.ScriptIsShortest | eth/filters/filter_system.go:398-405 | no valid list of callbacks does that with fewer calls |
| LightFilter.NothingIsRolledBackAndReAdded | eth/filters/filter_system.go:398-405 | no header is both removed and announced, between the chains of any two heads |
| LightFilter.NothingReportedTwice | eth/filters/filter_system.go:375-406 | nor in any report, whatever part of the two ancestries is stored |
| LightFilter.EventSystem.FollowHeads | eth/filters/filter_system.go:353-406 | over any run of head events of one object, the callbacks are each event's script in turn, and the stack they replay to is the chain of `lastHead` |
| TxSync.PeerSync.FillPack | eth/sync.go:101-108 | the pack is the front of the list up to the first transaction that reaches the size target |
| TxSync.PeerSync.DropFront | eth/sync.go:109-110 | the overlapping in-place copy leaves exactly the unsent suffix |
| TxSync.TxSyncLoop.HandleSync | eth/sync.go:135-139 | an arrival replaces its peer's older list, no other, and is sent at once iff nothing is in flight |
| TxSync.TxSyncLoop.HandleDone | eth/sync.go:140-151 | a completion drops the peer on failure and starts the next send iff something is pending |
| TxSync.DripConserves | eth/sync.go:86-155 | over every run, what was sent plus what is pending is each live txsync's list in order; nothing pending without a send; packs non-empty and below the target but for their last transaction |
| TxSync.SendIsCounted | eth/sync.go:97-118 | what a send puts on the wire is the next pack of its peer's list, and is what is counted as sent |
| TxSync.CompletionKeepsBooks | eth/sync.go:140-151 | a send that succeeded drops nobody and loses nothing of any list; one that failed drops exactly its own peer |
| TxSync.ArrivalOpensBooks | eth/sync.go:135-139 | an arrival replaces its own peer's list and nobody else's |
| TxSync.JoinsAreServed | eth/sync.go:133-154 | from the joins and ends of sends alone: while no send fails, exactly the peers that joined are tracked, each with the list it last joined with; sent and pending make up that list, and once nothing is pending all of it was sent |
| TxSync.TxSyncLoop.Serve | eth/sync.go:133-154 | any run of joins and ended sends on one loop and its buffers is a run of the machine, with one arrival for each join and one completion for each end of a running send; at its end what each live peer was sent plus what is pending for it is the list it joined with, in order; if no send failed, every peer that joined is live, with the list it last joined with |
| TxSync.DripDrains | eth/sync.go:119-151 | without arrivals the lists are empty after at most as many completions as there were pending transactions |
| HeadDelivery.NewHeadsAreDelivered | ecconnector/ecconnector.go:166-209 | over every run deliveries are a subsequence of the readable heads, each once; nothing is kept for resending iff the latest was delivered, else the latest is kept |
| HeadDelivery.ArrivalsAreReadable | ecconnector/ecconnector.go:190-209 | from the events alone: the arrivals are the new heads whose extra data reads, all of them and in order; if every send succeeds, all are delivered |
| HeadDelivery.KeptWaits | ecconnector/ecconnector.go:166-209 | what is kept is the latest readable head, and every send since it came has failed |
| HeadDelivery.WaitingIsKept | ecconnector/ecconnector.go:166-209 | and such a head is kept |
| HeadDelivery.DeliversExactly | ecconnector/ecconnector.go:166-209 | what each further event delivers: the head it announces, or at a tick the one that waits, if its send succeeds; an unreadable head changes nothing |
| HeadDelivery.HeadLink.OnNewHead | ecconnector/ecconnector.go:190-209 | the event branch: send, keep on failure, forget any older head; an unreadable head changes nothing |
| VerifySeal.VerifyIsBacked | consensus/ecpon/ecponbada.go:167-247 | a verification keeps the cache true to the history, and accepts a header with a non-zero number only if the remote accepted that number, hash and payload |
| VerifySeal.AcceptedExactly | consensus/ecpon/ecponbada.go:167-247 | for every client: nil iff the header passes on its own and either its number is zero in the low 64 bits, or its extra reads, a remote is set, and the cache holds the request or the remote accepts it |
| VerifySeal.RefusalNamesFirstFailure | consensus/ecpon/ecponbada.go:167-247 | each error iff its check is the first that fails |
| VerifySeal.AnswerIsKept | ecconnector/ecrpcclient.go:232-279 | an acceptance is cached, so the same header is accepted again without asking; a refusal leaves the cache alone; each question is logged once |
| VerifySeal.CacheAgreesWithHistory | ecconnector/ecrpcclient.go:232-279 | in every trace the cached entry is one the remote accepted |
| VerifySeal.AcceptedIsBacked | consensus/ecpon/ecponbada.go:167-247 | in every trace a nil result is backed by an accepting response, now or earlier, iff the number's low 64 bits are not zero |
| VerifySeal.UnaskedAcceptance | consensus/ecpon/ecponbada.go:201-212 | in every trace, exactly which headers are accepted although the remote never accepted them |
| VerifySeal.RpcClient.Send | ecconnector/ecrpcclient.go:232-297 | the client's request, cache hit and cache update, field by field |
| VerifySeal.RpcClient.VerifyHeaders | consensus/ecpon/ecponbada.go:143-160 | emits a prefix of the in-order per-header results, all of them unless aborted; cache and history are then those after the emitted headers, and one more if aborted; from an honest cache, every nil emitted for a non-zero number is backed |
| Broadcast.ISqrtIsUnique | eth/handler.go:510-512 | the number of direct sends is the natural square root rounded down, and no other number |
| Broadcast.SidesPartition | eth/handler.go:508-520 | at each occurrence every peer that lacks the transaction is on exactly one side, the direct side having exactly the root of their number |
| Broadcast.BroadcastTransactions | eth/handler.go:497-534 | each peer's lists are, in order, exactly the transactions it was chosen for; the counters add up to every pair of an occurrence and a peer lacking it |
| Broadcast.NothingLostOrDoubled | eth/handler.go:497-534 | every pair of an occurrence and a peer is placed in exactly one of the peer's two lists if the peer lacks the transaction, in none otherwise |
| Broadcast.OneWayExactly | eth/handler.go:497-534 | for every caller's list: no peer gets a hash both ways, whatever peers its transactions meet, iff no transaction is listed twice |

## Left out

- The EVM, the state database, tries, Keccak, signatures, the transaction pool and the
  databases: the executor is any function that is `Execution.Metered` (gas stays within limits,
  a larger gas pool changes nothing, failures give no gas back) and, where nonces are concluded,
  `Execution.Sequenced` (the sender's nonce matches and advances; no other account that holds
  a key changes its nonce). Completeness of packing also needs `Completeness.Willing` (on good
  states nothing in turn that fits is refused) and `ChecksNonceFirst` (a stale nonce is refused
  before gas is taken). Nonces do not wrap at 64 bits. The pool is handed in as two lists
  of account queues.
- Coinbase.AuthorAgreement: says nothing of blocks in which a transaction reads the balance of
  an author or of the zero address, or asks who the author is; nor of the empty accounts that
  a fee of zero leaves behind before EIP-158.
- Which account the price and nonce iterator prefers (core/types/transaction.go is not part
  of this model): the choice is an arbitrary function, and every result holds for each.
- The split of the pool's accounts into local and remote ones (ecconnector/batcher.go:725-731,
  807-813): the pool arrives already split.
- Memory races: each step of `Pipeline` is atomic, and one RPC call runs at a time.
  The source does not lock the environment against the RPC thread.
- The flag by which a running build suppresses start events, and the conditions of the
  resubmission timer (ecconnector/batcher.go:250-275): `Pipeline` lets clearing, new work and
  snapshots happen at any time, which is more than the source does.
- Steps that would dereference a missing environment or header and stop the Go program.
- Falling head numbers: `Pipeline` assumes that the number of the current block never decreases.
- The pending-state and statistics sides of the batcher: counters that are only logged, log
  feeds, `pending()`, and the block-hash fields that insertion writes into receipt copies,
  whose logs stay shared with the originals.
- The mined-block channel of the connector's loop, heartbeats and downloader events, apart
  from the clearing of pending work.
- HTTP and JSON: encoding is an arbitrary partial function, the remote an arbitrary reply.
- The Go `rlp` package as code: its canonical-form rules are modelled, its reflection is not.
- Headers stored under the number 2^64 - 1: `LightFilter` takes the parent of a header of number
  zero as missing.
- The filter index and the dispatch of logs around the light walk.
- Announcement-only peers (eth/sync.go:49-80), the synchronisation scheduler of eth/sync.go:157-345, and
  the known-transaction sets behind `peersWithoutTransaction`.
- Broadcast.ISqrt: `math.Sqrt` on 64-bit floats is exact rounding down for any number of peers
  a node can have; the model uses the integer root.
- Transaction sizes in the drip are whole numbers; `StorageSize` is a 64-bit float.
- Command-line flags, wiring, the RPC façade and default configurations.
