# Verification of the FLETA core

A Dafny model of the consensus and storage core of the FLETA blockchain node, with proofs of what it
promises. The parts, each in its own modules:

- **Observer voting** (`voting_types`, `leader`, `certificates`, `voting_steps`, `round_invariant`,
  `round_votes`, `block_votes`, `answers`, `observer`, `protocol`, `vote_history`): the rounds in which
  observers agree on a generator and sign its blocks. The handlers are methods of a class, proved to do
  what a table of cases says, and what the table leads to is stated on its own; the protocol is a state
  machine over these cases with a network that loses, repeats, reorders and invents messages, and the
  theorems are about all of its runs. Hashes are injective, and the signatures of an observer that
  follows the code exist only once it made them.
- **Generator rotation** (`ranks`, `rotation`, `rank_table`, `consensus_state`): the rank table as
  linked objects in a sorted slice with an index, and its meaning as a sorted list.
- **Block store** (`pile_format`, `pile_crash`, `pile_recovery`, `pile_read`, `pile`, `pile_db`): the
  bytes of pile files, the order of writes and syncs, what a crash can leave, and the chain of piles. A
  crash leaves anything at all in the bytes written since the last sync.
- **Time slots** (`time_slots`): replay protection that remembers two slots.
- **Context overlay** (`overlay`, `context`, `store_flush`): snapshot layers with tombstones and account
  objects that are changed in place, and their flush into the store.
- **Ledger** (`amounts`, `enum_index`, `unstaking_queue`, `ledger`, `revocations`, `rewards`): balances,
  stakes, queues and payouts on a flat key-value state. Amounts are unbounded integers; storing one
  keeps only its magnitude, and nothing for zero, as the encoding of the source does.
- **Sorted queue** (`sorted_queue`): the slice with its window, slides and compaction.

`basics` holds what several of these share.

`dafny verify dfyconfig.toml` checks the whole project.

Some properties one would expect are false of the code. The model keeps the code as it is, shows the
failing case, and proves exactly when the property holds:

- Whether a leader is found can depend on the iteration order of a hash map
  (`Leader.SomeOrderChooses`, `Leader.EveryOrderChooses`, `Leader.OrderCanMatter`).
- A block that a quorum of votes connects can be refused by the others: after a store that failed it carries
  one signature too many, and a vote over a second generator signature of the same header does not count with
  them (`BlockVotes.CertificateExactly`, `BlockVotes.RefusedAfterFailedStore`,
  `BlockVotes.RefusedOnSecondSignature`).
- The accepted generator need not be at the front after the rotation
  (`Rotation.RotationMeetsTopRank`, `Rotation.AcceptedButNotRotated`).
- Records of 64 items or more do not read back, item by item or in ranges
  (`PileRead.AllItemsReadBack`, `PileRead.AllRangesReadBack`), and an append to a full pile writes over
  its first record (`PileStore.Pile.AppendData`).
- A block store whose last pile has just been filled does not open again
  (`PileDB.ReopensUnlessFull`).
- An append that does not sync can lose its record (`PileRecovery.SafeExactlyWhenSynced`), and a crash
  during a repair can be fatal, with torn head words and with whole ones
  (`PileRecovery.RepairSurvivesExactly`, `PileRecovery.TornRepairCanFail`).
- Committing a write over a tombstone loses the write (`Overlay.MergeKeepsData`,
  `Overlay.WriteOverTombstoneIsLost`); in a transaction whose fee empties a balance, what is then gathered
  in it (`Overlay.WithFeeIsDirect`, `Overlay.GatheredBalanceSurvives`).
- An account created again in the layer that deleted it still reads as deleted (`Overlay.CreatedReads`).
- A change to an account object that was read before a snapshot survives the revert of the snapshot
  (`Overlay.RevertRestores`, `Overlay.HeldChangeSurvives`).
- Flushing drops data that the context still showed for deleted accounts (`Overlay.FlushKeepsData`).
- A transaction can be in one block twice (`TimeSlots.SameBlockRepeatPasses`).
- A fee taken from a staked amount must be smaller than it (`Ledgers.Ledger.Stake`,
  `Ledgers.Ledger.ChangeStaking`, `Ledgers.Ledger.Unstaking`).
- Taking the last unstaked amount of a height back leaves it stored, and unstaking again for that height
  counts it twice (`UnstakingQueues.AddedExactly`, `UnstakingQueues.TakenBackCountsAgain`,
  `Ledgers.Ledger.RevertUnstaking`).
- Creating a Sigma out of a list that names its first Alpha again destroys what the list held
  (`Ledgers.Ledger.CreateSigma`), and so does revoking without a heritor
  (`Ledgers.Ledger.RevokeFormulator`).
- A payout changes stakes without changing what the Hyper formulator knows of them
  (`Rewards.PayoutKeepsTotals`, `Rewards.GoneStakerBreaksTotals`), and what was stacked at a Hyper formulator
  whose stakers have no power goes to nobody (`Rewards.RestSmall`).

Where the code and its own remarks disagree, the model follows the code: the replacement of an item of
equal priority in the sorted queue is never reached, and the block-generation request that observers
would answer never matches its case.

## Model

| member | source | states |
|---|---|---|
| `Protocol.VoteLocking` | pof/observer_node_observer.go:268-421 | in every run, whatever the network delivers, an observer that follows the code and is not restarted signs at most one header per height |
| `Protocol.ForkFreedom` | pof/observer_node_observer.go:475-614 | in every run two different headers of one height never both gather n/2+1 observer signatures, as long as the observers that do not follow the code are fewer than 2(n/2+1)-n |
| `Protocol.ChainsAgree` | pof/observer_node_observer.go:475-614 | the chains of any two observers that follow the code agree at every height both have, in every reachable state |
| `Protocol.CertificateCertifies` | pof/consensus.go:123-164 | signatures that pass ValidateSignature and were not forged are a quorum certificate for exactly that header |
| `Protocol.RunInv` | pof/observer_node.go:241-300 | every reachable state keeps the invariant behind the theorems: one signed header per height, locks backed by a signature, counted votes and connected blocks backed by signatures |
| `Protocol.EventEffect` | pof/observer_node_observer.go:43-688 | whatever an event, an observer keeps its lock until its chain reaches that height, signs only the header it is locked on, and its chain only grows |
| `Observer.ObserverNode.constructor` | pof/observer_node.go:57-78 | a new observer starts at height 1 with an empty round and satisfies the round invariant |
| `Observer.ObserverNode.HandleRoundVote` | pof/observer_node_observer.go:43-127 | the handler of round votes has an outcome of the case table OnRoundVote, with every early return, and keeps the round invariant |
| `Observer.ObserverNode.HandleAck` | pof/observer_node_observer.go:128-267 | the handler of round-vote acks has an outcome of the case table OnAck: waiting, replacing, choosing the leader and starting the block rounds |
| `RoundVotes.VoteKeptExactly` | pof/observer_node_observer.go:43-127 | a round vote is kept if and only if an observer signed it for the next height of this chain and the candidate at its timeout count, and later than its last one; collecting ends exactly when n/2+2 have voted |
| `RoundVotes.AckNamesLeast` | pof/observer_node_observer.go:85-127 | the ack that ends the collection names the voter with the smallest timeout count and then key, with what it voted for |
| `RoundVotes.TurnStartsAgreed` | pof/observer_node_observer.go:128-267 | a turn starts only with an ack whose timeout count and leader each have the acks of n/2+1 observers |
| `RoundVotes.AgreedTurnStarts` | pof/observer_node_observer.go:128-267 | it does start, in any iteration order, once n/2+1 observers name one timeout count and leader together |
| `RoundVotes.TurnCovers` | pof/observer_node_observer.go:226-267 | a started turn covers exactly the heights of the round below the target plus what is left of the formulator's turn, keeps locks and votes, and lets only blocks of the chosen formulator wait on |
| `RoundVotes.TurnLength` | pof/observer_node_observer.go:226-267 | in a fresh round these are maxBlocks heights after a timeout and otherwise as many as the formulator has not generated yet |
| `RoundVotes.WaitingTaken` | pof/observer_node_observer.go:226-267 | the block that waits at the target is taken up if and only if the chosen formulator made it |
| `Observer.ObserverNode.HandleBlockGen` | pof/observer_node_observer.go:268-421 | the handler of generated blocks has exactly the outcome of OnBlockGen, and sends a vote for the block if and only if it may sign it: the next block of the chosen and ranked formulator, signed with its key, valid, not from the future, the one that waits if one does, and it executes |
| `Observer.ObserverNode.HandleBlockVote` | pof/observer_node_observer.go:475-688 | the handler of block votes has an outcome of the case table OnBlockVote, and the chain grows if and only if the vote may be counted, its sender had not voted, n/2+1 have voted with it, and the store succeeds |
| `BlockVotes.SignsExactly` | pof/observer_node_observer.go:268-421 | an observer answers a generated block with a vote if and only if every check of the handler holds and the block executes |
| `BlockVotes.SigningLocks` | pof/observer_node_observer.go:401-421 | signing locks exactly that block, sends one vote for it and takes up the votes that waited; not signing leaves state, locks and votes as they were |
| `BlockVotes.FollowsIsValid` | core/chain/chain.go:395-436 | a header is valid if and only if it follows the chain: chain ID, version, previous hash, timestamp, generator and height |
| `BlockVotes.CountsExactly` | pof/observer_node_observer.go:475-583 | a vote is counted if and only if an observer signed it over the target block of the chosen and ranked formulator, while that block is voted on |
| `BlockVotes.QuorumConnects` | pof/observer_node_observer.go:584-614 | a counted vote extends the chain, by the locked block with the generator signature and all observer signatures, if and only if it is the first of its sender, makes n/2+1, and the store succeeds |
| `BlockVotes.VoteConnectsExactly` | pof/observer_node_observer.go:475-688 | the same of the whole handler, with the checks of the vote spelled out |
| `BlockVotes.CertificateExactly` | pof/consensus.go:123-164 | the connected block passes the signature check of the others, against the ranks before it, if and only if exactly n/2+1 votes were counted and all are over the locked generator signature |
| `BlockVotes.RefusedAfterFailedStore` | pof/observer_node_observer.go:584-614 | three observers: the store fails on the second vote, the third connects a block with four signatures, and the others refuse it |
| `BlockVotes.RefusedOnSecondSignature` | pof/observer_node_observer.go:475-583 | three observers: a vote over another generator signature of the same header is counted, and the others refuse the block it connects |
| `VoteHistory.CertifiedExecuted` | pof/observer_node_observer.go:401-408 | in every run a header with a certificate was executed successfully by at least n/2+1 less the faulty observers, all following the code |
| `VoteHistory.LockedHoldsFewVotes` | pof/observer_node_observer.go:584-614 | in every run an observer with a locked block that has not failed to store one at this height holds fewer than n/2+1 votes for it |
| `VoteHistory.ConnectedAccepted` | pof/consensus.go:123-164 | in every run the others accept the block a vote connects if and only if n/2+1 votes were counted, all over the locked generator signature; and without a failed store the number is exactly that |
| `Observer.ObserverNode.VoteTimer` | pof/observer_node.go:241-300 | the vote timer has exactly the outcome of OnVoteTimer: resynchronising, resending the locked vote, and giving up after too many failures |
| `Observer.ObserverNode.SyncVoteRound` | pof/observer_node.go:354-383 | a round that fell behind the chain moves on with the same leader when it can and starts anew otherwise |
| `RoundVotes.TurnGoesOn` | pof/observer_node_observer.go:614-688 | after a connected block the turn goes on if and only if the round covers the next height and the formulator is still in front; otherwise votes are collected for it |
| `RoundVotes.TimerExactly` | pof/observer_node.go:241-300 | the timer gives the round up exactly at the 31st failure in a row without a locked block and with an active formulator, and then ignores the agreed one for 30 seconds, or 120 if it had been ignored; a locked block is never given up |
| `RoundVotes.CatchesUp` | pof/observer_node.go:354-383 | an overtaken round waits for the next block of the agreed formulator if that is in front and the round covers the height, and starts anew otherwise |
| `Answers.VotesForFirst` | pof/observer_node_send.go:31-79 | an observer votes for the first candidate that is connected and not ignored, and not at all if there is none |
| `Answers.FreshVoteKept` | pof/observer_node_observer.go:43-127 | such a vote is kept by every other observer with the same chain and candidates that collects votes, unless it has a newer one |
| `Answers.AckTaken` | pof/observer_node_observer.go:128-203 | the ack for a vote that fits is taken by every other observer at the same place that collects acks |
| `Answers.BlockVoteCounted` | pof/observer_node_send.go:260-334 | the vote for a signed block, sent at once or again, is counted by every other observer at the same place that agreed on the same formulator and is locked on the same header |
| `Answers.VoteReplies` | pof/observer_node_send.go:80-148 | a reply with a round vote is always for the next height: the own vote, moved there if need be, while a block is voted on, and a fresh one otherwise |
| `Answers.AckReplies` | pof/observer_node_send.go:190-258 | a reply with an ack is the own ack, if there is one, moved to the next height while a block is voted on |
| `Answers.VoteAnswered` | pof/observer_node_observer.go:43-127 | a round vote is answered if and only if it comes from another observer and is no reply: with the status if it is for a lower height, and if it fits with the own votes |
| `Answers.AckAnswered` | pof/observer_node_observer.go:128-203 | the same for acks, once acks are collected |
| `Answers.BlockVoteAnswered` | pof/observer_node_observer.go:475-583 | a block vote is answered with the own vote if and only if it is counted, comes from another observer and is no reply |
| `Answers.StatusSent` | pof/observer_node_observer.go:487-497 | a block vote for a lower height is answered with the status, and a connected block is announced with the new one |
| `Answers.EarlyVoteWaits` | pof/observer_node_observer.go:487-514 | a vote for a block that is not voted on yet waits at its height, and takes its generator off the ignore list if that is the current one |
| `Answers.RepliesEnd` | pof/observer_node_observer.go:43-127 | every answer to a round vote is a reply, and no reply is answered |
| `Observer.ObserverNode.ConnectQueued` | pof/observer_node.go:196-228 | a fetched block is connected only with a valid header and a valid certificate |
| `Observer.ObserverNode.NewVoteRound` | pof/vote_round.go:31-46 | the loop gives one empty block round to each of the next maxBlocks heights |
| `Observer.ObserverNode.LeastVoter` | pof/vote_round.go:81-89 | the vote an ack names is the least by timeout count and then key |
| `RoundInvariant.RoundVoteKeeps` | pof/observer_node_observer.go:43-127 | a round vote keeps the round invariant |
| `RoundInvariant.AckKeeps` | pof/observer_node_observer.go:128-267 | a round-vote ack keeps the round invariant |
| `RoundInvariant.BlockGenKeeps` | pof/observer_node_observer.go:268-421 | a generated block keeps the round invariant |
| `RoundInvariant.BlockVoteKeeps` | pof/observer_node_observer.go:475-688 | a block vote keeps the round invariant, also when the round continues with the next height |
| `RoundInvariant.VoteTimerKeeps` | pof/observer_node.go:241-300 | the vote timer keeps the round invariant |
| `Leader.ChooseAck` | pof/observer_node_observer.go:204-224 | the loop over the ack map, in any iteration order, returns the first ack whose two running counts have both reached the quorum, or nothing |
| `Leader.OrdersAgree` | pof/observer_node_observer.go:204-224 | two iteration orders that both choose an ack choose the same leader and timeout count, each held by a quorum |
| `Leader.SomeOrderChooses` | pof/observer_node_observer.go:204-224 | some order chooses an ack if and only if one ack's timeout count and leader each have a quorum |
| `Leader.EveryOrderChooses` | pof/observer_node_observer.go:204-224 | every order chooses an ack if and only if a quorum of acks names one timeout count and leader together |
| `Leader.OrderCanMatter` | pof/observer_node_observer.go:204-224 | a concrete set of acks for which one order finds a leader and another finds none |
| `Certificates.ValidateSignaturesMajority` | common/util_verify.go:38-58 | accepts exactly the lists of n/2+1 signatures of the content by distinct members, and each error means its cause |
| `Certificates.ValidateSignature` | pof/consensus.go:123-164 | accepts exactly the blocks signed by the ranked generator and by n/2+1 distinct observers |
| `Certificates.QuorumsMeetExactlyWhenFew` | common/util_verify.go:38-58 | any two quorums share a member outside the faulty ones if and only if these are fewer than 2(n/2+1)-n |
| `Certificates.QuorumsMeet` | common/util_verify.go:38-58 | two quorums share a member outside any set that is small enough |
| `RankTables.RankTable.AddRank` | pof/rank_table.go:170-182 | inserts in order, or refuses a phase below the front's or a known address; the index stays exact |
| `RankTables.RankTable.RemoveRank` | pof/rank_table.go:184-195 | removes exactly the address from the list and the index |
| `RankTables.RankTable.TopRank` | pof/rank_table.go:92-100 | the candidate that many places from the front, or an error exactly when there are too few |
| `RankTables.RankTable.ForwardCandidates` | pof/rank_table.go:197-213 | fails exactly when there are not more candidates than timeouts, and otherwise does that many timeout steps |
| `RankTables.RankTable.ForwardTop` | pof/rank_table.go:215-226 | the front goes one phase up with a new hash word and is put back in order |
| `RankTables.InsertRankToList` | pof/rank_table.go:229-237 | the binary search and the shifts insert at the one sorted position |
| `RankTables.Rank.Set` | pof/rank.go:115-135 | the score always packs the phase above the hash word |
| `Ranks.ForwardKeepsInv` | pof/rank_table.go:197-226 | a forward step keeps the table strictly sorted with one entry per address and all phases within two of the front's |
| `Ranks.InsertKeepsOrder` | pof/rank_table.go:229-237 | inserting a new address keeps the strict order and loses nothing |
| `Rotation.RotationMeetsTopRank` | pof/rank_table.go:197-213 | after t timeouts the front is the candidate TopRank(t) named if and only if no skipped candidate, raised two phases, still sorts before it |
| `Rotation.CloseCandidateQualifies` | pof/consensus.go:129-135 | a phase at most one above the front's is enough for that |
| `Rotation.AcceptedButNotRotated` | pof/rank_table.go:197-213 | a concrete valid table whose accepted generator is not the front after the rotation |
| `Rotation.BoundedWaiting` | pof/rank_table.go:197-226 | with n candidates every one of them reaches the front within 3(n-1) forward steps, whatever the steps are |
| `Rotation.BoundedWaitingInBlocks` | pof/consensus.go:177-187 | hence within the steps of 3(n-1) times maxBlocksPerFormulator blocks |
| `Rotation.TurnEnds` | pof/consensus.go:177-187 | without timeouts a turn ends with exactly the maxBlocksPerFormulator-th block of the formulator, with the hash of that block, and the next one counts from nothing |
| `Rotation.TimeoutsStartOver` | pof/consensus.go:177-187 | a block with timeouts gives the turn away and is the first of the next one |
| `ConsensusState.Consensus.UpdateFormulatorList` | pof/consensus_method.go:20-71 | the loops over changed and deleted accounts have exactly the result of UpdateList, including where they stop with an error; after a pass that reaches its end every address is ranked, and with the entry, that RankedNow says |
| `ConsensusState.RankedAfter` | pof/consensus_method.go:20-71 | after a pass an address is ranked if and only if it is not deleted, and its change is active, or it was ranked and has no change or one that is new and revoked |
| `ConsensusState.EntryAfter` | pof/consensus_method.go:20-71 | a newly ranked address, or one with a changed key, has the key of the change, the phase of the front plus two and its own hash word; every other one still ranked has the very entry it had |
| `ConsensusState.PassEnds` | pof/consensus_method.go:20-71 | a pass over a valid table stops early if and only if a new and active formulator is ranked already, and ends well if and only if someone is ranked |
| `ConsensusState.Consensus.OnSaveData` | pof/consensus.go:167-198 | a saved block rotates for its timeouts, ends a full turn, and updates the candidates; it fails exactly when there are too many timeouts, and panics exactly when a turn ends without candidates |
| `ConsensusState.SavedExactly` | pof/consensus.go:167-198 | as many timeouts as candidates or more change nothing, a turn that ends without candidates panics, and every other block counts as one of its formulator's, the first one after timeouts, and the maxBlocksPerFormulator-th ends the turn |
| `ConsensusState.UpdateKeepsInv` | pof/consensus_method.go:20-71 | updating the list keeps the table invariant and never fails on the phase check, even after removals in the same pass |
| `ConsensusState.ChainKeepsInv` | pof/consensus.go:167-198 | over every chain of saved blocks the table invariant holds and no block fails with an invalid phase, while phases do not overflow |
| `ConsensusState.SaveAllIsRun` | pof/consensus.go:167-198 | saving blocks that neither fail nor change who is ranked is running exactly their forward steps |
| `ConsensusState.NothingDone` | pof/consensus_method.go:20-71 | changes of formulators that stay as they are ranked leave the table as it is |
| `ConsensusState.BoundedWaitingInSaves` | pof/consensus.go:167-198 | while membership is fixed, every one of n candidates is in front at some step of the first 3(n-1) times maxBlocksPerFormulator saved blocks |
| `PileRecovery.CrashConsistent` | core/pile/pile.go:187-292 | after a crash at any point of a synced append, with anything in the bytes not yet synced, loading gives the old or the new records, all intact, and the new ones from the second sync on |
| `PileRecovery.NothingAcknowledgedIsLost` | core/pile/pile.go:70-172 | over every run of appends and crashes the file keeps loading, and every record whose append returned keeps its place |
| `PileRecovery.ExplainsKeeps` | core/pile/pile.go:70-172 | what a run leaves always extends what was there before |
| `PileRecovery.SafeExactlyWhenSynced` | core/pile/pile.go:251-290 | an append is safe against every crash if and only if it syncs |
| `PileRecovery.LoadCanCrash` | core/pile/pile.go:100-141 | from a file on whose height two words agree, a crash during the repair that writes head words whole leaves such a file again, any number of times |
| `PileRecovery.RepairSurvivesExactly` | core/pile/pile.go:100-141 | every crash at every point of a repair leaves a file that loads with the same records, if and only if not (a != b and head == b+1) for the three words head, a, b; if words are written whole, if and only if not (a != b and head == b+1 and a != head) |
| `PileRecovery.TornRepairCanFail` | core/pile/pile.go:110-126 | every repair that rewrites the second and the third word can crash into a file that no longer loads, also with words written whole if the second was not yet at the new height |
| `PileCrash.LoadRecovers` | core/pile/pile.go:70-172 | when the head words settle on the records a file holds, loading succeeds with exactly these and makes the words agree |
| `PileRead.AllItemsReadBack` | core/pile/pile.go:351-373 | all items of a stored record read back if and only if there are fewer than 64 of them |
| `PileRead.ItemPanics` | core/pile/pile.go:361-373 | past the item count modulo 64 the reader panics, because the table size is computed in a byte |
| `PileRead.ItemReadsFrom` | core/pile/pile.go:361-373 | an item whose length is in the loaded table is read right behind that table, which is too early by the part that was left out from 64 items on |
| `PileRead.RangeIsItems` | core/pile/pile.go:390-452 | for any number of items a range reads exactly as its items do one by one, errors included, and an empty range past the loaded table panics |
| `PileRead.AllRangesReadBack` | core/pile/pile.go:390-452 | all ranges of a stored record read back if and only if it has fewer than 64 items |
| `PileRead.ReadItemsAre` | core/pile/pile.go:390-452 | with fewer than 64 items a range reads back as the concatenation of what was appended |
| `PileRead.HashReadBack` | core/pile/pile.go:295-325 | the hash at every stored height reads back |
| `PileFormat.LERoundTrip` | core/pile/pile.go:48-53 | little-endian words read back as written |
| `PileStore.Pile.New` | core/pile/pile.go:25-67 | the begin height is refused exactly when it is no multiple of the chunk; otherwise the new file is a good pile without records if and only if its end height fits in 32 bits |
| `PileStore.Pile.LoadPile` | core/pile/pile.go:70-172 | loading does exactly the checks and repairs of Load, and holds the records whenever they were recovered |
| `PileStore.Pile.RepairHeads` | core/pile/pile.go:100-141 | the repair writes exactly what the three words call for, or reports a crashed height |
| `PileStore.Pile.AppendData` | core/pile/pile.go:187-292 | a refused height changes nothing; otherwise the record is added and the file operations are exactly those the crash theorems speak of, in that order; the file stays valid if and only if the pile was not full, and otherwise the end offset is where the first hash was |
| `PileStore.Pile.GetHash` | core/pile/pile.go:295-325 | the hash of every stored height, an error past the chunk, the first hash for the begin height, and for every other height what the wrapped distance leads to |
| `PileStore.Pile.GetData` | core/pile/pile.go:328-387 | the item as appended for records of fewer than 64 items, an index error past the count, a height error past the head, a panic past the loaded table, and in all cases what ItemOf reads |
| `PileStore.Pile.GetDatas` | core/pile/pile.go:390-452 | the concatenated items as appended for records of fewer than 64 items, with the same errors, an error for every range that reaches past the loaded table, and in all cases what ItemsOf reads |
| `PileDB.DB.Init` | core/pile/db.go:94-109 | an empty store gets its first pile, a used one is refused |
| `PileDB.DB.AppendData` | core/pile/db.go:134-175 | appends exactly one record to the flat list of all records across piles, opening a new pile when the last is full, or refuses and changes nothing |
| `PileDB.DB.GetHash` | core/pile/db.go:178-201 | the hash of any stored height across all piles, the genesis hash at height 0, and past the head what the last pile holds there |
| `PileDB.DB.GetData` | core/pile/db.go:204-223 | any item of any stored height across all piles, with the errors of the pile and, from 64 items on, what the pile reads |
| `PileDB.DB.GetDatas` | core/pile/db.go:226-245 | any range of items of any stored height across all piles, with the errors of the pile and, from 64 items on, what the pile reads |
| `PileDB.Open` | core/pile/db.go:50-60 | from the loaded files in any order, the list of piles by chunk, or a missing-pile error |
| `PileDB.ReopensUnlessFull` | core/pile/db.go:50-60 | a store opens again as it was if and only if it has a record and its last pile is not full |
| `TimeSlots.Store.UseTimeSlots` | core/chain/chain.go:330-373 | a block passes exactly when every transaction is in its window and unmarked in the store |
| `TimeSlots.Store.UseTimeSlot` | core/types/context_data.go:430-452 | a slot is refused exactly when the layer itself or the store has it |
| `TimeSlots.Store.StoreBlock` | core/chain/store.go:818-841 | the marks afterwards are the old ones and the block's, less every slot before the previous one |
| `TimeSlots.Store.Rebuild` | core/chain/store.go:865-897 | the walk back leaves exactly the old marks and those of the blocks it passed, and so the store remembers everything in the last two slots, and nothing that did not happen |
| `TimeSlots.AnswersForNextBlock` | core/chain/store.go:696-705 | for every slot the next block may use, a mark is there if and only if the transaction is in the chain |
| `TimeSlots.RunRemembers` | core/chain/store.go:818-897 | every run, with restarts that lose the marks, store blocks again and walk back, keeps the store remembering the last two slots |
| `TimeSlots.RebuiltRemembers` | core/chain/store.go:865-897 | whatever true marks are there before it, after the walk the store remembers the last two slots |
| `TimeSlots.NoReplay` | core/chain/chain.go:330-373 | no transaction is in two blocks of a chain, though the store forgets all but two slots |
| `TimeSlots.AcceptsExactlyNew` | core/chain/chain.go:330-373 | a block passes if and only if its slot is not 0, every transaction is of its slot or the one before, and none is in an earlier block; a block without transactions always passes |
| `TimeSlots.WindowExactly` | core/chain/chain.go:331-338 | the window of a block is its own slot and the one before, and is empty in slot 0, where the slot before wraps |
| `TimeSlots.SameBlockRepeatPasses` | core/types/context_data.go:430-452 | within one block a repeated transaction passes |
| `Overlay.ReadsAreInvisible` | core/types/context_data.go:62-93 | caching on read changes no lookup of any key or account |
| `Overlay.MergeKeepsData` | core/types/context.go:238-246 | merging the top layer keeps a data read if and only if it does not set the key over a tombstone of the layer below; otherwise the write is lost |
| `Overlay.MergeKeepsAccount` | core/types/context.go:225-233 | the same for accounts |
| `Overlay.CommitKeepsData` | core/types/context.go:219-287 | committing any number of snapshots keeps a read if and only if no layer sets the key over a tombstone without deleting it again above |
| `Overlay.WriteOverTombstoneIsLost` | core/types/context.go:238-246 | a write over a tombstone of the block, committed from a snapshot, is not read back, while the same write made directly is |
| `Overlay.CommitIsDirect` | core/types/context.go:219-287 | reads and writes in a committed snapshot read like the same ones made directly, for every key not deleted in the receiving layer |
| `Overlay.WithFeeIsDirect` | process/vault/vault_method.go:156-172 | in a transaction that pays its fee in one layer and runs in another, a key reads after both commits as if all was done directly, if and only if it is left empty or neither the fee nor the block emptied it before |
| `Overlay.GatheredBalanceSurvives` | process/formulator/tx_create_sigma.go:94-122 | what CreateSigma gathers in the first balance is there after the commits if and only if it is nothing or that balance was not just the fee |
| `Overlay.RevertRestores` | core/types/context.go:201-216 | whatever commands run after a snapshot, with nested snapshots, commits and reverts and changes through account objects, reverting gives back the very stack if and only if every object held from before the snapshot was last given its old state; in particular if none was changed |
| `Overlay.RevertLeavesHeld` | core/types/context.go:201-216 | after the revert the stack is exactly what the changes through objects held from before the snapshot made of it |
| `Overlay.HeldChangeSurvives` | core/types/context.go:201-216 | one change through an object held from below the snapshot survives the revert, unless it sets the state that was there |
| `Overlay.HeldChangeCommits` | process/formulator/tx_change_staking.go:86-113 | an account changed through an object that was read before the fee snapshot reads as changed after the commit if and only if the snapshot has neither deleted it nor a copy in another state |
| `Overlay.FlushKeepsAccounts` | core/chain/store.go:901-1041 | after the flush the store answers for every account as the context did |
| `Overlay.FlushKeepsData` | core/chain/store.go:901-1041 | for data it does so if and only if the data is not of an account deleted in the block, or was no longer readable |
| `Contexts.Context.GetAccount` | core/types/context_data.go:62-93 | returns the top layer's own object, cloned from below if need be, and caches it |
| `Contexts.Context.AssignHeld` | process/formulator/tx_revert_unstaking.go:82-103 | changing an account object that some layer holds changes that account of that layer and nothing else |
| `Contexts.Context.GetData` | core/types/context_data.go:229-265 | returns the visible value and caches it in the top layer only |
| `Contexts.Context.SetData` | core/types/context_data.go:268-277 | writes the value, or a tombstone for an empty one, in the top layer only |
| `Contexts.Context.CreateAccount` | core/types/context_data.go:152-180 | adds the account to the top layer or fails with the first error that applies; afterwards it reads as created if and only if the top layer had no tombstone for it, and every other account and all data read as before |
| `Contexts.Context.DeleteAccount` | core/types/context_data.go:218-226 | a readable account reads as deleted afterwards, one that could not be read is left alone, and every other account and all data read as before |
| `Overlay.DeletedReads` | core/types/context_data.go:218-226 | deleting a readable account makes it, and only it, read as deleted; deleting any other address changes no lookup |
| `Overlay.DeletionSurvives` | core/types/context.go:219-287 | a deletion in a committed snapshot still reads as a deletion after the commit, and the store answers so after the flush |
| `Overlay.HasIsReadable` | core/types/context_data.go:127-138 | an account is there exactly when it can be read |
| `Overlay.CreatedReads` | core/types/context_data.go:152-180 | creating fails with each error exactly for its cause, with ExistAccount exactly for a readable account; after success the account reads as created if and only if the top layer has no tombstone for it |
| `Overlay.ChangedReads` | core/types/context_data.go:62-93 | changing an account through a fresh read makes it read as the new state, and nothing else changes |
| `Contexts.Context.Snapshot` | core/types/context.go:201-207 | pushes an empty layer and leaves all others as they are |
| `Contexts.Context.Revert` | core/types/context.go:210-216 | cuts the stack back to the layers below the snapshot |
| `Contexts.Context.Commit` | core/types/context.go:219-287 | merges layer after layer in place, exactly as the function the theorems speak of |
| `Contexts.Context.Attempt` | core/chain/chain.go:349-372 | a failed transaction leaves every layer with the very account objects it had, and every state unchanged if and only if every object held from before was last given its old state |
| `StoreFlush.StoreWriter.ApplyContextData` | core/chain/store.go:901-1041 | the loops over the maps, in any order, store exactly the flush of the layer |
| `Amounts.SumPut` | process/vault/vault_method.go:24-53 | storing an amount changes the sum by exactly the difference, up to the sign that the encoding drops |
| `EnumIndex.UnregisterOk` | process/formulator/formulator_method.go:79-114 | swap-remove drops exactly one address and keeps number and reverse entries inverse on 0..Count-1 |
| `EnumIndex.RegisterOk` | process/formulator/formulator_method.go:63-77 | adding an address keeps the two tables inverse and adds only it |
| `Ledgers.AddKeepsIndex` | process/formulator/formulator_method.go:63-77 | adding to a stake keeps the index exact if and only if the new stake is not zero |
| `Ledgers.Ledger.AddBalance` | process/vault/vault_method.go:24-34 | adds to one balance, and refuses a negative amount |
| `Ledgers.Ledger.SubBalance` | process/vault/vault_method.go:37-53 | takes from one balance, and refuses what it does not cover |
| `Ledgers.Ledger.PayFee` | process/vault/vault_method.go:156-163 | moves the fee from the balance to the collected fee, or changes nothing |
| `Ledgers.FeeTaken` | process/vault/vault_method.go:156-172 | a fee taken from a staked amount leaves the balances alone, and otherwise exactly the payer loses exactly the fee |
| `Ledgers.Ledger.SubStakingAmount` | process/formulator/formulator_method.go:79-114 | takes a covered amount, and drops the staker from the index exactly when nothing is left |
| `Ledgers.Ledger.GetStakingAmountMap` | process/formulator/formulator_method.go:117-130 | the enumeration gives exactly the stakes that are not zero |
| `Ledgers.Ledger.Stake` | process/formulator/tx_change_staking.go:99-113 | adding a stake keeps the ledger valid if and only if the staker ends up with a positive stake, and the sum of stakes changes by exactly the magnitude stored |
| `Ledgers.Ledger.Transfer` | process/vault/tx_transfer.go:84-124 | moves exactly the amount and the fee, fails exactly when it should, and keeps the total value |
| `Ledgers.Ledger.Staking` | process/formulator/tx_staking.go:37-103 | succeeds exactly when valid, and keeps value, index and Hyper totals; says exactly which balance, stake and total change, and changes nothing if it fails |
| `Ledgers.Ledger.Unstaking` | process/formulator/tx_unstaking.go:38-111 | keeps index and Hyper totals; keeps value if and only if a fee taken from the amount does not exceed what the queue entry then holds and no amount taken back earlier is still stored for that height |
| `Ledgers.Ledger.ChangeStaking` | process/formulator/tx_change_staking.go:38-115 | keeps value, index and Hyper totals, also between the same Hyper, if and only if a fee taken from the amount leaves a positive stake |
| `Ledgers.RestakedMoves` | process/formulator/tx_change_staking.go:86-113 | moving a stake takes the amount at one Hyper and gives what is left of it at the other, also at the same one, and leaves every other stake |
| `Ledgers.Ledger.RevertUnstaking` | process/formulator/tx_revert_unstaking.go:38-104 | succeeds exactly when the queue entry covers the amount; keeps index and Hyper totals if and only if a fee taken from the amount leaves a positive stake, and value if and only if the entry was also still listed; the queue is exactly the reduced one |
| `Ledgers.Ledger.Transmute` | process/formulator/tx_transmute.go:35-167 | given that policy allows it, succeeds exactly when the stakes cover the amounts and these add up to the deposit, also with a Hyper named twice, and keeps value; touches no stake of others, no other deposit and no balance |
| `Ledgers.Ledger.CreateSigma` | process/formulator/tx_create_sigma.go:37-130 | given that policy allows it, fails exactly on a repeated other, a non-Alpha or an unpayable fee; the first Alpha ends up with all balances, less the fee, and all deposits; value is kept if and only if the first is not named again or nothing was at stake, and otherwise exactly all deposits and balances of the list are lost; every other account keeps its balance, deposit and kind |
| `Ledgers.Ledger.RevokeFormulator` | process/formulator/formulator_method.go:496-556 | in a valid ledger never fails with a staking error, pays every staker exactly its stake once, and says exactly what is lost: the deposit and the balance without a heritor, and the own stake |
| `UnstakingQueues.AddedExactly` | process/formulator/formulator_method.go:299-328 | adding an unstaked amount raises what will be paid by exactly it if and only if the entry does not become negative and nothing unlisted is stored for that height and staker |
| `UnstakingQueues.AddedKeeps` | process/formulator/formulator_method.go:299-328 | adding keeps the tables of the height inverse, every listed staker with an entry, and leaves nothing new unlisted |
| `UnstakingQueues.ReducedKeeps` | process/formulator/formulator_method.go:330-385 | taking an amount back keeps the same, and can leave stored amounts unlisted for that height and staker only |
| `UnstakingQueues.ReducedSum` | process/formulator/formulator_method.go:330-385 | taking a covered amount back lowers what will be paid by exactly it, and not at all if the staker is not listed |
| `UnstakingQueues.TakenBackCountsAgain` | process/formulator/formulator_method.go:330-356 | taking the last amount back and unstaking again counts both amounts |
| `UnstakingQueues.PaidKeeps` | process/formulator/formulator_method.go:387-407 | flushing a height takes out exactly what was listed for it and keeps the queue consistent |
| `Ledgers.Ledger.FlushQueue` | process/formulator/formulator_method.go:387-407 | takes out exactly the listed entries of the height, and its index |
| `Ledgers.Ledger.PayUnstaked` | process/formulator/formulator.go:509-534 | pays each staker exactly the sum of its listed entries of the height and keeps the total value |
| `Ledgers.Ledger.ExecuteAll` | process/formulator/tx_revert_unstaking.go:78-104 | every sequence of Transfer, Staking, Unstaking, ChangeStaking, RevertUnstaking, Transmute and CreateSigma keeps the index and the Hyper totals, with fees below the amounts they are taken from; it keeps the total value if no queue pair is used again after something was taken back from it and no Alpha is merged into itself |
| `Revocations.RevocationQueue.Add` | process/formulator/formulator_method.go:196-213 | queues a revocation once, with its heritor |
| `Revocations.RevocationQueue.Remove` | process/formulator/formulator_method.go:215-246 | takes a queued revocation back by swap-remove and keeps the index exact |
| `Revocations.RevocationQueue.Flush` | process/formulator/formulator_method.go:248-270 | never fails, and returns exactly the outstanding revocations of the height with their heritors |
| `Rewards.DistributionBound` | process/formulator/formulator.go:372-399 | sharing R over total power S to n receivers gives at most R and leaves less than S/COIN + n base units |
| `Rewards.RewardBook.Powers` | process/formulator/formulator.go:206-243 | the total power is the sum of the powers of all generators that are not revoked |
| `Rewards.RewardBook.Distribute` | process/formulator/formulator.go:364-399 | every receiver gets exactly its share, the fee is used up, and what is left undivided is below the bound |
| `Rewards.RewardBook.PayStaker` | process/formulator/formulator.go:440-459 | the staker's part and the commission add up to the share |
| `Rewards.RewardBook.PayAllStakers` | process/formulator/formulator.go:436-460 | every staker gets exactly its net part, in balance or stake as it chose, nobody else gets anything, and the commission returned is the sum of the commissions |
| `Rewards.RewardBook.PayHyper` | process/formulator/formulator.go:400-478 | at every address the balance and the stake change by exactly the net part and the commission due there, and the value by exactly what rounding leaves of what was stacked |
| `Rewards.RewardBook.Payout` | process/formulator/formulator.go:172-491 | after a whole payout every balance has grown by exactly the share of an unrevoked generator in reward and fee, the net parts at due Hypers where it is not staked again and the commissions of a due Hyper; every stake by the parts staked again, or is gone with its account; the collected fee is 0 if there is any power and unchanged otherwise; and the value changes by exactly the reward less what is forfeited, dropped and left by rounding |
| `Rewards.PayoutRest` | process/formulator/formulator.go:364-478 | what a payout leaves by rounding is never negative, and if every Hyper generator has an account and every due Hyper a staker with power, at most one unit per receiver and one per coin of power over all its shares |
| `Rewards.RestSmall` | process/formulator/formulator.go:400-478 | at a due Hyper with power less than one unit per staker and one per coin of power goes to nobody; nothing at one that is not due |
| `Rewards.UndividedSmall` | process/formulator/formulator.go:364-399 | the same for the main distribution |
| `Rewards.PowerBound` | process/formulator/formulator.go:206-243 | the power of a generator is its amount times its blocks times the efficiency per thousand, rounded down |
| `Rewards.CommissionExactly` | process/formulator/formulator.go:440-459 | the commission is that many thousandths of a share, rounded down |
| `Rewards.PayoutKeepsTotals` | process/formulator/formulator.go:260-275 | a payout keeps every Hyper total equal to the stakes if and only if, for each Hyper that takes part, what is staked again equals what is dropped |
| `Rewards.GoneStakerBreaksTotals` | process/formulator/formulator.go:265-275 | one staker whose account is gone, and nothing staked again: the total no longer is the sum of the stakes |
| `SortedQueues.SortedQueue.Insert` | common/queue/sorted.go:44-74 | inserts after every item of the same or a lower priority and before all others, whichever way the slice makes room |
| `SortedQueues.SortedQueue.OpenGap` | common/queue/sorted.go:54-73 | append, left slide and right shift all open the gap at the same place of the window |
| `SortedQueues.PlacedSorted` | common/queue/sorted.go:44-74 | such an insertion keeps the order, is stable, and loses nothing |
| `SortedQueues.SortedQueue.FindOrInsert` | common/queue/sorted.go:25-34 | returns the first item of the priority and changes nothing, or inserts |
| `SortedQueues.SortedQueue.Find` | common/queue/sorted.go:100-113 | the value of the first item of the priority, or nothing |
| `SortedQueues.FirstThere` | common/queue/sorted.go:100-113 | there is a first item of a priority exactly when there is any |
| `SortedQueues.SortedQueue.Pop` | common/queue/sorted.go:144-164 | removes exactly the first item, also when the slice is compacted |
| `SortedQueues.SortedQueue.Compact` | common/queue/sorted.go:152-162 | copying into a small slice or down to the front keeps the contents |
| `SortedQueues.SortedQueue.PopUntil` | common/queue/sorted.go:116-134 | leaves and returns exactly what PopUntilOf says, stopping at a nil value |
| `SortedQueues.PopUntilMeans` | common/queue/sorted.go:116-134 | without nil values exactly the items below p are dropped and the first item at p, if any, is taken |

## Left out

- Networking, websockets, handshakes, peers, RPC and command line: input and output only.
- The contents of signatures, hashes, encodings, gzip and ordered maps: taken as injective or inverse functions and as finite maps.
- Restarts of an observer: its round state is in memory only, so a restarted observer counts among those that do not follow the code.
- Requests for generated blocks (observer_node_observer.go:422-474): the case never matches the pointer that is delivered.
- Pacing of rounds, throttled requests and resends to formulators: they depend on clocks and change no voting state.
- Execution of a block while voting: whether it succeeds is a parameter of the step.
- Formulator-side generation of blocks: driven by timers.
- Wrap-around of 32-bit block heights in voting and in the last chunk of the block store.
- `NextContext` and the cache between a context and its loader: reads go to the store directly.
- Account names and UTXOs in the overlay, events, and the second account-creation method: easier members of the same kind.
- The pointer from a layer to its parent: the model uses the order of the stack, which is the same.
- A crash before a new pile's first sync, and failing writes: the store of the model writes what it is told to.
- Transaction pool and linked queue: they keep stale keys, so there is no simple map that they implement.
- Locked balances of the vault and counts of generated blocks: the same index pattern as stakes and revocations.
- How staking power grows between payouts: the powers are inputs of the payout, for all values.
- Policy, owner and admin transactions, creation of accounts, Omega and Hyper formulators: simple updates.
- Gateway, payment, bank and explorer services.
- Contexts.Context.CreateAccount: does not model account names and the two errors about them, a second table of the same kind.
- Ledgers.Ledger.Transmute: the checks that need policy or clock (the enable heights, the account name, the height below which Alpha creation is limited) are folded into the parameter `allowed`.
- Ledgers.Ledger.CreateSigma: the checks that need policy or clock (the number of Alphas and of signers, the blocks and rewards since the creation of each) are folded into the parameter `allowed`; an empty list, on which the source panics, is excluded.
- Ledgers.Ledger.ExecuteAll: leaves out sequences in which a fee taken from an amount is not smaller than it, for which the single transactions say exactly what happens.
- PileDB.DB.AppendData: leaves out opening the pile of the last chunk, whose end height does not fit in 32 bits.
- Negative indexes and counts of the block-store readers: they are natural numbers here.
