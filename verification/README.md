# Headers-only proof-of-work node: a verified model

This project models the consensus core of a headers-only proof-of-work node and proves what that core is for. Four
parts fit together.

* **Consensus arithmetic.** `BaseUint` is the array of 32-bit limbs behind `arith_uint256` and `arith_uint512`; its
  in-place operators refine integer arithmetic modulo 2^BITS. On top of it sit the compact `nBits` float, the block
  proof, median time past and the ASERT difficulty rule (section "Target computation" of the 2020-11-15 Bitcoin Cash
  ASERT specification). On every accepted chain none of the difficulty assertions can fail.
* **Block tree and chain selection.** The block index is a map from hashes to entries; pointers between entries are
  hashes. `CChain`, `ChainSelector`, `OrphanPool`, `BlockManager` and `ChainstateManager` are classes with the fields
  of the original. A value `State(index, chain, candidates, failed)` and one function per public operation
  (`Submitted`, `Activated`, `Invalidated`, `Reloaded`) specify them; every class method is proved equal to its
  function, and the results over whole runs are proved about the functions.
* **Wire format and framing.** Messages, their bytes, the serializer and deserializer classes, the 24-byte message
  header, and the receive buffer with its read offset, lazy compaction and flood limit.
* **Header sync.** The request and response handlers of both sides and the loop between two nodes.

## Main results

Where the code does not always do what it is for, the result is the exact condition under which it does, and a concrete
run in `Witness`, `Refused` or `Standstill` shows the other side.

* `Runs.MaximalWorkExact`: in every state of a run of submissions, activations, invalidations and reloads an activation
  would make the tip the heaviest valid block of the whole index, if and only if every step was safe and in every state
  the reorg guard lets a heaviest candidate pass, which it always does when it is off. A submission is safe when it
  promotes no orphan or the candidates match all it inserts; by `Promotion.PromotesExactly` it promotes one exactly if a
  pooled orphan waits for the header and is valid below it. An invalidation is safe when it names a block of the active
  chain or leaves a heaviest block that is a candidate or a leaf; `Invalidation.LostExactly` says what the unsafe ones
  have in common. An activation is safe when the guard lets a heaviest candidate pass. `Runs.SettledRunsAreSafe` covers
  runs that promote no orphan, activate before they invalidate and have nothing refused. `Witness.LostBlock` accepts two
  blocks, invalidates the upper one before any activation, and loses the lower one.
* `Exponential.TargetIsExponential`: the difficulty rule is exponential. For every exponent the target is the reference
  target times a power of two to within 0.013 per cent, the error the source promises for its cubic.
* `Runs.RunVetted` and `Chainstate.FreshExactly`: exactly which headers are inserted, and that in every reachable state
  every block but the genesis has its commitment and its RandomX hash.
* `FirstSeen.FirstSeenExact` and `FirstSeen.FirstSeenWins`: processing headers one by one, with or without reorg guard
  and promoted orphans, keeps the best tip exactly as long as every call is quiet, and then refines a plain scan: the
  tip is the earliest accepted block of maximal work. A call is quiet when no header it inserts outweighs the tip, or
  when it inserts one header and the guard lets it pass.
* `Submission.PromotionExact`: a submission that promotes orphans never moves the tip, and the tip is still the best
  exactly when no inserted header, weighed from its parent, outweighs it. `Witness.PromotedOrphanRun` runs a node into
  this.
* `Burial.BuriedExactly`: with reorg limit D, a block that has D - 1 others above it at every activation stays at its
  height over a whole run if and only if no step invalidates it or an ancestor and every reload takes a tip that
  descends from it. `Burial.BuriedForever`: with one difficulty throughout and nothing invalidated it is enough that the
  block has D - 1 others above it once; without one difficulty a heavier but shorter chain can lower that number. The
  limit does not survive a restart: loading takes a heaviest sound block without asking the guard, and a refused branch
  is still in the index. `Refused.BuriedThenLost` refuses a branch, restarts and loses the block. If no other valid
  block weighs as much as the tip a reload keeps the chain (`Burial.ReloadKeepsBest`).
* `Runs.RunInv`: failure is closed under descendants and nothing failed is ever active or a candidate.
* `Chainman.ChainstateManager.AcceptBlockHeader`: the recursion with `ProcessOrphanHeaders` terminates. From the pool
  leave exactly the orphans whose parent was indexed by the call, and each of them was itself indexed or failed
  validation while its parent was indexed.
* `Chainman.ChainstateManager.ActivateBestChain`: an observer replaying the events holds the active chain; a failed
  connect restores the old chain without an event.
* `HeaderSync.Round`, `HeaderSync.Exchange` and `HeaderSync.Sync`: a requester on a prefix of the responder's chain,
  with any orphans pooled. A block of that chain is late if it is known with a child, or new and a pooled orphan is
  valid below it. One round takes the requester exactly to the highest block of the batch that is not late, or leaves it
  where it is; the batch is ignored if the initial download had ended and the batch ends below the minimum chain work.
  The height after r rounds is `Rounds.Height(r)`. By `Rounds.EndsExactly` the loop ends if and only if it reaches no
  height at which a full batch gains nothing: one that is all late or ignored. From such a height on every round is the
  same and the node asks for the same batch for ever; `Standstill.NeverCatchesUp` is a run into one,
  `Rounds.LowBatchForever` the ignored case, and `Rounds.FewNeverStick` a count of orphans and known blocks that rules
  it out. Where the loop ends, it ends with the responder's chain exactly when the requester had it from the start, or
  the responder's tip is not late and the download had not ended or that tip has the minimum chain work.
  `Witness.SyncStopsShort` runs two nodes into the other case.
* `Framing.ParseSpells`, `Framing.FramesParse` and `Framing.BrokenExactly`: what a byte string delivers is exactly the
  frames it begins with, checksums included, and exactly when it ends the connection.
* `Stream.ReceiveAll`: however a stream of framed messages is cut into chunks, at any point the first messages have
  arrived, once each, in order and equal to what was sent, and the buffer is bounded; in the end all have.
* `Persist.SaveThenLoad`: loading what was saved rebuilds the same index and picks the first heaviest sound tip.

Every result about work assumes what it names: `NoWrap`, `NeverWraps` and `Room` say that no sum of work reached 2^256.
`Env.connects` is the verdict of `ConnectTip`, which the shipped node always gives as true (`AlwaysConnects`); it is a
parameter so that the rollback path is not dead code. Block hash, proof-of-work verdicts and the message checksum are
parameters.

`Exchange` and `Sync` assume `Behind`: all headers of the chain validate at the time of the exchange, no candidate
outweighs the requester's tip, and no pooled orphan has the hash of a different block of the chain (`NoClash`). The
number of orphans and of known blocks, the minimum chain work, the state of the initial download and the reorg limit are
arbitrary. `Sync` also assumes that the loop ends (`Ends`); `Exchange` does not.

Where comments and code of the original disagree the model follows the code: the comment at
`src/chain/chain_selector.cpp:132` says that candidates of equal work are pruned, the code keeps them; the example
locator at `include/chain/chain.hpp:86-88` doubles its steps from the third entry, the code from the twelfth; the
comment at `src/chain/block_index.cpp:24-26` has a power of two skip to the one before it, the code skips to the root.

## Model

| member | source | states |
|---|---|---|
| ArithUint.BaseUint.AddAssign | include/util/arith_uint256.hpp:116-126 | the carry loop adds modulo 2^BITS |
| ArithUint.BaseUint.Increment | include/util/arith_uint256.hpp:154-161 | the ripple adds one modulo 2^BITS |
| ArithUint.BaseUint.Negate | include/util/arith_uint256.hpp:58-65 | complement and increment give the additive inverse modulo 2^BITS |
| ArithUint.BaseUint.SubAssign | include/util/arith_uint256.hpp:128-132 | adding the negation subtracts modulo 2^BITS |
| ArithUint.BaseUint.Complement | include/util/arith_uint256.hpp:50-56 | limb-wise complement is 2^BITS - 1 - x |
| ArithUint.BaseUint.AssignU64 | include/util/arith_uint256.hpp:69-76 | two limbs hold the word, the rest are cleared |
| ArithUint.BaseUint.GetLow64 | include/util/arith_uint256.hpp:223-227 | the value modulo 2^64 |
| ArithUint.BaseUint.MulU32 | src/util/arith_uint256.cpp:45-54 | multiplies by a word modulo 2^BITS |
| ArithUint.BaseUint.MulAssign | src/util/arith_uint256.cpp:56-69 | the schoolbook rows multiply modulo 2^BITS |
| ArithUint.BaseUint.ShiftLeft | src/util/arith_uint256.cpp:13-27 | multiplies by 2^shift modulo 2^BITS |
| ArithUint.BaseUint.ShiftRight | src/util/arith_uint256.cpp:29-43 | floor division by 2^shift |
| ArithUint.BaseUint.DivAssign | src/util/arith_uint256.cpp:71-94 | the shift-subtract loop gives the exact floor quotient; fails exactly on a zero divisor |
| ArithUint.BaseUint.CompareTo | src/util/arith_uint256.cpp:96-105 | orders by value |
| ArithUint.BaseUint.BitLength | src/util/arith_uint256.cpp:157-168 | position of the highest set bit plus one |
| Work.SetCompact | src/util/arith_uint256.cpp:175-192 | the decoded value modulo 2^256 and both flags |
| Work.GetCompact | src/util/arith_uint256.cpp:194-215 | the encoding of the value, with the sign bit where it is asked for and there is a mantissa |
| Compact.CompactRoundTrip | src/util/arith_uint256.cpp:175-215 | decoding an encoding loses less than one part in 2^15, sets no flag, and encodes to the same word again |
| Compact.EncodeMonotone | src/util/arith_uint256.cpp:194-215 | a greater number never gets a smaller encoding |
| Compact.SignedRoundTrip | src/util/arith_uint256.cpp:175-215 | the sign is read back as it was written, beside the same value |
| Compact.OverflowExact | src/util/arith_uint256.cpp:188-190 | the overflow flag is set exactly when the true value is at least 2^256 |
| Work.BlockProof | src/chain/block_index.cpp:91-111 | floor(2^256 / (target + 1)): positive exactly for valid bits, below 2^256 |
| Work.GetBlockProof | src/chain/block_index.cpp:91-111 | the limb computation equals the block proof |
| Work.NeverAllOnes | src/chain/block_index.cpp:100-104 | the guard against a target of all ones never fires on decoded bits |
| Work.CalculateHeadersWork | src/chain/validation.cpp:137-175 | the sum of the block proofs modulo 2^256 |
| SyncSpec.BatchWork | src/chain/block_manager.cpp:173-176 | an ancestor's work plus CalculateHeadersWork of the headers up to a block is that block's work |
| HeaderChecks.UintToArith256 | src/util/arith_uint256.cpp:223-228 | the limbs denote the number |
| Asert.FactorRange | src/chain/pow.cpp:72-75 | the cubic fits 64 bits and the factor lies in [65536, 131071] |
| Exponential.FactorIsExponential | src/chain/pow.cpp:69-75 | the factor is 65536 * 2^(frac / 65536) to within 0.013 per cent, above and below, for every fraction; the power is a real power of the 65536th root of two |
| Exponential.TargetIsExponential | src/chain/pow.cpp:72-95 | the unclamped target for the exponent q + r / 65536 is the reference target times 2^q times the r-th power of that root, to within 0.013 per cent and one unit of rounding |
| Asert.CalculateAsert | src/chain/pow.cpp:40-114 | the 512-bit computation equals the target function |
| Asert.OverflowSeen | src/chain/pow.cpp:89-95 | shifting back detects exactly the shifts that lost bits |
| Asert.LaterIsNotHarder | src/chain/pow.cpp:40-114 | a later parent time never gives a smaller target |
| Asert.HigherIsNotEasier | src/chain/pow.cpp:40-114 | a greater height never gives a greater target |
| Asert.OnScheduleKeepsTarget | src/chain/pow.cpp:57-60 | a chain exactly on schedule keeps the anchor's target |
| Asert.HalfLifeStep | src/chain/pow.cpp:24-27 | when one more half-life raises the exponent by exactly one |
| Asert.DoublesPerHalfLife | src/chain/pow.cpp:24-27 | one more half-life doubles the unclamped target |
| MedianTime.MedianStep | include/chain/block_index.hpp:156-167 | appending a time after the median never lowers the median, in the growing and in the sliding window |
| MedianTime.MedianMonotone | src/chain/validation.cpp:45-57 | median time past never decreases along a chain accepted under the median rule |
| MedianTime.LaterThanBlockOne | src/chain/validation.cpp:45-57 | every later block is strictly later than block one |
| ActiveChain.GetMedianTimePast | include/chain/block_index.hpp:156-167 | the walk and sort give the median of the last eleven times of the path |
| Validation.TimeDiffNeverWraps | src/chain/pow.cpp:153-170 | the unsigned time difference to the anchor never wraps on an accepted chain |
| Validation.AnchorWithinLimit | src/chain/pow.cpp:146-157 | the anchor's target is positive and within the limit |
| Validation.DifficultyIsTotal | src/chain/pow.cpp:40-114 | on accepted chains no difficulty assertion fails and the required bits decode to a target in [1, limit] |
| Validation.ShippedParamsAreSane | src/chain/chainparams.cpp:70-175 | the parameter ranges assumed above hold for mainnet and testnet |
| HeaderChecks.GetNextWorkRequired | src/chain/pow.cpp:123-182 | the code on the block tree equals the rule on the header path |
| HeaderChecks.ContextualCheckBlockHeader | src/chain/validation.cpp:31-91 | the checks on the block tree equal the rule on the header path, with the reason of the first failure |
| SkipList.GetSkipHeight | src/chain/block_index.cpp:14-30 | the skip height lies strictly below the height |
| SkipList.SkipHeightExactly | src/chain/block_index.cpp:14-30 | an even height skips the largest power of two that divides it, an odd one the two lowest of the height below it |
| SkipList.GetAncestor | src/chain/block_index.cpp:40-65 | skip pointers reach exactly the block reached by following parents |
| SkipList.BuildSkip | src/chain/block_index.cpp:32-37 | the new skip pointer is the ancestor at the skip height |
| TreeGrowth.InsertedInv | src/chain/block_manager.cpp:126-213 | inserting below an indexed parent keeps the rooted tree with exact heights, work, times and skip pointers |
| TreeGrowth.InsertedAccepted | src/chain/validation.cpp:31-91 | inserting a checked header keeps every path an accepted chain |
| Blocks.BlockManager.AddToBlockIndex | src/chain/block_manager.cpp:126-213 | known headers and headers without parent change nothing; otherwise the derived entry is added |
| Blocks.BlockManager.Initialize | src/chain/block_manager.cpp:76-110 | succeeds once, with a header whose parent hash is null |
| Blocks.VerifyChainContinuity | src/chain/block_manager.cpp:30-74 | true exactly within a million blocks of the expected genesis |
| Blocks.TreeTimeMax | src/chain/block_manager.cpp:177-178 | nTimeMax never falls along a path |
| ActiveChain.LastCommonAncestor | src/chain/block_index.cpp:113-139 | the last block two paths share |
| ActiveChain.ForkPointIsHighest | src/chain/block_index.cpp:113-139 | that block's ancestors are exactly the common ancestors |
| ActiveChain.CChain.SetTip | src/chain/chain.cpp:15-53 | the early-stopping walk leaves the path to the tip in the vector |
| ActiveChain.CChain.ContainsIsAncestry | include/chain/chain.hpp:46-53 | Contains means "is an ancestor of the tip" |
| ActiveChain.CChain.FindFork | src/chain/chain.cpp:96-127 | equals the last common ancestor with the tip |
| ActiveChain.CChain.FindEarliestAtLeast | src/chain/chain.cpp:129-141 | the binary search finds the lowest block that meets both bounds |
| ActiveChain.LocatorEntries | src/chain/chain.cpp:55-86 | ancestors from the block to genesis, entry i at height top - i up to the twelfth and at top - 9 - 2^(i-10) after it, none below zero; at most 101 |
| ActiveChain.LocatorReaches | src/chain/chain.cpp:63-83 | the first entry at or below any height is at most twice as far from the top as that height is |
| Selector.BetterIsStrictTotal | src/chain/chain_selector.cpp:14-27 | the comparator is a strict total order |
| Selector.BetterPrecedes | src/chain/chain_selector.cpp:14-27 | the order is more work, then greater height, then smaller hash |
| Selector.ChainSelector.FindMostWorkChain | src/chain/chain_selector.cpp:29-52 | the valid candidate of most work, among equals the highest, among those the one of smallest hash; exactly the invalid ones before it are dropped |
| Selector.ChainSelector.TryAddBlockIndexCandidate | src/chain/chain_selector.cpp:54-127 | a valid leaf replaces its parent among the candidates |
| Selector.ChainSelector.PruneBlockIndexCandidates | src/chain/chain_selector.cpp:129-212 | keeps exactly valid off-chain leaves with at least the tip's work |
| Selector.ChainSelector.UpdateBestHeader | src/chain/chain_selector.cpp:222-230 | a best header that tops the blocks seen so far tops them and the new one, and gives way only to strictly more work than all of them |
| Chainstate.FreshExactly | src/chain/chainstate_manager.cpp:49-147 | a header is inserted exactly if it is new, has valid bits, its commitment and its RandomX hash, a sound indexed parent, the required bits, a time after the median and at most two hours ahead, a version and a height before expiry |
| Chainstate.FreshInserts | src/chain/chainstate_manager.cpp:149-159 | inserting a header that passed keeps the tree, acceptance and failure invariants |
| Chainstate.InsertAllAdds | src/chain/chainstate_manager.cpp:149-168 | what an accept inserts is its headers, below their parents, and nothing else |
| Activation.ActivatedShape | src/chain/chainstate_manager.cpp:204-260 | activation leaves the path to a valid tip and changes nothing of the index but status flags |
| Activation.ActivatedBeatsCandidates | src/chain/chainstate_manager.cpp:211-260 | whatever was refused, no remaining candidate has more work than the tip |
| Activation.ActivatedMoves | src/chain/chainstate_manager.cpp:301-342 | the tip moves only to strictly more work and never disconnects as many blocks as the limit |
| Activation.GuardedExactly | src/chain/chainstate_manager.cpp:324-342 | with limit D the guard refuses a candidate exactly if the block D - 1 below the tip is not its ancestor |
| Activation.ActivationExact | src/chain/chainstate_manager.cpp:204-260 | activation makes the tip the best valid block of the index exactly when candidates the guard lets pass cover every heavier one |
| Activation.ActivatedTip | src/chain/chainstate_manager.cpp:301-342 | activation moves to the heavier candidate the guard lets pass that has the most work, then the greatest height, then the smallest hash, whatever was refused before it, and stays if there is none |
| Activation.RivalsStay | src/chain/chain_selector.cpp:129-190 | after a switch the candidates are exactly the former ones that tie with the new tip as valid leaves off the chain, less those the guard refused |
| Submission.SubmittedInv | src/chain/chainstate_manager.cpp:186-197 | accepting and offering keeps the state invariant, with any number of promoted orphans |
| Submission.SubmittedCovered | src/chain/chainstate_manager.cpp:186-197 | without promoted orphans every heavier valid block stays covered |
| Submission.SubmittedExact | src/chain/chainstate_manager.cpp:186-197 | coverage is kept exactly when no orphan was promoted or the candidates match every inserted header |
| Submission.InsertAllWeighs | src/chain/block_manager.cpp:173-176 | the work recorded for a list of headers is what their parents' works and their own proofs add up to |
| Submission.PositiveWork | src/chain/chain_selector.cpp:71-72 | the work asserted to be positive before a block is offered is, as long as no sum reached 2^256 |
| Submission.PromotionExact | src/chain/chainstate_manager.cpp:785-803 | with promoted orphans the chain stays, and its tip is still the best exactly when no inserted header outweighs it |
| Witness.PromotedOrphanIsIgnored | src/chain/chainstate_manager.cpp:785-803 | a header with one pooled child: the child is valid with three times the work of the tip and is not activated |
| Witness.PromotedOrphanRun | src/chain/chainstate_manager.cpp:171-202 | the same on a node: initialised, the child pooled, the header processed |
| Witness.LostBlock | src/chain/chainstate_manager.cpp:1139-1161 | two blocks submitted, the upper one invalidated, then an activation: the lower one is valid, heavier than the tip and not found |
| Witness.OneBehindIsLate | src/network/header_sync_manager.cpp:356-458 | a requester one block behind that pooled the child of the missing block meets what Sync asks, and the responder's tip is out of reach |
| Witness.SyncStopsShort | src/network/header_sync_manager.cpp:157-627 | two such nodes end the exchange with different tips |
| Standstill.NeverCatchesUp | src/network/header_sync_manager.cpp:356-478 | a run of two submissions with promoted orphans after which a responder's full batch is all late: every later round is full and leaves the height as it is |
| Refused.BuriedThenLost | src/chain/chainstate_manager.cpp:241-246 | a run in which the guard refuses a heavier branch beside a buried block and the next reload takes that branch |
| Invalidation.FailingExact | src/chain/chainstate_manager.cpp:1106-1132 | exactly the named block and its descendants become failed; no other entry changes |
| Invalidation.FailingClosed | src/chain/chainstate_manager.cpp:1112-1132 | failure stays closed under descendants |
| Invalidation.InvalidatedInv | src/chain/chainstate_manager.cpp:987-1162 | the chain stops below the block and all candidates are valid |
| Invalidation.InvalidatedExact | src/chain/chainstate_manager.cpp:987-1162 | heavier valid blocks are covered afterwards exactly when the named block was on the active chain or every spared heavier block is matched by a spared candidate or leaf |
| Invalidation.RivalsCompete | src/chain/chainstate_manager.cpp:1014-1085 | when a block leaves the active chain every valid block off the chain with at least the work of its parent becomes a candidate |
| Invalidation.LostExactly | src/chain/chainstate_manager.cpp:1139-1161 | coverage is lost exactly when the heaviest blocks left are above the tip, are no candidates, and have only failed children |
| Invalidation.InvalidatedListed | src/chain/chainstate_manager.cpp:1013-1090 | if every heavier valid block was a candidate, that still holds |
| Invalidation.NothingFailedInUse | src/chain/chainstate_manager.cpp:1041-1132 | no failed block is on the active chain or among the candidates |
| Runs.InitialInv | src/chain/chainstate_manager.cpp:614-636 | the initial state satisfies the invariant and its tip is the best block |
| Runs.ReloadedInv | src/chain/chainstate_manager.cpp:638-717 | so does a reloaded state |
| Runs.RunInv | src/chain/chainstate_manager.cpp:44-202 | every state of every run satisfies the invariant |
| Runs.RunVetted | src/chain/chainstate_manager.cpp:123-147 | in every state of every run every block but the genesis has both proofs of work, a version of at least one and a height before expiry |
| Runs.ReachableDifficulty | src/chain/pow.cpp:123-182 | so the difficulty code is total in every reachable state |
| Runs.StepExact | src/chain/chainstate_manager.cpp:171-260 | from a covered state each kind of step leads to a covered state exactly if it is safe, whatever the reorg limit |
| Runs.MaximalWork | src/chain/chainstate_manager.cpp:171-260 | as long as the steps so far were safe, heavier valid blocks are covered, and after each activation or reload the tip has the most work of all valid blocks |
| Runs.CoveredExact | src/chain/chainstate_manager.cpp:171-260 | the candidates cover every heavier valid block in every state of a run if and only if every step is safe |
| Runs.MaximalWorkExact | src/chain/chainstate_manager.cpp:171-260 | an activation would find the best block in every state of a run if and only if every step is safe and the guard lets a heaviest candidate pass in every state |
| Runs.SettledRunsAreSafe | src/chain/chainstate_manager.cpp:987-1162 | runs that promote no orphan, invalidate nothing while a submission is pending and have no activation refused are safe |
| Burial.StepSpares | src/chain/chainstate_manager.cpp:324-342 | one operation leaves a buried block at its height exactly if it invalidates neither it nor an ancestor and reloads only a descendant |
| Burial.BuriedExactly | src/chain/chainstate_manager.cpp:324-342 | over every run a block that is buried at each activation stays at its height if and only if every step spares it |
| Burial.UniformWork | src/chain/block_manager.cpp:173-176 | with one difficulty work counts blocks |
| Burial.BuriedForever | src/chain/chainstate_manager.cpp:324-342 | with one difficulty and nothing invalidated, a block once buried stays buried, and stays at its height if and only if every reload takes a descendant |
| Burial.ReloadKeepsBest | src/chain/block_manager.cpp:533-555 | if no other valid block weighs as much as the tip, a reload keeps the chain |
| FirstSeen.ScanFindsEarliest | src/chain/chainstate_manager.cpp:301-307 | the scan finds the earliest block of maximal work |
| FirstSeen.ProcessMoves | src/chain/chainstate_manager.cpp:171-202 | one call moves the tip exactly to a lone new header of more work that the guard lets pass; the tip is best afterwards exactly if the call was quiet |
| FirstSeen.FirstSeenWins | src/chain/chainstate_manager.cpp:171-202 | as long as the calls were quiet the tip is the result of the scan over everything accepted |
| FirstSeen.FirstSeenExact | src/chain/chainstate_manager.cpp:171-202 | the tip is the best valid block in every state of a run if and only if every call was quiet |
| Orphans.OrphanPool.Remove | src/chain/chainstate_manager.cpp:772-783 | one orphan leaves and the counters stay exact |
| Orphans.OrphanPool.Evict | src/chain/chainstate_manager.cpp:861-931 | all expired orphans go, else from a full pool the oldest, by hash among equals; a full pool always frees a slot |
| Orphans.OrphanPool.TryAdd | src/chain/chainstate_manager.cpp:806-859 | refused exactly when the peer holds fifty; counters exact, pool at most a thousand |
| Promotion.DrainMore | src/chain/chainstate_manager.cpp:761-803 | accepting one more orphan keeps the account: who left, and that they were indexed or failed below an indexed parent |
| Promotion.NothingDiscarded | src/chain/chainstate_manager.cpp:761-803 | no account covers dropping an orphan that is valid below the inserted header |
| Promotion.PromotesExactly | src/chain/chainstate_manager.cpp:735-804 | accepting a fresh header promotes orphans exactly if a pooled orphan names it as its parent and is valid below it |
| Promotion.DrainedLeavesNoneReady | src/chain/chainstate_manager.cpp:735-804 | if no orphan had an indexed parent before, none has one after |
| Notifications.ReplayConcat | src/chain/chainstate_manager.cpp:262-276 | replaying events in two parts is replaying them at once |
| Chainman.ChainstateManager.ConnectTip | src/chain/chainstate_manager.cpp:482-528 | makes a child of the tip the tip and queues its event, or changes nothing |
| Chainman.ChainstateManager.DisconnectTip | src/chain/chainstate_manager.cpp:535-568 | steps back to the parent with its event; refuses at the root |
| Chainman.ChainstateManager.TrySwitch | src/chain/chainstate_manager.cpp:344-409 | moves over the fork and the events replay to the new chain; a refused connect restores the old chain with no events |
| Chainman.ChainstateManager.ActivateBestChainStep | src/chain/chainstate_manager.cpp:280-440 | which of the outcomes occurs and the exact state after each |
| Chainman.ChainstateManager.ActivateBestChain | src/chain/chainstate_manager.cpp:204-278 | the loop equals the activation function and its events replay to the new chain |
| Chainman.ChainstateManager.CheckHeader | src/chain/chainstate_manager.cpp:49-147 | the verdict on a header, with the reason of the first failure; what passes is Chainstate.FreshExactly |
| Chainman.ChainstateManager.AcceptBlockHeader | src/chain/chainstate_manager.cpp:44-169 | terminates; inserts the header and pooled orphans below it; exactly the orphans with a newly indexed parent left, each indexed or failed below that parent; the best header keeps the most work |
| Chainman.ChainstateManager.ProcessOrphanHeaders | src/chain/chainstate_manager.cpp:735-804 | beside the orphans of the parent exactly those with a newly indexed parent left, with the same account |
| Chainman.ChainstateManager.ProcessNewBlockHeader | src/chain/chainstate_manager.cpp:171-202 | a rejected header changes nothing; otherwise accept, offer, activate, with replayable events and the account of the pool; no orphan becomes ready |
| Chainman.ChainstateManager.InvalidateBlock | src/chain/chainstate_manager.cpp:987-1188 | refused for unknown blocks and genesis; otherwise the exact new state, with replayable events; no orphan becomes ready |
| Chainman.ChainstateManager.Initialize | src/chain/chainstate_manager.cpp:614-636 | establishes the initial state with the root as best header |
| Chainman.ChainstateManager.AddOrphanHeader | src/chain/chainstate_manager.cpp:530-533 | the header joins the pool, which loses only what eviction takes; no orphan becomes ready |
| Chainman.ChainstateManager.IsInitialBlockDownload | src/chain/chainstate_manager.cpp:575-612 | ends for good with a recent tip above the root of at least the minimum work |
| Chainman.ChainstateManager.LoadState | src/chain/chainstate_manager.cpp:638-717 | the loaded index, its first heaviest sound block as tip, the valid leaves as candidates, the best header among them; a sound index gives a sound node |
| Bytes.HexRoundTrip | src/util/uint.cpp:24-60 | SetHex undoes GetHex at every width |
| Bytes.LeDigit | src/network/message.cpp:75-92 | little-endian bytes are the digits to the base 256, lowest first |
| Bytes.BeDigit | src/network/message.cpp:125-135 | big-endian bytes are the digits to the base 256, highest first |
| Bytes.BaseBlob.GetHex | src/util/uint.cpp:24-32 | two digits per byte, last byte first |
| Bytes.BaseBlob.SetHex | src/util/uint.cpp:34-60 | digits from the right after an optional prefix, missing digits zero, extra digits ignored |
| Persist.Save | src/chain/block_manager.cpp:215-296 | one record per block in height order |
| Persist.RecordRoundTrip | src/chain/block_manager.cpp:249-274 | a record gives back the hash, header and work it was written from |
| Persist.DescribesOne | src/chain/block_manager.cpp:370-528 | the records determine the tree, including parents, skip pointers and running maxima |
| Persist.LoadIndex | src/chain/block_manager.cpp:370-528 | the passes accept exactly the records of a tree and rebuild it |
| Persist.Load | src/chain/block_manager.cpp:298-591 | accepts every well-formed file with a tip within a million blocks and picks the heaviest sound block, by hash among equals |
| Persist.HeaviestIsMostWork | src/chain/block_manager.cpp:533-555 | that block is a valid block of most work |
| Persist.SaveThenLoad | src/chain/block_manager.cpp:215-591 | loading what was saved rebuilds the same index |
| Wire.VarIntRoundTrip | src/network/message.cpp:12-66 | a VarInt within the size limit is read back, leaving the rest of the stream |
| Wire.HeaderRoundTrip | src/chain/block.cpp:35-101 | the hundred bytes of a header read back as that header |
| Wire.HeaderBytesInjective | src/chain/block.cpp:35-62 | no two headers share their bytes |
| Messages.NameIdentifies | src/network/message.cpp:400-421 | each command name selects its message type |
| Messages.PayloadRoundTrip | src/network/message.cpp:425-677 | every message within the limits is read back as itself |
| Codec.SerializeFixed | src/chain/block.cpp:35-62 | the array filled field by field holds the header's bytes |
| Codec.Serialize | src/network/message.cpp:431-644 | each message class writes its wire format, also beyond the limits a receiver enforces |
| Codec.Deserialize | src/network/message.cpp:444-677 | each message class reads exactly what the wire format means and fails on everything else |
| Codec.MessageDeserializer.ReadVarInt | src/network/message.cpp:201-221 | short input and values over the size limit set the error flag |
| Framing.MsgHeaderRoundTrip | src/network/message.cpp:328-398 | a message header with a valid command reads back |
| Framing.CheckCommand | src/network/message.cpp:362-385 | the loop accepts exactly printable NUL-terminated NUL-padded commands |
| Framing.DeserializeHeader | src/network/message.cpp:348-398 | the header, or nothing for short input, a bad command or an oversized length |
| Framing.ParseInParts | src/network/peer.cpp:547-616 | parsing a stream in two parts with the rest carried over is parsing it whole |
| Framing.ParseSpells | src/network/peer.cpp:547-616 | every byte string is the frames of what it delivers, with right magic, length and checksum, followed by the rest |
| Framing.FramesParse | src/network/peer.cpp:547-616 | frames are delivered as they come, whatever follows them |
| Framing.RestIsNoFrame | src/network/peer.cpp:575-580 | what is left begins with no frame |
| Framing.BrokenExactly | src/network/peer.cpp:553-614 | the rest is broken exactly if it holds a whole header that does not announce a payload still to come |
| Framing.BrokenForGood | src/network/peer.cpp:553-614 | no continuation of a broken rest begins with a frame |
| Framing.HopelessButWaiting | src/network/peer.cpp:550 | the converse fails: a first byte of another network cannot become a frame and is not broken yet |
| Stream.PayloadFits | src/network/peer.cpp:597-608 | every message fits a frame and only verack and getaddr are empty |
| Stream.ParseFrames | src/network/peer.cpp:547-616 | a stream of framed messages parses into exactly those messages |
| Stream.Peer.ProcessReceivedData | src/network/peer.cpp:547-616 | delivers exactly the complete messages of the unread bytes |
| Stream.Peer.OnTransportReceive | src/network/peer.cpp:302-360 | flood check, compaction and append change nothing about what is delivered |
| Stream.ReceiveAll | src/network/peer.cpp:302-360 | at any point of any chunking the messages so far were delivered once, in order, equal to what was sent, without a flood and in a bounded buffer; in the end all were |
| HeaderSync.HeaderSyncManager.GetLocatorFromPrev | src/network/header_sync_manager.cpp:611-627 | the locator of the tip's parent, each entry at its height, which the other side accepts |
| HeaderSync.ForkIsNear | src/network/header_sync_manager.cpp:488-530 | a responder that shares the requester's blocks up to some height answers from at most as far below it as it is below the top of the locator |
| HeaderSync.HeaderSyncManager.HandleGetHeaders | src/network/header_sync_manager.cpp:488-582 | the chain after the first known locator entry, at most 2000 headers, up to the stop block |
| HeaderSync.FollowingExactly | src/network/header_sync_manager.cpp:540-570 | the answer spells the chain after the fork point and ends with the stop block, a full batch or the chain, whichever comes first |
| WorkFilter.GetAntiDoSWorkThreshold | src/chain/validation.cpp:110-135 | the limb computation equals the threshold function |
| SyncSpec.ThresholdMeans | src/chain/validation.cpp:110-135 | a work passes exactly during the initial download, or if it reaches the minimum and lags behind the tip by at most the buffer |
| WorkFilter.BatchBelow | src/network/header_sync_manager.cpp:308-321 | the limb sum of start and batch work compared with the threshold |
| HeaderSync.HeaderSyncManager.IsLowWork | src/network/header_sync_manager.cpp:306-321 | computed on limbs: a batch from a known block whose last header would record less work than the threshold |
| CatchUp.StretchLowExactly | src/chain/validation.cpp:110-135 | a batch that contains the tip is low on work exactly if the download has ended and it ends below the minimum chain work |
| CatchUp.SpineWork | src/chain/block_manager.cpp:173-176 | the blocks of the chain being synced record the sums of its proofs |
| CatchUp.NextVerdict | src/chain/chainstate_manager.cpp:49-147 | the next header of the chain is known if it is indexed and otherwise fresh |
| CatchUp.FamilyGrows | src/chain/chainstate_manager.cpp:735-804 | until its successor is handled, a block of the chain has a child once indexed exactly if it is late |
| CatchUp.TrackStep | src/network/header_sync_manager.cpp:356-449 | accepting and offering one header of the chain, with whatever it promotes, keeps the account of the batch |
| CatchUp.RestStep | src/network/header_sync_manager.cpp:356-449 | accepting a header of the chain again that was handled before changes nothing |
| CatchUp.TrackActivates | src/network/header_sync_manager.cpp:451-458 | activation moves the tip exactly to the highest handled block of the chain that is not late, whatever the reorg limit |
| Rounds.StuckExactly | src/network/header_sync_manager.cpp:306-351 | a full batch gains nothing exactly if it is ignored or all of its new blocks are late |
| Rounds.EndsExactly | src/network/header_sync_manager.cpp:597-609 | the loop ends if and only if it reaches no height at which a full batch gains nothing |
| Rounds.StuckForever | src/network/header_sync_manager.cpp:477-478 | from such a height on every batch is full and the height stays |
| Rounds.LowBatchForever | src/network/header_sync_manager.cpp:336-346 | a node whose download had ended never gets past a full batch below the minimum chain work |
| Rounds.EndsAtLast | src/network/header_sync_manager.cpp:597-609 | the round after the last full one reaches the end of the chain exactly if the last block is not late and weighs enough, or was there from the start |
| Rounds.FewNeverStick | src/network/header_sync_manager.cpp:597-609 | if orphans and known blocks above the tip are fewer than the new headers of a full batch and the tip has the minimum work, the loop ends |
| HeaderSync.HeaderSyncManager.Screen | src/network/header_sync_manager.cpp:187-351 | exactly which batches are stopped before anything is accepted, with which result, and for which the sync peer is dropped |
| HeaderSync.HeaderSyncManager.AcceptOne | src/network/header_sync_manager.cpp:356-449 | a header not rejected is accepted and offered with its account; one without parent is pooled; exactly which rejections end the batch and which are noted |
| HeaderSync.HeaderSyncManager.HandleHeaders | src/network/header_sync_manager.cpp:187-486 | the next stretch of a good chain takes the node exactly to its highest block that is not late, is ignored exactly if filtered, and changes nothing if handled before; more is asked for exactly after a full batch; no orphan becomes ready |
| HeaderSync.Round | src/network/header_sync_manager.cpp:157-486 | one exchange leads exactly to the next height, asks again exactly after a full batch, and changes nothing if it gained and handled nothing new |
| HeaderSync.Exchange | src/network/header_sync_manager.cpp:157-627 | after r rounds the requester has exactly the first Height(r) + 1 blocks and still asks exactly if all r batches were full |
| HeaderSync.Sync | src/network/header_sync_manager.cpp:157-627 | where the loop ends, it ends with equal chains exactly when the requester had the chain or the responder's tip is neither late nor filtered |

## Left out

- RandomX, SHA-256 and the mining of hashes: the block hash, both proof-of-work verdicts and the message checksum are parameters.
- JSON syntax, files and locks: Save and Load work on a list of records whose fields are present.
- Sockets, timers, the version handshake, bans and misbehaviour scores: plumbing around the modelled handlers.
- Threads: each public method is one atomic step, as under the recursive mutex.
- The clock is read once per public call; nTimeReceived is kept for orphans only.
- HeaderSync.Exchange: all rounds see one clock value, and so does HeaderSync.Sync; a header of the chain that is too new in one round is too new in all of them.
- Floating-point reporting (getdouble, GetDifficulty), logging and RPC.
- ActivateBestChain with an explicit candidate: the node only passes none.
- Step 6 of AcceptBlockHeader (src/chain/chainstate_manager.cpp:107-121): by Runs.RunInv every indexed block has the TREE level, so a parent that is not failed is valid and the step is never entered.
- Sync of forks: only requesters on a prefix of the responder's chain are covered. One whose fork the first batch outweighs is on a prefix after it; a full first batch that does not outweigh the fork leaves the tip, and with it the next request, as they were.
- Stream.Peer.ProcessReceivedData: the count of unknown commands that ends a connection after twenty in a minute, and the rule that version comes first, are not modelled.
- Bitwise operators of base_uint other than those used by the shifts.
- Asert.CalculateAsert: requires the shift count to fit the 32-bit operand of the shift operators; Validation.DifficultyIsTotal shows that it does on accepted chains.
- Blocks.BlockManager.AddToBlockIndex: requires that a header does not hash to its own parent hash, since the entry is created before its parent is looked up.
- Chainman.ChainstateManager.ProcessOrphanHeaders: the contract does not fix the order in which the orphans of one parent are accepted; the body goes by hash, as the source does.
- Blocks.BlockManager.Initialize: the same requirement on the genesis header.
- Selector.ChainSelector.TryAddBlockIndexCandidate: the assertion that the work is positive is not part of the contract; Submission.PositiveWork shows when it holds.
