# Aegis consensus core in Dafny

A model of the merge-mined consensus core of the Aegis sidechain, with proofs of what it keeps over
whole runs. `dafny verify dfyconfig.toml` checks the project. It covers:

- **Fork choice** (`BlockTree`, `ForkState`, `ForkSteps`, `ForkRuns`, `ForkCalls`, `ForkChoice`, `ForkLaws`,
  `ForkFates`, `ForkLimits`, `ForkTies`): the class `MmForkChoice` takes shares, bodies and anchors in any order, activates
  blocks by worklist, kills dead branches, picks a tip by the tie-broken work order and moves one linear chain onto
  it. Its state is proved equal to a reference that is defined from the *set* of things seen, which gives
  convergence; `ForkFates` says from the log of calls alone where every id is and which chain is materialized;
  finality is proved over arbitrary later runs. `ForkLimits` and `ForkTies` drive the object to where
  the documented claims stop holding and give the exact conditions.
- **Linear chain and versioned state** (`Blocks`, `ShieldedState`, `StateLaws`, `Chain`, `ChainLaws`, `ChainRules`):
  block validation as a function of (blocks so far, block, clock), the methods that compute it by mutating and
  rolling back, the bounded undo ring, and the laws of every accepted chain. `StateLaws` and `ChainRules` say what
  each answer and each new state mean in terms of headers, transfers, proofs and numbers alone.
- **Ergo follower and peg policy** (`Follower`, `PegPolicy`): heaviest tip with first-seen ties, reorg
  depth, settled view, and the time-invariance of a peg-in verdict over the follower's own history of calls.
- **Retargeting** (`Daa`, with `Arithmetic`), **Poseidon** (`Poseidon`, `Circuit`), **the block log**
  (`Store`, `StoreLaws`) and **the wire codec** (`Wire`, `Codec`, `CodecLaws`).

## How the system is represented

- Objects whose methods update fields are classes with those fields. The loops and worklists of the
  program are loops here. `BTreeMap` scans whose order the program fixes but whose result must not
  depend on it pick elements in an arbitrary order.
- Hashes, merkle and tree roots, proof verification, point decoding, compact difficulty bits and the
  peg verifier's checks are function-valued fields of `Primitives`, `Rules` and `PegConfig`. Every
  theorem holds for all values of these fields, also for a header hash with collisions.
- Fixed-size byte strings are the numbers they spell in big-endian, so the order on ids is `<`. The codec
  writes and reads them at their fixed widths.
- Fork choice needs only two facts about block validation: an accepted block links to the tip, and the
  clock matters through the drift bound alone. The model therefore speaks of a `Law` whose `judge` is a
  function value; `BlockTree.IsChainJudge` says that it is the chain's verdict, and the constructor of
  `MmForkChoice` picks exactly that.
- `MmForkChoice` carries two ghost fields: the log of all calls and the snapshot before each. `Valid`
  says that they form a run, so lemmas about runs apply to every reachable object. `Follower` likewise carries
  its history of calls, each with the tree before, the answer and the tree after.
- Every node has its own clock, and each call its own reading of it. Where a result needs a body not to
  be ahead of the drift bound, it says so (`ForkState.OnTime`).
- Amounts, clocks and heights are 64- or 32-bit in the program. Saturation is written out. The clock
  precondition `now <= MAX_CLOCK` is the absence of overflow in `now + 60000`, also for the later replay of
  the block at its own timestamp. The follower's heights
  wrap around: after a header of height 0 on top of one of height 2^32 - 1 (`Followers.Wraps`), which the program
  accepts where overflow is not checked, nothing is promised of the follower any more.
- A function that specifies a method is itself tied down by laws that do not mention it: what each of its results
  says about the fields, bytes, numbers and verdicts of the primitives it was computed from, and that no other result
  fits. Numbers that are part of the protocol are written out in these laws.
- `hide` statements only remove definitions from a proof; they are there to keep the proofs fast.

## Where the code and its documentation differ

- `aegis-node/src/mm_forkchoice.rs:29-30` says that ties of equal work never finalize. A canonical block with an equally
  heavy rival outside its subtree is final exactly with margin zero, no pending weight, and a settled anchor above it
  that is as heavy as the tip (`ForkTies.TieIsFinalIff`); zero is the default of `l_final`
  (`aegis-node/src/main.rs:67-70`). A share for the block where the rival's path parts from the canonical one, without
  any new weight, then takes the tip out of the block's subtree exactly when it makes that block's key the earlier one
  (`ForkTies.TieBreakDecides`, for any reachable object `ForkTies.BreakTheTie`, from a fresh one
  `ForkTies.ZeroMarginLosesTheTip`). With a positive margin the claim holds (`ForkRuns.FinalBlockLeads`), and finality
  is safe below it (`ForkRuns.FinalityIsSafe`) but not at it (`ForkTies.ExactMarginLosesTheTip`).
- `aegis-node/src/mm_forkchoice.rs:42-46` says that a failure not committed by the block id never poisons the id.
  `tx_root` does not cover the peg envelopes. Of two bodies of one header, with collision-free commitments and one
  of them acceptable, the other is permanently refused exactly when it carries envelopes, is not ahead of the clock
  and its coinbase proof, if any, verifies (`ForkLimits.RefusalIsCommittedIff`). Such a body, delivered first, kills
  the id for good (`ForkLimits.BadThenGood`).
- `aegis-node/src/mm_forkchoice.rs:21-24` promises order independence for the same share and body set. It needs
  one body per id: of two bodies of one id, offered before the share, the first is kept and judged. The order makes no
  difference to whether the id is validated exactly when the other body carries no peg envelopes and its coinbase
  proof verifies (`ForkLimits.BodyOrderMatters`).
- `aegis-node/src/store.rs:144-146` says that saving every accepted block keeps the log replayable by construction.
  Acceptance checks no wire cap. The log of an accepted chain loads again exactly when all its blocks are within the
  caps and their clocks fit (`Store.WholeLogReloadsIff`, and after a crash at any byte `Store.CrashedNodeReloads`).
  64 transfers (`aegis-node/src/mempool.rs:31-32`) with the longest proofs are over the record cap, and a block with
  them makes the whole log unreadable (`Store.FullBlockLosesTheLog`). The claim holds for blocks that were decoded from
  wire bytes (`Store.DecodedChainReloads`); the node's own share verification decodes a block before it is saved
  (`aegis-node/src/auxpow.rs:375-380`).
- `aegis-node/src/ergo_follow.rs:320-322` says that a reorg's depth counts the blocks above the common ancestor. That
  holds exactly when no followed header with the id of the root's parent shares more of the old branch than the new tip
  does (`Followers.RootParentHarmless`); for hashes such a header would be a cycle. For other ids three headers
  suffice to hide a reorg (`Followers.RootParentHidesAReorg`).
- `dev-docs/sidechain/consensus.md:72` clamps solve times to [-6T, 6T]; the code and this model clamp
  to [1 ms, 6T].
- `dev-docs/sidechain/consensus.md:85` breaks exact work ties by first-seen; fork choice in the code and
  here breaks them by Ergo height and then id.

## Model
| member | source | states |
|---|---|---|
| BlockTree.BeatsIsStrictTotalOrder | aegis-node/src/mm_forkchoice.rs:563-592 | the fork-choice order on validated blocks is irreflexive, total and transitive |
| BlockTree.BestIsUnique | aegis-node/src/mm_forkchoice.rs:544-560 | at most one block beats all others, so the scan order cannot matter |
| BlockTree.PathIsChain | aegis-node/src/mm_forkchoice.rs:7-11 | the path to every validated block is a chain each of whose blocks was accepted on its predecessors |
| BlockTree.ChainJudgeIsLawful | aegis-node/src/chain.rs:367-398 | the chain's verdict has the properties fork choice relies on: linkage, and the clock only through the drift bound, so that two clocks that are not too early for a block give one verdict |
| BlockTree.WorkIsTotalDifficulty | aegis-node/src/mm_forkchoice.rs:491-494 | a validated block weighs the sum of the difficulties that the bits of the blocks above genesis on its path decode to |
| ForkState.NoDeadAncestor | aegis-node/src/mm_forkchoice.rs:38-42 | between calls no validated block has a dead, pending or stashed ancestor |
| ForkState.SetsMatchReference | aegis-node/src/mm_forkchoice.rs:450-542 | validated ids are exactly those with an accepted, fully shared and delivered path; dead ids exactly the doomed ones; pending ids the remaining shares |
| ForkRuns.RunGrows | aegis-node/src/mm_forkchoice.rs:12-16 | over any run validated blocks keep block, linkage and work, the validated and dead sets only grow, and the dead keep their reasons |
| ForkRuns.DeadIsPermanent | aegis-node/src/mm_forkchoice.rs:38-42 | a dead id is never validated, pending or stashed again, and its reason stays |
| ForkRuns.EvidenceIsOrderFree | aegis-node/src/mm_forkchoice.rs:216-220 | what a log of calls presents is a function of the set of events, whatever order and repetition |
| ForkRuns.Convergence | aegis-node/src/mm_forkchoice.rs:221-299 | two runs that saw the same shares, bodies and anchors, each at its own clocks, with one body per id and no body too early for its node, end with equal tree, pending set, stash, dead set, anchors and tip |
| ForkRuns.FinalityIsSafe | aegis-node/src/mm_forkchoice.rs:47-53 | a final block stays on the canonical branch in every later run whose new shares total less than the margin, including reveals of all pending bodies |
| ForkRuns.FinalBlockLeads | aegis-node/src/mm_forkchoice.rs:355-371 | every block outside a final block's subtree, with all pending weight added, stays the whole margin below the tip |
| ForkRuns.OutsideStaysLighter | aegis-node/src/mm_forkchoice.rs:359-371 | after such a run every block outside the final block's subtree is lighter than the settled anchor was |
| ForkRuns.HiddenWorkBound | aegis-node/src/mm_forkchoice.rs:360-370 | a later block outweighs its last old ancestor by at most the hidden weight that was charged |
| ForkLaws.MaterializationIsTheCanonicalFold | aegis-node/src/mm_forkchoice.rs:31-37 | between calls the embedded chain is the path to the canonical block and its state is the fold over that path |
| ForkLaws.NodesConverge | aegis-node/src/mm_forkchoice.rs:17-25 | two nodes fed the same inputs in any order, each by its own clocks, hold the same tree, tip, chain and chain state, when no body came too early |
| ForkLaws.FinalBlockStaysInChain | aegis-node/src/mm_forkchoice.rs:316-327 | a block that was final is still in the materialized chain at its height |
| ForkLaws.FinalityComparesDifficulty | aegis-node/src/mm_forkchoice.rs:337-372 | a block is final exactly when some settled block of the canonical path at or above it, with none settled after it, has a total decoded difficulty that exceeds the pending weight, and that of every path off the block's branch with it, by the margin |
| ForkLaws.HiddenIsPending | aegis-node/src/mm_forkchoice.rs:416-422 | the hidden weight is the pending work of all ids added up in any order |
| ForkLaws.NewWorksMean | aegis-node/src/mm_forkchoice.rs:47-53 | the new weight of later calls is that of exactly the ids they share that were in no pool and no branch before, at the work a share says |
| ForkFates.WhereEveryIdIs | aegis-node/src/mm_forkchoice.rs:7-25 | from the calls alone, when bodies came on time and one per id: an id is validated exactly when shared and delivered blocks that fit on each other lead from genesis to it, dead exactly when a line of delivered blocks leads to it from one refused for good on top of such blocks, else pending exactly when it was shared; Ergo heights and anchors are the lowest seen |
| ForkFates.HeaviestIsMaterialized | aegis-node/src/mm_forkchoice.rs:544-592 | of all chains that can be built from what was seen the materialized one has the greatest total difficulty, and where an equally heavy one parts from it, it goes on with the earlier share or the smaller id |
| ForkFates.JudgeReadyBody | aegis-node/src/mm_forkchoice.rs:470-521 | the first body of a pending id under a validated parent is validated, dead for the reason of its refusal, or dropped, exactly by what its header, proofs and content explain |
| ForkFates.FailingProofKills | aegis-node/src/mm_forkchoice.rs:670-688 | such a body that gets as far as its transfer proofs and has one that fails against the leaves before it leaves its id dead |
| ForkLimits.RefusalIsCommittedIff | aegis-node/src/mm_forkchoice.rs:670-688 | without a peg context, of two bodies of one header, one of them acceptable, the other is permanently refused exactly when it carries peg envelopes and passes the clock and the coinbase proof, and accepted exactly when it carries none and passes them |
| ForkLimits.BadThenGood | aegis-node/src/mm_forkchoice.rs:252-299 | through the object: after the share, the other body and then the acceptable one, the id is dead exactly under that condition and validated otherwise |
| ForkLimits.BodyOrderMatters | aegis-node/src/mm_forkchoice.rs:285-287 | of two bodies of one id, the acceptable one first always validates it; the other one first validates it exactly when it carries no envelopes and its coinbase proof verifies, kills it when it carries some and the proof verifies, and else leaves it pending |
| ForkTies.TieIsFinalIff | aegis-node/src/mm_forkchoice.rs:25-30 | on any settled tree a canonical block with an equally heavy rival is final exactly with margin zero, no pending weight and an anchor as heavy as the tip |
| ForkTies.TieBreakDecides | aegis-node/src/mm_forkchoice.rs:19-30 | on any settled tie a share for the rival's first own block is a step without new weight, and takes the tip out of the block's subtree exactly when it gives that block the earlier key; otherwise the tip stays |
| ForkTies.BreakTheTie | aegis-node/src/mm_forkchoice.rs:216-250 | the same for one call on any reachable object |
| ForkTies.ZeroMarginLosesTheTip | aegis-node/src/mm_forkchoice.rs:337-372 | six calls on a fresh object after which a block found final with margin zero is off the canonical branch |
| ForkTies.ExactMarginLosesTheTip | aegis-node/src/mm_forkchoice.rs:47-53 | five calls on a fresh object: a block is final with its own work as margin, honest later shares bring exactly that much, and the tip leaves it |
| ForkChoice.MmForkChoice.constructor | aegis-node/src/mm_forkchoice.rs:181-214 | a fresh object holds only genesis and satisfies every invariant |
| ForkChoice.MmForkChoice.IngestShare | aegis-node/src/mm_forkchoice.rs:216-250 | keeps every invariant; the answer says where the id now is, how many blocks joined, and how the verdict decided it, a dead id with the refusal as its reason |
| ForkChoice.MmForkChoice.IngestBody | aegis-node/src/mm_forkchoice.rs:252-299 | keeps every invariant; the answer names the exact reason a body joined, waits, died or was dropped |
| ForkChoice.MmForkChoice.RecordAnchor | aegis-node/src/mm_forkchoice.rs:301-314 | the lowest inclusion height per id is kept and nothing else changes |
| ForkChoice.MmForkChoice.IsFinalBlock | aegis-node/src/mm_forkchoice.rs:337-372 | the answer is exactly the finality predicate the safety theorem is about, which FinalityComparesDifficulty spells out on decoded difficulties |
| ForkChoice.MmForkChoice.HeaviestOutside | aegis-node/src/mm_forkchoice.rs:360-368 | the maximal work over validated blocks that do not descend through the target |
| ForkChoice.MmForkChoice.SettledAnchor | aegis-node/src/mm_forkchoice.rs:344-353 | the highest canonical block with an anchor at or below the settled height, if any |
| ForkChoice.MmForkChoice.PendingHostileWork | aegis-node/src/mm_forkchoice.rs:416-422 | the total weight of all pending shares |
| ForkChoice.MmForkChoice.TipDaaView | aegis-node/src/mm_forkchoice.rs:394-414 | the retarget view of the path to a validated tip; for the canonical tip the embedded chain's own view |
| ForkChoice.MmForkChoice.ActivateReadyFrom | aegis-node/src/mm_forkchoice.rs:446-468 | afterwards nothing ready is left, the tree grew by exactly the count, and pools only shrank |
| ForkChoice.MmForkChoice.TryActivate | aegis-node/src/mm_forkchoice.rs:470-521 | a ready block joins with its own decoded difficulty added, dies for the reason of its refusal, or loses its body, exactly by the chain's verdict on its parent's path |
| ForkChoice.MmForkChoice.MarkDead | aegis-node/src/mm_forkchoice.rs:523-542 | afterwards no stashed block has a dead parent; the id has the given reason, and whatever died with it the death of its own parent |
| ForkChoice.MmForkChoice.RefreshCanonical | aegis-node/src/mm_forkchoice.rs:544-560 | the tip beats every other validated block and the cursor stands on it |
| ForkChoice.MmForkChoice.Preferred | aegis-node/src/mm_forkchoice.rs:562-592 | the answer is the fork-choice order, which is defined by walking both paths from genesis |
| ForkChoice.MmForkChoice.PathIdsOf | aegis-node/src/mm_forkchoice.rs:594-607 | the ids from genesis to the block, root first |
| ForkChoice.MmForkChoice.IsAncestor | aegis-node/src/mm_forkchoice.rs:609-623 | the answer is membership in the path of the descendant |
| ForkChoice.MmForkChoice.SwitchTo | aegis-node/src/mm_forkchoice.rs:625-667 | the chain becomes exactly the path to the target, through the undo ring or by replay |
| ForkChoice.MmForkChoice.Reextend | aegis-node/src/mm_forkchoice.rs:659-665 | re-extension along a validated path never fails |
| ForkChoice.MmForkChoice.RollbackTo | aegis-node/src/mm_forkchoice.rs:645-651 | rolling back to the fork succeeds exactly when the ring is long enough |
| Chains.AcceptedIffPinnedAndNotAhead | aegis-node/src/chain.rs:393-398 | acceptance at a clock is acceptance at the block's own timestamp plus the drift bound |
| Chains.AcceptedCommits | aegis-node/src/chain.rs:468-482 | the content of an accepted block is admissible and its state is the commit of its effect |
| Chains.ChainHeights | aegis-node/src/chain.rs:372-385 | on an accepted chain block i has height i and points to block i-1 |
| Chains.HistoryIsFold | aegis-node/src/chain.rs:468-516 | the recorded states are the fold of block application from genesis |
| Chains.RingPush | aegis-node/src/chain.rs:510-514 | pushing an inverse keeps the ring made of inverses of the newest blocks, at most 240 |
| Chains.RingPop | aegis-node/src/chain.rs:518-530 | the newest undo record leads back to the state before the newest block |
| Chains.Chain.TryExtend | aegis-node/src/chain.rs:364-516 | the answer is the verdict; a refusal changes neither blocks nor ring nor state, acceptance appends the block and keeps the newest 240 undo records at most |
| Chains.Chain.ApplyOrRollBack | aegis-node/src/chain.rs:468-509 | a header that does not match the post-state leaves the state unchanged, and success returns an exact inverse |
| Chains.Chain.RollbackTip | aegis-node/src/chain.rs:518-530 | one block back exactly when the ring has a record, with the state of the shorter chain |
| Chains.Chain.ProduceInner | aegis-node/src/chain.rs:318-362 | the produced block or refusal is a function of the chain, the order and the clock |
| Chains.Chain.ValidIsFold | aegis-node/src/chain.rs:468-516 | in memory the blocks are an accepted chain and the state is the fold over them |
| ChainLaws.MedianStep | aegis-node/src/chain.rs:229-238 | a timestamp above the median cannot lower the median, also while the window grows |
| ChainLaws.MedianTimePastIsMonotone | aegis-node/src/chain.rs:386-392 | median-time-past never decreases along an accepted chain |
| ChainLaws.NoDoubleSpendOnChain | aegis-node/src/state.rs:237-350 | all nullifiers and all minted receipts of a chain are distinct and are exactly the state's sets; leaves are 2 per transfer, 1 per peg-mint and 1 per coinbase |
| ChainLaws.PotConservation | aegis-node/src/state.rs:324-349 | pot plus all draws is at most all fees plus all peg credits, with equality exactly when no 64-bit update was clipped |
| ChainLaws.CoinbaseProvesTheDraw | aegis-node/src/chain.rs:430-459 | the coinbase note of an accepted block is proven for exactly what the pot loses |
| ChainLaws.HeaderCommitsToState | aegis-node/src/chain.rs:483-509 | every accepted header carries the digest, pot and root of the fold |
| ChainLaws.ProducedBlockIsAccepted | aegis-node/src/chain.rs:318-362 | with stub proofs a produced block is accepted from 60 s before its timestamp on, exactly unless its coinbase note is the identity |
| ChainRules.AboveMedianIff | aegis-node/src/chain.rs:230-238 | a timestamp is above the median exactly when more than half of the last eleven blocks, or of all while there are fewer, are older |
| ChainRules.VerdictIsExplained | aegis-node/src/chain.rs:367-516 | the verdict on a block is the answer of its first failing check, each of which is stated on header fields, proofs, envelopes and sums, and else that of its content and the roots its header names |
| ChainRules.ExplanationIsUnique | aegis-node/src/chain.rs:367-516 | no block has two answers that fit |
| ChainRules.AnswerIff | aegis-node/src/chain.rs:367-516 | a chain in memory gives an answer to a block exactly when the block explains it against the chain's own state |
| ChainRules.ProofAnswerIff | aegis-node/src/chain.rs:411-421 | the answer is a failing proof i exactly when header and transaction root are in order, there are leaves, transfer i fails against them and all before it verify |
| ChainRules.ChainStates | aegis-node/src/chain.rs:476-516 | every block of an accepted chain passes every check against the state before it and takes it to the state its header names |
| ChainRules.AcceptedTransfersAreProved | aegis-node/src/chain.rs:411-421 | with real proofs every transfer of an accepted chain verifies against exactly the leaves before its block, of which there are some, for the configured fee |
| ChainRules.ProductionMeans | aegis-node/src/chain.rs:318-362 | production answers with the first proof without an envelope, the refusal of the content, or the block that names the state its content leads to, at the earliest timestamp from the clock on above the median |
| ShieldedStates.NoDoubleSpendIffFresh | aegis-node/src/state.rs:255-265 | no double spend is reported exactly when all nullifiers are new and distinct |
| ShieldedStates.AcceptedEffect | aegis-node/src/state.rs:245-291 | an admissible block adds fresh nullifiers and receipts and a leaf per output, mint and coinbase |
| ShieldedStates.RewindInvertsCommit | aegis-node/src/state.rs:352-367 | rolling back is the exact inverse of applying |
| ShieldedStates.ExpectedCoinbaseValue | aegis-node/src/state.rs:43-51 | where no sum is clipped at 64 bits, the draw is one target for the block and one for each transfer, or all of the fee-credited pot when that is less |
| ShieldedStates.ShieldedState.ApplyBlock | aegis-node/src/state.rs:237-350 | commits the planned effect and returns its undo record, or refuses and changes nothing; without peg-mints and clipping the pot is the fee-credited one less one target for the block and one for each transfer, as far as it reaches |
| ShieldedStates.ShieldedState.Rollback | aegis-node/src/state.rs:352-367 | the state becomes the rewind of the undo record, tree and leaves in step |
| StateLaws.RefusedContent | aegis-node/src/state.rs:245-291 | content is refused for the first transfer with an output that is no point, else for the first nullifier that is used or repeated, else for the first peg-mint that fails; else it is admitted |
| StateLaws.RefusalIsUnique | aegis-node/src/state.rs:245-291 | admitted content has no refusal, and refused content only one |
| StateLaws.AdmittedContent | aegis-node/src/state.rs:293-349 | admitted content adds exactly its nullifiers and receipts, folds them into the digest in order, appends its leaves in order, and moves the pot by fees, draw and credits |
| StateLaws.BecomesIsUnique | aegis-node/src/state.rs:293-349 | that determines the new state |
| StateLaws.OneMoreTransfer | aegis-spec/src/lib.rs:101-107 | a coinbase of a block without transfers draws one target; a further transfer raises the draw by exactly one target while the fee-credited pot covers it, and otherwise the draw empties that pot |
| Followers.HeaviestFirstSeenIsUnique | aegis-node/src/ergo_follow.rs:295-318 | the best tip is determined by the headers and their order of acceptance |
| Followers.CumulativeIsTotal | aegis-node/src/ergo_follow.rs:265-285 | a followed header's cumulative work is the work of all headers from the root up to it, added up |
| Followers.CommonIsHighestShared | aegis-node/src/ergo_follow.rs:320-322 | the common height of two headers is that of the highest header on both their branches |
| Followers.SharedIsPrefix | aegis-node/src/ergo_follow.rs:320-322 | two branches share exactly the headers up to their last common ancestor |
| Followers.SettledQueries | aegis-node/src/ergo_follow.rs:101-127 | membership gives heights of tip ancestors and nothing else, and the levels above a member are the rest of the chain in order |
| Followers.Follower.ApplyHeader | aegis-node/src/ergo_follow.rs:227-242 | refused exactly for failed work or serialization, which changes nothing, else folded; unless its height wraps around, the call joins the history as a step between trees |
| Followers.Follower.ApplyVerifiedHeader | aegis-node/src/ergo_follow.rs:251-318 | for every header the exact condition of each error, or its place below its parent and the heaviest, first-seen tip; unless the height wraps around, old and new trees are a growing step, and the answer is right about how much of the old best chain is gone exactly unless it is a reorg and the root's parent is harmful |
| Followers.RootParentHidesAReorg | aegis-node/src/ergo_follow.rs:320-347 | three headers with ids that are no hashes after which the reported depth of a reorg is wrong |
| Followers.Follower.AncestorsOf | aegis-node/src/ergo_follow.rs:323-335 | on the links of any well-formed tree the walk collects the tip's path, and the path of the root's parent when some followed header has that id |
| Followers.Follower.ReorgDepth | aegis-node/src/ergo_follow.rs:320-347 | old tip height minus the common ancestor's, or minus a higher header shared with the root's parent when that is followed |
| Followers.Follower.SettledReference | aegis-node/src/ergo_follow.rs:364-387 | present exactly when the tree is deep enough, and then the best-chain header of that height |
| Followers.Follower.SettledViewAt | aegis-node/src/ergo_follow.rs:389-438 | present exactly between root and tip height, holding exactly the tip's ancestors up to that height in order |
| PegPolicy.CheckAnchoredDepth | aegis-node/src/pegmint.rs:195-214 | passes exactly for the pinned origin and enough depth |
| PegPolicy.ObjectivityIsMembership | aegis-node/src/pegmint.rs:258-282 | accepted exactly when every checkable header is a member at its height and one is; else the first offender is named |
| PegPolicy.CheckComparativeObjectivity | aegis-node/src/pegmint.rs:287-318 | the loop gives that verdict |
| PegPolicy.AcceptedProofIsOnBestChain | aegis-node/src/pegmint.rs:258-277 | a proof is accepted exactly when its headers nMint or more below its last one and at or above the root are the best-chain headers of their heights, and one exists |
| PegPolicy.VerdictIsJudged | aegis-node/src/pegmint.rs:360-388 | what each answer says of the proof's headers and the followed ones: the settled height is nMint below the proof's last header, an error names the first header that ought to match the best chain and does not, and an accepted view exposes exactly the best chain up to the settled height |
| PegPolicy.JudgementIsUnique | aegis-node/src/pegmint.rs:360-388 | no proof has two answers that fit |
| PegPolicy.ComparativePolicy | aegis-node/src/pegmint.rs:360-388 | the answer that so fits; an accepted anchor and a deferral both lie exactly nMint below the proof's last header, and no exposed header is above the anchor |
| PegPolicy.VerifyErgoChainComparative | aegis-node/src/pegmint.rs:400-418 | each error exactly under its own condition in the order of the checks, and the comparative verdict for everything that passes them |
| PegPolicy.SettledViewStep | aegis-node/src/pegmint.rs:341-355 | a settled view survives a header exactly when the best chains before and after share everything up to its height |
| PegPolicy.SettledVerdictIsStable | aegis-node/src/pegmint.rs:347-355 | over any history of follower calls, from the empty follower on, a verdict other than the deferral stays the same, with the same view, while every reorg the calls report stays at or above the settled height |
| PegPolicy.VerdictHoldsSince | aegis-node/src/pegmint.rs:347-355 | for every reachable follower that does not follow its root's parent: its answers since a verdict tell whether the verdict still holds |
| PegPolicy.DeepReorgFlipsAVerdict | aegis-node/src/pegmint.rs:273-277 | a reorg below a settled height turns an accepted proof of that height into a refused or deferred one |
| Daa.NextNbits | aegis-node/src/daa.rs:62-103 | the loop computes the retarget function that RetargetFormula spells out |
| Daa.RetargetIsBounded | aegis-node/src/daa.rs:93-102 | every retarget lies between a quarter and four times the previous difficulty and is never zero |
| Daa.SteadyStateIsFixed | aegis-node/src/daa.rs:85-91 | when each timestamp is the previous one plus the target and all bits decode to D, D is kept exactly when 2^256 mod D is below 2^256 div D, in particular for D up to 2^128 |
| Daa.StepsAreClamped | aegis-node/src/daa.rs:77-83 | a step of the timestamps of zero or backwards counts like one of 1 ms and one above six targets like six targets |
| Daa.RetargetFormula | aegis-node/src/daa.rs:62-103 | the next bits encode the window's average target scaled by its ramped solve times, turned back into a difficulty, within a factor of four of the last one and at least one |
| Daa.SlowerNeverHarder | aegis-node/src/daa.rs:71-91 | when no signed step of the timestamps falls, below 1 ms and above six targets aside, the next difficulty does not rise |
| Daa.AcceptedDifficultyIsBounded | aegis-node/src/chain.rs:240-248 | on a chain with this retarget every accepted block carries the bits of a difficulty that, before compact encoding, is a bounded step of its parent's |
| Daa.DecodedDifficultyIsBounded | aegis-node/src/daa.rs:93-102 | when compact bits round down by at most one part in some number, the decoded difficulty is at most four times the parent's and below a quarter of it by at most that part |
| Poseidon.Permute | aegis-crypto/src/poseidon.rs:75-97 | the in-place rounds give the round function iterated 64 times |
| Poseidon.Hash | aegis-crypto/src/poseidon.rs:99-104 | the hash is the first lane of the permuted state |
| Poseidon.HashIsTraced | aegis-crypto/src/poseidon.rs:65-104 | the hash of x is h exactly when 64 rounds of plain integer sums and fifth powers, each reduced once, lead from x, the domain tag and zero to h in the first lane |
| Poseidon.PlainHash | aegis-crypto/src/poseidon.rs:65-104 | with zero constants and an identity matrix the hash is the input raised to the fifth power 64 times |
| Circuit.SolveSatisfies | aegis-crypto/src/poseidon.rs:108-151 | an honest assignment satisfying all gates always exists |
| Circuit.SatisfyingIsSolved | aegis-crypto/src/poseidon.rs:6-11 | the inputs determine every wire: there is no free component |
| Circuit.SboxGadget | aegis-crypto/src/poseidon.rs:108-116 | three gates that make the output the fifth power on every satisfying assignment |
| Circuit.RoundGadget | aegis-crypto/src/poseidon.rs:123-149 | 12 or 6 gates that make the next state the native round |
| Circuit.PermuteGadget | aegis-crypto/src/poseidon.rs:118-151 | exactly 432 gates, and the native permutation on every satisfying assignment |
| Circuit.Hash1Gadget | aegis-crypto/src/poseidon.rs:153-163 | exactly 432 gates, and the native hash on every satisfying assignment |
| Circuit.NullifierIsBound | aegis-crypto/src/poseidon.rs:208-212 | with given inputs exactly one output value can be proved, the native hash |
| Circuit.NullifierCircuit | aegis-crypto/src/poseidon.rs:153-163 | from an empty system, for any combination of committed inputs: 432 gates after which exactly the native hash of its value can be proved |
| Circuit.OneInput | aegis-crypto/src/poseidon.rs:208-212 | a single committed input is such a combination, with its own value |
| Store.LogFile.AppendRecord | aegis-node/src/store.rs:82-95 | the file grows by the length prefix and the payload |
| Store.LogFile.ReadRecords | aegis-node/src/store.rs:97-142 | the records found by scanning, the file cut behind the last complete one, or an error that leaves it alone |
| Store.CrashRecovery | aegis-node/src/store.rs:22-26 | after a cut at any byte exactly the records wholly before it are read and the file is exactly their bytes |
| Store.ReadingIsIdempotent | aegis-node/src/store.rs:96-142 | on any file, a second read gives the same records and truncates nothing |
| Store.AppendAfterRecovery | aegis-node/src/store.rs:22-26 | records appended after a recovery read back behind the recovered ones |
| Store.OversizedRecordIsRefused | aegis-node/src/store.rs:117-123 | a record whose declared length is over the cap is an error naming the first such record, never a crash tail |
| Store.SaveBlock | aegis-node/src/store.rs:144-149 | the block's wire bytes become the last record |
| Store.LoadChain | aegis-node/src/store.rs:191-211 | succeeds exactly when the log decodes to an accepted chain, and returns that chain; else the error is that of reading the log, or that of the first block that cannot be replayed; the torn tail of the log is cut away |
| Store.ReplayErrorIsUnique | aegis-node/src/store.rs:203-210 | blocks with a replay error do not load, and no other error fits them |
| Store.CrashedNodeReloads | aegis-node/src/store.rs:22-26 | the log of an accepted chain cut at any byte reloads as the blocks wholly before the cut exactly when those are within the wire caps, their clocks fit, and the torn record passes for a crash tail |
| Store.WholeLogReloadsIff | aegis-node/src/store.rs:144-146 | the uncut log of an accepted chain reloads exactly when all its blocks are within the wire caps and their clocks fit |
| Store.DecodedChainReloads | aegis-node/src/store.rs:22-26 | an accepted chain of blocks that were decoded from wire bytes reloads up to the last complete block after a cut at any byte |
| Store.FullBlockLosesTheLog | aegis-node/src/store.rs:144-149 | with stub proofs a produced block of 64 transfers with the longest proofs is accepted, and a log that holds it is an error at its record, whatever is saved before and after |
| StoreLaws.ReadLogMeans | aegis-node/src/store.rs:97-142 | what each result of reading the log says about its bytes: whole records behind little-endian lengths of at most 533504 that hold blocks, up to a tail that passes for a torn write; the first larger length; or, when all lengths are in order, the first record that holds no block |
| StoreLaws.RecoveryMeans | aegis-node/src/store.rs:125-142 | reading cuts the file behind its last whole record, or leaves it alone when an oversized length follows |
| StoreLaws.ReplayErrorMeans | aegis-node/src/store.rs:203-210 | a replay error names the height of the first block that does not load and what its header, proofs and content are refused for, or that its drift bound does not fit |
| Wire.FixedRoundTrip | aegis-types/src/header.rs:89-99 | fixed-width big-endian numbers read back |
| Wire.FixedDigit | aegis-types/src/header.rs:89-99 | fixed-width numbers are written most significant byte first |
| Wire.VlqDigit | aegis-types/src/header.rs:46-48 | variable-length numbers are written as few digits as they have to base 128, least significant first, all but the last marked |
| Wire.U64Means | aegis-types/src/header.rs:68-77 | reading one takes the bytes up to the first of at most ten without a mark and keeps the lowest 64 bits, and fails exactly when there is no such byte |
| Wire.VlqRoundTrip | aegis-types/src/header.rs:46-48 | 64-bit variable-length numbers read back from anywhere in a message |
| Wire.VlqIsShortest | aegis-types/src/header.rs:68-77 | whatever bytes a number was read from, it fits 64 bits and takes no more bytes to write again |
| Codec.HeaderRoundTrip | aegis-types/src/header.rs:40-86 | every header in range decodes from its bytes |
| Codec.DecodedHeaderFits | aegis-types/src/header.rs:62-86 | whatever the bytes, a decoded header is in range and decodes again from its own encoding |
| Codec.TransferRoundTrip | aegis-types/src/tx.rs:44-107 | every transfer within the caps decodes from its bytes |
| Codec.BodyRoundTrip | aegis-types/src/block.rs:80-131 | every body within the caps decodes from its bytes |
| Codec.BlockRoundTrip | aegis-types/src/block.rs:161-223 | every block within the caps decodes from its bytes, with or without coinbase |
| Codec.BlockBytesInjective | aegis-types/src/block.rs:161-187 | distinct blocks within the caps have distinct bytes |
| Codec.DecodedTransferFits | aegis-types/src/tx.rs:66-107 | whatever the bytes, a decoded transfer is within the caps, takes no more bytes to write, and decodes again from them |
| Codec.DecodedBodyFits | aegis-types/src/block.rs:97-131 | likewise for bodies, through every nested length and count |
| Codec.DecodedBlockFits | aegis-types/src/block.rs:192-223 | likewise for blocks, when the coinbase codec keeps the same promise for proofs |
| Codec.RoundTripIff | aegis-types/src/block.rs:189-223 | under that promise a block comes back from its own bytes exactly when it is within the caps |
| Codec.BlockLength | aegis-node/src/store.rs:48-52 | a block within the caps fits a log record |
| Codec.EncodeHeader | aegis-types/src/header.rs:42-55 | writes the header format |
| Codec.EncodeTransfer | aegis-types/src/tx.rs:45-63 | writes the transfer format |
| Codec.EncodeBody | aegis-types/src/block.rs:80-94 | writes the body format |
| Codec.EncodeBlock | aegis-types/src/block.rs:165-186 | writes the block format |
| Codec.DecodeHeader | aegis-types/src/header.rs:65-86 | the cursor reads exactly what the format's reading function says, error for error |
| Codec.DecodeTransfer | aegis-types/src/tx.rs:71-106 | likewise for transfers |
| Codec.DecodeBody | aegis-types/src/block.rs:97-131 | likewise for bodies, with every cap |
| Codec.DecodeBlock | aegis-types/src/block.rs:192-223 | likewise for blocks |
| CodecLaws.HeaderLayout | aegis-types/src/header.rs:42-55 | a header's bytes are its ten fields in order, hashes 32 and the claim 33 bytes wide |
| CodecLaws.TransferLayout | aegis-types/src/tx.rs:45-63 | a transfer's bytes are its nullifiers, its outputs field by field, and its proof behind the proof's length |
| CodecLaws.BodyLayout | aegis-types/src/block.rs:80-94 | a body's bytes are the counted transfers and the counted peg-mints, each behind its length |
| CodecLaws.BlockLayout | aegis-types/src/block.rs:165-186 | a block's bytes are header and body behind their lengths, then a zero, or a one and the coinbase proof behind its length |
| CodecLaws.HeaderMeans | aegis-types/src/header.rs:65-86 | what each result of reading a header says about the bytes: where the fields sit, too large bits, trailing bytes, or too few |
| CodecLaws.TransferMeans | aegis-types/src/tx.rs:71-106 | likewise for a transfer, with the proof's cap |
| CodecLaws.BodyMeans | aegis-types/src/block.rs:97-131 | likewise for a body, with the caps on its size, its counts and its peg-mints, and the first message that cannot be read |
| CodecLaws.CoinbaseMeans | aegis-types/src/block.rs:205-221 | likewise for the coinbase part of a block |
| CodecLaws.BlockMeans | aegis-types/src/block.rs:192-223 | likewise for a block: in which of its parts reading stops and why |

## Left out

- HTTP, sockets, threads, the CLI, the wallet, the mempool, the seed archive and the anchor watcher: input and
  output or plain bookkeeping around the modelled core.
- Curves, Bulletproofs, note encryption, Autolykos, NiPoPoW and batch-merkle verification: their
  results are values of uninterpreted functions. `ergo_primitives` (the VLQ reader and writer) and
  `ergo_ser` (compact bits) are not part of this model; VLQ is modelled as unsigned LEB128 of at most ten bytes,
  whose overlong forms read too, bits beyond 64 lost.
- The curve-tree append algorithm: the root is a function of the leaves, and only that tree and leaves stay in
  step is proved.
- A peg configuration that changes between blocks (`set_peg_config`): the configuration is fixed per chain.
  In fork choice there is none, as in the program.
- The texts of errors and dead reasons: a dead reason is the refusal, the dead parent below which the block was stashed,
  or that the block descends from a dead one.
- Rejoining finality: `is_final` may turn false after a reveal, because the settled anchor can leave the canonical path
  inside the block's own subtree. The block itself stays canonical, which is what is proved.
- The static work floor of the peg policy (`check_objectivity`), which its source calls non-canonical, and
  the witness log, whose framing is the block log's.
- Followers.Follower.ApplyVerifiedHeader: promises no valid follower after a height wrapped around. The proof-of-work
  check and the serialization before it are inputs of `ApplyHeader`.
- ForkRuns.Convergence: says nothing of a node that was handed a body ahead of its own drift bound, where the program
  drops the body until it is delivered again; and needs one authentic body per id, without which
  `ForkLimits.BodyOrderMatters` shows the failure.
- Poseidon.Permute: the round constants and the matrix are parameters; the generator that produces them is external.
- Store.LoadChain: a stored timestamp within 60 s of 2^64 overflows in the program (a panic, or a replay error without
  overflow checks) and is an error of its own here. File system errors are not modelled.
- Codec.BlockRoundTrip: the coinbase proof's own serialization is a parameter that must read back what it wrote.
- Codec.DecodedBlockFits: asks of that parameter that a proof it read takes no more bytes to write than it read; so do
  `Codec.RoundTripIff` and the laws of the log that say when it reloads.
- Daa.DecodedDifficultyIsBounded: the rounding of the external compact encoding is a hypothesis.
