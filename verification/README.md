# Verified model of a PBFT blockchain node

A Dafny model of the parts of the node that are hard to get right, with proofs for all inputs, all runs and
all reachable states.

**Consensus** (`Types`, `Quorum`, `Sorting`, `Sequences`, `ValidatorSet`, `RoundState`, `RoundChangeSet`,
`Replica`, `Core`, `ReplicaInvariants`, `ReplicaAnswers`, `ReplicaRuns`, `LedgerTimes`, `Ballots`, `SingleVote`,
`Network`, `Disagreements`, `Counterexamples`). An Istanbul-style replica (EIP-650): views, phases, a stored proposal, vote maps, a table of
round-change votes and a lock. `Core` is the replica as the program has it, an object whose handlers update fields in
place. `Replica` says the same as functions on values, and every handler of `Core` is proved to do exactly what its
function says: new state, messages sent, blocks committed, error or panic. Between events the object satisfies the
replica's invariant, every event handler promises outright when the core dies and what its lock and votes may do, and
`Core.Session` shows that any life of the object is a run in the sense of the theorems. `ReplicaAnswers` says of every
event, without naming a handler, what the next state is and which messages go out. The theorems are about the
functions: first what one step does and keeps, then whole runs of one replica, then a network of replicas with an arbitrary
message schedule and up to floor((n-1)/3) arbitrary senders.

**Ledger and block sync** (`ListIndex`, `Ledger`, `Sync`). The chain over four stores with two caches and a
last-block record; the batching loop that answers a sync request, and the replay on the other side.

**Node table** (`NodeId`, `NodeTable`). The Kademlia buckets, nearest-node search and clean-up.

**Stream codec** (`Codec`). Length-prefixed frames under any chunking.

The build is the one that `build.sh:8-11` makes and starts, in which arithmetic is checked: a 64-bit sum or
difference out of range panics, and so do 32-bit sums and debug assertions that fail.

The engine's verdict on a proposal is left open in the safety theorems, so that they hold for any engine; where the
engine dies is fixed by the block and the ledger. The failing runs below use the verdicts of the code's own engine.

The model follows the code, also where that breaks a promise. What turned out false, and when exactly it holds:

- One vote per height fails in two ways: a new header restarts a height the replica is locked at
  (`Counterexamples.TwoVotesAfterRestart`), or the replica is asked about another stored block of an older height
  (`Counterexamples.TwoVotesByOldReply`). Over all commits, a replica committed to a digest at a height votes for nothing
  else there if and only if the next event is neither: `SingleVote.SingleVoteIff`, for any number of validators and
  any such state. Both conditions are read off the state before the event; `ReplicaInvariants.OldReplyIff` says
  exactly which event brings out a commit for an older height, and which commit.
- Agreement needs three conditions, and without any one of them correct replicas disagree, for every larger set of
  validators: the committed digest has a quorum among the counted commits (`Disagreements.DisagreementWithoutSupport`,
  two or more validators), no locked replica restarts its height (`Disagreements.DisagreementAfterRestart`, two or more),
  and no replica is asked about an old block after it voted for another one of that height
  (`Disagreements.DisagreementByOldReplies`, four or more). `Network.Agreement` holds under them. Without the first one,
  disciplined correct replicas always agree if and only if there is one of them
  (`Disagreements.AgreementWithoutSupportIff`); a single replica agrees with itself even then
  (`Network.RunsKeepDecisions`).
- A replica can die on an event. `ReplicaInvariants.PanicsIff` gives the condition on the state and the event, exactly:
  it must propose in a new round, is not locked and was never asked for a block
  (`Counterexamples.PanicWithoutRequest`); the round that votes complete is too large to add to the seed
  (`Counterexamples.PanicByRoundOverflow`); a proposal of an older view is the genesis block, whose height has no
  predecessor, or has too large a round (`Counterexamples.PanicByOldGenesis`, `Counterexamples.PanicByOldRound`); there is
  no round after the last one (`Counterexamples.PanicInLastRound`); the engine fails on a proposal, because its stored
  parent's time and the period do not add up in 64 bits or because its transactions have no root
  (`Counterexamples.PanicByEngine`, `Counterexamples.PanicByNoRoot`); or a committed block's time cannot be printed
  (`Counterexamples.PanicByDate`). The assertions of the round functions never fire, and no other unwrap fails.
- The proposer's seed does not depend on the parent hash when the number of validators divides 2^64, as two and four do:
  the hash bytes fill the upper half of a 128-bit number, so the seed is always 0 (`ValidatorSet.SeedIsZero`).
- The vote of a timeout need not be for the best-voted later round. `ReplicaAnswers.NextRoundIsPicked` gives the rounds it
  can pick; it can pick a round without votes below one with some (`ReplicaAnswers.PickWithoutVotes`).
- Counted commits need not be sealed by their senders: a seal is only asked to have some signer, so a commit under a
  foreign seal is counted and decides (`Counterexamples.ForeignSealDecides`). `ReplicaInvariants.CountedIff` says which
  commits are counted, and counted commits keep to their senders' own seals if and only if no countable commit with
  another seal arrives (`ReplicaInvariants.OwnSealsStayIff`).
- A decision need not become the ledger's entry at its height, since the height of a proposal is not compared with the
  view's. It does if and only if the decided block is the next one and has the decision's height, or that entry was
  there already (`ReplicaInvariants.DecisionStoredIff`). Where it does, agreement carries over to the ledgers
  (`Network.LedgersAgree`).
- The stream codec loses messages whose length plus four does not fit 32 bits, and only those
  (`Codec.RoundTripExactlyWhenFits`).
- The node table's handler compares senders with the service's id, not the table's. It is safe from the table's panics
  if and only if the two are equal (`NodeTable.HandlerIsSafeIff`); a service made with a random id has two different ones.

Where code and text disagree the code is followed: `doc/rfc.md:124-132` asks for the waiting flag before a round is
entered, the code does not (`src/consensus/pbft/core/round_change.rs:85-88`); a comment at
`src/consensus/pbft/core/core.rs:496` says that the view is one above the ledger, but a ledger that has reached the
view's height passes as well. `last_height > height` is the only case that stops there.

## Model

| member | source | states |
|---|---|---|
| `Quorum.ThresholdIsExact` | src/consensus/validator.rs:149-158 | For n > 0, floor(2n/3)+1 = n - floor((n-1)/3): the correct validators can form a quorum alone, two quorums overlap beyond the faults, and for n = 3f+1 one vote less would not do |
| `Quorum.QuorumsIntersect` | src/consensus/validator.rs:149-158 | Any two vote sets that pass the threshold share at least floor((n-1)/3)+1 validators |
| `Quorum.CorrectWitness` | src/consensus/validator.rs:149-158 | Any two quorums share a validator that is not faulty |
| `ValidatorSet.ProposerIgnoresListOrder` | src/consensus/validator.rs:58-70 | Permutations of one address list give the same sorted set and the same proposer for every parent hash and round |
| `ValidatorSet.FirstProposer` | src/consensus/validator.rs:33-37 | Round 0 always has a proposer, and it is a validator |
| `ValidatorSet.EveryValidatorProposesOnce` | src/consensus/validator.rs:33-37 | Over n consecutive rounds whose sums with the seed fit 64 bits each validator of a duplicate-free set proposes in exactly one round |
| `ValidatorSet.SeedIsRemainder` | src/consensus/validator.rs:39-48 | The seed is the remainder by n of the sum over the first eight hash bytes, byte i times 256 to the power 15 - i |
| `ValidatorSet.SeedIsZero` | src/consensus/validator.rs:39-48 | For every n that divides 2^64 the seed is 0 whatever the hash |
| `ValidatorSet.ProposerCycles` | src/consensus/validator.rs:33-37 | Round 0 falls to the validator at the seed's index and each further round to the next one, cyclically |
| `ValidatorSet.ComputeRandomSeed` | src/consensus/validator.rs:39-48 | The buffer loop yields a number below n that differs by a multiple of n from the sum of byte i times 256 to the power 15 - i over the first eight hash bytes |
| `ValidatorSet.ImplValidatorSet.constructor` | src/consensus/validator.rs:58-70 | The set is the sorted permutation of the given addresses and has no proposer yet |
| `ValidatorSet.ImplValidatorSet.CalcProposer` | src/consensus/validator.rs:33-77 | The proposer field becomes the selected validator; an empty set and a sum beyond 64 bits are the panics, and leave it |
| `ValidatorSet.ImplValidatorSet.GetByAddress` | src/consensus/validator.rs:92-105 | The search finds an address if and only if it is in the set |
| `ValidatorSet.ImplValidatorSet.AddValidator` | src/consensus/validator.rs:121-133 | A known address is refused; a new one is added and the list stays sorted and duplicate-free |
| `ValidatorSet.ImplValidatorSet.RemoveValidator` | src/consensus/validator.rs:135-140 | Removal takes out exactly one entry of the address, reports whether it was there and keeps the list sorted |
| `RoundChangeSet.MaxRoundIsRobust` | src/consensus/pbft/core/round_change_set.rs:64-74 | For every iteration order: zero or a stored round, every higher stored round has strictly fewer votes, never below a most-voted round |
| `RoundChangeSet.ScanInvariant` | src/consensus/pbft/core/round_change_set.rs:64-74 | After any prefix of the scan the total is the chosen round's vote count and every scanned round above it has fewer votes |
| `RoundChangeSet.ScanDescending` | src/consensus/pbft/core/round_change_set.rs:64-74 | Read from the highest round down, the highest stored round wins whatever its votes |
| `RoundChangeSet.ScanAscending` | src/consensus/pbft/core/round_change_set.rs:64-74 | Read from the lowest round up, the highest of the most-voted rounds wins |
| `RoundChangeSet.RoundChangeSet.Add` | src/consensus/pbft/core/round_change_set.rs:28-35 | The entry of the vote's round exists afterwards and holds the old votes with this one under its sender, all other entries are untouched; the answer is the number of distinct voters, and a stranger's vote is refused after the entry was created |
| `RoundChangeSet.RoundChangeSet.MaxRound` | src/consensus/pbft/core/round_change_set.rs:64-74 | The loop over the hash map computes the scan for some order that enumerates exactly the stored rounds, so the answer is zero or a stored round and every higher stored round has strictly fewer votes |
| `RoundState.RoundState.PrepareOrCommitSize` | src/consensus/pbft/core/round_state.rs:43-52 | The counting loop never underflows, equals the size of the union of prepare and commit senders, and is at most the number of validators |
| `RoundState.RoundState.LockHash` | src/consensus/pbft/core/round_state.rs:100-110 | The lock becomes the stored proposal's hash, and stays without a proposal |
| `RoundState.RoundState.AddPrepare` | src/protocol/mod.rs:176-209 | A validator's prepare replaces its earlier one, a stranger's is refused, each stored message sits under its own sender |
| `RoundState.RoundState.AddCommit` | src/protocol/mod.rs:176-209 | The same for commits |
| `Core.Core.constructor` | src/consensus/pbft/core/core.rs:246-310 | A constructed and started core is the specified start state: no lock, fresh view above its ledger |
| `Core.Core.StartNewZeroRound` | src/consensus/pbft/core/core.rs:440-469 | The view moves to round 0 above the ledger and everything of the old view is dropped, the lock included |
| `Core.Core.StartNewRound` | src/consensus/pbft/core/core.rs:473-550 | Assertions, ledger catch-up, the checked proposer selection, round entry with the lock kept, and the proposal resent by the proposer, exactly as specified |
| `Core.Core.UpdateRoundState` | src/consensus/pbft/core/core.rs:568-600 | A held lock takes its proposal into the new round; without one only the pending request survives |
| `Core.Core.SendPreprepare` | src/consensus/pbft/core/preprepare.rs:30-43 | Only the proposer proposes, and only a block of the current height |
| `Core.Core.SendRoundChange` | src/consensus/pbft/core/round_change.rs:38-63 | The limiter may swallow the vote; otherwise it is sent for the current height and a later round sets the waiting flag |
| `Core.Core.SendNextRoundChange` | src/consensus/pbft/core/round_change.rs:26-36 | The vote is for the scanned maximum or, if that is not ahead, for the next round; after the last round there is none |
| `Core.Core.HandlePreprepare` | src/consensus/pbft/core/preprepare.rs:45-126 | All branches: old proposals checked, answered and then still accepted, with the two arithmetic panics on the way; future ones falling through, wrong proposer, engine verdicts, lock comparison |
| `Core.Core.EngineFails` | src/consensus/backend.rs:204-343 | The checks of the engine that can panic, in their order: the transaction root, then the checked sum of the stored parent's time and the period |
| `Core.Core.AcceptProposal` | src/consensus/pbft/core/preprepare.rs:83-132 | The part after the view check: proposer, the engine's panic and verdict, and the proposal stored before the phase changes and the vote goes out |
| `Core.Core.HandlePrepare` | src/consensus/pbft/core/prepare.rs:48-66 | View check without digest check, storing, a vote at once for the locked hash and a second one with a quorum |
| `Core.Core.HandleCommit` | src/consensus/pbft/core/commit.rs:65-131 | A missing or unrecoverable seal is refused, any other is taken; differing subjects are counted; lock and commit once a quorum is in and the phase is not Committed |
| `Core.Core.Commit` | src/consensus/pbft/core/core.rs:401-421 | The committed phase, the decision with the commits counted, and the block handed to the ledger, whose log line may panic after the insertion |
| `Core.Core.HandleRoundChange` | src/consensus/pbft/core/round_change.rs:65-100 | Late rounds answered, votes tallied, a quorum for a later round enters it |
| `Core.Core.HandleRequest` | src/consensus/pbft/core/request.rs:19-42 | Height checks, the phase assertion, the pending request replaced and proposed |
| `Core.Core.NewHeader` | src/consensus/pbft/core/core.rs:154-162 | A new header restarts the height and then files the request; the invariant holds after it and the core never dies of it |
| `Core.Core.Timeout` | src/consensus/pbft/core/core.rs:207-224 | Behind the ledger the waiting flag is cleared, otherwise the next round is voted for; the invariant holds after it, and the core dies exactly in the last round |
| `Core.Core.HandleMessage` | src/consensus/pbft/core/core.rs:314-323 | Any message: the invariant is kept, the core dies exactly on the events of the panic theorem, a lock stays inside its height, every commit votes for the lock in the current view or answers a stored old proposal |
| `Core.Core.Dispatch` | src/consensus/pbft/core/core.rs:314-362 | Messages of strangers are refused, all others go to the handler of their type |
| `Core.Core.FinalCommitted` | src/consensus/pbft/core/core.rs:165-173 | The waiting flag is cleared and nothing else changes |
| `Core.Core.BlockInserted` | src/core/chain.rs:45-71 | A block inserted by another part of the node lengthens the ledger the core sees and keeps the invariant |
| `Core.Core.StepKeepsWord` | src/consensus/pbft/core/prepare.rs:48-66 | A core that did a specified step keeps the invariant and its word on panics, lock and commits |
| `Core.Core.Handle` | src/consensus/pbft/core/core.rs:154-225 | Every event, on a live or a dead core, is a step of the specification and keeps the invariant |
| `Core.Session` | src/consensus/pbft/core/core.rs:142-225 | A core built on any ledger and fed any inputs goes through a run; its outbox and decisions are those of the run, so its commits agree per height without locked restarts and contradicting answers, and its decisions without locked restarts |
| `ReplicaInvariants.StartHasInv` | src/consensus/pbft/core/core.rs:440-469 | The started replica satisfies the invariant |
| `ReplicaInvariants.NextKeepsInv` | src/consensus/pbft/core/core.rs:568-600 | Lock coherence is inductive over every event: a phase beyond AcceptRequest has a proposal, a lock is that proposal's hash, stored prepares carry the exact view, stored commits the height, round-change votes their round, height at most one above the ledger |
| `ReplicaInvariants.PanicsIff` | src/consensus/pbft/core/core.rs:473-550 | A running replica dies on an event if and only if one of six conditions on its state and the event holds: missing request, proposer overflow, old proposal with failing arithmetic, rounds exhausted, a proposal on which the engine fails, a quorum for an undatable next block |
| `ReplicaInvariants.PreprepareDies` | src/consensus/pbft/core/preprepare.rs:45-126 | A proposal kills exactly when it is an old stored one with failing arithmetic, when it has no transaction root or a stored parent whose time overflows with the period, or when it calls for a round after the last |
| `ReplicaInvariants.CommitDies` | src/consensus/pbft/core/commit.rs:65-89 | A commit kills exactly when it completes the quorum for the next block and that block has no date, whoever sealed it |
| `ReplicaInvariants.CountedIff` | src/consensus/pbft/core/commit.rs:65-131 | A delivered commit is counted if and only if it is a validator's for the current height, after a proposal, with a recoverable seal, or was counted before; nobody else's is touched |
| `ReplicaInvariants.OwnSealsStayIff` | src/consensus/pbft/core/commit.rs:98-108 | Counted commits are sealed by their senders for their digests after a step if and only if no countable commit with another seal arrives |
| `ReplicaInvariants.DecisionStoredIff` | src/consensus/pbft/core/core.rs:401-421 | After a deciding step the ledger has the digest at the decision's height if and only if the block is the next one and of that height, or the entry was there before |
| `ReplicaAnswers.PrepareAnswer` | src/consensus/pbft/core/prepare.rs:40-74 | The whole step for every prepare: which are refused and why; a fitting one is stored, its vote goes out once for the lock and once more with a quorum, and either locks |
| `ReplicaAnswers.CommitAnswer` | src/consensus/pbft/core/commit.rs:65-131 | The whole step for every commit: which are refused and why; a counted one decides exactly with a quorum and no standing decision, with the decision, lock, ledger and fatal log line that follow |
| `ReplicaAnswers.ProposalAnswer` | src/consensus/pbft/core/preprepare.rs:45-132 | The whole step for every proposal that gets to the engine and does not kill: old answer, future, rejected, ignored, stored and prepared, stored and voted for, or against the lock |
| `ReplicaAnswers.UnconsideredAnswer` | src/consensus/pbft/core/preprepare.rs:45-86 | The whole step for every other proposal: the reason, and the old answer that goes out all the same |
| `ReplicaAnswers.RoundEntryAnswer` | src/consensus/pbft/core/core.rs:473-550 | The whole step that enters a later round, for proposers and others: view, phase, emptied votes and table, lock and request kept, proposal kept exactly under a lock, the round's proposer, the joined vote and the opening proposal |
| `ReplicaAnswers.RoundChangeAnswer` | src/consensus/pbft/core/round_change.rs:65-100 | The whole step for every other round-change vote: late ones answered with a vote for their round and not stored, others tallied, quorums behind the ledger joined only, and the waiting error |
| `ReplicaAnswers.NextRoundIsPicked` | src/consensus/pbft/core/round_change.rs:26-63 | A replica that wants the next round sends exactly one vote, unless held back, for a picked round, and waits |
| `ReplicaAnswers.PickIsRobust` | src/consensus/pbft/core/round_change_set.rs:64-74 | No most-voted round lies above a picked one, and without votes for later rounds it is the next round |
| `ReplicaAnswers.PickWithoutVotes` | src/consensus/pbft/core/round_change.rs:26-36 | A table and an order for which the picked round has no votes although a later one has |
| `ReplicaAnswers.TimeoutAnswer` | src/consensus/pbft/core/core.rs:207-224 | The whole step of a timeout that does not kill: the waiting ends behind the ledger, and otherwise the next round is asked for |
| `ReplicaAnswers.HeaderAnswer` | src/consensus/pbft/core/core.rs:154-162 | The whole step of a new header: the fresh view, the request taken or refused by height, and the proposal of the round's proposer |
| `ReplicaAnswers.StartAnswer` | src/consensus/pbft/core/core.rs:440-469 | The state a started core is in |
| `ReplicaAnswers.QuietAnswer` | src/consensus/pbft/core/core.rs:165-173 | The remaining events, and a dead replica |
| `ReplicaInvariants.NewRoundPanics` | src/consensus/pbft/core/core.rs:473-550 | For a later round the assertions of start_new_round never fire; it dies exactly when the proposer cannot be computed or is this replica with nothing to propose |
| `ReplicaInvariants.PrepareEffect` | src/consensus/pbft/core/prepare.rs:48-66 | Accepting a prepare does at most one thing: lock the stored proposal and vote for it; a changed lock means a quorum |
| `ReplicaInvariants.NextFacts` | src/consensus/pbft/core/prepare.rs:48-66 | Every step but a locked restart: votes follow the lock, locks stay inside a height, new locks have a quorum, decisions fit the lock, only the delivered message is stored |
| `ReplicaInvariants.OldReplyIff` | src/consensus/pbft/core/preprepare.rs:52-74 | A step sends a commit below its height if and only if it is asked about a stored proposal of an older view by the proposer of that view, and then exactly this commit |
| `ReplicaInvariants.LockSurvivesIff` | src/consensus/pbft/core/core.rs:598-598 | A lock survives a step inside its height if and only if the step is not a new header at that height |
| `ReplicaRuns.RunsKeepInv` | src/consensus/pbft/core/core.rs:568-600 | Lock coherence holds in every state of every run |
| `ReplicaRuns.RunsHaltIff` | src/consensus/pbft/core/core.rs:473-550 | In every run a live replica dies in a step if and only if the condition of the panic theorem holds there |
| `ReplicaRuns.ViewGrows` | src/consensus/pbft/core/core.rs:440-550 | A step never lowers the height; a changed height is the ledger's next one at round 0; inside a height rounds only grow, by a round-change message |
| `ReplicaRuns.LockPersists` | src/consensus/pbft/core/core.rs:568-600 | Without locked restarts a lock keeps its value until the height changes |
| `ReplicaRuns.CommitIsReplyOrLock` | src/consensus/pbft/core/commit.rs:39-53 | Every commit of an execution answers an old proposal or carries the lock of the current height |
| `ReplicaRuns.OneVotePerHeight` | src/consensus/pbft/core/prepare.rs:48-66 | In every run without locked restarts and without answers that contradict an earlier commit, all commits for a height carry one digest, those for the current height the lock |
| `ReplicaRuns.OneDecisionPerHeight` | src/consensus/pbft/core/commit.rs:79-87 | Without locked restarts all decisions of a replica at a height are for one digest, whatever the counted commits say and although the committed phase is left and entered again |
| `ReplicaRuns.RunVotesAgree` | src/consensus/pbft/core/commit.rs:39-53 | The same for everything a run sends |
| `ReplicaRuns.RunDecisionsAgree` | src/consensus/pbft/core/core.rs:401-421 | The same for everything a run decides |
| `ReplicaRuns.LockNeedsQuorum` | src/consensus/pbft/core/prepare.rs:40-74 | A replica becomes locked only with floor(2n/3)+1 distinct validators among its prepares and commits, each prepare for the exact view, each commit for the height |
| `ReplicaRuns.RoundEntryNeedsQuorum` | src/consensus/pbft/core/round_change.rs:65-100 | A later round r is entered only after floor(2n/3)+1 distinct validators' votes for exactly r at that height were delivered since the table was last emptied; the view strictly grows |
| `ReplicaRuns.TableWasDelivered` | src/consensus/pbft/core/round_change_set.rs:28-35 | Every vote in the table was delivered since the last reset |
| `LedgerTimes.OnlyAcceptedIsStored` | src/consensus/pbft/core/preprepare.rs:88-132 | A proposal is stored only under an accepting verdict; otherwise the stored one stays or goes |
| `LedgerTimes.StepKeepsSpacing` | src/consensus/backend.rs:320-342 | A block that consensus adds names the last ledger entry as its parent and is at least a period later |
| `LedgerTimes.RunsKeepSpacing` | src/consensus/backend.rs:320-342 | In every run with the engine's verdicts and no blocks from elsewhere, ledger times stay a period apart and the stored proposal follows its parent |
| `SingleVote.SingleVoteIff` | src/consensus/pbft/core/core.rs:154-162 | Over all commits: a replica committed to d at height h votes for nothing else there, in every continuation that is calm and has the engine's verdicts, if and only if the next event neither restarts that height while locked nor asks about another stored block of it |
| `SingleVote.ForgettingBreaks` | src/consensus/pbft/core/preprepare.rs:52-74 | Either event has a continuation with a second vote |
| `SingleVote.CalmVotesAgree` | src/consensus/pbft/core/prepare.rs:48-66 | Without either event every commit for the height carries the digest, whatever the verdicts |
| `SingleVote.SecondVote` | src/consensus/pbft/core/core.rs:440-469 | After a restart of a locked height any digest can bring out a second vote, with the engine's verdicts, for every validator set |
| `Network.ApplyKeepsNetInv` | src/consensus/pbft/core/commit.rs:65-89 | Whatever is delivered or forged, stored votes were sent and each decision rests on sent commits of a quorum of distinct validators for its height |
| `Network.RunsKeepVotes` | src/consensus/pbft/core/prepare.rs:48-66 | In every disciplined network run all commits of a correct replica for one height agree, answers about old blocks included, and follow its lock at its current height |
| `Network.RunsKeepDecisions` | src/consensus/pbft/core/commit.rs:79-87 | In every network run without locked restarts each correct replica decides one digest per height, whatever is counted, forged or answered |
| `Network.Agreement` | src/consensus/pbft/core/commit.rs:65-89 | With at most floor((n-1)/3) arbitrary senders, distinct validators, no locked restart and no replica asked about an old block after voting for another one of that height, two supported decisions of correct replicas at one height, at any two moments of a run, are for one digest |
| `Ballots.PrepareLocks` | src/consensus/pbft/core/prepare.rs:48-66 | The prepare that completes a quorum of voters, for whatever digests, locks the stored block and brings out its vote |
| `Ballots.CommitDecides` | src/consensus/pbft/core/commit.rs:65-124 | The commit that completes a quorum of voters, for whatever digests and under whatever recoverable seals, decides the stored block |
| `Network.LedgersGrow` | src/core/chain.rs:45-71 | The ledgers of correct replicas only grow in a run |
| `Network.LedgersAgree` | src/consensus/pbft/core/core.rs:401-421 | Where two supported decisions at one height are entries of their replicas' ledgers, both ledgers have the same entry there from then on |
| `Counterexamples.TwoVotesAfterRestart` | src/consensus/pbft/core/core.rs:598-598 | A run of a lone validator that votes for two blocks of one height after a locked restart |
| `Counterexamples.TwoVotesByOldReply` | src/consensus/pbft/core/commit.rs:47-53 | A run without locked restart in which the reply to an old proposal is a second vote in the same view |
| `Counterexamples.PanicWithoutRequest` | src/consensus/pbft/core/core.rs:538-540 | A run of two events that ends in the missing request |
| `Counterexamples.PanicByOldGenesis` | src/consensus/pbft/core/preprepare.rs:65-65 | For all validators and ledgers past height 1, one old proposal of the genesis block kills the replica |
| `Counterexamples.PanicByOldRound` | src/consensus/pbft/core/preprepare.rs:68-68 | The same for a stored block under a round that overflows with the seed of its parent |
| `Counterexamples.SeedOfOne` | src/consensus/validator.rs:39-48 | There is a parent hash for which the last round overflows |
| `Counterexamples.PanicByRoundOverflow` | src/consensus/pbft/core/core.rs:520-521 | For every set of validators and every ledger whose last hash has such a seed, the votes of a quorum for the last round kill the replica in the proposer selection |
| `Counterexamples.PanicInLastRound` | src/consensus/pbft/core/round_change.rs:31-32 | A run that reaches the last round and dies there on a timeout |
| `Counterexamples.PanicByEngine` | src/consensus/backend.rs:320-336 | A run of a lone validator on an ordinary ledger that commits a block with the last time, accepted by the engine, and dies on the next proposal |
| `Counterexamples.PanicByNoRoot` | src/common/mod.rs:18-27 | On any ledger one proposal without a transaction root kills the replica |
| `Counterexamples.ForeignSealDecides` | src/consensus/pbft/core/commit.rs:98-108 | For every recoverable seal, a run in which a commit under it is counted and decides |
| `Counterexamples.PanicByDate` | src/core/ledger.rs:241-244 | A run that commits a block without a date: it is in the ledger, and the replica is dead |
| `Disagreements.BothDecide` | src/consensus/pbft/core/commit.rs:65-89 | For every set of two or more validators, a disciplined run in which two correct replicas decide one block with support, so the hypotheses of agreement can be met |
| `Disagreements.DisagreementWithoutSupport` | src/consensus/pbft/core/commit.rs:109-122 | For every set of two or more validators and any two blocks of height 1 that the engine accepts, a disciplined run of correct replicas that decide differently because foreign digests are counted |
| `Disagreements.AgreementWithoutSupportIff` | src/consensus/pbft/core/commit.rs:109-122 | Correct replicas in disciplined runs always agree without support if and only if there is one of them |
| `Disagreements.DisagreementAfterRestart` | src/consensus/pbft/core/core.rs:598-598 | For every set of two or more validators and any two blocks of height 1 that the engine accepts, a run in which restarts make correct replicas decide differently although both decisions are supported |
| `Disagreements.DisagreementByOldReplies` | src/consensus/pbft/core/commit.rs:47-53 | For every set of four or more validators and any two blocks of height 1 that the engine accepts, a run without restarts in which answers about an old block make correct replicas decide differently although both decisions are supported |
| `ListIndex.ListIndex.Get` | src/store/list_index.rs:43-48 | The element at an index, nothing outside |
| `ListIndex.ListIndex.Len` | src/store/list_index.rs:64-71 | The length of the list; the cached length equals the stored one |
| `ListIndex.ListIndex.Last` | src/store/list_index.rs:50-58 | The last element, nothing when empty |
| `ListIndex.ListIndex.Push` | src/store/list_index.rs:91-95 | Appends one element |
| `ListIndex.ListIndex.Pop` | src/store/list_index.rs:97-107 | Removes and returns the last element |
| `ListIndex.ListIndex.Extend` | src/store/list_index.rs:109-121 | Appends all elements in order |
| `ListIndex.ListIndex.Truncate` | src/store/list_index.rs:123-127 | Cuts to the given length, never grows |
| `ListIndex.ListIndex.Set` | src/store/list_index.rs:129-139 | Replaces an element in range; out of range fails and writes nothing |
| `ListIndex.ListIndex.Execute` | src/store/list_index.rs:43-139 | Any session of operations gives the contents and answers of a plain sequence; exactly the indices below the length are present |
| `Ledger.InsertionsOnlyAppend` | src/core/chain.rs:45-71 | After any insertions of arbitrary blocks the chain is contiguous and no old entry has changed |
| `Ledger.WriteAppends` | src/core/ledger.rs:193-245 | Writing the block above the chain into the four stores keeps them consistent and appends exactly that block |
| `Ledger.WriteKeepsBlocks` | src/core/ledger.rs:193-245 | Every block stored before reads back unchanged, shared transactions included, and the new one reads back as written |
| `Ledger.WriteKeepsCaches` | src/core/ledger.rs:231-239 | The two caches stay truthful across a write |
| `Ledger.NewHashIsFree` | src/core/ledger.rs:193-245 | A block above the chain cannot have a hash that is in use |
| `Ledger.Ledger.Persist` | src/core/ledger.rs:200-229 | The four store updates together are the specified write, and the two assertions on the height list hold exactly for a block of the next height |
| `Ledger.Ledger.AddBlock` | src/core/ledger.rs:193-245 | A covered height changes nothing; the next height appends and stores, caches and last-block record agree again; any other block fails an assertion with the stores already written |
| `Ledger.Ledger.GetBlockHeader` | src/core/ledger.rs:105-115 | The header in the stores, through the cache |
| `Ledger.Ledger.GetBlock` | src/core/ledger.rs:117-141 | Cache transparency: the block rebuilt from the stores, whatever the caches hold; stores unchanged |
| `Ledger.Ledger.GetBlockByHeight` | src/core/ledger.rs:155-170 | The chain's block at the height, or nothing above it |
| `Ledger.Ledger.GetHeaderByHeight` | src/core/ledger.rs:172-186 | The header of the chain's block at the height; filling the cache keeps it truthful |
| `Ledger.Ledger.ChainBlockByHeight` | src/core/chain.rs:102-108 | The two-step lookup by height and hash gives the chain's block |
| `Ledger.Ledger.Evict` | src/core/ledger.rs:42-49 | Dropping any cache entries at any moment changes nothing that can be read |
| `Ledger.Ledger.ReloadMeta` | src/core/ledger.rs:255-272 | After a restart the last-block record is rebuilt from the stores |
| `Ledger.Ledger.InsertBlock` | src/core/chain.rs:45-71 | Any block: present heights and gaps are refused with the right answer and nothing changes, the next height is appended; the assertions of add_block never fire |
| `Ledger.Ledger.InsertBatch` | src/consensus/pbft/core/core.rs:75-82 | A received batch is inserted block by block |
| `Sync.AnswerSync` | src/consensus/pbft/core/core.rs:83-110 | The posted batches concatenate to exactly the blocks h..min(last, h+101) in order; the first holds 22 blocks and every other 21, except that the last may hold fewer, and none is empty |
| `Sync.ReplayRebuilds` | src/core/chain.rs:45-71 | Replaying blocks h..e on a prefix of length k gives the prefix up to e if nothing is missing, and changes nothing if there is a gap |
| `Sync.Receive` | src/consensus/pbft/core/core.rs:75-82 | Batches inserted one after the other leave the chain that inserting their concatenation would leave |
| `Sync.Exchange` | src/consensus/pbft/core/core.rs:75-110 | A receiver that holds a prefix of the sender's chain ends with the sender's prefix up to the answer's bound |
| `NodeId.XorBit` | src/p2p/p2p/src/kad/base.rs:35-38 | A bit of the distance is set exactly when it is set in one of the two ids |
| `NodeId.DistanceIsUnique` | src/p2p/p2p/src/kad/base.rs:35-38 | From one id, every XOR distance belongs to one id only |
| `NodeId.XorCommutes` | src/p2p/p2p/src/kad/base.rs:35-38 | XOR distance is symmetric |
| `NodeId.ZeroOnlyAtSelf` | src/p2p/p2p/src/kad/base.rs:35-41 | Only an id itself is at distance zero |
| `NodeId.TriangleInequality` | src/p2p/p2p/src/kad/base.rs:35-38 | XOR satisfies the triangle inequality |
| `NodeId.BitsBound` | src/p2p/p2p/src/kad/base.rs:42-44 | The bit count finds the power of two at or below a number |
| `NodeId.XorBytesIsXor` | src/p2p/p2p/src/kad/base.rs:71-73 | Byte vectors are XORed, as far as both go, as the numbers they encode |
| `NodeId.BitsOfBytes` | src/p2p/p2p/src/kad/base.rs:77-89 | The loop over a byte vector counts the bits of the number it encodes |
| `NodeId.BeforeIsLess` | src/p2p/p2p/src/kad/knodetable.rs:112-114 | The order of byte vectors that sorting uses is the order of their numbers as far as both go, a proper prefix first |
| `NodeTable.BucketNumberIsExact` | src/p2p/p2p/src/kad/knodetable.rs:80-92 | An id falls into bucket i if and only if i is within the hash size and the distance in [2^i, 2^(i+1)) |
| `NodeTable.BucketsAreMutual` | src/p2p/p2p/src/kad/knodetable.rs:76-92 | Two nodes put each other into the same bucket |
| `NodeTable.InRangeIsPlaced` | src/p2p/p2p/src/kad/knodetable.rs:80-92 | Ids within the hash size, other than our own, never panic the table |
| `NodeTable.HandlerIsSafeIff` | src/p2p/p2p/src/kad/service.rs:167-175 | The handler's own-id test keeps all ids of the hash size from panicking the table if and only if it tests for the table's id |
| `NodeTable.IdsAreUnique` | src/p2p/p2p/src/kad/knodetable.rs:102-106 | No id is stored twice in the whole table |
| `NodeTable.WithoutKeepsOthers` | src/p2p/p2p/src/kad/knodetable.rs:172-180 | Filtering out an id removes exactly that node |
| `NodeTable.UpdateRenews` | src/p2p/p2p/src/kad/knodetable.rs:142-180 | A stored node is last, with its new address and alone under its id, the others in their old order; a refused one leaves the bucket as it was |
| `NodeTable.BucketsKeepRecency` | src/p2p/p2p/src/kad/knodetable.rs:117-180 | In every history of sightings and pops the entries of a bucket stand in the order in which they were last seen, under the address of that sighting, so that the one popped was not seen for longest |
| `NodeTable.KBucket.Update` | src/p2p/p2p/src/kad/knodetable.rs:142-157 | A known node leaves its place for the tail with its new address, a new one goes to the tail, a full bucket refuses and stays |
| `NodeTable.KNodeTable.constructor` | src/p2p/p2p/src/kad/knodetable.rs:61-69 | One empty bucket per bit, all of the given size |
| `NodeTable.KNodeTable.FindBucket` | src/p2p/p2p/src/kad/knodetable.rs:80-92 | The bucket whose range holds the distance, or the panic |
| `NodeTable.KNodeTable.Update` | src/p2p/p2p/src/kad/knodetable.rs:102-106 | Only the node's own bucket changes, by the node renewed at its tail, and nothing when it is refused; ranges, unique ids and capacities are kept |
| `NodeTable.KNodeTable.Find` | src/p2p/p2p/src/kad/knodetable.rs:108-115 | The min(count, size) stored nodes of smallest distance in strictly increasing order, every omitted node farther than all of them; the panics are our own id and, with debug assertions, a count of zero |
| `NodeTable.KNodeTable.PopOldest` | src/p2p/p2p/src/kad/knodetable.rs:117-124 | Every full bucket loses exactly its oldest node, and these are returned in bucket order |
| `NodeTable.Service.Update` | src/p2p/p2p/src/kad/service.rs:167-175 | Our own id is ignored; a stored node is renewed at the tail of its bucket; the flag is raised exactly when a full bucket refuses an unknown node, and then nothing changes |
| `NodeTable.Service.CleanUp` | src/p2p/p2p/src/kad/service.rs:122-134 | For any answers of the check: every re-insert succeeds, each full bucket is rotated by one or shortened by one, all others stay, the flag is cleared |
| `NodeTable.CleanUpConserves` | src/p2p/p2p/src/kad/service.rs:122-134 | After the clean-up a node is stored if and only if it was before and did not fail the check when popped |
| `NodeTable.CleanedExactly` | src/p2p/p2p/src/kad/service.rs:122-134 | Entry by entry: a full bucket is rotated by one place or loses its head, any other stays |
| `Codec.StreamRoundTrip` | src/p2p/codec.rs:21-52 | Whatever prefix of a stream of fitting messages has arrived, in whatever chunks: exactly the messages with whole frames are decoded in order and the buffer holds exactly the unfinished frame |
| `Codec.RoundTripExactlyWhenFits` | src/p2p/codec.rs:21-52 | Whatever room the buffers have to spare, the encoder takes the messages and every chunking gives them back with an empty buffer if and only if every message fits |
| `Codec.EncodeGivesStream` | src/p2p/codec.rs:45-52 | What the encoder writes is the concatenation of frames, and fitting messages never panic it |
| `Codec.MisfitBreaks` | src/p2p/codec.rs:30-31 | A message that does not fit panics the decoder at its length field or comes out cut |
| `Codec.U32RoundTrip` | src/p2p/codec.rs:27-49 | The length field reads back what was put |
| `Codec.LengthIsBigEndian` | src/p2p/codec.rs:27-49 | The length field has its most significant byte first |
| `Codec.FrameLayout` | src/p2p/codec.rs:45-52 | A frame is the four length bytes, most significant first, and the message |
| `Codec.MsgPacketCodec.Encode` | src/p2p/codec.rs:45-52 | Exactly one frame is appended to the output; the panics are the checked sum for the reservation and a message longer than the reserved and spare room, and never a fitting message |
| `Codec.MsgPacketCodec.Decode` | src/p2p/codec.rs:21-38 | One call: wait and leave the buffer, split one message off, or panic |
| `Codec.MsgPacketCodec.Feed` | src/p2p/codec.rs:21-38 | Decoding a chunk until nothing comes does what the specification of a whole buffer says |

## Left out

- Signatures, hashing, Merkle roots and serialisation: senders are authenticated, a commit seal has a signer and a digest or is unrecoverable, hash functions are collision-free parameters and a message is its bytes. Hashes have at least, not exactly, 32 bytes, since no function into a fixed length is collision-free; with that freedom one exists (`Ledger.CollisionFreeExists`). Payloads that do not decode, on which the encoding library may panic, are not modelled.
- Builds without overflow checks: there the sums wrap and the arithmetic panics are gone.
- Actors, timers, thread pools and clocks: timer firing, delivery and the round-change limiter are free choices of the environment. A panic ends the actor; the fields of a dead replica are not observable, so the order of updates before a panic is not kept.
- Proposal verification by the engine (src/consensus/backend.rs:204-343): the check of the transactions is a flag of the block; the verdict where the engine survives is open in the safety theorems and the code's own in the failing runs. The arm for future blocks, which this engine never reports, is kept.
- The date of a block is a flag of the block in the replica; the ledger model has no dates and leaves out the log line (src/core/ledger.rs:243-244).
- Rounding in the threshold functions: exact integer floor; the fault-count function is used nowhere in the core and not modelled.
- Heights and sizes are unbounded: an overflow of a height needs a ledger of 2^64 blocks. Rounds are 64-bit numbers.
- Liveness: locks are never released and the proof of locks described in doc/rfc.md:97-101 is not implemented, so no progress is claimed.
- The backlog of future messages: it is filled but never replayed.
- The unused maximum and clearing functions of the round-change set.
- The gossip cache that drops repeated outgoing messages: repeated delivery is covered by the network model.
- The effect of committing on the node's own chain is the insertion into the ledger; the channel to the block producer and the event subscribers are not modelled.
- Transaction pool, genesis configuration, DPoS code, P2P servers and sessions, discovery, HTTP API, command line.
- The database: a key store is a map; prefix iteration and clearing are not modelled, and only one list object at a time works on a store.
- Library sorting is a stable insertion sort; hash-map iteration is an arbitrary order.
- The sixteen-byte seed is read most significant byte first; the wide-integer library that does it is not part of this model.
- The read loop around the decoder belongs to the framing library and is modelled as decoding until nothing comes.
- Node ids in the table are numbers, as the 64-bit ids are; byte-vector ids are tied to them by `NodeId.XorBytesIsXor`, `NodeId.BitsOfBytes` and `NodeId.BeforeIsLess`, and a table of vectors of different widths is not modelled.
- The stored data of the node service, its find handlers and random ids.
- Network.Agreement: excludes locked restarts, contradicting answers about old blocks, and decisions without support, because the code breaks agreement with each of them.
