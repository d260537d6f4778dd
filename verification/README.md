# Tendermint-style consensus, modelled and proved in Dafny

A model of a small BFT blockchain: a consensus engine whose handlers call each other re-entrantly, the
discrete-event clock and rate-limited network it runs on, the replay-protected key-value state it executes, and
an equivocating validator. The main results are about every run, not about one call.

`dafny verify dfyconfig.toml` verifies the whole project.

## How it is built

The engine is modelled twice, and the two are proved to agree.

* **Atomic steps.** `Protocol` is one validator as a value and twelve atomic steps (enter round, propose, store a
  block, receive a vote, prevote, lock, precommit, decide, ...), each with its guard. `Consensus` puts the validators
  together: a run interleaves their steps in any order, votes may be lost, repeated, delayed and reordered, and faulty
  validators may sign anything. `Safety`, `Chain` and `Rotation` prove what holds over all runs.
* **Handlers.** `Engine` is the engine as a class: the handlers update the height, ledger, mempool, per-height state
  and vote buckets in place and call each other as the source does. `ByzantineEngine`, the subclass that overrides how
  votes and proposals are sent, is the same class with `equivocates` set; the two overridden methods ask for it where the
  source would dispatch, and everything they call back into, the tally included, is shared. Each handler keeps a ghost
  record of the atomic steps it takes. `Valid()` says of an honest engine that the recorded steps, each allowed when
  taken, lead to the present fields, and that what was broadcast is exactly what those steps announce; so every handler is
  shown to be a finite sequence of atomic steps, and its contract says which steps open that sequence and, apart from the
  steps, what has come of them in the fields (`Effects`, `HasVoted`).
* **Termination.** For two validators or more every handler ends, whatever it holds. Entering a round leads on only when
  this validator proposes in it, and it cannot lead many in a row: the measure is (does this height hold another's vote,
  rounds still led in a row, remaining steps of the round).
* **Simulation.** `Simulation` puts all honest engines and any of the faulty ones, equivocating, on one `Network` and one
  `VirtualClock`, beside an adversary and clients. Its invariant is that some run of the atomic steps leads to where the
  honest engines are (`Replay`), so what holds of runs holds of the engines themselves, and that each engine has exactly
  one live round timer at all times. The second part holds for every n of 2 or more, the first for 2q > n.

| module | models |
|---|---|
| `Messages`, `Quorums` | message types, hashing and signing as parameters; quorum counting |
| `Protocol`, `Consensus`, `Safety`, `Rotation` | atomic steps, runs, agreement, lock persistence, external validity, proposer rotation |
| `Chain`, `Execution` | the finalized chain; `State`, ownership, replay protection, interleaving |
| `Clock`, `Transport` | `VirtualClock`; `Network` with its delays and sliding-window limiter |
| `Trace`, `Engine`, `Gossip`, `Byzantine` | the record of a validator; `ConsensusState`, `ConsensusEngine`, `ByzantineEngine`; header before body; what an equivocator sends |
| `Replay`, `Simulation` | engines on one network as runs of the atomic steps |
| `Runs`, `Factions`, `Disagreement`, `Counterexamples`, `Cascade` | runs that show which hypotheses are needed; what is different for small n |

## Hypotheses, and why each is needed

How many validators there are matters in four ways; f is (n - 1) / 3 rounded down and q is 2f + 1, as the source computes
them for whatever n it is given.

| n | what holds |
|---|---|
| any n, at most f faulty (`Config.Formed`) | vote discipline, precommits backed, external validity, rotation, ledger replay, exactly once, ownership |
| n of 2 or more | every handler ends; over every run of the engines on one network each keeps exactly one live round timer |
| 2q > n: every n but 2, 3 and 6 (`Decisive`, `OneQuorumIff`) | a bucket has one quorum at most, so handlers are sequences of atomic steps |
| 2q > n + b, with b validators faulty (`Config.Valid`) | one quorum per slot over all honest validators, lock persistence, and agreement; each only then (`SlotsAgreeIff`, `LocksPersistIff`, `AgreementIff`) |

* **2q > n + b** says that two quorums always share an honest validator. For n = 3f+1, and for no other n, it holds whichever
  validators are faulty (`AgreementForAllIff`); nothing in the code asks for such an n. The default of 8
  (`config/scenarios.json:22`) has quorums of 5: it is safe with at most one faulty validator, as in most of its scenarios,
  and unsafe with two, which the bound allows and scenario T7 runs (`EightIff`).
* **n = 1.** A validator alone never returns from its first call, whatever is in its pool: it decides height after height, or
  gives up round after round, with no message delivered (`EndlessAlone`).
* **n = 2, 3 and 6.** Two hashes can reach the quorum in one bucket, and for these n alone some run leads an honest validator
  there (`TornIff`), even with no validator faulty. A tally then reacts to each in the state the one before has left, as
  counted before, so that the order of counting decides which vote is cast (`OrderMatters`), and a reaction may meet a height
  its votes were not cast at. The handlers still end and keep their timer, but that they are sequences of atomic steps is not
  claimed.
* **Unforgeable signatures.** Anything may be delivered under any signature, but one that checks for an honest validator's
  vote was made by that validator. So agreement rests on the check of each vote (`src/consensus/engine.py:432-435`). Headers
  need no such hypothesis.
* **The message kind equals the signed phase.** The vote handler files a vote under the kind of message it came in and
  never compares that with the phase inside (`src/consensus/engine.py:423-443`). `AgreementNeedsThePhase` gives the whole
  condition for every n and whichever validators are faulty: agreement holds exactly when there is a single validator, or
  2q > n + b and votes are delivered as the kind they were signed as.
* **Local validation, for equal state only.** A block is stored before it is validated (`src/consensus/engine.py:372`)
  and may be locked and decided by header hash, so agreement on hashes does not ask for validation but agreement on state
  does. It fails with no validator faulty: a client hands one node an unsigned copy of a transaction (`src/node.py:38-40`
  checks nothing), the node rebuilds the honest block from it, prevotes against it, then locks and finalizes it by its hash
  and skips the write. `StoresAgreeIff` proves that honest validators at one height always hold one store if and only if
  there is a single validator, `StateAgreement` proves it when every finalized block passed its holder's own validation, and
  `BodyValidIff` says exactly which bodies do.
* **Collision-free hashing, and signatures that verify**, only where a lemma names them. Agreement needs neither; the runs
  that refute agreement elsewhere are built for any such hashing.

## Where the code and its own words differ

The model follows the code.

* `src/consensus/engine.py:13` and `src/byzantine.py:19-22` speak of n = 3f+1; nothing enforces it (see above).
* A lock is taken for whatever round the quorum is in, ahead of the current round or behind it, if not behind the lock
  (`src/consensus/engine.py:480-482`). The locked and the valid block therefore always coincide, and the separate
  valid block and round carry nothing of their own.
* The proof-of-lock rule (`src/consensus/engine.py:172-178`) re-proposes a block under its original proposer, whose turn it
  is not except in congruent rounds, so honest validators prevote against it (`ReproposedIff`).
* A fetched body "must match the hash we asked for" (`src/consensus/engine.py:339-340`); the code asks only for a good
  signature and a new hash (`AbsorbKeeps`).
* A parked header is taken out even when still incomplete (`src/consensus/engine.py:351-357`), so "a later response may
  finish the job" does not apply (`Reassemble`).

## Model

| member | source | states |
|---|---|---|
| `Safety.Agreement` | src/consensus/engine.py:447-516 | whenever 2q > n + b, over every run, the finalized hashes of any two honest validators, each taken at any time, are one a prefix of the other |
| `Safety.LockPersistence` | src/consensus/engine.py:470-489 | whenever 2q > n + b, once an honest validator counts a precommit quorum for a block, no honest validator ever counts a prevote quorum for another block in a later round of that height, although locks may be taken for rounds ahead of or behind the current one |
| `Safety.OneQuorumEverywhere` | src/byzantine.py:19-22 | whenever 2q > n + b, two honest validators never count quorums for different hashes in one (height, round, phase), NIL included, whatever equivocators show each of them |
| `Safety.VoteDiscipline` | src/consensus/engine.py:392-408 | the votes one honest validator signs are strictly increasing in (height, round, phase) |
| `Safety.PrecommitBacked` | src/consensus/engine.py:470-489 | every non-NIL precommit follows prevotes for the same hash by at least f+1 honest validators in its round, and its signer stays locked on that round or a later one while at that height |
| `Safety.PrecommitCounted` | src/consensus/engine.py:470-489 | every non-NIL precommit was cast in its own round with 2f+1 distinct validators' prevotes for that hash in the signer's own bucket, already locked on that round or a later one |
| `Safety.PrevoteValidated` | src/consensus/engine.py:368-390 | every non-NIL prevote was cast right after a block with that hash passed the full validation of its signer in that height and round |
| `Safety.ExternalValidity` | src/consensus/engine.py:216-245 | every finalized hash was prevoted, in one round of its height, by at least f+1 honest validators, each after its own full validation |
| `Safety.FinalizedIsSigned` | src/consensus/engine.py:227-232 | every finalized hash is that of a header for its height signed by the proposer of a round of that height |
| `Safety.PrevotesCongruent` | src/consensus/engine.py:227-229 | all honest prevotes for one block in a run lie at one height and in rounds congruent modulo n |
| `Safety.ReproposedIff` | src/consensus/engine.py:172-178 | a block valid in one round and proposed again in another is prevoted by an unlocked or like-locked validator if and only if the rounds are congruent modulo n; otherwise it is prevoted against |
| `Disagreement.AgreementIff` | src/consensus/engine.py:82-86 | for every n the engine accepts and whichever validators are faulty, at most f of them: honest ledgers agree in every run if and only if 2q > n + b, b being the number of faulty ones |
| `Disagreement.LocksPersistIff` | src/consensus/engine.py:470-489 | likewise for lock persistence: no run has one honest validator count a precommit quorum for a block and another a prevote quorum for a different block in a later round of that height, if and only if 2q > n + b |
| `Disagreement.SlotsAgreeIff` | src/byzantine.py:19-22 | likewise for one slot: no run has two honest validators count quorums for different hashes in one (height, round, phase) if and only if 2q > n + b |
| `Disagreement.AgreementForAllIff` | src/consensus/engine.py:82-86 | agreement holds for every faulty set the bound allows if and only if n % 3 == 1 |
| `Disagreement.EightIff` | config/scenarios.json:22 | with the shipped number of validators, agreement holds if and only if at most one is faulty |
| `Disagreement.Disagree` | src/consensus/engine.py:82-86 | whenever 2q is not more than n + b, a run in which two honest validators finalize different blocks |
| `Counterexamples.AgreementNeedsThePhase` | src/consensus/engine.py:423-443 | the whole condition, for every n and whichever validators are faulty: agreement over all runs holds if and only if the validator is alone, or 2q > n + b and votes are delivered under the phase they were signed for, which the vote handler does not compare |
| `Counterexamples.StateAgreementNeedsValidation` | src/consensus/engine.py:293-313 | for every n of two or more and whichever validators are faulty, none included: a run in which two honest validators hold equal hashes and different data, because one rebuilt the block from an unsigned copy, locked and finalized it by its hash, and it fails its own validation |
| `Counterexamples.StoresAgreeIff` | src/consensus/engine.py:368-372 | in every reachable state all honest validators at one height hold one store if and only if there is a single validator |
| `Counterexamples.RebuiltFromPool` | src/consensus/engine.py:293-313 | the block such a validator acts on is what reassembly makes of the proposal and its pool, with no body missing |
| `Cascade.EndlessAlone` | src/consensus/engine.py:497-525 | a validator alone, whatever ledger and pool it begins with, never stops with no message delivered: if all in the pool verifies it decides height after height, otherwise it gives up round after round; for every number of laps there is a record that long |
| `Cascade.Lap` | src/consensus/engine.py:152-212 | each step of a lap around a height is the one the handlers call after the one before, and the lap finalizes the whole pool |
| `Cascade.NilLap` | src/consensus/engine.py:518-522 | likewise for a round given up: with something unverified in the pool the validator prevotes against its own block, precommits NIL and enters the next round |
| `Cascade.OwnBlockPassesIff` | src/consensus/engine.py:179-191 | the proposal of a validator alone is valid if and only if everything in its pool verifies |
| `Cascade.OrderMatters` | src/consensus/engine.py:452-468 | for n of 2, 3 and 6 and whichever validators are faulty: a run leads an honest validator to a prevote bucket with a quorum for the block it holds and one for NIL, where counting the block first makes it lock and precommit the block, counting NIL first makes it precommit NIL and lock the block after |
| `Cascade.TornIff` | src/consensus/engine.py:84-86 | some reachable state has an honest validator with two quorums in one bucket if and only if n is 2, 3 or 6 |
| `Factions.FactionDecides` | src/consensus/engine.py:423-522 | honest validators that are a quorum together with the faulty ones can finalize a block of one of them without any other validator moving |
| `Factions.PrevotesDecide` | src/consensus/engine.py:437-443 | where the phase is not compared, a validator can decide on prevotes that reach it a second time as precommits, while the others have only prevoted |
| `Factions.UnsignedFails` | src/consensus/engine.py:216-245 | for any validator state, block with transactions and round: unsigned copies of the transactions keep the block hash, the transaction hashes and the header as acceptable as before, fail validation and are prevoted against |
| `Consensus.LockPersists` | src/consensus/engine.py:368-390 | the argument behind it, first in time rather than by rounds: any prevote quorum for another block in a later round would need an earlier one |
| `Consensus.OneDecision` | src/consensus/engine.py:497-516 | at one height at most one hash can gather precommit quorums, whatever the rounds |
| `Consensus.QuorumIsSupport` | src/consensus/engine.py:447-458 | a quorum counted by an honest validator is support in the log of votes actually signed |
| `Consensus.LockedElsewhere` | src/consensus/engine.py:477-487 | a lock on another block than one precommitted rests on a prevote quorum from a later round |
| `Consensus.RunIsOk` | src/consensus/engine.py:423-522 | the invariant holds at every point of every run |
| `Consensus.LogKeepsOk` | src/consensus/engine.py:392-408 | a vote cast by the rules keeps the log disciplined and backed for every n, and faithful to earlier precommits whenever two quorums always share an honest validator |
| `Consensus.StepKeepsSystemOk` | src/consensus/engine.py:423-443 | every step of any honest validator keeps the invariant of the whole system, for every n with at most f faulty, whatever is delivered under a signature that does not check and whatever unforgeable signatures allow besides |
| `Protocol.StepKeepsOk` | src/consensus/engine.py:46-75 | every atomic step keeps the chain, the replayed store, vote placement, and locks backed by a prevote quorum with valid block equal to locked block, for every n |
| `Protocol.RemainingIs` | src/consensus/engine.py:512 | finalizing takes every copy of the block's transactions out of the pool and nothing else, and what is left stays in order |
| `Protocol.FinalizeLeaves` | src/consensus/engine.py:506-515 | what finalizing leaves, part by part: the pool without the transactions of the block and with all others in order, the ledger with the block, the store with its effects, a fresh height |
| `Protocol.TimestampsInOrder` | src/consensus/engine.py:123-135 | while a height takes fewer than a thousand rounds, timestamps are in the order of height and round |
| `Quorums.QuorumSize` | src/consensus/engine.py:84-86 | the quorum 2f+1 computed from n never exceeds n, for every n |
| `Quorums.HonestOverlap` | src/byzantine.py:19-22 | two sets of validators that together outnumber all validators plus the faulty ones share an honest validator |
| `Quorums.DisjointQuorums` | src/byzantine.py:19-22 | for every n other than 3f+1 there are two quorums whose whole overlap fits in an allowed faulty set |
| `Quorums.QuorumsMeetIff` | src/byzantine.py:19-22 | every two quorums share a validator outside every allowed faulty set if and only if n % 3 == 1 |
| `Rotation.SameProposerIff` | src/consensus/engine.py:114-115 | two rounds of a height have the same proposer if and only if they are congruent modulo n |
| `Rotation.EachProposesOnce` | src/consensus/engine.py:114-115 | any n consecutive rounds of a height name each validator exactly once |
| `Rotation.Succession` | src/consensus/engine.py:114-115 | the first validator listed leads the first round of the first height; the next round of a height, and the same round of the next height, have one leader, the validator listed next |
| `Chain.LedgerReplay` | src/consensus/engine.py:509-512 | in every reachable state the store is the ledger replayed from nothing, the height counts the ledger, and the ledger is a hash chain from genesis |
| `Chain.ChainExactlyOnce` | src/execution/state.py:36-43 | over the whole chain a (sender, nonce) pair changes the state at most once, and replaying anything from the chain changes nothing |
| `Chain.ChainOwnership` | src/execution/state.py:25-43 | at every point of every run a key is stored exactly when some transaction of the ledger wrote it with effect; it holds what the last such wrote, whose sender owns it and signed it |
| `Chain.SignaturesDoNotMatter` | src/types/messages.py:39-40 | verified lists that agree but for their signatures have the same effect |
| `Chain.SameRootSamePayloads` | src/execution/state.py:58-59 | equal transaction roots mean the same transactions in the same order, signatures apart |
| `Chain.BodyValidIff` | src/consensus/engine.py:233-243 | of the blocks sharing the hash of a valid block, those are valid that carry the same transactions in order with good signatures, and no others |
| `Chain.ValidNamesItsState` | src/consensus/engine.py:233-236 | a block that passes validation names a root that exactly the states with the data its transactions lead to have |
| `Chain.SameHashesSameState` | src/consensus/engine.py:509-512 | validated ledgers with the same hashes replay to the same data and nonces |
| `Chain.StateAgreement` | src/consensus/engine.py:233-236 | honest validators at one height whose finalized blocks passed their own validation hold the same data and nonces, with the state root the last header names |
| `Chain.SameHeadIff` | main.py:223-238 | two validators report the same last hash, or both none, if and only if their ledgers have equal header payloads at every height |
| `Execution.Owner` | src/execution/state.py:30-32 | the owner of a key is what precedes its first slash, and a key without a slash has none |
| `Execution.ApplyAllConcat` | src/execution/state.py:49-55 | applying two lists one after the other is applying their concatenation |
| `Execution.SameRootIff` | src/execution/state.py:22-23 | with collision-free hashing two states have equal roots if and only if their data are equal |
| `Execution.ReplayChangesNothing` | src/execution/state.py:33-38 | re-applying any processed transactions, in any order and number, changes nothing |
| `Execution.ExactlyOnce` | src/execution/state.py:33-43 | of all transactions with one sender and nonce, at most one ever takes effect |
| `Execution.StoredByOwner` | src/execution/state.py:25-43 | every key holds what its last effective writer put there, and that writer owns it and signed the transaction; an unwritten key is as it was |
| `Execution.Commute` | src/execution/state.py:25-43 | transactions of different senders commute |
| `Execution.InterleavingIndependent` | src/execution/state.py:49-55 | lists with the same order within each sender give the same state, however senders are interleaved |
| `Execution.State.Clone` | src/execution/state.py:16-20 | the copy is a new object with the same contents |
| `Execution.State.StateRootOf` | src/execution/state.py:22-23 | the root is the hash of the data alone, nonces apart; with collision-free hashing a state has this root if and only if it holds the same data |
| `Execution.State.CanApplyTo` | src/execution/state.py:25-39 | accepts exactly the verified transactions on owned keys with unseen nonces |
| `Execution.State.Apply` | src/execution/state.py:41-47 | an acceptable transaction writes its key and marks its nonce in place; any other changes nothing |
| `Execution.State.ApplyAllTo` | src/execution/state.py:49-55 | the result is a new state with the whole list applied in order; the state itself is untouched |
| `Clock.DoKeepsSound` | src/network/simulator.py:49-87 | every clock operation keeps conservation and order, and time does not go back |
| `Clock.RunIsSound` | src/network/simulator.py:68-87 | over any run, with events scheduled by callbacks and runs resumed after a pause, events fire in strictly increasing (time, id), each id is exactly one of pending, fired once or dropped, and what fired stays fired |
| `Clock.LateCancelIsHarmless` | src/network/simulator.py:58-60 | cancelling an id that already fired or was dropped changes no later firing, dropping or time |
| `Clock.TurnKeepsArmed` | src/network/simulator.py:74-87 | a turn of the loop leaves the one live round timer of a validator armed unless it is the one that fires; no other round timer of it ever fires |
| `Clock.RearmTimer` | src/consensus/engine.py:137-144 | cancelling the remembered timer and scheduling anew leaves exactly the new one live, and the timers of others alone |
| `Clock.VirtualClock.ScheduleAfter` | src/network/simulator.py:49-56 | adds one event at now plus the delay under the next id |
| `Clock.VirtualClock.Reset` | src/network/simulator.py:62-66 | back to an empty timeline at time zero |
| `Clock.VirtualClock.TakeTurn` | src/network/simulator.py:74-87 | the earliest event by (time, id) is dropped if cancelled, put back with time moved up to the limit if beyond it, and otherwise fired with time moved to it |
| `Clock.VirtualClock.PopMin` | src/network/simulator.py:77 | removes the unique least event by (time, id) |
| `Clock.CancelledNeverFires` | src/network/simulator.py:58-60 | an id cancelled before it fired, even before it was given out, never fires, whatever follows |
| `Clock.VirtualClock.CancelEvent` | src/network/simulator.py:58-60 | marks the id, if one is given, whether or not it was ever given out, and nothing else |
| `Transport.PruneAgain` | src/network/simulator.py:207-210 | pruning the pruned list is pruning the full history |
| `Transport.WindowBound` | src/network/simulator.py:207-219 | in every window of the limiter length, wherever it starts, at most the limit of sends pass |
| `Transport.Network.SenderBound` | src/network/simulator.py:180-219 | the bound holds of every sender in every state of the network |
| `Transport.Network.RateLimitBlocks` | src/network/simulator.py:191-219 | before the time recorded for the pair a send is suppressed uncounted; from then on, or with none recorded, it is counted, is let through exactly when the window that ends with it holds no more than the limit, and otherwise blocks the pair for the block duration |
| `Transport.Network.BlocksEnd` | src/network/simulator.py:197-219 | in every state of the network a block was earned by a counted send of that sender that did not pass, one block duration before it ends; so no block outlasts the block duration |
| `Transport.Network.CountSend` | src/network/simulator.py:207-212 | the pruned list keeps standing for the full history with this attempt added, over the limit exactly when the window that ends with it holds more than the limit |
| `Transport.Network.Dispatch` | src/network/simulator.py:257-268 | every copy is scheduled with the same delay to the same receiver |
| `Transport.Network.Broadcast` | src/network/simulator.py:285-296 | the message is sent to each registered peer but the sender, in the order listed, each send metered and delayed as `Send` says; so new deliveries carry the message to such peers alone, at most two to each, and at least one to each once stabilized and unlimited |
| `Transport.SentToAllAdds` | src/network/simulator.py:285-296 | any such sequence of sends adds at most two deliveries for each peer, none for anybody else, and at least one for each peer when nothing is lost |
| `Transport.Network.Register` | src/network/simulator.py:135-139 | a node is listed once |
| `Transport.Network.TakeTurn` | src/network/simulator.py:74-87 | a turn of the run loop seen from the network: its earliest event, fired unless cancelled or beyond the limit, with the limiter state undisturbed |
| `Transport.Network.Send` | src/network/simulator.py:238-268 | the limiter counts, passes or blocks the send; a message is then suppressed, lost, or scheduled once or twice with one delay, and nothing else happens to the clock; the delay is the next of the reorder list, else the bounded delay once stabilized, else between the two limits; once stabilized, whatever passes the limiter is scheduled |
| `Transport.Network.ChooseDelay` | src/network/simulator.py:245-248 | the delay is one the settings allow, and the reorder list is used up one entry at a time |
| `Transport.Network.SendDirect` | src/consensus/engine.py:361-366 | one send to this receiver, metered and delayed as `Send` says, and recorded with its sender |
| `Trace.HistoryLive` | src/consensus/engine.py:447-522 | at every intermediate point of every cascade the present height is in order, whatever ledger and store the engine began with |
| `Trace.HistoryOk` | src/consensus/engine.py:447-522 | at every intermediate point of every cascade the ledger is a chain and the store its replay, if they were at the beginning |
| `Trace.ProposalsAreMade` | src/consensus/engine.py:169-211 | over every history: a proposal broadcast while locked carries the header of the locked block and the hashes of its transactions; one broadcast while unlocked carries a signed header by the validator itself over its whole pool in order, on its ledger |
| `Trace.ProposingAnnounces` | src/consensus/engine.py:200-211 | proposing broadcasts exactly one such proposal |
| `Trace.LeadingCounts` | src/consensus/engine.py:114-118 | with two validators or more, each round a validator leads in a row leaves it fewer to lead; this bounds the cascade |
| `Trace.OneQuorumIff` | src/consensus/engine.py:84-86 | a bucket has at most one hash at quorum, whatever is in it, if and only if 2q > n, which is for every n but 2, 3 and 6 |
| `Trace.OneQuorumPerBucket` | src/consensus/engine.py:452-468 | with 2q > n at most one hash reaches the quorum in a bucket, so counting order cannot matter |
| `Engine.ConsensusState.constructor` | src/consensus/engine.py:46-72 | fresh per-height state: round 0, no lock, nothing heard |
| `Engine.ConsensusState.VoteBucket` | src/consensus/engine.py:74-75 | the votes of a round and phase, none if never touched |
| `Engine.ConsensusState.AddVote` | src/consensus/engine.py:442 | puts one vote under its validator in its slot and changes nothing else |
| `Engine.ConsensusState.LockBlock` | src/consensus/engine.py:477-487 | lock and valid block move to the given round unless already past it |
| `Engine.ConsensusEngine.ResetRoundTimeout` | src/consensus/engine.py:137-144 | exactly one live round timer afterwards, due one timeout from now, and no other validator's touched |
| `Engine.ConsensusEngine.OnRoundTimeout` | src/consensus/engine.py:146-150 | the round of the same height advances by one before anything else happens, and nothing else is recorded when another validator leads it |
| `Engine.ConsensusEngine.ChooseBlock` | src/consensus/engine.py:172-191 | the valid block if there is one, else a signed block of its own over the whole mempool in order |
| `Engine.ConsensusEngine.Validate` | src/consensus/engine.py:216-245 | true exactly when height, parent, proposer, signature, state root, transaction root and every transaction signature are right; the store is untouched |
| `Engine.ConsensusEngine.HandleProposalLocal` | src/consensus/engine.py:368-390 | keeps the first block of a round, past, present or future, and does nothing further unless the round is current at the propose step; then it prevotes on this block, even if another was kept, unless it prevoted before |
| `Engine.ConsensusEngine.KeepProposal` | src/consensus/engine.py:372 | a round keeps the first block it was given |
| `Engine.ConsensusEngine.PrevoteOn` | src/consensus/engine.py:379-390 | prevotes the hash of a valid block that does not contradict a lock, NIL otherwise, and holds that vote while at that height |
| `Engine.ConsensusEngine.SendVote` | src/consensus/engine.py:392-421 | at most one vote per slot: cast if and only if none was, kept while at that height, and then the slot is tallied with it |
| `Engine.ConsensusEngine.OnVote` | src/consensus/engine.py:423-443 | a vote is taken in exactly when its sender is a validator, its height is the present one, its signature checks and none is in the slot yet, whatever its round; otherwise nothing changes and nothing is sent. The only quorum it leaves has its effects; with 2q > n, one of precommits for the locked block, in whatever round, finalizes that block |
| `Engine.ConsensusEngine.RecordVote` | src/consensus/engine.py:437-442 | the vote lands in the bucket of the message's kind and its own round |
| `Engine.ConsensusEngine.CountVotes` | src/consensus/engine.py:452-454 | the count of each hash is the number of distinct validators in the bucket that voted for it |
| `Engine.ConsensusEngine.React` | src/consensus/engine.py:459-468 | each kind of quorum calls for its own steps, which open the continued record and are all of it unless they end with a vote or a round this validator leads, and has its own effects on the fields |
| `Engine.ConsensusEngine.OnPrevoteQuorum` | src/consensus/engine.py:470-489 | for the round's own block: takes the lock unless locked in a later round, whatever the present round, and in the present round at the prevote step casts the precommit, if none was cast, and holds it while at that height; otherwise nothing changes |
| `Engine.ConsensusEngine.OnPrevoteNilQuorum` | src/consensus/engine.py:491-495 | casts a precommit for NIL, held while at that height, exactly when the round is current, the step is prevote and none was cast; otherwise nothing changes |
| `Engine.ConsensusEngine.OnPrecommitQuorum` | src/consensus/engine.py:497-516 | for the hash of the locked block, in any round: the ledger goes on with that block, the height goes up and round 0 of the next height is entered; otherwise nothing changes |
| `Engine.ConsensusEngine.Conclude` | src/consensus/engine.py:506-516 | cancels the timer, appends the locked block, which stays, and opens the next height with a fresh timer, which is all when another validator leads its first round |
| `Engine.ConsensusEngine.ApplyBlock` | src/consensus/engine.py:510-511 | applying in place one by one gives what validation computes on a copy |
| `Engine.ConsensusEngine.OnPrecommitNilQuorum` | src/consensus/engine.py:518-522 | leaves the round exactly when it is the current one, and otherwise changes nothing |
| `Engine.ConsensusEngine.SubmitTx` | src/node.py:38-40 | the transaction goes to the end of the mempool |
| `Engine.ConsensusEngine.ResetMempool` | src/node.py:42-44 | the mempool is emptied and nothing else changes |
| `Engine.ConsensusEngine.OnBodyRequest` | src/consensus/engine.py:315-329 | answers the requester with the bodies held, of those asked for, in the order asked; the validator itself is unchanged |
| `Engine.ConsensusEngine.AbsorbBodies` | src/consensus/engine.py:334-345 | takes in exactly the verified bodies with new hashes, in order |
| `Engine.ConsensusEngine.Reassemble` | src/consensus/engine.py:351-358 | the parked header of any round is taken out whether or not complete, and yields its block, in the order of its hashes, exactly when every body is there |
| `Engine.ConsensusEngine.OnBodyResponse` | src/consensus/engine.py:331-359 | absorbs, then keeps and acts on the block of the parked header of that round if it is now complete; if not, nothing further changes but that the header is gone |
| `Engine.ConsensusEngine.Receive` | src/node.py:51-64 | each message opens its own steps in the record; a body request is answered; a vote is the only message that can add a vote |
| `Engine.ConsensusEngine.constructor` | src/consensus/engine.py:78-95 | an engine over a given ledger, store and mempool, at the height above the ledger, with an empty record and no timer |
| `Engine.ConsensusEngine.EnterRound` | src/consensus/engine.py:152-165 | for every n of two or more the cascade ends, in that round or a later one; the record continues with entering the round alone if another validator leads it, and with a proposal if this one does, which then also holds a prevote of its own there |
| `Engine.ConsensusEngine.Propose` | src/consensus/engine.py:169-212 | the record continues with the proposal, and the validator prevotes on its own block, if it has not prevoted, and holds that vote while at that height |
| `Engine.ConsensusEngine.Offer` | src/consensus/engine.py:193-211 | keeps a block under its round and sends it out: an honest engine with a valid block broadcasts the header and transaction hashes of that, and without one those of a block of its own |
| `Engine.ConsensusEngine.OfferTwo` | src/byzantine.py:97-138 | an equivocating engine builds two blocks that differ in their timestamp alone, shows each half of its peers one of them, and keeps the first |
| `Engine.ConsensusEngine.SendEachHalf` | src/byzantine.py:41-49 | each peer of one half is sent one message, each of the other half another, and nobody anything else |
| `Engine.ConsensusEngine.SignAndSend` | src/consensus/engine.py:397-420 | records, counts and sends out one vote, by broadcast or, when equivocating, two contradictory votes of which the first is kept; no foreign vote comes in |
| `Engine.ConsensusEngine.ShowVote` | src/byzantine.py:63-91 | an equivocating engine shows each half of its peers one of two contradictory votes; an honest one broadcasts one |
| `Engine.ConsensusEngine.HashesAtQuorum` | src/consensus/engine.py:447-458 | a hash is found at quorum if and only if at least a quorum of distinct validators in the bucket voted for it |
| `Engine.ConsensusEngine.Tally` | src/consensus/engine.py:447-468 | for every n: each hash at quorum when the tally starts is reacted to exactly once, in some order, each in the state the ones before have left; what each calls for follows in the record and has its effects, and nothing when there is none |
| `Engine.FewQuorums` | src/consensus/engine.py:447-468 | so a slot without a quorum changes nothing, and one with a single quorum leads to exactly what that calls for, whatever the order of counting |
| `Engine.LockedDecides` | src/consensus/engine.py:497-516 | with 2q > n: a precommit quorum for the locked block, in whatever round, appends it and advances the height |
| `Engine.ConsensusEngine.BroadcastProposals` | src/consensus/engine.py:169-211 | every proposal an honest engine has broadcast was made in some earlier state of its record: of the block it was locked on then, header and transactions, or if unlocked of a block of its own over its whole pool |
| `Engine.ConsensusEngine.FinalizeLocked` | src/consensus/engine.py:506-515 | the locked block is appended and applied, exactly its transactions leave the pool, the height advances by one, and a new state object takes over |
| `Engine.ConsensusEngine.Start` | src/consensus/engine.py:524-525 | from any ledger: the record opens with round 0, which is all when another validator leads it, and exactly one timer is live |
| `Engine.ConsensusEngine.OnProposal` | src/consensus/engine.py:278-313 | exactly when height, parent, proposer and signature of the header are right, whatever its round, it is parked with a request for exactly the missing bodies, or if none is missing its block is kept in the proposer's order; otherwise nothing changes and nothing is sent |
| `Engine.FetchedIsPrevoted` | src/consensus/engine.py:331-390 | a receiver that parked a fresh proposal and fetched what it lacked stores the proposer's block and prevotes for its hash, however both mempools changed between proposing, asking and answering |
| `Engine.DirectIsPrevoted` | src/consensus/engine.py:293-313 | a receiver that lacks no body of a fresh proposal stores the proposer's block, rebuilt from its own copies, and prevotes for its hash at once |
| `Gossip.PoolIsPool` | src/consensus/engine.py:293 | the pool holds the last transaction of each hash in the mempool, and only those |
| `Gossip.MissingIff` | src/consensus/engine.py:294 | what is asked for is exactly what is listed and not held |
| `Gossip.InOrder` | src/consensus/engine.py:294-324 | what is asked for and what is answered go through a list hash by hash, in its order |
| `Gossip.OneByOne` | src/consensus/engine.py:294-324 | a hash alone is asked for exactly when it is not held, and answered with its body exactly when it is |
| `Gossip.AbsorbKeeps` | src/consensus/engine.py:336-345 | the mempool only grows at its end, by verified bodies, none of them under a hash it held already, and afterwards knows every verified body delivered |
| `Gossip.Reassembled` | src/consensus/engine.py:307-313 | a header with its hashes, filled in from any mempool that covers them, gives the proposer's order and passes validation on the same chain |
| `Gossip.FetchCovers` | src/consensus/engine.py:315-345 | what a receiver kept and what it fetched cover the proposal |
| `Gossip.RoundTrip` | src/consensus/engine.py:179-213 | a fresh honest block sent as header and hashes, with the missing bodies fetched from its proposer, is rebuilt with the same hash and order and passes validation, however both mempools changed between proposing, asking and answering |
| `Replay.ReplayHandler` | src/consensus/engine.py:423-522 | whatever a handler did is a sequence of steps of the whole system, with the same votes signed |
| `Replay.RunProposals` | src/consensus/engine.py:172-191 | over every run: likewise, and the proposer keeps the block it announced for that round |
| `Simulation.Simulation.Begin` | src/node.py:66-70 | starting every engine leaves each with exactly one live round timer |
| `Simulation.Simulation.OneTimer` | src/consensus/engine.py:137-144 | in every state the runs keep to: of the events to come exactly one is a round timer of a validator that nobody cancelled, and its engine remembers it |
| `Simulation.Simulation.Expire` | src/consensus/engine.py:146-150 | a fired round timer advances its engine by one round first, and every engine has one live timer again |
| `Simulation.Simulation.Client` | src/node.py:38-44 | serving a client changes the mempool of one engine and nothing else |
| `Simulation.Simulation.Launch` | src/consensus/engine.py:524-525 | starting one engine opens its first round and leaves the others as they were |
| `Simulation.Simulation.Turn` | src/network/simulator.py:68-87 | one turn of the loop fires the earliest live event and its engine takes the steps it calls for |
| `Simulation.CatchUp` | src/consensus/engine.py:423-522 | the system takes the steps an honest engine has taken, and none for a faulty one |
| `Simulation.Simulation.constructor` | main.py:165-190 | for every n of two or more: all honest validators and any of the faulty ones, these equivocating, on one network and clock, none started |
| `Simulation.Simulation.PendingIsPermitted` | src/byzantine.py:8-11 | whatever vote is on the wire, from an honest engine or an equivocating one, the adversary could have sent |
| `Simulation.Simulation.Handle` | src/network/simulator.py:270-283 | delivering any message the adversary may send, under any signature, to any engine keeps the invariant, moves no other engine, and takes the steps the message calls for; a body request is answered |
| `Simulation.Simulation.Tick` | src/network/simulator.py:74-87 | what comes due is permitted; a round timer that fires is the one its engine remembers |
| `Simulation.Simulation.Run` | main.py:193-212 | at every point of every run of the engines themselves, honest and equivocating, with any loss, delay, duplication and interference the adversary is capable of: every engine has exactly one live round timer, for every n of two or more, and honest ledgers agree whenever 2q > n + b |
| `Byzantine.HalvesSplit` | src/byzantine.py:34-39 | every other validator is in exactly one half, once, and the halves differ in size by at most one |
| `Byzantine.HalvesReproducible` | src/byzantine.py:34-39 | the split depends on who the validators are, not on the order they are listed in |
| `Byzantine.OnlyTheFaultyEquivocate` | src/byzantine.py:53-58 | no run has an honest validator sign such a pair |
| `Byzantine.EitherBlockPasses` | src/byzantine.py:103-118 | the two blocks hold the whole pool and differ in a timestamp one later, so in their hashes, and a validator on that chain and round prevotes for whichever one it is shown |
| `Byzantine.ShownOne` | src/byzantine.py:41-49 | nobody is shown both of two contradictory messages, and the sender neither |
| `Byzantine.ShownToEach` | src/byzantine.py:41-49 | every other validator is sent one: those of the first half the first message, those of the second the second |
| `Byzantine.VotesShown` | src/byzantine.py:60-91 | the first half is shown the signed vote for what the validator believes, the second half the signed contradictory one |
| `Byzantine.ProposalsShown` | src/byzantine.py:120-134 | the first half is shown the first block, the second half the one a tick later |
| `Byzantine.EitherVotePasses` | src/byzantine.py:65-75 | the first vote is for what the validator believes, the second for another hash, not NIL; each alone is accepted at that height, and the second to arrive is refused |

## Left out

- Liveness and eventual finalization: they do not follow from this code, for the reasons under "Where the code and its own words differ".
- Ed25519, SHA-256 and canonical JSON: hashing, signing and verifying are parameters of every theorem.
- Logging, log files, address shortening, command line and scenario files: input and output only.
- Malformed payloads: a message that lacks a field or holds a value of the wrong type raises in the source; every message of the model is well formed.
- asyncio: handlers never yield during a simulated run, so they are ordinary methods.
- Random numbers and floating point: loss, duplication and the delay between its limits are arbitrary choices, times and timestamps are integers, and rounding to nine digits disappears.
- The binary heap of the clock: the queue is a set with its least element by (time, id) found by search.
- Crashed validators and validators with mismatched identities: the adversary may do all that the first do; the second fall outside the hypothesis that an honest validator signs with its own key.
- Clock resets and changes of network settings during a run: a reset starts a new timeline, and the settings are fixed for the life of a network.
- `decided` and the commit step between marking a height decided and replacing its state: no handler runs in between, so no step of the model sees them.
- Engine.ConsensusEngine.Start: for an engine that starts once, as the scenarios do; a second start in the middle of a height is not modelled.
- Engine.ConsensusEngine.EnterRound: requires at least two validators, because with one the recursion of the source does not end (`EndlessAlone`).
- Simulation.Simulation.Run: for n of 2, 3 and 6 the run of atomic steps behind the engines is not claimed, because there a reaction may come at a height its votes were not cast at (see above). The stop condition is an arbitrary choice, and a budget bounds the number of turns, so what is proved holds after every number of turns.
- Transport.WindowBound: for a fixed window and limit; the limiter is off when the limit is 0, as in the source.
- Safety.PrecommitBacked: names the f+1 honest validators among the 2f+1 that `PrecommitCounted` finds in the bucket, because faulty votes leave no trace in the log.
