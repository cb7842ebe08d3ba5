# Rabia, verified

This project models the server of Rabia, a state-machine-replication system, in Dafny 4.11 and proves what
its design promises: that the servers agree on every slot of the replicated log, that every client request is
decided in one slot at most and is not lost, that all servers apply the same commands in the same order and
give the same answers, and that the messages they exchange are read as they were written. Nothing here runs
the original program. `dafny verify dfyconfig.toml` checks the whole project.

## How the model is laid out

| file | what it models |
|---|---|
| `Messages.dfy`, `Quorums.dfy` | messages, request keys, the four thresholds |
| `SlotSpec.dfy` | one server's slot as a value, and what the handler and the executor do to it |
| `Cluster.dfy` | n servers deciding one slot: steps, runs, and the inductive invariant |
| `ClusterInv.dfy`, `Agreement.dfy` | every step keeps the invariant; agreement, validity, locking, how rounds and turns end, and the rest |
| `Slot.dfy`, `Ring.dfy`, `Pending.dfy`, `Consensus.dfy` | the objects of the server, updated in place, proved against the two files above |
| `Decisions.dfy` | what a server does with the Decisions of others, and after its own |
| `KvStore.dfy`, `Proxy.dfy`, `Redis.dfy`, `Batching.dfy` | batching, and execution with the dictionary and with MSET/MGET |
| `Replication.dfy`, `ReplicationInv.dfy`, `StateMachine.dfy` | all slots together: queues, Discard tables, stores |
| `EndToEnd.dfy` | from the requests that the receivers pack to the replies that clients get |
| `Varints.dfy`, `Wire.dfy`, `Codec.dfy`, `CodecLaws.dfy` | the wire format as functions, and its laws |
| `Marshalling.dfy`, `Unmarshalling.dfy`, `Framing.dfy` | the generated loops and the framing, proved against those functions |
| `WireExamples.dfy` | the wire format in literal bytes |
| `Truncation.dfy`, `BrokenLinks.dfy` | what the beginning of a message is parsed to, and what a link that breaks does to its reader |

**One slot.** A slot is decided by the Go code's own protocol, not by the textbook one: proposals are tallied
once and frozen at n - f, phase 0 votes 1 or ? and falls back to state 0 without a coin, a super-majority of
n/2 + f + 1 decides at once, f + 1 votes decide, a Decision message is adopted, and a server that decides 1
without holding a majority proposal asks for it. Rounds are numbered 0 (proposals), 2p + 1 (votes of phase p)
and 2p (states of phase p). A server is a slot, a place in the executor's control flow, and a number of coin
flips. What a server broadcasts is a log; every server, the sender too, has read a prefix of it. A server that
crashed takes no further step. The handler's turn and each stretch of the executor between two waits are atomic
steps. The coin is an uninterpreted sequence of bits, the same for every slot and server. A phase beyond the
slot's arrays is a crash, as the Go index panic is. Phases are otherwise unbounded in the theorems.

**Assumptions.** Of the theorems about runs: 2f < n; links deliver prefixes of what was sent, in order, without
duplication; the message of a slot is accepted only within `LenLedger` of the oldest slot that the proxy has
not consumed (the source documents the races outside of it and excludes them by the same argument); a proxy
does not issue two objects under one key. Nothing is assumed of what an issued object holds: a decision that
cannot be executed stops the servers that reach it (`StateMachine.UnexecutableStops`). The methods do not assume
the window, nor that a message has its object, nor that requests and decisions have enough commands or well
formed ones: they say exactly when the ring stops representing the log, and exactly when the server panics. That
a server broadcasts one message per round, that the messages broadcast are ones that a handler can take, and that
the objects travelling under one key are equal, are theorems.

**Objects and functions.** Each method of the classes is specified by a function on values (`SlotSpec.Handle`,
`Cluster.AfterWait`, `Pending.AfterEpilogue`, `Codec.Parse`, ...), and the theorems are about those functions. What
those functions say is tied down without them: by counts of servers against n and f (`Agreement.RoundsEnd`,
`SlotSpec.ReplyExact`), by what a run shows (`Decisions.FirstDecisionWins`, `Agreement.OtherTurns`,
`EndToEnd.RepliedOnce`), and by literal bytes (`Redis.ReadBack`, `WireExamples`).
So `Consensus.Round`, `Wait`, `Adopt`, `GetRequest` and `BinConMsgHandling` are the steps Proceed, Pop, Adopt
with Finish, Start and Deliver of the cluster, on the logical slot that the ring ledger holds. Where the source
panics, a method returns that it did (`ok` is false).

**Where the code does not give what one would expect.** Each of these has an exact statement, and an input that
shows it where it is not one itself:
- MSET/MGET execution is not sequential execution: `Redis.SameAnswer` says exactly when a reply is the same, and
  `Redis.BatchIsNotSequential` is an example. The replies to reads also echo the operation byte. Servers stay
  replicas of each other all the same (`StateMachine.Replicated` is about both modes).
- `BufRead` drops the error of its second read, so what came of a message before its connection broke may be
  handed on as a message. `Framing.CutStream` says after which bytes: the length, the type, the phase, and the
  value. It arrives without its object, and the handler of a server that reads it panics unless it is what came
  of a ProposalRequest (`BrokenLinks.BrokenLink`); `BrokenLinks.CutVote` is such a Vote. The part of a client's
  request that came may be accepted too, always with too few commands (`BrokenLinks.CutRequest`, `CutBatch`). The
  comment on `BufRead` says that it reports such failures; the model follows the code. The cluster's assumption
  about links is thus stronger than what the framing guarantees.
- A decided batch cannot always be executed: `Batching.BatchExecutable` says exactly when it can. A request whose
  number of commands is not `ClientBatchSize` shifts the commands of the requests after it
  (`Batching.BatchRoundTrip` is exact). If one has fewer and none has more, every server that executes the batch
  panics (`Batching.ShortBatch`, with the example `Batching.ShortRequest`; for a request that was cut,
  `BrokenLinks.CutBatch`), and no server ever gets past its slot (`EndToEnd.ShortRequestStops`).
- Recycling a ring position loses an unread slot exactly when it is done for a slot `LenLedger` or more ahead of
  the proxy (`Ring.Recycle`, `Ring.RingLedger.UpdateTermIfNecessary`; `Ring.FirstSlotLost` is an example).
- Message lengths are cut to 32 bits, and a reader panics on one beyond its buffer (`Framing.FrameRoundTrip`);
  proxy sequence numbers repeat after 2^32 objects (`Batching.BatchesHaveKeys`).
- Packed numbers are read up to the end of the message, not of the packed field: `Wire.PackedStaysInside` says
  exactly when the parser stays inside the field, and `CodecLaws.PackedOverrun` is an input where it does not.
- The super-majority branch cannot be taken when n < 4f + 1 (`Quorums.Config.CalcConstants`); the theorems hold
  either way.

## Model

| member | source | states |
|---|---|---|
| `Agreement.AgreementHolds` | roles/server/layers/consensus/executor.go:176-384 | at any two moments of any run, two servers that are done with a slot hold decisions with the same null flag and the same key, whichever of the five decision paths each took |
| `Agreement.AgreementOnObjects` | roles/server/layers/consensus/executor.go:176-384 | in every reachable state they hold the same whole object, when objects proposed under one key are equal |
| `Agreement.ValidityHolds` | roles/server/layers/consensus/executor.go:350-384 | a decision is the null object of the slot, or an object that at least n/2 + 1 distinct servers proposed for it, one of them in exactly this form |
| `Agreement.RepliesValid` | roles/server/layers/consensus/msgHandler.go:40-57 | so is every object sent in a ProposalReply |
| `Agreement.MajorityProposalUnique` | internal/ledger/ledger.go:158-176 | two servers that count a majority of proposals count it for the same key |
| `Agreement.EarlierDecisionWins` | roles/server/layers/consensus/executor.go:228-345 | rounds that decide, at any servers and in any phases, decide the same bit |
| `Agreement.LockingHolds` | roles/server/layers/consensus/executor.go:228-345 | once a server's own round of phase p decides b, every State of phase p + 1 is b, and nobody ever sends a State of a later phase |
| `Agreement.DecidedSpread` | roles/server/layers/consensus/executor.go:228-345 | the same by rounds, with the rounds after it that can decide at all |
| `Agreement.NoConflictingVotes` | roles/server/layers/consensus/executor.go:292-310 | two servers never vote for different bits in one phase |
| `Agreement.CountersAreSenderSets` | internal/ledger/ledger.go:142-229 | a counter of a round is the number of distinct servers whose counted message has the value, and a round counts n - f messages at most |
| `Agreement.Overlap` | internal/config/config.go:153-157 | a full round hears all but f of the servers that any other server counted for a value |
| `Agreement.MajoritiesMeet` | internal/config/config.go:153-157 | two majorities of a round are for the same value |
| `Agreement.FullRoundsFrozen` | roles/server/layers/consensus/msgHandler.go:82-111 | once n - f messages of a round are counted, no later step changes its tallies, its verdict, or the answer to a ProposalRequest |
| `Agreement.NotificationOrder` | roles/server/layers/consensus/executor.go:176-215 | the queue holds the notices of consecutive rounds from the one waited for; a received Decision is still in it; no "should not happen" panic of wait is reachable |
| `Agreement.ProposalsArePresent` | roles/server/layers/consensus/executor.go:228-384 | when the executor goes on its round is full and within its arrays, and a proposal is there to be looked at |
| `Agreement.SentIsHandled` | roles/server/layers/consensus/msgHandler.go:29-66 | every message broadcast in a run has a type that the handler knows, the object that it looks at, and a counter in the slot; it is about this slot; and only ProposalRequests have no object |
| `Agreement.UnanimousFastPath` | roles/server/layers/consensus/executor.go:228-276 | if all proposals name one object, nobody enters phase 1, nobody decides null or asks for the object, a full round of phase-0 votes decides 1, and a server that froze its proposals returns that object for it |
| `Agreement.UnanimousTurn` | roles/server/layers/consensus/executor.go:256-276 | so the turn of a server after its phase-0 votes ends in deciding that object, and in broadcasting the decision |
| `Agreement.CoinIsCommon` | roles/server/layers/consensus/consensus.go:324-330 | two servers at the coin of one phase take the same flip of the generator |
| `Agreement.CoinConverges` | roles/server/layers/consensus/executor.go:327-345 | if the coin of phase p equals every vote of phase p that is not ?, every server that completes phase p + 1 decides it |
| `Agreement.RoundsEnd` | roles/server/layers/consensus/executor.go:256-345 | a full round of states decides b iff n/2 + f + 1 servers sent b, and is followed by a vote for b iff n/2 + 1 but fewer did; a full round of votes decides b iff f + 1 servers voted for it, fewer but one make the next state b, and without any it is 0 after phase 0 and the flip of the phase later |
| `Agreement.ProposalsRoundEnds` | roles/server/layers/consensus/executor.go:228-243 | a full round of proposals decides 1 iff n/2 + f + 1 servers proposed one object, and else is followed by a vote for 1 iff n/2 + 1 did, by ? otherwise |
| `Agreement.MajorityTurn` | roles/server/layers/consensus/executor.go:370-384 | a server that counted a majority for an object ends every turn that decides 1 with that object, and broadcasts it |
| `Agreement.OtherTurns` | roles/server/layers/consensus/executor.go:107-345 | a turn that decides 0 ends with the null object, one that decides 1 without a majority asks, and one that decides nothing sends the vote or the next state, in literal messages |
| `Agreement.AskingHasNoMajority` | roles/server/layers/consensus/executor.go:370-384 | a server that asks counted no n/2 + 1 proposals for any object |
| `Agreement.RepliesWereAskedFor` | roles/server/layers/consensus/msgHandler.go:40-57 | every reply of a run goes to a server that broadcast a ProposalRequest for the slot |
| `Decisions.ReadDecisionsAreNoted` | roles/server/layers/consensus/msgHandler.go:112-117 | in every reachable state, a server that read a Decision is done or has noted one |
| `Decisions.FirstDecisionWins` | roles/server/layers/consensus/msgHandler.go:112-117 | when an open server reads its first Decision, wait ends with the object of that Decision whenever the server waits again, at any later moment of the run |
| `Decisions.NotedDecisionEndsWait` | roles/server/layers/consensus/executor.go:176-215 | a waiting server of a run that noted a Decision ends its wait with the first one in its queue |
| `Decisions.WaitDecides` | roles/server/layers/consensus/executor.go:176-215 | wait skips the notices before the first Decision and decides its object |
| `Decisions.PopExact` | roles/server/layers/consensus/executor.go:183-211 | the executor goes on iff the message is the notice of its own round and no Decision was received; it panics iff it is another notice then, or a Decision for a slot that is done |
| `Decisions.DoneIsFrozen` | roles/server/layers/consensus/msgHandler.go:79-81 | along a run, a server that is done with a slot never changes it again |
| `ClusterInv.StepKeeps` | roles/server/layers/consensus/executor.go:35-102 | every step of a handler or an executor keeps the invariant, and undoes nothing |
| `ClusterInv.PopNeverPanics` | roles/server/layers/consensus/executor.go:183-211 | what is popped in a state of the invariant is never a message that panics |
| `ClusterInv.RunExtends` | roles/server/layers/consensus/msgHandler.go:70-120 | along a run logs grow, full rounds and decisions stay |
| `ClusterInv.ReachableInv` | roles/server/layers/consensus/executor.go:35-102 | the invariant holds in every reachable state of any number of phases |
| `SlotSpec.BestKeyIsMajority` | internal/ledger/ledger.go:158-176 | the majority key has the greatest tally, the least key among equals |
| `SlotSpec.MajorityOrderIndependent` | internal/ledger/ledger.go:142-176 | the majority value's key and its tally depend only on how often each key was received |
| `SlotSpec.MajorityExact` | internal/ledger/ledger.go:142-176 | of the keys with the greatest tally the majority key has the smallest sequence number, then the smallest proxy id, and the majority object is the first received under it |
| `SlotSpec.BitMajorityExact` | internal/ledger/ledger.go:198-216 | the majority bit is 1 unless more zeros were counted, and its tally is the greater one |
| `SlotSpec.ReplyExact` | roles/server/layers/consensus/msgHandler.go:51-57 | a ProposalRequest is answered iff n - f proposals are counted and n/2 + 1 of them are for one object, with such an object as it was proposed, stamped with the slot |
| `SlotSpec.ReturnExact` | roles/server/layers/consensus/executor.go:370-384 | bit 0 returns null; bit 1 returns an object iff n/2 + 1 of the counted proposals are for one, and then that one |
| `Quorums.Config.CalcConstants` | internal/config/config.go:153-157 | the thresholds, with the intersections that safety rests on; the super-majority is reachable iff n >= 4f + 1 |
| `Messages.GetIdSeqIdentifies` | internal/message/message.go:89-98 | the printed id of an object identifies it exactly when ProxySeqIdEqual does |
| `Ledger.Slot.constructor` | internal/ledger/ledger.go:62-101 | a new slot is fresh and has term 0 |
| `Ledger.Slot.Reset` | internal/ledger/ledger.go:110-123 | every field but Term gets its initial value |
| `Ledger.Slot.IncrPhaseDecrRound` | internal/ledger/ledger.go:126-129 | the phase grows and the round shrinks by one, nothing else changes |
| `Ledger.Slot.SetMyProposal` | internal/ledger/ledger.go:132-134 | the proposal is replaced, nothing else |
| `Ledger.Slot.GetMyProposal` | internal/ledger/ledger.go:137-139 | the proposal that was set |
| `Ledger.Slot.PutRecvProposals` | internal/ledger/ledger.go:142-152 | the tallies keep distinct keys, count how often each was received, keep the first object of each, and the round total grows by one |
| `Ledger.Slot.SortRecvProposals` | internal/ledger/ledger.go:158-164 | the tallies are sorted by the comparator and are a permutation of what they were |
| `Ledger.Slot.RecvProposalsMajV` | internal/ledger/ledger.go:167-170 | the object of the majority key |
| `Ledger.Slot.RecvProposalsMajT` | internal/ledger/ledger.go:173-176 | the number of times it was received |
| `Ledger.Slot.SetMyBCMsgs` | internal/ledger/ledger.go:179-181 | my value of one round is replaced, nothing else |
| `Ledger.Slot.GetMyBCMsgs` | internal/ledger/ledger.go:184-186 | my value of the round |
| `Ledger.Slot.PutRecvBCMsgs` | internal/ledger/ledger.go:189-192 | one counter and the total of one round grow by one |
| `Ledger.Slot.RecvBCMsgsMajV` | internal/ledger/ledger.go:198-204 | the bit that occurs more often, 1 when they tie |
| `Ledger.Slot.RecvBCMsgsMajT` | internal/ledger/ledger.go:210-216 | how often it occurs |
| `Ledger.Slot.HasEnoughMsg` | internal/ledger/ledger.go:227-229 | n - f messages of the round were counted |
| `Ledger.FirstIsMajority` | internal/ledger/ledger.go:158-176 | the first of the sorted tallies is the majority value with its tally |
| `Ring.RingLedger.UpdateTermIfNecessary` | roles/server/layers/consensus/consensus.go:214-235 | true exactly at the term of the position or one ahead, and only one ahead resets it; the log stays represented exactly when that was within the window, where a reset hits only a consumed slot and false means that the slot was consumed; the panic is never reached for the next slot |
| `Ring.RingLedger.IsTermMatched` | roles/server/layers/consensus/consensus.go:253-260 | the position holds the logical slot |
| `Ring.RingLedger.UnreadSlotsAreHeld` | roles/server/layers/consensus/consensus.go:240-247 | the slots between the proxy and the executor are at their terms, so the term panics are unreachable |
| `Ring.RingLedger.constructor` | internal/ledger/ledger.go:103-123 | the ring of fresh slots represents the empty log |
| `Ring.Recycle` | roles/server/layers/consensus/consensus.go:219-227 | recycling a position for the next term keeps the unbounded log represented iff the slot is within the window |
| `Ring.Update` | internal/ledger/ledger.go:62-101 | changing the held slot changes that logical slot only |
| `Ring.WindowTerms` | roles/server/layers/consensus/consensus.go:214-235 | within the window a position is at most one term behind, and ahead only after its slot was consumed |
| `Ring.BeyondWindow` | roles/server/layers/consensus/consensus.go:214-235 | beyond the window a position is always at an earlier term |
| `Ring.FirstSlotLost` | roles/server/layers/consensus/consensus.go:214-235 | touching slot LenLedger of an empty ring loses slot 0 |
| `Pending.PQueue.Push` | roles/server/layers/consensus/consensus.go:265-269 | the object is added to the pending requests |
| `Pending.PQueue.Pop` | roles/server/layers/consensus/consensus.go:274-282 | if any request is pending, one with the smallest sequence number is removed, and of those the one with the smallest proxy id |
| `Pending.LeastIsOldest` | internal/message/message.go:96-105 | what no other request precedes is exactly that |
| `ConsensusLayer.Consensus.constructor` | roles/server/layers/consensus/consensus.go:164-202 | no slot started, no request pending, no key marked |
| `ConsensusLayer.Consensus.GenProposalMsg` | roles/server/layers/consensus/executor.go:107-114 | my proposal, stamped with the slot |
| `ConsensusLayer.Consensus.GenBinConMsg` | roles/server/layers/consensus/executor.go:119-133 | my State or Vote of the round the slot is in |
| `ConsensusLayer.Consensus.GenDecMsgType1` | roles/server/layers/consensus/executor.go:138-145 | a Decision for the majority proposal |
| `ConsensusLayer.Consensus.GenDecMsgType2` | roles/server/layers/consensus/executor.go:151-155 | a Decision for a given object |
| `ConsensusLayer.Consensus.GenProposalReply` | roles/server/layers/consensus/executor.go:163-170 | a reply with the majority proposal, for one server |
| `ConsensusLayer.Consensus.WaitInSlot` | roles/server/layers/consensus/executor.go:176-215 | the result of popping until the executor may go on, the slot is decided, or the queue is empty |
| `ConsensusLayer.WaitIsPops` | roles/server/layers/consensus/executor.go:176-215 | which is that of a number of Pop steps of the cluster |
| `ConsensusLayer.Consensus.Phase0Round1BeforeWait` | roles/server/layers/consensus/executor.go:220-223 | sends the Proposal |
| `ConsensusLayer.Consensus.Phase0Round1AfterWait` | roles/server/layers/consensus/executor.go:228-243 | what the cluster's step says of round 0: decide, vote 1, or vote ? |
| `ConsensusLayer.Consensus.Phase0Round2BeforeWait` | roles/server/layers/consensus/executor.go:248-251 | sends the Vote of phase 0 |
| `ConsensusLayer.Consensus.Phase0Round2AfterWait` | roles/server/layers/consensus/executor.go:256-276 | what the cluster's step says of the first votes, which end without a coin |
| `ConsensusLayer.Consensus.PhaseNRound1BeforeWait` | roles/server/layers/consensus/executor.go:281-287 | sends the State of the phase |
| `ConsensusLayer.Consensus.PhaseNRound1AfterWait` | roles/server/layers/consensus/executor.go:292-310 | what the cluster's step says of states |
| `ConsensusLayer.Consensus.PhaseNRound2BeforeWait` | roles/server/layers/consensus/executor.go:315-322 | sends the Vote of the phase |
| `ConsensusLayer.Consensus.PhaseNRound2AfterWait` | roles/server/layers/consensus/executor.go:327-345 | what the cluster's step says of votes, with one flip whether it is used or not |
| `ConsensusLayer.Consensus.FindReturnValue` | roles/server/layers/consensus/executor.go:370-384 | null for bit 0, the majority proposal for bit 1 if there is a majority, else a ProposalRequest is sent |
| `ConsensusLayer.Consensus.AwaitReply` | roles/server/layers/consensus/executor.go:350-365 | the object of the first reply for this slot is returned and what follows it is kept; with older replies only, nothing is; a reply without an object is a panic |
| `ConsensusLayer.FirstReply` | roles/server/layers/consensus/executor.go:354-364 | the first reply for the slot is what is taken, when only older ones are before it |
| `ConsensusLayer.SkipsOnlyStale` | roles/server/layers/consensus/executor.go:359-361 | only replies for earlier slots are skipped, and all of them at the front |
| `ConsensusLayer.SomeFirst` | roles/server/layers/consensus/executor.go:354-364 | when replies are never ahead of the slot and one is for it, there is a first one for it |
| `ConsensusLayer.Consensus.ReplyReaches` | roles/server/layers/consensus/msgHandler.go:40-57 | the reply to a server's request for a slot goes to that server, is for that slot, and has an object with a majority; there is one exactly when the position is at the slot and there is such an object |
| `ConsensusLayer.Consensus.Epilogue` | roles/server/layers/consensus/executor.go:419-513 | the slot is done with the decision; my proposal is put back unless it was decided; another's decided object is marked; the slot counts as null, normal or unmatched |
| `ConsensusLayer.Consensus.PutBackMyProposal` | roles/server/layers/consensus/executor.go:518-523 | my proposal is pending again |
| `ConsensusLayer.Consensus.Round` | roles/server/layers/consensus/executor.go:49-93 | a turn of the main loop changes one logical slot as the cluster's Proceed step does, with the outgoing messages, the flips and the requests |
| `ConsensusLayer.Consensus.Wait` | roles/server/layers/consensus/executor.go:176-215 | the same for wait |
| `ConsensusLayer.Consensus.Adopt` | roles/server/layers/consensus/executor.go:350-365 | the same for the rest of a requested decision; with a first reply for the slot that has an object, the slot is done with that object |
| `ConsensusLayer.Consensus.GetRequest` | roles/server/layers/consensus/executor.go:396-414 | the least request is popped: a marked one is dropped with its mark, any other one starts the next logical slot with the coin reset; the ring still represents the log exactly when that slot is within the window |
| `ConsensusLayer.Consensus.HandleInSlot` | roles/server/layers/consensus/msgHandler.go:79-119 | counting, freezing at n - f, and notifying, as SlotSpec.Handle says, but for a panic exactly when an open slot has no counter for the message |
| `ConsensusLayer.Consensus.BinConMsgHandling` | roles/server/layers/consensus/msgHandler.go:70-120 | a message within the window changes the logical slot it names and no other, and dropping one of an older term changes nothing that matters; beyond the window it is dropped or an unread slot is lost; it panics exactly when the object or the counter is missing |
| `ConsensusLayer.Consensus.MsgHandler` | roles/server/layers/consensus/msgHandler.go:29-66 | one turn of the handler: a request is queued, any other message does what the functions beside this one say to its logical slot; no message that Agreement.SentIsHandled describes makes it panic; one without its object or of an unknown type does; a ProposalRequest is answered as ProposalRequestHandling says, and nothing else is sent |
| `ConsensusLayer.Consensus.ProposalRequestHandling` | roles/server/layers/consensus/msgHandler.go:40-57 | a reply is sent exactly when the slot is held, full of proposals, and they have a majority |
| `ConsensusLayer.Consensus.CommonCoinFlip` | roles/server/layers/consensus/consensus.go:324-326 | the next bit of the generator |
| `ConsensusLayer.Consensus.ResetCommonCoin` | roles/server/layers/consensus/consensus.go:328-330 | the generator starts over |
| `ConsensusLayer.MarkKey` | roles/server/layers/consensus/executor.go:397-399 | the table of printed ids is as good as a set of keys |
| `StateMachine.ExactlyOnce` | roles/server/layers/consensus/executor.go:396-445 | no request is the decision of two slots, at whichever servers one looks |
| `StateMachine.RequestsAccountedFor` | roles/server/layers/consensus/executor.go:396-445 | an undecided request that arrived has one copy, queued or being proposed; a decided one is marked exactly while its copy is still to be popped or to arrive |
| `StateMachine.OnlyRequestsAreQueued` | roles/server/layers/consensus/executor.go:518-523 | only issued objects are queued or proposed |
| `StateMachine.DecisionsAreIssued` | roles/server/layers/consensus/executor.go:419-445 | a non-null decision is an issued object stamped with its slot, and the next decision can be executed iff it is null or that object can be executed |
| `StateMachine.UnexecutableStops` | roles/server/layers/proxy/proxy.go:199-228 | a decision that cannot be executed is executed by no server, at no moment of the history, and neither is a later one |
| `StateMachine.BeginStartsAFreshSlot` | roles/server/layers/consensus/executor.go:396-414 | a server takes an unmarked request only into a slot it did not start before |
| `StateMachine.RepliesAreForThisSlot` | roles/server/layers/consensus/executor.go:354-364 | the reply that is not older than the slot is for that slot |
| `StateMachine.LogsAgree` | roles/server/layers/consensus/executor.go:419-424 | at any two moments of a history the decisions of two servers agree slot by slot, as whole objects |
| `StateMachine.StoreIsReplay` | roles/server/layers/proxy/proxy.go:199-271 | in both storage modes, a store is what the commands of decisions 0 to CurrSeq - 1, in slot order, make of an empty store, and the answers of each slot are those of the mode on the store before it; with the dictionary all answers are those of one-at-a-time execution |
| `StateMachine.Replicated` | roles/server/layers/proxy/proxy.go:199-271 | in both storage modes, two servers at equal CurrSeq, at any two moments, have equal stores and gave equal answers |
| `EndToEnd.SentIsPacked` | roles/server/layers/proxy/proxy.go:157-192 | what a receiver sends, up to its 2^32-th object, is an object made of the batch of requests that it is numbered with |
| `EndToEnd.ReceivedOnceIsUnique` | roles/server/layers/proxy/proxy.go:157-192 | if no request is received twice, none is in two batches or twice in one |
| `EndToEnd.AnsweredOnce` | roles/server/layers/consensus/executor.go:419-445 | then no request is in the decisions of two slots, or twice in one, at whichever servers one looks |
| `EndToEnd.RepliedOnce` | roles/client/client.go:244-251 | so among all replies that a server sends for the slots it executes, no two are to one client with one sequence number, and "already received" is not reached |
| `EndToEnd.RepliedOwnAnswers` | roles/server/layers/proxy/proxy.go:233-255 | every reply to a batch of whole requests is for one of them, and has what its own commands are answered after the commands of the earlier slots and of the earlier requests of its slot (with MSET/MGET, after all commands of its slot) |
| `EndToEnd.ShortRequestStops` | roles/server/layers/proxy/proxy.go:199-271 | when a batch with a request that is too short, and none too long, is decided for a slot, no server ever gets past that slot |
| `ReplicationInv.ActKeeps` | roles/server/layers/consensus/executor.go:35-102 | every action of a proxy, an executor or a handler keeps the invariant over all slots |
| `ReplicationInv.NotDecidedBefore` | roles/server/layers/consensus/executor.go:419-445 | a decision about to be made for a slot was made at that server for no earlier slot |
| `ReplicationInv.PoppedIsUndecided` | roles/server/layers/consensus/executor.go:397-403 | an unmarked request that is popped was not decided and has no other copy |
| `KvStore.RunAppend` | roles/server/layers/proxy/proxy.go:233-245 | executing two lists one after the other is executing their concatenation |
| `ProxyLayer.Proxy.NaiveExecuteCmd` | roles/server/layers/proxy/proxy.go:260-271 | a write sets its key and is acknowledged, anything else reads its key; a command shorter than its operation byte and key is a panic |
| `ProxyLayer.Proxy.SingleExecuteAndReply` | roles/server/layers/proxy/proxy.go:233-245 | the commands are executed in order and every connected client gets the answers to its own request; a panic iff a command is missing or malformed, or a connected client's sequence number is missing |
| `ProxyLayer.Proxy.KVSExecutor` | roles/server/layers/proxy/proxy.go:199-228 | the next logical slot is executed iff it is decided and can be executed and answered, in the storage mode, its clients are answered, and then it is given back to the ring; a decided one that cannot is a panic |
| `ProxyLayer.Proxy.RedisBatchExecuteCmd` | roles/server/layers/proxy/redis.go:59-134 | the store is that of sequential execution, and the reply at every position is the acknowledgement of its write or the final value of its key; a panic iff a command is missing or malformed, or the writes or the reads overflow their buffer |
| `ProxyLayer.Proxy.Scatter` | roles/server/layers/proxy/redis.go:103-132 | the two cursors put the m-th MGET answer at the m-th read and never leave the table |
| `ProxyLayer.Proxy.Collect` | roles/server/layers/proxy/redis.go:60-90 | the writes as pairs, the keys of the reads, and acknowledgements; it stays within the commands and the buffers iff the batch can be executed |
| `ProxyLayer.Proxy.BatchExecuteAndReply` | roles/server/layers/proxy/proxy.go:247-255 | every connected client gets the replies to its own request; a panic iff that cannot be executed or a sequence number is missing |
| `ProxyLayer.Proxy.ExecuteAndReply` | roles/server/layers/proxy/proxy.go:99-111 | in either mode the data is that of sequential execution, and every connected client gets its row of the answers of that mode; a panic iff the decision is not executable or not answerable |
| `ProxyLayer.ReplyOf` | roles/server/layers/proxy/proxy.go:239-243 | every reply is the row of one request of a connected client, with the client's number and the slot |
| `ProxyLayer.ReplyIn` | roles/server/layers/proxy/proxy.go:239-243 | and every request of a connected client has its reply |
| `ProxyLayer.RepliesInOrder` | roles/server/layers/proxy/proxy.go:234-243 | the replies are one for each request of a connected client, in the order of the requests |
| `ProxyLayer.RepliesCount` | roles/server/layers/proxy/proxy.go:234-243 | there are as many as there are requests of connected clients |
| `Redis.SameStore` | roles/server/layers/proxy/redis.go:95-100 | MSET leaves the store of one-at-a-time execution |
| `Redis.WritesThenReads` | roles/server/layers/proxy/redis.go:96-129 | the replies are those of all writes in order and then all reads in order, but for the operation byte |
| `Redis.SameAnswer` | roles/server/layers/proxy/redis.go:59-134 | a reply is that of one-at-a-time execution iff the command is a write, or a '1' read whose key no later write of the batch leaves with another value |
| `Redis.SameAnswers` | roles/server/layers/proxy/redis.go:59-134 | all replies are, iff that holds of every command |
| `Redis.NoReadBeforeWrite` | docs/run-rabia.md:224-228 | they are when no key is read before a later write to it |
| `Redis.BatchIsNotSequential` | docs/run-rabia.md:224-228 | the two modes differ on a read followed by a write of its key |
| `Redis.ReadBack` | roles/server/layers/proxy/proxy.go:260-271 | after the bytes '0', key, value, and no later write of the key, the bytes '1', key are answered '1', key, value, in either mode, in the same batch or a later one; the write is answered '0', key, "ok" |
| `Redis.ReadMissing` | roles/server/layers/proxy/proxy.go:268-270 | a key never written is answered '1', key |
| `KvStore.BufferLimits` | roles/server/layers/proxy/redis.go:61-62 | a batch of writes only, or of reads only, fits the buffers iff it has at most ProxyBatchSize times ClientBatchSize commands |
| `Batching.CmdReceiver.OnCommand` | roles/server/layers/proxy/proxy.go:157-178 | the batches sent and the buffers hold the requests received, in order; a full batch is sent; it panics exactly when the commands do not fit the buffer |
| `Batching.CmdReceiver.OnTick` | roles/server/layers/proxy/proxy.go:180-192 | what is buffered is sent, if anything is |
| `Batching.CmdReceiver.constructor` | roles/server/layers/proxy/proxy.go:142-147 | empty buffers, and sequence numbers from 0 |
| `Batching.BatchRoundTrip` | roles/server/layers/proxy/proxy.go:233-236 | taking an object apart by ClientBatchSize gives each client's id, sequence number and commands back iff every request has ClientBatchSize commands |
| `Batching.BatchExecutable` | roles/server/layers/proxy/proxy.go:233-271 | a packed object can be executed iff its requests together have a well-formed command for each of the ClientBatchSize commands that each is taken to have |
| `Batching.PayloadExact` | roles/server/layers/proxy/proxy.go:143-185 | a full batch has ProxyBatchSize times ClientBatchSize commands, empty ones at the end, any other the commands of its requests |
| `Batching.ShortBatch` | roles/server/layers/proxy/proxy.go:233-271 | it cannot when a request has fewer commands and none has more |
| `Batching.ShortRequest` | roles/server/layers/proxy/proxy.go:157-178 | a request with one command of two is given a command of the next request, which is left with an empty command, on which execution panics |
| `Batching.BatchIsOk` | roles/server/layers/proxy/proxy.go:233-236 | an object of whole, well-formed requests can be executed, and what is executed is their commands |
| `Batching.BatchesHaveKeys` | roles/server/layers/proxy/proxy.go:165-177 | two objects of a proxy share a key iff their numbers differ by a multiple of 2^32 |
| `Varints.SovIsSize` | internal/message/message.pb.go:922-924 | the size formula gives the number of bytes printed |
| `Varints.EncodeVarint` | internal/message/message.pb.go:698-708 | the varint is written just before the offset, and nothing else is touched |
| `Varints.ReadVarint` | internal/message/message.pb.go:984-997 | at most ten bytes are read, in bounds; the value keeps the bits of the variable |
| `Varints.VarintRoundTrip` | internal/message/message.pb.go:698-708 | every number is read back, whatever surrounds it |
| `Codec.Concatenation` | internal/message/message.pb.go:1428-1570 | parsing a and then b is parsing b into what a was parsed to |
| `Codec.ParseOn` | internal/message/message.pb.go:978-1115 | bytes after a parsed part do not change how it is parsed |
| `CodecLaws.CommandMerge` | internal/message/message.pb.go:978-1115 | parsing a printed Command into another merges them: the last non-zero number, all strings |
| `CodecLaws.ObjMerge` | internal/message/message.pb.go:1117-1426 | the same for a ConsensusObj |
| `CodecLaws.MsgMerge` | internal/message/message.pb.go:1428-1570 | the same for a Msg, with the nested object merged into the one that is there |
| `CodecLaws.MsgsConcatenated` | internal/message/message.pb.go:648-696 | the bytes of two Msgs are read as their merge |
| `CodecLaws.CommandRoundTrip` | internal/message/message.pb.go:523-553 | every Command is read back |
| `CodecLaws.ObjRoundTrip` | internal/message/message.pb.go:570-646 | every ConsensusObj is read back |
| `CodecLaws.MsgRoundTrip` | internal/message/message.pb.go:663-696 | every Msg is read back, with or without an object, with a negative type too |
| `CodecLaws.MsgType` | internal/message/message.pb.go:690-694 | a negative type takes ten bytes and is read back |
| `CodecLaws.UnknownFieldsIgnored` | internal/message/message.pb.go:1550-1563 | an unknown field between two parts of the input makes no difference |
| `CodecLaws.ParseCovers` | internal/message/message.pb.go:1566-1569 | a parse that succeeds takes the whole input field by field: each field starts where the one before it ended, and turns the message before it into the one after it |
| `CodecLaws.FieldsParse` | internal/message/message.pb.go:1428-1570 | every sequence of such fields that fills the input is a parse that succeeds, with the message that the last one leaves |
| `Wire.NumbersEnd` | internal/message/message.pb.go:1278-1294 | packed numbers are read up to the first number that ends at the end of the field or after it |
| `Wire.PackedStaysInside` | internal/message/message.pb.go:1241-1295 | the parser stays inside a packed field iff the field is empty or its last byte ends a number |
| `CodecLaws.PackedOverrun` | internal/message/message.pb.go:1278-1294 | a field of one byte that is read together with the tag after it |
| `WireExamples.VarintBytes` | internal/message/message.pb.go:698-708 | seven bits a byte, the lowest first |
| `WireExamples.CommandBytes` | internal/message/message.proto:114-119 | every field of a Command in literal bytes |
| `WireExamples.ObjBytes` | internal/message/message.proto:147-155 | every field of a ConsensusObj in literal bytes, the numbers packed |
| `WireExamples.TypeBytes` | internal/message/message.proto:172-180 | the number of every message type, as printed |
| `WireExamples.UnknownForms` | internal/message/message.pb.go:1571-1648 | a number, eight bytes, bytes with a length, and four bytes under an unknown number are unknown fields |
| `WireExamples.GroupBytes` | internal/message/message.pb.go:1571-1648 | a group is skipped with the groups and fields in it |
| `WireExamples.WideNumbers` | internal/message/message.pb.go:1428-1570 | a number is cut to the width of its variable, with its sign |
| `WireExamples.RefusedTags` | internal/message/message.pb.go:1449-1461 | wrong wire types, the end of a group, and field 0 are refused as such |
| `WireExamples.RefusedEnds` | internal/message/message.pb.go:1571-1648 | so are inputs that end too early, and illegal wire types |
| `WireExamples.LongNumber` | internal/message/message.pb.go:984-997 | a number of more than ten bytes is refused |
| `Truncation.MsgCut` | internal/message/message.pb.go:1428-1570 | a proper beginning of a printed Msg is parsed iff it ends at its start or after the type, phase or value, and then to those fields, without an object |
| `Truncation.RequestCut` | internal/message/message.pb.go:978-1115 | a proper beginning of a printed Command is parsed iff it ends where a field does, and then to those fields, without all commands |
| `Marshalling.CommandSize` | internal/message/message.pb.go:835-857 | the number of bytes of the printed Command |
| `Marshalling.ObjSize` | internal/message/message.pb.go:859-898 | the same for a ConsensusObj |
| `Marshalling.MsgSize` | internal/message/message.pb.go:900-920 | the same for a Msg |
| `Marshalling.MarshalCommandToSizedBuffer` | internal/message/message.pb.go:523-553 | the printed Command fills exactly the last bytes before the end, written backwards |
| `Marshalling.MarshalObjToSizedBuffer` | internal/message/message.pb.go:570-646 | the same for a ConsensusObj, with its packed numbers |
| `Marshalling.MarshalMsgToSizedBuffer` | internal/message/message.pb.go:663-696 | the same for a Msg and the object nested in it |
| `Marshalling.PackNumbers` | internal/message/message.pb.go:585-597 | the numbers are printed one after the other and fit in ten bytes each |
| `Marshalling.Marshal` | internal/message/message.pb.go:648-656 | a buffer of the computed size is filled completely |
| `Marshalling.MarshalCommand` | internal/message/message.pb.go:508-516 | the same for a Command |
| `Unmarshalling.UnmarshalCommand` | internal/message/message.pb.go:978-1115 | on every byte string the loop stays in bounds, ends, and computes Codec.Parse, with the same error |
| `Unmarshalling.UnmarshalObj` | internal/message/message.pb.go:1117-1426 | the same for a ConsensusObj |
| `Unmarshalling.UnmarshalMsg` | internal/message/message.pb.go:1428-1570 | the same for a Msg |
| `Unmarshalling.SkipMessage` | internal/message/message.pb.go:1571-1648 | the length of a field of any wire type, with nested groups, or the error |
| `Unmarshalling.ReadNumbers` | internal/message/message.pb.go:1221-1299 | packed and unpacked repeated numbers |
| `Unmarshalling.ReadSpan` | internal/message/message.pb.go:1066-1095 | lengths that are negative, overflow 64 bits, or reach past the end are errors |
| `Framing.BufWrite` | internal/message/message.go:120-135 | four bytes of length, and then the data |
| `Framing.BufRead` | internal/message/message.go:150-162 | the data of one frame comes into the buffer, or the part of it that came |
| `Framing.FrameBytes` | internal/message/message.go:120-135 | the four bytes of length, the least significant one first, then the data |
| `Framing.FrameRoundTrip` | internal/message/message.go:120-162 | a frame is read back with the rest of the stream left, iff its length fits in 32 bits and in the buffer; it is a panic iff 32 bits of its length do not fit in the buffer |
| `Framing.StreamRoundTrip` | internal/message/message.go:200-217 | any sequence of Msgs that fit the reader's buffer is read back from the stream |
| `Framing.CutStream` | internal/message/message.go:150-162 | a connection that breaks after any byte of a frame delivers the messages before it, and one more iff the break is right after the length or the printed type, phase or value: a message of the fields that came |
| `BrokenLinks.CutHasNoObject` | internal/message/message.go:209-217 | the message delivered of a cut one has no object; its type is that of the message, or ClientRequest when only the length came |
| `BrokenLinks.CutIsHandled` | roles/server/layers/consensus/msgHandler.go:40-72 | the handler can take it iff it is what came of a ProposalRequest, and more than the length came |
| `BrokenLinks.BrokenLink` | internal/tcp/tcp.go:467-479 | in any run, a link that breaks within a broadcast delivers the broadcasts before it, each of which the handler can take, and perhaps one message more, on which it panics unless it is of a ProposalRequest; that one asks for slot 0 |
| `BrokenLinks.CutVote` | roles/server/layers/consensus/executor.go:119-133 | the Vote for 1 in phase 1 of slot 5, cut after four bytes, is delivered without its object |
| `BrokenLinks.CutRequest` | internal/tcp/tcp.go:284-296 | what is accepted of a cut client request has the first of its commands, never all |
| `BrokenLinks.CutBatch` | roles/server/layers/proxy/proxy.go:233-271 | so no batch with it is taken apart into the requests it was made of, and if no other request has too many commands every server that executes it panics |
| `Framing.MarshalWriteFlush` | internal/message/message.go:200-206 | the frame of the printed Msg goes to the stream |
| `Framing.ReadUnmarshal` | internal/message/message.go:209-217 | the first message of the stream, or an error, or a panic when it is too long for the buffer |

## Left out

- Liveness, termination with probability one, and that a ProposalRequest is ever answered: the code does not
  guarantee the last.
- Races on a slot that is reset while it is accessed: handler and executor actions are atomic, and the window
  assumption excludes them.
- The capacities of channels, and shutdown, which is a server that takes no more steps.
- The order of ProposalReply messages: all replies of a slot form a set, and a server may adopt any that is for
  it; RepliesAreForThisSlot shows that the stale ones are skipped. A server whose slot was recycled does not
  reply, where the cluster's step does; fewer replies only mean fewer runs.
- FIFO order between messages of different slots: a run of all slots restricted to one slot is a run of the
  cluster with FIFO links, and no theorem needs more.
- Slot: the fixed-size counter arrays are nested sequences that the methods reassign, so aliasing of rows is not
  captured; every index is still checked.
- Pending.PQueue.Pop: does not model the heap, only that a least request is removed.
- Ledger.Slot.SortRecvProposals: does not model the algorithm of sort.Slice; the model inserts one at a time.
- Unmarshalling.UnmarshalMsg: does not model what is left in the object after an error, nor the preallocation of
  repeated fields.
- Replication: slot numbers stop at 2^32, where the code's uint32 numbers would start over; so do those of
  Consensus.GetRequest and Proxy.KVSExecutor.
- Storage mode 1 (redisExecuteCmd, which reads one fixed key), and Redis errors.
- The capacity of a Go slice: a slice of a batch that ends beyond its commands is out of range here, where Go
  takes empty strings up to the capacity. Execution panics on an empty string too, so that what is stated about
  panics is true of both readings, and so are BatchRoundTrip and CutBatch.
- A cut ProposalReply, which is sent to one server and is not in a log: what it does to the executor follows from
  CutHasNoObject and AwaitReply.
- Round statistics, logging, TCP connection handling, configuration loading, signals, the controller and the
  benchmarking client: input and output.
- Equal, String, GoString, NewPopulated and descriptors: equality of the model's values is Equal but for the
  difference of nil and empty lists; the others are not used by the protocol.
