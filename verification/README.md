# Verified models of a distributed systems course repository

The repository holds the labs of a distributed systems course in Go. This project models its
hardest parts in Dafny and proves what they are for:

- **Raft (lab 3).** `RaftPeer` gives the peer and each handler as functions, `RaftHandlers` the
  effect of each told on the fields, `RaftCluster` the cluster as a step machine over peers and
  messages in flight, `RaftInvariant`, `RaftSteps` and `RaftReplication` the invariant of every
  run, `RaftRange` what every run keeps about commit indices, `RaftCommit` the invariant behind
  commitment, `RaftSafety` and `RaftProgress` the safety theorems, `RaftOutcomes` what comes of
  each step of a run, `RaftLive` that a command can always still be applied. `RaftServer`
  is the peer as an object with fields and arrays updated in place; each of its methods is proved
  to do what the function of the step machine does and to have the effect told on the fields.
  `RaftStale` is a run that shows where safety ends, `RaftLag` where the commit index lags.
- **The sharded cache with time to live (lab 4).** `ShardMap` and `ShardEdits` are the shard map
  and the workflows that edit it, `KvServer` one node against a plain table with expiry
  instants, `KvNode` the node as an object, `KvCluster` all nodes while the map changes, step by
  step, `KvRuns` what whole runs of them keep, `KvClient` failover, fan-out and read after
  write, `Stripe` the generator of striped maps.
- **The consistency checker (lab 4).** `Checker` is its state for one key and its object,
  `CheckerRuns` its soundness over all interleavings, `CheckerTrace` every verdict exactly.
- **The password hash text (lab 1).** `Bcrypt` is the printer and parser and `Base64` the codec.

## Reading the results

A Raft *run* starts with n new peers and takes any steps: the network may lose, delay and
reorder, append calls and answers may also be delivered twice, a vote call is executed and
answered at most once, and a peer may stop for ever. `History` records votes, and for each term
its leader's log and who acknowledged how much of it; no step reads it, and the theorems of
`RaftSafety` are stated on peers alone.

Results marked [covered] are for runs in which every winner's `matchIndex[j]` lies within its
log at the moment it wins; those marked [fresh], for runs in which it is zero. The code does not
clear `matchIndex` on a win (raft.go:410-416), so this is a real condition. A stale match index
within the log does no harm, since the leader counts entries of its own term only and its log
has none yet. One past the log does: `RaftStale.UnsafeRun` is a run of five peers in which a
leader of a second term has a stale match index equal to the length of its log, counts it for
the entry it appends next, commits that entry while only two peers hold it, and another leader
commits a different entry at the same index. So the bound cannot be raised by one.
`RaftProgress.FirstWinsAreFresh` and `RaftProgress.FreshIsCovered` give a condition an operator
can see: no peer wins twice. Log Matching, Election Safety, the repair of a follower's log, the
order of calls, gap-free apply streams and the growth of commit indices need no such condition.

A run of the cache interleaves single actions: the publisher swaps the map and notifies node
after node; a node begins its update, fetches each new shard, and finishes; clients' calls,
sweeps and the clock come in between on any node. A *promise* records that at some moment every
host of a key's shard kept a value, and until when it must be kept; any write to the key ends
it. `Kind` states what is asked of the environment: another map is published only after the
current one was published twice, as UpdateShardMapping does, and gracefully, that is, no shard
gains two hosts at once and a hosted shard keeps some host it had; and a fetch fails only if the
map names nobody else to ask. That every host answers with a promised value is false while a
node copies: `KvRuns.HostAnswers` says exactly when, and `KvRuns.WindowRun` reaches such a
moment.

Where the Raft code departs from Figure 2 of the extended Raft paper the model follows the code:
RequestVote has no test for a stale request and answers with the term held before the update;
a follower caps its commit index by its own last index; a refusal sends `nextIndex` to 1; a
winner starts it at its commit index plus one.

Other properties that turn out false of the code are given with the exact condition:
that a leader commits what most peers have reached (`RaftLag.LagRun`, `RaftLag.CommitCatchesUp`),
that a cluster of one peer elects a leader (`RaftLive.LeaderHasPeers`),
`CheckerRuns.MissingExact` (a miss is misreported when only failed writes are on record),
`CheckerRuns.StragglerExact` (so is a failed write's value that lands after it was retired),
`Base64.RoundTrip` (lengths that are multiples of three), `Bcrypt.HashRoundTrip` and
`Bcrypt.TextRoundTrip`, `ShardEdits.DrainLeavesHosts`, `Stripe.StripedValid`, and `ShardMap.IsValid`
for a negative shard count.

Code and comments disagree in one place that matters here: the comment above the client's Get
(client.go:31-35) passes the first error on to the caller, while the code tries every replica;
the model follows the code.

## Model

| member | source | states |
|---|---|---|
| `RaftSafety.StateMachineSafety` | cs426-fall24/lab3/lab3/raft/raft.go:245-275 | [covered] of any two apply streams of a run, taken from any two peers at any two moments, one is a prefix of the other |
| `RaftSafety.AppliedIsLog` | cs426-fall24/lab3/lab3/raft/raft.go:245-275 | [covered] what a peer has applied is its own log from index 1 on, up to its commit index at most |
| `RaftSafety.CommittedPrefixesAgree` | cs426-fall24/lab3/lab3/raft/raft.go:110-126 | [covered] committed prefixes of any two peers at any two moments are equal as far as the shorter goes |
| `RaftSafety.LeaderCompleteness` | cs426-fall24/lab3/lab3/raft/raft.go:115-124 | [covered] what a leader commits by counting is of its own term, and every leader of a later term holds it at that index together with all before it |
| `RaftSafety.CommitStepIsChosen` | cs426-fall24/lab3/lab3/raft/raft.go:115-124 | [covered] when a leader commits by counting, a majority really has acknowledged that index of its log in that term |
| `RaftSafety.CommitPersists` | cs426-fall24/lab3/lab3/raft/raft.go:110-126 | [covered] what a peer has committed stays safe for the rest of the run: every later reign keeps it |
| `RaftSafety.LogMatching` | cs426-fall24/lab3/lab3/raft/raft.go:213-230 | in every run, two logs that hold the same term at an index are equal up to that index, whoever holds them and whenever |
| `RaftSafety.LogsInOrder` | cs426-fall24/lab3/lab3/raft/raft.go:479-485 | in every run, entry i of every log carries index i, terms never fall along a log, and none is above the holder's term |
| `RaftSafety.ElectionSafety` | cs426-fall24/lab3/lab3/raft/raft.go:383-423 | in every run, two peers that lead in the same term, at whatever moments, are one peer |
| `RaftSafety.VoteIsFinal` | cs426-fall24/lab3/lab3/raft/raft.go:359-381 | in every run, a vote once given stays as it is for the rest of the term |
| `RaftSafety.CountedVoteWasCast` | cs426-fall24/lab3/lab3/raft/raft.go:398-409 | in every run, a vote a candidate counts was cast for it in its own term by a peer it had not counted before, so a grant made to a stale request is never counted |
| `RaftSafety.VoteWasCast` | cs426-fall24/lab3/lab3/raft/raft.go:371-376 | every vote the history records was held by its voter, in that term, at some moment of the run |
| `RaftSafety.ReignsPersist` | cs426-fall24/lab3/lab3/raft/raft.go:469-492 | a reign keeps its leader, and its log only grows, by entries of its own term |
| `RaftStale.UnsafeRun` | cs426-fall24/lab3/lab3/raft/raft.go:410-416 | the bound of [covered] is sharp: a run of five peers in which no winner has a match index above the length of its log, and yet peers 0 and 2, each leading twice, apply different commands at index 2 |
| `RaftStale.Act4` | cs426-fall24/lab3/lab3/raft/raft.go:110-126 | the step that breaks it: a leader of its second term sends an entry to one peer only, counts another for a match index kept from its first term, commits and applies |
| `RaftProgress.FirstWinsAreFresh` | cs426-fall24/lab3/lab3/raft/raft.go:410-416 | a run in which no peer wins twice is fresh |
| `RaftProgress.FreshIsCovered` | cs426-fall24/lab3/lab3/raft/raft.go:410-416 | a fresh run is covered, so every [covered] result holds of it |
| `RaftProgress.NeverLed` | cs426-fall24/lab3/lab3/raft/raft.go:572-573 | a peer that has not won yet has an all-zero matchIndex |
| `RaftProgress.LeaderBookkeeping` | cs426-fall24/lab3/lab3/raft/raft.go:99-124 | [fresh] matchIndex[j] = m > 0 means follower j's log began with the leader's log up to m at some moment of this term, and still does while j stays in it |
| `RaftProgress.OwnTermBookkeeping` | cs426-fall24/lab3/lab3/raft/raft.go:99-124 | [covered] match indices lie within the leader's log, and one at an entry of the leader's own term means the same |
| `RaftProgress.StreamIsGapFree` | cs426-fall24/lab3/lab3/raft/raft.go:245-275 | in every run, what a peer has sent on its apply channel is numbered from 1 without a gap and is never beyond its commit index |
| `RaftProgress.CommitNeverFalls` | cs426-fall24/lab3/lab3/raft/raft.go:231-238 | in every run, no peer's commit index ever falls |
| `RaftProgress.NextIndexInRange` | cs426-fall24/lab3/lab3/raft/raft.go:169-195 | in every run, a leader's next indices lie in 1..len(log) |
| `RaftProgress.CallsInRange` | cs426-fall24/lab3/lab3/raft/raft.go:169-195 | in every run, no slice is out of range in any step but a win, a reply to a call or a collection; heartbeats and client commands of a leader are always in range |
| `RaftProgress.NothingOutOfRange` | cs426-fall24/lab3/lab3/raft/raft.go:169-195 | [covered] whatever the environment offers next, wins, replies and collections included, no slice of a log is out of range |
| `RaftProgress.FollowerCommit` | cs426-fall24/lab3/lab3/raft/raft.go:231-238 | in every run, a follower that accepts a call takes exactly the larger of the two commit indices, never passes the last entry sent, and begins with the log the sender had when it sent the call |
| `RaftProgress.CallWasSent` | cs426-fall24/lab3/lab3/raft/raft.go:169-195 | every call in flight was made by its sender at some earlier moment: its term, its commit index then, its whole log from the previous index on |
| `RaftProgress.SentIsWholeLog` | cs426-fall24/lab3/lab3/raft/raft.go:169-195 | what a call stands for is the sender's whole log at the moment it was sent |
| `RaftProgress.RetryAccepted` | cs426-fall24/lab3/lab3/raft/raft.go:213-230 | in every run, a call from index 1 is accepted by any peer of no higher term, which then begins with the log the sender had when it sent the call |
| `RaftProgress.RetryStartsAtOne` | cs426-fall24/lab3/lab3/raft/raft.go:131-148 | in every run, the retry a leader makes after a refusal is such a call |
| `RaftProgress.LateCallChangesNothing` | cs426-fall24/lab3/lab3/raft/raft.go:216-230 | in every run, once a peer has accepted a call, an earlier call of the same term leaves the peer exactly as it is and is answered with success |
| `RaftProgress.EarlierCallCarriesLess` | cs426-fall24/lab3/lab3/raft/raft.go:169-195 | in every run, of two calls of one term the earlier one reaches no further and carries no higher commit index |
| `RaftLive.LeaderCanFinish` | cs426-fall24/lab3/lab3/raft/raft.go:96-275 | [covered] from every state of every run, if peer i leads and no peer is in a higher term, some continuation has every peer apply the client's command at the index after i's log |
| `RaftLive.NeverStuck` | cs426-fall24/lab3/lab3/raft/raft.go:96-492 | [covered] from every state of every run of two peers or more, a peer whose log nobody's is ahead of, and whose match indices lie within it, can be elected and get a command applied by every peer |
| `RaftLive.CanBeElected` | cs426-fall24/lab3/lab3/raft/raft.go:383-423 | whatever terms, votes and calls there are, such a peer can become a leader that nobody outbids |
| `RaftLive.CatchUp` | cs426-fall24/lab3/lab3/raft/raft.go:131-148 | whatever a follower's log holds, a leader that nobody outbids can bring it up to its own, in two exchanges at most |
| `RaftLive.LeaderHasPeers` | cs426-fall24/lab3/lab3/raft/raft.go:386-389 | in every run, a peer that is alone never leads, so two peers are needed |
| `RaftLag.SmallClusterCommits` | cs426-fall24/lab3/lab3/raft/raft.go:115-124 | [covered] with two or three peers, an index of the leader's term that most peers are known to have reached is always committed |
| `RaftLag.LagRun` | cs426-fall24/lab3/lab3/raft/raft.go:115-124 | with five it is not: a run in which three of five have the first entry, the leader knows it, and nothing is committed |
| `RaftLag.CommitCatchesUp` | cs426-fall24/lab3/lab3/raft/raft.go:115-124 | in every run and for any number of peers, a success commits an index that most peers have reached if and only if they have also reached the one the replying peer stands at, and that is no lower |
| `RaftOutcomes.ReplyOutcome` | cs426-fall24/lab3/lab3/raft/raft.go:96-150 | in every run, what a reply does to the caller: nothing for another term than the one it leads, back to follower for a higher one; a success moves next and match index and commits the index reached exactly if more than half of the peers reach it, it is of the leader's term and above the commit index; a refusal sends the whole log from index 1 |
| `RaftOutcomes.CallOutcome` | cs426-fall24/lab3/lab3/raft/raft.go:197-243 | in every run, what a call does to its receiver: when it is refused, whether the previous entry is there, where the log is cut, how far the commit index follows |
| `RaftOutcomes.EveryoneIsCalled` | cs426-fall24/lab3/lab3/raft/raft.go:169-195 | in every run, after a win, a client's command or a heartbeat timeout a call to every other peer is under way, with the leader's whole log from that peer's next index on |
| `RaftOutcomes.CommandIsAppended` | cs426-fall24/lab3/lab3/raft/raft.go:469-492 | in every run, a client's command is the leader's next entry in its term, and nothing else changes |
| `RaftOutcomes.ElectionAsksEveryone` | cs426-fall24/lab3/lab3/raft/raft.go:525-539 | in every run, an election asks every other peer in the next term with the end of the candidate's log |
| `RaftOutcomes.VoteOutcome` | cs426-fall24/lab3/lab3/raft/raft.go:359-381 | in every run, a vote is given if and only if the candidate's log when it stood was at least as up to date as the voter's now, and the voter is free in that term |
| `RaftOutcomes.CountOutcome` | cs426-fall24/lab3/lab3/raft/raft.go:398-418 | in every run, a counted reply adds one new voter, and the candidate leads if and only if its voters are more than half of the peers |
| `RaftOutcomes.LoopEndsAtCommit` | cs426-fall24/lab3/lab3/raft/raft.go:245-275 | in every run, the apply loop has something to do if and only if not all that is committed has been sent |
| `RaftHandlers.VoteMeets` | cs426-fall24/lab3/lab3/raft/raft.go:359-381 | the vote, on the fields: granted if and only if the request's last term and index are at least the voter's in lexicographic order and the vote is free; the answer carries the old term |
| `RaftHandlers.OneOfTwoGrants` | cs426-fall24/lab3/lab3/raft/raft.go:371-372 | of any two peers at least one would vote for the other in a new term, and both if and only if their logs end alike |
| `RaftHandlers.ExtensionGranted` | cs426-fall24/lab3/lab3/raft/raft.go:371-376 | a candidate whose log extends the voter's gets the vote |
| `RaftHandlers.VoteReplyMeets` | cs426-fall24/lab3/lab3/raft/raft.go:398-418 | a reply to a request, on the fields: ignored, stepped down, counted, or won with next indices just past the commit index |
| `RaftHandlers.HeartbeatsMeet` | cs426-fall24/lab3/lab3/raft/raft.go:169-195 | one call to each other peer, from its next index on, and as many calls as other peers |
| `RaftHandlers.AppendMeets` | cs426-fall24/lab3/lab3/raft/raft.go:197-243 | a call, on the fields: refused, mismatched or taken, with the log cut at the first clash or kept whole |
| `RaftHandlers.InstallSplices` | cs426-fall24/lab3/lab3/raft/raft.go:221-230 | the scan keeps a log that has all that was sent, and cuts any other at the first clash and no earlier |
| `RaftHandlers.ReplyMeets` | cs426-fall24/lab3/lab3/raft/raft.go:96-150 | a reply, on the fields, with the peers that have reached an index as a plain set |
| `RaftHandlers.RoundApplies` | cs426-fall24/lab3/lab3/raft/raft.go:250-272 | a round of the apply loop sends each entry committed since the last one once, in order, and no other |
| `RaftReplication.RunInv` | cs426-fall24/lab3/lab3/raft/raft.go:96-275 | every state of every run satisfies the cluster invariant |
| `RaftReplication.StepInv` | cs426-fall24/lab3/lab3/raft/raft.go:96-275 | every step of every kind keeps the cluster invariant |
| `RaftCommit.StepCovered` | cs426-fall24/lab3/lab3/raft/raft.go:96-126 | every step but a win with a match index past the log keeps the commit invariant: match indices that were acknowledged or are of an earlier term, safe commit indices, calls that carry no more than they ship |
| `RaftCommit.WinMatchOk` | cs426-fall24/lab3/lab3/raft/raft.go:410-416 | a match index left from an earlier reign, if within the log, is at an entry of an earlier term, so it is never counted for an entry of the new leader's own term |
| `RaftCommit.NoPanic` | cs426-fall24/lab3/lab3/raft/raft.go:169-195 | from the commit invariant no step that the environment may offer reads a slice out of range |
| `RaftCommit.DecidedIsChosen` | cs426-fall24/lab3/lab3/raft/raft.go:115-124 | the leader's count over matchIndex decides only on an index that a majority has acknowledged |
| `RaftCommit.ChosenKept` | cs426-fall24/lab3/lab3/raft/raft.go:371-376 | the voting rule makes every later leader hold what was chosen |
| `RaftCommit.SafeLogsAgree` | cs426-fall24/lab3/lab3/raft/raft.go:221-238 | two safe prefixes never disagree |
| `RaftCommit.CommittedSurvives` | cs426-fall24/lab3/lab3/raft/raft.go:221-230 | truncating and overwriting a follower's log never touches what it has committed |
| `RaftRange.CommitReached` | cs426-fall24/lab3/lab3/raft/raft.go:231-238 | capping by the receiver's own last index never yields less than the sender's commit index, in any run |
| `RaftRange.RunRange` | cs426-fall24/lab3/lab3/raft/raft.go:96-275 | in every state of every run, a leader's commit index lies in its log, a call carries no higher commit index than it ships entries for, and a peer that accepted a call keeps its commit index and follows in its term |
| `RaftRange.StepOnward` | cs426-fall24/lab3/lab3/raft/raft.go:96-275 | no step moves any peer back: commit index and term do not fall, and within a term a follower stays one |
| `RaftSteps.InstallMerges` | cs426-fall24/lab3/lab3/raft/raft.go:221-230 | scanning for the first mismatch and splicing there yields the sender's log, or leaves a log that already extends it |
| `RaftSteps.AcceptedLog` | cs426-fall24/lab3/lab3/raft/raft.go:216-230 | the log after an accepted call is the log sent, unless the receiver's log already extended it |
| `RaftSteps.KeptByUpToDate` | cs426-fall24/lab3/lab3/raft/raft.go:371-372 | a log at least as up to date as the voter's keeps every entry the voter holds that no later majority has ruled out |
| `RaftSteps.GrantSupports` | cs426-fall24/lab3/lab3/raft/raft.go:359-381 | a grant the candidate may count brings all that the voter has acknowledged into the candidate's log |
| `RaftSteps.WinnerUnopposed` | cs426-fall24/lab3/lab3/raft/raft.go:398-416 | when a candidate wins, its term has had no leader before |
| `RaftServer.Raft.constructor` | cs426-fall24/lab3/lab3/raft/raft.go:554-586 | a new peer: follower in term 0, no vote, one log slot, all indices zero |
| `RaftServer.Raft.OnElectionTimeout` | cs426-fall24/lab3/lab3/raft/raft.go:525-539 | unless leading, the peer stands in the next term with its own vote and asks with its last index and term |
| `RaftServer.Raft.RequestVote` | cs426-fall24/lab3/lab3/raft/raft.go:359-381 | the in-place handler does what the vote step does, and that is: grant if and only if last term and index are at least its own in lexicographic order and the vote is free, after stepping down for a higher term |
| `RaftServer.Raft.OnVoteReply` | cs426-fall24/lab3/lab3/raft/raft.go:398-418 | the in-place handler does what the vote-reply step does: ignore, step down, count, or win with more than half; exactly a winner calls every other peer |
| `RaftServer.Raft.SendHeartbeats` | cs426-fall24/lab3/lab3/raft/raft.go:169-195 | one call to every other peer, numPeers - 1 in all, each with the whole log from that peer's next index |
| `RaftServer.Raft.Start` | cs426-fall24/lab3/lab3/raft/raft.go:469-492 | a leader appends the command at the next index in its term and sends it out; any other peer refuses with -1, -1 and changes nothing |
| `RaftServer.Raft.AppendEntries` | cs426-fall24/lab3/lab3/raft/raft.go:197-243 | the in-place handler does what the append step does: refuse an old term, else follow; succeed if and only if the previous entry is there; cut at the first clash; raise the commit index to the leader's but not past the log |
| `RaftServer.Raft.InstallScan` | cs426-fall24/lab3/lab3/raft/raft.go:221-230 | the scanning loop leaves the log whole if it has all that was sent, and otherwise cut at the first clash and continued as sent |
| `RaftServer.Raft.RespAppendEntries` | cs426-fall24/lab3/lab3/raft/raft.go:96-150 | the in-place handler does what the append-reply step does: ignore, step down, record and commit exactly by majority in its own term, or retry from 1 with the whole log |
| `RaftServer.Raft.CountAgreeing` | cs426-fall24/lab3/lab3/raft/raft.go:115-120 | the counting loop yields the number of other peers whose match index has reached m |
| `RaftServer.Raft.CollectCommitted` | cs426-fall24/lab3/lab3/raft/raft.go:250-261 | one locked round copies exactly the newly committed entries, or finds none |
| `RaftServer.Raft.EmitBatch` | cs426-fall24/lab3/lab3/raft/raft.go:263-272 | the copied batch goes out entry by entry, in order |
| `RaftServer.Raft.LastLogIndex` | cs426-fall24/lab3/lab3/raft/raft.go:354-356 | the last entry's index is one less than the length of the log, since entry i carries index i |
| `RaftServer.Raft.LastLogTerm` | cs426-fall24/lab3/lab3/raft/raft.go:347-352 | the term of the last entry; the empty-log case never arises |
| `CheckerRuns.FoundNeverReported` | cs426-fall24/lab4/checker/checker.go:208-222 | over all interleavings of writes, reads, refills of a replica from another and clock, with failed writes that land up to their record and, while no write is in flight and the value is on record, at any time after it, and with values living up to the 10 ms slack too long, a value that a read really found is never reported as overwritten, never written or expired |
| `CheckerRuns.StragglerExact` | cs426-fall24/lab4/checker/checker.go:208-222 | with no write in flight, a value that lands late and is then read is reported if and only if the checker has retired it or never had it |
| `CheckerRuns.StragglerMisreported` | cs426-fall24/lab4/checker/checker.go:151-158 | a failed value that lands while another write is in flight is misreported as overwritten |
| `CheckerTrace.FoundVerdict` | cs426-fall24/lab4/checker/checker.go:179-224 | every verdict on a found value over all runs, exactly: passed over if some write disturbed the read, overwritten if a write that was alone completed after its own, never written if its write has not completed, expired if it succeeded and must have been gone when the read began, correct otherwise |
| `CheckerTrace.MissVerdict` | cs426-fall24/lab4/checker/checker.go:195-207 | every verdict on a miss over all runs, exactly: reported if and only if no write disturbed the read, some value is on record and none on record may be gone by now |
| `CheckerTrace.RecordExact` | cs426-fall24/lab4/checker/checker.go:151-164 | over all runs, a value is possible from its completion until the next completion of a write that was alone, and retired from then on; overlapping and failed writes retire nothing |
| `CheckerTrace.AloneIsSolo` | cs426-fall24/lab4/checker/checker.go:151-151 | the test on version and count passes if and only if the write succeeded, none was in flight when it began and none began before it completed |
| `CheckerTrace.OnlySoloOnRecord` | cs426-fall24/lab4/checker/checker.go:151-158 | after a write that was alone, until another completes, its value and no other is on record |
| `CheckerTrace.RecordedAs` | cs426-fall24/lab4/checker/checker.go:133-139 | a recorded value has its bounds from the start and the return of its write |
| `CheckerTrace.JudgedExact` | cs426-fall24/lab4/checker/checker.go:186-190 | a read is judged if and only if no write was in flight when it began and none has begun since |
| `CheckerRuns.CopyIsRefill` | cs426-fall24/lab4/kv/server.go:130-141 | one more copy of a shard is such a refill, as long as the delays of all copies of the item and a millisecond for each come to no more than the slack; so soundness covers moved shards |
| `CheckerRuns.NoDuplicatePanic` | cs426-fall24/lab4/checker/checker.go:143-149 | over all interleavings with values used once, the duplicate test never panics |
| `CheckerRuns.MissingNotReported` | cs426-fall24/lab4/checker/checker.go:195-207 | a read that really found nothing is not reported if some recorded write succeeded or none is recorded, and the clock has moved since the read |
| `CheckerRuns.MissingExact` | cs426-fall24/lab4/checker/checker.go:195-207 | a checker at rest with unexpired values can misreport a miss if and only if none of its recorded writes succeeded |
| `CheckerRuns.MissingMisreported` | cs426-fall24/lab4/checker/checker.go:195-207 | the failing half: with no recorded success, some run leads to the same checker state and then to a false report |
| `CheckerRuns.QuietRun` | cs426-fall24/lab4/cmd/stress/tester.go:173-195 | with no recorded success, the checker gets to the same state in a run where no write reached any replica |
| `CheckerRuns.VerdictAfterAlone` | cs426-fall24/lab4/checker/checker.go:195-222 | exactness: after a write that was alone, and until another begins, a found value is reported if and only if it is another one or the read began after its latest expiry and the slack, and a miss if and only if the earliest expiry has not passed |
| `CheckerRuns.AloneEverywhere` | cs426-fall24/lab4/checker/checker.go:151-158 | when the version and reference-count test passes, every replica holds the value of this write |
| `CheckerRuns.StepInv` | cs426-fall24/lab4/checker/checker.go:109-177 | every step of writers, readers, replicas and clock keeps the checker invariant |
| `CheckerRuns.ExecInv` | cs426-fall24/lab4/cmd/stress/tester.go:146-195 | so does every run of the stress driver |
| `CheckerObject.ConsistencyChecker.constructor` | cs426-fall24/lab4/checker/checker.go:100-107 | no key has values, versions or pending writes |
| `CheckerObject.ConsistencyChecker.BeginWrite` | cs426-fall24/lab4/checker/checker.go:109-118 | counts one pending write of this key, returns its version, leaves other keys alone |
| `CheckerObject.ConsistencyChecker.CompleteWrite` | cs426-fall24/lab4/checker/checker.go:120-168 | panics if and only if the value is known, and then changes nothing; otherwise the value replaces all others if its write succeeded, none completed since it began and none other is pending, and joins them if not; no other key changes |
| `CheckerObject.ConsistencyChecker.Record` | cs426-fall24/lab4/checker/checker.go:151-164 | a write that was alone retires every other value of the key, any other write adds its value |
| `CheckerObject.ConsistencyChecker.BeginRead` | cs426-fall24/lab4/checker/checker.go:170-177 | the key's version and whether a write is pending |
| `CheckerObject.ConsistencyChecker.CheckReadCorrect` | cs426-fall24/lab4/checker/checker.go:179-224 | the verdict of the specification, and one more check counted exactly when the read was judged |
| `KvRuns.Conservation` | cs426-fall24/lab4/kv/server.go:58-149 | in every run with graceful publications, whatever the interleaving of calls, sweeps, fetches and merges, a host of a key's shard answers with the promised value if it hosted the shard before the last publication or has finished its update |
| `KvRuns.HostAnswers` | cs426-fall24/lab4/kv/server.go:114-149 | what a host named by the map answers for a promised live key, exactly: a refusal until it begins its update, no such key from the beginning to the end of its copy, the value in all other cases |
| `KvRuns.BeginHidesKeys` | cs426-fall24/lab4/kv/server.go:85-128 | a node that begins its update with a new shard answers from then on that the shard's promised keys do not exist |
| `KvRuns.WindowRun` | cs426-fall24/lab4/kv/server.go:114-128 | such a moment is reached: a run in which one host has a live promised value and another, named by the same map, says there is none |
| `KvRuns.SomeHostAnswers` | cs426-fall24/lab4/kv/server.go:58-149 | at every moment some host named by the map answers with the promised value |
| `KvRuns.WriteConfirms` | cs426-fall24/lab4/kv/client.go:74-108 | a Set carried out at every host, whatever happened in between, is held by all of them for its time to live since it began, unless a host was copying the shard meanwhile |
| `KvRuns.WorkflowKeepsData` | cs426-fall24/lab4/kv/test/test_setup.go:308-355 | whatever is interleaved with it, when the maps published by MoveShard or DrainNode have been taken by all nodes, every host answers with every value promised before, not written since and still to live |
| `KvRuns.WorkflowIsKind` | cs426-fall24/lab4/kv/test/test_setup.go:101-114 | a run that publishes exactly those maps, each twice, publishes gracefully and another map only when every node hosts exactly its shards |
| `KvCluster.AllSettled` | cs426-fall24/lab4/kv/test/test_setup.go:101-114 | when a map has been published twice and all nodes have taken the second notification, every node hosts exactly its shards and copies none |
| `KvRuns.Placement` | cs426-fall24/lab4/kv/server.go:62-148 | a node that has finished its update hosts exactly the shards of the map, before that those of the map before, in between both; at every moment every key it stores, and every value it is about to merge, belongs to the shard it lies under |
| `KvCluster.StepInv` | cs426-fall24/lab4/kv/server.go:58-149 | every step of node, client, clock and publisher keeps the conservation and placement invariant |
| `KvRuns.RunInv` | cs426-fall24/lab4/kv/server.go:58-149 | every state of every run with graceful publications satisfies it |
| `KvCluster.PeerReady` | cs426-fall24/lab4/kv/server.go:40-56 | while a node copies a shard, every other host that the map names had it before, still has it and is not copying it |
| `KvRuns.FetchFindsShard` | cs426-fall24/lab4/kv/server.go:290-305 | so in every such run a fetch never meets a node without the shard, where the code would panic |
| `KvCluster.FetchKept` | cs426-fall24/lab4/kv/server.go:307-315 | what a copying node gets from whichever host holds every promised live key, with time enough |
| `KvCluster.FinishKept` | cs426-fall24/lab4/kv/server.go:130-141 | after the merge the shard keeps every such key for as long as promised |
| `KvServer.SweepIsInvisible` | cs426-fall24/lab4/kv/server.go:97-112 | for every sequence of events at non-falling instants, with sweeps anywhere among them, all replies are those of a table with expiry instants that never sweeps |
| `KvServer.ServeRefines` | cs426-fall24/lab4/kv/server.go:188-321 | one event gives the same reply on server and table and keeps them holding the same |
| `KvServer.DeadFromExpiry` | cs426-fall24/lab4/kv/server.go:221-224 | comparing truncated milliseconds is the same as comparing with one expiry instant |
| `KvServer.CopyDrift` | cs426-fall24/lab4/kv/server.go:307-315 | one shard copy never expires before its source, and later by the transfer delay plus less than a millisecond |
| `KvServer.TtlDrift` | cs426-fall24/lab4/kv/server.go:130-141 | after k copies an entry expires no earlier than the original, later by at least the total transfer delay and by less than that plus k milliseconds |
| `KvServer.PlacedStable` | cs426-fall24/lab4/kv/server.go:230-288 | every operation keeps every key under the shard it hashes to |
| `KvServer.FinishedBegun` | cs426-fall24/lab4/kv/server.go:58-149 | the two halves of an update with nothing in between leave exactly the assigned shards, the old ones untouched, the new ones filled |
| `KvServer.GetShardForKey` | cs426-fall24/lab4/kv/util.go:8-12 | for whatever hash, the shard is one of 1..numShards |
| `KvServer.ShardsInTurn` | cs426-fall24/lab4/kv/util.go:8-12 | two keys share a shard if and only if their hashes leave the same remainder, and consecutive hashes meet the shards in turn |
| `KvNode.KvServerImpl.constructor` | cs426-fall24/lab4/kv/server.go:163-181 | a new node hosts nothing |
| `KvNode.KvServerImpl.Get` | cs426-fall24/lab4/kv/server.go:188-228 | empty key, missing shard, missing or dead entry, and value, as specified |
| `KvNode.KvServerImpl.Set` | cs426-fall24/lab4/kv/server.go:230-258 | stores the value with its time to live now, or refuses and changes nothing |
| `KvNode.KvServerImpl.Delete` | cs426-fall24/lab4/kv/server.go:260-288 | removes the key, or refuses and changes nothing |
| `KvNode.KvServerImpl.GetShardContents` | cs426-fall24/lab4/kv/server.go:290-321 | lists each live entry of the shard once, with its remaining milliseconds; panics exactly if the node does not host the shard |
| `KvNode.KvServerImpl.SweepShard` | cs426-fall24/lab4/kv/server.go:97-112 | of the entries stored by now, exactly those before their expiry are left, as they were; no other shard changes |
| `KvRuns.SweepOutcome` | cs426-fall24/lab4/kv/server.go:97-112 | in every run, after a sweep an entry is left in the shard if and only if it is before its expiry, and nothing else on any node changes |
| `KvRuns.ValueWasSet` | cs426-fall24/lab4/kv/server.go:58-149 | in every run, whatever is published and copied, a value some node holds for a key was set for that key by an earlier call |
| `KvNode.KvServerImpl.BeginUpdate` | cs426-fall24/lab4/kv/server.go:58-124 | finds exactly the shards that come and go, adds the new ones empty and leaves all others as they were |
| `KvNode.KvServerImpl.NewShards` | cs426-fall24/lab4/kv/server.go:65-70 | the assigned shards the node does not have |
| `KvNode.KvServerImpl.LostShards` | cs426-fall24/lab4/kv/server.go:72-83 | the shards the node has and is not assigned |
| `KvNode.KvServerImpl.AddEmpty` | cs426-fall24/lab4/kv/server.go:90-114 | each new shard starts empty, and no other is touched |
| `KvNode.KvServerImpl.MergeResponse` | cs426-fall24/lab4/kv/server.go:130-141 | a peer's answer is laid over the shard it was asked for, each value at its own instant, and no other shard is touched |
| `KvNode.KvServerImpl.FinishUpdate` | cs426-fall24/lab4/kv/server.go:130-148 | every answer is merged over what its shard holds by then, every lost shard is gone, every other is untouched |
| `KvNode.KvServerImpl.HandleShardMapUpdate` | cs426-fall24/lab4/kv/server.go:58-149 | the whole handler leaves exactly the assigned shards, the old ones untouched, each new one filled with some other host's answer, or empty only if no other host answers |
| `KvNode.KvServerImpl.RetrieveAll` | cs426-fall24/lab4/kv/server.go:85-128 | for every new shard, the answer of some other host if any answers, otherwise nothing |
| `KvNode.MergedWhole` | cs426-fall24/lab4/kv/server.go:130-141 | storing the values of an answer one by one lays all of them over the shard |
| `KvNode.RetrieveShardData` | cs426-fall24/lab4/kv/server.go:40-56 | the answer of the first other host, going round from the start, that answers; nothing only if none does |
| `KvClient.ReadAfterWrite` | cs426-fall24/lab4/kv/client.go:43-108 | after a Set without error, with no other write of the key, every Get before the time to live is over that does not fail returns the value, and it fails exactly if every host fails |
| `KvClient.GetLoop` | cs426-fall24/lab4/kv/client.go:43-67 | failover goes round the replicas from the start, each at most once, returns the first answer, and fails only if all fail or there is none |
| `KvClient.FanOut` | cs426-fall24/lab4/kv/client.go:69-109 | every host is called, and it succeeds if and only if there is a host and none failed |
| `KvClient.SetLands` | cs426-fall24/lab4/kv/client.go:74-108 | a Set that returned without error is held by every host until its time to live has passed since it began |
| `KvClient.HeldAlong` | cs426-fall24/lab4/kv/server.go:188-288 | no run of sweeps, clock and operations on other keys changes that |
| `ShardMap.IsValid` | cs426-fall24/lab4/kv/shardmap.go:36-61 | true exactly if the count is not negative, every shard is in 1..NumShards, and every host list names existing nodes, none twice |
| `ShardMap.SizeTestIsRedundant` | cs426-fall24/lab4/kv/shardmap.go:37-39 | for a count that is not negative, the test on the number of shards follows from the range test |
| `ShardMap.CheckHosts` | cs426-fall24/lab4/kv/shardmap.go:45-58 | the inner loop decides whether a host list names existing nodes, none twice |
| `ShardMap.ShardsForNode` | cs426-fall24/lab4/kv/shardmap.go:136-147 | each shard as often as the node is listed for it; on a valid map exactly its shards, each once |
| `ShardEdits.Draft.AddReplicas` | cs426-fall24/lab4/kv/test/test_setup.go:188-227 | succeeds exactly if there are nodes enough and no wanted host is there already; then keeps the old and wanted hosts in front, adds exactly so many, and the map stays valid exactly if the shard number is in range |
| `ShardEdits.Draft.DropReplicas` | cs426-fall24/lab4/kv/test/test_setup.go:238-286 | succeeds exactly if so many can go and all named are hosts; then only old hosts stay, none of the named, exactly so many fewer, and the map stays valid exactly if the shard number is in range |
| `ShardEdits.Workflows.UpdateShardMapping` | cs426-fall24/lab4/kv/test/test_setup.go:101-114 | publishes the mapping twice over the same nodes and count |
| `ShardEdits.Workflows.MoveShard` | cs426-fall24/lab4/kv/test/test_setup.go:334-355 | on success the hosts are the old ones minus source plus destination; a source that is no host leaves the copy behind; all publications are valid, graceful and made twice |
| `ShardEdits.Workflows.DrainNode` | cs426-fall24/lab4/kv/test/test_setup.go:308-332 | the node hosts nothing any more, every other host stays, only a shard that was on all nodes has fewer hosts; every map is published twice, and with two nodes or more all publications are graceful |
| `ShardEdits.DrainLeavesHosts` | cs426-fall24/lab4/kv/test/test_setup.go:308-332 | draining leaves every hosted shard a host if and only if there are two nodes or more, or the node hosted nothing |
| `ShardEdits.SetHosts` | cs426-fall24/lab4/kv/test/test_setup.go:225-226 | giving a shard a proper host list keeps a map valid exactly if the shard number is in range |
| `ShardEdits.AddedGraceful` | cs426-fall24/lab4/kv/test/test_setup.go:334-347 | adding one host is graceful |
| `ShardEdits.DroppedGraceful` | cs426-fall24/lab4/kv/test/test_setup.go:347-354 | dropping one of two hosts or more is graceful |
| `Stripe.MakeStriped` | cs426-fall24/lab4/scripts/make-shardmap.py:24-51 | the nodes are n1..nN at consecutive ports, the shards 1..numShards, and shard i gets the next replicas[i] nodes in turn; it fails exactly if there is no node and some replica is wanted |
| `Stripe.ReplicaGoesTo` | cs426-fall24/lab4/scripts/make-shardmap.py:39-44 | replica number t, counted over all shards in order, goes to node t modulo the number of nodes |
| `Stripe.DigitsSpell` | cs426-fall24/lab4/scripts/make-shardmap.py:26-27 | the digits in a node's name spell its number, without leading zeros |
| `Stripe.StripedValid` | cs426-fall24/lab4/scripts/make-shardmap.py:39-44 | the generated map is valid if and only if no shard asks for more replicas than there are nodes |
| `Stripe.StripedBalanced` | cs426-fall24/lab4/scripts/make-shardmap.py:39-44 | whatever the replica counts, any two nodes' loads differ by at most one, and each load is the total over N, rounded |
| `Stripe.RowDistinct` | cs426-fall24/lab4/scripts/make-shardmap.py:40-44 | one shard's row names nobody twice exactly if it is no longer than the node list |
| `Stripe.DealtEvenly` | cs426-fall24/lab4/scripts/make-shardmap.py:42-43 | a running counter modulo N gives every node one replica a round, and the first ones one more |
| `Stripe.NameNodes` | cs426-fall24/lab4/scripts/make-shardmap.py:25-30 | the node table has exactly n1..nN, all different, with ports counted up from the base |
| `Stripe.DealRow` | cs426-fall24/lab4/scripts/make-shardmap.py:40-43 | one shard's replicas are the next nodes of the round |
| `Bcrypt.HashRoundTrip` | cs426-fall24/lab1/det_bcrypt/det_bcrypt.go:197-223 | parsing a printed hash gives it back if and only if the major version is at most 2, the minor is not a dollar sign, the cost is in 1..31, the salt has 22 bytes and the hash 31 |
| `Bcrypt.TextRoundTrip` | cs426-fall24/lab1/det_bcrypt/det_bcrypt.go:272-322 | a text that parses is printed back if and only if it has no excess bytes, two cost digits, and dollar signs where the parser skips |
| `Bcrypt.Hash` | cs426-fall24/lab1/det_bcrypt/det_bcrypt.go:272-292 | the 60-byte buffer, filled in place, is the fields laid one over the other, for any record, with what is too long overwritten or showing behind the next field |
| `Bcrypt.PrintedFields` | cs426-fall24/lab1/det_bcrypt/det_bcrypt.go:272-292 | where version, cost, salt and hash are found in the printed text |
| `Bcrypt.NewFromHash` | cs426-fall24/lab1/det_bcrypt/det_bcrypt.go:197-223 | what it accepts has a cost in range, a major version of at most 2, a minor that is no dollar sign and a 22-byte salt |
| `Bcrypt.ParseExact` | cs426-fall24/lab1/det_bcrypt/det_bcrypt.go:197-223 | exactly which texts are parsed, to which fields, and which error any other text meets |
| `Base64.AlphabetExact` | cs426-fall24/lab1/det_bcrypt/det_bcrypt.go:27-29 | the alphabet in its order, and which characters stand for a value |
| `Base64.GroupSpells` | cs426-fall24/lab1/det_bcrypt/det_bcrypt.go:31-39 | four characters are the base-64 digits of the number whose base-256 digits are the three bytes |
| `Base64.DecodeExact` | cs426-fall24/lab1/det_bcrypt/det_bcrypt.go:41-53 | exactly which texts are decoded: whole groups over the alphabet with at most two padding characters, at the end |
| `Bcrypt.CostRoundTrip` | cs426-fall24/lab1/det_bcrypt/det_bcrypt.go:311-322 | two-digit costs are read back |
| `Base64.RoundTrip` | cs426-fall24/lab1/det_bcrypt/det_bcrypt.go:31-53 | encoding then decoding gives the bytes back if and only if their number is no multiple of three, and an error otherwise |
| `Base64.TrimRoundTrip` | cs426-fall24/lab1/det_bcrypt/det_bcrypt.go:31-53 | the same of any text that is the encoding without its padding |
| `Base64.CodecRoundTrip` | cs426-fall24/lab1/det_bcrypt/det_bcrypt.go:29-34 | with its padding, the codec over this alphabet is an inverse pair |
| `Base64.Base64Encode` | cs426-fall24/lab1/det_bcrypt/det_bcrypt.go:31-39 | the padded encoding without its padding, and with no padding left inside |
| `Base64.Base64Decode` | cs426-fall24/lab1/det_bcrypt/det_bcrypt.go:41-53 | the decoder, which passes over line breaks, on the text with 4 - len % 4 padding characters, so four of them after whole groups |
| `Base64.PadsAtEnd` | cs426-fall24/lab1/det_bcrypt/det_bcrypt.go:31-39 | the padding stands at the end and nowhere else, so the trimming loop stops in range |
| `Base64.PadGroupRefused` | cs426-fall24/lab1/det_bcrypt/det_bcrypt.go:41-53 | four padding characters at the end are refused, whatever comes before, line breaks included |
| `Base64.StoredPassword` | cs426-fall24/lab1/det_bcrypt/det_bcrypt.go:164-195 | for every 16-byte salt and 23-byte digest the encoded sizes fit the format, the printed hash parses back, and the salt decodes to its bytes |

## Left out

- Raft restart, `persist` and `readPersist`: votes and new terms are not persisted before they are used, so runs are crash-stop.
- Timers, timeouts and the buffered commit channel: a step may come at any moment or never, so what `RaftLive` shows can happen need not happen in time.
- The second test of leader and term just before a call is sent (raft.go:157) only drops calls, as the network may; the model makes the call anyway.
- The branch for a previous index before the first log slot (raft.go:213-215) cannot be reached, since slot 0 has index 0; it has no counterpart.
- The apply loop's update of `lastApplied` after it has let go of the lock is done together with the copy; no other code reads that field.
- RaftServer.Raft.OnVoteReply: asks that a winner's first heartbeats be in range, where the code would panic; `RaftProgress.NothingOutOfRange` shows it holds in every run whose winners' match indices lie within their logs.
- RaftServer.Raft.RespAppendEntries: asks that the agreement index lie in the log, where the code would panic; same remark.
- RaftServer.Raft.SendHeartbeats: asks that every next index lie in 1..len(log), where the code would panic; `RaftProgress.CallsInRange` shows it holds in every run.
- RaftServer.Raft.Start: asks the same of a leader; same remark.
- RaftServer.Raft.CollectCommitted: asks that the commit index lie in the log, where the code would panic; `RaftProgress.NothingOutOfRange` shows it holds in every run whose winners' match indices lie within their logs.
- RaftServer.Raft.AppendEntries: takes calls whose entries are numbered on from the previous index, as every call of every run is.
- `labrpc` and `labgob`: only loss, delay, reordering and at-most-once execution are kept.
- The checker's flags stand at their defaults (checks on, 10 ms of slack), and its `overwrittenAt`, which the code never sets, is dropped.
- Checker runs have no deletes, as the stress driver has none, and never reuse a value, as the checker demands.
- CheckerRuns.FoundNeverReported: a failed write may not land while another write is in flight after its own record, nor once its value is retired; `CheckerRuns.StragglerMisreported` and `CheckerRuns.StragglerExact` show that the checker then reports a value that was really read.
- CheckerRuns.MissingExact: is about a checker at rest with no value past its earliest expiry one nanosecond on, since any such value silences the branch.
- Writes to a shard while a node copies it: they may happen, but end the promise of their key, since the merge may overwrite them; overlapping update handlers on one node: the code gives no guarantee there.
- KvNode.KvServerImpl.MergeResponse: asks that the fetched keys belong to the shard, which `KvRuns.Placement` shows of every run.
- KvNode.KvServerImpl.HandleShardMapUpdate: has nothing in between its halves; what comes in between is in `KvCluster`, whose steps use the same functions.
- A node's update reads its own shards from the map once, when it begins; the code reads them several times under its lock. Each fetch reads the map anew, as in the code.
- Shard numbers are Go ints throughout; the truncation to 32 bits inside the node is not modelled. The hash of a key is an arbitrary function.
- Random choices (replica to start from, nodes to add, hosts to drop) are arbitrary choices or parameters.
- KvClient.ReadAfterWrite: the shard map is fixed, and failed calls are any failures; a Set's calls may land at any moments before it returns.
- RemoveNode, DropShard and the random variants of the workflows: they lose data on purpose or add nothing.
- The random assignment of shards without `--stripe`: a library call.
- Base64.Base64Encode: asks for at least one byte; for none the code reads before its buffer.
- Locks, goroutines and the gRPC layer of node and client: each action under a lock is one step.
- Blowfish, the key schedule and password comparison; salts and digests are arbitrary bytes.
- Lab 0, the lab 1 services, lab 2, client pools, file watching, logging and the command-line tools: plumbing around simple loops.
