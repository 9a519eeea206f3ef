# LogAct verification

A Dafny model of LogAct, an intention/vote/commit protocol over an append-only shared log, with proofs
of what its documentation and tests promise. `dafny verify dfyconfig.toml` checks the whole project.

| file | component | what is proved |
|---|---|---|
| `Bus.dfy` | payloads and filters | shared vocabulary |
| `WriteOnceSpace.dfy` | write-once space, windowed tail | when a windowed tail is the true tail; the top-k query form equals the scan |
| `WriteOnceLog.dfy` | `WriteOnceAgentBus::append` | contiguity, exactly-once, real-time order, retry bound, over every interleaving, with tails found by non-atomic scans |
| `ReadRange.dfy` | `read_next`, `read_range` | chunked filtered reads equal the first matches of the range |
| `History.dfy`, `Linearizability.dfy` | linearizability checker | candidate completion; the checker accepts exactly the linearizations |
| `Decider.dfy`, `DeciderRuns.dfy` | bus decider and vote trackers | decisions are a function of the log; all instances agree |
| `Counter.dfy`, `CounterCounting.dfy`, `LogEvidence.dfy`, `CounterRuns.dfy` | replicated counter clients | every run's tag order is a linearization, its outputs are right by counting, and its log backs the reported writes |
| `CommitService.dfy`, `CommitPolicy.dfy`, `InMemCommitService.dfy` | in-memory commit service, `replay` as one step | replay state is the fold of the log; one decision per intention; policy versions |
| `CommitInterleaving.dfy` | the same service, every bus call a step | the first logged decision is returned; decisions the policy gives at once never conflict |
| `CommitConflicts.dfy` | the same | exactly when an intention can end with conflicting decisions |
| `Executor.dfy` | simulator's deterministic executor | no lost task or wake; sleeps fire exactly on time and in order |
| `CachingSpace.dfy`, `CachingRuns.dfy` | caching write-once space | reads equal backing reads across expiry; limits hold; the least recently used goes first |

Runs are pairs of a state sequence and a step sequence (`IsRun`); theorems over runs quantify over all of
them. Randomness, clocks, poll outcomes, backend errors, other writers and eviction are step or method
parameters, so every choice is covered. The state machines model one bus; buses share no log state.

## Findings

Four properties fail for some inputs; each has its exact condition.

- Constraint aborts after `create_bus` (logact/commit_service/impls/inmem/src/lib.rs:211-216): on a bus that
  already has entries and no adopted policy the batch is adopted by replay but not cached. An intention
  submitted next is aborted for its version constraint exactly when the provider has moved past the version
  the bus was created with (`CommitService.CreateBusAbortsIff`, `InMemCommitService.CreateThenCommit`). In
  general a submission meets its constraint exactly when the cache was right or the version in force is already
  high enough (`CommitService.ConstraintMetIff`). `CommitService.CreateBusOnUsedBusBreaksConstraint` is a log.
- Conflicting decisions (logact/commit_service/impls/inmem/src/lib.rs:373-388): racing callers can log
  different decisions for one intention exactly when its constraint is met and the policy in force holds it for a
  vote (`CommitConflicts.ConflictPossibleIff`); otherwise every decision ever logged for it is the policy's
  (`CommitInterleaving.PolicyExcludesConflict`). `CommitConflicts.ConflictHappens` is a log. Callers still
  return the first decision logged.
- Skipped entries (bus/impls/simple/src/in_memory_agentbus_state.rs:197-231): the in-memory bus, asked to read
  beyond its tail, moves the cursor past unwritten positions. A read skips nothing appended later exactly
  when it stays within the log, or finds its limit of matches there, or filters for what no entry can be
  (`ReadRange.ReadSkipsNothingIff`). It panics exactly when the start is beyond a nonempty log
  (`ReadRange.ReadFilteredInMemory`).
- Stale cache hits (bus/impls/writeonce/src/caching_write_once_space.rs:146-184): after `with_write_ttl` on a
  cache in use over an expiring space, some run answers a lookup with a value the backing space no longer
  holds exactly when a write of a value that fits the cache is in flight at that moment
  (`CachingRuns.ConfigureInUseIff`). `CachingRuns.LateInsertOutlivesBacking` is a run.

## Model

| member | source | states |
|---|---|---|
| `WriteOnceSpace.InMemoryWriteOnceSpace.Write` | bus/impls/writeonce/src/in_memory_write_once_space_state.rs:48-65 | a write succeeds exactly on an unwritten address, stores the value there, and changes nothing else; a refused write changes nothing |
| `WriteOnceSpace.InMemoryWriteOnceSpace.Read` | bus/impls/writeonce/src/in_memory_write_once_space_state.rs:67-73 | a value is returned exactly for a written address, and it is the one stored |
| `WriteOnceSpace.InMemoryWriteOnceSpace.FindTail` | bus/impls/writeonce/src/in_memory_write_once_space_state.rs:75-93 | the scan returns the first gap of the last `window` addresses, or the end; a zero window is the error case |
| `WriteOnceSpace.FirstGap` | bus/api/src/tailable_space.rs:28-40 | the result is the least unwritten address of the range, or its end |
| `WriteOnceSpace.WindowTailExact` | bus/api/src/tailable_space.rs:28-40 | the windowed tail is the first unwritten address of a full scan if and only if the two tails are at most a window apart |
| `WriteOnceSpace.SqliteTail` | bus/impls/sqlite/src/sqlite_conditional_write_space.rs:93-119 | seeing only the `window` largest addresses, the query form returns the in-memory scan's result for every address set |
| `WriteOnceSpace.TopRowsSeeWindow` | bus/impls/sqlite/src/sqlite_conditional_write_space.rs:98-118 | an address of the window is written if and only if it is among the queried rows |
| `WriteOnceLog.TailIsLength` | bus/impls/writeonce/src/write_once_agentbus.rs:34-36 | over a contiguous space a tail window of one address finds the length of the log |
| `WriteOnceLog.ScannedTail` | bus/api/src/tailable_space.rs:28-40 | a tail found by an unordered, non-atomic scan lies between the log's lengths when the scan began and when it ended |
| `WriteOnceLog.StepKeepsInv` | bus/impls/writeonce/src/write_once_agentbus.rs:146-225 | every await-to-await step of appends, polls and evictions keeps the invariant on addresses, hints, in-flight positions and authorship |
| `WriteOnceLog.RunKeepsInv` | bus/impls/writeonce/src/write_once_agentbus.rs:75-83 | the invariant holds in every state of every run |
| `WriteOnceLog.LogIsContiguous` | bus/impls/writeonce/src/write_once_agentbus.rs:155-205 | in every reachable state the written addresses are exactly [0, n), headers equal slots, hints and in-flight positions are at most n, and the one-address window is exact |
| `WriteOnceLog.ExactlyOnce` | bus/impls/writeonce/src/write_once_agentbus.rs:168-224 | a returned append's payload is at the returned position and nowhere else; a failed one has at most one entry; one still retrying has none |
| `WriteOnceLog.StepAppendsAtMostOne` | bus/impls/writeonce/src/write_once_agentbus.rs:168-190 | refinement: every step leaves the log as a sequence unchanged or appends the storing append's payload at its end |
| `WriteOnceLog.LaterAppendGetsLargerPosition` | bus/impls/writeonce/src/write_once_agentbus.rs:146-225 | an append that starts after another returned gets a larger position |
| `WriteOnceLog.FreshHintFindsFree` | bus/impls/writeonce/src/write_once_agentbus.rs:75-83 | after an append or a poll has published the end of the log, the next append through the same handle finds its first address free |
| `WriteOnceLog.FailuresAreCounted` | bus/impls/writeonce/src/write_once_agentbus.rs:191-206 | the counters of the retry bound are the numbers of the append's refused writes and of its transaction conflicts in the run |
| `WriteOnceLog.FailedAttemptsAreBounded` | bus/impls/writeonce/src/write_once_agentbus.rs:168-206 | in every state, for every append, retrying, failed or returned: failed attempts number at most one, plus transaction conflicts, plus the entries others added since it started; once it has returned, only those before its own position |
| `ReadRange.MatchesMeaning` | bus/api/src/helpers.rs:363-364 | the reference result holds exactly the wanted positions of the range, each once, in increasing order: unfiltered, every entry with a payload; filtered, exactly those whose kind has a listed wire number, kind by kind |
| `ReadRange.SelectedIsWanted` | bus/api/src/helpers.rs:27-61 | the filter test used by both buses selects exactly the wanted entries |
| `ReadRange.ReadFilteredWriteOnce` | bus/impls/writeonce/src/write_once_agentbus.rs:391-456 | returns all matches before its cursor, at most the capped limit, stops short only at the limit, and reports a missing position exactly when it runs off the log before the limit |
| `ReadRange.ReadFilteredInMemory` | bus/impls/simple/src/in_memory_agentbus_state.rs:172-232 | the same within the log; beyond the tail the cursor jumps to the requested end exactly when the limit was not reached; panics exactly when the start is beyond a nonempty log |
| `ReadRange.ReadNext` | bus/impls/writeonce/src/write_once_agentbus.rs:314-357 | invalid arguments are rejected exactly as listed, every other read within the log is served on either bus, and the cursor always advances |
| `ReadRange.ReadRange` | bus/api/src/helpers.rs:365-400 | terminates, never reports a stuck cursor, and within the log returns exactly the first min(limit, count) wanted entries with a cursor before which nothing was skipped, while the log grows between calls |
| `ReadRange.MatchesCompose` | bus/api/src/helpers.rs:376-398 | matches of adjacent ranges concatenate to those of the whole |
| `ReadRange.CursoredReadsCompose` | bus/api/src/helpers.rs:363-400 | any chain of cursored reads delivers every match of the covered range once and in order |
| `ReadRange.ReadSkipsNothingIff` | bus/impls/simple/src/in_memory_agentbus_state.rs:197-231 | for a read of [start, end) by the in-memory bus: nothing appended later is skipped if and only if the range is within the log, or the limit is found there, or no entry can match the filter |
| `ReadRange.PastTailSkips` | bus/impls/simple/src/in_memory_agentbus_state.rs:198-231 | entries that arrive below a cursor already past the tail are lost to it |
| `History.PrecedesIsStrictOrder` | bus/testing/linearizability/src/history.rs:242-248 | on sequential clients precedence is irreflexive, transitive and asymmetric |
| `History.SomeMinimal` | bus/testing/linearizability/src/history.rs:100-116 | every nonempty set of operations of sequential clients has one that none precedes |
| `History.FindSource` | bus/testing/linearizability/src/history.rs:101-116 | finds the unpreceded operation least by client, then sequence, and fails only when every operation is preceded |
| `History.FindGap` | bus/testing/linearizability/src/history.rs:119-129 | the bounds are the tightest: after everything that precedes the operation and before everything it precedes |
| `History.CompleteCandidate` | bus/testing/linearizability/src/history.rs:78-138 | success yields a permutation of all operations keeping the anchors' order and, for respectful anchors, precedence on every pair, by placing the least free operation at its earliest legal position each time; on sequential histories with respectful known anchors it never fails |
| `History.CompletionIsUnique` | bus/testing/linearizability/src/history.rs:67-77 | the placement rule determines the completion: two results for the same observations and anchors are equal |
| `History.RecordingOrderIsIrrelevant` | bus/testing/linearizability/src/history.rs:80-83 | the index, and with it the completion, does not depend on the order in which operations were recorded |
| `History.PlacesNext` | bus/testing/linearizability/src/history.rs:101-135 | the chosen operation and the scanned bound are the least free operation and its earliest legal position |
| `Linearizability.CheckIds` | bus/testing/linearizability/src/history.rs:148-163 | accepts exactly when ids are distinct and the candidate is a permutation of them |
| `Linearizability.NeighboursIff` | bus/testing/linearizability/src/history.rs:177-196 | gapless numbering and non-overlap of neighbours hold if and only if all pairs of the client's operations are ordered and none is missing |
| `Linearizability.CheckClients` | bus/testing/linearizability/src/history.rs:165-196 | accepts exactly the histories whose clients are sequential and gapless |
| `Linearizability.CheckClientOrder` | bus/testing/linearizability/src/history.rs:203-214 | comparing with the last seen sequence number accepts exactly the candidates that keep every pair of a client's operations in order |
| `Linearizability.CheckRealTime` | bus/testing/linearizability/src/history.rs:216-227 | accepts exactly when every operation that ended before another started stands before it |
| `Linearizability.RespectsIff` | bus/testing/linearizability/src/history.rs:198-248 | client order and real-time order together are precedence on every pair |
| `Linearizability.Verify` | bus/testing/linearizability/src/history.rs:141-239 | sound and complete: accepts if and only if the history is well formed and the candidate is a linearization of it |
| `Decider.PolicyAt` | bus/core/src/decider.rs:299-304 | the policy for an entry is the last one set before it, on-by-default if none |
| `Decider.FirstBallot` | bus/core/src/vote_trackers.rs:64-95 | the first boolean vote naming the intention after it, or none exists |
| `Decider.FoldMeaning` | bus/core/src/decider.rs:186-304 | after any prefix the decider's policy and every tracker are what the log's intentions, votes and policies determine |
| `Decider.OutputMeaning` | bus/core/src/decider.rs:231-296 | a decision is appended exactly at the entry that makes the log decide an intention, with the log's verdict and reason |
| `Decider.OutputOnPayloads` | bus/core/src/decider.rs:231-327 | on the payloads themselves: a Commit is appended exactly at an intention under on-by-default or at the first boolean vote for a held one when it approves, an Abort exactly under off-by-default or when that vote denies, with the reason spelled out |
| `Decider.DecisionIsStable` | bus/core/src/vote_trackers.rs:27-123 | a decision determined by a prefix is the same on every longer prefix |
| `Decider.Decider.ProcessEntry` | bus/core/src/decider.rs:186-228 | the object's memory, the decision it appends (as `Decider.OutputOnPayloads` spells out) and its cursor after one entry; control entries and unknown payloads are errors that change nothing |
| `Decider.Decider.PollAndDecide` | bus/core/src/decider.rs:98-137 | whatever the batch, memory is the fold of the consumed log and exactly its decisions were appended |
| `DeciderRuns.OneCausePerIntention` | bus/core/src/decider.rs:231-296 | only one entry of a log can trigger the decision of a given intention |
| `DeciderRuns.StepKeepsInv` | bus/core/src/decider.rs:98-137 | every step of any number of deciders and other writers keeps the invariant |
| `DeciderRuns.RunKeepsInv` | bus/core/src/decider.rs:98-137 | it holds in every reachable state, restarts included |
| `DeciderRuns.DecisionsAgree` | bus/core/src/decider.rs:186-304 | all decisions deciders append for one intention are the same payload: the Commit or Abort of the default policy in force or of the first boolean vote, with its reason; one instance appends at most one |
| `DeciderRuns.DecisionsArePublished` | bus/core/src/decider.rs:231-296 | an instance with nothing left to append has appended the decision of every intention decided by what it consumed |
| `Counter.AgentBusCounter.Process` | bus/testing/linearizability/counter/src/agentbus.rs:217-280 | the client's state and completion after one entry |
| `Counter.AgentBusCounter.PollAndProcess` | bus/testing/linearizability/counter/src/agentbus.rs:143-184 | a poll that can make no progress fails and changes nothing; any other keeps the client equal to a replay of the log up to its cursor and reports the last completion in the batch |
| `Counter.AgentBusCounter.DrainTo` | bus/testing/linearizability/counter/src/agentbus.rs:282-294 | draining reaches the tail and reports the last completion of the whole range, failing only for a poll size that allows no progress |
| `Counter.BufferedMeaning` | bus/testing/linearizability/counter/src/agentbus.rs:247-279 | a write is buffered exactly from its intention until its decision |
| `Counter.ValueStep` | bus/testing/linearizability/counter/src/agentbus.rs:257-267 | the counter moves exactly at commits of writes, by the committed operation (`CounterCounting.ValueCounts` gives the number) |
| `CounterCounting.ValueCounts` | bus/testing/linearizability/counter/src/agentbus.rs:247-279 | after any prefix a client holds the number of committed increments minus committed decrements in it |
| `CounterCounting.ReplayCounts` | bus/testing/linearizability/counter/src/counter.rs:147-178 | the specification accepts an order from zero if and only if each output is a denied write or the number of granted increments minus granted decrements up to and including it |
| `Counter.CompletedMeaning` | bus/testing/linearizability/counter/src/agentbus.rs:296-310 | draining completes the watched write if and only if its decision is in the range, with the right output and tag |
| `Counter.CandidateFromOrderedTags` | bus/testing/linearizability/src/object.rs:208-233 | the candidate lists exactly the observations, repeated ids included, in lexicographic order of tag, writes before reads, start, client and sequence; strictly so when ids are distinct |
| `LogEvidence.CommandHistory` | bus/testing/linearizability/counter/src/agentbus.rs:474-518 | the record a client builds from its entries is the reference list of committed commands |
| `LogEvidence.CommandsMeaning` | bus/testing/linearizability/counter/src/agentbus.rs:474-518 | that list holds exactly the commands applied by commits, by increasing log position |
| `LogEvidence.VerifyLogEvidence` | bus/testing/linearizability/counter/src/agentbus.rs:520-581 | accepts exactly when the records of all clients are equal, tags of successful writes are distinct, and the record lists exactly their commands in tag order, although it only zips two sorted lists |
| `CounterRuns.StepKeepsInv` | bus/testing/linearizability/counter/src/agentbus.rs:282-328 | every step of clients, decider and other writers keeps the invariant relating client state, log and recorded operations |
| `CounterRuns.RunKeepsInv` | bus/testing/linearizability/counter/src/agentbus.rs:143-328 | it holds in every reachable state |
| `CounterRuns.RecordsAreTimed` | bus/testing/linearizability/src/object.rs:117-141 | every recorded operation starts at the time of its invocation and ends at that of its return, so precedence in the history is precedence in the run |
| `CounterRuns.HistoryIsWellFormed` | bus/testing/linearizability/src/history.rs:165-196 | recorded histories always have distinct ids and sequential, gapless clients |
| `CounterRuns.PrecedesIsTagOrder` | bus/testing/linearizability/src/object.rs:216-228 | real-time and client precedence between recorded operations imply tag order |
| `CounterRuns.ReplayStep` | bus/testing/linearizability/counter/src/agentbus.rs:312-328 | replaying one more operation of the tag order yields its observed output |
| `CounterRuns.CounterIsLinearizable` | bus/testing/linearizability/counter/src/agentbus.rs:143-328 | in every state of every run in which no unfinished operation is committed (in particular once all workers are done) the tag order is a linearization of the history, and each output in it is a denied write or the count of granted increments minus decrements |
| `CounterRuns.EvidenceHolds` | bus/testing/linearizability/counter/src/agentbus.rs:446-464 | every settled run leaves that evidence |
| `CounterRuns.CheckRun` | bus/testing/linearizability/src/object.rs:151-166 | on every settled run the log evidence is accepted and the candidate built from the tags is accepted by the checker |
| `CommitService.ConsumeKeepsSync` | logact/commit_service/impls/inmem/src/lib.rs:411-423 | consuming the entry at the cursor keeps the replay state equal to the fold of the log |
| `CommitService.DrainedSyncs` | logact/commit_service/impls/inmem/src/lib.rs:373-388 | clearing the pending intention before the drain abort is replayed leaves what replaying the abort leaves |
| `CommitService.ConsumeKeepsDecisions` | logact/commit_service/impls/inmem/src/lib.rs:273-341 | decisions keep naming earlier consumed intentions, each at most once and never the pending one |
| `CommitService.DrainKeepsDecisions` | logact/commit_service/impls/inmem/src/lib.rs:373-388 | the drain abort of an undecided intention keeps decisions unique |
| `CommitService.ConsumeLeavesLessWork` | logact/commit_service/impls/inmem/src/lib.rs:390-429 | decisions produce no output, so replaying an entry always lowers the work left |
| `CommitService.FoldVersion` | logact/commit_service/impls/inmem/src/lib.rs:254-272 | the fold's version is the one the log's compare-and-set batches reach |
| `CommitService.VersionsGrow` | logact/commit_service/impls/inmem/src/lib.rs:254-258 | adopted versions never decrease |
| `CommitPolicy.VersionMeaning` | logact/commit_service/impls/inmem/src/lib.rs:254-272 | the version in force is that of the last adopted batch, adopted meaning that it expects the version before it and brings a newer one; none before the first |
| `CommitPolicy.KindAfter` | logact/commit_service/impls/inmem/src/lib.rs:259-270 | the kind in force is the policy of the last adopted batch that carries one, on-by-default before |
| `CommitPolicy.FoldKind` | logact/commit_service/impls/inmem/src/lib.rs:259-270 | a replay holds exactly that kind |
| `CommitPolicy.FoldFailsIff` | logact/commit_service/impls/inmem/src/lib.rs:259-265 | a replay fails exactly when it meets an adopted batch whose policy is none of the three known numbers |
| `CommitPolicy.PendingMeaning` | logact/commit_service/impls/inmem/src/lib.rs:259-340 | an intention is pending exactly when it was held and since then no decision for it, no boolean vote for it, no later held intention and no adopted batch with a policy came |
| `CommitPolicy.DecisionAtIntention` | logact/commit_service/impls/inmem/src/lib.rs:273-314 | what a replay decides at an intention, from the version and kind in force: constraint abort, approval, denial or nothing |
| `CommitPolicy.DecisionElsewhere` | logact/commit_service/impls/inmem/src/lib.rs:315-340 | elsewhere it decides exactly at a boolean vote for the waiting intention, as the vote says and with its reason |
| `CommitPolicy.ReconciledKind` | logact/commit_service/impls/inmem/src/lib.rs:126-150 | a reconcile puts the provider's policy in force exactly when the cached version was right and the provider's is newer |
| `CommitService.ReconcileKeepsVersion` | logact/commit_service/impls/inmem/src/lib.rs:126-150 | a batch expecting the cached version is adopted, so the updated cache equals a full replay's version |
| `CommitService.ConstraintMetIff` | logact/commit_service/impls/inmem/src/lib.rs:118-152 | after a reconcile at version d the minimum version d is met if and only if the cached version was the one in force or the version in force is at least d |
| `CommitService.CreateBusKeepsVersionIff` | logact/commit_service/impls/inmem/src/lib.rs:174-216 | `create_bus` keeps the cache right if and only if the bus is empty or a policy was adopted |
| `CommitService.CreateBusAbortsIff` | logact/commit_service/impls/inmem/src/lib.rs:174-216 | after `create_bus` at v on a used bus without policy, a submission at provider version d fails its constraint if and only if d > v |
| `CommitService.CreateBusOnUsedBusBreaksConstraint` | logact/commit_service/impls/inmem/src/lib.rs:211-216 | a concrete log on which the cache falls behind and a submitted intention is aborted for its constraint |
| `CommitService.MetIntentionFollowsPolicy` | logact/commit_service/impls/inmem/src/lib.rs:273-314 | an intention whose minimum is met is handled by the policy in force, of at least that version |
| `InMemCommitService.DrainStep` | logact/commit_service/impls/inmem/src/lib.rs:373-388 | the drain happens only with the intention undecided and leaves the loop invariant in its drained form |
| `InMemCommitService.ConsumeStep` | logact/commit_service/impls/inmem/src/lib.rs:404-428 | consuming an entry, drained or not, restores the state to the fold |
| `InMemCommitService.ConsumeKeepsCauses` | logact/commit_service/impls/inmem/src/lib.rs:413-417 | everything replay produces is logged and every logged decision was produced or is a drain abort |
| `InMemCommitService.SubmittedOutcome` | logact/commit_service/impls/inmem/src/lib.rs:273-330 | every decided intention has the decision that the version and kind in force at it give at once, or, when held, that of the boolean vote that came while it waited, or the drain |
| `InMemCommitService.LoggedOutcomeMeaning` | logact/commit_service/impls/inmem/src/lib.rs:447-462 | an entry reports an outcome for an intention exactly when it is the Commit or Abort naming it, approved and reason as logged |
| `InMemCommitService.InMemCommitService.ReconcilePolicy` | logact/commit_service/impls/inmem/src/lib.rs:118-152 | unusable policies are refused; otherwise the provider's version is returned, a batch is appended and cached exactly when it is newer, and the cache stays the version of a full replay |
| `InMemCommitService.InMemCommitService.CreateBus` | logact/commit_service/impls/inmem/src/lib.rs:167-218 | appends an unconditional first batch, caches it only on an empty bus, and keeps the cache right exactly under the stated condition |
| `InMemCommitService.InMemCommitService.Visit` | logact/commit_service/impls/inmem/src/lib.rs:404-428 | one entry: replay advances when the cursor has not passed it, and the intention's decision is reported when met |
| `InMemCommitService.InMemCommitService.Replay` | logact/commit_service/impls/inmem/src/lib.rs:350-431 | terminates; adds only decisions; the replay state is the fold afterwards; a returned outcome is the intention's one and only decision; fails only at an unreadable policy batch, never with policies the service wrote |
| `InMemCommitService.InMemCommitService.CommitIntention` | logact/commit_service/impls/inmem/src/lib.rs:220-236 | the log grows by the reconcile's batch if any, the intention and decisions; the intention has exactly one decision, the returned one: the constraint abort if and only if the cached version was wrong and the version in force too low, else approval, denial or the drain by the kind in force, which is the provider's own when its batch is adopted |
| `InMemCommitService.CreateThenCommit` | logact/commit_service/impls/inmem/src/lib.rs:167-236 | `create_bus` on a used bus followed by a submission: aborted for its constraint if and only if the provider has moved past the created version |
| `CommitInterleaving.ConsumeNear` | logact/commit_service/impls/inmem/src/lib.rs:411-423 | with racing callers, a replay state differing from the fold only by an early-cleared pending intention stays so and produces the fold's decision or none |
| `CommitInterleaving.PendingIsOpen` | logact/commit_service/impls/inmem/src/lib.rs:307-340 | the fold holds an intention pending only while what it has read contains no decision for it |
| `CommitInterleaving.StepKeepsInv` | logact/commit_service/impls/inmem/src/lib.rs:355-430 | every bus-call step of every caller keeps the invariant |
| `CommitInterleaving.RunKeepsInv` | logact/commit_service/impls/inmem/src/lib.rs:355-430 | it holds in every reachable state |
| `CommitInterleaving.DecisionsNameEarlierIntentions` | logact/commit_service/impls/inmem/src/lib.rs:355-430 | every logged decision names a strictly earlier intention, in every reachable state |
| `CommitInterleaving.ReturnsFirstDecision` | logact/commit_service/impls/inmem/src/lib.rs:404-462 | what `commit_intention` returned is, then and ever after, the first decision logged for its own intention |
| `CommitInterleaving.CaughtUpIsFold` | logact/commit_service/impls/inmem/src/lib.rs:411-423 | whenever the shared cursor has reached the end of the log the shared state is exactly the fold |
| `CommitInterleaving.FoldDecidesOnce` | logact/commit_service/impls/inmem/src/lib.rs:247-343 | a pure replay decides each intention at most once |
| `CommitInterleaving.ConflictsComeFromDrains` | logact/commit_service/impls/inmem/src/lib.rs:373-388 | two decisions logged for one intention are equal unless one is a drain abort |
| `CommitInterleaving.PolicyExcludesConflict` | logact/commit_service/impls/inmem/src/lib.rs:273-314 | in every reachable state, if the policy in force at an intention does not hold it, every decision logged for it is the one that policy gives and no caller drains it |
| `CommitInterleaving.DrainedIsHeld` | logact/commit_service/impls/inmem/src/lib.rs:373-381 | a caller that finds the log drained without a decision is waiting for an intention the fold held |
| `CommitInterleaving.DrainClears` | logact/commit_service/impls/inmem/src/lib.rs:383-388 | after its drain abort a caller leaves its intention not pending and nothing else changed |
| `CommitConflicts.SoloReaches` | logact/commit_service/impls/inmem/src/lib.rs:355-430 | from every state, a caller of a held intention running alone arrives, in finitely many steps, about to abort it while it is still pending |
| `CommitConflicts.ConflictFollows` | logact/commit_service/impls/inmem/src/lib.rs:373-428 | from every such state a vote and a second caller lead to a commit and a drain abort of the same intention |
| `CommitConflicts.ConflictPossibleIff` | logact/commit_service/impls/inmem/src/lib.rs:247-430 | in every reachable state with a readable log, the intention submitted next can end with conflicting decisions if and only if its constraint is met and the policy in force holds it for a vote |
| `CommitConflicts.ConflictHappens` | logact/commit_service/impls/inmem/src/lib.rs:373-428 | a reachable log holding a commit and a drain abort of the same intention |
| `Executor.DeterministicExecutor.SpawnNamed` | bus/simulator/src/lib.rs:287-300 | a spawned task enters the events with a fresh sequence; the invariant holds during a poll too |
| `Executor.DeterministicExecutor.SpawnAfter` | bus/simulator/src/lib.rs:302-316 | a sleep enters the sleeps with target clock plus duration |
| `Executor.DeterministicExecutor.WakeByRef` | bus/simulator/src/lib.rs:229-241 | a wake is queued, whatever state its task is in |
| `Executor.DeterministicExecutor.ProcessWakes` | bus/simulator/src/lib.rs:349-361 | the queue is emptied and exactly the woken blocked tasks become events |
| `Executor.DeterministicExecutor.TakeNext` | bus/simulator/src/lib.rs:368-391 | the first sleep runs if due strictly before the jittered event time or alone, else the drawn event, whose place the last event takes; the clock moves accordingly |
| `Executor.DeterministicExecutor.PollOne` | bus/simulator/src/lib.rs:371-405 | one iteration: selection, clock, effects of the poll in order; a pending task is blocked and not finished, any other is finished and not blocked |
| `Executor.DeterministicExecutor.Run` | bus/simulator/src/lib.rs:337-415 | keeps the invariant (every unfinished task in exactly one place, clock never past a pending sleep, sleeps first polled at their target and popped in strictly increasing order); the final state is that many iterations of the loop; a normal end leaves nothing runnable and no wake unserved; the reported counts are the history's |
| `Executor.TakeSleepKeepsInv` | bus/simulator/src/lib.rs:373-391 | popping the first sleep lands the clock on its target and keeps the pop order strict |
| `Executor.TakeEventKeepsInv` | bus/simulator/src/lib.rs:377-391 | running an event at a time no sleep precedes keeps the invariant |
| `Executor.UnblockKeepsInv` | bus/simulator/src/lib.rs:350-354 | taking a wake off the queue loses neither the task nor the wake |
| `Executor.SettleKeepsInv` | bus/simulator/src/lib.rs:401-404 | a pending task blocks and a finished one leaves, with wakes raised during its own poll kept |
| `Executor.PushAscends` | bus/simulator/src/lib.rs:188-194 | inserting a sleep keeps the (target, sequence) pop order |
| `Executor.EndLosesNoWake` | bus/simulator/src/lib.rs:349-361 | with nothing runnable left, every wake was followed by a poll unless its task finished, and every unfinished task is blocked with no unserved wake |
| `CachingSpace.EvictionsLeast` | bus/impls/writeonce/src/caching_write_once_space.rs:94-103 | an insert evicts the fewest least recently used entries that make room in bytes and count |
| `CachingSpace.InsertKeepsBounds` | bus/impls/writeonce/src/caching_write_once_space.rs:76-104 | byte count, entry, byte and per-entry limits hold after any insert |
| `CachingSpace.TouchKeepsBounds` | bus/impls/writeonce/src/caching_write_once_space.rs:61-74 | refreshing an entry keeps the byte count, distinct keys and limits |
| `CachingSpace.TouchKeepsRecency` | bus/impls/writeonce/src/caching_write_once_space.rs:61-74 | a found lookup keeps the entries ordered by their last use |
| `CachingSpace.EvictsLeastRecent` | bus/impls/writeonce/src/caching_write_once_space.rs:94-103 | whatever an insert evicts was last used before everything that stays |
| `CachingSpace.Cache.Get` | bus/impls/writeonce/src/caching_write_once_space.rs:61-74 | answers exactly when an unexpired entry has the key, with its value; a found entry becomes the last one and the others keep their order; entries stay ordered by last use |
| `CachingSpace.Cache.Insert` | bus/impls/writeonce/src/caching_write_once_space.rs:76-104 | a value is inserted exactly when no limit is zero, it fits both size limits and the key is new; the loop leaves exactly the specified entries and byte count; over every sequence of calls an evicted key was last used before every key that stays |
| `CachingSpace.Cache.WithWriteTtl` | bus/impls/writeonce/src/caching_write_once_space.rs:146-161 | the TTL is set and the cache emptied with its byte count |
| `CachingRuns.StepKeepsInv` | bus/impls/writeonce/src/caching_write_once_space.rs:171-204 | every step of readers, writers, other writers, expiry and reconfiguration keeps cached and in-flight values backed until their deadlines |
| `CachingRuns.CachedWriteAnswers` | bus/impls/writeonce/src/caching_write_once_space.rs:171-194 | a confirmed write that fits is cached and answers lookups with its value until its deadline |
| `CachingRuns.WriteDeadline` | bus/impls/writeonce/src/caching_write_once_space.rs:172-178 | the deadline is the start of the write plus the TTL |
| `CachingRuns.FetchedIsCached` | bus/impls/writeonce/src/caching_write_once_space.rs:195-203 | a value read from the backing space is cached without a write TTL and never with one |
| `CachingRuns.InvIsCoherent` | bus/impls/writeonce/src/caching_write_once_space.rs:186-194 | whatever the cache would answer now, the backing space would answer now |
| `CachingRuns.HitsMatchBacking` | bus/impls/writeonce/src/caching_write_once_space.rs:186-194 | in every reachable state a hit equals the backing read |
| `CachingRuns.ReadReturnsBacking` | bus/impls/writeonce/src/caching_write_once_space.rs:186-204 | whatever a read returns, the backing space held at some moment of that read, across evictions, failed writes, expiry and rewriting |
| `CachingRuns.LimitsHold` | bus/impls/writeonce/src/caching_write_once_space.rs:76-140 | in every reachable state the running byte count equals the sum of cached lengths and all limits hold |
| `CachingRuns.UnconfiguredStays` | bus/impls/writeonce/src/caching_write_once_space.rs:171-204 | without `with_write_ttl`, writes over an expiring space stay in flight without a deadline |
| `CachingRuns.ConfigureInUseIff` | bus/impls/writeonce/src/caching_write_once_space.rs:142-161 | after turning the write TTL on over an expiring space in use, some run answers a lookup with a value the backing space no longer holds if and only if a write of a value that fits the cache is in flight |
| `CachingRuns.LateInsertOutlivesBacking` | bus/impls/writeonce/src/caching_write_once_space.rs:171-184 | a concrete run in which a write started before that answers reads after the backing entry expired |

## Left out

- Expiry in the bus and in the write-once space outside the cache model: contiguity and replay assume entries stay.
- Several buses in one map: each bus's state is independent, so one bus is modelled; only hint eviction couples them and it may happen at any step.
- Vote trackers are values instead of mutable objects behind an interface; their register and vote transitions are functions of the old value.
- Sleep heap as its pop order: the standard library heap is modelled by the sorted sequence it pops.
- Integer widths (log positions, versions, byte counts, durations) are unbounded; `window as i64` beyond its range is not modelled.
- Counter command text encoding is a structured body; decoding errors and the `skip_commits` mode are not modelled.
- Waiting and timeouts of `blocking_poll`: a poll returns what the log holds; `poll` with its `complete` flag is not modelled.
- Recovery of a decider after a failed append, and entries without any payload, which its filter excludes.
- Policy provider, voter operations in batches and error texts of the commit service; a bus call of the service does not fail.
- `CommitInterleaving` takes policy batches as entries of other writers; policy reconciliation is proved for the atomic service only.
- `CachingSpace.Cache`: `tail` is passed through to the backing space and is not modelled.
- Executor thread checks, task names and wall-clock noise.
- gRPC, command line, hooks, observability wrappers, DynamoDB and SQL execution, LLM and rule voters, mailbox, retry backoff, `BufferingCommitService` and the V1 engine.
