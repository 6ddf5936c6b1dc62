# A verified model of the 6.5840 checker, MapReduce and test network

This project models three parts of the labs under `Labs/Lab2/6.5840/src` and proves
properties of them that hold for all inputs and all runs.

**The linearizability checker** (`porcupine/`, `models/kv.go`). `CheckSingle` is the
search as the code performs it: an in-place doubly linked list of calls and returns, an
explicit stack, a word-packed bitset and a cache indexed by a hash. It is proved to decide
linearizability, defined in `History` by real-time order and acceptance alone. Around it:
preparation of histories, the split by key (the locality theorem), the concurrent verdict
and the replay of recorded prefixes. `KvVerdict` and `ComputeVisualizationData` put them
together.

**MapReduce** (`mr/`, `main/mrsequential.go`). `Coordinator` does on the heap what `Tasks`
says about its tables; `Cluster` runs a coordinator and any number of workers with
expired leases, repeated executions, late or repeated reports, lost outputs and crashes.
In every run the output is that of the sequential program, provided replies are encoded in
time (see Findings), and every run can be brought to its end.

**The test network** (`labrpc/`, `kvraft/config.go`, `raft/persister.go`). `Network`
interleaves requests with handlers, background saves, enabling of ends, shutdown and
restart. No acknowledged write is lost, and `Answers` says exactly which calls are acknowledged.

| file | about |
|---|---|
| `History`, `Operations`, `Sorting` | histories, linearizability, preparation, library sorting |
| `Bitset`, `Cache`, `NodeList` | the search's data structures |
| `Search`, `Termination`, `Moves`, `CheckSingle` | what the search knows, why it ends, its moves on values, the search on the heap |
| `KvModel`, `KvMeaning`, `Locality`, `CheckParallel`, `CheckOperations`, `Visualization`, `Verbose` | the key/value model and what is built on the search |
| `Grouping`, `Worker`, `Sequential` | what map, reduce and the sequential program compute |
| `Tasks`, `Coordinator`, `Cluster` | the coordinator and whole jobs |
| `Progress`, `Mishaps` | how a job gets done, and two ways in which it goes wrong |
| `Requests` | the coordinator's calls as steps of a job |
| `Network`, `Answers`, `Persister` | the network with its tester, which answers calls get, and saved state |

`dafny verify dfyconfig.toml` checks everything.

## Assumptions

- Histories are well formed: each id has one call and one later return. For operations with
  times this is `Call <= Return` (`Timely`). The code does not check it.
- States that a model calls `Equal` accept the same futures (`SameFutures`). For the
  key/value model equality is plain equality.
- The kill flag is a function from iterations to values, so another goroutine may set it at
  any moment. `model.Step` and `model.Equal` are total functions without effects.
- Words are numbers below 2^64 and the bit operators work digit by digit.
- Of library sorting only this is used: the result is a sorted rearrangement. Maps are walked
  in any order.
- `mapf` is deterministic and file contents do not change during a job; `reducef` ignores
  the order of its values; there is at least one bucket; `ihash` is any function to
  non-negative numbers. A worker's bucket file is absent or complete.
- Workers may share an address (as they do by default), a directory, or both. A worker reads
  its own directory for its own address, and otherwise asks any worker that has the address.
- A reply is encoded at one moment. The code puts its live task and its live address map
  into the reply (`mr/coordinator.go:62`, `81-87`), and the RPC layer encodes them after the
  lock is released; `Cluster` has that moment as a step of its own (`Encode`). Of the live
  task only id and type matter, which never change.
- A request reads the clock twice, once to look for a task and once to stamp it; the second
  reading is not before the first.
- A Persister is, in `Network`, the sequence of the saves it was given; its contents are the
  last one (`Persister` models the arrays). Copying carries the sequence over.
- `ShutdownServer` and `StartServer` of one server do not overlap, and a start comes after a
  shutdown, as `kvraft/config.go:286` asks. Saves may happen at any time, also by instances
  that were shut down or are not registered yet.

## Findings

- With an empty partition list and no time-out `checkParallel` waits for ever
  (`StuckExactly` gives the exact condition).
- `Done` can turn false again: a late report of missing outputs resets a map task after the
  last reduce has finished (`DoneStaysExactly` says exactly when; `Mishaps.DoneCanBeLost`
  gives a run of two workers for any job with an input file).
- The output can be wrong if a reply to a request for a reduce task is encoded after a map
  task has been reset, since the encoder reads the live address map: the worker then reduces
  without that map task's pairs and its report is accepted (`Mishaps.LateReplyLosesPairs`).
  The reply is complete exactly if all map tasks are finished when it is encoded
  (`EncodedExactly`), and then the result is right (`DistributedEqualsSequential`). In any case
  it is the sequential result over the map tasks the reply had addresses for
  (`ReportedReduceExactly`).
- A comment says a node is a call if `match` is nil (`porcupine/checker.go:64`); in the code it
  is the return whose `match` is nil. The model follows the code.
- The comment that `Call` always returns unless the handler does not
  (`labrpc/labrpc.go:37-38`) is met and more: `CallProgresses` shows that even then the call
  goes on once the server is deleted or the end disabled.
- A file that cannot be read leaves its map task stamped as running, so it is offered again
  only after the lease expires (`mr/coordinator.go:62-68`).

## Model

| member | source | states |
|---|---|---|
| `CheckSingle.CheckSingle` | Labs/Lab2/6.5840/src/porcupine/checker.go:179-253 | For every well-formed history and every model whose equal states have equal futures the search ends; true means some order of all operations keeps real time and is accepted step by step; false means none does, unless the search stopped because it read the kill flag set; every recorded prefix is a partial linearization with its operation, and on success or on an uninterrupted verbose run it is a longest one, absent exactly when there is none; a flag set from the start stops the search at once, and a refuted history has prefixes only if they were asked for |
| `Search.SkipKeeps` | Labs/Lab2/6.5840/src/porcupine/checker.go:207-213 | Passing a refuted call keeps all the search knows: what is cached off the path is settled, and at every level all calls before the chosen one are refuted |
| `Search.HitRefutes` | Labs/Lab2/6.5840/src/porcupine/checker.go:145-152 | A cached pair with the same set and an equal state is never one on the current path, so it refutes the call: pruning loses no linearization and no longer prefix |
| `Search.PushKeeps` | Labs/Lab2/6.5840/src/porcupine/checker.go:198-207 | Choosing an accepted, uncached call keeps all the search knows |
| `Search.ReturnSettles` | Labs/Lab2/6.5840/src/porcupine/checker.go:214-217 | A listed return at the cursor means every way to go on from here has been tried |
| `Search.PopKeeps` | Labs/Lab2/6.5840/src/porcupine/checker.go:214-241 | Undoing the last choice keeps all the search knows, with the undone call refuted at its level and its pair settled |
| `Search.EmptyPathRefutes` | Labs/Lab2/6.5840/src/porcupine/checker.go:215-217 | With nothing chosen and a return at the cursor the history is not linearizable, and on a verbose run the recorded prefixes are longest |
| `Search.FullPathLinearizes` | Labs/Lab2/6.5840/src/porcupine/checker.go:244-252 | When every operation has been chosen the stack is a linearization |
| `Search.PathIsPartial` | Labs/Lab2/6.5840/src/porcupine/checker.go:184-207 | At every moment the stack is a partial linearization: real time is kept and the model accepts it |
| `Search.PartialIsRun` | Labs/Lab2/6.5840/src/porcupine/checker.go:190-243 | Partial linearizations, defined by real-time order and acceptance, are exactly the sequences the search can walk, choosing one ready call after another |
| `Search.LinearizationIsFullPartial` | Labs/Lab2/6.5840/src/porcupine/checker.go:244-252 | A linearization is a partial linearization that has every operation |
| `Moves.SkipGood` | Labs/Lab2/6.5840/src/porcupine/checker.go:207-213 | Moving to the next listed entry keeps the search state good and brings its end nearer |
| `Moves.PushGood` | Labs/Lab2/6.5840/src/porcupine/checker.go:203-207 | Choosing a call keeps the search state good and brings its end nearer |
| `Moves.PopGood` | Labs/Lab2/6.5840/src/porcupine/checker.go:235-241 | Undoing a choice keeps the search state good and brings its end nearer |
| `Moves.NextAfterCall` | Labs/Lab2/6.5840/src/porcupine/checker.go:190-212 | A listed call always has a listed entry after it (at the latest its return), so the cursor never runs off the list |
| `Moves.EmptyList` | Labs/Lab2/6.5840/src/porcupine/checker.go:190 | The list is empty exactly when every operation has been chosen |
| `Moves.RecordKeeps` | Labs/Lab2/6.5840/src/porcupine/checker.go:219-234 | Recording never shortens a prefix, keeps all prefixes valid, and leaves each operation on the stack with a prefix at least as long as the stack |
| `Termination.BudgetSkip` | Labs/Lab2/6.5840/src/porcupine/checker.go:190-213 | The part of the permutation tree left to visit shrinks when the cursor moves on |
| `Termination.BudgetPush` | Labs/Lab2/6.5840/src/porcupine/checker.go:203-207 | It shrinks when a call is chosen, although a new level is opened |
| `Termination.BudgetPop` | Labs/Lab2/6.5840/src/porcupine/checker.go:235-241 | It shrinks when a level is closed and the cursor moves past the undone call |
| `CheckSingle.RecordLongest` | Labs/Lab2/6.5840/src/porcupine/checker.go:219-234 | Replaces the prefix of an operation on the stack exactly when it has none or a shorter one; all others stay |
| `CheckSingle.TryCall` | Labs/Lab2/6.5840/src/porcupine/checker.go:195-204 | Steps the model and reports a new pair exactly when the step is accepted and no cached pair matches; then and only then the pair is cached; the live bitset stays out of the cache |
| `CheckSingle.Choose` | Labs/Lab2/6.5840/src/porcupine/checker.go:203-207 | After setting the bit and lifting, the bitset is the enlarged path, the list is the history without the path, the cursor its first entry, the cached bitsets unchanged |
| `CheckSingle.Undo` | Labs/Lab2/6.5840/src/porcupine/checker.go:235-241 | After clearing the bit and unlifting, bitset and list are those of the shorter path, the cursor the entry after the undone call, the cached bitsets unchanged |
| `CheckSingle.Prepare` | Labs/Lab2/6.5840/src/porcupine/checker.go:180-189 | Builds the list with its head; n is the number of operations and the cursor stands on the first entry |
| `CheckSingle.CallMove` | Labs/Lab2/6.5840/src/porcupine/checker.go:194-213 | One iteration on a call keeps heap and search state in step and brings the end nearer |
| `CheckSingle.ReturnMove` | Labs/Lab2/6.5840/src/porcupine/checker.go:214-241 | One iteration on a return keeps heap and search state in step and brings the end nearer |
| `CheckSingle.PopulationIsDepth` | Labs/Lab2/6.5840/src/porcupine/bitset.go:46-52 | The bitset has exactly the ids on the stack and its population count is the stack depth |
| `CheckSingle.AllTheSame` | Labs/Lab2/6.5840/src/porcupine/checker.go:244-251 | On success every operation gets the complete linearization as its prefix |
| `NodeList.LiftUndone` | Labs/Lab2/6.5840/src/porcupine/checker.go:159-177 | Unlifting what was just lifted restores every pointer of every node, also when call and return are neighbours |
| `NodeList.LiftThreads` | Labs/Lab2/6.5840/src/porcupine/checker.go:159-167 | Lifting leaves the list threading the remaining entries, in order, forwards and backwards |
| `NodeList.LinksOf` | Labs/Lab2/6.5840/src/porcupine/checker.go:121-177 | The pointers after any sequence of lifts thread the original entries minus the calls and returns lifted, in order |
| `NodeList.Lift` | Labs/Lab2/6.5840/src/porcupine/checker.go:159-167 | Writes exactly the pointers that take call and return out of the list, in place |
| `NodeList.Unlift` | Labs/Lab2/6.5840/src/porcupine/checker.go:169-177 | Writes exactly the pointers that put them back: the heap is that of the shorter path again |
| `NodeList.InsertBefore` | Labs/Lab2/6.5840/src/porcupine/checker.go:70-81 | Links n in front of mark, and after what was before mark if there was anything; does nothing but return n when mark is nil |
| `NodeList.MakeLinkedEntries` | Labs/Lab2/6.5840/src/porcupine/checker.go:121-138 | Builds fresh nodes, one per entry in order, doubly linked, each call matched with its own return |
| `NodeList.AddHead` | Labs/Lab2/6.5840/src/porcupine/checker.go:189 | Puts an operationless head in front; the pointers are those of the full list, also for an empty history |
| `NodeList.Length` | Labs/Lab2/6.5840/src/porcupine/checker.go:83-90 | Counts the nodes of the list |
| `Cache.CacheContains` | Labs/Lab2/6.5840/src/porcupine/checker.go:145-152 | Looking into the one bucket of the hash finds a match exactly when some recorded pair has the same set and an equal state |
| `Cache.MissInBucket` | Labs/Lab2/6.5840/src/porcupine/checker.go:145-152 | If nothing in the bucket of the hash matches then no pair recorded anywhere does |
| `Cache.Add` | Labs/Lab2/6.5840/src/porcupine/checker.go:201-202 | The cache then holds exactly the earlier pairs and the new one, in its hash bucket |
| `Bitset.NewBitset` | Labs/Lab2/6.5840/src/porcupine/bitset.go:10-17 | The empty set, with the least number of 64-bit words that has room |
| `Bitset.Clone` | Labs/Lab2/6.5840/src/porcupine/bitset.go:19-23 | A fresh array with the same words |
| `Bitset.Set` | Labs/Lab2/6.5840/src/porcupine/bitset.go:29-33 | Adds exactly pos, in place, and returns the same array |
| `Bitset.Clear` | Labs/Lab2/6.5840/src/porcupine/bitset.go:35-39 | Removes exactly pos, in place, and returns the same array |
| `Bitset.Get` | Labs/Lab2/6.5840/src/porcupine/bitset.go:41-44 | True exactly for members |
| `Bitset.TotalIsSize` | Labs/Lab2/6.5840/src/porcupine/bitset.go:46-52 | The sum of the words' population counts is the number of members |
| `Bitset.Popcnt` | Labs/Lab2/6.5840/src/porcupine/bitset.go:46-52 | The number of members |
| `Bitset.Hash` | Labs/Lab2/6.5840/src/porcupine/bitset.go:54-60 | The population count xor-ed with all words: a function of the words alone |
| `Bitset.HashBits` | Labs/Lab2/6.5840/src/porcupine/bitset.go:54-60 | Bit k of the hash is set exactly if an odd number of the words and of the member count have it |
| `Bitset.WordsDetermine` | Labs/Lab2/6.5840/src/porcupine/bitset.go:62-72 | Bitsets of one length have equal words exactly when they have equal members |
| `Bitset.Equals` | Labs/Lab2/6.5840/src/porcupine/bitset.go:62-72 | True exactly for equal words; at equal length, exactly for equal members |
| `Operations.MakeEntries` | Labs/Lab2/6.5840/src/porcupine/checker.go:48-60 | A rearrangement of one call and one return entry per operation, in order of time, calls before returns of the same time |
| `Operations.LessIsOrder` | Labs/Lab2/6.5840/src/porcupine/checker.go:39-46 | The comparison is irreflexive and transitive |
| `Operations.EntriesWellFormed` | Labs/Lab2/6.5840/src/porcupine/checker.go:48-60 | Sorted entries of operations with call <= return form a well-formed history |
| `Operations.EntriesMeaning` | Labs/Lab2/6.5840/src/porcupine/checker.go:39-60 | In the entries, a's return stands before b's call exactly when a.Return < b.Call, and each entry has its operation's value, time and client |
| `Operations.EntriesLinearizable` | Labs/Lab2/6.5840/src/porcupine/checker.go:48-60 | The entries are linearizable exactly when the operations, ordered by their times, are |
| `Operations.Renumber` | Labs/Lab2/6.5840/src/porcupine/checker.go:92-106 | Only ids change; equal ids exactly where they were equal; the new ids are 0, 1, 2, ... in order of first use, without gaps |
| `Operations.ConvertEntries` | Labs/Lab2/6.5840/src/porcupine/checker.go:108-119 | Each event becomes an entry of the same kind, value and id with its index as time |
| `Operations.RenumberedWellFormed` | Labs/Lab2/6.5840/src/porcupine/checker.go:92-119 | Events that pair one call with one later return per id, renumbered and converted, form a well-formed history |
| `KvModel.Kv` | Labs/Lab2/6.5840/src/models/kv.go:35-54 | States that the single-key model calls equal accept the same futures, so the search theorems apply to it |
| `KvMeaning.KeyAccepts` | Labs/Lab2/6.5840/src/models/kv.go:40-54 | The single-key model accepts a sequence exactly if every get answers what was written before it: the input of the last put, or the starting value, followed by all values appended since, in order |
| `KvMeaning.StoreMeans` | Labs/Lab2/6.5840/src/models/kv.go:17-54 | The whole store accepts a sequence exactly if every get answers what was written to its key before it, in the same sense |
| `KvMeaning.StoreLinearizable` | Labs/Lab2/6.5840/src/models/kv.go:17-54 | Linearizability against the store means: some order of all operations respects real time and answers every get with what was written to its key before it, starting from empty |
| `KvModel.Partition` | Labs/Lab2/6.5840/src/models/kv.go:18-34 | One non-empty group per key that occurs, keys increasing, each group the operations on its key in history order |
| `Sorting.StringLessMeans` | Labs/Lab2/6.5840/src/models/kv.go:28 | The order of keys is dictionary order: a proper prefix first, else the first differing character decides |
| `Locality.StoreIffEveryKey` | Labs/Lab2/6.5840/src/models/kv.go:17-54 | Locality: a history is linearizable against a map from keys to strings (default empty) exactly when its operations on each key are linearizable on their own |
| `Locality.WholeToKey` | Labs/Lab2/6.5840/src/models/kv.go:18-54 | A linearization of the whole restricts to each key |
| `Locality.StoreAccepts` | Labs/Lab2/6.5840/src/models/kv.go:40-54 | The whole store accepts a sequence exactly when each key accepts its own part |
| `Locality.MergeKeys` | Labs/Lab2/6.5840/src/models/kv.go:18-54 | Any given orders of the single keys merge into one order of all operations that respects real time and has each key's operations exactly in that key's given order |
| `CheckParallel.VerdictMeaning` | Labs/Lab2/6.5840/src/porcupine/checker.go:274-353 | In every interleaving, timed out or not: Illegal exactly if a counted search found its partition illegal, else Unknown exactly if the time-out fired, else Ok; Ok only if all partitions are legal; no killed search's result is ever counted; when prefixes are asked for all were stored before they are read |
| `CheckParallel.TimedOutMeans` | Labs/Lab2/6.5840/src/porcupine/checker.go:305-308 | The run counts as timed out exactly if the time-out fired |
| `CheckParallel.WhenItStops` | Labs/Lab2/6.5840/src/porcupine/checker.go:292-310 | The loop goes on exactly until the time-out fires, an illegal partition is counted in a run without prefixes, or all results are counted; the searches are killed exactly in the first two cases |
| `CheckParallel.VerdictExact` | Labs/Lab2/6.5840/src/porcupine/checker.go:274-353 | Unless the time-out fired, the verdict is Ok exactly when all partitions are legal, else Illegal |
| `CheckParallel.StepKeeps` | Labs/Lab2/6.5840/src/porcupine/checker.go:280-318 | Every step of a search or of the collecting loop keeps the invariant behind the verdict |
| `CheckParallel.StepsAreFinite` | Labs/Lab2/6.5840/src/porcupine/checker.go:280-318 | Every step brings the end nearer |
| `CheckParallel.StuckExactly` | Labs/Lab2/6.5840/src/porcupine/checker.go:292-310 | An unfinished run can take a step exactly when there is a partition or a time-out: with neither the loop waits for ever |
| `CheckOperations.SearchGroup` | Labs/Lab2/6.5840/src/porcupine/checker.go:48-60 | Preparing and searching one group decides whether its operations, ordered by their times, are linearizable |
| `CheckOperations.SearchGroups` | Labs/Lab2/6.5840/src/porcupine/checker.go:365-371 | Partitioning, preparing and searching finds for each group whether its operations are linearizable; all are exactly when the history is linearizable |
| `CheckOperations.EveryGroup` | Labs/Lab2/6.5840/src/porcupine/model.go:28-32 | The promise Partition functions must keep, for the key/value model: the history is linearizable exactly when every group is |
| `CheckOperations.KvVerdict` | Labs/Lab2/6.5840/src/porcupine/checker.go:365-373 | For every interleaving: Ok means that the history is linearizable, in terms of what gets answer, Illegal that it is not; unless the time-out fired it is one of the two; after a time-out it is Illegal exactly if a counted group is not linearizable, else Unknown |
| `Visualization.CollectValues` | Labs/Lab2/6.5840/src/porcupine/visualization.go:42-53 | The two maps give each operation's input and output |
| `Visualization.Replay` | Labs/Lab2/6.5840/src/porcupine/visualization.go:63-78 | Replaying a partial linearization gives each of its steps with the state after it; the panic is unreachable |
| `Visualization.Enter` | Labs/Lab2/6.5840/src/porcupine/visualization.go:73-76 | Renames the largest prefix of an operation exactly when the new one is longer |
| `Visualization.ComputePartition` | Labs/Lab2/6.5840/src/porcupine/visualization.go:54-84 | The prefixes sorted longest first, each replayed; Largest has exactly the operations in some prefix and names for each the first, and so a longest, prefix that has it |
| `Visualization.LargestIsMaximal` | Labs/Lab2/6.5840/src/porcupine/visualization.go:54-84 | With the prefixes of an uninterrupted search, Largest names a prefix as long as any partial linearization with the operation |
| `Verbose.StoredPrefixes` | Labs/Lab2/6.5840/src/porcupine/checker.go:280-318 | When a verbose run has its verdict, every search has stored valid prefixes, killed or not, and longest ones if it was not killed |
| `Verbose.PartialsOf` | Labs/Lab2/6.5840/src/porcupine/checker.go:320-338 | Exactly the prefixes that were stored, as values |
| `Verbose.Show` | Labs/Lab2/6.5840/src/porcupine/visualization.go:54-84 | From valid stored prefixes: each replayed, longest first, with Largest; with longest stored prefixes, Largest names a longest partial linearization for every operation that is in one |
| `Verbose.ComputeVisualizationData` | Labs/Lab2/6.5840/src/porcupine/visualization.go:33-87 | For whatever any verbose run hands over, also after a time-out, the data of every partition is computed without reaching the panic; Largest is right for every search that was not killed |
| `Cluster.DistributedEqualsSequential` | Labs/Lab2/6.5840/src/mr/worker.go:44-181 | In every run whose replies are encoded in time, once all reduce tasks are done, each output is the sequential result on its bucket's keys and all output lines together are the lines of the sequential program, as multisets |
| `Cluster.ReportedReduceIsRight` | Labs/Lab2/6.5840/src/mr/worker.go:131-158 | Every reduce result that is reported, in every run whose replies are encoded in time, is the sequential result restricted to its bucket, keys increasing |
| `Cluster.DuplicateReducesAgree` | Labs/Lab2/6.5840/src/mr/worker.go:131-158 | Two executions of one reduce task, in whatever order they fetch, write the same list |
| `Cluster.ReduceExact` | Labs/Lab2/6.5840/src/mr/worker.go:155-158 | A reduce that has fetched what it was given computes the sequential result of its bucket over exactly those map tasks |
| `Cluster.AllFetched` | Labs/Lab2/6.5840/src/mr/worker.go:134-153 | The pieces of any set of map tasks, fetched in any order, are together the bucket's share of what their files give |
| `Cluster.StepKeeps` | Labs/Lab2/6.5840/src/mr/worker.go:13-181 | Requests, replies encoded at once or late, bucket writes, fetches, failed fetches, reports (late, lost or repeated) and crashes keep the invariant, for any number of workers, also sharing addresses or directories |
| `Cluster.StepRight` | Labs/Lab2/6.5840/src/mr/worker.go:131-158 | With replies encoded in time, every step keeps all running reduces complete and all written outputs right |
| `Cluster.EncodedExactly` | Labs/Lab2/6.5840/src/mr/coordinator.go:81-93 | In every run, the reply to a request for a reduce task has addresses for exactly the map tasks that are finished when it is encoded: for all of them exactly if it is encoded in time |
| `Cluster.ReportedReduceExactly` | Labs/Lab2/6.5840/src/mr/worker.go:131-158 | In every run, late replies included, a reported reduce result is the sequential result of its bucket over exactly the map tasks its reply had addresses for |
| `Cluster.AtOnceIsInTime` | Labs/Lab2/6.5840/src/mr/coordinator.go:81-93 | A reply encoded before anything else happens is in time |
| `Progress.MapRound` | Labs/Lab2/6.5840/src/mr/worker.go:73-79 | A worker that is handed a map task can write all its bucket files and have its report delivered; nobody else is disturbed and no file is lost |
| `Progress.ReduceRound` | Labs/Lab2/6.5840/src/mr/worker.go:131-158 | A worker that is handed a reduce task can complete it, or reports an output that it really cannot get |
| `Progress.Round` | Labs/Lab2/6.5840/src/mr/worker.go:44-71 | Whatever a worker is handed, one round leaves less to do, counting unfinished tasks and finished map tasks whose outputs are lost |
| `Progress.WorkerFinishesJob` | Labs/Lab2/6.5840/src/mr/worker.go:13-181 | For every way the coordinator may choose what to hand out, one worker brings the job to its end from any state of any run, also after outputs were lost |
| `Progress.EveryRunCanFinish` | Labs/Lab2/6.5840/src/mr/coordinator.go:48-94 | Every run of every job, in whatever state, can be brought to Done by any one worker that is idle or new |
| `Mishaps.DoneCanBeLost` | Labs/Lab2/6.5840/src/mr/coordinator.go:123-142 | Done is not stable: every job with an input file has a run of two workers that is done and, after one late report of a failed fetch, is not |
| `Mishaps.LateReplyLosesPairs` | Labs/Lab2/6.5840/src/mr/coordinator.go:81-93 | If a map task is reset before a reply is encoded, pairs are lost: every job with one input file has a run in which the first reduce task is accepted as finished with an empty, wrong output |
| `Worker.BucketContents` | Labs/Lab2/6.5840/src/mr/worker.go:81-88 | Bucket b has exactly the pairs whose key's hash modulo the number of buckets is b, as often as they occur and in order |
| `Worker.GroupByKey` | Labs/Lab2/6.5840/src/mr/worker.go:160-166 | Each key that occurs, and no other, with all its values in order |
| `Worker.ReduceContents` | Labs/Lab2/6.5840/src/mr/worker.go:168-181 | Each key once, increasing, with the reduce function of its values |
| `Worker.ReducePairs` | Labs/Lab2/6.5840/src/mr/worker.go:155-157 | Grouping and reducing gives each key of the pairs once, increasing, with the reduce function of all its values |
| `Grouping.BucketsPartition` | Labs/Lab2/6.5840/src/mr/worker.go:81-88 | Bucketing loses and duplicates no pair |
| `Grouping.ValuesInBucket` | Labs/Lab2/6.5840/src/mr/worker.go:81-88 | All values of a key, in order, are in its own bucket; no other bucket has any |
| `Grouping.ReducedBucket` | Labs/Lab2/6.5840/src/mr/worker.go:81-88 | Reducing one bucket gives the whole result restricted to the keys of that bucket |
| `Grouping.ReducedRearranged` | Labs/Lab2/6.5840/src/mr/worker.go:155-157 | Pairs in any other order reduce to the same map, for a reduce function that ignores the order of values |
| `Grouping.TableUnique` | Labs/Lab2/6.5840/src/mr/worker.go:168-181 | The sorted list of a result is unique |
| `Sequential.MrSequential` | Labs/Lab2/6.5840/src/main/mrsequential.go:38-84 | The output has each key once, increasing, with the reduce function of all its values |
| `Sequential.ScanRun` | Labs/Lab2/6.5840/src/main/mrsequential.go:70-77 | Finds the end of the run of equal keys and its values |
| `Sequential.RunHasAll` | Labs/Lab2/6.5840/src/main/mrsequential.go:70-77 | In sorted pairs all values of a key stand in one unbroken run |
| `Tasks.BooksStay` | Labs/Lab2/6.5840/src/mr/coordinator.go:54-142 | Every event keeps: all reduce tasks have the same output addresses, exactly for the finished map tasks |
| `Tasks.InitialBooks` | Labs/Lab2/6.5840/src/mr/coordinator.go:28-40 | The same at the start |
| `Tasks.BooksComplete` | Labs/Lab2/6.5840/src/mr/coordinator.go:84-89 | With the books kept, a reduce task knows an address for every map task exactly while all map tasks are finished |
| `Tasks.HandOutComplete` | Labs/Lab2/6.5840/src/mr/coordinator.go:74-89 | A reduce task is handed out with an address for every map task |
| `Tasks.ReduceLease` | Labs/Lab2/6.5840/src/mr/coordinator.go:54-94 | Two hand-outs of one reduce task are at least the time-out apart |
| `Tasks.LeaseIsTenSeconds` | Labs/Lab2/6.5840/src/mr/task.go:25-41 | A task that is stamped can be handed out again from ten seconds later, and not before |
| `Tasks.MapLease` | Labs/Lab2/6.5840/src/mr/coordinator.go:54-142 | The same for map tasks, unless its outputs were reported missing in between after it had finished; a report for a running map task leaves its lease alone |
| `Tasks.AddressStays` | Labs/Lab2/6.5840/src/mr/coordinator.go:106-111 | The first report of a map task counts: until its outputs are reported missing, every reduce task has exactly that worker's address for it, whoever reports later |
| `Tasks.ReduceStaysFinished` | Labs/Lab2/6.5840/src/mr/coordinator.go:113-117 | A finished reduce task stays finished and is never handed out again |
| `Tasks.WaitMeans` | Labs/Lab2/6.5840/src/mr/coordinator.go:60-93 | Wait is answered exactly when every unfinished task of the current phase runs under an unexpired lease; there is one unless the job is done |
| `Tasks.EveryOrderlyRunFinishes` | Labs/Lab2/6.5840/src/mr/coordinator.go:48-94 | Whatever is picked: in every run that completes each task it is handed, each round finishes exactly one task, the run can go on exactly until Done, and Done comes after exactly as many rounds as there were undone tasks |
| `Tasks.OneLess` | Labs/Lab2/6.5840/src/mr/coordinator.go:96-118 | A hand-out of any task and its completion leave exactly one undone task fewer |
| `Tasks.GiveUnlessDone` | Labs/Lab2/6.5840/src/mr/coordinator.go:60-93 | At some later time some task can be handed out, exactly if the job is not done |
| `Tasks.NoWaitOnceExpired` | Labs/Lab2/6.5840/src/mr/coordinator.go:60-93 | Once all leases have expired, a request is answered with a task and not with wait, unless the job is done |
| `Tasks.JobCanFinish` | Labs/Lab2/6.5840/src/mr/coordinator.go:48-94 | From any tables there is such a run that reaches Done, with a clock that never goes back |
| `Tasks.DoneStaysExactly` | Labs/Lab2/6.5840/src/mr/coordinator.go:123-142 | A finished job stays finished under an event exactly when the event is not a missing-outputs report for a known map task |
| `Coordinator.MakeMapTasks` | Labs/Lab2/6.5840/src/mr/coordinator.go:28-31 | One unassigned map task per file, ids from 1 in order |
| `Coordinator.MakeReduceTasks` | Labs/Lab2/6.5840/src/mr/coordinator.go:33-40 | One unassigned reduce task per bucket with no addresses, ids after the map tasks |
| `Coordinator.Coordinator.constructor` | Labs/Lab2/6.5840/src/mr/coordinator.go:19-44 | The tables of a new job |
| `Coordinator.Coordinator.AllMapTasksDone` | Labs/Lab2/6.5840/src/mr/coordinator.go:166-173 | True exactly when every map task is finished |
| `Coordinator.Coordinator.AllReduceTasksDone` | Labs/Lab2/6.5840/src/mr/coordinator.go:175-182 | True exactly when every reduce task is finished |
| `Coordinator.Coordinator.Done` | Labs/Lab2/6.5840/src/mr/coordinator.go:48-52 | True exactly when every task is finished |
| `Coordinator.Coordinator.PickMapTask` | Labs/Lab2/6.5840/src/mr/coordinator.go:144-151 | Some map task that is unassigned or timed out; none exactly if there is none |
| `Coordinator.Coordinator.PickReduceTask` | Labs/Lab2/6.5840/src/mr/coordinator.go:153-160 | Some reduce task that is unassigned or timed out; none exactly if there is none |
| `Coordinator.Coordinator.RequestTask` | Labs/Lab2/6.5840/src/mr/coordinator.go:54-94 | A map reply names a map task that was unassigned or timed out, its file, the contents read from that file and its number of buckets; a reduce reply, once all maps are finished, such a reduce task, its bucket and its whole address map, one for each map task; an error exactly if the file of the picked map task cannot be read (the task stays stamped); wait exactly if there is nothing to hand out; the tables change by that hand-out alone and the books stay kept |
| `Coordinator.Coordinator.HandOut` | Labs/Lab2/6.5840/src/mr/coordinator.go:54-94 | The reply's data and the change of the tables, as for a request |
| `Requests.Request` | Labs/Lab2/6.5840/src/mr/worker.go:44-79 | A request is a step of the cluster: the tables become those of the step, and a worker that acts on the reply starts on exactly the task and data the cluster has it run |
| `Requests.Report` | Labs/Lab2/6.5840/src/mr/coordinator.go:96-142 | A report that arrives is a step of the cluster |
| `Coordinator.Coordinator.RecordOutput` | Labs/Lab2/6.5840/src/mr/coordinator.go:109-111 | Walking the reduce tasks one by one, in any order, gives every one the address and changes nothing else |
| `Coordinator.Coordinator.ForgetOutput` | Labs/Lab2/6.5840/src/mr/coordinator.go:136-138 | Walking the reduce tasks one by one, in any order, takes the address from every one and changes nothing else |
| `Coordinator.Coordinator.ReportTaskCompletion` | Labs/Lab2/6.5840/src/mr/coordinator.go:96-121 | Is a completion event (see Tasks.AddressStays for what a second report changes); all reduce tasks still know the same addresses, one for each finished map task |
| `Coordinator.Coordinator.ReportMissingMapOutputs` | Labs/Lab2/6.5840/src/mr/coordinator.go:123-142 | Is a missing event: only a known, finished map task is reset and its addresses dropped; all reduce tasks still know the same addresses, one for each finished map task |
| `Network.NoAckedWriteLost` | Labs/Lab2/6.5840/src/labrpc/labrpc.go:218-291 | In every interleaving of calls, handlers, enabling, shutdown and restart: whatever a positively answered handler saved is, at every later moment, on the Persister a restart would start from |
| `Network.SavedOnlyGrows` | Labs/Lab2/6.5840/src/kvraft/config.go:255-313 | What a restart of a server would start from never goes back, whatever happens: saves are only added at its end |
| `Network.OldInstanceHarmless` | Labs/Lab2/6.5840/src/kvraft/config.go:255-284 | Except between deletion and copy, only the instance that is registered or just started can change what a restart would start from: saves of an old instance never do |
| `Network.WritesStay` | Labs/Lab2/6.5840/src/labrpc/labrpc.go:218-291 | Every step keeps the writes of acknowledged requests on the saved Persister |
| `Network.DisksStay` | Labs/Lab2/6.5840/src/kvraft/config.go:255-323 | Every step of shutdown and start keeps: a started or registered server runs on the saved Persister of its name, and nobody else writes to it |
| `Network.AckedStays` | Labs/Lab2/6.5840/src/labrpc/labrpc.go:264-291 | An acknowledged request stays acknowledged and saves no more |
| `Answers.AnswerExactly` | Labs/Lab2/6.5840/src/labrpc/labrpc.go:264-291 | A finished request was answered, once, and positively exactly if its final check found the handler's reply, the end enabled and the instance that was called still registered, and did not drop the reply |
| `Answers.ReliableCallIsAnswered` | Labs/Lab2/6.5840/src/labrpc/labrpc.go:218-291 | A call looked up on a reliable network, whose handler's reply was taken and whose end is enabled with that same instance registered at the final check, is answered positively |
| `Answers.NegativeHasReason` | Labs/Lab2/6.5840/src/labrpc/labrpc.go:221-307 | A negative answer has a reason: no enabled, connected, registered server at the look-up, or an unreliable network dropped request or reply, or the end was disabled or the instance gone while the call was under way |
| `Answers.WasLookedUp` | Labs/Lab2/6.5840/src/labrpc/labrpc.go:192-221 | A handler is started only after a look-up that found the end enabled and connected; server, instance and reliability are those found |
| `Answers.CanBeAnswered` | Labs/Lab2/6.5840/src/labrpc/labrpc.go:218-291 | From every state of every run with an enabled end connected to a registered server, a call can be answered positively, with what its handler saved on the Persister a restart would use |
| `Answers.RestartHasWrites` | Labs/Lab2/6.5840/src/kvraft/config.go:287-323 | An instance started after a positive reply starts with everything that handler saved |
| `Answers.WholeStory` | Labs/Lab2/6.5840/src/kvraft/config.go:255-323 | There is a run from the empty network: start, call, save, positive answer, shutdown and restart, after which the new instance starts with what was saved |
| `Answers.LastReliable` | Labs/Lab2/6.5840/src/labrpc/labrpc.go:171-176 | The network is as reliable as it was last told to be |
| `Answers.LastEnable` | Labs/Lab2/6.5840/src/labrpc/labrpc.go:356-361 | An end is enabled exactly if it was last enabled |
| `Answers.LastConnect` | Labs/Lab2/6.5840/src/labrpc/labrpc.go:348-353 | An end leads to the server it was last connected to |
| `Answers.LastMove` | Labs/Lab2/6.5840/src/labrpc/labrpc.go:332-344 | A server is registered from AddServer until DeleteServer, with the instance started for it |
| `Network.OneCallOneAnswer` | Labs/Lab2/6.5840/src/labrpc/labrpc.go:218-309 | Each request is dispatched at most once and answered at most once, exactly once when finished; a positive answer means one dispatch whose handler returned |
| `Network.PositiveWasAlive` | Labs/Lab2/6.5840/src/labrpc/labrpc.go:264-291 | A positive answer goes back to a check that found the end enabled and the very instance that ran the handler still registered |
| `Network.OwnStepNearer` | Labs/Lab2/6.5840/src/labrpc/labrpc.go:218-309 | Every step of processReq for a request brings it nearer to its answer, so its waiting loop cannot go on for ever |
| `Network.CallProgresses` | Labs/Lab2/6.5840/src/labrpc/labrpc.go:37-38 | An unanswered request always has a step of its own towards its answer, except while its handler runs on a live server |
| `Persister.Clone` | Labs/Lab2/6.5840/src/raft/persister.go:24-28 | A fresh array with the same bytes |
| `Persister.Persister.constructor` | Labs/Lab2/6.5840/src/raft/persister.go:20-22 | Empty state and snapshot |
| `Persister.Persister.Copy` | Labs/Lab2/6.5840/src/raft/persister.go:30-37 | A new Persister on the same arrays, so with the same contents |
| `Persister.Persister.Save` | Labs/Lab2/6.5840/src/raft/persister.go:53-58 | Replaces both parts together by fresh copies; no existing array is written |
| `Persister.Persister.ReadRaftState` | Labs/Lab2/6.5840/src/raft/persister.go:39-43 | A fresh copy of the Raft state |
| `Persister.Persister.ReadSnapshot` | Labs/Lab2/6.5840/src/raft/persister.go:60-64 | A fresh copy of the snapshot |
| `Persister.CopySurvivesLaterSaves` | Labs/Lab2/6.5840/src/raft/persister.go:30-58 | Whatever the original saves after a copy, the copy keeps the contents at the time of copying |

## Left out

- Raft, kvraft, shardctrler and shardkv servers: their handlers are empty.
- The clerks of shardctrler and shardkv: plain retry loops.
- The HTTP server and proxy of Lab 1: thin use of library code.
- labgob and reflection in labrpc: encoding is taken as the identity, handlers as steps that save and return.
- Destroying the network (`Cleanup`), which makes later calls return false, and RPC and byte counts.
- Sleeps, delays and drop probabilities: any interleaving, any drop that the code allows.
- JSON, temporary files, rename, and bytes of `mr-out-*` files: a reduce result is the list that is written.
- The internals of FNV hashing.
- Verbose.PartialsOf: `checkParallel` removes duplicates by pointer (`porcupine/checker.go:320-338`), so it may keep two equal prefixes; here prefixes are values, and `ComputePartition` takes any list of them.
- `checkEvents`: its parts `renumber` and `convertEntries` are modelled; its default partition is the whole history.
- `fillDefault` and the description strings, client ids and times of `computeVisualizationData`; HTML and JavaScript.
- NodeList.Lift: the nil test on the entry after a node is shared by call and return, while the code tests only after the return; a listed call always has a listed entry after it, so both do the same.
- NodeList.Unlift: shares the same nil test.
- CheckSingle.CheckSingle: prefixes are compared by value, not by pointer identity.
- Coordinator.Coordinator.RequestTask: its reply has the addresses at the hand-out, not the live map; what becomes of the live map until the reply is encoded is modelled in `Cluster` (`Encode`, `EncodedExactly`).
- Cluster.DistributedEqualsSequential: compares lines as multisets, as the tests do by sorting (`main/test-mr.sh:103-104`), not bytes of files.
