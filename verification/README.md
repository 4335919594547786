# rustd: what its hard parts promise, proved

rustd is a service manager. This project models the parts of it whose correctness is not visible from one function body, and proves what they promise over every input and every run:

- **Journal files** (`ffi/journal.c`): the header, two hash tables and chains of objects that an append rewrites in place. `JournalFile.File` is the file; its methods are proved equal to the pure writer in `JournalSpec`, and the writer is proved against an invariant over the whole arena (`JournalState.Inv`) and against a reader that knows nothing of the writer (`JournalLog.ReadLog`, `ReadDataEntries`, `ReadFieldDatas`).
- **Jobs** (`src/job.rs`, dispatch in `src/manager.rs`): the registry of live jobs, the `After=` ordering between them, the queues that share the registry, and whole runs. A run of operations is a chain of exact steps of the whole system (`JobRuns.Step`), and turns of the dispatch loop, in builds with and without the scorer and with requests, cancellations and results coming in between, are a fold of one exact turn (`JobTurns.TurnOf`); the methods are proved to follow them and the safety results are about every such run.
- **Start order** (`src/deps.rs`): a depth-first search that loads units on demand and breaks cycles.
- **Spawning** (`ffi/spawn.c`, `ffi/spawn_wire.h`, `ffi/spawn_helper.c`): the request format with its measuring writer and validating reader, the two-stage move of descriptors from the manager through the helper into the service, and the two put together (`Spawning`).
- **System call filters** (`ffi/seccomp.c`): compilers from rule lists to classic BPF, with an interpreter for the target.
- **Restart limiter and deadlines** (`src/manager.rs`, `src/kill_context.rs`): a windowed counter and an escalating phase machine.

Code that changes things in place is a class with `modifies` clauses, or a method with a loop; each is proved against a specification function or a stated property, and the lemmas are about those. `dafny verify dfyconfig.toml` covers everything.

What the code reads from outside is a parameter here: the journal hash function, clocks and boot identifiers, the unit loader (a finite map), scheduling scores, the answers of `kill`, of control groups and of the event loop (`KillContext.Kernel`), unit states, requests and finished jobs between dispatches, restart delays, the system call table, and the contents of `/dev/null`. Machine widths are written out where the code depends on them.

Findings that differ from what one would expect, each stated as an exact condition:

- Journal sequence numbers increase over a run if and only if neither the number on file nor any requested one lies so close to the last 64-bit value that the appends behind it reach it (`JournalLog.RunSeqnums`); two appends to a fresh file can wrap (`SeqnumsWrap`).
- Job ordering can never deadlock, for any mix of live jobs, if and only if `After=` is acyclic (`JobOrdering.NoDeadlockIffAcyclic`).
- The restart limiter allows 2 * burst - 1 restarts within a span shorter than its interval (burst, if the interval is one nanosecond), and that is reached for every limit (`RestartLimiter.SpanBound`, `SpanBoundIsTight`). It is no limit at all at time zero, which it takes for "no window", nor with the largest burst, at which its counter saturates (`BoundedIff`).
- A stale timer event takes away the deadline that replaced its own, so a unit that is being stopped can be left with no deadline at all (`TimeoutRuns.LostDeadline`). A stop deadline survives a run of events if and only if no stop or abort event for its unit is among them and the start timer on record does not fire with a deadline that rearms or ends the stop (`StopHonouredIff`). A start deadline survives if and only if no start event comes and no stop event ends the unit (`StartHonouredIff`); what a caller can check beforehand is the case of a unit that is being activated, where only start events matter (`ActivatingHonouredIff`).
- A spawn with a closed source descriptor is not always refused, and then delivers another file to the service (`SpawnDescriptors.ClosedSourceAccepted`, `HelperDescriptors.ClosedSourceServed`). It is refused unless the number is at or above the minimum and fewer free numbers lie between the two than there are sources to lift out of the way (`SpawnedIff`). A closed number may also be the one that the request file takes (`Spawning.ClosedInputIsRequest`).
- A start target that the registry does not hold is not loaded, so it resolves to itself alone and its requirements are left out (`Resolver.RequirementLeftOut`). The result is a start order of everything that can be loaded if and only if the target is in the registry, cannot be loaded, or pulls in nothing (`WholeOrderIff`). Both callers load the target first (src/manager.rs:440 and 2545), so the first case holds for them.

## Model

| member | source | states |
|---|---|---|
| JournalFile.File.Open | ffi/journal.c:1181-1284 | a fresh file is valid, online, and its log is empty |
| JournalFile.File.Reopen | ffi/journal.c:1185-1223 | a file that another process holds, one with another signature, an unsupported layout or feature, and one of another machine are refused in that order; any other comes online; log and validity are kept in every case |
| JournalFile.ReadPrefix | ffi/journal.c:657-671 | accepts exactly this signature, a header at least as long, no incompatible feature and at most the one compatible one |
| JournalFile.File.Close | ffi/journal.c:1397-1422 | the file goes offline and keeps its log and validity |
| JournalFile.File.Append | ffi/journal.c:1288-1393 | on a valid file a successful append extends the log that a reader sees by exactly one entry, with the fields, times and assigned seqnum, keeps validity and every earlier object; a failure is one of the listed ones and leaves the header as it was; a file that is not online is refused |
| JournalFile.File.AppendAll | ffi/journal.c:1288-1393 | after any run of successful appends the log is the old one followed by one entry per request, in order |
| JournalFile.File.WriteEntryObjects | ffi/journal.c:1304-1384 | the body of the append equals the pure writer on every arena, error paths included |
| JournalFile.File.AppendZeroObject | ffi/journal.c:793-828 | allocates behind the tail object, aligned, or reports a corrupt tail or a file too large |
| JournalFile.File.FindFieldObject | ffi/journal.c:864-896 | equals the pure search on every file: with missing, misplaced or odd-sized tables and corrupt chains too |
| JournalFile.File.FindDataObject | ffi/journal.c:898-930 | equals the pure search on every file: with missing, misplaced or odd-sized tables and corrupt chains too |
| JournalFile.File.LinkFieldObject | ffi/journal.c:932-953 | appends to the bucket chain of the field table and changes nothing else |
| JournalFile.File.LinkDataObject | ffi/journal.c:932-953 | appends to the bucket chain of the data table and changes nothing else |
| JournalFile.File.AppendFieldObject | ffi/journal.c:955-988 | equals the pure step: finds the field or creates and links it |
| JournalFile.File.AppendDataObject | ffi/journal.c:995-1072 | equals the pure step: finds the payload or creates it, links it into its bucket and at the head of its field |
| JournalFile.File.AppendEntryArray | ffi/journal.c:1074-1094 | equals the pure step |
| JournalFile.File.AppendDataEntryReference | ffi/journal.c:1096-1143 | equals the pure step: first reference inline, later ones at the end of the chain, found by walking |
| JournalFile.File.AppendGlobalEntryReference | ffi/journal.c:1145-1170 | equals the pure step: extends the global chain at the tail cached in the header |
| JournalFile.File.AppendDataObjects | ffi/journal.c:1304-1312 | the loop over the fields: items and xor hash of all of them, or the first failure |
| JournalFile.File.AppendDataEntryReferences | ffi/journal.c:1361-1367 | the loop over the references, or the first failure |
| JournalLog.AppendExtendsLog | ffi/journal.c:1288-1393 | refinement: a successful append of the pure writer keeps validity and extends what the independent reader reads by exactly the new entry |
| JournalLog.FreshIsValid | ffi/journal.c:1232-1278 | the layout written for a new file satisfies the whole invariant and reads as the empty log |
| JournalLog.SeqnumAdvances | ffi/journal.c:1314-1317 | the assigned number exceeds the previous one if and only if that was not the last 64-bit value |
| JournalLog.RunSeqnums | ffi/journal.c:1314-1317 | over a whole run the numbers strictly increase if and only if the number on file, and each requested number but the last, is further from the last 64-bit value than there are appends behind it |
| JournalLog.SeqnumsWrap | ffi/journal.c:1314-1317 | on a fresh file, a request for the last 64-bit value is followed by number 0 |
| JournalLog.ReadAfter | ffi/journal.c:1319-1384 | reading back after the entry is written gives the old entries unchanged and then the new one |
| JournalLog.OccurrencesOneMore | ffi/journal.c:1361-1367 | a new entry adds itself to the occurrences of exactly the data objects it names, with multiplicity |
| JournalTheorems.InvertedIndexExact | ffi/journal.c:1096-1143 | in every valid file a data object's inline reference and array chain list exactly the entries that name it, in log order and with multiplicity, and `n_entries` is their number |
| JournalTheorems.FieldChainExact | ffi/journal.c:1063-1071 | a field leads to exactly the data objects with its name, newest first |
| JournalTheorems.XorHashExact | ffi/journal.c:1304-1345 | in every valid file each item of an entry carries the hash of the payload it names, and the entry's hash is the xor of these |
| JournalTheorems.FindDataExact | ffi/journal.c:898-930 | in every valid file the search finds a payload if and only if it is stored, at the one place where it is, and never reports corruption |
| JournalTheorems.FindFieldExact | ffi/journal.c:864-896 | the same for field names |
| JournalTheorems.UniqueDatas | ffi/journal.c:1013-1025 | no payload is stored twice |
| JournalTheorems.UniqueFields | ffi/journal.c:959-964 | no field name is stored twice |
| JournalTheorems.LayoutExact | ffi/journal.c:793-828 | objects tile the arena, 8-aligned, from the header to its recorded size; every offset fits 32 bits; the header's counters are the numbers of objects of each kind |
| JournalHashIndex.LinkKeepsIndex | ffi/journal.c:932-953 | linking keeps: every bucket chain has strictly increasing offsets and holds exactly the objects that hash to it |
| JournalHashIndex.ChainIsBucket | ffi/journal.c:830-845 | an object is on a bucket's chain if and only if its hash falls into that bucket |
| JournalProof.WalkFinds | ffi/journal.c:864-930 | walking an intact chain finds exactly the stored content |
| JournalProof.AbsentEverywhere | ffi/journal.c:864-930 | content that is not on the chain of its bucket is nowhere in the file |
| JournalProof.AppendFieldOk | ffi/journal.c:955-988 | keeps the invariant and returns the object of that name |
| JournalProof.AppendDataOk | ffi/journal.c:995-1072 | keeps the invariant and all earlier objects, returns the object with that payload, and leaves every entry list as it was |
| JournalProof.AppendDatasOk | ffi/journal.c:1304-1312 | the items of the new entry are, field by field, objects that hold the fields' payloads |
| JournalReferences.AppendDataRefOk | ffi/journal.c:1096-1143 | adds the entry at the end of one data object's list and of no other |
| JournalReferences.AppendDataRefsOk | ffi/journal.c:1361-1367 | adds the entry to each item's list as often as it occurs |
| JournalReferences.AppendGlobalRefOk | ffi/journal.c:1145-1170 | adds the entry at the end of the global list |
| JournalSteps.FieldKeepsInv | ffi/journal.c:967-987 | creating a field keeps the invariant |
| JournalSteps.DataKeepsInv | ffi/journal.c:1040-1071 | creating a data object keeps the invariant |
| JournalSteps.EntryKeepsInv | ffi/journal.c:1319-1359 | writing an entry object keeps the invariant |
| JournalSteps.FirstRefKeepsInv | ffi/journal.c:1104-1109 | an inline first reference keeps the invariant |
| JournalSteps.NextRefKeepsInv | ffi/journal.c:1112-1142 | a chained reference keeps the invariant |
| JournalSteps.GlobalRefKeepsInv | ffi/journal.c:1145-1170 | a global reference keeps the invariant |
| JournalState.BlankKeepsInv | ffi/journal.c:793-828 | a zeroed object behind the tail keeps the invariant |
| JournalState.TilesCover | ffi/journal.c:793-828 | every byte of the arena belongs to exactly one object |
| JournalFormat.SplitAfterPayload | ffi/journal.c:1004-1011 | a stored payload determines the field it was built from |
| JobOrdering.EdgesGoForward | src/job.rs:324-356 | with acyclic `After=` every edge goes forward in one order of all jobs, for every mix of start-like and stop-like kinds |
| JobOrdering.NoDeadlockIffAcyclic | src/job.rs:324-356 | `After=` is acyclic if and only if no set of live jobs can block itself |
| JobOrdering.CycleBlocks | src/job.rs:324-356 | two start jobs per unit of an `After=` cycle wait for each other |
| JobRegistry.Registry.constructor | src/job.rs:152-164 | an empty registry with an empty history |
| JobRegistry.Registry.Allocate | src/job.rs:174-201 | hands out an identifier never used before and logs the job, or changes nothing when the identifiers are exhausted; keeps the registry invariant |
| JobRegistry.Registry.MarkRunning | src/job.rs:359-376 | true exactly for live jobs; logs one state change, and only for a waiting job; keeps the invariant |
| JobRegistry.Registry.Finish | src/job.rs:379-404 | removes a live job from the live set, its owners and both edge maps, logs its one removal, counts failures; keeps the invariant |
| JobRegistry.Registry.DrainEvents | src/job.rs:407-413 | hands over the pending events and loses none of the history |
| JobRegistry.Registry.RefreshOrdering | src/job.rs:324-356 | afterwards the edges are exactly what `After=` demands of the live jobs, in both maps |
| JobRegistry.Registry.OrderJob | src/job.rs:334-353 | one job and all of its dependencies add exactly their pairs |
| JobRegistry.Registry.OrderAgainst | src/job.rs:338-352 | one job and one dependency add exactly their pairs, reversed for stop-like jobs |
| JobRegistry.PairsAreOrder | src/job.rs:332-355 | the three nested loops together contribute exactly the declarative ordering relation |
| JobRegistry.ListedExact | src/job.rs:240-248 | the list is the live jobs, each once, by ascending identifier |
| JobRegistry.FinishKeepsEdges | src/job.rs:389-398 | after a removal the two edge maps are still inverse, irreflexive, about live jobs and without empty sets |
| JobRegistry.AllocateAccounted | src/job.rs:174-201 | conservation: identifiers handed out are the live ones plus the removed ones |
| JobRegistry.RunningAccounted | src/job.rs:359-376 | conservation across a state change; each job's events are New, then at most one StateChanged, then at most one Removed |
| JobRegistry.FinishAccounted | src/job.rs:379-404 | conservation across a removal; the failure counter counts exactly the failure-counted removals |
| JobRegistry.FinishKeepsRemaining | src/job.rs:389-398 | the edges are always those of the last refresh between jobs that are still live |
| JobQueue.FirstReady | src/job.rs:505-508 | the first ready position: everything before it is not ready |
| JobQueue.Queue.EnqueueOwned | src/job.rs:451-460 | a new job is live and last in the queue, or nothing changes |
| JobQueue.Queue.EnqueueInternal | src/job.rs:463-469 | an internal step is queued with identifier zero |
| JobQueue.Queue.PushExisting | src/job.rs:472-476 | only internal and live jobs are accepted |
| JobQueue.Queue.PopFront | src/job.rs:479-486 | drops the dead jobs in front and returns the first living one; what is behind it stays |
| JobQueue.FromAliveKeeps | src/job.rs:479-486 | that job is the first of the living ones, and the living ones behind it stay |
| JobQueue.Queue.PopReady | src/job.rs:498-510 | drops dead jobs, then removes the first ready one, or returns nothing when none is ready |
| JobQueue.Queue.PopReadyBy | src/job.rs:514-546 | returns a job exactly when some job is ready, and then the earliest of maximal finite score, or the first ready one when no score is finite |
| JobQueue.ChosenIsUnique | src/job.rs:514-546 | that choice is unique |
| JobQueue.BestExists | src/job.rs:514-546 | among any ready jobs there is such a choice |
| JobQueue.EqualScoresChooseFirst | src/job.rs:514-546 | a constant score gives the choice of the plain pop |
| JobQueue.Queue.DrainReady | src/job.rs:549-559 | popping until nothing is ready equals one filter of the queue by readiness, and leaves the others in order |
| JobQueue.PopSplits | src/job.rs:498-510 | a pop takes the head off the ready jobs and leaves the rest of the queue alone |
| JobQueue.Queue.Cancel | src/job.rs:562-568 | internal steps cannot be canceled; any other job leaves the queue and, if live, the registry |
| JobQueue.Queue.CancelAll | src/job.rs:571-574 | cancels every live job, returns their number, counts no failure, and leaves only jobs that were not live |
| JobQueue.ListedCount | src/job.rs:571-574 | the list has as many jobs as are live |
| JobQueue.Queue.CancelListed | src/job.rs:571-574 | canceling a list of live jobs removes exactly them from registry and queue |
| JobDispatch.ReadyMeans | src/job.rs:498-510 | right after a refresh a living job is ready if and only if no live job precedes it and, for a start, no unit it comes after is in transition |
| JobDispatch.ReadyIsAble | src/job.rs:498-546 | so both pops choose among exactly these jobs |
| JobDispatch.NeverStuck | src/job.rs:498-510 | with acyclic `After=`, if no living job of the queue can go then nothing is left, a live job is out of the queue, or a unit is in transition |
| JobDispatch.IdleMeansDone | src/job.rs:498-510 | with every live job queued and all units settled, an idle queue means that nothing is left |
| JobDispatch.PoppedComesLast | src/job.rs:379-404 | whatever happened since the last refresh, when a job is ready every job ordered before it then has been removed |
| JobDispatch.PopNext | src/manager.rs:565-599 | refresh, then pop, in builds with and without the scorer, with any units in transition and any jobs running: of the jobs that no live job precedes and whose units are settled, exactly the best by score, or the first without scores; if there is none and `After=` is acyclic, nothing is left or something is in flight |
| JobDispatch.EqualScoresPickFirst | src/manager.rs:576-597 | equal scores give the choice of the build without the scorer |
| JobDispatch.RunToCompletion | src/manager.rs:551-599 | with any scores or none, acyclic `After=`, every live job queued and units settled between dispatches, the loop runs every live job exactly once and never before one that it must follow, empties queue and registry, and adds to the history exactly the events of these jobs in this order |
| JobDispatch.RemovedInOrder | src/manager.rs:551-599 | the removals in that history are one for each job that ran, in the order of the run |
| JobTurns.TakeTurn | src/manager.rs:509-599 | one turn equals its specification on the live jobs, both queues and the history: what happened is taken in, the living requests are taken over, the picked job is started |
| JobTurns.TakeOver | src/manager.rs:513-523 | the loop that takes requests over appends exactly the living ones, in order, and empties their queue |
| JobTurns.OccurAll | src/manager.rs:509-548 | events change live jobs, queues and history exactly as their specification says |
| JobTurns.HappenAllFollows | src/job.rs:446-476 | no events bring a job or an identifier back, lose a queued job, or queue an identifier twice; every job that is gone has been ended by one of them |
| JobTurns.TakeTurns | src/manager.rs:509-599 | any number of turns with requests, cancellations, results, scores, `After=` and unit states as they come: the fold of the single turn, with one result for each and the final queues, registry and history |
| JobTurns.PairedIsSound | src/job.rs:174-201 | every board of the loop has only identifiers that were handed out, as the results about runs need |
| JobTurns.DispatchedLast | src/manager.rs:565-599 | at its dispatch a job is live and no live job precedes it |
| JobTurns.PrecedingIsGone | src/manager.rs:565-599 | whatever had to precede it at any earlier moment is gone by then |
| JobTurns.DispatchedInOrder | src/manager.rs:551-599 | no job is dispatched before one that it must follow by the `After=` of its dispatch and that had been requested by then |
| JobTurns.DispatchedOnce | src/manager.rs:551-599 | if no identifier is queued twice at the start, no job is dispatched twice, whatever is requested during the run |
| JobTurns.DispatchesBounded | src/manager.rs:551-599 | dispatched and still queued jobs together are no more than were queued and came |
| JobTurns.TraceEvolves | src/manager.rs:551-599 | between any two moments no job comes back or changes, and the history only grows |
| JobTurns.IdleTurn | src/manager.rs:551-599 | a turn that dispatches nothing, with acyclic `After=`, leaves nothing or something in flight |
| JobTurns.NothingLost | src/manager.rs:551-599 | if every live job is queued at the start, then after any turns every live job, requested ones included, is queued or has been dispatched |
| JobTurns.EveryEndExplained | src/manager.rs:551-599 | every job that was live or was requested and is not live any more has been dispatched, canceled or finished |
| JobTurns.RunCompletes | src/manager.rs:551-599 | once nothing can go, no request waits, all units are settled and all dispatched jobs have finished, nothing is left and every job, requested ones included, was dispatched, canceled or finished |
| JobDispatch.RunOne | src/manager.rs:972-1007 | a dispatched job is running, or removed if it has a result at once; the history gets exactly its state change and its removal |
| JobRuns.Perform | src/job.rs:446-574 | every operation does to the whole registry and to all queues exactly what its step says, and keeps the invariant |
| JobRuns.PopsAreOk | src/job.rs:479-546 | a job that comes out of a step is announced and not removed, and a ready one has all its predecessors removed |
| JobRuns.StepIsLater | src/job.rs:446-574 | no step revives or reuses an identifier, and the history only grows |
| JobRuns.EndedIff | src/job.rs:379-404 | a live job leaves the registry if and only if the step finishes or cancels it, and then its removal is in the history |
| JobRuns.PerformAll | src/job.rs:446-574 | a run of operations on any queues that share the registry is a chain of such steps from the old to the new state, with one result for each operation; every job that comes out is live in the history of that moment, a ready one has all its predecessors removed, and none that an earlier operation finished or canceled |
| JobRuns.NeverAgain | src/job.rs:446-574 | over any run, a job that is finished or canceled is removed in the history from then on, is never live again and never comes out of any queue again |
| JobRuns.RunIsLater | src/job.rs:446-574 | the same between any two moments of a run |
| ResolverGraph.PushKeepsInv | src/deps.rs:82-89 | entering a unit keeps the search invariant: the stack is a path, finished units are closed under kept edges |
| ResolverGraph.BreakKeepsInv | src/deps.rs:82-85 | dropping an edge to a unit on the stack keeps the invariant, and that edge lies on a cycle |
| ResolverGraph.PopKeepsInv | src/deps.rs:106-108 | leaving a unit whose dependencies are dealt with keeps the invariant |
| Resolver.Search.EnsureLoaded | src/deps.rs:129-141 | afterwards a unit is loaded if and only if it can be; only a required one that cannot is an error |
| Resolver.Search.ReportCycle | src/deps.rs:114-121 | records the edge that closes the cycle |
| Resolver.Search.Resolve | src/deps.rs:78-111 | terminates; the unit is finished, or its edge is broken because it is being resolved; an error names an unloadable requirement of a reachable unit |
| Resolver.Search.ResolveNeeds | src/deps.rs:91-95 | all required dependencies are loaded and dealt with, or the error is right |
| Resolver.Search.ResolveWants | src/deps.rs:97-104 | all wanted dependencies that can be loaded are dealt with |
| Resolver.InvGivesStartOrder | src/deps.rs:40-61 | the final state is a start order: no duplicates, target last, exactly the reachable units, each after what it pulls in except along exactly the broken edges |
| Resolver.ResolveStartOrder | src/deps.rs:40-61 | succeeds if and only if no reachable unit has an unloadable requirement, and then returns such an order; an unknown target gives itself alone |
| Resolver.WholeOrderIff | src/deps.rs:40-61 | the result is a start order of all that is known or can be loaded if and only if the target is known, cannot be loaded, or pulls in nothing available |
| Resolver.UnknownIsAlone | src/deps.rs:40-61 | a target that is not known resolves to itself alone with nothing broken |
| Resolver.RequirementLeftOut | src/deps.rs:40-61 | an unknown target that requires a loadable unit: the unit is reachable and not in the order |
| Resolver.BrokenIffCycle | src/deps.rs:114-121 | nothing is broken if and only if the target reaches no cycle; then the order is topological |
| Resolver.PathDescends | src/deps.rs:78-111 | with nothing broken no path goes forward in the order |
| WireFormat.StringRound | ffi/spawn_wire.h:158-171 | a stored string reads back and leaves exactly what follows it |
| WireFormat.StringExact | ffi/spawn_wire.h:203-223 | whatever the string reader accepts is the encoding of a terminator-free string within the limit |
| WireFormat.RlimitsRound | ffi/spawn.c:303-307 | resource limits read back |
| WireFormat.RulesRound | ffi/spawn.c:309-312 | system call rules read back, negative numbers included |
| WireHeader.HeaderRound | ffi/spawn_wire.h:80-117 | the 160-byte header reads back field by field, whatever the padding |
| WireHeader.HeaderExact | ffi/spawn_wire.h:80-117 | the header bytes are the encoding of the header that is read |
| WireHeader.FlagsFit | ffi/spawn_wire.h:53-71 | the twelve flags are independent and no other bit is ever set |
| WireRequest.PayloadRound | ffi/spawn.c:285-312 | the payload reads back in full, driven only by counts and flags |
| WireRequest.PayloadExact | ffi/spawn_helper.c:256-356 | an accepted payload is the encoding of what was read |
| WireRequest.HeaderOfOk | ffi/spawn_helper.c:171-199 | the manager's header passes every check of the helper |
| WireRequest.RequestMeans | ffi/spawn.c:216-281 | header and payload say what the parameters say; empty working directory and control group count as absent |
| WireRequest.RoundTrip | ffi/spawn_helper.c:237-386 | every valid parameter set that fits is accepted and read back as what was asked for, field by field |
| WireRequest.DecodeExact | ffi/spawn_helper.c:237-386 | an accepted blob is, to the last byte, its header followed by the encoding of the request, and obeys all bounds |
| WireWriter.Writer.WriteBytes | ffi/spawn_wire.h:130-148 | appends all bytes or fails, the same whether measuring or filling |
| WireWriter.Writer.WriteString | ffi/spawn_wire.h:158-171 | appends the encoded string; a string over the limit fails the writer |
| WireWriter.Writer.WriteRequest | ffi/spawn.c:206-313 | appends exactly the encoding; it fails only for lack of room or an overlong notify socket |
| WireSpawn.CountVector | ffi/spawn.c:89-102 | refuses exactly vectors that are too long or hold an overlong string |
| WireSpawn.ValidateParams | ffi/spawn.c:111-200 | zero if and only if the parameters are valid, counts without an array and negative counts included; each error code says what is wrong |
| WireSpawn.RequestBound | ffi/spawn.c:111-200 | a valid request never overflows the size arithmetic |
| WireSpawn.BuildRequest | ffi/spawn.c:488-526 | succeeds if and only if the parameters are valid and the request fits; measuring and filling agree and the buffer holds exactly the request |
| WireReader.Reader.ReadBytes | ffi/spawn_wire.h:179-188 | reads inside the data or refuses; never passes the end |
| WireReader.Reader.ReadString | ffi/spawn_wire.h:203-223 | equals the string parser on every input |
| WireReader.Reader.DecodeVector | ffi/spawn_helper.c:201-218 | equals the vector parser on every input |
| WireReader.Reader.DecodeOptions | ffi/spawn_helper.c:273-297 | the optional strings in order, each if its flag is set |
| WireReader.Reader.DecodeRlimits | ffi/spawn_helper.c:311-331 | equals the parser of resource limits on every input |
| WireReader.Reader.DecodeRules | ffi/spawn_helper.c:333-351 | equals the parser of system call rules on every input |
| WireReader.DecodeRequest | ffi/spawn_helper.c:237-386 | the imperative decoder agrees with the format on every blob |
| Descriptors.LowestFree | ffi/spawn.c:358-361 | the lowest free number from the minimum on |
| Descriptors.PlanWorks | ffi/spawn.c:350-383 | scratch space never runs out; the plan fails if and only if a source below the minimum is closed; otherwise every action carries its source's file from above all targets |
| Descriptors.ScratchIsLowest | ffi/spawn.c:350-364 | the scratch copies take the lowest free numbers from the minimum on, as many as there are sources below it |
| Descriptors.ActionsPlace | ffi/spawn.c:417-440 | the recorded moves do not disturb each other: they succeed if and only if all sources are open, and then every target holds its file and nothing else changed |
| Descriptors.ReleaseRestores | ffi/spawn.c:366-370 | closing the scratch descriptors restores the manager's table |
| SpawnDescriptors.Spawner.ScratchLift | ffi/spawn.c:350-364 | copies a descriptor out of the way of the targets, or says why not |
| SpawnDescriptors.Spawner.Add | ffi/spawn.c:372-383 | records one move, keeping the first error |
| SpawnDescriptors.Spawner.ScratchRelease | ffi/spawn.c:366-370 | closes exactly the scratch descriptors |
| SpawnDescriptors.SpawnHelperImage | ffi/spawn.c:385-461 | the child gets the planned table; the manager's own table comes back unchanged, whatever happens |
| SpawnDescriptors.SpawnedIff | ffi/spawn.c:385-461 | a spawn succeeds if and only if every source is open, or is at or above the minimum with fewer free numbers between the two than there are sources below the minimum |
| SpawnDescriptors.ClosedSourceAccepted | ffi/spawn.c:350-364 | with 0-3, the request at 4 and the error pair at 5 and 6 open, a closed standard input 7 is accepted and the helper finds the request file at 0 |
| SpawnDescriptors.SpawnDelivers | ffi/spawn.c:385-461 | if all sources are open, whatever their numbers, the helper finds each file at its target and below the minimum nothing else but what exec inherits |
| HelperDescriptors.LiftControlDescriptor | ffi/spawn_helper.c:404-411 | moves a control descriptor above the minimum and marks it close-on-exec |
| HelperDescriptors.PrepareDescriptors | ffi/spawn_helper.c:893-920 | leaves 0-2, the listeners, and above them only close-on-exec control descriptors |
| HelperDescriptors.PublishListenDescriptors | ffi/spawn_helper.c:413-423 | moves overlapping ranges down without loss: all listeners in order from 3 on, the gap closed, the rest untouched |
| HelperDescriptors.HelperMain | ffi/spawn_helper.c:890-978 | succeeds if and only if the helper finds what it needs; then the service has 0-2 as they were and exactly the listeners |
| HelperDescriptors.SpawnService | ffi/spawn.c:385-461 | end to end, for every choice of open source descriptors, colliding ones included: the service's table is exactly 0-2 and `listen_fds` in order from 3 on |
| HelperDescriptors.ClosedSourceServed | ffi/spawn_helper.c:890-978 | in that case the helper finds what it needs and the service has the request file at 0 |
| Spawning.SpawnProcess | ffi/spawn.c:488-556 | a whole spawn: zero if and only if the request can be sent and every source is open, or filled by a scratch copy, beside the control descriptors; with open sources the helper reads back what was asked for and the service has exactly the asked descriptors; the manager's table is unchanged |
| Spawning.RunHelper | ffi/spawn_helper.c:890-978 | the helper acts on the listener count and idle flag of the request that it finds and decodes |
| Spawning.RequestArrives | ffi/spawn_helper.c:890-903 | the request file is where the helper looks, and what it decodes there is what was asked for |
| Spawning.ControlStaysOut | ffi/spawn.c:528-553 | the control descriptors do not show in what the service gets |
| Spawning.ControlIsNew | ffi/spawn.c:528-553 | they take free numbers, are not inherited, and closing them restores the table |
| Spawning.ClosedInputIsRequest | ffi/spawn.c:528-553 | a closed standard input with the lowest free number is accepted and is the request file |
| Bpf.AcceptedNeverFaults | ffi/seccomp.c:52-60 | a program that the kernel's static check accepts always ends with an action |
| Seccomp.TableMeans | ffi/seccomp.c:1379-1384 | a compiled table returns the first match, or the default behind it |
| Seccomp.RulesProgramMeans | ffi/seccomp.c:1344-1394 | for every call the compiled rules return the first matching rule's action, or the default on no match or a foreign architecture, and the program is accepted |
| Seccomp.SyscallRules | ffi/seccomp.c:1344-1394 | refuses exactly a missing array with a positive count, invalid actions, too many rules, unsupported builds and failed allocation, each with its code; otherwise the filled array means the rules for every call |
| Seccomp.FillRules | ffi/seccomp.c:1372-1386 | the filled array is the compiled program |
| Seccomp.LookupSyscall | ffi/seccomp.c:1286-1292 | the number of the first entry of that name |
| Seccomp.NumbersAre | ffi/seccomp.c:1419-1424 | the numbers found are exactly those named; unknown names name nothing |
| Seccomp.ListProgramMeans | ffi/seccomp.c:1439-1458 | the compiled list decides by membership |
| Seccomp.FillList | ffi/seccomp.c:1439-1458 | the filled array is that program |
| Seccomp.SyscallFilter | ffi/seccomp.c:1396-1464 | every argument error, the empty and unknown lists, and otherwise a filter that decides every call by membership in the list |
| Seccomp.ListIsASet | ffi/seccomp.c:1396-1464 | order and repetition of the list do not matter |
| Seccomp.MemoryProgramMeans | ffi/seccomp.c:65-126 | the fixed filter refuses exactly new writable and executable mappings and changes to executable, on the two known architectures |
| RestartLimiter.UnitRecord.AutomaticRestartAt | src/manager.rs:2761-2807 | grants exactly when the limiter does, with the delay of the new attempt count; a refusal fails the unit with the result start-limit-hit |
| RestartLimiter.UnitRecord.ResetFailed | src/manager.rs:2717-2729 | clears counters, window, watchdog and exit status, and starts the limiter afresh |
| RestartLimiter.AutomaticRestarts | src/manager.rs:2761-2807 | over any run of requests the record grants what the limiter grants |
| RestartLimiter.DefaultBound | src/manager.rs:2776-2780 | with the default limit at most nine restarts happen in less than ten seconds |
| RestartLimiter.WindowBound | src/manager.rs:2783-2801 | one window grants at most `burst` restarts |
| RestartLimiter.SpanBound | src/manager.rs:2761-2807 | over any run at nonzero, nondecreasing times any span shorter than the interval sees at most 2 * burst - 1 restarts, and at most burst if the interval is one nanosecond |
| RestartLimiter.InstantBound | src/manager.rs:2783-2801 | within a window, requests at one instant are granted at most burst restarts |
| RestartLimiter.SpanBoundIsTight | src/manager.rs:2761-2807 | that bound is reached, for every burst and interval |
| RestartLimiter.BoundedIff | src/manager.rs:2776-2802 | restarts at one instant are bounded if and only if a burst and an interval are set, the burst is below the counter's maximum and the instant is not zero |
| RestartLimiter.SaturationIsHarmless | src/manager.rs:2784 | the saturating difference decides like the true one |
| KillContext.SignalPrimary | src/kill_context.rs:71-98 | signals every tracked process once, also when main and control are the same, and counts those that took the signal |
| Timeouts.Manager.SignalTimeoutOperation | src/manager.rs:1510-1520 | the number of processes that took the signal |
| Timeouts.Manager.FinalizeWithoutExit | src/manager.rs:1532-1551 | the unit fails with the given result, has no deadline left and its main process no longer notifies; a service also forgets its processes, runs its stop-post commands once and gives up idle gate, dynamic user and PID file |
| Timeouts.Manager.ApplyStartDeadline | src/manager.rs:1553-1585 | equals the pure transition; other units are untouched |
| Timeouts.Manager.ApplyStopDeadline | src/manager.rs:1587-1613 | equals the pure transition; other units are untouched |
| Timeouts.Manager.ApplyAbortDeadline | src/manager.rs:1615-1623 | equals the pure transition; other units are untouched |
| Timeouts.Manager.ApplyFinalKill | src/manager.rs:1625-1638 | a kill that reaches nobody fails the unit, keeping a watchdog result |
| Timeouts.Manager.ArmServiceStopTimeout | src/manager.rs:1646-1668 | replaces the deadline on record, or kills at once when no timer can be armed |
| Timeouts.Manager.ApplyServiceTimeoutEvent | src/manager.rs:1470-1490 | removes the deadline on record in any case; only an event from that very timer has an effect |
| Timeouts.Manager.RunDeadlines | src/manager.rs:1470-1668 | firing every deadline that is armed follows the escalation and leaves other units alone |
| Timeouts.Manager.ExpireWatchdogs | src/manager.rs:1393-1431 | exactly the services whose watchdog has expired are deactivated and aborted; their abort deadline is on record, or none if they failed, and no other unit changes its deadlines |
| Timeouts.DeadlineAdvances | src/manager.rs:1553-1638 | a due deadline arms a strictly later phase that is due then, or delivers a kill, or fails the unit |
| Timeouts.EscalationEnds | src/manager.rs:1470-1668 | at most three deadlines fire; the last one delivers the final kill or fails the unit with timeout or watchdog, for every kill mode, failure mode and answer of the kernel |
| Timeouts.WithoutKillItFails | src/kill_context.rs:47-57 | with KillMode none or SendSIGKILL off the escalation always ends in failure, never waiting for a kill |
| Timeouts.ThreeDeadlinesIff | src/manager.rs:1553-1613 | exactly when all three deadlines fire |
| Timeouts.WatchdogEnds | src/manager.rs:1393-1431 | an expired watchdog ends with the final kill or failure with the result watchdog, after at most one more deadline |
| TimeoutRuns.ApplyServiceTimeoutEvents | src/manager.rs:1457-1468 | units and deadlines after any sequence of events are the fold of the single event |
| TimeoutRuns.StopHonouredIff | src/manager.rs:1470-1483 | over any sequence of events with fresh timer sources: a stop deadline is still on record if and only if no stop or abort event for its unit came, and the start timer on record did not fire with a deadline that rearms, fails the unit or kills without a timer |
| TimeoutRuns.StartHonouredIff | src/manager.rs:1470-1483 | a start deadline is still on record if and only if no start event for its unit came and no stop or abort event failed the unit |
| TimeoutRuns.ActivatingHonouredIff | src/manager.rs:1470-1483 | while the unit is being activated, if and only if no start event for it came |
| TimeoutRuns.StaleEventStrands | src/manager.rs:1470-1483 | a stop event of another timer followed by that of the timer on record removes the deadline and changes nothing else |
| TimeoutRuns.LostDeadline | src/manager.rs:1470-1483 | at a concrete input: the unit stays deactivating with no deadline on record |

## Left out

- JobRegistry.Registry.Allocate: returns nothing where the code panics because identifiers are exhausted.
- JobRuns.Perform: cancelling everything is not one operation of a run but a sequence of cancels.
- JobDispatch.RunToCompletion: `After=` stays the same and every job finishes in its own dispatch; jobs that finish later are in JobTurns.RunCompletes.
- JobTurns.TakeTurns: a request that finds the identifiers exhausted changes nothing where the code panics; internal steps that a dispatched job queues come in as events before the next turn.
- RestartLimiter.UnitRecord.AutomaticRestartAt: the delay is a parameter, a function of the attempt count; its floating-point interpolation is not modelled.
- JournalFile.File.Reopen: the lock, the header's first fields on disk and the machine identity are parameters; later appends do not read the first fields again.
- Timeouts.Manager.FinalizeWithoutExit: what the stop-post commands do is not modelled, and removing the PID file succeeds.
- Resolver.ResolveStartOrder: the loader is a fixed finite map; one that answers the same name differently over time is not modelled.
- HelperDescriptors.SpawnService: no descriptor limit is modelled, `close_range` succeeds, and what the helper opens and closes again in between is not modelled; the listener count and idle flag are passed beside the request here, and read from it in Spawning.SpawnProcess.
- Spawning.SpawnProcess: writing the request file and opening the error socket succeed; waiting for the helper's report is not modelled.
- Journal files that were damaged, appended to part of the way, or written by two processes; the bits of the journal hash.
- Environment variables that the helper sets, credentials, sandbox mounts, resource limits and the exec itself.
- The namespace filter and the native-architecture filter of `ffi/seccomp.c`.
- The scoring network and fault injection, which only supply scores or failures.
- The rest of the manager: sockets, timers, targets, mounts, control groups, D-Bus, configuration and unit file parsing, which would add many easier members.
