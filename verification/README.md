# Verification of the XSB emulator

Models of the parts of the XSB Prolog emulator (`xsb/emu`) in which many small updates have to add up to something, and
proofs of what they add up to.  The code updates its data in place, and so do the models: classes with the emulator's
fields, arrays for its rings, tables and stacks, linked elements for its chains.  Each method is proved against a
description of the state before and after; lemmas then follow that state through whole runs.

| modules | what they model |
|---|---|
| Completion, CompletionRuns, LostAnswers | completion of tables shared between threads: dependency lists, the critical section of check_complete, runs of any number of threads |
| WaitFor, WaitRuns | the wait-for graph between threads, and runs in which threads call, complete and take over each other's tables |
| Scc | strongly connected components of the call graph |
| CallGraph, Walks, Abolish | the call graph of incremental tabling, and abolishing a call |
| Invalidation, InvalidationRuns, StaleTables | invalidating calls and reporting them unchanged; when tables stay up to date |
| Chains, Reclaim | the linked chains of dynamic clauses, and deleting a clause under live choice points |
| Index, IndexLookup, IndexWalk, IndexHeap | hash indexes over these chains, what a lookup finds, the walk of first_clref and next_clref with blocks made to fail, and both after deletion |
| CodeQueue, Moves, MoveRuns | the assert compiler's ring and registers, and its generator for parallel moves |
| TermCode, BuiltTerms, Builder | its generator for code that builds a term, the instructions emitted, and what they make of integers in lists |
| Trail | trail frames, backtracking, and tidying the trail at a cut |
| ExcessVars | the variables that findall, setof and bagof quantify over |
| Suspensions | resuming completion suspensions |
| Boxing | tagged and boxed numbers |

Conventions.  Frame addresses of a completion stack are negated positions, so that larger addresses are older, as in the
emulator.  Counters that the emulator keeps in bit-fields are taken modulo their width; beside them a ghost value
carries what they would be if they were wide enough.  What the environment decides (what a thread computes next, which
call is evaluated again and with what result, where a stack's leader lies) is a parameter or is left open.  History
variables are named as such.  A failure that the emulator reports is an outcome, never a precondition.

`dafny verify dfyconfig.toml` verifies the whole project.

## Model

| member | source | states |
|---|---|---|
| Completion.Engine.CheckInsSubg | xsb/emu/conc_compl.c:42-63 | Afterwards there is still one entry per thread and the new dependency is dominated by one; TRUE exactly if it was not dominated before; nothing dominated before is lost; the call aborts exactly when the thread is new and 255 are listed. |
| Completion.Engine.FindFixpoint | xsb/emu/schedrev_xsb_i.h:169-251 | Something is scheduled exactly when a consumer inside the SCC, or an external one down to the leader frame, has an unread answer; the list rebuilt holds the incomplete subgoals that external frames read, and nothing else. |
| Completion.Engine.PropagateDeps | xsb/emu/conc_compl.c:109-130 | Every incomplete dependency of the waiting thread is taken over: those on the own thread move the leader, all others are dominated by an entry; a new one lowers the set of dependencies not yet dominated. |
| Completion.Engine.UpdatePass | xsb/emu/conc_compl.c:157-174 | One pass over the list visits every entry, including those that it changes; if it reports nothing new, every thread in the result was in the list before. |
| Completion.Engine.UpdateDeps | xsb/emu/conc_compl.c:144-177 | The loop ends, as each further pass dominates more of finitely many dependencies; at its end every incomplete dependency of every waiting thread in the list is dominated by the list or by the leader, every entry and the new leader stem from a needed subgoal, all `last` fields are current, and `busy` is exact. |
| Completion.Engine.MayHaveAnswers | xsb/emu/conc_compl.c:188-212 | TRUE exactly if some thread of the set is in a later answer epoch than a member that depends on it has recorded. |
| Completion.Engine.CheckForSCC | xsb/emu/conc_compl.c:226-257 | TRUE exactly if the thread and its dependencies name the same set of threads, and each dependency lies at or below the completing leader of its thread. |
| Completion.Engine.CompleteTop | xsb/emu/conc_compl.c:307-330 | Exactly the subgoals from the top of the stack down to the leader become completed and leave the stack. |
| Completion.Engine.CompleteOtherThreads | xsb/emu/conc_compl.c:259-274 | Each listed thread is completed down to its own completing leader, and nobody else. |
| Completion.Engine.Survey | xsb/emu/complete_xsb_i.h:65-80 | Either unread answers exist or the list left behind is settled: all answers read, all direct dependencies recorded, closed under what the waiting threads have recorded. |
| Completion.SurveyExact | xsb/emu/conc_compl.c:144-177 | The threads listed are exactly those that own an incomplete subgoal needed directly or through what waiting threads have recorded; there is an older leader exactly if one of these needs an older subgoal of the own thread; the list is empty exactly if no external frame reads an incomplete table. |
| Completion.Engine.CheckComplete | xsb/emu/complete_xsb_i.h:57-118 | One critical section of check_complete has one of seven outcomes, each with its exact effect; from the state before: it aborts exactly if too many threads are needed, schedules exactly if an answer is unread, merges exactly if there is an older leader, completes by itself (or is delayed by a resumed suspension) exactly if nothing incomplete is read, and completes the set exactly if nobody is busy, none has newer answers, and the threads form an SCC. |
| CompletionRuns.CompletedSetClosed | xsb/emu/conc_compl.c:226-274 | When a set of threads is completed, every incomplete table that an external consumer of a member reads belongs to a member, at or below the leader down to which that member is completed. |
| CompletionRuns.OnlyMembersCompleted | xsb/emu/conc_compl.c:259-274 | Nothing becomes completed but live tables of members, at or below their leaders. |
| CompletionRuns.MembersCompleted | xsb/emu/conc_compl.c:259-274 | Every live table of a member at or below its leader becomes completed. |
| CompletionRuns.StepKeepsInv | xsb/emu/complete_xsb_i.h:57-118 | Whatever a thread does next, inside or outside the protocol: what waiting threads have recorded still stands for everything incomplete that they read. |
| CompletionRuns.InvIsWellFormed | xsb/emu/complete_xsb_i.h:57-118 | In the states that runs reach, a thread may enter the protocol at any time: what the critical section asks of the state holds. |
| CompletionRuns.RunsCompleteClosedSets | xsb/emu/complete_xsb_i.h:57-118 | In every run of any number of threads, whatever they do between their critical sections, a set completed together is closed under the dependencies of its members. |
| CompletionRuns.StepKeepsFresh | xsb/emu/complete_xsb_i.h:67 | As long as no thread adds answers in an epoch in which it has waited, a waiting thread has read every answer it has not been overtaken by. |
| LostAnswers.CompleteIffRestrained | xsb/emu/complete_xsb_i.h:57-118 | For any set of ways out of the protocol after which a thread may add answers without a new epoch: in all runs tables are completed with every answer read if and only if that set contains none but the abort, after which a thread does not go on. |
| LostAnswers.LosingRun | xsb/emu/complete_xsb_i.h:75-80 | For each way out of the protocol other than abort, a run in which a thread takes it and a table is then completed with an answer unread. |
| LostAnswers.LosingAfterMerge | xsb/emu/complete_xsb_i.h:75-80 | Such a run through the exit for an older leader. |
| LostAnswers.LosingAfterAlone | xsb/emu/complete_xsb_i.h:82-92 | Such a run through the exit on which a thread completes its SCC by itself. |
| LostAnswers.LosingAfterResuming | xsb/emu/complete_xsb_i.h:82-92 | Such a run through the exit on which a suspension is resumed. |
| LostAnswers.LosingAfterSet | xsb/emu/complete_xsb_i.h:99-104 | Such a run through the exit on which a thread completes the SCCs of others with its own. |
| LostAnswers.LosingAfterOthers | xsb/emu/complete_xsb_i.h:109-117 | Such a run through the exit on which another thread has completed the SCC. |
| WaitFor.ThreadTable.WouldDeadlock | xsb/emu/deadlock.c:22-36 | On an acyclic graph the walk ends, and says whether the second thread can be reached from the first. |
| WaitFor.NewEdge | xsb/emu/bineg_xsb_i.h:147-154 | In an acyclic graph a new wait closes a cycle exactly if the thread waited for already reaches the one that waits. |
| WaitFor.ThreadTable.DetachPath | xsb/emu/deadlock.c:123-129 | Exactly the threads on the path to the leader stop waiting, and the path is remembered in their tmp_next fields. |
| WaitFor.ThreadTable.Redirect | xsb/emu/deadlock.c:132-139 | Redirecting one thread keeps an acyclic graph acyclic exactly if the leader does not lead to that thread. |
| WaitFor.ThreadTable.ResetOtherThreads | xsb/emu/deadlock.c:118-140 | With no thread in between, exactly the threads on the path wait for the leader afterwards and all others for whom they waited before. |
| WaitFor.ThreadTable.TryToWait | xsb/emu/bineg_xsb_i.h:143-154 | A thread becomes the leader exactly if the owner of the table reaches it; otherwise it waits for the owner, and the graph stays acyclic. |
| WaitFor.ReturnsIffOnCycle | xsb/emu/deadlock.c:26-32 | From a thread on a cycle would_deadlock returns if and only if it looks for a thread on that cycle. |
| WaitRuns.StepKeepsInv | xsb/emu/bineg_xsb_i.h:143-162 | Calling, taking over, completing, waiting, leading and redirecting keep the graph acyclic when no leader has a wait of its own left over and detached threads stay asleep. |
| WaitRuns.AcyclicIffStrict | xsb/emu/bineg_xsb_i.h:136-165 | Over all runs of threads that call, complete and take over each other's tables, the wait-for graph stays acyclic if and only if no thread leads while its waiting_for_tid is still set and no detached thread acts before it has been redirected. |
| WaitRuns.StaleRun | xsb/emu/bineg_xsb_i.h:147-154 | A run of three threads that ends in a cycle because one of them leads with its own wait left over. |
| WaitRuns.AwakeRun | xsb/emu/deadlock.c:123-139 | A run of four threads that ends in a cycle because one of them goes on between being detached and being redirected. |
| Scc.SccSearch.Visit | xsb/emu/call_graph_xsb.c:1311-1352 | The recursive search keeps its invariant: numbers, colours, low links, components popped so far, and the stack with the leaves left on it. |
| Scc.SegmentIsComponent | xsb/emu/call_graph_xsb.c:1343-1349 | When a node's low number equals its own, the inner nodes above it on the stack are exactly those that reach it and are reached by it. |
| Scc.SccSearch.Number | xsb/emu/call_graph_xsb.c:1298-1303 | Over any graph closed under edges the search ends with all nodes numbered, inner nodes alike exactly if they reach each other; all component numbers are right if and only if no call without dependents is reachable from one listed before it. |
| Scc.OneEdge | xsb/emu/call_graph_xsb.c:1350-1351 | For the list of two calls with one edge between them, the two get the same number though the second does not reach the first. |
| Abolish.CallTable.Mark | xsb/emu/call_graph_xsb.c:1101-1125 | Marks the call and everything that supports it, lowers each counter once for each edge to a newly marked call, and lists exactly those calls whose counter is then not zero. |
| Abolish.MarkedSupporters | xsb/emu/call_graph_xsb.c:1101-1125 | The first phase marks exactly the transitive supporters of the call abolished, cycles included. |
| Abolish.CallTable.Unmark | xsb/emu/call_graph_xsb.c:1175-1193 | Takes the mark from the call and everything marked that supports it, and raises each counter once for each such edge. |
| Abolish.CallTable.CheckAssumptions | xsb/emu/call_graph_xsb.c:1198-1225 | After the second phase every counter still equals the edges to calls that are not marked, and every listed call with such an edge has lost its mark. |
| Abolish.KeptMarks | xsb/emu/call_graph_xsb.c:1198-1225 | If no call has 32768 dependents or more, the calls left marked are exactly those supporters all of whose transitive dependents are supporters too. |
| Abolish.CallTable.RemoveEdges | xsb/emu/call_graph_xsb.c:183-206 | Removing the edges into a call never misses a key, and removes it from the tables of exactly its supporters. |
| Abolish.CallTable.DeleteCalls | xsb/emu/call_graph_xsb.c:1128-1170 | Succeeds exactly if the 15-bit counter of every marked call other than a fact shows zero, and then frees exactly these. |
| Abolish.CallTable.AbolishIncrCall | xsb/emu/call_graph_xsb.c:1041-1061 | With less than 32768 dependents per call abolition always succeeds, deletes the call and all calls that serve only deleted ones, facts excepted, and leaves a sound graph with exact counters; in general it fails exactly on a counter that shows dependents left. |
| Abolish.RightIff | xsb/emu/call_graph_xsb.c:1101-1225 | When an abolition succeeds, the right calls go if and only if every supporter with a dependent outside, facts excepted, is or leads to one the number of whose dependents outside is no multiple of 32768. |
| Abolish.RightIffFew | xsb/emu/tries.h:651 | The right calls go, in all graphs with at most `bound` dependents for each call, if and only if `bound` is below 32768. |
| Abolish.StarGoes | xsb/emu/tries.h:651 | A call with 32768 dependents outside its supporters is deleted although all of them remain. |
| Invalidation.Invalidator.DfsOutedges | xsb/emu/call_graph_xsb.c:443-476 | Marks what depends on the call, raises each 14-bit counter once per edge from a newly marked call, and puts each such call on the affected list once; fails exactly when it meets an incomplete table. |
| Invalidation.Invalidator.InvalidateCall | xsb/emu/call_graph_xsb.c:531-541 | Does this and counts one direct invalidation if the call was not marked, and nothing otherwise. |
| Invalidation.Invalidator.PropagateNoChange | xsb/emu/call_graph_xsb.c:296-316 | Each edge out of the unchanged call, and out of every call whose last outstanding edge this was, is discharged once; exactly these calls lose their mark. |
| Invalidation.DischargedIsLeast | xsb/emu/call_graph_xsb.c:296-316 | The calls made valid are the least set that contains every call all of whose outstanding edges come from the unchanged one or from the set. |
| InvalidationRuns.InvalidateKeeps | xsb/emu/call_graph_xsb.c:443-541 | An invalidation keeps the counters equal to what is outstanding, as long as this fits into 14 bits. |
| InvalidationRuns.SettlingCounts | xsb/emu/call_graph_xsb.c:296-316 | Reporting a call unchanged gives back exactly the invalidations outstanding on its account. |
| InvalidationRuns.FinishKeeps | xsb/emu/tables.c:718-760 | The end of a re-evaluation, changed or not, with any new set of supporters, keeps the invariant if none of them is a fact still marked. |
| InvalidationRuns.RemoveKeeps | xsb/emu/call_graph_xsb.c:1041-1061 | So does abolishing a call while nothing is invalid. |
| InvalidationRuns.AbolishInRun | xsb/emu/call_graph_xsb.c:1041-1061 | Abolishing a call of the graph in memory is such a step: its edges and marks change as the step says. |
| InvalidationRuns.RunsStayCurrent | xsb/emu/tables.c:245-270 | After every run of changes, fetches, re-evaluations, first evaluations and abolitions, if no call is evaluated with the help of a fact still marked and no counter overflows, the counters are exact and no table is used that is out of date. |
| InvalidationRuns.AffectedIsSchedule | xsb/emu/call_graph_xsb.c:443-476 | After any series of invalidations the affected list holds each invalid call once, and puts calls before their dependents if and only if no invalid call is on a cycle. |
| StaleTables.FinishedIff | xsb/emu/call_graph_xsb.c:531-541 | A call re-evaluated stays up to date in every continuation of the kind above if and only if no fact among its supporters is still marked when it finishes. |
| StaleTables.CreatedIff | xsb/emu/call_graph_xsb.c:531-541 | The same for a call evaluated for the first time. |
| StaleTables.FetchedIsClean | xsb/emu/incr_xsb.c:75-83 | Fetching the affected list before each evaluation is enough for this: then no marked fact is ever used, as long as marked facts have no dependents at the start. |
| StaleTables.CurrentIffCounted | xsb/emu/tries.h:651 | All runs that use no marked fact stay up to date if and only if fewer than 16384 invalidations are outstanding for each call. |
| StaleTables.UnfetchedRun | xsb/emu/tables.c:245-270 | A run in which a call is made again before the list has been fetched, and the next change of the fact goes unnoticed. |
| StaleTables.StuckForGood | xsb/emu/call_graph_xsb.c:1134-1170 | A fact marked by an abolition and not on the affected list never loses its mark again. |
| StaleTables.LostFact | xsb/emu/call_graph_xsb.c:1138-1142 | Any call that uses a fact which only an abolished call had used can go out of date unnoticed, however much later. |
| StaleTables.AbolishedRun | xsb/emu/call_graph_xsb.c:1138-1142 | Such a run: the only user of a fact is abolished and called again. |
| Chains.PrefixToChain | xsb/emu/biassert.c:1453-1472 | Puts an element before the first: the chain is again well linked, with the instructions that the positions demand; the new one is a try in a chain of blocks and a dyntry in one of clauses. |
| Chains.AppendToChain | xsb/emu/biassert.c:1475-1495 | Likewise after the last. |
| Chains.DeleteFromChain | xsb/emu/biassert.c:1947-1991 | Takes any element out of a well-linked chain: what remains is well linked, in the same order, with the instructions that the new positions demand. |
| Chains.Chain.Add | xsb/emu/biassert.c:1498-1522 | Adding at either end is cons or snoc on the chain's sequence, and the owner's end pointers stay right; an element alone is a noop if it is a block and a dynnoop if it is a clause, the first of several a try or a dyntry. |
| Chains.Chain.AddToBucket | xsb/emu/biassert.c:1671-1709 | The same for a hash bucket, whose last element is searched for; the count of nonempty buckets rises exactly if this one was empty. |
| Chains.Delete | xsb/emu/biassert.c:2014-2071 | Deleting an element removes it from the sequence of its chain and corrects the owner's end pointers, found through the element's own links. |
| Chains.EndKnown | xsb/emu/biassert.c:1821-1822 | In a chain of blocks the test for the end made by NextSOB holds exactly at the last element, and in a chain of clauses so does the one made by next_clref; everywhere else the link leads to the next element. |
| Reclaim.Backtrack | xsb/emu/biassert.c:2077-2099 | Backtracking to an element inside a chain moves to the next one, and is given up after the last. |
| Reclaim.SurvivesIff | xsb/emu/biassert.c:2088-2094 | A choice point can still be resumed after a deletion exactly if it is not at the element deleted, nor at the second while the first goes. |
| Reclaim.TailWithout | xsb/emu/biassert.c:2088-2099 | What is then left to try is what was left before without the deleted elements. |
| Reclaim.MarkChoicePoints | xsb/emu/biassert.c:2152-2194 | Reports a match exactly if some choice point is at the clause or cannot be attributed; otherwise exactly the clauses with choice points are marked. |
| Reclaim.UnmarkChoicePoints | xsb/emu/biassert.c:2198-2222 | Afterwards nothing is marked. |
| Reclaim.SafeToDelete | xsb/emu/biassert.c:2895-2921 | TRUE exactly if neither the clause nor, in any of its chains where it is first, the next one is marked. |
| Reclaim.DeleteEntry | xsb/emu/biassert.c:2836-2867 | Takes the clause out of a bucket; an index block left without clauses goes as well or, if a choice point is in its way, is made to fail, and no other is; all counts stay exact. |
| Reclaim.AddEntry | xsb/emu/biassert.c:1671-1709 | A new entry in the bucket of a block in use leaves all other chains and all counts right. |
| Reclaim.RetractClause | xsb/emu/biassert.c:2967-3000 | A clause is deleted at once exactly if no choice point is in the way; then every choice point can be resumed and tries what it would have tried but for the deleted elements; otherwise no chain changes.  The blocks made to fail are exactly those in a chain without clauses; none is if no choice point is in a chain of blocks. |
| Index.HashValIs | xsb/emu/biassert.c:1558-1640 | The bucket of a bound key is the sum of its numbers modulo the table size, each weighted by a power of two for its place, again modulo the size, and so a single number modulo the size; a variable has none. |
| Index.HashResize | xsb/emu/biassert.c:1527-1556 | Without a block there is taken the least size of the list that is enough; a table more than three quarters of whose buckets are in use grows to the next size of the list, or by two beyond the last; otherwise the size stays, unless more is wanted. |
| IndexHeap.RetractIndexed | xsb/emu/biassert.c:2967-3000 | Over the linked chains as they are in memory: a clause deleted disappears from the program and from the answers to every goal, and nothing else does, even where whole blocks go; the blocks stay fit for first_clref and next_clref; all lookups get through if and only if no block made to fail is last in its chain or first below another, so all do as long as none has been made to fail, in which case the blocks left are those of the retraction on sequences, and none does after the only clause of the last block has gone with a choice point at that block. |
| IndexHeap.FindInChains | xsb/emu/biassert.c:1852-1936 | A search with first_clref and next_clref in the linked chains leaves them exactly if a block made to fail is in the way; otherwise it finds part of the program in order, without repetition, lacks no clause that agrees with the goal, and of the clauses bound at the index in use has only those whose keys are congruent to the goal's. |
| IndexHeap.EndSeen | xsb/emu/biassert.c:1821-1822 | So in every chain of blocks of an index, at any level, NextSOB stops exactly at the last block. |
| IndexHeap.FitIsKept | xsb/emu/biassert.c:2852-2867 | In the linked chains a block has been made to fail exactly if it has no clauses; every lookup gets through if and only if none of these is last in its chain or first below another. |
| IndexHeap.StuckFails | xsb/emu/biassert.c:2852-2859 | Deleting the only clause of the last block while a choice point is at that block leaves the block, made to fail, at the end of the chain, and no lookup gets through any more. |
| IndexHeap.ViewThinned | xsb/emu/biassert.c:2836-2867 | While no block is made to fail, the deletion in the linked chains is the retraction on sequences: the same blocks go and the rest hold the same. |
| IndexHeap.OrderedWithout | xsb/emu/biassert.c:2813-2878 | Deleting a clause removes it from the program, and every bucket again holds the clauses that hash to it, in program order. |
| Index.InsertRight | xsb/emu/biassert.c:1740-1769 | Adding a clause at either end, through any number of index levels and any table sizes, adds it at that end of the program and leaves every block with each bucket holding, in program order, the clauses that hash to it. |
| Index.InsertWhere | xsb/emu/biassert.c:1740-1769 | A clause goes into the block at its end of the chain if that has the index and the size of table wanted, and otherwise into a new block there; all other blocks stay. |
| IndexLookup.WithoutRight | xsb/emu/biassert.c:2836-2867 | Retracting a clause, with no choice point in the way, takes it out of the program and leaves every block with each bucket holding, in program order, the clauses that hash to it; blocks without nonempty buckets go, at every level. |
| IndexLookup.LookupRefinesSearch | xsb/emu/biassert.c:1559-1936 | After any run of asserta, assertz and such retractions with any indexes, what a lookup finds is part of the program, in order and without repetition, and it finds every clause whose indexed arguments agree with the goal. |
| IndexLookup.AnswersShare | xsb/emu/biassert.c:1801-1812 | Of the clauses bound at the index in use a lookup finds only those whose key is congruent to the goal's: equal weighted sums modulo the size of the table they are in. |
| IndexLookup.FirstIndexShares | xsb/emu/biassert.c:1558-1567 | After any run a lookup at the first index finds, of the clauses bound there, only those with a key congruent to the goal's modulo a table size of at least 17. |
| IndexLookup.SmallNumbersExact | xsb/emu/biassert.c:1558-1567 | With one index and numbers below 17 in it, after any run a lookup finds exactly the clauses of the program with the goal's number or a variable there, in order. |
| IndexLookup.TwoNumbers | xsb/emu/biassert.c:1558-1567 | After assertz of p(1) and p(2), a lookup for p(2) finds p(2) alone. |
| IndexWalk.FindUsableIndex | xsb/emu/biassert.c:1775-1792 | Goes down to the first index at which the goal is bound without passing over anything to be found; leaves the blocks exactly if one made to fail, with the goal unbound there, is on the way. |
| IndexWalk.NextSob | xsb/emu/biassert.c:1820-1834 | Moves to the next block in use, up, along and past blocks made to fail; what is left to be found is unchanged, and the search comes nearer its end; runs past the end of the chain exactly if only blocks made to fail come after. |
| IndexWalk.FirstClauseSob | xsb/emu/biassert.c:1801-1850 | Ends at the first clause among those left to be found; CheckSOBClause passes over blocks made to fail, and going down from one leaves the blocks. |
| IndexWalk.FirstClref | xsb/emu/biassert.c:1852-1875 | Skips blocks made to fail at the start; from the cursor returned exactly all answers remain, unless the walk has left the blocks. |
| IndexWalk.NextClref | xsb/emu/biassert.c:1877-1936 | Moves past exactly one answer, or out of the blocks; in the all-chains it goes down without regard to blocks made to fail. |
| IndexWalk.FindAll | xsb/emu/biassert.c:1852-1936 | Enumerating with first_clref and next_clref leaves the blocks exactly if a block made to fail is in the way of this goal, and otherwise yields exactly the answers, each once, in order; all of them that are bound at the index in use have keys congruent to the goal's. |
| IndexWalk.AllPassIffTidy | xsb/emu/biassert.c:1820-1834 | The enumeration gets through for all goals if and only if no block made to fail is the last of its chain, nor the first of a chain below another block in use. |
| IndexWalk.ChangesPass | xsb/emu/biassert.c:1740-1936 | After any run of asserta, assertz and retract, with no choice point in the way, it gets through for every goal. |
| IndexWalk.FailedLast | xsb/emu/biassert.c:2852-2859 | With the program p(X). p(1). indexed on its argument, retracting p(1) under a choice point at its block leaves blocks on which no lookup gets through, though p(X) is the program. |
| IndexWalk.FindAfterFailure | xsb/emu/biassert.c:1826-1828 | The search for p(2), run on these blocks, leaves them. |
| CodeQueue.Queue.Push | xsb/emu/biassert.c:521-530 | Adds at the top of the ring; fails exactly if 255 entries are in it. |
| CodeQueue.Queue.Pop | xsb/emu/biassert.c:532-540 | Takes the top entry, across the end of the ring. |
| CodeQueue.Queue.Rem | xsb/emu/biassert.c:542-549 | Takes the bottom entry, across the end of the ring. |
| CodeQueue.Queue.Add | xsb/emu/biassert.c:551-562 | Adds at the bottom and counts; fails exactly if 255 entries are in the ring. |
| CodeQueue.Queue.Rotate | xsb/emu/biassert.c:564-571 | Moves the entries added last from the bottom to the top. |
| CodeQueue.Registers.Get | xsb/emu/biassert.c:602-618 | Takes a register that is not in use; fails exactly if 256 of the 257 are in use, as the table always keeps one in reserve. |
| CodeQueue.Registers.Release | xsb/emu/biassert.c:620-627 | Gives back exactly a register taken for an intermediate value. |
| CodeQueue.Registers.ReleasePerm | xsb/emu/biassert.c:629-635 | Gives back exactly a register taken for a variable. |
| Moves.TargetIsNotSource | xsb/emu/biassert.c:1015-1024 | Right while the ring has not wrapped round, and always TRUE when it has. |
| Moves.SourceIsNotTarget | xsb/emu/biassert.c:1026-1034 | Right while the ring has not wrapped round, and always TRUE when it has. |
| Moves.NextSane | xsb/emu/biassert.c:1050-1087 | Every turn finishes a move or puts off one that has not been put off before, so the loop ends; registers handed out hold nothing still needed. |
| Moves.NextOnTheWay | xsb/emu/biassert.c:1050-1087 | As long as the scans see the queue, every turn keeps each value wanted on its way. |
| Moves.NextBalanced | xsb/emu/biassert.c:1050-1087 | Every turn keeps the balance of registers: beside those in use at the start exactly the sources saved for queued moves are in use, each for one move. |
| Moves.GenMvs | xsb/emu/biassert.c:1045-1088 | For any queue of distinct targets whose sources are in use, with any overlap and cycles, the loop ends with the result of its step function or fails for want of a register as that does; at the end exactly the registers in use before are in use. |
| MoveRuns.RightIffShort | xsb/emu/biassert.c:1015-1088 | The code generated for all queues of `n` moves carries them out simultaneously if and only if `n` is at most 123. |
| MoveRuns.LongGoesWrong | xsb/emu/biassert.c:1019 | For every larger number a queue for which a register gets the wrong value. |
| TermCode.HoldsFill | xsb/emu/emudef.h:250-304 | Binding the free cell of a queued structure completes every term that was waiting for it and disturbs no other. |
| Builder.Variables.Occur | xsb/emu/biassert.c:643-671 | Which occurrence of a variable it is; the first of several takes a register, exactly the last gives it back; fails exactly if one is needed and none is left. |
| Builder.GenInst | xsb/emu/biassert.c:878-957 | The next cell holds the argument as it is stored, or a free cell queued for it; all else still holds; exactly the structures not stored in the short form are queued; succeeds if there is room for what is still to be built. |
| Builder.FreshStartable | xsb/emu/biassert.c:720-781 | Terms can be compiled one after the other whenever none of their variables has a register yet and their occurrences have been counted. |
| Builder.GenTerms | xsb/emu/biassert.c:820-876 | The code emitted builds in its register the term with its integers in lists as the short form stores them, and this is the term itself if and only if these integers fit: structures complete, arguments contiguous, equal variables shared and different ones apart, registers in use kept; its structures are built each before its own, from left to right; the terms that follow can be built next, and nothing stays in use but what was in use for something else and the registers of variables still to occur; it succeeds if registers in use and nodes of the term are at most 257 together and the nodes at most 256. |
| BuiltTerms.MadeIff | xsb/emu/biassert.c:943-951 | What is built for a term is the term itself if and only if every integer that starts a list which is a last argument, and is between 0 and 65535 modulo 2^32, is between 0 and 65535. |
| Builder.RightIffFits | xsb/emu/biassert.c:943-951 | So with the code generated for a term its register holds that term if and only if its integers fit in this sense. |
| BuiltTerms.WrongElement | xsb/emu/biassert.c:944 | For the list of 1 and 4294967301 the list of 1 and 5 is built. |
| BuiltTerms.HoldsOne | xsb/emu/biassert.c:878-957 | A cell holds at most one term, once nothing is missing. |
| Trail.Engine.PushTrail0 | xsb/emu/binding.h:72-92 | Puts a frame above both the youngest frame and the frozen part, linked to the youngest. |
| Trail.Engine.PushPreImageTrail0 | xsb/emu/binding.h:95-117 | The same, with the cell's old value. |
| Trail.Engine.Bind | xsb/emu/binding.h:119-130 | Binding a free cell trails it exactly if it is older than the choice point, or frozen, so that undoing gives every old cell the value it would have had before. |
| Trail.Engine.BindAttv | xsb/emu/binding.h:119-130 | Likewise for a new value of an attributed variable, whose old value comes back. |
| Trail.Engine.Untrail2 | xsb/emu/binding.h:223-229 | Frees the cell, or gives it its old value. |
| Trail.Engine.UndoBindings | xsb/emu/sw_envs.h:97-102 | Undoes exactly the frames younger than the limit, the youngest first, across the gaps of the frozen part. |
| Trail.Engine.UnwindTrail | xsb/emu/cut_xsb.h:178-193 | Of the frames younger than the limit and the frozen part exactly those for cells older than the choice point or frozen stay, in order, in place; older frames are untouched; undoing the bindings back to any choice point as old as the one cut leads to the same frame and gives all these cells the values they would have had without tidying. |
| Trail.CutInvisible | xsb/emu/cut_xsb.h:178-193 | Backtracking after the cut to any choice point as old as the one cut leads to the same frame and gives every heap cell below hreg, and every stack cell above ebreg, of the choice point and of the frozen part the value it would have had without tidying. |
| Trail.BacktrackingRestores | xsb/emu/binding.h:119-130 | Over any run of bindings, cuts and backtracking to younger choice points, under whatever bounds these set, every cell that existed when a choice point was made has, after backtracking to it, the value it had then, or is free again. |
| ExcessVars.Collector.MakeGround | xsb/emu/builtin.c:928-958 | Binds exactly the variables of the term, and trails those not bound before, each once. |
| ExcessVars.Collector.Excess | xsb/emu/builtin.c:960-1012 | The unbound variables of the goal outside the scope of ^, setof and bagof are listed and trailed in the order of first occurrence, and the scope's own bindings are undone. |
| ExcessVars.ExcessVars | xsb/emu/builtin.c:2455-2494 | The given variables, then, in order of first occurrence and without repetition, the variables that occur free in the goal and are neither given nor in the template; all variables are free again at the end; when it warns, and when the trail grows beyond 32768. |
| ExcessVars.UnscopedIffFree | xsb/emu/builtin.c:978-994 | What is listed is free occurrence: in ^ not in the variable part, in setof and bagof not in the template, and anywhere in other terms. |
| ExcessVars.ExcessFacts | xsb/emu/builtin.c:960-1012 | These have no repetitions and are exactly the free variables. |
| ExcessVars.BoundIsScoped | xsb/emu/builtin.c:978-994 | Binding the quantified variables while the goal is searched is the same as leaving out the occurrences in their scope. |
| ExcessVars.WarnedIffGround | xsb/emu/builtin.c:2464-2465 | For a given template every overflow of the trail is announced, whatever the goal and the given variables, if and only if the template has no variables. |
| ExcessVars.OverflowUnnoticed | xsb/emu/builtin.c:2464-2465 | For every template with a variable a goal that is a list of 32768 other variables overflows the trail without a warning. |
| Suspensions.FilterChain | xsb/emu/complete_local.h:262-278 | Takes exactly the suspensions with completed roots out of a subgoal's chain, in place. |
| Suspensions.ResumeCsfs | xsb/emu/complete_local.h:192-210 | Splices a chain to the end of those resumed so far, ends it at the current choice point, and gives all its suspensions the current stack tops. |
| Suspensions.ProcessSuspensionFrames | xsb/emu/complete_local.h:230-288 | The chain returned holds, from the leader to the youngest subgoal, in order and without loss, the suspensions of all subgoals not completed early whose roots are not completed; the subgoals' own chains are empty. |
| Boxing.OverflowIff | xsb/emu/cell_xsb.h:360-361 | The tagged form of an integer changes its value exactly if it does not fit into three bits less than a word, on both word sizes. |
| Boxing.Heap.BldOint | xsb/emu/cell_xsb.h:372-375 | Every machine integer is read back by oint_val as it was built; it is boxed exactly if the tagged form cannot hold it. |
| Boxing.Heap.BldBoxedInt | xsb/emu/cell_xsb.h:363-369 | Every machine integer survives the split into two parts of a box. |
| Boxing.ExtractSplit | xsb/emu/cell_xsb.h:298-309 | Splitting a float into 16, 24 and 24 bits, with the box identifier above them, and joining the parts gives back every bit, on both word sizes. |
| Boxing.Heap.BldBoxedFloat | xsb/emu/emuloop.c:328-339 | Every float is read back from its box bit for bit. |

## Findings

Where the code does not do what it is meant to do, the model keeps the code, and the project states the input and the
exact condition.

- Components of calls without dependents (`xsb/emu/call_graph_xsb.c:1350-1351`): such a call is numbered but stays on
  the stack, and is numbered again with the next component popped below it.  Input: the list of two calls `[1, 2]` with
  one edge from 1 to 2 (`Scc.OneEdge`).  Condition: the components are right exactly if no call without dependents is
  reachable from one listed before it (`Scc.SccSearch.Number`).
- Waits left over (`xsb/emu/bineg_xsb_i.h:147-154`, `xsb/emu/deadlock.c:123-139`): a thread that becomes the leader in a
  later turn of its loop leaves its own waiting_for_tid set, and detached threads may go on before they are redirected,
  since the mutex is released in between.  Input: the runs of `WaitRuns.StaleRun` and `WaitRuns.AwakeRun`, after which
  would_deadlock can walk for ever (`WaitFor.ReturnsIffOnCycle`).  Condition: acyclic in all runs exactly without either
  (`WaitRuns.AcyclicIffStrict`); a single redirection keeps the graph acyclic exactly if the leader does not lead to the
  thread redirected (`WaitFor.ThreadTable.Redirect`).
- Lost answers (`xsb/emu/complete_xsb_i.h:67`): the answer epoch of a thread is raised only when it finds unread answers.
  A thread that has waited, leaves the protocol on any other way and then adds answers does so in an epoch that others
  have already recorded.  Input: one run for each way out (`LostAnswers.LosingRun`).  Condition: all answers are read
  exactly if no thread adds answers in an epoch in which it has waited (`LostAnswers.CompleteIffRestrained`).
- Ring of moves (`xsb/emu/biassert.c:1019`, `xsb/emu/biassert.c:1030`): the scans run from bottom to top without regard to
  the ring.  Input: for any number of moves above 123 the queue of `MoveRuns.LongGoesWrong`.  Condition: right for all
  queues of `n` moves exactly if `n` is at most 123 (`MoveRuns.RightIffShort`).
- Affected list not fetched (`xsb/emu/call_graph_xsb.c:537`, `xsb/emu/call_graph_xsb.c:577-580`): a changed fact stays
  marked until the list is fetched, and further changes of it are passed over.  Input: `StaleTables.UnfetchedRun`.
  Condition: a call stays up to date exactly if no fact it has used is still marked when it finishes
  (`StaleTables.FinishedIff`, `StaleTables.CreatedIff`).
- Abolished users of a fact (`xsb/emu/call_graph_xsb.c:1139-1142`): facts marked by an abolition are neither deleted nor
  unmarked.  Input: `StaleTables.AbolishedRun`.  The mark never goes again (`StaleTables.StuckForGood`), so the same
  condition fails for every later user (`StaleTables.LostFact`).
- Width of falsecount (`xsb/emu/tries.h:651`): 14 bits.  Input: a fact that changes 16384 times, each time fetched,
  leaves its dependent with a counter of zero.  Condition: up to date exactly if fewer than 16384 invalidations are
  outstanding for each call (`StaleTables.CurrentIffCounted`).
- Width of outcount (`xsb/emu/tries.h:651`): 15 bits.  Input: a call with 32768 dependents, which is deleted under them
  (`Abolish.StarGoes`).  Condition: an abolition that succeeds is right exactly if every supporter with dependents
  outside, facts excepted, is or leads to one whose number of such dependents is no multiple of 32768
  (`Abolish.RightIff`); in all graphs, exactly if calls have fewer than 32768 dependents (`Abolish.RightIffFew`).
- Local trail of EXCESS_VARS (`xsb/emu/builtin.c:2464-2465`): the template's variables are put on the trail but not
  counted.  Input: any template with a variable and, as the goal, a list of 32768 other variables
  (`ExcessVars.OverflowUnnoticed`).  Condition: every overflow is announced exactly if the template has no variables
  (`ExcessVars.WarnedIffGround`).
- Integers in lists (`xsb/emu/biassert.c:944`): a list that is the last argument of a structure, or the rest of a list,
  in the body of a clause gets a short form if it starts with an integer that, converted to an `int`, is between 0 and
  65535; the converted value is stored.  Input, with words of 64 bits: the list of 1 and 4294967301, built as the list
  of 1 and 5 (`BuiltTerms.WrongElement`).  Condition: what is built is the term exactly if no such integer lies outside
  of 0 to 65535 (`Builder.GenTerms`, `BuiltTerms.MadeIff`).
- Index blocks made to fail (`xsb/emu/biassert.c:1826-1828`, `xsb/emu/biassert.c:1843`, `xsb/emu/biassert.c:1917-1920`):
  a block that has lost its last clause while a choice point was in its way stays in its chain.  The walk of a lookup
  follows a chain past its end if such a block is last, and goes down from such a block if it is the first below another.
  Input: the program `p(X). p(1).` indexed on its argument, `p(1)` retracted under a choice point at its block
  (`IndexWalk.FailedLast`, `IndexWalk.FindAfterFailure`); in general the only clause of the last block
  (`IndexHeap.StuckFails`).  Condition: all lookups get through exactly if no block made to fail is last in its chain, nor
  first in a chain below another (`IndexWalk.AllPassIffTidy`); for one goal, `IndexWalk.Passes`.

## Left out

- WaitRuns.AcyclicIffStrict: resetting one thread is a single step, though its parts run without the mutex; tmp_next is
  a list held by the leader, so that two leaders cannot overwrite each other's; and where the leader of a stack segment
  lies, which decides how much is taken over, is left open.
- Completion.Engine.CheckComplete: scheduling of consumers inside an SCC and of suspensions is a parameter; adjust_level,
  reclaiming stacks and what batched_compute_wfs computes are not modelled.
- Moves.GenMvs: queues with the same target twice are not considered; the assert compiler never makes one.
- Completion.Engine.FindFixpoint: which consumers inside an SCC have unread answers is a parameter.
- Builder.GenInst: build mode without attributed variables, as for the following.
- Builder.GenTerms: one term in build mode; unify mode, attributed variables and boxed subterms are left out, and the
  bound under which it succeeds counts every node of the term, though registers are used again.
- BuiltTerms.MadeIff: the conversion to an `int` is taken modulo 2^32, as compilers do it; the C standard leaves it to
  them.
- Reclaim.RetractClause: a clause with at least one index; what is not deleted goes to a list for later collection, which
  is not modelled, nor are the tests on the number of threads and the size of the stack that precede the attempt.
- Chains.EndKnown: chains that mix clauses with index blocks, as after a change of the index list, are well linked and
  change as the others do, but no test for their end is stated.
- IndexHeap.RetractIndexed: starts from chains that hold the blocks in order; that the emulator's assert builds such
  chains is proved on sequences (Index.InsertRight) and on single chains (Chains, Reclaim.AddEntry), not in one step.
- IndexWalk.FindAll: where the walk has left the blocks nothing more is said of it.  The opcode and the index of a block
  made to fail lie just behind the four words that are kept of it (`xsb/emu/biassert.c:2859`); they are taken to stay as
  they are.  Unindexed clauses, changes of the index list in between and clauses mixed with compiled ones are left out.
- IndexWalk.ChangesPass: assert after a block has been made to fail, which may still put clauses into it, is left out.
- Index.InsertRight: how a key is read from a term, and overflow of the sum of hash values, are not modelled: a key is a
  sequence of numbers.
- ExcessVars.ExcessVars: what happens after an overflow of the trail; expansion of the heap; unification with the fourth
  argument.
- Trail.Engine.PushTrail0: expansion of the trail when it is full; the model asks for room.
- Trail.Engine.PushPreImageTrail0: the same.
- Boxing.Heap.BldBoxedFloat: floats are bit patterns; the variant with floats in cells is left out.
- WaitFor.ThreadTable.ResetOtherThreads: both loops without another thread in between; the release of the mutex between
  them is in WaitRuns.
- InvalidationRuns.RemoveKeeps: abolition while nothing is invalid.
- Suspensions.ProcessSuspensionFrames: a suspension whose csf_ptcp is NULL, on which the loop would not end; every
  suspension of the model has a root.
- Real scheduling of threads, wake-ups, fairness and liveness, and what a thread does after an abort.
- Invalidation while calls are being re-evaluated, choice points into tables that are to be updated, and the lazy lists of
  dfs_inedges.
- The old and the new node of a re-evaluated call are one node.
- Hashing of edge tables: a table is a sequence without repetitions, walked in that order.
- Tries, trie-based assert, private dispatch blocks, profiling segments, switch_envs, mark_delayed, attributed variables
  outside the term compiler, printing, I/O and foreign calls: they would add easy members or rest on files that are not
  part of this model.
