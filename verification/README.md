# Verification of the path search and of the allocator fragment

This project models the two bodies of code in the repository and proves what they do.

**Path search and test data (Java).** `MGraph` holds a scenario graph as parallel adjacency lists whose edges
carry unique numbers and repeat budgets. The `MPathAlgo*` classes walk it depth first, changing
budgets and three path stacks in place, and then filter the reports. `Graph`, `PathAlgo`,
`PathCovAll`, `PathCovLong`, `PathCovShortN2N`, `PathCovLongN2N` and `PathCovLeast` are these
classes; `Walks` says independently of any search what a complete walk is and proves that the
exhaustive search reports exactly those, each once. `Ranking` and `BestWalks` do the same for the
best-length searches from one start state, `RepeatedReports` says what they report for several, and
`PathCovLeast` proves the cover and its harmonic bound. `DataDiscards` is the generator of value
combinations, `MDataAlgoDiscards`. `Collections` has what both parts use.

**Allocator (C++).** Six components:

- the address map (`Lists`, `AddressMemory`, `AddressSearch`, `AddressFold`, `AddressMap`): hash
  chains of clusters, block lists and a free list in memory, refining a plain map; the search for
  the range that holds an address;
- the heap profile (`Sums`, `ProfileBooks`, `HeapProfile`): buckets, statistics and snapshots on
  top of it;
- the leak checker (`LeakMarking`, `HeapLeakChecker`, `LeakRegions`): reachability through memory
  words, and the interval arithmetic that decides which memory counts as roots;
- the free queue of the debugging allocator (`FreeQueue`, `FreeQueueThreads`): a ring with byte
  accounting, drained by many threads;
- size classes (`Multiples`, `SizeMap`, `SizeTable`, `SizeCount`, `SizeClasses`);
- the central free lists, with the functions of `CentralLists` used twice: as a system of threads
  whose steps are the code between lock operations (`CentralThreads`, `CentralInvariant`,
  `CentralSpans`, `CentralRuns`, `CentralProperties`, `CentralDelivery`, `CentralRefusals`), and as a
  class on memory words, span descriptors and the page map for what runs under one lock
  (`CentralChains`, `CentralReturns`, `CentralStores`, `CentralSupply`, `CentralClients`,
  `CentralFreeList`).

Code that changes state in the source is a class with methods here, each proved against a function
of the old state; the properties are then lemmas about those functions, or invariants over runs.

Main results: `Graph.MGraph.Build`, `Walks.AllPathsExact`, `PathCovAll.ReportedExact`, `BestWalks.ShortestExact`,
`BestWalks.ShortReportsIffSimple`, `BestWalks.LongestExact`, `RepeatedReports.OnceEach` with
`RepeatedReports.ShortNoRepeats` and `RepeatedReports.LongNoRepeats`,
`PathCovLong.MPathAlgoCovLong.GenPath`, `DataDiscards.RowOfChoice` with
`DataDiscards.MDataAlgoDiscards.GenData`, `PathCovLeast.GetCoverSet` with
`PathCovLeast.GreedyBound`, `AddressMaps.AddressMap.Run`, `AddressMaps.AddressMap.FindInside` with
`AddressSearch.CloseReached`, `ProfileBooks.RunBalance` and `ProfileBooks.RunCounts` with
`HeapProfiles.HeapProfileTable.Perform`, `HeapProfiles.HeapProfileTable.NonLiveSnapshot`,
`HeapLeakCheckers.HeapLeakChecker.IgnoreLiveObjectsLocked`,
`HeapLeakCheckers.HeapLeakChecker.LeakCheck` with `HeapLeakCheckers.AllocThenCheck`,
`LeakMarking.Heap.Unreached`, `LeakRegions.LiveRegions.SubtractRegions`,
`LeakRegions.LiveRegions.RegisterStackLocked`, `FreeQueueThreads.RunKeeps`,
`FreeQueueThreads.FreedOnce`, `SizeTables.BuildClasses`, `SizeTables.TableUnique`,
`SizeTables.Fill`, `SizeCounts.ClassCount` with `SizeClasses.SizeMap.Init`,
`CentralRuns.NextKeeps`, `CentralProperties.EachObjectOnce`, `CentralProperties.SlotsBounded`,
`CentralProperties.OneLock`, `CentralDelivery.InsertionDelivers`,
`CentralDelivery.HandedOutStays`, `CentralRefusals.EmptyRemovalRefused`,
`CentralReturns.ReleaseAllIs`, `CentralFreeLists.CentralFreeList.RemoveRange` and
`CentralFreeLists.CentralFreeList.InsertRange`.

Six statements that one might expect turned out not to hold of the code; each is given with its
exact condition, and with an input that shows it fails:

- Without stop states the short state-to-state search loses a shortest walk exactly when that walk
  enters a state twice (`BestWalks.ShortReportsIffSimple`, example `BestWalks.ShortLosesLoopWalk`).
- The state-to-state searches never clear their temporary lists, so with several start states a
  result comes again until a later start state has a better walk to the same end: no report occurs
  twice exactly if every best walk from each start state has a better complete walk from the next
  one to the same end state (`RepeatedReports.ShortNoRepeats`,
  `RepeatedReports.ShortSimpleNoRepeats`, `RepeatedReports.LongNoRepeats`, example
  `RepeatedReports.ForkRepeats`).
- The generator of value combinations never empties the row it builds up, so names of an earlier
  call show in all later rows unless they are among the names asked for
  (`DataDiscards.StaleNames`, example `DataDiscards.TwoCalls`).
- The deletion pass of the longest-path algorithm deletes everything when neither through states
  nor through steps are given (`PathCovLong.NothingKept`, example `PathCovLong.LoneStateLost`).
- Recording an allocation at an address that is still recorded unbalances its old bucket for good
  (`ProfileBooks.RunBalance`, `HeapProfiles.HeapProfileTable.Perform`, example
  `HeapProfiles.AllocTwice`).
- The header of the profile table promises that snapshots of non-live objects leave out ignored
  ones; the code never looks at that bit (`HeapProfiles.HeapProfileTable.NonLiveSnapshot`, example
  `HeapProfiles.SnapshotOfIgnored`). The leak checker makes ignored objects live first, so the
  snapshots it takes itself meet the promise (`HeapLeakCheckers.HeapLeakChecker.LeakCheck`).

## Model

| member | source | states |
|---|---|---|
| Graph.MGraph.constructor | MBT_JavaRefactoring_Proj/src/ARH/framework/graph/MGraph.java:57-74 | an empty graph: no node, the first edge number is 1, all lists well formed |
| Graph.MGraph.AddNode | MBT_JavaRefactoring_Proj/src/ARH/framework/graph/MGraph.java:76-90 | a known name keeps its number; a new name gets the next number and an empty row in every parallel list, nothing else changes |
| Graph.MGraph.AppendSlot | MBT_JavaRefactoring_Proj/src/ARH/framework/graph/MGraph.java:107-117 | the row of the begin node is its old row with one slot at its end, in every parallel list; the slot has the next edge number, which no slot had before, and every other row is as it was |
| Graph.MGraph.AddEndPoints | MBT_JavaRefactoring_Proj/src/ARH/framework/graph/MGraph.java:103-106 | the begin node is numbered first, then the end node, each only if unknown; new nodes have empty rows |
| Graph.MGraph.AddEdge | MBT_JavaRefactoring_Proj/src/ARH/framework/graph/MGraph.java:100-118 | after trimming both names and adding missing nodes: every row of all five lists is its old row, except that the begin node's has one slot more at its end, with the end node, the next edge number, the step, and a budget of at least 1; known nodes keep their numbers, and exactly the two names are added |
| Graph.MGraph.Build | MBT_JavaRefactoring_Proj/src/ARH/framework/graph/MGraph.java:57-118 | over any list of calls on a new graph: the nodes are those named, there is exactly one slot for each call, numbered in call order and standing in call order in its row, and it carries what the call gave |
| Graph.MGraph.AddCall | MBT_JavaRefactoring_Proj/src/ARH/framework/graph/MGraph.java:100-118 | one more call keeps this, for the calls so far and the new one |
| Graph.OneMoreCall | MBT_JavaRefactoring_Proj/src/ARH/framework/graph/MGraph.java:100-118 | a row with one slot more keeps one slot per call, in call order |
| Graph.TrimIs | MBT_JavaRefactoring_Proj/src/ARH/framework/graph/MGraph.java:103-104 | what trimming leaves: the longest part of the text with no blank at either end |
| Graph.MGraph.GetNodeNum | MBT_JavaRefactoring_Proj/src/ARH/framework/graph/MGraph.java:151-158 | the number of a known name, -1 for an unknown one |
| Graph.SlotAppended | MBT_JavaRefactoring_Proj/src/ARH/framework/graph/MGraph.java:107-117 | appending a slot keeps the lists parallel, targets known, budgets positive and edge numbers unique |
| Graph.NodeAppended | MBT_JavaRefactoring_Proj/src/ARH/framework/graph/MGraph.java:76-90 | appending an empty row keeps them so |
| Walks.AllPathsExact | MBT_JavaRefactoring_Proj/src/ARH/common/path/MPathAlgoCovAll.java:71-124 | the exhaustive search reports a path if and only if it is the trace of a walk from the start that keeps the repeat budgets and either first meets the stop set at its end or, with no stop set, cannot be extended; no two reports have the same edges |
| Walks.VisitSound | MBT_JavaRefactoring_Proj/src/ARH/common/path/MPathAlgoCovAll.java:71-124 | from any path and any remaining budgets, everything visited is a complete walk |
| Walks.VisitCovers | MBT_JavaRefactoring_Proj/src/ARH/common/path/MPathAlgoCovAll.java:71-124 | from any path and any remaining budgets, every complete walk (that the pruning does not skip) is visited |
| Walks.VisitDistinct | MBT_JavaRefactoring_Proj/src/ARH/common/path/MPathAlgoCovAll.java:71-124 | no two visited paths have the same edge sequence, and all continue the current one |
| Walks.EdgesDetermineWalk | MBT_JavaRefactoring_Proj/src/ARH/framework/graph/MGraph.java:100-118 | because edge numbers are unique, two walks from a node with the same reported edges are the same walk |
| Walks.TotalSpend | MBT_JavaRefactoring_Proj/src/ARH/common/path/MPathAlgoCovAll.java:98-99 | using an edge lowers the sum of remaining budgets by one: the measure by which every search ends |
| Walks.SpendRestore | MBT_JavaRefactoring_Proj/src/ARH/common/path/MPathAlgoCovAll.java:98-114 | writing the old budget back restores the budgets exactly |
| PathAlgo.MPathAlgo.constructor | MBT_JavaRefactoring_Proj/src/ARH/common/path/MPathAlgo.java:61-72 | a search object with no paths and empty state sets |
| PathAlgo.MPathAlgo.Init | MBT_JavaRefactoring_Proj/src/ARH/common/path/MPathAlgo.java:77-98 | clears result and stacks and resolves the names of start, stop and through states and of through steps; unknown names are dropped (the route list is left out) |
| PathAlgo.MPathAlgo.ClearPaths | MBT_JavaRefactoring_Proj/src/ARH/common/path/MPathAlgo.java:84-91 | result and path stacks are empty |
| PathAlgo.MPathAlgo.AddPath | MBT_JavaRefactoring_Proj/src/ARH/common/path/MPathAlgo.java:103-108 | appends the current path, all three lists at once, to the end of the result |
| PathAlgo.MPathAlgo.NumSet | MBT_JavaRefactoring_Proj/src/ARH/common/path/MPathAlgo.java:124-141 | exactly the numbers of the known names; the same loop serves stop and through states |
| PathAlgo.MPathAlgo.GenStartStateNumSet | MBT_JavaRefactoring_Proj/src/ARH/common/path/MPathAlgo.java:147-189 | the named start states, or exactly the nodes without incoming edges when no name is given |
| PathAlgo.MPathAlgo.Sources | MBT_JavaRefactoring_Proj/src/ARH/common/path/MPathAlgo.java:164-187 | striking out every target leaves exactly the nodes no edge enters |
| PathAlgo.MPathAlgo.GenThroughStepNumSet | MBT_JavaRefactoring_Proj/src/ARH/common/path/MPathAlgo.java:218-236 | exactly the numbers of the known step names |
| PathAlgo.MPathAlgo.ContainsAny | MBT_JavaRefactoring_Proj/src/ARH/common/path/MPathAlgo.java:303-311 | whether a path meets the set |
| PathAlgo.MPathAlgo.DelPathWithoutThroughState | MBT_JavaRefactoring_Proj/src/ARH/common/path/MPathAlgo.java:290-319 | the result keeps, in order, exactly the paths that meet a through state (all when none is given) |
| PathAlgo.MPathAlgo.DelPathWithoutThroughStep | MBT_JavaRefactoring_Proj/src/ARH/common/path/MPathAlgo.java:324-353 | the result keeps, in order, exactly the paths that take a through step (all when none is given) |
| PathAlgo.MPathAlgo.Push | MBT_JavaRefactoring_Proj/src/ARH/common/path/MPathAlgoCovAll.java:102-104 | the three path stacks grow by the slot taken |
| PathAlgo.MPathAlgo.Pop | MBT_JavaRefactoring_Proj/src/ARH/common/path/MPathAlgoCovAll.java:109-111 | the tops of the three path stacks are removed |
| PathAlgo.MPathAlgo.RemoveRow | MBT_JavaRefactoring_Proj/src/ARH/common/path/MPathAlgo.java:314-316 | one report leaves all three parallel lists together |
| PathAlgo.KeepMember | MBT_JavaRefactoring_Proj/src/ARH/common/path/MPathAlgo.java:290-319 | a filter keeps a path exactly if it was there and passes |
| PathCovAll.MPathAlgoCovAll.Dfs | MBT_JavaRefactoring_Proj/src/ARH/common/path/MPathAlgoCovAll.java:71-124 | the in-place search appends exactly the visited paths, in order, and gives budgets and path stacks back unchanged |
| PathCovAll.MPathAlgoCovAll.Explore | MBT_JavaRefactoring_Proj/src/ARH/common/path/MPathAlgoCovAll.java:88-118 | the same for the loop over the slots; the flag says whether any slot had budget left |
| PathCovAll.MPathAlgoCovAll.Descend | MBT_JavaRefactoring_Proj/src/ARH/common/path/MPathAlgoCovAll.java:98-116 | the same for taking one slot and putting it back |
| PathCovAll.MPathAlgoCovAll.SearchFromAll | MBT_JavaRefactoring_Proj/src/ARH/common/path/MPathAlgoCovAll.java:53-58 | one search per start state, each start once, budgets restored |
| PathCovAll.MPathAlgoCovAll.GenPath | MBT_JavaRefactoring_Proj/src/ARH/common/path/MPathAlgoCovAll.java:45-64 | resolved names, then the reports of all start states, then both through filters; the graph is unchanged |
| PathCovAll.AllFromExact | MBT_JavaRefactoring_Proj/src/ARH/common/path/MPathAlgoCovAll.java:53-58 | over any start states: a path is reported if and only if some start state has it as a complete walk, and once |
| PathCovAll.FilteredMember | MBT_JavaRefactoring_Proj/src/ARH/common/path/MPathAlgo.java:290-353 | what both filters keep: exactly the paths that pass them; no path becomes twice |
| PathCovAll.ReportedExact | MBT_JavaRefactoring_Proj/src/ARH/common/path/MPathAlgoCovAll.java:45-64 | the whole call: reported are exactly the complete walks of the start states that pass both through filters, each once |
| PathCovLong.KeptLongest | MBT_JavaRefactoring_Proj/src/ARH/common/path/MPathAlgoCovLong.java:48-108 | the deletion pass keeps exactly the reports that are longest among those through some through state or taking some through step |
| PathCovLong.NothingKept | MBT_JavaRefactoring_Proj/src/ARH/common/path/MPathAlgoCovLong.java:48-108 | after the pass nothing is reported exactly if nothing passed the filters, or if neither through states nor through steps are given |
| PathCovLong.LoneStateLost | MBT_JavaRefactoring_Proj/src/ARH/common/path/MPathAlgoCovLong.java:46-109 | a concrete graph: its only report is lost when no through state and no through step is given |
| PathCovLong.MPathAlgoCovLong.SearchFromAll | MBT_JavaRefactoring_Proj/src/ARH/common/path/MPathAlgoCovLong.java:134-139 | one search per start state from an unset position list: the reports of the exhaustive search from all start states |
| PathCovLong.MPathAlgoCovLong.SearchFrom | MBT_JavaRefactoring_Proj/src/ARH/common/path/MPathAlgoCovLong.java:136-138 | the same for one start state |
| PathCovLong.MPathAlgoCovLong.LongestWith | MBT_JavaRefactoring_Proj/src/ARH/common/path/MPathAlgoCovLong.java:57-72 | the positions of the longest lists that contain a given state or step |
| PathCovLong.MPathAlgoCovLong.PickLongest | MBT_JavaRefactoring_Proj/src/ARH/common/path/MPathAlgoCovLong.java:53-75 | the same for all through states, or all through steps |
| PathCovLong.MPathAlgoCovLong.DeleteShortPath | MBT_JavaRefactoring_Proj/src/ARH/common/path/MPathAlgoCovLong.java:46-109 | the reports at these positions stay, in order, in all three lists |
| PathCovLong.MPathAlgoCovLong.GenPath | MBT_JavaRefactoring_Proj/src/ARH/common/path/MPathAlgoCovLong.java:120-147 | the exhaustive reports of all start states, both filters, then the deletion pass; positions, budgets and graph are as before |
| PathCovLong.MPathAlgoCovLong.Dfs | MBT_JavaRefactoring_Proj/src/ARH/common/path/MPathAlgoCovLong.java:154-237 | reports exactly what the exhaustive search visits, in the same order: the pruning branch is never taken; budgets, stacks and positions are restored |
| PathCovLong.MPathAlgoCovLong.Explore | MBT_JavaRefactoring_Proj/src/ARH/common/path/MPathAlgoCovLong.java:184-228 | the same for the loop over the slots: a recorded position is always below the current one |
| PathCovLong.MPathAlgoCovLong.Descend | MBT_JavaRefactoring_Proj/src/ARH/common/path/MPathAlgoCovLong.java:201-221 | the same for taking one slot and putting it back |
| Ranking.RecordLosesNothing | MBT_JavaRefactoring_Proj/src/ARH/common/path/MPathAlgoCovShortN2N.java:162-171 | whatever the order of candidates, deleting from the recorded paths leaves the same as deleting from all candidates |
| Ranking.RecordOptimal | MBT_JavaRefactoring_Proj/src/ARH/common/path/MPathAlgoCovShortN2N.java:162-171 | the table ends with the best candidate length of every end state |
| Ranking.RoundKeepsBest | MBT_JavaRefactoring_Proj/src/ARH/common/path/MPathAlgoCovShortN2N.java:69-83 | table test plus deletion pass keep exactly the best candidates per end state, in order |
| Ranking.OneRound | MBT_JavaRefactoring_Proj/src/ARH/common/path/MPathAlgoCovShortN2N.java:113-143 | on a fresh object with one start state the report is exactly the best visited paths |
| Ranking.RecordTable | MBT_JavaRefactoring_Proj/src/ARH/common/path/MPathAlgoCovShortN2N.java:162-171 | the table does not depend on paths kept from earlier rounds |
| Ranking.PruneStep | MBT_JavaRefactoring_Proj/src/ARH/common/path/MPathAlgoCovShortN2N.java:69-83 | one step of the deletion from the back |
| RepeatedReports.LeftOver | MBT_JavaRefactoring_Proj/src/ARH/common/path/MPathAlgoCovShortN2N.java:69-83 | of the paths left from earlier rounds, the deletion of a round leaves exactly those its candidates do not beat |
| RepeatedReports.NextRound | MBT_JavaRefactoring_Proj/src/ARH/common/path/MPathAlgoCovShortN2N.java:127-137 | the temporary lists are never cleared: a round reports what is left of the earlier ones, then its own best paths |
| RepeatedReports.LastRound | MBT_JavaRefactoring_Proj/src/ARH/common/path/MPathAlgoCovShortN2N.java:127-137 | a path is in the last report exactly if some start state reports it and no later one beats it |
| RepeatedReports.OnceEach | MBT_JavaRefactoring_Proj/src/ARH/common/path/MPathAlgoCovShortN2N.java:113-143 | for any list of start states: the result is the best paths of each, one after the other, if and only if each start state beats every best path of the one before |
| RepeatedReports.EachBestDistinct | MBT_JavaRefactoring_Proj/src/ARH/common/path/MPathAlgoCovShortN2N.java:113-143 | the best paths of different start states differ |
| RepeatedReports.NoRepeats | MBT_JavaRefactoring_Proj/src/ARH/common/path/MPathAlgoCovShortN2N.java:113-143 | so for any list of different start states no report occurs twice if and only if each start state beats every best path of the one before |
| RepeatedReports.ShortOvertaken | MBT_JavaRefactoring_Proj/src/ARH/common/path/MPathAlgoCovShortN2N.java:113-240 | what that means on the graph, shortest search: every shortest simple complete walk from the one has a shorter simple complete walk from the next to the same end state |
| RepeatedReports.ShorterIsSimple | MBT_JavaRefactoring_Proj/src/ARH/common/path/MPathAlgoCovShortN2N.java:113-240 | with stop states the word simple can be dropped |
| RepeatedReports.LongOvertaken | MBT_JavaRefactoring_Proj/src/ARH/common/path/MPathAlgoCovLongN2N.java:113-240 | longest search: every longest complete walk from the one has a longer complete walk from the next to the same end state |
| RepeatedReports.ShortNoRepeats | MBT_JavaRefactoring_Proj/src/ARH/common/path/MPathAlgoCovShortN2N.java:113-143 | shortest search with stop states: no report occurs twice if and only if the walks are so |
| RepeatedReports.ShortSimpleNoRepeats | MBT_JavaRefactoring_Proj/src/ARH/common/path/MPathAlgoCovShortN2N.java:113-143 | the same for any stop set, with simple walks |
| RepeatedReports.LongNoRepeats | MBT_JavaRefactoring_Proj/src/ARH/common/path/MPathAlgoCovLongN2N.java:113-143 | longest search: no report occurs twice if and only if the walks are so |
| RepeatedReports.ForkRepeats | MBT_JavaRefactoring_Proj/src/ARH/common/path/MPathAlgoCovShortN2N.java:113-143 | a concrete graph with two start states on which both searches report a walk twice |
| BestWalks.ShortestExact | MBT_JavaRefactoring_Proj/src/ARH/common/path/MPathAlgoCovShortN2N.java:113-240 | fresh object, one start, a stop set: reported exactly the shortest complete walks to their end states (up to the largest comparable length), each once |
| BestWalks.ShortSimpleExact | MBT_JavaRefactoring_Proj/src/ARH/common/path/MPathAlgoCovShortN2N.java:113-240 | the same for any stop set: exactly the complete walks that enter no state twice and are shortest among those |
| BestWalks.ShortReportsIffSimple | MBT_JavaRefactoring_Proj/src/ARH/common/path/MPathAlgoCovShortN2N.java:195-224 | for any stop set, a shortest complete walk is reported if and only if it enters no state twice |
| BestWalks.ShortestIsSimple | MBT_JavaRefactoring_Proj/src/ARH/common/path/MPathAlgoCovShortN2N.java:195-224 | with stop states, entering no state twice excludes no shortest walk |
| BestWalks.Shorten | MBT_JavaRefactoring_Proj/src/ARH/common/path/MPathAlgoCovShortN2N.java:195-224 | every complete walk to a stop state shortens to one that enters no state twice |
| BestWalks.CutCycle | MBT_JavaRefactoring_Proj/src/ARH/common/path/MPathAlgoCovShortN2N.java:195-224 | cutting the cycle between two visits of a state keeps budgets, end state and completeness |
| BestWalks.ShortLosesLoopWalk | MBT_JavaRefactoring_Proj/src/ARH/common/path/MPathAlgoCovShortN2N.java:195-224 | without stop states the pruned search can lose the only walk: a concrete graph |
| BestWalks.LongestExact | MBT_JavaRefactoring_Proj/src/ARH/common/path/MPathAlgoCovLongN2N.java:113-240 | fresh object, one start: reported exactly the longest complete walks to their end states, each once |
| PathCovShortN2N.MPathAlgoCovShortN2N.RecordCurrent | MBT_JavaRefactoring_Proj/src/ARH/common/path/MPathAlgoCovShortN2N.java:162-171 | the current path is tested against the table entry of its end state and recorded if no worse |
| PathCovShortN2N.MPathAlgoCovShortN2N.Dfs | MBT_JavaRefactoring_Proj/src/ARH/common/path/MPathAlgoCovShortN2N.java:150-240 | records every visited path and restores budgets, positions and path stacks |
| PathCovShortN2N.MPathAlgoCovShortN2N.Explore | MBT_JavaRefactoring_Proj/src/ARH/common/path/MPathAlgoCovShortN2N.java:181-225 | the same for the loop over the slots |
| PathCovShortN2N.MPathAlgoCovShortN2N.TrySlot | MBT_JavaRefactoring_Proj/src/ARH/common/path/MPathAlgoCovShortN2N.java:192-224 | one slot is searched exactly if it has budget and the test passes; the position test skips exactly the states already entered on the current path |
| PathCovShortN2N.MPathAlgoCovShortN2N.Descend | MBT_JavaRefactoring_Proj/src/ARH/common/path/MPathAlgoCovShortN2N.java:198-218 | the same for taking one slot and putting it back |
| PathCovShortN2N.MPathAlgoCovShortN2N.DeleteLongPath | MBT_JavaRefactoring_Proj/src/ARH/common/path/MPathAlgoCovShortN2N.java:69-83 | the temporary lists keep exactly the paths the table does not beat, in order |
| PathCovShortN2N.MPathAlgoCovShortN2N.DeleteIfBeaten | MBT_JavaRefactoring_Proj/src/ARH/common/path/MPathAlgoCovShortN2N.java:73-81 | a beaten path leaves all three temporary lists together |
| PathCovShortN2N.MPathAlgoCovShortN2N.AddPathToMap | MBT_JavaRefactoring_Proj/src/ARH/common/path/MPathAlgoCovShortN2N.java:88-100 | every temporary path is reported; the temporary lists stay |
| PathCovShortN2N.MPathAlgoCovShortN2N.ResetMinDistList | MBT_JavaRefactoring_Proj/src/ARH/common/path/MPathAlgoCovShortN2N.java:57-63 | every table entry is back at its initial value |
| PathCovShortN2N.MPathAlgoCovShortN2N.Round | MBT_JavaRefactoring_Proj/src/ARH/common/path/MPathAlgoCovShortN2N.java:129-136 | one start state: fresh table, search, deletion, report |
| PathCovShortN2N.MPathAlgoCovShortN2N.SearchFromAll | MBT_JavaRefactoring_Proj/src/ARH/common/path/MPathAlgoCovShortN2N.java:127-137 | one round per start state, each start once |
| PathCovShortN2N.MPathAlgoCovShortN2N.GenPath | MBT_JavaRefactoring_Proj/src/ARH/common/path/MPathAlgoCovShortN2N.java:113-143 | all rounds and both through filters; the temporary lists carry over to the next call |
| PathCovLongN2N.MPathAlgoCovLongN2N.RecordCurrent | MBT_JavaRefactoring_Proj/src/ARH/common/path/MPathAlgoCovLongN2N.java:162-171 | the current path is tested against the table entry of its end state and recorded if no worse |
| PathCovLongN2N.MPathAlgoCovLongN2N.Dfs | MBT_JavaRefactoring_Proj/src/ARH/common/path/MPathAlgoCovLongN2N.java:150-240 | records every visited path and restores budgets, positions and path stacks |
| PathCovLongN2N.MPathAlgoCovLongN2N.Explore | MBT_JavaRefactoring_Proj/src/ARH/common/path/MPathAlgoCovLongN2N.java:181-225 | the same for the loop over the slots |
| PathCovLongN2N.MPathAlgoCovLongN2N.TrySlot | MBT_JavaRefactoring_Proj/src/ARH/common/path/MPathAlgoCovLongN2N.java:192-224 | one slot is searched exactly if it has budget and the test passes; the position test never skips |
| PathCovLongN2N.MPathAlgoCovLongN2N.Descend | MBT_JavaRefactoring_Proj/src/ARH/common/path/MPathAlgoCovLongN2N.java:198-218 | the same for taking one slot and putting it back |
| PathCovLongN2N.MPathAlgoCovLongN2N.DeleteShortPath | MBT_JavaRefactoring_Proj/src/ARH/common/path/MPathAlgoCovLongN2N.java:69-83 | the temporary lists keep exactly the paths the table does not beat, in order |
| PathCovLongN2N.MPathAlgoCovLongN2N.DeleteIfBeaten | MBT_JavaRefactoring_Proj/src/ARH/common/path/MPathAlgoCovLongN2N.java:73-81 | a beaten path leaves all three temporary lists together |
| PathCovLongN2N.MPathAlgoCovLongN2N.AddPathToMap | MBT_JavaRefactoring_Proj/src/ARH/common/path/MPathAlgoCovLongN2N.java:88-100 | every temporary path is reported; the temporary lists stay |
| PathCovLongN2N.MPathAlgoCovLongN2N.ResetMaxDistList | MBT_JavaRefactoring_Proj/src/ARH/common/path/MPathAlgoCovLongN2N.java:57-63 | every table entry is back at its initial value |
| PathCovLongN2N.MPathAlgoCovLongN2N.Round | MBT_JavaRefactoring_Proj/src/ARH/common/path/MPathAlgoCovLongN2N.java:129-136 | one start state: fresh table, search, deletion, report |
| PathCovLongN2N.MPathAlgoCovLongN2N.SearchFromAll | MBT_JavaRefactoring_Proj/src/ARH/common/path/MPathAlgoCovLongN2N.java:127-137 | one round per start state, each start once |
| PathCovLongN2N.MPathAlgoCovLongN2N.GenPath | MBT_JavaRefactoring_Proj/src/ARH/common/path/MPathAlgoCovLongN2N.java:113-143 | all rounds and both through filters; the temporary lists carry over to the next call |
| PathCovLeast.GetCoverSet | MBT_JavaRefactoring_Proj/src/ARH/common/path/MPathAlgoCovLeast.java:141-186 | ends; the chosen positions cover every step of every path; their number keeps the greedy bound |
| PathCovLeast.Pick | MBT_JavaRefactoring_Proj/src/ARH/common/path/MPathAlgoCovLeast.java:166-178 | the inner loop finds the first of the unused paths with the largest union: no earlier unused one has as large a union; it never ends without one |
| PathCovLeast.AllSteps | MBT_JavaRefactoring_Proj/src/ARH/common/path/MPathAlgoCovLeast.java:150-159 | the union of all step lists |
| PathCovLeast.GreedyGain | MBT_JavaRefactoring_Proj/src/ARH/common/path/MPathAlgoCovLeast.java:162-183 | if any m paths cover everything, m times the gain of a round is at least the number of uncovered steps |
| PathCovLeast.SomeSetHelps | MBT_JavaRefactoring_Proj/src/ARH/common/path/MPathAlgoCovLeast.java:162-183 | among any sets that cover what is missing, an unused one covers at least its share |
| PathCovLeast.HarmonicDrop | MBT_JavaRefactoring_Proj/src/ARH/common/path/MPathAlgoCovLeast.java:162-183 | the last g terms of the n-th harmonic number sum to at least g / n |
| PathCovLeast.RoundBound | MBT_JavaRefactoring_Proj/src/ARH/common/path/MPathAlgoCovLeast.java:162-183 | one round keeps the harmonic bound |
| PathCovLeast.CoverBoundStep | MBT_JavaRefactoring_Proj/src/ARH/common/path/MPathAlgoCovLeast.java:162-183 | one greedy pick keeps the bound against every cover |
| PathCovLeast.GreedyBound | MBT_JavaRefactoring_Proj/src/ARH/common/path/MPathAlgoCovLeast.java:141-186 | the picks number at most m times the harmonic number of the step count, for every cover of m paths |
| PathCovLeast.KeepChosen | MBT_JavaRefactoring_Proj/src/ARH/common/path/MPathAlgoCovLeast.java:63-71 | the final filter keeps exactly the picked reports, in order |
| PathCovLeast.ChosenCovers | MBT_JavaRefactoring_Proj/src/ARH/common/path/MPathAlgoCovLeast.java:61-71 | if the picked positions cover, the picked reports take every step |
| PathCovLeast.ChosenCount | MBT_JavaRefactoring_Proj/src/ARH/common/path/MPathAlgoCovLeast.java:63-71 | as many reports remain as positions were picked |
| PathCovLeast.LeastPaths | MBT_JavaRefactoring_Proj/src/ARH/common/path/MPathAlgoCovLeast.java:61-71 | what remains takes every step that any path took, comes from the reports, and keeps the greedy bound |
| DataDiscards.MDataAlgoDiscards.constructor | MBT_JavaRefactoring_Proj/src/ARH/common/data/MDataAlgo.java:26-38 | no rows, and an empty row to build up |
| DataDiscards.MDataAlgoDiscards.AddRow | MBT_JavaRefactoring_Proj/src/ARH/common/data/MDataAlgoDiscards.java:91-92 | the row built up is copied to the end of the numbered rows |
| DataDiscards.MDataAlgoDiscards.GetAlgoDiscardsResult | MBT_JavaRefactoring_Proj/src/ARH/common/data/MDataAlgoDiscards.java:63-113 | appends exactly the rows for the remaining parameters, in order; other names in the row built up are untouched |
| DataDiscards.MDataAlgoDiscards.UseValue | MBT_JavaRefactoring_Proj/src/ARH/common/data/MDataAlgoDiscards.java:79-111 | the same for one value of the first of them |
| DataDiscards.MDataAlgoDiscards.GenData | MBT_JavaRefactoring_Proj/src/ARH/common/data/MDataAlgoDiscards.java:24-56 | the rows for the parameters asked for, numbered from zero; every row has exactly the names asked for that some parameter has, and those left from before; there is no row exactly if no parameter is asked for or one of those has no value; nothing for an empty list |
| DataDiscards.RowOfChoice | MBT_JavaRefactoring_Proj/src/ARH/common/data/MDataAlgoDiscards.java:63-113 | there are as many rows as choices of one value per parameter, and the row of a choice stands at its mixed-radix number |
| DataDiscards.DigitsOfNumber | MBT_JavaRefactoring_Proj/src/ARH/common/data/MDataAlgoDiscards.java:63-113 | different choices have different numbers, all below the number of rows |
| DataDiscards.NumberOfDigits | MBT_JavaRefactoring_Proj/src/ARH/common/data/MDataAlgoDiscards.java:63-113 | every row number is that of a choice |
| DataDiscards.EarlierFirst | MBT_JavaRefactoring_Proj/src/ARH/common/data/MDataAlgoDiscards.java:77-112 | rows come in the order of the choices: the one with the earlier value where they first differ has the lower number |
| DataDiscards.NoValues | MBT_JavaRefactoring_Proj/src/ARH/common/data/MDataAlgoDiscards.java:77-112 | there is no combination exactly if some parameter has no value |
| DataDiscards.FilledNames | MBT_JavaRefactoring_Proj/src/ARH/common/data/MDataAlgoDiscards.java:91-109 | a row has the names of the parameters, and under other names what was there before |
| DataDiscards.FilledValues | MBT_JavaRefactoring_Proj/src/ARH/common/data/MDataAlgoDiscards.java:91-109 | a row has the chosen value under each name, the last one for a repeated name |
| DataDiscards.RowKeys | MBT_JavaRefactoring_Proj/src/ARH/common/data/MDataAlgoDiscards.java:91-109 | every row has the names of the parameters and of the row before the call |
| DataDiscards.Shown | MBT_JavaRefactoring_Proj/src/ARH/common/data/MDataAlgoDiscards.java:81-90 | the converted text, or a blank if that is empty; never empty |
| DataDiscards.RowsAgree | MBT_JavaRefactoring_Proj/src/ARH/common/data/MDataAlgoDiscards.java:76-109 | what an earlier branch left under the names of the parameters never shows |
| DataDiscards.MDataAlgoDiscards.DropOthers | MBT_JavaRefactoring_Proj/src/ARH/common/data/MDataAlgoDiscards.java:35-44 | exactly the parameters asked for stay, in order |
| DataDiscards.KeptMember | MBT_JavaRefactoring_Proj/src/ARH/common/data/MDataAlgoDiscards.java:40-48 | a parameter stays exactly if its name is asked for |
| DataDiscards.KeptPositions | MBT_JavaRefactoring_Proj/src/ARH/common/data/MDataAlgoDiscards.java:40-48 | those that stay are those at all positions with a name asked for, in order and each once |
| DataDiscards.LeftIsLast | MBT_JavaRefactoring_Proj/src/ARH/common/data/MDataAlgoDiscards.java:63-113 | the row left built up is the last one put out, so the next call starts from it |
| DataDiscards.LeftOutside | MBT_JavaRefactoring_Proj/src/ARH/common/data/MDataAlgoDiscards.java:63-113 | it differs from the row before the call only under the names of the parameters |
| DataDiscards.TwoCalls | MBT_JavaRefactoring_Proj/src/ARH/common/data/MDataAlgoDiscards.java:24-56 | two calls with different names: the row of the second has the name of the first |
| DataDiscards.StaleNames | MBT_JavaRefactoring_Proj/src/ARH/common/data/MDataAlgoDiscards.java:76 | the rows have exactly the names asked for if and only if the row built up had no others left from an earlier call |
| Lists.Lists.PushValid | MBT_JavaRefactoring_Proj/src/PrecisionTest/TProfile/tprofiler/tprofiler-src/src/addressmap-inl.h:335-336 | putting a new node in front of a list keeps all lists disjoint, acyclic and null-terminated |
| Lists.Lists.RemoveValid | MBT_JavaRefactoring_Proj/src/PrecisionTest/TProfile/tprofiler/tprofiler-src/src/addressmap-inl.h:348-350 | so does taking a node out, given what points to it |
| Lists.Lists.WalkExact | MBT_JavaRefactoring_Proj/src/PrecisionTest/TProfile/tprofiler/tprofiler-src/src/addressmap-inl.h:217-221 | following next pointers from a head meets each node of that list exactly once and no other |
| AddressMemory.ClusterAdded | MBT_JavaRefactoring_Proj/src/PrecisionTest/TProfile/tprofiler/tprofiler-src/src/addressmap-inl.h:224-230 | a new cluster in front of its chain: ids stay unique, contents do not change |
| AddressMemory.ValueStored | MBT_JavaRefactoring_Proj/src/PrecisionTest/TProfile/tprofiler/tprofiler-src/src/addressmap-inl.h:314-319 | storing in a listed entry changes the value of its key only |
| AddressMemory.UnlinkKeeps | MBT_JavaRefactoring_Proj/src/PrecisionTest/TProfile/tprofiler/tprofiler-src/src/addressmap-inl.h:344-350 | taking an entry off a block list removes its key, off the free list nothing |
| AddressMemory.LinkKeeps | MBT_JavaRefactoring_Proj/src/PrecisionTest/TProfile/tprofiler/tprofiler-src/src/addressmap-inl.h:331-336 | putting an entry on the block list of its key adds the key, on the free list nothing |
| AddressMemory.SpareUsedKeeps | MBT_JavaRefactoring_Proj/src/PrecisionTest/TProfile/tprofiler/tprofiler-src/src/addressmap-inl.h:331-336 | moving the first free entry to a block list adds exactly the new pair |
| AddressMemory.FreedKeeps | MBT_JavaRefactoring_Proj/src/PrecisionTest/TProfile/tprofiler/tprofiler-src/src/addressmap-inl.h:346-351 | moving an entry to the free list removes exactly its key |
| AddressMemory.BatchAdded | MBT_JavaRefactoring_Proj/src/PrecisionTest/TProfile/tprofiler/tprofiler-src/src/addressmap-inl.h:322-330 | chaining a batch of new entries in front of the free list changes no contents |
| AddressSearch.CloseReached | MBT_JavaRefactoring_Proj/src/PrecisionTest/TProfile/tprofiler/tprofiler-src/src/addressmap-inl.h:358-402 | the containing range is found whenever the key is at most the size limit behind its start, or the range is no larger than the limit |
| AddressSearch.Found | MBT_JavaRefactoring_Proj/src/PrecisionTest/TProfile/tprofiler/tprofiler-src/src/addressmap-inl.h:371-381 | a range in the current block that holds the key is the answer |
| AddressSearch.Covered | MBT_JavaRefactoring_Proj/src/PrecisionTest/TProfile/tprofiler/tprofiler-src/src/addressmap-inl.h:382-383 | a smaller key whose range does not hold the key rules out all earlier ranges: the early exit loses nothing |
| AddressSearch.BlockPassed | MBT_JavaRefactoring_Proj/src/PrecisionTest/TProfile/tprofiler/tprofiler-src/src/addressmap-inl.h:384-388 | stepping to the previous block passes no key |
| AddressSearch.ClusterPassed | MBT_JavaRefactoring_Proj/src/PrecisionTest/TProfile/tprofiler/tprofiler-src/src/addressmap-inl.h:391-395 | stepping to the previous cluster passes no key |
| AddressSearch.Stopped | MBT_JavaRefactoring_Proj/src/PrecisionTest/TProfile/tprofiler/tprofiler-src/src/addressmap-inl.h:388-395 | stopping at the size limit leaves no reachable range unseen |
| AddressSearch.StepBack | MBT_JavaRefactoring_Proj/src/PrecisionTest/TProfile/tprofiler/tprofiler-src/src/addressmap-inl.h:386-394 | setting the low bits and subtracting a unit gives a smaller address: the search ends |
| AddressFold.FoldValues | MBT_JavaRefactoring_Proj/src/PrecisionTest/TProfile/tprofiler/tprofiler-src/src/addressmap-inl.h:406-419 | a visit of distinct keys rewrites exactly the visited values |
| AddressFold.GatherIs | MBT_JavaRefactoring_Proj/src/PrecisionTest/TProfile/tprofiler/tprofiler-src/src/addressmap-inl.h:406-419 | a visit that only reads collects over the visited pairs and leaves them alone |
| AddressMaps.AddressMap.constructor | MBT_JavaRefactoring_Proj/src/PrecisionTest/TProfile/tprofiler/tprofiler-src/src/addressmap-inl.h:269-276 | an empty map |
| AddressMaps.AddressMap.LookupCluster | MBT_JavaRefactoring_Proj/src/PrecisionTest/TProfile/tprofiler/tprofiler-src/src/addressmap-inl.h:213-221 | the one cluster with the id of the address, null if there is none |
| AddressMaps.AddressMap.WalkChain | MBT_JavaRefactoring_Proj/src/PrecisionTest/TProfile/tprofiler/tprofiler-src/src/addressmap-inl.h:217-221 | the chain walk ends and finds the cluster with the id if it is on the chain |
| AddressMaps.AddressMap.FindOrCreateCluster | MBT_JavaRefactoring_Proj/src/PrecisionTest/TProfile/tprofiler/tprofiler-src/src/addressmap-inl.h:213-232 | the cluster exists afterwards; contents do not change |
| AddressMaps.AddressMap.FindMutable | MBT_JavaRefactoring_Proj/src/PrecisionTest/TProfile/tprofiler/tprofiler-src/src/addressmap-inl.h:294-305 | null exactly for absent keys, else the entry of the key with its value |
| AddressMaps.AddressMap.FindInBlock | MBT_JavaRefactoring_Proj/src/PrecisionTest/TProfile/tprofiler/tprofiler-src/src/addressmap-inl.h:298-302 | the entry of the key in its block list |
| AddressMaps.AddressMap.WalkList | MBT_JavaRefactoring_Proj/src/PrecisionTest/TProfile/tprofiler/tprofiler-src/src/addressmap-inl.h:298-302 | the list walk ends and finds the entry with the key if it is on the list |
| AddressMaps.AddressMap.Store | MBT_JavaRefactoring_Proj/src/PrecisionTest/TProfile/tprofiler/tprofiler-src/src/addressmap-inl.h:314-319 | writing through the entry updates exactly the value of its key |
| AddressMaps.AddressMap.AllocBatch | MBT_JavaRefactoring_Proj/src/PrecisionTest/TProfile/tprofiler/tprofiler-src/src/addressmap-inl.h:322-330 | the free list is not empty afterwards; no key moves |
| AddressMaps.AddressMap.ChainArray | MBT_JavaRefactoring_Proj/src/PrecisionTest/TProfile/tprofiler/tprofiler-src/src/addressmap-inl.h:324-329 | each new entry points to the next, the last to the old free list |
| AddressMaps.AddressMap.UseSpare | MBT_JavaRefactoring_Proj/src/PrecisionTest/TProfile/tprofiler/tprofiler-src/src/addressmap-inl.h:331-336 | the first free entry becomes the entry of the new key |
| AddressMaps.AddressMap.Insert | MBT_JavaRefactoring_Proj/src/PrecisionTest/TProfile/tprofiler/tprofiler-src/src/addressmap-inl.h:308-337 | refines map update, old value replaced; the whole linked structure stays valid |
| AddressMaps.AddressMap.WalkLinks | MBT_JavaRefactoring_Proj/src/PrecisionTest/TProfile/tprofiler/tprofiler-src/src/addressmap-inl.h:344-353 | finds the entry of a key together with what points to it |
| AddressMaps.AddressMap.Unhook | MBT_JavaRefactoring_Proj/src/PrecisionTest/TProfile/tprofiler/tprofiler-src/src/addressmap-inl.h:347-351 | the link writes of a removal |
| AddressMaps.AddressMap.Free | MBT_JavaRefactoring_Proj/src/PrecisionTest/TProfile/tprofiler/tprofiler-src/src/addressmap-inl.h:344-353 | removes exactly the key and frees its entry |
| AddressMaps.AddressMap.FindAndRemove | MBT_JavaRefactoring_Proj/src/PrecisionTest/TProfile/tprofiler/tprofiler-src/src/addressmap-inl.h:340-356 | refines map removal; reports whether the key was there and its value |
| AddressMaps.AddressMap.ScanList | MBT_JavaRefactoring_Proj/src/PrecisionTest/TProfile/tprofiler/tprofiler-src/src/addressmap-inl.h:371-381 | finds a range of the block that holds the key, else tells whether a smaller key was seen |
| AddressMaps.AddressMap.ScanBlock | MBT_JavaRefactoring_Proj/src/PrecisionTest/TProfile/tprofiler/tprofiler-src/src/addressmap-inl.h:369-381 | the same for the block of an address |
| AddressMaps.AddressMap.FindInCluster | MBT_JavaRefactoring_Proj/src/PrecisionTest/TProfile/tprofiler/tprofiler-src/src/addressmap-inl.h:366-390 | scans the blocks of a cluster backwards, ending with the answer or with nothing in this cluster |
| AddressMaps.AddressMap.FindInside | MBT_JavaRefactoring_Proj/src/PrecisionTest/TProfile/tprofiler/tprofiler-src/src/addressmap-inl.h:358-402 | for ranges that do not overlap or wrap: ends, and returns the range the key points into exactly if its block is reached within the size limit |
| AddressMaps.AddressMap.IterateBlock | MBT_JavaRefactoring_Proj/src/PrecisionTest/TProfile/tprofiler/tprofiler-src/src/addressmap-inl.h:413-415 | visits the entries of one block list, each once |
| AddressMaps.AddressMap.IterateCluster | MBT_JavaRefactoring_Proj/src/PrecisionTest/TProfile/tprofiler/tprofiler-src/src/addressmap-inl.h:412-416 | visits the entries of one cluster, each once |
| AddressMaps.AddressMap.IterateChain | MBT_JavaRefactoring_Proj/src/PrecisionTest/TProfile/tprofiler/tprofiler-src/src/addressmap-inl.h:411-417 | visits the entries of one hash chain, each once |
| AddressMaps.AddressMap.Iterate | MBT_JavaRefactoring_Proj/src/PrecisionTest/TProfile/tprofiler/tprofiler-src/src/addressmap-inl.h:406-419 | applies the callback to every stored pair exactly once |
| AddressMaps.AddressMap.Perform | MBT_JavaRefactoring_Proj/src/PrecisionTest/TProfile/tprofiler/tprofiler-src/src/addressmap-inl.h:294-356 | one operation answers and changes as on a plain map |
| AddressMaps.AddressMap.Run | MBT_JavaRefactoring_Proj/src/PrecisionTest/TProfile/tprofiler/tprofiler-src/src/addressmap-inl.h:294-356 | any run of insertions, lookups and removals answers as a plain map does |
| AddressMemory.HashInt | MBT_JavaRefactoring_Proj/src/PrecisionTest/TProfile/tprofiler/tprofiler-src/src/addressmap-inl.h:202-206 | the 32-bit multiplicative hash selects a chain that exists |
| AddressMemory.BlockId | MBT_JavaRefactoring_Proj/src/PrecisionTest/TProfile/tprofiler/tprofiler-src/src/addressmap-inl.h:235-237 | the block index of an address is within its cluster |
| ProfileBooks.RunBalance | MBT_JavaRefactoring_Proj/src/PrecisionTest/TProfile/tprofiler/tprofiler-src/src/heap-profile-table.cc:224-249 | over any run of allocations and frees the total is the sum over buckets; every bucket balance equals count and bytes of its entries if and only if no recorded address is allocated again |
| ProfileBooks.RunCounts | MBT_JavaRefactoring_Proj/src/PrecisionTest/TProfile/tprofiler/tprofiler-src/src/heap-profile-table.cc:224-249 | after any run the four statistics of a bucket are what they were plus the number and the bytes of the allocations that went to it, and of the frees that took an entry of it |
| ProfileBooks.ChargedLost | MBT_JavaRefactoring_Proj/src/PrecisionTest/TProfile/tprofiler/tprofiler-src/src/heap-profile-table.cc:224-238 | an allocation loses exactly the entry it overwrites, if any |
| ProfileBooks.ReleasedLost | MBT_JavaRefactoring_Proj/src/PrecisionTest/TProfile/tprofiler/tprofiler-src/src/heap-profile-table.cc:240-249 | a free loses nothing, and one of an unrecorded address does nothing |
| ProfileBooks.TotalsKept | MBT_JavaRefactoring_Proj/src/PrecisionTest/TProfile/tprofiler/tprofiler-src/src/heap-profile-table.cc:224-249 | each step keeps the total equal to the sums over the buckets |
| ProfileBooks.FlagsNeutral | MBT_JavaRefactoring_Proj/src/PrecisionTest/TProfile/tprofiler/tprofiler-src/src/heap-profile-table.cc:278-292 | changing flags changes no accounting |
| ProfileBooks.AllocValue.LiveApart | MBT_JavaRefactoring_Proj/src/PrecisionTest/TProfile/tprofiler/tprofiler-src/src/heap-profile-table.h:213-243 | the live bit changes neither the bucket nor the ignore bit |
| ProfileBooks.AllocValue.IgnoreApart | MBT_JavaRefactoring_Proj/src/PrecisionTest/TProfile/tprofiler/tprofiler-src/src/heap-profile-table.h:213-243 | the ignore bit changes neither the bucket nor the live bit |
| ProfileBooks.NonLiveCollected | MBT_JavaRefactoring_Proj/src/PrecisionTest/TProfile/tprofiler/tprofiler-src/src/heap-profile-table.cc:488-501 | visiting distinct entries collects exactly the non-live ones outside the base, with matching totals, and clears the visited live bits |
| ProfileBooks.NonLiveVisited | MBT_JavaRefactoring_Proj/src/PrecisionTest/TProfile/tprofiler/tprofiler-src/src/heap-profile-table.cc:567-582 | the same for a visit of all entries in any order; the books stay balanced |
| ProfileBooks.AllCollected | MBT_JavaRefactoring_Proj/src/PrecisionTest/TProfile/tprofiler/tprofiler-src/src/heap-profile-table.cc:561-565 | a plain snapshot copies every visited entry with matching totals |
| ProfileBooks.Tally | MBT_JavaRefactoring_Proj/src/PrecisionTest/TProfile/tprofiler/tprofiler-src/src/heap-profile-table.h:407-411 | adding an absent object keeps the totals of a snapshot those of its entries |
| ProfileBooks.NonIgnoredPromise | MBT_JavaRefactoring_Proj/src/PrecisionTest/TProfile/tprofiler/tprofiler-src/src/heap-profile-table.h:184-188 | the header promises only non-ignored objects: true of the code exactly if no non-live object outside the base carries the ignore bit |
| HeapProfiles.HeapProfileTable.constructor | MBT_JavaRefactoring_Proj/src/PrecisionTest/TProfile/tprofiler/tprofiler-src/src/heap-profile-table.cc:125-144 | empty books |
| HeapProfiles.HeapProfileTable.ComputeHash | MBT_JavaRefactoring_Proj/src/PrecisionTest/TProfile/tprofiler/tprofiler-src/src/heap-profile-table.cc:182-189 | the 64-bit wrapping hash of the stack trace |
| HeapProfiles.HeapProfileTable.WalkChain | MBT_JavaRefactoring_Proj/src/PrecisionTest/TProfile/tprofiler/tprofiler-src/src/heap-profile-table.cc:193-199 | the chain walk ends and finds the bucket of the stack trace if it exists |
| HeapProfiles.HeapProfileTable.CreateBucket | MBT_JavaRefactoring_Proj/src/PrecisionTest/TProfile/tprofiler/tprofiler-src/src/heap-profile-table.cc:201-215 | a new empty bucket in front of its chain; all others unchanged |
| HeapProfiles.HeapProfileTable.Lookup | MBT_JavaRefactoring_Proj/src/PrecisionTest/TProfile/tprofiler/tprofiler-src/src/heap-profile-table.cc:191-199 | the one bucket of the stack trace, or null |
| HeapProfiles.HeapProfileTable.GetBucket | MBT_JavaRefactoring_Proj/src/PrecisionTest/TProfile/tprofiler/tprofiler-src/src/heap-profile-table.cc:178-216 | each stack trace has one bucket: the known one is returned, a new one starts at zero |
| HeapProfiles.HeapProfileTable.Account | MBT_JavaRefactoring_Proj/src/PrecisionTest/TProfile/tprofiler/tprofiler-src/src/heap-profile-table.cc:229-232 | statistics of one bucket and the total are written, nothing else |
| HeapProfiles.HeapProfileTable.RecordAlloc | MBT_JavaRefactoring_Proj/src/PrecisionTest/TProfile/tprofiler/tprofiler-src/src/heap-profile-table.cc:224-238 | the books after charging one allocation to the bucket of its stack trace, neither live nor ignored |
| HeapProfiles.HeapProfileTable.RecordFree | MBT_JavaRefactoring_Proj/src/PrecisionTest/TProfile/tprofiler/tprofiler-src/src/heap-profile-table.cc:240-249 | the books after releasing one allocation; an unrecorded address changes nothing |
| HeapProfiles.HeapProfileTable.FindAlloc | MBT_JavaRefactoring_Proj/src/PrecisionTest/TProfile/tprofiler/tprofiler-src/src/heap-profile-table.cc:251-255 | found exactly if recorded, with its size |
| HeapProfiles.HeapProfileTable.FindInsideAlloc | MBT_JavaRefactoring_Proj/src/PrecisionTest/TProfile/tprofiler/tprofiler-src/src/heap-profile-table.cc:268-276 | the object the address points into, by the search of the address map |
| HeapProfiles.HeapProfileTable.WriteFlags | MBT_JavaRefactoring_Proj/src/PrecisionTest/TProfile/tprofiler/tprofiler-src/src/heap-profile-table.cc:278-292 | flags of one entry change in place; books stay balanced |
| HeapProfiles.HeapProfileTable.MarkAsLive | MBT_JavaRefactoring_Proj/src/PrecisionTest/TProfile/tprofiler/tprofiler-src/src/heap-profile-table.cc:278-285 | true exactly if recorded and not yet live; sets that live bit only |
| HeapProfiles.HeapProfileTable.MarkAsIgnored | MBT_JavaRefactoring_Proj/src/PrecisionTest/TProfile/tprofiler/tprofiler-src/src/heap-profile-table.cc:287-292 | sets the ignore bit of a recorded address only |
| HeapProfiles.HeapProfileTable.TakeSnapshot | MBT_JavaRefactoring_Proj/src/PrecisionTest/TProfile/tprofiler/tprofiler-src/src/heap-profile-table.cc:550-554 | every recorded object, with matching totals; the table is unchanged |
| HeapProfiles.HeapProfileTable.NonLiveSnapshot | MBT_JavaRefactoring_Proj/src/PrecisionTest/TProfile/tprofiler/tprofiler-src/src/heap-profile-table.cc:567-582 | exactly the non-live objects absent from the base, with matching totals; no ignored object among them if and only if no non-live object outside the base was ignored; afterwards no live bit is set |
| HeapProfiles.HeapProfileTable.IterateAllocs | MBT_JavaRefactoring_Proj/src/PrecisionTest/TProfile/tprofiler/tprofiler-src/src/heap-profile-table.h:292-301 | a reading visit of every recorded object, each once; the table is unchanged |
| HeapProfiles.HeapProfileTable.Perform | MBT_JavaRefactoring_Proj/src/PrecisionTest/TProfile/tprofiler/tprofiler-src/src/heap-profile-table.cc:224-249 | any run of allocations with stack traces and frees is a run of events, each allocation at the bucket of its stack trace, and different stack traces have different buckets; afterwards every bucket balance equals count and bytes of its entries if and only if no call allocated at an address still recorded |
| HeapProfiles.HeapProfileTable.PerformOne | MBT_JavaRefactoring_Proj/src/PrecisionTest/TProfile/tprofiler/tprofiler-src/src/heap-profile-table.cc:224-249 | one call is one such event; known stack traces keep their buckets |
| HeapProfiles.CallEvent | MBT_JavaRefactoring_Proj/src/PrecisionTest/TProfile/tprofiler/tprofiler-src/src/heap-profile-table.cc:224-249 | a call balances the books exactly if its bucket-level event does |
| HeapProfiles.AllocTwice | MBT_JavaRefactoring_Proj/src/PrecisionTest/TProfile/tprofiler/tprofiler-src/src/heap-profile-table.cc:224-238 | a run of the table: two allocations at one address with different stack traces leave it unbalanced |
| HeapProfiles.SnapshotOfIgnored | MBT_JavaRefactoring_Proj/src/PrecisionTest/TProfile/tprofiler/tprofiler-src/src/heap-profile-table.cc:567-582 | a run of the table: an allocation marked as ignored is in the snapshot of non-live objects |
| LeakMarking.PointsToOne | MBT_JavaRefactoring_Proj/src/PrecisionTest/TProfile/tprofiler/tprofiler-src/src/heap-checker.cc:2349-2361 | a word points to at most one recorded object |
| LeakMarking.DeepEnough | MBT_JavaRefactoring_Proj/src/PrecisionTest/TProfile/tprofiler/tprofiler-src/src/heap-checker.cc:2349-2361 | with a limit no smaller than the largest object, every pointer into an object counts |
| LeakMarking.InnerPointer | MBT_JavaRefactoring_Proj/src/PrecisionTest/TProfile/tprofiler/tprofiler-src/src/heap-checker.cc:2349-2361 | a pointer into an object counts up to the limit, and not from one block beyond it on |
| LeakMarking.ScansFrom | MBT_JavaRefactoring_Proj/src/PrecisionTest/TProfile/tprofiler/tprofiler-src/src/heap-checker.cc:1400-1412 | the remainder adjustment scans exactly the aligned word positions that lie wholly in the object |
| LeakMarking.MarkedIs | MBT_JavaRefactoring_Proj/src/PrecisionTest/TProfile/tprofiler/tprofiler-src/src/heap-checker.cc:1456-1486 | setting live bits changes no size, bucket or ignore flag |
| LeakMarking.Heap.PopRoot | MBT_JavaRefactoring_Proj/src/PrecisionTest/TProfile/tprofiler/tprofiler-src/src/heap-checker.cc:1387-1396 | taking a root marks it if it must be on the heap and is recorded; it is then pending |
| LeakMarking.Heap.PopNew | MBT_JavaRefactoring_Proj/src/PrecisionTest/TProfile/tprofiler/tprofiler-src/src/heap-checker.cc:1387-1392 | taking an already marked object leaves it pending |
| LeakMarking.Heap.MarkTarget | MBT_JavaRefactoring_Proj/src/PrecisionTest/TProfile/tprofiler/tprofiler-src/src/heap-checker.cc:1461-1486 | marking and pushing the target of a scanned word keeps what is traced |
| LeakMarking.Heap.Scanned | MBT_JavaRefactoring_Proj/src/PrecisionTest/TProfile/tprofiler/tprofiler-src/src/heap-checker.cc:1438-1489 | an object all of whose targets are marked is no longer pending |
| LeakMarking.Heap.Done | MBT_JavaRefactoring_Proj/src/PrecisionTest/TProfile/tprofiler/tprofiler-src/src/heap-checker.cc:1387-1490 | with an empty stack the marked set is the least one closed under roots and pointers |
| LeakMarking.Heap.Followed | MBT_JavaRefactoring_Proj/src/PrecisionTest/TProfile/tprofiler/tprofiler-src/src/heap-checker.cc:1438-1489 | any aligned word wholly inside a root or a newly marked object that points to the start or, within the limit, to the inside of a recorded object marks that object |
| LeakMarking.Heap.Unreached | MBT_JavaRefactoring_Proj/src/PrecisionTest/TProfile/tprofiler/tprofiler-src/src/heap-checker.cc:1382-1497 | objects that nothing outside of them points to are not marked, even if they point to each other |
| LeakMarking.Heap.WeighMore | MBT_JavaRefactoring_Proj/src/PrecisionTest/TProfile/tprofiler/tprofiler-src/src/heap-checker.cc:1482-1483 | marking one more object adds its size once |
| HeapLeakCheckers.EveryPointer | MBT_JavaRefactoring_Proj/src/PrecisionTest/TProfile/tprofiler/tprofiler-src/src/heap-checker.cc:578-582 | with the largest size ever allocated as the limit, the search counts every pointer into a recorded object |
| HeapLeakCheckers.BoundsAdmit | MBT_JavaRefactoring_Proj/src/PrecisionTest/TProfile/tprofiler/tprofiler-src/src/heap-checker.cc:1443-1455 | the check against the heap bounds discards no word that points to a recorded object |
| HeapLeakCheckers.HeapLeakChecker.constructor | MBT_JavaRefactoring_Proj/src/PrecisionTest/TProfile/tprofiler/tprofiler-src/src/heap-checker.cc:529-533 | no object recorded, the bounds are empty and the largest size is zero |
| HeapLeakCheckers.HeapLeakChecker.Record | MBT_JavaRefactoring_Proj/src/PrecisionTest/TProfile/tprofiler/tprofiler-src/src/heap-checker.cc:583-588 | the books after recording the object, marked as ignored exactly if asked; bounds still cover everything |
| HeapLeakCheckers.HeapLeakChecker.NewHook | MBT_JavaRefactoring_Proj/src/PrecisionTest/TProfile/tprofiler/tprofiler-src/src/heap-checker.cc:566-592 | bounds and largest size take in every allocation, also while the checker is off; while it is on the object is recorded with its size and the bucket of its stack trace, not live, and with the ignore bit exactly if it is to be ignored; no other entry changes; null is skipped |
| HeapLeakCheckers.HookedIs | MBT_JavaRefactoring_Proj/src/PrecisionTest/TProfile/tprofiler/tprofiler-src/src/heap-checker.cc:583-588 | what recording leaves in the map, entry by entry |
| HeapLeakCheckers.HeapLeakChecker.DeleteHook | MBT_JavaRefactoring_Proj/src/PrecisionTest/TProfile/tprofiler/tprofiler-src/src/heap-checker.cc:594-602 | the books after releasing the object if the checker is on; bounds still cover the rest |
| HeapLeakCheckers.HeapLeakChecker.HaveOnHeapLocked | MBT_JavaRefactoring_Proj/src/PrecisionTest/TProfile/tprofiler/tprofiler-src/src/heap-checker.cc:2349-2361 | found exactly if the address points to the start or inside of a recorded object, which is returned with its size |
| HeapLeakCheckers.HeapLeakChecker.Mark | MBT_JavaRefactoring_Proj/src/PrecisionTest/TProfile/tprofiler/tprofiler-src/src/heap-checker.cc:1461-1462 | true exactly the first time a recorded object is marked |
| HeapLeakCheckers.HeapLeakChecker.PushTarget | MBT_JavaRefactoring_Proj/src/PrecisionTest/TProfile/tprofiler/tprofiler-src/src/heap-checker.cc:1461-1486 | a newly marked target is pushed once and only then |
| HeapLeakCheckers.HeapLeakChecker.TryWord | MBT_JavaRefactoring_Proj/src/PrecisionTest/TProfile/tprofiler/tprofiler-src/src/heap-checker.cc:1438-1488 | after one word its target, if any, is marked; counts and bytes grow by exactly what was newly marked |
| HeapLeakCheckers.HeapLeakChecker.ScanObject | MBT_JavaRefactoring_Proj/src/PrecisionTest/TProfile/tprofiler/tprofiler-src/src/heap-checker.cc:1399-1490 | after one object all its targets are marked |
| HeapLeakCheckers.HeapLeakChecker.TakeTop | MBT_JavaRefactoring_Proj/src/PrecisionTest/TProfile/tprofiler/tprofiler-src/src/heap-checker.cc:1388-1396 | the top of the stack becomes pending |
| HeapLeakCheckers.HeapLeakChecker.MarkAll | MBT_JavaRefactoring_Proj/src/PrecisionTest/TProfile/tprofiler/tprofiler-src/src/heap-checker.cc:1387-1490 | the loop ends, the stack is empty and every marked object was counted once with its size |
| HeapLeakCheckers.HeapLeakChecker.IgnoreLiveObjectsLocked | MBT_JavaRefactoring_Proj/src/PrecisionTest/TProfile/tprofiler/tprofiler-src/src/heap-checker.cc:1382-1497 | the live objects afterwards are exactly those live before plus those reachable from the roots through aligned words; only live bits change; totals grow by their number and bytes |
| HeapLeakCheckers.HeapLeakChecker.IgnoreDisabledObjects | MBT_JavaRefactoring_Proj/src/PrecisionTest/TProfile/tprofiler/tprofiler-src/src/heap-checker.cc:1117-1122 | every recorded object with the ignore bit becomes a root; the live objects are then those reachable from the old roots and these |
| HeapLeakCheckers.HeapLeakChecker.LeakCheck | MBT_JavaRefactoring_Proj/src/PrecisionTest/TProfile/tprofiler/tprofiler-src/src/heap-checker.cc:1252-1346 | with the limit on pointers into objects lowered meanwhile to the smaller of cap and largest size: the leaks are exactly the recorded objects outside the base that nothing live, no root and no ignored object reaches; none of them is ignored |
| HeapLeakCheckers.AllocThenCheck | MBT_JavaRefactoring_Proj/src/PrecisionTest/TProfile/tprofiler/tprofiler-src/src/heap-checker.cc:566-592 | an allocation, then a leak check: an object that roots and other objects point to at most beyond the limit is among the leaks if and only if it was not to be ignored |
| HeapLeakCheckers.Forgotten | MBT_JavaRefactoring_Proj/src/PrecisionTest/TProfile/tprofiler/tprofiler-src/src/heap-checker.cc:1382-1497 | such an object is marked exactly if it has the ignore bit |
| HeapLeakCheckers.NoneIgnored | MBT_JavaRefactoring_Proj/src/PrecisionTest/TProfile/tprofiler/tprofiler-src/src/heap-checker.cc:1117-1122 | because ignored objects are roots, the snapshots of the checker itself keep the promise of the header |
| LeakRegions.UpperBound | MBT_JavaRefactoring_Proj/src/PrecisionTest/TProfile/tprofiler/tprofiler-src/src/heap-checker.cc:1165-1167 | the least range end above the caller, if any |
| LeakRegions.UpperBoundDecides | MBT_JavaRefactoring_Proj/src/PrecisionTest/TProfile/tprofiler/tprofiler-src/src/heap-checker.cc:1165-1172 | for separate ranges that one lookup decides whether a caller is inside any range |
| LeakRegions.Selects | MBT_JavaRefactoring_Proj/src/PrecisionTest/TProfile/tprofiler/tprofiler-src/src/heap-checker.cc:1160-1174 | a region is subtracted exactly if it is a stack or its caller is outside every special range; null callers are noted |
| LeakRegions.CutCovers | MBT_JavaRefactoring_Proj/src/PrecisionTest/TProfile/tprofiler/tprofiler-src/src/heap-checker.cc:1179-1205 | each stretch of the interval that is clear of the region is wholly in exactly one of the pieces, and no other stretch is; pieces count as global data |
| LeakRegions.CoverSome | MBT_JavaRefactoring_Proj/src/PrecisionTest/TProfile/tprofiler/tprofiler-src/src/heap-checker.cc:1179-1205 | what counting stretches says: one is held by some interval, or by none |
| LeakRegions.LiveRegions.CutOut | MBT_JavaRefactoring_Proj/src/PrecisionTest/TProfile/tprofiler/tprofiler-src/src/heap-checker.cc:1175-1211 | one region: every stretch that meets it is gone, every other is held by as many intervals as before |
| LeakRegions.LiveRegions.SubtractRegions | MBT_JavaRefactoring_Proj/src/PrecisionTest/TProfile/tprofiler/tprofiler-src/src/heap-checker.cc:1149-1212 | all regions: a stretch of addresses, such as a word to scan, is wholly in an interval afterwards exactly if it was before and meets no selected region |
| LeakRegions.LiveRegions.FindSpan | MBT_JavaRefactoring_Proj/src/PrecisionTest/TProfile/tprofiler/tprofiler-src/src/heap-checker.cc:662-668 | the first interval of the first library that holds the stack top |
| LeakRegions.LiveRegions.RegisterStackLocked | MBT_JavaRefactoring_Proj/src/PrecisionTest/TProfile/tprofiler/tprofiler-src/src/heap-checker.cc:631-722 | exactly one object is added, as thread data: the addresses from the top to the end of the stack if it grows down, from the start to the top if it grows up; a carved stack takes exactly the interval around the top that no region border cuts off out of one library, the rest stays |
| LeakRegions.Carve | MBT_JavaRefactoring_Proj/src/PrecisionTest/TProfile/tprofiler/tprofiler-src/src/heap-checker.cc:675-688 | the carved interval holds the top and is exactly the part of the span that no region border separates from it |
| LeakRegions.CarvedMeetsNone | MBT_JavaRefactoring_Proj/src/PrecisionTest/TProfile/tprofiler/tprofiler-src/src/heap-checker.cc:679-688 | the carved interval meets no region that does not hold the top |
| LeakRegions.PutBackCovers | MBT_JavaRefactoring_Proj/src/PrecisionTest/TProfile/tprofiler/tprofiler-src/src/heap-checker.cc:705-714 | erasing the span and putting both ends back removes exactly the stretches that meet the carved interval |
| FreeQueues.FreeQueue.constructor | MBT_JavaRefactoring_Proj/src/PrecisionTest/TProfile/tprofiler/tprofiler-src/src/debugallocation.cc:169 | an empty queue |
| FreeQueues.FreeQueue.Size | MBT_JavaRefactoring_Proj/src/PrecisionTest/TProfile/tprofiler/tprofiler-src/src/debugallocation.cc:187-189 | the wrapped difference of the indices is the number of elements |
| FreeQueues.FreeQueue.Full | MBT_JavaRefactoring_Proj/src/PrecisionTest/TProfile/tprofiler/tprofiler-src/src/debugallocation.cc:171-173 | full exactly at one element below the capacity |
| FreeQueues.FreeQueue.Push | MBT_JavaRefactoring_Proj/src/PrecisionTest/TProfile/tprofiler/tprofiler-src/src/debugallocation.cc:175-178 | appends at the end, wrapping |
| FreeQueues.FreeQueue.Pop | MBT_JavaRefactoring_Proj/src/PrecisionTest/TProfile/tprofiler/tprofiler-src/src/debugallocation.cc:180-185 | removes the oldest element, wrapping |
| FreeQueueThreads.InitialInv | MBT_JavaRefactoring_Proj/src/PrecisionTest/TProfile/tprofiler/tprofiler-src/src/debugallocation.cc:573-583 | the invariant holds at the start |
| FreeQueueThreads.NextKeeps | MBT_JavaRefactoring_Proj/src/PrecisionTest/TProfile/tprofiler/tprofiler-src/src/debugallocation.cc:573-618 | any step of any thread keeps it: whenever the lock is free the ring is not full and the byte count is the sum over queued entries; no check fails |
| FreeQueueThreads.RunKeeps | MBT_JavaRefactoring_Proj/src/PrecisionTest/TProfile/tprofiler/tprofiler-src/src/debugallocation.cc:573-618 | so it holds all along every interleaving |
| FreeQueueThreads.StepMovesOn | MBT_JavaRefactoring_Proj/src/PrecisionTest/TProfile/tprofiler/tprofiler-src/src/debugallocation.cc:595-606 | first in, first out: only the oldest queued block is taken, a taken block stays with its thread until it is freed |
| FreeQueueThreads.FreedOnce | MBT_JavaRefactoring_Proj/src/PrecisionTest/TProfile/tprofiler/tprofiler-src/src/debugallocation.cc:604-617 | no block is freed twice in any run |
| FreeQueueThreads.LastUnlockWithin | MBT_JavaRefactoring_Proj/src/PrecisionTest/TProfile/tprofiler/tprofiler-src/src/debugallocation.cc:593-613 | the last unlock of a call sees a total within its limit and a ring that is not full |
| FreeQueueThreads.QueueStep | MBT_JavaRefactoring_Proj/src/PrecisionTest/TProfile/tprofiler/tprofiler-src/src/debugallocation.cc:580-606 | what each step does to the queue: a call queues its block with its size; the loop takes the oldest entry exactly while the total is above the limit or the ring is full; nothing else touches the queue |
| FreeQueueThreads.Progress | MBT_JavaRefactoring_Proj/src/PrecisionTest/TProfile/tprofiler/tprofiler-src/src/debugallocation.cc:580-613 | while a thread is in a call some such thread can take a step |
| FreeQueueThreads.TurnsDrain | MBT_JavaRefactoring_Proj/src/PrecisionTest/TProfile/tprofiler/tprofiler-src/src/debugallocation.cc:593-611 | the turns of a thread in its locked section amount to the drain loop of the method below |
| FreeQueueThreads.Unsigned | MBT_JavaRefactoring_Proj/src/PrecisionTest/TProfile/tprofiler/tprofiler-src/src/debugallocation.cc:593 | a non-negative limit compares as itself |
| FreeQueueThreads.BlockQueue.constructor | MBT_JavaRefactoring_Proj/src/PrecisionTest/TProfile/tprofiler/tprofiler-src/src/debugallocation.cc:581-582 | an empty queue with byte count zero |
| FreeQueueThreads.BlockQueue.Add | MBT_JavaRefactoring_Proj/src/PrecisionTest/TProfile/tprofiler/tprofiler-src/src/debugallocation.cc:585-588 | queues the block and adds its bytes |
| FreeQueueThreads.BlockQueue.Drain | MBT_JavaRefactoring_Proj/src/PrecisionTest/TProfile/tprofiler/tprofiler-src/src/debugallocation.cc:593-612 | takes the oldest entries, each only while the total was above the limit or the ring was full; it ends with a full batch, or within the limit and not full; this is what the steps do |
| FreeQueueThreads.DrainedIs | MBT_JavaRefactoring_Proj/src/PrecisionTest/TProfile/tprofiler/tprofiler-src/src/debugallocation.cc:593-612 | the same of the loop on values |
| SizeMaps.LgFloor | MBT_JavaRefactoring_Proj/src/PrecisionTest/TProfile/tprofiler/tprofiler-src/src/common.cc:41-53 | the five-step binary search gives the exponent of the highest power of two up to any 32-bit number |
| SizeMaps.LgBounds | MBT_JavaRefactoring_Proj/src/PrecisionTest/TProfile/tprofiler/tprofiler-src/src/common.cc:41-53 | what that exponent means |
| SizeMaps.AlignmentProperties | MBT_JavaRefactoring_Proj/src/PrecisionTest/TProfile/tprofiler/tprofiler-src/src/common.cc:55-75 | an alignment is a power of two, 8 below size 16, 16 below 128, from there on at most an eighth of the size and, unless it is a whole page, more than a sixteenth; never more than a page |
| SizeMaps.NextSize | MBT_JavaRefactoring_Proj/src/PrecisionTest/TProfile/tprofiler/tprofiler-src/src/common.cc:114-116 | size plus alignment is again divisible by its alignment, never passes the largest size, and is a multiple of 8, above 1024 of 128 |
| SizeTables.NumMoveSize | MBT_JavaRefactoring_Proj/src/PrecisionTest/TProfile/tprofiler/tprofiler-src/src/common.cc:77-96 | as many objects as fit in 64 KB, but at least 2 and at most 32 |
| SizeTables.SpanSearch | MBT_JavaRefactoring_Proj/src/PrecisionTest/TProfile/tprofiler/tprofiler-src/src/common.cc:118-130 | for every object size and page size the search ends with the least number of pages with slack at most an eighth, at least one object and as many as are moved |
| SizeTables.PagesForSize | MBT_JavaRefactoring_Proj/src/PrecisionTest/TProfile/tprofiler/tprofiler-src/src/common.cc:118-131 | its result as a page count |
| SizeTables.Merged | MBT_JavaRefactoring_Proj/src/PrecisionTest/TProfile/tprofiler/tprofiler-src/src/common.cc:133-144 | merging a size into the class before it keeps pages, slack and objects of every size seen |
| SizeTables.Extended | MBT_JavaRefactoring_Proj/src/PrecisionTest/TProfile/tprofiler/tprofiler-src/src/common.cc:146-149 | so does a new class |
| SizeTables.BuildClasses | MBT_JavaRefactoring_Proj/src/PrecisionTest/TProfile/tprofiler/tprofiler-src/src/common.cc:110-150 | the sizes visited run from 8 by their alignments to the largest size; each joins the class before it exactly if that has the same pages and object count, and its class keeps its own page count and object count; the table is increasing and aligned |
| SizeTables.VisitedMerged | MBT_JavaRefactoring_Proj/src/PrecisionTest/TProfile/tprofiler/tprofiler-src/src/common.cc:133-144 | a merged size continues the visit in the same class |
| SizeTables.VisitedExtended | MBT_JavaRefactoring_Proj/src/PrecisionTest/TProfile/tprofiler/tprofiler-src/src/common.cc:146-150 | a size that does not merge continues it with the next class |
| SizeTables.TableUnique | MBT_JavaRefactoring_Proj/src/PrecisionTest/TProfile/tprofiler/tprofiler-src/src/common.cc:110-150 | the page size alone determines the class sizes and their pages |
| SizeTables.ComputedOnce | MBT_JavaRefactoring_Proj/src/PrecisionTest/TProfile/tprofiler/tprofiler-src/src/common.cc:110-150 | so what the initialization leaves in the tables is determined |
| SizeTables.TopOf | MBT_JavaRefactoring_Proj/src/PrecisionTest/TProfile/tprofiler/tprofiler-src/src/common.h:172-178 | no aligned class size lies between a size and the top of its index |
| SizeTables.IndexOfTop | MBT_JavaRefactoring_Proj/src/PrecisionTest/TProfile/tprofiler/tprofiler-src/src/common.h:172-178 | the top of an index has that index |
| SizeTables.SameClass | MBT_JavaRefactoring_Proj/src/PrecisionTest/TProfile/tprofiler/tprofiler-src/src/common.h:172-178 | one table entry serves all sizes with its index |
| SizeTables.FillStep | MBT_JavaRefactoring_Proj/src/PrecisionTest/TProfile/tprofiler/tprofiler-src/src/common.cc:158-164 | one write of the fill loop |
| SizeTables.Fill | MBT_JavaRefactoring_Proj/src/PrecisionTest/TProfile/tprofiler/tprofiler-src/src/common.cc:156-164 | for every increasing, aligned class table the fill loop makes the lookup give the least class that fits |
| SizeTables.SizeFilled | MBT_JavaRefactoring_Proj/src/PrecisionTest/TProfile/tprofiler/tprofiler-src/src/common.cc:167-182 | so the double-checks of the source never fail |
| SizeCounts.VisitStep | MBT_JavaRefactoring_Proj/src/PrecisionTest/TProfile/tprofiler/tprofiler-src/src/common.cc:110-150 | one step of the visit of all sizes: the next size, its pages and its class, given by arithmetic alone |
| SizeCounts.SmallCount | MBT_JavaRefactoring_Proj/src/PrecisionTest/TProfile/tprofiler/tprofiler-src/src/common.cc:110-150 | 86 classes for pages of 8192 bytes |
| SizeCounts.LargeCount | MBT_JavaRefactoring_Proj/src/PrecisionTest/TProfile/tprofiler/tprofiler-src/src/common.cc:110-150 | 78 classes for pages of 32768 bytes |
| SizeCounts.ClassCount | MBT_JavaRefactoring_Proj/src/PrecisionTest/TProfile/tprofiler/tprofiler-src/src/common.h:63-70 | so the number of classes is always the one the allocator is built with |
| SizeClasses.SizeMap.constructor | MBT_JavaRefactoring_Proj/src/PrecisionTest/TProfile/tprofiler/tprofiler-src/src/common.h:190-192 | tables not filled yet |
| SizeClasses.SizeMap.SizeClass | MBT_JavaRefactoring_Proj/src/PrecisionTest/TProfile/tprofiler/tprofiler-src/src/common.h:197-199 | the least class that holds the size |
| SizeClasses.SizeMap.Init | MBT_JavaRefactoring_Proj/src/PrecisionTest/TProfile/tprofiler/tprofiler-src/src/common.cc:99-188 | for both page sizes: never stops with a wrong number of classes; the class tables are the ones determined by the page size, every size gets its least class, and the transfer counts are right |
| CentralLists.FetchKeeps | MBT_JavaRefactoring_Proj/src/PrecisionTest/TProfile/tprofiler/tprofiler-src/src/central_freelist.cc:291-307 | taking an object keeps spans on the right list and all counters exact |
| CentralLists.ReleaseKeeps | MBT_JavaRefactoring_Proj/src/PrecisionTest/TProfile/tprofiler/tprofiler-src/src/central_freelist.cc:103-148 | so does returning one, whether the span stays or leaves |
| CentralLists.AddKeeps | MBT_JavaRefactoring_Proj/src/PrecisionTest/TProfile/tprofiler/tprofiler-src/src/central_freelist.cc:354-356 | so does adding a carved span |
| CentralLists.FreeTotalSet | MBT_JavaRefactoring_Proj/src/PrecisionTest/TProfile/tprofiler/tprofiler-src/src/central_freelist.cc:128-133 | the free total changes by the change of one span |
| CentralThreads.Config.ObjectPage | MBT_JavaRefactoring_Proj/src/PrecisionTest/TProfile/tprofiler/tprofiler-src/src/central_freelist.cc:97-101 | an object lies within the pages of its span, so the page map finds it |
| CentralThreads.Config.ObjectsDistinct | MBT_JavaRefactoring_Proj/src/PrecisionTest/TProfile/tprofiler/tprofiler-src/src/central_freelist.cc:335-347 | the objects of a span are distinct |
| CentralInvariant.Transfer | MBT_JavaRefactoring_Proj/src/PrecisionTest/TProfile/tprofiler/tprofiler-src/src/central_freelist.cc:230-307 | objects that move between two places leave every other place as it was, and each is still at exactly one |
| CentralInvariant.Local | MBT_JavaRefactoring_Proj/src/PrecisionTest/TProfile/tprofiler/tprofiler-src/src/central_freelist.cc:103-307 | a step that changes one list and one thread keeps the invariant |
| CentralInvariant.AcquireKeeps | MBT_JavaRefactoring_Proj/src/PrecisionTest/TProfile/tprofiler/tprofiler-src/src/central_freelist.cc:188-197 | taking a free lock keeps the invariant |
| CentralInvariant.CallKeeps | MBT_JavaRefactoring_Proj/src/PrecisionTest/TProfile/tprofiler/tprofiler-src/src/central_freelist.cc:230-247 | so does the start of a call with objects its caller owns |
| CentralInvariant.TryCacheKeeps | MBT_JavaRefactoring_Proj/src/PrecisionTest/TProfile/tprofiler/tprofiler-src/src/central_freelist.cc:230-243 | so does the test for cache space and the insertion into a slot |
| CentralInvariant.PickVictimKeeps | MBT_JavaRefactoring_Proj/src/PrecisionTest/TProfile/tprofiler/tprofiler-src/src/central_freelist.cc:150-164 | so does picking a class to evict from, whatever the unlocked reads return |
| CentralInvariant.ShrinkKeeps | MBT_JavaRefactoring_Proj/src/PrecisionTest/TProfile/tprofiler/tprofiler-src/src/central_freelist.cc:202-228 | so does giving up a cache slot |
| CentralInvariant.EvictLastKeeps | MBT_JavaRefactoring_Proj/src/PrecisionTest/TProfile/tprofiler/tprofiler-src/src/central_freelist.cc:217-225 | so does forcing out the last cached chain |
| CentralInvariant.BackKeeps | MBT_JavaRefactoring_Proj/src/PrecisionTest/TProfile/tprofiler/tprofiler-src/src/central_freelist.cc:172-185 | so does the return with or without a slot after the lock was dropped |
| CentralInvariant.ReleasedKeeps | MBT_JavaRefactoring_Proj/src/PrecisionTest/TProfile/tprofiler/tprofiler-src/src/central_freelist.cc:81-87 | so does the end of a release |
| CentralInvariant.TakeCachedKeeps | MBT_JavaRefactoring_Proj/src/PrecisionTest/TProfile/tprofiler/tprofiler-src/src/central_freelist.cc:247-257 | so does taking a cached chain |
| CentralSpans.FetchOneKeeps | MBT_JavaRefactoring_Proj/src/PrecisionTest/TProfile/tprofiler/tprofiler-src/src/central_freelist.cc:264-307 | so does fetching one object for a removal |
| CentralSpans.ChainObject | MBT_JavaRefactoring_Proj/src/PrecisionTest/TProfile/tprofiler/tprofiler-src/src/central_freelist.cc:97-106 | the span found for an object in a thread's chain is on the list and owns it |
| CentralSpans.ObjectOut | MBT_JavaRefactoring_Proj/src/PrecisionTest/TProfile/tprofiler/tprofiler-src/src/central_freelist.cc:106-130 | a span with an object out has a positive reference count; when the last comes back all its objects are there |
| CentralSpans.ReturnKeeps | MBT_JavaRefactoring_Proj/src/PrecisionTest/TProfile/tprofiler/tprofiler-src/src/central_freelist.cc:144-147 | so does returning an object to a span that stays |
| CentralSpans.LeaveKeeps | MBT_JavaRefactoring_Proj/src/PrecisionTest/TProfile/tprofiler/tprofiler-src/src/central_freelist.cc:130-138 | so does the span leaving the list before the lock is dropped |
| CentralSpans.FreeOneKeeps | MBT_JavaRefactoring_Proj/src/PrecisionTest/TProfile/tprofiler/tprofiler-src/src/central_freelist.cc:103-148 | so does releasing any one object |
| CentralSpans.DeleteKeeps | MBT_JavaRefactoring_Proj/src/PrecisionTest/TProfile/tprofiler/tprofiler-src/src/central_freelist.cc:139-143 | so does giving the span back to the page heap, with exactly its own objects |
| CentralRuns.NewSpanKeeps | MBT_JavaRefactoring_Proj/src/PrecisionTest/TProfile/tprofiler/tprofiler-src/src/central_freelist.cc:312-333 | so does a fresh span from the page heap: its objects are new |
| CentralRuns.AddSpanKeeps | MBT_JavaRefactoring_Proj/src/PrecisionTest/TProfile/tprofiler/tprofiler-src/src/central_freelist.cc:352-356 | so does the carved span joining the list after the lock is retaken |
| CentralRuns.NextKeeps | MBT_JavaRefactoring_Proj/src/PrecisionTest/TProfile/tprofiler/tprofiler-src/src/central_freelist.cc:81-357 | every step of every thread keeps the invariant; no assertion of the source fails |
| CentralProperties.InitialInv | MBT_JavaRefactoring_Proj/src/PrecisionTest/TProfile/tprofiler/tprofiler-src/src/central_freelist.cc:46-79 | the initial lists and cache limits satisfy the invariant |
| CentralProperties.RunKeeps | MBT_JavaRefactoring_Proj/src/PrecisionTest/TProfile/tprofiler/tprofiler-src/src/central_freelist.cc:81-357 | the invariant holds along every interleaving |
| CentralProperties.EachObjectOnce | MBT_JavaRefactoring_Proj/src/PrecisionTest/TProfile/tprofiler/tprofiler-src/src/central_freelist.cc:230-307 | conservation: every object of a live span is with the callers or at exactly one place, once, and nothing else is anywhere |
| CentralProperties.Accounts | MBT_JavaRefactoring_Proj/src/PrecisionTest/TProfile/tprofiler/tprofiler-src/src/central_freelist.cc:103-148 | at every step: in-use plus free objects make up each span, a span is on the empty list exactly if it has none free, both counters are right, and 0 <= used slots <= cache size <= maximum |
| CentralProperties.OneLock | MBT_JavaRefactoring_Proj/src/PrecisionTest/TProfile/tprofiler/tprofiler-src/src/central_freelist.cc:188-197 | no thread ever holds two locks, counting the page-heap lock |
| CentralProperties.Progress | MBT_JavaRefactoring_Proj/src/PrecisionTest/TProfile/tprofiler/tprofiler-src/src/central_freelist.cc:188-228 | as long as a thread is in a call, some such thread can take a step |
| CentralProperties.SlotsChange | MBT_JavaRefactoring_Proj/src/PrecisionTest/TProfile/tprofiler/tprofiler-src/src/central_freelist.cc:166-228 | what one step does to the sum of cache sizes and stolen slots |
| CentralProperties.SlotsNeverGrow | MBT_JavaRefactoring_Proj/src/PrecisionTest/TProfile/tprofiler/tprofiler-src/src/central_freelist.cc:166-228 | that sum never grows; it drops by one only when the class it was stolen for is full by then |
| CentralProperties.SlotsBounded | MBT_JavaRefactoring_Proj/src/PrecisionTest/TProfile/tprofiler/tprofiler-src/src/central_freelist.cc:166-228 | over any run it never exceeds the initial sum |
| CentralProperties.RemovalDelivers | MBT_JavaRefactoring_Proj/src/PrecisionTest/TProfile/tprofiler/tprofiler-src/src/central_freelist.cc:245-280 | a removal hands over distinct objects of the class, as many as asked for unless the list has none left: the last cached chain, or what it fetched; none at all only after it has been to the page heap |
| CentralDelivery.InsertStep | MBT_JavaRefactoring_Proj/src/PrecisionTest/TProfile/tprofiler/tprofiler-src/src/central_freelist.cc:81-243 | a step of an insertion keeps an object of its chain in the thread's hands, or puts it into a cache slot with its chain, or in front of the free objects of its own span, or gives it back with its whole span |
| CentralDelivery.InsertionDelivers | MBT_JavaRefactoring_Proj/src/PrecisionTest/TProfile/tprofiler/tprofiler-src/src/central_freelist.cc:81-243 | over any interleaving: every object of an inserted chain is put in one of these places before the call returns |
| CentralDelivery.OthersStay | MBT_JavaRefactoring_Proj/src/PrecisionTest/TProfile/tprofiler/tprofiler-src/src/central_freelist.cc:81-357 | a step leaves the positions of other threads alone |
| CentralDelivery.OutStays | MBT_JavaRefactoring_Proj/src/PrecisionTest/TProfile/tprofiler/tprofiler-src/src/central_freelist.cc:81-357 | no step touches an object that is with the callers or in the hands of another thread, except the call that inserts it |
| CentralDelivery.HandedOutStays | MBT_JavaRefactoring_Proj/src/PrecisionTest/TProfile/tprofiler/tprofiler-src/src/central_freelist.cc:81-357 | over any interleaving: an object handed out stays with the callers until a call inserts it |
| CentralRefusals.EmptyRemovalRefused | MBT_JavaRefactoring_Proj/src/PrecisionTest/TProfile/tprofiler/tprofiler-src/src/central_freelist.cc:245-289 | over any run: a removal that ends with no object was refused a span by the page heap, at a step of the same call, and the list has nothing to fetch at its end |
| CentralRefusals.SinceRefusal | MBT_JavaRefactoring_Proj/src/PrecisionTest/TProfile/tprofiler/tprofiler-src/src/central_freelist.cc:282-357 | over any run: a thread on its way back with nothing to fetch was refused at a step of its own, and has been so ever since |
| CentralRefusals.RefusedBefore | MBT_JavaRefactoring_Proj/src/PrecisionTest/TProfile/tprofiler/tprofiler-src/src/central_freelist.cc:282-357 | no step of another thread, and no other step of its own, brings a thread there |
| CentralRefusals.HeldListStays | MBT_JavaRefactoring_Proj/src/PrecisionTest/TProfile/tprofiler/tprofiler-src/src/central_freelist.cc:188-200 | a step of another thread leaves the list of a held lock alone |
| CentralRefusals.CacheFirst | MBT_JavaRefactoring_Proj/src/PrecisionTest/TProfile/tprofiler/tprofiler-src/src/central_freelist.cc:230-256 | a removal takes a cached chain exactly if it wants a full transfer and one is cached; an insertion fills a free slot exactly with a full transfer, and looks for a slot elsewhere exactly if its cache is full and may grow |
| CentralRefusals.AsksPicked | MBT_JavaRefactoring_Proj/src/PrecisionTest/TProfile/tprofiler/tprofiler-src/src/central_freelist.cc:150-176 | a class picked for an eviction is asked unless it is the own one or looks unsuitable; then comes a second try with force, and then none |
| CentralRefusals.SlotGiven | MBT_JavaRefactoring_Proj/src/PrecisionTest/TProfile/tprofiler/tprofiler-src/src/central_freelist.cc:202-228 | the class asked gives up a slot exactly if it has one, and an unused one unless forced |
| CentralRefusals.SlotTaken | MBT_JavaRefactoring_Proj/src/PrecisionTest/TProfile/tprofiler/tprofiler-src/src/central_freelist.cc:172-186 | the class that asked takes the slot, and puts its chain there, exactly if it got one and may still grow |
| CentralChains.Links | MBT_JavaRefactoring_Proj/src/PrecisionTest/TProfile/tprofiler/tprofiler-src/src/central_freelist.cc:337-349 | links from each object to the next make a chain |
| CentralChains.ChainFrame | MBT_JavaRefactoring_Proj/src/PrecisionTest/TProfile/tprofiler/tprofiler-src/src/linked_list.h:47-54 | writing the word of an object on no chain leaves chains alone |
| CentralChains.ChainStays | MBT_JavaRefactoring_Proj/src/PrecisionTest/TProfile/tprofiler/tprofiler-src/src/linked_list.h:47-54 | so does any rewriting of words of other objects |
| CentralChains.CarvedObjects | MBT_JavaRefactoring_Proj/src/PrecisionTest/TProfile/tprofiler/tprofiler-src/src/central_freelist.cc:335-347 | the carved objects are those the thread model gives the span |
| CentralChains.CarvedApart | MBT_JavaRefactoring_Proj/src/PrecisionTest/TProfile/tprofiler/tprofiler-src/src/central_freelist.cc:337-349 | carved objects start at the first byte, follow each other without overlap, and leave less than one object of the bytes |
| CentralReturns.InUse | MBT_JavaRefactoring_Proj/src/PrecisionTest/TProfile/tprofiler/tprofiler-src/src/central_freelist.cc:97-106 | an object of the list's spans that is on no list is counted by its span; if it is the last one, all others are on the free list |
| CentralReturns.ReleaseAllIs | MBT_JavaRefactoring_Proj/src/PrecisionTest/TProfile/tprofiler/tprofiler-src/src/central_freelist.cc:81-148 | what returning a chain does: the objects of each span come to the front of its free list, the last one first; spans that get back all objects leave, exactly those; slots and all other spans are unchanged |
| CentralReturns.BackMember | MBT_JavaRefactoring_Proj/src/PrecisionTest/TProfile/tprofiler/tprofiler-src/src/central_freelist.cc:81-101 | each object of the chain comes back to the span of its page, and only there |
| CentralReturns.OwnedReleasable | MBT_JavaRefactoring_Proj/src/PrecisionTest/TProfile/tprofiler/tprofiler-src/src/central_freelist.cc:81-106 | any chain of different objects of the list's spans that are on no list can be returned |
| CentralReturns.LeaveOwn | MBT_JavaRefactoring_Proj/src/PrecisionTest/TProfile/tprofiler/tprofiler-src/src/central_freelist.cc:128-143 | when a span leaves, no other object in use loses its span |
| CentralReturns.AddOwn | MBT_JavaRefactoring_Proj/src/PrecisionTest/TProfile/tprofiler/tprofiler-src/src/central_freelist.cc:319-356 | a span on unused pages brings new objects only |
| CentralSupply.FetchIfCounted | MBT_JavaRefactoring_Proj/src/PrecisionTest/TProfile/tprofiler/tprofiler-src/src/central_freelist.cc:291-307 | there is an object to fetch exactly if the counter is positive |
| CentralSupply.FetchCount | MBT_JavaRefactoring_Proj/src/PrecisionTest/TProfile/tprofiler/tprofiler-src/src/central_freelist.cc:258-273 | fetching delivers as many objects as are wanted, or all there are, and the counter falls by that number |
| CentralSupply.FetchedFrom | MBT_JavaRefactoring_Proj/src/PrecisionTest/TProfile/tprofiler/tprofiler-src/src/central_freelist.cc:291-307 | what is fetched was on the free list of a span |
| CentralSupply.RemovalIs | MBT_JavaRefactoring_Proj/src/PrecisionTest/TProfile/tprofiler/tprofiler-src/src/central_freelist.cc:245-289 | what a removal gets, on values: a cached chain, the free objects up to the number wanted, or those of a span from the page heap when there is none |
| CentralSupply.StoreRemovalIs | MBT_JavaRefactoring_Proj/src/PrecisionTest/TProfile/tprofiler/tprofiler-src/src/central_freelist.cc:245-289 | the same for a list in memory |
| CentralSupply.ReleaseAllCounts | MBT_JavaRefactoring_Proj/src/PrecisionTest/TProfile/tprofiler/tprofiler-src/src/central_freelist.cc:81-148 | returning a chain adds its objects to the counter and takes off those of the spans that leave |
| CentralSupply.MostTransfers | MBT_JavaRefactoring_Proj/src/PrecisionTest/TProfile/tprofiler/tprofiler-src/src/central_freelist.cc:61-76 | the limit of a cache is the most transfers, up to 64, that fit one megabyte, and at least one |
| CentralStores.ReturnSound | MBT_JavaRefactoring_Proj/src/PrecisionTest/TProfile/tprofiler/tprofiler-src/src/central_freelist.cc:103-148 | returning any object in use keeps memory and list in step; all other objects in use stay so |
| CentralStores.FetchSound | MBT_JavaRefactoring_Proj/src/PrecisionTest/TProfile/tprofiler/tprofiler-src/src/central_freelist.cc:291-307 | so does fetching |
| CentralStores.AddSound | MBT_JavaRefactoring_Proj/src/PrecisionTest/TProfile/tprofiler/tprofiler-src/src/central_freelist.cc:319-356 | so does a new span |
| CentralStores.ChainReleasable | MBT_JavaRefactoring_Proj/src/PrecisionTest/TProfile/tprofiler/tprofiler-src/src/central_freelist.cc:81-106 | so a removed chain can be inserted again at any time |
| CentralClients.ClientChain | MBT_JavaRefactoring_Proj/src/PrecisionTest/TProfile/tprofiler/tprofiler-src/src/central_freelist.cc:230-289 | a chain that a caller holds is a chain after every operation of others |
| CentralClients.KeptThen | MBT_JavaRefactoring_Proj/src/PrecisionTest/TProfile/tprofiler/tprofiler-src/src/central_freelist.cc:230-289 | what one operation and then another leave with the callers, both together do |
| CentralFreeLists.CentralFreeList.constructor | MBT_JavaRefactoring_Proj/src/PrecisionTest/TProfile/tprofiler/tprofiler-src/src/central_freelist.cc:46-79 | an empty list in order; its cache may hold the most transfers, up to 64, that fit one megabyte, and at least one, and starts with at most 16 |
| CentralFreeLists.CentralFreeList.FetchFromSpans | MBT_JavaRefactoring_Proj/src/PrecisionTest/TProfile/tprofiler/tprofiler-src/src/central_freelist.cc:291-307 | on memory: the first free object of the first span with one, null exactly if there is none |
| CentralFreeLists.CentralFreeList.ReleaseToSpans | MBT_JavaRefactoring_Proj/src/PrecisionTest/TProfile/tprofiler/tprofiler-src/src/central_freelist.cc:103-148 | on memory, with the span found by its page: one word written, the span moves or leaves as on values; true exactly if it leaves; all that callers hold is untouched |
| CentralFreeLists.CentralFreeList.TouchSpan | MBT_JavaRefactoring_Proj/src/PrecisionTest/TProfile/tprofiler/tprofiler-src/src/central_freelist.cc:107-127 | a span that gets its first free object moves to the front; the counter grows |
| CentralFreeLists.CentralFreeList.DropSpan | MBT_JavaRefactoring_Proj/src/PrecisionTest/TProfile/tprofiler/tprofiler-src/src/central_freelist.cc:130-143 | a span without objects in use leaves list, counters and page map |
| CentralFreeLists.CentralFreeList.PrependObject | MBT_JavaRefactoring_Proj/src/PrecisionTest/TProfile/tprofiler/tprofiler-src/src/central_freelist.cc:144-147 | the object is linked in front of its span |
| CentralFreeLists.CentralFreeList.ReleaseListToSpans | MBT_JavaRefactoring_Proj/src/PrecisionTest/TProfile/tprofiler/tprofiler-src/src/central_freelist.cc:81-87 | releases every object of a chain in order, though each release overwrites its link; other callers' chains are untouched |
| CentralFreeLists.CentralFreeList.SetNext | MBT_JavaRefactoring_Proj/src/PrecisionTest/TProfile/tprofiler/tprofiler-src/src/linked_list.h:47-49 | writing the link of an object on no list disturbs no list |
| CentralFreeLists.CentralFreeList.PushSlot | MBT_JavaRefactoring_Proj/src/PrecisionTest/TProfile/tprofiler/tprofiler-src/src/central_freelist.cc:234-239 | the chain becomes the last cached one |
| CentralFreeLists.CentralFreeList.PopSlot | MBT_JavaRefactoring_Proj/src/PrecisionTest/TProfile/tprofiler/tprofiler-src/src/central_freelist.cc:250-254 | the last cached chain comes out complete, with its end |
| CentralFreeLists.CentralFreeList.FetchMore | MBT_JavaRefactoring_Proj/src/PrecisionTest/TProfile/tprofiler/tprofiler-src/src/central_freelist.cc:268-272 | fetches to the front of the chain until enough or none is left |
| CentralFreeLists.CentralFreeList.FetchNext | MBT_JavaRefactoring_Proj/src/PrecisionTest/TProfile/tprofiler/tprofiler-src/src/central_freelist.cc:269-271 | one turn of that loop |
| CentralFreeLists.CentralFreeList.FetchRange | MBT_JavaRefactoring_Proj/src/PrecisionTest/TProfile/tprofiler/tprofiler-src/src/central_freelist.cc:258-273 | the first object, then more, as a null-terminated chain of objects that were on the free lists |
| CentralFreeLists.CentralFreeList.RemoveRange | MBT_JavaRefactoring_Proj/src/PrecisionTest/TProfile/tprofiler/tprofiler-src/src/central_freelist.cc:245-289 | returns a null-terminated chain of exactly that many distinct objects, ending at the given end, on no list any more and not held by another caller: the last cached chain if a full transfer is wanted and there is one; else as many objects as wanted or as the counter says; and exactly if that is zero the span from the page heap is added and the chain has its objects, as many as wanted or all; what other callers hold is untouched |
| CentralFreeLists.CentralFreeList.MakeCacheSpace | MBT_JavaRefactoring_Proj/src/PrecisionTest/TProfile/tprofiler/tprofiler-src/src/central_freelist.cc:166-186 | space exactly if a slot is free, or the cache may grow and one of the two lists tried has a slot that is free or, at the second, forced; then the cache grows by one if it had no free slot; exactly that list shrinks |
| CentralFreeLists.CentralFreeList.EvictOne | MBT_JavaRefactoring_Proj/src/PrecisionTest/TProfile/tprofiler/tprofiler-src/src/central_freelist.cc:150-164 | the first list gives up a slot without force, else the second with force; the other is unchanged |
| CentralFreeLists.CentralFreeList.EvictFrom | MBT_JavaRefactoring_Proj/src/PrecisionTest/TProfile/tprofiler/tprofiler-src/src/central_freelist.cc:162-163 | nothing from the list itself |
| CentralFreeLists.CentralFreeList.InsertRange | MBT_JavaRefactoring_Proj/src/PrecisionTest/TProfile/tprofiler/tprofiler-src/src/central_freelist.cc:230-243 | a full transfer goes into the cache if there is or can be made space, and the counters stay; otherwise each object goes back to its span, the counter grows by their number and falls by the objects of the spans that leave; what other callers hold, here and in the lists tried, is untouched |
| CentralFreeLists.CentralFreeList.PlaceChain | MBT_JavaRefactoring_Proj/src/PrecisionTest/TProfile/tprofiler/tprofiler-src/src/central_freelist.cc:230-243 | the chain is the last cached one, with both its ends, or all its objects are back at their spans |
| CentralFreeLists.InsertedIs | MBT_JavaRefactoring_Proj/src/PrecisionTest/TProfile/tprofiler/tprofiler-src/src/central_freelist.cc:230-243 | what an insertion does to the list, case by case |
| CentralFreeLists.CentralFreeList.ShrinkCache | MBT_JavaRefactoring_Proj/src/PrecisionTest/TProfile/tprofiler/tprofiler-src/src/central_freelist.cc:202-228 | gives up a slot exactly if there is one, and an unused one unless forced; the cache size falls by one; the objects of a forced chain go back to their spans, and otherwise nothing else changes |
| CentralFreeLists.CentralFreeList.EvictLast | MBT_JavaRefactoring_Proj/src/PrecisionTest/TProfile/tprofiler/tprofiler-src/src/central_freelist.cc:217-225 | the last slot goes, its chain returned object by object |
| CentralFreeLists.CentralFreeList.Carve | MBT_JavaRefactoring_Proj/src/PrecisionTest/TProfile/tprofiler/tprofiler-src/src/central_freelist.cc:337-349 | splits a span into as many linked objects as fit, one right after the other, null-terminated |
| CentralFreeLists.CentralFreeList.Populate | MBT_JavaRefactoring_Proj/src/PrecisionTest/TProfile/tprofiler/tprofiler-src/src/central_freelist.cc:319-357 | the carved span joins the list and the page map with all objects free; without a span nothing changes |
| CentralFreeLists.CentralFreeList.TwoCallers | MBT_JavaRefactoring_Proj/src/PrecisionTest/TProfile/tprofiler/tprofiler-src/src/central_freelist.cc:230-289 | two callers take a chain each and the first returns its own: the second chain is untouched and shares no object with it |

## Left out

Path search:

- Inheritance is composition: each algorithm object has an `MPathAlgo` object.
- The iteration order of Java's hash sets is any order; methods that loop over start states return
  the order they took.
- PathAlgo.MPathAlgo.Init: the route list is not resolved; only `MPathAlgoCovRoute` reads it.
- The search inside `MPathAlgoCovLeast` is the one of `MPathAlgoCovAll` and is not repeated; what
  is modelled of it starts where the reports are there.
- `MPathAlgoCovShort`, `MPathAlgoCovRepeat`, `MPathAlgoCovRoute` and `MPathAlgoMag`: variants of
  the same search and filters.
- Splitting a value text into a list and converting values by type are inputs of `DataDiscards`;
  a null parameter list is an empty one, and the rows handed out are not the object that a later
  call empties.
- `MDataAlgoAlign` zips value lists.
- XML, JSON, logging, views, report generation.

Allocator:

- Memory is maps from addresses to records or words and allocation never fails: no casts, no
  alignment of fields; new records get addresses from a counter. The destructors are not modelled.
- Bit operations on addresses are division and remainder; only the hash of a stack trace is
  computed on bit vectors.
- Statistics and byte counts are unbounded integers.
- HeapProfiles.HeapProfileTable.NonLiveSnapshot: a snapshot's own address map is a plain map, and so is the base
  it is compared with.
- HeapLeakCheckers.HeapLeakChecker.IgnoreLiveObjectsLocked: memory does not change during the marking, roots are given with
  their recorded sizes, and the branch that skips unreadable pages without frame pointers is not
  modelled.
- HeapLeakCheckers.HeapLeakChecker.LeakCheck: the roots from globals, stacks and thread data are an input, and objects
  disabled by the address of their caller are not modelled.
- HeapLeakCheckers.HeapLeakChecker.NewHook: the caller's stack trace and the thread's disable counter are inputs.
- LeakRegions.LiveRegions.SubtractRegions: the regions and caller ranges are inputs that do not change meanwhile,
  and ranges are taken to be proper and separate.
- LeakRegions.LiveRegions.RegisterStackLocked: finding the memory region of a stack is an input; the set of stack tops
  kept for later and the error message are not modelled.
- The rest of the leak checker: process maps, thread suspension, flags, symbolizing, reports; sampling
  and mmap profiles of the profile table.
- Debugging allocator: the entry overhead is the constant 144 named in the source's comment;
  poisoning, the check for dangling writes, magic words and alignment of returned blocks are left
  out, and only one thread at a time runs a step.
- CentralThreads models a page heap that hands out a span overlapping none in use, or fails; the
  page heap itself, the span lists as linked structures, the spin locks and the size-class cache of
  pages are left out. A span is named by its first page.
- The early reads without a lock in the eviction may return anything; a removal fetches one object
  per step with the lock held.
- CentralFreeLists.CentralFreeList.RemoveRange: the class runs without other threads, and the span from the page
  heap is an input; each list has the words of its own objects and its own part of the page map.
- CentralFreeLists.CentralFreeList.InsertRange: which two lists the shared counter picks for eviction are inputs; what
  other threads do while the lock is dropped is in the thread model.
- Statistics of the central lists (`length`, `tc_length`, `OverheadBytes`) and the range operations
  of `linked_list.h` that these lists do not use.
