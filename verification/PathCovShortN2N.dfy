/** The state-to-state search for shortest paths. */
module PathCovShortN2N {
  import opened Graph
  import opened Walks
  import opened PathAlgo
  import opened Ranking
  import PathCovAll

  class MPathAlgoCovShortN2N {
    const algo: MPathAlgo
    var stateDistList: seq<int>
    var minDistList: seq<int>
    var tmpStatePathLists: seq<seq<nat>>
    var tmpEdgePathLists: seq<seq<nat>>
    var tmpStepPathLists: seq<seq<int>>

    constructor (a: MPathAlgo)
      ensures algo == a && Idle() && Tmp() == [] && |minDistList| == 0
    {
      algo := a;
      stateDistList, minDistList := [], [];
      tmpStatePathLists, tmpEdgePathLists, tmpStepPathLists := [], [], [];
    }

    ghost predicate TmpParallel()
      reads this
    {
      |tmpStatePathLists| == |tmpEdgePathLists| == |tmpStepPathLists|
    }

    ghost function Tmp(): seq<Path>
      requires TmpParallel()
      reads this
    {
      Zip(tmpStatePathLists, tmpEdgePathLists, tmpStepPathLists)
    }

    /** Between calls: no position is recorded and every temporary path ends in a state
        the table covers. */
    ghost predicate Idle()
      reads this
    {
      && TmpParallel() && |stateDistList| == |minDistList| && Ends(Tmp(), |minDistList|)
      && forall v :: 0 <= v < |stateDistList| ==> stateDistList[v] == NoDist(Shortest)
    }

    /** What `stateDistList` holds during a search: a position below the
        current one for the states entered on the current path, the maximum for all others. */
    static ghost predicate DistOk(dist: seq<int>, p: Path) {
      && p.states != []
      && forall v :: 0 <= v < |dist| ==>
           if v in p.states[1..] then dist[v] < |p.states| else dist[v] == MAX_PATH_DIST
    }

    /** `curDistance >= curPos` holds exactly for the states the mode does not skip. */
    static lemma DistTest(dist: seq<int>, p: Path, v: nat)
      requires DistOk(dist, p) && v < |dist|
      ensures dist[v] >= |p.states| <==> !Skips(Pruned, p, v)
    {
    }

    static lemma DistStep(dist: seq<int>, p: Path, q: Path, v: nat)
      requires DistOk(dist, p) && v < |dist| && q.states == p.states + [v]
      ensures DistOk(dist[v := |p.states|], q)
    {
      assert q.states[1..] == p.states[1..] + [v];
    }

    /** The search stands at path `p`, with `dist` recorded and budgets `b` left. */
    ghost predicate At(net: Net, b: Budgets, p: Path, dist: seq<int>)
      reads this, algo, algo.graph
    {
      PathCovAll.At(algo, net, b, p) && TmpParallel() && stateDistList == dist && |dist| == |minDistList|
    }

    /** What every search step needs of the values it stands at. */
    static ghost predicate Ready(net: Net, b: Budgets, p: Path, dist: seq<int>) {
      Open(net, b, p) && |net.to| <= |dist| && DistOk(dist, p)
    }

    /** Tests the current path against the table entry of its end state. */
    method RecordCurrent()
      requires TmpParallel() && algo.statePath != [] && Last(algo.Current()) < |minDistList|
      modifies this`minDistList, this`tmpStatePathLists, this`tmpEdgePathLists, this`tmpStepPathLists
      ensures TmpParallel() && |minDistList| == old(|minDistList|)
      ensures (minDistList, Tmp()) == Record(Shortest, old(minDistList), old(Tmp()), [algo.Current()])
    {
      var end := algo.statePath[|algo.statePath| - 1];
      if minDistList[end] >= |algo.statePath| {
        minDistList := minDistList[end := |algo.statePath|];
        tmpStatePathLists := tmpStatePathLists + [algo.statePath];
        tmpEdgePathLists := tmpEdgePathLists + [algo.edgePath];
        tmpStepPathLists := tmpStepPathLists + [algo.stepPath];
        assert Tmp() == old(Tmp()) + [algo.Current()];
      }
    }

    /** Records every visited path and restores budgets, positions and path stacks. */
    method Dfs(curState: nat, curPos: nat, ghost net: Net, ghost b: Budgets, ghost p: Path, ghost dist: seq<int>)
      requires At(net, b, p, dist) && Ready(net, b, p, dist) && curPos == |p.states| && curState == Last(p)
      modifies algo`statePath, algo`edgePath, algo`stepPath, algo.graph`edgeRepeatTimeList, this
      ensures At(net, b, p, dist)
      ensures (minDistList, Tmp()) == RecordVisit(Shortest, Pruned, net, b, algo.stopStateNumSet, p, old(minDistList), old(Tmp()))
      decreases Total(b), 3
    {
      var neighbours := algo.graph.edgeList[curState];
      if algo.statePath[curPos - 1] in algo.stopStateNumSet
         || (0 == |neighbours| && 0 == |algo.stopStateNumSet|)
      {
        RecordCurrent();
        return;
      }
      if 0 == |neighbours| {
        assert Visit(net, b, algo.stopStateNumSet, Pruned, p) == [];
        return;
      }
      var hasOkNeighbour := Explore(curState, curPos, net, b, p, dist);
      if !hasOkNeighbour && 0 == |algo.stopStateNumSet| {
        PathCovAll.NoMoveNoBranch(net, b, algo.stopStateNumSet, Pruned, p, 0);
        RecordCurrent();
      }
    }

    /** The loop over the slots of the current state. */
    method Explore(curState: nat, curPos: nat, ghost net: Net, ghost b: Budgets, ghost p: Path, ghost dist: seq<int>)
      returns (hasOkNeighbour: bool)
      requires At(net, b, p, dist) && Ready(net, b, p, dist) && curPos == |p.states| && curState == Last(p)
      requires curState !in algo.stopStateNumSet
      modifies algo`statePath, algo`edgePath, algo`stepPath, algo.graph`edgeRepeatTimeList, this
      ensures At(net, b, p, dist) && (hasOkNeighbour <==> CanMove(b, curState, 0))
      ensures (minDistList, Tmp()) == RecordBranches(Shortest, Pruned, net, b, algo.stopStateNumSet, p, old(minDistList), old(Tmp()))
      decreases Total(b), 2
    {
      hide Visit, Branches;
      ghost var best0, tmp0, stop := minDistList, Tmp(), algo.stopStateNumSet;
      hasOkNeighbour := false;
      ghost var seen: seq<Path> := [];
      for i := 0 to |algo.graph.edgeList[curState]|
        invariant At(net, b, p, dist)
        invariant hasOkNeighbour <==> PathCovAll.MovedBelow(b, curState, i)
        invariant Branches(net, b, stop, Pruned, p, 0) == seen + Branches(net, b, stop, Pruned, p, i)
        invariant Ends(seen, |best0|) && (minDistList, Tmp()) == Record(Shortest, best0, tmp0, seen)
      {
        var ok;
        ok, seen := TrySlot(curState, curPos, i, net, b, p, dist, best0, tmp0, seen);
        hasOkNeighbour := hasOkNeighbour || ok;
      }
      PathCovAll.MovedIsCanMove(b, curState, |b[curState]|);
      PathCovAll.NoMoreBranches(net, b, stop, Pruned, p);
      assert seen + [] == seen;
    }

    /** The loop body for slot `i`: searches on if the slot has budget and the position
        test passes; `ok` tells whether the slot had budget. */
    method TrySlot(curState: nat, curPos: nat, i: nat, ghost net: Net, ghost b: Budgets, ghost p: Path, ghost dist: seq<int>,
                   ghost best0: seq<int>, ghost tmp0: seq<Path>, ghost seen: seq<Path>)
      returns (ok: bool, ghost seen': seq<Path>)
      requires At(net, b, p, dist) && Ready(net, b, p, dist) && curPos == |p.states| && curState == Last(p)
      requires net.HasSlot(curState, i) && |best0| == |dist|
      requires Ends(seen, |best0|) && (minDistList, Tmp()) == Record(Shortest, best0, tmp0, seen)
      modifies algo`statePath, algo`edgePath, algo`stepPath, algo.graph`edgeRepeatTimeList, this
      ensures At(net, b, p, dist) && (ok <==> b[curState][i] > 0)
      ensures Ends(seen', |best0|) && (minDistList, Tmp()) == Record(Shortest, best0, tmp0, seen')
      ensures seen + Branches(net, b, algo.stopStateNumSet, Pruned, p, i)
              == seen' + Branches(net, b, algo.stopStateNumSet, Pruned, p, i + 1)
      decreases Total(b), 1
    {
      var next := algo.graph.edgeList[curState][i];
      var leftTime := algo.graph.edgeRepeatTimeList[curState][i];
      var curDistance := stateDistList[next];
      DistTest(dist, p, next);
      PathCovAll.BranchStep(net, b, algo.stopStateNumSet, Pruned, p, i, seen);
      ok, seen' := false, seen;
      if leftTime > 0 && curDistance >= curPos {
        Descend(curState, curPos, i, leftTime, curDistance, net, b, p, dist);
        seen' := RecordStep(Shortest, Pruned, net, b, algo.stopStateNumSet, p, i, best0, tmp0, seen);
        ok := true;
      } else if leftTime > 0 && curDistance < curPos {
        ok := true;
      }
    }

    /** Takes slot `i`, searches on, and puts everything back. */
    method Descend(curState: nat, curPos: nat, i: nat, leftTime: nat, curDistance: int,
                   ghost net: Net, ghost b: Budgets, ghost p: Path, ghost dist: seq<int>)
      requires At(net, b, p, dist) && Ready(net, b, p, dist) && curPos == |p.states| && curState == Last(p)
      requires net.HasSlot(curState, i) && leftTime == b[curState][i] > 0 && curDistance == dist[net.to[curState][i]]
      modifies algo`statePath, algo`edgePath, algo`stepPath, algo.graph`edgeRepeatTimeList, this
      ensures At(net, b, p, dist)
      ensures (minDistList, Tmp()) == RecordVisit(Shortest, Pruned, net, Spend(b, curState, i), algo.stopStateNumSet, Extend(net, p, i),
                                                  old(minDistList), old(Tmp()))
      decreases Total(b), 0
    {
      hide Visit, RecordVisit, Spend, SetBudget, Total, DistOk;
      var graph := algo.graph;
      var next := graph.edgeList[curState][i];
      PathCovAll.OpenExtend(net, b, p, i);
      SpendRestore(b, curState, i);
      DistStep(dist, p, Extend(net, p, i), next);
      graph.edgeRepeatTimeList := SetBudget(graph.edgeRepeatTimeList, curState, i, leftTime - 1);
      algo.Push(curPos, next, graph.edgeNumberList[curState][i], graph.edgeStepList[curState][i]);
      stateDistList := stateDistList[next := curPos];
      Dfs(next, curPos + 1, net, Spend(b, curState, i), Extend(net, p, i), dist[next := curPos]);
      PathCovAll.ExtendPop(net, p, i);
      algo.Pop(curPos);
      stateDistList := stateDistList[next := curDistance];
      assert stateDistList == dist;
      graph.edgeRepeatTimeList := SetBudget(graph.edgeRepeatTimeList, curState, i, leftTime);
    }

    /** Deletes the temporary paths the table has seen beaten. */
    method DeleteLongPath()
      requires TmpParallel() && Ends(Tmp(), |minDistList|)
      modifies this`tmpStatePathLists, this`tmpEdgePathLists, this`tmpStepPathLists
      ensures TmpParallel() && Tmp() == Prune(Shortest, minDistList, old(Tmp())) && Ends(Tmp(), |minDistList|)
    {
      ghost var all := Tmp();
      var i := |tmpStatePathLists|;
      assert all[..i] + Prune(Shortest, minDistList, all[i..]) == all;
      while i > 0
        invariant TmpParallel() && 0 <= i <= |all|
        invariant Tmp() == all[..i] + Prune(Shortest, minDistList, all[i..])
      {
        i := i - 1;
        PruneStep(Shortest, minDistList, all, i);
        DeleteIfBeaten(i);
      }
      assert all[0..] == all;
      PruneEnds(Shortest, minDistList, all);
    }

    /** The body of the deletion loop. */
    method DeleteIfBeaten(i: nat)
      requires TmpParallel() && i < |Tmp()| && Tmp()[i].states != [] && Last(Tmp()[i]) < |minDistList|
      modifies this`tmpStatePathLists, this`tmpEdgePathLists, this`tmpStepPathLists
      ensures TmpParallel()
      ensures Tmp() == if Passes(Shortest, minDistList, old(Tmp()[i])) then old(Tmp()) else RemoveAt(old(Tmp()), i)
    {
      var pathLength := |tmpStatePathLists[i]|;
      assert Tmp()[i].states == tmpStatePathLists[i];
      ZipRemove(tmpStatePathLists, tmpEdgePathLists, tmpStepPathLists, i);
      var endStateNum := tmpStatePathLists[i][pathLength - 1];
      if minDistList[endStateNum] < pathLength {
        tmpStatePathLists := RemoveAt(tmpStatePathLists, i);
        tmpEdgePathLists := RemoveAt(tmpEdgePathLists, i);
        tmpStepPathLists := RemoveAt(tmpStepPathLists, i);
      }
    }

    /** Reports every temporary path; the temporary lists stay as they are. */
    method AddPathToMap()
      requires TmpParallel() && algo.Parallel()
      modifies algo`statePath, algo`edgePath, algo`stepPath, algo`statePaths, algo`edgePaths, algo`stepPaths
      ensures algo.Parallel() && algo.Found() == old(algo.Found()) + Tmp()
      ensures algo.Current() == Path([], [], [])
    {
      for i := 0 to |tmpStatePathLists|
        invariant algo.Parallel() && algo.Found() == old(algo.Found()) + Tmp()[..i]
      {
        algo.statePath := tmpStatePathLists[i];
        algo.edgePath := tmpEdgePathLists[i];
        algo.stepPath := tmpStepPathLists[i];
        algo.AddPath();
        assert Tmp()[..i + 1] == Tmp()[..i] + [algo.Current()];
      }
      assert Tmp()[..|Tmp()|] == Tmp();
      algo.statePath, algo.edgePath, algo.stepPath := [], [], [];
    }

    /** One round per start state, in some order of the start set. */
    method SearchFromAll() returns (order: seq<nat>)
      requires Idle() && algo.Parallel() && algo.Current() == Path([], [], []) && algo.Found() == []
      requires algo.graph.Shape().Shaped() && Fits(algo.graph.Shape(), algo.graph.edgeRepeatTimeList)
      requires |algo.graph.edgeList| <= |minDistList|
      requires forall v :: v in algo.startStateNumSet ==> v < |algo.graph.edgeList|
      modifies this, algo`statePath, algo`edgePath, algo`stepPath, algo`statePaths, algo`edgePaths, algo`stepPaths,
               algo.graph`edgeRepeatTimeList
      ensures Idle() && |minDistList| == old(|minDistList|)
      ensures algo.Parallel() && algo.graph.edgeRepeatTimeList == old(algo.graph.edgeRepeatTimeList)
      ensures |order| == |algo.startStateNumSet| && forall v :: v in order <==> v in algo.startStateNumSet
      ensures forall k :: 0 <= k < |order| ==> order[k] < |algo.graph.edgeList|
      ensures (Tmp(), algo.Found()) == Rounds(Shortest, Pruned, algo.graph.Shape(), algo.graph.edgeRepeatTimeList,
                                              algo.stopStateNumSet, |minDistList|, old(Tmp()), order)
    {
      hide Rounds, RecordVisit, Prune;
      var left := algo.startStateNumSet;
      order := [];
      ghost var net, b, stop, n, tmp0 := algo.graph.Shape(), algo.graph.edgeRepeatTimeList, algo.stopStateNumSet, |minDistList|, Tmp();
      RoundsNone(Shortest, Pruned, net, b, stop, n, tmp0);
      while left != {}
        invariant Idle() && |minDistList| == n
        invariant algo.Parallel() && algo.graph.edgeRepeatTimeList == b
        invariant algo.Current() == Path([], [], [])
        invariant |order| + |left| == |algo.startStateNumSet|
        invariant forall v :: v in algo.startStateNumSet <==> v in order || v in left
        invariant forall k :: 0 <= k < |order| ==> order[k] < |net.to|
        invariant (Tmp(), algo.Found()) == Rounds(Shortest, Pruned, net, b, stop, n, tmp0, order)
      {
        var stateNumber :| stateNumber in left;
        left := left - {stateNumber};
        Round(stateNumber);
        RoundsSnoc(Shortest, Pruned, net, b, stop, n, tmp0, order, stateNumber);
        order := order + [stateNumber];
      }
    }

    method ResetMinDistList()
      modifies this`minDistList
      ensures minDistList == Fresh(Shortest, old(|minDistList|))
    {
      for i := 0 to |minDistList|
        invariant |minDistList| == old(|minDistList|)
        invariant forall k :: 0 <= k < i ==> minDistList[k] == NoDist(Shortest)
      {
        minDistList := minDistList[i := MAX_PATH_DIST];
      }
    }

    /** The body of the start state loop. */
    method Round(stateNumber: nat)
      requires Idle() && algo.Parallel() && algo.Current() == Path([], [], [])
      requires algo.graph.Shape().Shaped() && Fits(algo.graph.Shape(), algo.graph.edgeRepeatTimeList)
      requires stateNumber < |algo.graph.edgeList| <= |minDistList|
      modifies this, algo`statePath, algo`edgePath, algo`stepPath, algo`statePaths, algo`edgePaths, algo`stepPaths,
               algo.graph`edgeRepeatTimeList
      ensures Idle() && |minDistList| == old(|minDistList|) && algo.Parallel() && algo.Current() == Path([], [], [])
      ensures algo.graph.edgeRepeatTimeList == old(algo.graph.edgeRepeatTimeList)
      ensures var (best, tmp) := RecordVisit(Shortest, Pruned, algo.graph.Shape(), algo.graph.edgeRepeatTimeList,
                                             algo.stopStateNumSet, Start(stateNumber), Fresh(Shortest, |minDistList|), old(Tmp()));
              Tmp() == Prune(Shortest, best, tmp) && algo.Found() == old(algo.Found()) + Tmp()
    {
      hide Visit, Prune;
      ghost var net, b, stop := algo.graph.Shape(), algo.graph.edgeRepeatTimeList, algo.stopStateNumSet;
      ResetMinDistList();
      algo.statePath := InsertAt(algo.statePath, 0, stateNumber);
      assert algo.Current() == Start(stateNumber) && DistOk(stateDistList, Start(stateNumber));
      VisitEnds(net, b, stop, Pruned, Start(stateNumber));
      RecordEnds(Shortest, minDistList, Tmp(), Visit(net, b, stop, Pruned, Start(stateNumber)));
      Dfs(stateNumber, 1, net, b, Start(stateNumber), stateDistList);
      algo.statePath := RemoveAt(algo.statePath, 0);
      DeleteLongPath();
      AddPathToMap();
    }

    /** All rounds and the through filters. Both tables grow by the number of nodes on
        every call and the temporary lists keep what earlier calls left. */
    method GenPath(startNames: seq<string>, stopNames: seq<string>,
                   throughStateNames: seq<string>, throughStepNames: seq<string>)
      returns (order: seq<nat>)
      requires algo.graph.Valid() && Idle()
      modifies this, algo, algo.graph`edgeRepeatTimeList
      ensures Idle() && |minDistList| == old(|minDistList|) + algo.graph.nodeCount
      ensures algo.graph == old(algo.graph) && algo.Parallel() && Fits(algo.graph.Shape(), algo.graph.edgeRepeatTimeList)
      ensures algo.graph.edgeRepeatTimeList == old(algo.graph.edgeRepeatTimeList)
      ensures |order| == |algo.startStateNumSet| && forall v :: v in order <==> v in algo.startStateNumSet
      ensures forall k :: 0 <= k < |order| ==> order[k] < algo.graph.nodeCount
      ensures algo.stopStateNumSet == Known(algo.graph.nodeNumMap, stopNames)
      ensures algo.throughStateNumSet == Known(algo.graph.nodeNumMap, throughStateNames)
      ensures algo.throughStepNumSet == KnownSteps(algo.graph.stepNumMap, throughStepNames)
      ensures startNames != [] ==> algo.startStateNumSet == Known(algo.graph.nodeNumMap, startNames)
      ensures startNames == [] ==> forall v: nat :: v in algo.startStateNumSet <==> IsSource(algo.graph.Shape(), v)
      ensures var (tmp, found) := Rounds(Shortest, Pruned, algo.graph.Shape(), algo.graph.edgeRepeatTimeList,
                                         algo.stopStateNumSet, |minDistList|, old(Tmp()), order);
              && Tmp() == tmp
              && algo.Found() == ThroughSteps(ThroughStates(found, algo.throughStateNumSet), algo.throughStepNumSet)
    {
      hide Rounds, EdgesOk, NamesOk, Known, KnownSteps, IsSource, ThroughStates, ThroughSteps;
      Sizes(algo.graph.Shape(), algo.graph.edgeRepeatTimeList, algo.graph.edgeNameList, algo.graph.edgeCount);
      algo.Init(startNames, stopNames, throughStateNames, throughStepNames);
      for i := 0 to algo.graph.nodeCount
        modifies this`stateDistList, this`minDistList
        invariant Idle() && |minDistList| == old(|minDistList|) + i
      {
        minDistList := minDistList + [MAX_PATH_DIST];
        stateDistList := stateDistList + [MAX_PATH_DIST];
      }
      order := SearchFromAll();
      algo.DelPathWithoutThroughState();
      algo.DelPathWithoutThroughStep();
    }
  }
}
