/** The exhaustive search: depth first with in-place budgets and path stacks. */
module PathCovAll {
  import opened Collections
  import opened Graph
  import opened Walks
  import opened PathAlgo

  /** The reports for several start states, one after the other. */
  ghost function AllFrom(net: Net, b: Budgets, stop: set<nat>, starts: seq<nat>): seq<Path>
    requires net.Shaped() && Fits(net, b) && forall k :: 0 <= k < |starts| ==> starts[k] < |net.to|
  {
    if starts == [] then []
    else AllFrom(net, b, stop, starts[..|starts| - 1]) + AllPaths(net, b, stop, starts[|starts| - 1])
  }

  /** The search object stands at path `p` with budgets `b` left in the graph `net`. */
  ghost predicate At(algo: MPathAlgo, net: Net, b: Budgets, p: Path)
    reads algo, algo.graph
  {
    algo.Parallel() && algo.graph.Shape() == net && algo.graph.edgeRepeatTimeList == b && algo.Current() == p
  }

  /** Some slot of `u` before `i` has budget left. */
  ghost predicate MovedBelow(b: Budgets, u: nat, i: nat)
    requires u < |b| && i <= |b[u]|
  {
    i > 0 && (MovedBelow(b, u, i - 1) || b[u][i - 1] > 0)
  }

  lemma {:induction false} MovedIsCanMove(b: Budgets, u: nat, i: nat)
    requires u < |b| && i <= |b[u]|
    ensures MovedBelow(b, u, i) <==> exists j :: 0 <= j < i && b[u][j] > 0
  {
    if i > 0 {
      MovedIsCanMove(b, u, i - 1);
    }
  }

  lemma ExtendPop(net: Net, p: Path, i: nat)
    requires |p.states| >= 1 && |p.edges| == |p.steps| == |p.states| - 1 && net.Shaped() && net.HasSlot(Last(p), i)
    ensures var q, n := Extend(net, p, i), |p.states|;
            Path(RemoveAt(q.states, n), RemoveAt(q.edges, n - 1), RemoveAt(q.steps, n - 1)) == p
  {
    var q, n := Extend(net, p, i), |p.states|;
    assert RemoveAt(q.states, n) == p.states;
    assert RemoveAt(q.edges, n - 1) == p.edges;
    assert RemoveAt(q.steps, n - 1) == p.steps;
  }

  lemma OpenExtend(net: Net, b: Budgets, p: Path, i: nat)
    requires Open(net, b, p) && net.HasSlot(Last(p), i) && b[Last(p)][i] > 0
    ensures Open(net, Spend(b, Last(p), i), Extend(net, p, i))
    ensures Total(Spend(b, Last(p), i)) < Total(b)
  {
    TotalSpend(b, Last(p), i);
  }

  lemma {:induction false} NoMoveNoBranch(net: Net, b: Budgets, stop: set<nat>, mode: Mode, p: Path, i: nat)
    requires Open(net, b, p) && i <= |net.to[Last(p)]| && !CanMove(b, Last(p), i)
    ensures Branches(net, b, stop, mode, p, i) == []
    decreases |net.to[Last(p)]| - i
  {
    if i < |net.to[Last(p)]| {
      assert b[Last(p)][i] == 0;
      NoMoveNoBranch(net, b, stop, mode, p, i + 1);
    }
  }

  lemma NoMoreBranches(net: Net, b: Budgets, stop: set<nat>, mode: Mode, p: Path)
    requires Open(net, b, p)
    ensures Branches(net, b, stop, mode, p, |net.to[Last(p)]|) == []
  {
  }

  lemma NoStarts(net: Net, b: Budgets, stop: set<nat>)
    requires net.Shaped() && Fits(net, b)
    ensures AllFrom(net, b, stop, []) == []
  {
  }

  /** One more start state. */
  lemma AllFromPush(net: Net, b: Budgets, stop: set<nat>, starts: seq<nat>, u: nat)
    requires net.Shaped() && Fits(net, b) && u < |net.to| && forall k :: 0 <= k < |starts| ==> starts[k] < |net.to|
    ensures AllFrom(net, b, stop, starts + [u]) == AllFrom(net, b, stop, starts) + Visit(net, b, stop, Full, Start(u))
  {
    hide Visit;
    assert (starts + [u])[..|starts|] == starts;
  }

  /** One unfolding of `Branches` behind the paths already seen. */
  lemma BranchStep(net: Net, b: Budgets, stop: set<nat>, mode: Mode, p: Path, i: nat, seen: seq<Path>)
    requires Open(net, b, p) && i < |net.to[Last(p)]|
    ensures seen + Branches(net, b, stop, mode, p, i)
            == (if b[Last(p)][i] > 0 && !Skips(mode, p, net.to[Last(p)][i])
                then seen + Visit(net, Spend(b, Last(p), i), stop, mode, Extend(net, p, i)) else seen)
               + Branches(net, b, stop, mode, p, i + 1)
  {
    if b[Last(p)][i] > 0 && !Skips(mode, p, net.to[Last(p)][i]) {
      TotalSpend(b, Last(p), i);
    }
  }

  class MPathAlgoCovAll {
    const algo: MPathAlgo

    constructor (a: MPathAlgo)
      ensures algo == a
    {
      algo := a;
    }

    /** Reports the visited paths in order and restores budgets and path stacks. */
    method Dfs(curState: nat, curPos: nat, ghost net: Net, ghost b: Budgets, ghost p: Path)
      requires At(algo, net, b, p) && Open(net, b, p) && curPos == |p.states| && curState == Last(p)
      modifies algo`statePath, algo`edgePath, algo`stepPath, algo`statePaths, algo`edgePaths, algo`stepPaths,
               algo.graph`edgeRepeatTimeList
      ensures At(algo, net, b, p)
      ensures algo.Found() == old(algo.Found()) + Visit(net, b, algo.stopStateNumSet, Full, p)
      decreases Total(b), 2
    {
      var neighbours := algo.graph.edgeList[curState];
      if algo.statePath[curPos - 1] in algo.stopStateNumSet
         || (0 == |neighbours| && 0 == |algo.stopStateNumSet|)
      {
        algo.AddPath();
        return;
      }
      var hasOkNeighbour := Explore(curState, curPos, net, b, p);
      if !hasOkNeighbour && 0 == |algo.stopStateNumSet| {
        NoMoveNoBranch(net, b, algo.stopStateNumSet, Full, p, 0);
        algo.AddPath();
      }
    }

    /** The loop over the slots of the current state. */
    method Explore(curState: nat, curPos: nat, ghost net: Net, ghost b: Budgets, ghost p: Path) returns (hasOkNeighbour: bool)
      requires At(algo, net, b, p) && Open(net, b, p) && curPos == |p.states| && curState == Last(p)
      modifies algo`statePath, algo`edgePath, algo`stepPath, algo`statePaths, algo`edgePaths, algo`stepPaths,
               algo.graph`edgeRepeatTimeList
      ensures At(algo, net, b, p) && (hasOkNeighbour <==> CanMove(b, curState, 0))
      ensures algo.Found() == old(algo.Found()) + Branches(net, b, algo.stopStateNumSet, Full, p, 0)
      decreases Total(b), 1
    {
      hide Visit, Branches;
      ghost var was, stop := algo.Found(), algo.stopStateNumSet;
      hasOkNeighbour := false;
      ghost var seen: seq<Path> := [];
      for i := 0 to |algo.graph.edgeList[curState]|
        invariant At(algo, net, b, p)
        invariant hasOkNeighbour <==> MovedBelow(b, curState, i)
        invariant algo.Found() == was + seen
        invariant Branches(net, b, stop, Full, p, 0) == seen + Branches(net, b, stop, Full, p, i)
      {
        var leftTime := algo.graph.edgeRepeatTimeList[curState][i];
        BranchStep(net, b, stop, Full, p, i, seen);
        if leftTime > 0 {
          Descend(curState, curPos, i, leftTime, net, b, p);
          seen := seen + Visit(net, Spend(b, curState, i), stop, Full, Extend(net, p, i));
          hasOkNeighbour := true;
        }
      }
      MovedIsCanMove(b, curState, |b[curState]|);
      NoMoreBranches(net, b, stop, Full, p);
    }

    /** The loop body: takes slot `i`, searches on, and puts everything back. */
    method Descend(curState: nat, curPos: nat, i: nat, leftTime: nat, ghost net: Net, ghost b: Budgets, ghost p: Path)
      requires At(algo, net, b, p) && Open(net, b, p) && curPos == |p.states| && curState == Last(p)
      requires net.HasSlot(curState, i) && leftTime == b[curState][i] > 0
      modifies algo`statePath, algo`edgePath, algo`stepPath, algo`statePaths, algo`edgePaths, algo`stepPaths,
               algo.graph`edgeRepeatTimeList
      ensures At(algo, net, b, p)
      ensures algo.Found() == old(algo.Found())
                + Visit(net, Spend(b, curState, i), algo.stopStateNumSet, Full, Extend(net, p, i))
      decreases Total(b), 0
    {
      var graph := algo.graph;
      OpenExtend(net, b, p, i);
      SpendRestore(b, curState, i);
      graph.edgeRepeatTimeList := SetBudget(graph.edgeRepeatTimeList, curState, i, leftTime - 1);
      algo.Push(curPos, graph.edgeList[curState][i], graph.edgeNumberList[curState][i], graph.edgeStepList[curState][i]);
      Dfs(graph.edgeList[curState][i], curPos + 1, net, Spend(b, curState, i), Extend(net, p, i));
      ExtendPop(net, p, i);
      algo.Pop(curPos);
      graph.edgeRepeatTimeList := SetBudget(graph.edgeRepeatTimeList, curState, i, leftTime);
    }

    /** One search per start state, in some order. */
    method SearchFromAll() returns (order: seq<nat>)
      requires algo.Parallel() && algo.Current() == Path([], [], []) && algo.Found() == []
      requires algo.graph.Shape().Shaped() && Fits(algo.graph.Shape(), algo.graph.edgeRepeatTimeList)
      requires forall v :: v in algo.startStateNumSet ==> v < |algo.graph.edgeList|
      modifies algo`statePath, algo`edgePath, algo`stepPath, algo`statePaths, algo`edgePaths, algo`stepPaths,
               algo.graph`edgeRepeatTimeList
      ensures algo.Parallel() && algo.graph.edgeRepeatTimeList == old(algo.graph.edgeRepeatTimeList)
      ensures OrderOf(order, algo.startStateNumSet)
      ensures forall k :: 0 <= k < |order| ==> order[k] < |algo.graph.edgeList|
      ensures algo.Found() == AllFrom(algo.graph.Shape(), algo.graph.edgeRepeatTimeList, algo.stopStateNumSet, order)
    {
      hide Visit, AllFrom;
      var left := algo.startStateNumSet;
      order := [];
      ghost var net, b, stop := algo.graph.Shape(), algo.graph.edgeRepeatTimeList, algo.stopStateNumSet;
      NoStarts(net, b, stop);
      while left != {}
        invariant algo.Parallel() && algo.graph.edgeRepeatTimeList == b
        invariant algo.Current() == Path([], [], [])
        invariant |order| + |left| == |algo.startStateNumSet|
        invariant forall v :: v in algo.startStateNumSet <==> v in order || v in left
        invariant forall k :: 0 <= k < |order| ==> order[k] < |net.to|
        invariant algo.Found() == AllFrom(net, b, stop, order)
      {
        var stateNumber :| stateNumber in left;
        left := left - {stateNumber};
        algo.statePath := InsertAt(algo.statePath, 0, stateNumber);
        assert algo.Current() == Start(stateNumber);
        Dfs(stateNumber, 1, net, b, Start(stateNumber));
        algo.statePath := RemoveAt(algo.statePath, 0);
        AllFromPush(net, b, stop, order, stateNumber);
        order := order + [stateNumber];
      }
    }

    /** One search per start state, then the through filters. The start states are a
        hash set, so `order` is some order of them. */
    method GenPath(startNames: seq<string>, stopNames: seq<string>,
                   throughStateNames: seq<string>, throughStepNames: seq<string>)
      returns (order: seq<nat>)
      requires algo.graph.Valid()
      modifies algo, algo.graph`edgeRepeatTimeList
      ensures algo.graph == old(algo.graph) && algo.Parallel() && Fits(algo.graph.Shape(), algo.graph.edgeRepeatTimeList)
      ensures algo.graph.edgeRepeatTimeList == old(algo.graph.edgeRepeatTimeList)
      ensures OrderOf(order, algo.startStateNumSet) && forall k :: 0 <= k < |order| ==> order[k] < algo.graph.nodeCount
      ensures algo.stopStateNumSet == Known(algo.graph.nodeNumMap, stopNames)
      ensures algo.throughStateNumSet == Known(algo.graph.nodeNumMap, throughStateNames)
      ensures algo.throughStepNumSet == KnownSteps(algo.graph.stepNumMap, throughStepNames)
      ensures startNames != [] ==> algo.startStateNumSet == Known(algo.graph.nodeNumMap, startNames)
      ensures startNames == [] ==> forall v: nat :: v in algo.startStateNumSet <==> IsSource(algo.graph.Shape(), v)
      ensures algo.Found() == Reported(algo.graph.Shape(), algo.graph.edgeRepeatTimeList, algo.stopStateNumSet, order,
                                       algo.throughStateNumSet, algo.throughStepNumSet)
    {
      hide EdgesOk, NamesOk, Known, KnownSteps, IsSource, AllFrom, ThroughStates, ThroughSteps, OrderOf;
      Sizes(algo.graph.Shape(), algo.graph.edgeRepeatTimeList, algo.graph.edgeNameList, algo.graph.edgeCount);
      algo.Init(startNames, stopNames, throughStateNames, throughStepNames);
      order := SearchFromAll();
      algo.DelPathWithoutThroughState();
      algo.DelPathWithoutThroughStep();
    }
  }

  // ---------- several start states, and the filters ----------

  /** Each start state, once, in some order. */
  ghost predicate OrderOf(order: seq<nat>, starts: set<nat>) {
    |order| == |starts| && forall v :: v in order <==> v in starts
  }

  /** What one search per start state and both filters leave. */
  ghost function Reported(net: Net, b: Budgets, stop: set<nat>, order: seq<nat>, states: set<nat>, steps: set<int>): seq<Path>
    requires net.Shaped() && Fits(net, b) && forall k :: 0 <= k < |order| ==> order[k] < |net.to|
  {
    ThroughSteps(ThroughStates(AllFrom(net, b, stop, order), states), steps)
  }

  lemma {:induction false} KeptNoDup(ps: seq<Path>, f: Path -> bool)
    requires NoDup(ps)
    ensures NoDup(Keep(ps, f))
  {
    if |ps| > 0 {
      DropFirst(ps);
      KeptNoDup(ps[1..], f);
      KeepMember(ps[1..], f, ps[0]);
      if f(ps[0]) { PushNoDup(ps[0], Keep(ps[1..], f)); }
    }
  }

  lemma FilteredMember(ps: seq<Path>, states: set<nat>, steps: set<int>, q: Path)
    ensures q in ThroughSteps(ThroughStates(ps, states), steps)
            <==> q in ps && (states == {} || HitsState(q, states)) && (steps == {} || HitsStep(q, steps))
    ensures NoDup(ps) ==> NoDup(ThroughSteps(ThroughStates(ps, states), steps))
  {
    hide HitsState, HitsStep;
    var f, g := (p: Path) => HitsState(p, states), (p: Path) => HitsStep(p, steps);
    KeepMember(ps, f, q);
    KeepMember(ThroughStates(ps, states), g, q);
    if NoDup(ps) {
      KeptNoDup(ps, f);
      KeptNoDup(ThroughStates(ps, states), g);
    }
  }

  /** Reports of one start state are pairwise different and start there. */
  lemma OneStart(net: Net, b: Budgets, stop: set<nat>, u: nat)
    requires net.Valid() && Fits(net, b) && u < |net.to|
    ensures NoDup(AllPaths(net, b, stop, u)) && forall q :: q in AllPaths(net, b, stop, u) ==> |q.states| > 0 && q.states[0] == u
  {
    hide Visit;
    var ps := AllPaths(net, b, stop, u);
    AllPathsExact(net, b, stop, u, Start(u));
    forall q | q in ps ensures |q.states| > 0 && q.states[0] == u {
      AllPathsExact(net, b, stop, u, q);
    }
  }

  /** A path is among the searches' reports exactly if some start state has it as a complete
      walk; and it is there once. */
  lemma {:induction false} AllFromExact(net: Net, b: Budgets, stop: set<nat>, order: seq<nat>, q: Path)
    requires net.Valid() && Fits(net, b) && NoDup(order) && forall k :: 0 <= k < |order| ==> order[k] < |net.to|
    ensures q in AllFrom(net, b, stop, order) <==> exists u, w :: u in order && Complete(net, b, stop, u, w) && q == Trace(net, u, w)
    ensures NoDup(AllFrom(net, b, stop, order))
    ensures forall p :: p in AllFrom(net, b, stop, order) ==> |p.states| > 0 && p.states[0] in order
  {
    hide Complete, AllPaths, IsWalk;
    if |order| > 0 {
      var last := |order| - 1;
      var first, u := order[..last], order[last];
      var ps, qs := AllFrom(net, b, stop, first), AllPaths(net, b, stop, u);
      assert order == first + [u];
      SplitNoDup(first, [u]);
      AllFromExact(net, b, stop, first, q);
      AllPathsExact(net, b, stop, u, q);
      OneStart(net, b, stop, u);
      hide AllFrom, Trace;
      JoinNoDup(ps, qs);
    }
  }

  /** Over all start states and both filters: reported are exactly the complete walks of the
      start states that pass the filters, each once. */
  lemma ReportedExact(net: Net, b: Budgets, stop: set<nat>, starts: set<nat>, order: seq<nat>, states: set<nat>, steps: set<int>, q: Path)
    requires net.Valid() && Fits(net, b) && OrderOf(order, starts) && forall k :: 0 <= k < |order| ==> order[k] < |net.to|
    ensures q in Reported(net, b, stop, order, states, steps)
            <==> (exists u, w :: u in starts && Complete(net, b, stop, u, w) && q == Trace(net, u, w))
                 && (states == {} || HitsState(q, states)) && (steps == {} || HitsStep(q, steps))
    ensures NoDup(Reported(net, b, stop, order, states, steps))
  {
    CountedNoDup(order, starts);
    AllFromExact(net, b, stop, order, q);
    FilteredMember(AllFrom(net, b, stop, order), states, steps, q);
    hide NoDup, Complete, AllFrom, HitsState, HitsStep, ThroughStates, ThroughSteps, Trace, IsWalk;
  }
}
