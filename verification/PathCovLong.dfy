/** The longest-path algorithm. Its depth first search carries a list of positions that is meant
    to prune; the contracts below say that it never does, so the search reports the complete
    enumeration. A deletion pass then keeps, for each through state and step, the longest. */
module PathCovLong {
  import opened Graph
  import opened Walks
  import opened PathAlgo
  import opened PathCovLeast
  import Collections
  import PathCovAll

  // ---------- the deletion pass ----------

  /** The i-th list is a longest one among those that contain x. */
  ghost predicate IsLongest(lists: seq<seq<int>>, x: int, i: nat) {
    i < |lists| && x in lists[i] && forall j :: 0 <= j < |lists| && x in lists[j] ==> |lists[j]| <= |lists[i]|
  }

  /** The positions of the longest lists for each of some members. */
  ghost function LongestAt(lists: seq<seq<int>>, xs: set<int>): set<nat> {
    set i | 0 <= i < |lists| && HasLongest(lists, xs, i)
  }

  ghost predicate HasLongest(lists: seq<seq<int>>, xs: set<int>, i: nat) {
    exists x :: x in xs && IsLongest(lists, x, i)
  }

  lemma LongestAdd(lists: seq<seq<int>>, xs: set<int>, x: int, found: set<nat>)
    requires forall i :: i in found <==> IsLongest(lists, x, i)
    ensures LongestAt(lists, xs + {x}) == LongestAt(lists, xs) + found
  {
    hide IsLongest;
    forall i: nat | i in found ensures i < |lists| && HasLongest(lists, xs + {x}, i) {
      InBounds(lists, x, i);
      assert x in xs + {x};
    }
    forall i: nat | HasLongest(lists, xs, i) ensures HasLongest(lists, xs + {x}, i) {
      var y :| y in xs && IsLongest(lists, y, i);
      assert y in xs + {x};
    }
  }

  lemma InBounds(lists: seq<seq<int>>, x: int, i: nat)
    ensures IsLongest(lists, x, i) ==> i < |lists|
  {
  }

  ghost function StatesOf(ps: seq<Path>): (lists: seq<seq<int>>)
    ensures |lists| == |ps| && forall i :: 0 <= i < |ps| ==> lists[i] == ps[i].states
  {
    seq(|ps|, i requires 0 <= i < |ps| => ps[i].states)
  }

  ghost function StepsOf(ps: seq<Path>): (lists: seq<seq<int>>)
    ensures |lists| == |ps| && forall i :: 0 <= i < |ps| ==> lists[i] == ps[i].steps
  {
    seq(|ps|, i requires 0 <= i < |ps| => ps[i].steps)
  }

  /** What the pass keeps: the reports that are longest for some through state or step. */
  ghost function LongestKept(ps: seq<Path>, states: set<nat>, steps: set<int>): seq<Path> {
    Chosen(ps, LongestAt(StatesOf(ps), states) + LongestAt(StepsOf(ps), steps))
  }

  ghost predicate LongestThrough(ps: seq<Path>, x: nat, q: Path) {
    x in q.states && forall p :: p in ps && x in p.states ==> |p.states| <= |q.states|
  }

  ghost predicate LongestTaking(ps: seq<Path>, x: int, q: Path) {
    x in q.steps && forall p :: p in ps && x in p.steps ==> |p.steps| <= |q.steps|
  }

  /** Kept are exactly the reports that no other report through some through state, or taking
      some through step, exceeds in length. */
  lemma KeptLongest(ps: seq<Path>, states: set<nat>, steps: set<int>, q: Path)
    ensures q in LongestKept(ps, states, steps)
            <==> q in ps && ((exists x :: x in states && LongestThrough(ps, x, q)) || (exists x :: x in steps && LongestTaking(ps, x, q)))
  {
    var picked := LongestAt(StatesOf(ps), states) + LongestAt(StepsOf(ps), steps);
    ChosenMember(ps, picked, q);
    forall i: nat | i < |ps|
      ensures i in picked <==> (exists x :: x in states && LongestThrough(ps, x, ps[i])) || (exists x :: x in steps && LongestTaking(ps, x, ps[i]))
    {
      LongestAgrees(ps, states, steps, i);
    }
    hide LongestThrough, LongestTaking, LongestAt, Chosen;
  }

  lemma LongestAgrees(ps: seq<Path>, states: set<nat>, steps: set<int>, i: nat)
    requires i < |ps|
    ensures i in LongestAt(StatesOf(ps), states) <==> exists x :: x in states && LongestThrough(ps, x, ps[i])
    ensures i in LongestAt(StepsOf(ps), steps) <==> exists x :: x in steps && LongestTaking(ps, x, ps[i])
  {
    forall x: nat ensures IsLongest(StatesOf(ps), x, i) <==> LongestThrough(ps, x, ps[i]) {
      StatesAgree(ps, x, i);
    }
    forall x ensures IsLongest(StepsOf(ps), x, i) <==> LongestTaking(ps, x, ps[i]) {
      StepsAgree(ps, x, i);
    }
    hide IsLongest, LongestThrough, LongestTaking;
  }

  lemma StatesAgree(ps: seq<Path>, x: nat, i: nat)
    requires i < |ps|
    ensures IsLongest(StatesOf(ps), x, i) <==> LongestThrough(ps, x, ps[i])
  {
    if IsLongest(StatesOf(ps), x, i) {
      forall p | p in ps && x in p.states ensures |p.states| <= |ps[i].states| {
        var j :| 0 <= j < |ps| && ps[j] == p;
        assert x in StatesOf(ps)[j];
      }
    }
    if LongestThrough(ps, x, ps[i]) {
      forall j | 0 <= j < |ps| && x in StatesOf(ps)[j] ensures |StatesOf(ps)[j]| <= |StatesOf(ps)[i]| {
        assert ps[j] in ps;
      }
    }
  }

  lemma StepsAgree(ps: seq<Path>, x: int, i: nat)
    requires i < |ps|
    ensures IsLongest(StepsOf(ps), x, i) <==> LongestTaking(ps, x, ps[i])
  {
    if IsLongest(StepsOf(ps), x, i) {
      forall p | p in ps && x in p.steps ensures |p.steps| <= |ps[i].steps| {
        var j :| 0 <= j < |ps| && ps[j] == p;
        assert x in StepsOf(ps)[j];
      }
    }
    if LongestTaking(ps, x, ps[i]) {
      forall j | 0 <= j < |ps| && x in StepsOf(ps)[j] ensures |StepsOf(ps)[j]| <= |StepsOf(ps)[i]| {
        assert ps[j] in ps;
      }
    }
  }

  /** Some list that contains x is a longest one. */
  lemma SomeLongest(lists: seq<seq<int>>, x: int, k: nat) returns (i: nat)
    requires k < |lists| && x in lists[k]
    ensures IsLongest(lists, x, i)
  {
    i := k;
    var n := 0;
    while n < |lists|
      invariant 0 <= n <= |lists| && i < |lists| && x in lists[i]
      invariant forall j :: 0 <= j < n && x in lists[j] ==> |lists[j]| <= |lists[i]|
    {
      if x in lists[n] && |lists[i]| < |lists[n]| { i := n; }
      n := n + 1;
    }
  }

  /** After the filters, nothing is reported exactly if nothing passed them, or if neither through
      states nor through steps are given: then the pass deletes everything. */
  lemma NothingKept(ps: seq<Path>, states: set<nat>, steps: set<int>)
    ensures var filtered := ThroughSteps(ThroughStates(ps, states), steps);
            LongestKept(filtered, states, steps) == [] <==> filtered == [] || (states == {} && steps == {})
  {
    var filtered := ThroughSteps(ThroughStates(ps, states), steps);
    if filtered != [] && (states != {} || steps != {}) {
      var q := filtered[0];
      PathCovAll.FilteredMember(ps, states, steps, q);
      var i: nat;
      if states != {} {
        var x :| x in q.states && x in states;
        assert x in StatesOf(filtered)[0];
        i := SomeLongest(StatesOf(filtered), x, 0);
        assert HasLongest(StatesOf(filtered), states, i);
      } else {
        var x :| x in q.steps && x in steps;
        assert x in StepsOf(filtered)[0];
        i := SomeLongest(StepsOf(filtered), x, 0);
        assert HasLongest(StepsOf(filtered), steps, i);
      }
      ChosenMember(filtered, LongestAt(StatesOf(filtered), states) + LongestAt(StepsOf(filtered), steps), filtered[i]);
    } else if filtered != [] {
      if |LongestKept(filtered, {}, {})| > 0 {
        KeptLongest(filtered, {}, {}, LongestKept(filtered, {}, {})[0]);
        assert false;
      }
    }
  }

  /** One state, no edge. */
  const LONE_NET := Net([[]], [[]], [[]])

  /** The only report, the state itself, is lost when no through state and no through step is
      given. */
  lemma LoneStateLost()
    ensures LONE_NET.Valid() && Fits(LONE_NET, [[]])
    ensures PathCovAll.Reported(LONE_NET, [[]], {}, [0], {}, {}) == [Start(0)]
    ensures LongestKept(PathCovAll.Reported(LONE_NET, [[]], {}, [0], {}, {}), {}, {}) == []
  {
    hide LongestKept, Visit;
    PathCovAll.NoStarts(LONE_NET, [[]], {});
    PathCovAll.AllFromPush(LONE_NET, [[]], {}, [], 0);
    LoneVisit();
    assert [] + [0] == [0];
    NothingKept([Start(0)], {}, {});
  }

  lemma LoneVisit()
    ensures Open(LONE_NET, [[]], Start(0)) && Visit(LONE_NET, [[]], {}, Full, Start(0)) == [Start(0)]
  {
  }

  class MPathAlgoCovLong {
    const algo: MPathAlgo
    var stateDistList: seq<int>

    constructor (a: MPathAlgo)
      ensures algo == a && stateDistList == []
    {
      algo := a;
      stateDistList := [];
    }

    /** Every recorded position is below `n`. */
    static ghost predicate Below(dist: seq<int>, n: nat) {
      forall v :: 0 <= v < |dist| ==> dist[v] < n
    }

    static lemma BelowStep(dist: seq<int>, n: nat, v: nat)
      requires Below(dist, n) && v < |dist|
      ensures Below(dist[v := n], n + 1)
    {
    }

    /** The search stands at path `p`, with `dist` recorded and budgets `b` left. */
    ghost predicate At(net: Net, b: Budgets, p: Path, dist: seq<int>)
      reads this, algo, algo.graph
    {
      PathCovAll.At(algo, net, b, p) && stateDistList == dist
    }

    static ghost predicate Ready(net: Net, b: Budgets, p: Path, dist: seq<int>) {
      Open(net, b, p) && |net.to| <= |dist| && Below(dist, |p.states|)
    }

    /** Reports exactly what the exhaustive search visits, in the same order, and
        restores budgets, positions and path stacks. */
    method Dfs(curState: nat, curPos: nat, ghost net: Net, ghost b: Budgets, ghost p: Path, ghost dist: seq<int>)
      requires At(net, b, p, dist) && Ready(net, b, p, dist) && curPos == |p.states| && curState == Last(p)
      modifies algo`statePath, algo`edgePath, algo`stepPath, algo`statePaths, algo`edgePaths, algo`stepPaths,
               algo.graph`edgeRepeatTimeList, this
      ensures At(net, b, p, dist)
      ensures algo.Found() == old(algo.Found()) + Visit(net, b, algo.stopStateNumSet, Full, p)
      decreases Total(b), 3
    {
      var neighbours := algo.graph.edgeList[curState];
      if algo.statePath[curPos - 1] in algo.stopStateNumSet
         || (0 == |neighbours| && 0 == |algo.stopStateNumSet|)
      {
        algo.AddPath();
        return;
      }
      if 0 == |neighbours| {
        assert Visit(net, b, algo.stopStateNumSet, Full, p) == [];
        return;
      }
      var hasOkNeighbour := Explore(curState, curPos, net, b, p, dist);
      if !hasOkNeighbour && 0 == |algo.stopStateNumSet| {
        PathCovAll.NoMoveNoBranch(net, b, algo.stopStateNumSet, Full, p, 0);
        algo.AddPath();
      }
    }

    /** The loop over the slots of the current state. The position test always passes, so
        the source's second test, for a distance above the current position, is never
        reached with budget left. */
    method Explore(curState: nat, curPos: nat, ghost net: Net, ghost b: Budgets, ghost p: Path, ghost dist: seq<int>)
      returns (hasOkNeighbour: bool)
      requires At(net, b, p, dist) && Ready(net, b, p, dist) && curPos == |p.states| && curState == Last(p)
      modifies algo`statePath, algo`edgePath, algo`stepPath, algo`statePaths, algo`edgePaths, algo`stepPaths,
               algo.graph`edgeRepeatTimeList, this
      ensures At(net, b, p, dist) && (hasOkNeighbour <==> CanMove(b, curState, 0))
      ensures algo.Found() == old(algo.Found()) + Branches(net, b, algo.stopStateNumSet, Full, p, 0)
      decreases Total(b), 2
    {
      hide Visit, Branches;
      ghost var was, stop := algo.Found(), algo.stopStateNumSet;
      hasOkNeighbour := false;
      ghost var seen: seq<Path> := [];
      for i := 0 to |algo.graph.edgeList[curState]|
        invariant At(net, b, p, dist)
        invariant hasOkNeighbour <==> PathCovAll.MovedBelow(b, curState, i)
        invariant algo.Found() == was + seen
        invariant Branches(net, b, stop, Full, p, 0) == seen + Branches(net, b, stop, Full, p, i)
      {
        var leftTime := algo.graph.edgeRepeatTimeList[curState][i];
        assert net.HasSlot(curState, i);
        var curDistance := stateDistList[algo.graph.edgeList[curState][i]];
        PathCovAll.BranchStep(net, b, stop, Full, p, i, seen);
        assert curDistance < curPos;
        if leftTime > 0 && curDistance <= curPos {
          Descend(curState, curPos, i, leftTime, curDistance, net, b, p, dist);
          seen := seen + Visit(net, Spend(b, curState, i), stop, Full, Extend(net, p, i));
          hasOkNeighbour := true;
        }
      }
      PathCovAll.MovedIsCanMove(b, curState, |b[curState]|);
      PathCovAll.NoMoreBranches(net, b, stop, Full, p);
    }

    /** The loop body: takes slot `i`, searches on, and puts everything back. */
    method Descend(curState: nat, curPos: nat, i: nat, leftTime: nat, curDistance: int,
                   ghost net: Net, ghost b: Budgets, ghost p: Path, ghost dist: seq<int>)
      requires At(net, b, p, dist) && Ready(net, b, p, dist) && curPos == |p.states| && curState == Last(p)
      requires net.HasSlot(curState, i) && leftTime == b[curState][i] > 0 && curDistance == dist[net.to[curState][i]]
      modifies algo`statePath, algo`edgePath, algo`stepPath, algo`statePaths, algo`edgePaths, algo`stepPaths,
               algo.graph`edgeRepeatTimeList, this
      ensures At(net, b, p, dist)
      ensures algo.Found() == old(algo.Found())
                + Visit(net, Spend(b, curState, i), algo.stopStateNumSet, Full, Extend(net, p, i))
      decreases Total(b), 0
    {
      var graph := algo.graph;
      var next := graph.edgeList[curState][i];
      PathCovAll.OpenExtend(net, b, p, i);
      SpendRestore(b, curState, i);
      BelowStep(dist, curPos, next);
      graph.edgeRepeatTimeList := SetBudget(graph.edgeRepeatTimeList, curState, i, leftTime - 1);
      algo.Push(curPos, next, graph.edgeNumberList[curState][i], graph.edgeStepList[curState][i]);
      stateDistList := stateDistList[next := curPos];
      Dfs(next, curPos + 1, net, Spend(b, curState, i), Extend(net, p, i), dist[next := curPos]);
      PathCovAll.ExtendPop(net, p, i);
      algo.Pop(curPos);
      stateDistList := stateDistList[next := curDistance];
      assert stateDistList == dist;
      graph.edgeRepeatTimeList := SetBudget(graph.edgeRepeatTimeList, curState, i, leftTime);
    }

    /** Between searches every recorded position is the smallest. */
    ghost predicate Unset()
      reads this
    {
      forall v :: 0 <= v < |stateDistList| ==> stateDistList[v] == MIN_PATH_DIST
    }

    /** The search from one start state. */
    method SearchFrom(stateNumber: nat, ghost net: Net, ghost b: Budgets, ghost dist: seq<int>)
      requires At(net, b, Path([], [], []), dist) && net.Shaped() && Fits(net, b) && stateNumber < |net.to|
      requires Unset() && |net.to| <= |dist|
      modifies algo`statePath, algo`edgePath, algo`stepPath, algo`statePaths, algo`edgePaths, algo`stepPaths,
               algo.graph`edgeRepeatTimeList, this
      ensures At(net, b, Path([], [], []), dist)
      ensures algo.Found() == old(algo.Found()) + Visit(net, b, algo.stopStateNumSet, Full, Start(stateNumber))
    {
      hide Visit;
      algo.statePath := InsertAt(algo.statePath, 0, stateNumber);
      assert algo.Current() == Start(stateNumber);
      Dfs(stateNumber, 1, net, b, Start(stateNumber), dist);
      algo.statePath := RemoveAt(algo.statePath, 0);
    }

    /** One search per start state, in some order. */
    method SearchFromAll() returns (order: seq<nat>)
      requires algo.Parallel() && algo.Current() == Path([], [], []) && algo.Found() == []
      requires algo.graph.Shape().Shaped() && Fits(algo.graph.Shape(), algo.graph.edgeRepeatTimeList)
      requires forall v :: v in algo.startStateNumSet ==> v < |algo.graph.edgeList|
      requires Unset() && |algo.graph.edgeList| <= |stateDistList|
      modifies algo`statePath, algo`edgePath, algo`stepPath, algo`statePaths, algo`edgePaths, algo`stepPaths,
               algo.graph`edgeRepeatTimeList, this
      ensures algo.Parallel() && algo.graph.edgeRepeatTimeList == old(algo.graph.edgeRepeatTimeList) && stateDistList == old(stateDistList)
      ensures PathCovAll.OrderOf(order, algo.startStateNumSet) && forall k :: 0 <= k < |order| ==> order[k] < |algo.graph.edgeList|
      ensures algo.Found() == PathCovAll.AllFrom(algo.graph.Shape(), algo.graph.edgeRepeatTimeList, algo.stopStateNumSet, order)
    {
      hide Visit, PathCovAll.AllFrom;
      var left := algo.startStateNumSet;
      order := [];
      ghost var net, b, stop, dist := algo.graph.Shape(), algo.graph.edgeRepeatTimeList, algo.stopStateNumSet, stateDistList;
      PathCovAll.NoStarts(net, b, stop);
      while left != {}
        invariant algo.Parallel() && algo.graph.edgeRepeatTimeList == b && stateDistList == dist
        invariant algo.Current() == Path([], [], [])
        invariant |order| + |left| == |algo.startStateNumSet|
        invariant forall v :: v in algo.startStateNumSet <==> v in order || v in left
        invariant forall k :: 0 <= k < |order| ==> order[k] < |net.to|
        invariant algo.Found() == PathCovAll.AllFrom(net, b, stop, order)
      {
        var stateNumber :| stateNumber in left;
        left := left - {stateNumber};
        SearchFrom(stateNumber, net, b, dist);
        PathCovAll.AllFromPush(net, b, stop, order, stateNumber);
        order := order + [stateNumber];
      }
    }

    /** The positions of the longest lists that contain x. */
    static method LongestWith(lists: seq<seq<int>>, x: int) returns (found: set<nat>)
      ensures forall i :: i in found <==> IsLongest(lists, x, i)
    {
      var longestDist := MIN_PATH_DIST;
      ghost var best := 0;
      for i := 0 to |lists|
        invariant forall j :: 0 <= j < i && x in lists[j] ==> |lists[j]| <= longestDist
        invariant longestDist != MIN_PATH_DIST ==> best < i && x in lists[best] && |lists[best]| == longestDist
      {
        if x in lists[i] && longestDist < |lists[i]| {
          longestDist := |lists[i]|;
          best := i;
        }
      }
      found := {};
      for i := 0 to |lists|
        invariant forall j :: j in found <==> 0 <= j < i && x in lists[j] && |lists[j]| == longestDist
      {
        if x in lists[i] && longestDist == |lists[i]| {
          found := found + {i};
        }
      }
    }

    static method PickLongest(lists: seq<seq<int>>, xs: set<int>) returns (picked: set<nat>)
      ensures picked == LongestAt(lists, xs)
    {
      hide LongestAt, IsLongest;
      var left := xs;
      picked := {};
      NoneLongest(lists);
      assert xs - left == {};
      while left != {}
        invariant left <= xs && picked == LongestAt(lists, xs - left)
      {
        ghost var some := Collections.Witness(left);
        var x :| x in left;
        var found := LongestWith(lists, x);
        LongestAdd(lists, xs - left, x, found);
        assert xs - (left - {x}) == (xs - left) + {x};
        picked := picked + found;
        left := left - {x};
      }
      assert xs - left == xs;
    }

    static lemma NoneLongest(lists: seq<seq<int>>)
      ensures LongestAt(lists, {}) == {}
    {
    }

    /** Deletes the reports that are longest for no through state and no through step. */
    method DeleteShortPath()
      requires algo.Parallel()
      modifies algo`statePaths, algo`edgePaths, algo`stepPaths
      ensures algo.Parallel() && algo.Found() == LongestKept(old(algo.Found()), algo.throughStateNumSet, algo.throughStepNumSet)
    {
      hide LongestAt, Chosen;
      ghost var all := algo.Found();
      assert StatesOf(all) == algo.statePaths && StepsOf(all) == algo.stepPaths;
      var resultSet := PickLongest(algo.statePaths, algo.throughStateNumSet);
      var more := PickLongest(algo.stepPaths, algo.throughStepNumSet);
      KeepChosen(algo, resultSet + more);
    }

    /** All searches, the through filters, and the deletion pass. */
    method GenPath(startNames: seq<string>, stopNames: seq<string>,
                   throughStateNames: seq<string>, throughStepNames: seq<string>)
      returns (order: seq<nat>)
      requires algo.graph.Valid() && Unset()
      modifies algo, algo.graph`edgeRepeatTimeList, this
      ensures Unset() && algo.graph == old(algo.graph) && algo.Parallel() && Fits(algo.graph.Shape(), algo.graph.edgeRepeatTimeList)
      ensures algo.graph.edgeRepeatTimeList == old(algo.graph.edgeRepeatTimeList)
      ensures PathCovAll.OrderOf(order, algo.startStateNumSet) && forall k :: 0 <= k < |order| ==> order[k] < algo.graph.nodeCount
      ensures algo.stopStateNumSet == Known(algo.graph.nodeNumMap, stopNames)
      ensures algo.throughStateNumSet == Known(algo.graph.nodeNumMap, throughStateNames)
      ensures algo.throughStepNumSet == KnownSteps(algo.graph.stepNumMap, throughStepNames)
      ensures startNames != [] ==> algo.startStateNumSet == Known(algo.graph.nodeNumMap, startNames)
      ensures startNames == [] ==> forall v: nat :: v in algo.startStateNumSet <==> IsSource(algo.graph.Shape(), v)
      ensures algo.Found()
              == LongestKept(
                   PathCovAll.Reported(algo.graph.Shape(), algo.graph.edgeRepeatTimeList, algo.stopStateNumSet, order,
                                       algo.throughStateNumSet, algo.throughStepNumSet),
                   algo.throughStateNumSet, algo.throughStepNumSet)
    {
      hide EdgesOk, NamesOk, Known, KnownSteps, IsSource, LongestKept, PathCovAll.AllFrom, ThroughStates, ThroughSteps, PathCovAll.OrderOf;
      Sizes(algo.graph.Shape(), algo.graph.edgeRepeatTimeList, algo.graph.edgeNameList, algo.graph.edgeCount);
      algo.Init(startNames, stopNames, throughStateNames, throughStepNames);
      for i := 0 to algo.graph.nodeCount
        modifies this
        invariant Unset() && |stateDistList| == old(|stateDistList|) + i
      {
        stateDistList := stateDistList + [MIN_PATH_DIST];
      }
      order := SearchFromAll();
      algo.DelPathWithoutThroughState();
      algo.DelPathWithoutThroughStep();
      DeleteShortPath();
    }
  }
}
