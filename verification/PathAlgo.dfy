/** The state every path search shares, its set-up from node names, and the filters
    that run over the reported paths. */
module PathAlgo {
  import opened Graph
  import opened Walks

  ghost function Keep(ps: seq<Path>, f: Path -> bool): seq<Path> {
    if |ps| == 0 then [] else (if f(ps[0]) then [ps[0]] else []) + Keep(ps[1..], f)
  }

  lemma {:induction false} KeepAppend(ps: seq<Path>, qs: seq<Path>, f: Path -> bool)
    ensures Keep(ps + qs, f) == Keep(ps, f) + Keep(qs, f)
  {
    if |ps| == 0 {
      assert ps + qs == qs;
    } else {
      var first := if f(ps[0]) then [ps[0]] else [];
      assert (ps + qs)[1..] == ps[1..] + qs && (ps + qs)[0] == ps[0];
      KeepAppend(ps[1..], qs, f);
      assert first + (Keep(ps[1..], f) + Keep(qs, f)) == (first + Keep(ps[1..], f)) + Keep(qs, f);
    }
  }

  lemma {:induction false} KeepMember(ps: seq<Path>, f: Path -> bool, q: Path)
    ensures q in Keep(ps, f) <==> q in ps && f(q)
  {
    if ps != [] {
      KeepMember(ps[1..], f, q);
      assert q in ps <==> q == ps[0] || q in ps[1..];
    }
  }

  /** The paths that meet one of the through states, or all when none is given. */
  ghost function ThroughStates(ps: seq<Path>, through: set<nat>): seq<Path> {
    if through == {} then ps else Keep(ps, p => HitsState(p, through))
  }

  /** The paths that take one of the through steps, or all when none is given. */
  ghost function ThroughSteps(ps: seq<Path>, through: set<int>): seq<Path> {
    if through == {} then ps else Keep(ps, p => HitsStep(p, through))
  }

  ghost predicate HitsState(p: Path, through: set<nat>) {
    exists s :: s in p.states && s in through
  }

  ghost predicate HitsStep(p: Path, through: set<int>) {
    exists s :: s in p.steps && s in through
  }

  /** The nodes without incoming edges. */
  ghost predicate IsSource(net: Net, v: nat) {
    v < |net.to| && forall u, i :: net.HasSlot(u, i) ==> net.to[u][i] != v
  }

  /** The numbers of the names that are known. */
  ghost function Known(nums: map<string, nat>, names: seq<string>): set<nat> {
    set s | s in names && s in nums :: nums[s]
  }

  ghost function KnownSteps(nums: map<string, int>, names: seq<string>): set<int> {
    set s | s in names && s in nums :: nums[s]
  }

  /** One step of a filter that deletes from the back. */
  lemma KeepStep(all: seq<Path>, i: nat, f: Path -> bool)
    requires i < |all|
    ensures var now := all[..i + 1] + Keep(all[i + 1..], f);
            && now[i] == all[i]
            && all[..i] + Keep(all[i..], f) == if f(all[i]) then now else RemoveAt(now, i)
  {
    assert all[i..] == [all[i]] + all[i + 1..];
  }

  function InsertAt<T>(s: seq<T>, i: nat, x: T): seq<T>
    requires i <= |s|
  {
    s[..i] + [x] + s[i..]
  }

  function RemoveAt<T>(s: seq<T>, i: nat): seq<T>
    requires i < |s|
  {
    s[..i] + s[i + 1..]
  }

  class MPathAlgo {
    var graph: MGraph
    var statePath: seq<nat>
    var edgePath: seq<nat>
    var stepPath: seq<int>
    // the three lists of the result map
    var statePaths: seq<seq<nat>>
    var edgePaths: seq<seq<nat>>
    var stepPaths: seq<seq<int>>
    var startStateNumSet: set<nat>
    var stopStateNumSet: set<nat>
    var throughStateNumSet: set<nat>
    var throughStepNumSet: set<int>

    /** The result lists are parallel. */
    ghost predicate Parallel()
      reads this
    {
      |statePaths| == |edgePaths| == |stepPaths|
    }

    ghost function Found(): (ps: seq<Path>)
      requires Parallel()
      reads this
      ensures |ps| == |statePaths|
    {
      Zip(statePaths, edgePaths, stepPaths)
    }

    ghost function Current(): Path
      reads this
    {
      Path(statePath, edgePath, stepPath)
    }

    constructor (g: MGraph)
      ensures graph == g && statePath == edgePath == [] && stepPath == []
      ensures Parallel() && Found() == []
      ensures startStateNumSet == stopStateNumSet == throughStateNumSet == {} && throughStepNumSet == {}
    {
      graph := g;
      statePath, edgePath, stepPath := [], [], [];
      statePaths, edgePaths, stepPaths := [], [], [];
      startStateNumSet, stopStateNumSet, throughStateNumSet, throughStepNumSet := {}, {}, {}, {};
    }

    method ClearPaths()
      modifies this`statePath, this`edgePath, this`stepPath, this`statePaths, this`edgePaths, this`stepPaths
      ensures Current() == Path([], [], []) && Parallel() && Found() == []
    {
      statePaths, edgePaths, stepPaths := [], [], [];
      statePath, edgePath, stepPath := [], [], [];
    }

    /** Clears the result and the path stacks and resolves the names. */
    method Init(startNames: seq<string>, stopNames: seq<string>,
                throughStateNames: seq<string>, throughStepNames: seq<string>)
      requires graph.Valid()
      modifies this
      ensures graph == old(graph)
      ensures Current() == Path([], [], []) && Parallel() && Found() == []
      ensures startNames != [] ==> startStateNumSet == Known(graph.nodeNumMap, startNames)
      ensures startNames == [] ==> forall v: nat :: v in startStateNumSet <==> IsSource(graph.Shape(), v)
      ensures stopStateNumSet == Known(graph.nodeNumMap, stopNames)
      ensures throughStateNumSet == Known(graph.nodeNumMap, throughStateNames)
      ensures throughStepNumSet == KnownSteps(graph.stepNumMap, throughStepNames)
      ensures forall v :: v in startStateNumSet ==> v < graph.nodeCount
    {
      ClearPaths();
      GenStartStateNumSet(startNames);
      stopStateNumSet := NumSet(stopNames);
      throughStateNumSet := NumSet(throughStateNames);
      GenThroughStepNumSet(throughStepNames);
    }

    method GenThroughStepNumSet(names: seq<string>)
      modifies this`throughStepNumSet
      ensures throughStepNumSet == KnownSteps(graph.stepNumMap, names)
    {
      throughStepNumSet := {};
      for i := 0 to |names|
        invariant throughStepNumSet == KnownSteps(graph.stepNumMap, names[..i])
      {
        assert names[..i + 1] == names[..i] + [names[i]];
        if names[i] in graph.stepNumMap {
          throughStepNumSet := throughStepNumSet + {graph.stepNumMap[names[i]]};
        }
      }
      assert names[..|names|] == names;
    }

    /** The shared loop of the state set generators. */
    method NumSet(names: seq<string>) returns (r: set<nat>)
      requires graph.NamesValid()
      ensures r == Known(graph.nodeNumMap, names)
      ensures forall v :: v in r ==> v < graph.nodeCount
    {
      r := {};
      for i := 0 to |names|
        invariant r == Known(graph.nodeNumMap, names[..i])
        invariant forall v :: v in r ==> v < graph.nodeCount
      {
        assert names[..i + 1] == names[..i] + [names[i]];
        var n := graph.GetNodeNum(names[i]);
        if n != -1 {
          r := r + {n};
        }
      }
      assert names[..|names|] == names;
    }

    /** Named start states, or every node without incoming edges when no name is given. */
    method GenStartStateNumSet(names: seq<string>)
      requires graph.Valid()
      modifies this`startStateNumSet
      ensures names != [] ==> startStateNumSet == Known(graph.nodeNumMap, names)
      ensures names == [] ==> forall v: nat :: v in startStateNumSet <==> IsSource(graph.Shape(), v)
      ensures forall v :: v in startStateNumSet ==> v < graph.nodeCount
    {
      startStateNumSet := {};
      if |names| > 0 {
        startStateNumSet := NumSet(names);
      } else {
        startStateNumSet := Sources();
      }
    }

    /** The nodes no edge enters, found by striking out every target. */
    method Sources() returns (r: set<nat>)
      requires graph.EdgesValid()
      ensures forall v: nat :: v in r <==> IsSource(graph.Shape(), v)
    {
      r := {};
      var net := graph.Shape();
      var isStart := seq(graph.nodeCount, i => true);
      for i := 0 to |net.to|
        invariant |isStart| == |net.to|
        invariant forall v :: 0 <= v < |isStart| ==>
                    (isStart[v] <==> forall u, j :: 0 <= u < i && net.HasSlot(u, j) ==> net.to[u][j] != v)
      {
        for j := 0 to |net.to[i]|
          invariant |isStart| == |net.to|
          invariant forall v :: 0 <= v < |isStart| ==>
                      (isStart[v] <==>
                        && (forall u, k :: 0 <= u < i && net.HasSlot(u, k) ==> net.to[u][k] != v)
                        && (forall k :: 0 <= k < j ==> net.to[i][k] != v))
        {
          assert net.HasSlot(i, j);
          isStart := isStart[net.to[i][j] := false];
        }
        assert forall k :: net.HasSlot(i, k) <==> 0 <= k < |net.to[i]|;
      }
      for v := 0 to |isStart|
        invariant forall w: nat :: w in r <==> w < v && isStart[w]
      {
        if isStart[v] {
          r := r + {v};
        }
      }
    }

    /** Copies the current path stacks to the end of the result. */
    method AddPath()
      requires Parallel()
      modifies this`statePaths, this`edgePaths, this`stepPaths
      ensures Parallel() && Found() == old(Found()) + [Current()]
    {
      statePaths := statePaths + [statePath];
      edgePaths := edgePaths + [edgePath];
      stepPaths := stepPaths + [stepPath];
    }

    /** Fills position `curPos` of the path stacks, which is their top. */
    method Push(curPos: nat, state: nat, edge: nat, step: int)
      requires curPos == |statePath| >= 1 && |edgePath| == |stepPath| == curPos - 1
      modifies this`statePath, this`edgePath, this`stepPath
      ensures statePath == old(statePath) + [state] && edgePath == old(edgePath) + [edge] && stepPath == old(stepPath) + [step]
    {
      statePath := InsertAt(statePath, curPos, state);
      edgePath := InsertAt(edgePath, curPos - 1, edge);
      stepPath := InsertAt(stepPath, curPos - 1, step);
    }

    /** Removes position `curPos` of the path stacks. */
    method Pop(curPos: nat)
      requires 1 <= curPos < |statePath| && curPos - 1 < |edgePath| && curPos - 1 < |stepPath|
      modifies this`statePath, this`edgePath, this`stepPath
      ensures statePath == RemoveAt(old(statePath), curPos)
      ensures edgePath == RemoveAt(old(edgePath), curPos - 1) && stepPath == RemoveAt(old(stepPath), curPos - 1)
    {
      statePath := RemoveAt(statePath, curPos);
      edgePath := RemoveAt(edgePath, curPos - 1);
      stepPath := RemoveAt(stepPath, curPos - 1);
    }

    /** The inner loop of the two filters. */
    static method ContainsAny(xs: seq<int>, through: set<int>) returns (contain: bool)
      ensures contain <==> exists x :: x in xs && x in through
    {
      contain := false;
      var j := 0;
      while j < |xs|
        invariant 0 <= j <= |xs|
        invariant !contain && forall k :: 0 <= k < j ==> xs[k] !in through
      {
        if xs[j] in through {
          ghost var x := xs[j];
          assert x in xs && x in through;
          return true;
        }
        j := j + 1;
      }
      forall x | x in xs ensures x !in through {
        var k :| 0 <= k < |xs| && xs[k] == x;
      }
    }

    /** Removes the paths that meet no through state; keeps the order of the others. */
    method DelPathWithoutThroughState()
      requires Parallel()
      modifies this`statePaths, this`edgePaths, this`stepPaths
      ensures Parallel()
      ensures Found() == ThroughStates(old(Found()), throughStateNumSet)
    {
      if |throughStateNumSet| == 0 {
        return;
      }
      ghost var all := Found();
      var through := throughStateNumSet;
      ghost var f := (p: Path) => HitsState(p, through);
      var i := |statePaths|;
      assert all[..i] + Keep(all[i..], f) == all;
      while i > 0
        invariant Parallel() && i <= |all|
        invariant Found() == all[..i] + Keep(all[i..], f)
      {
        i := i - 1;
        KeepStep(all, i, f);
        var contain := ContainsAny(statePaths[i], through);
        assert all[i].states == statePaths[i] && all[i].steps == stepPaths[i];
        assert contain <==> f(all[i]);
        if !contain {
          RemoveRow(i);
        }
      }
    }

    /** Removes the paths that take no through step; keeps the order of the others. */
    method DelPathWithoutThroughStep()
      requires Parallel()
      modifies this`statePaths, this`edgePaths, this`stepPaths
      ensures Parallel()
      ensures Found() == ThroughSteps(old(Found()), throughStepNumSet)
    {
      if |throughStepNumSet| == 0 {
        return;
      }
      ghost var all := Found();
      var through := throughStepNumSet;
      ghost var f := (p: Path) => HitsStep(p, through);
      var i := |stepPaths|;
      assert all[..i] + Keep(all[i..], f) == all;
      while i > 0
        invariant Parallel() && i <= |all|
        invariant Found() == all[..i] + Keep(all[i..], f)
      {
        i := i - 1;
        KeepStep(all, i, f);
        var contain := ContainsAny(stepPaths[i], through);
        assert all[i].states == statePaths[i] && all[i].steps == stepPaths[i];
        if contain {
          ghost var x :| x in stepPaths[i] && x in through;
          assert x in all[i].steps;
        }
        assert contain <==> f(all[i]);
        if !contain {
          RemoveRow(i);
        }
      }
    }

    /** Removes position `i` from the three result lists. */
    method RemoveRow(i: nat)
      requires Parallel() && i < |statePaths|
      modifies this`statePaths, this`edgePaths, this`stepPaths
      ensures Parallel() && Found() == RemoveAt(old(Found()), i)
    {
      ZipRemove(statePaths, edgePaths, stepPaths, i);
      statePaths := RemoveAt(statePaths, i);
      edgePaths := RemoveAt(edgePaths, i);
      stepPaths := RemoveAt(stepPaths, i);
    }
  }

  lemma ZipRemove(ss: seq<seq<nat>>, es: seq<seq<nat>>, ts: seq<seq<int>>, i: nat)
    requires |ss| == |es| == |ts| && i < |ss|
    ensures Zip(RemoveAt(ss, i), RemoveAt(es, i), RemoveAt(ts, i)) == RemoveAt(Zip(ss, es, ts), i)
  {
  }

  ghost function Zip(ss: seq<seq<nat>>, es: seq<seq<nat>>, ts: seq<seq<int>>): (ps: seq<Path>)
    requires |ss| == |es| == |ts|
    ensures |ps| == |ss|
  {
    seq(|ss|, i requires 0 <= i < |ss| => Path(ss[i], es[i], ts[i]))
  }
}
