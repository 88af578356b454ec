/** What the state-to-state searches report, in terms of walks. */
module BestWalks {
  import opened Graph
  import opened Walks
  import opened PathAlgo
  import opened Ranking

  /** `w` is complete and no complete walk with the same end is shorter. */
  ghost predicate IsShortest(net: Net, b: Budgets, stop: set<nat>, u: nat, w: seq<Slot>)
    requires Fits(net, b)
  {
    && Complete(net, b, stop, u, w)
    && forall v :: Complete(net, b, stop, u, v) && End(net, u, v) == End(net, u, w) ==> |w| <= |v|
  }

  /** `w` is complete and no complete walk with the same end is longer. */
  ghost predicate IsLongest(net: Net, b: Budgets, stop: set<nat>, u: nat, w: seq<Slot>)
    requires Fits(net, b)
  {
    && Complete(net, b, stop, u, w)
    && forall v :: Complete(net, b, stop, u, v) && End(net, u, v) == End(net, u, w) ==> |w| >= |v|
  }

  ghost predicate TargetsDistinct(net: Net, u: nat, w: seq<Slot>)
    requires IsWalk(net, u, w)
  {
    forall j, k :: 0 <= j < k < |w| ==> Target(net, w[j]) != Target(net, w[k])
  }

  function Cut<T>(w: seq<T>, j: nat, k: nat): seq<T>
    requires j < k < |w|
  {
    w[..j + 1] + w[k + 1..]
  }

  lemma CutBudget(net: Net, b: Budgets, w: seq<Slot>, j: nat, k: nat)
    requires Fits(net, b) && j < k < |w| && WithinBudget(net, b, w)
    ensures WithinBudget(net, b, Cut(w, j, k))
  {
    var c := Cut(w, j, k);
    assert w == w[..j + 1] + w[j + 1..k + 1] + w[k + 1..];
    assert multiset(w) == multiset(c) + multiset(w[j + 1..k + 1]);
    forall v: nat, i: nat | net.HasSlot(v, i) ensures multiset(c)[Slot(v, i)] <= b[v][i] {
      assert multiset(w)[Slot(v, i)] <= b[v][i];
    }
  }

  lemma CutWalk(net: Net, u: nat, w: seq<Slot>, j: nat, k: nat)
    requires IsWalk(net, u, w) && j < k < |w| && Target(net, w[j]) == Target(net, w[k])
    ensures IsWalk(net, u, Cut(w, j, k)) && End(net, u, Cut(w, j, k)) == End(net, u, w)
  {
    var c := Cut(w, j, k);
    assert forall m :: 0 <= m < |c| ==> c[m] == if m <= j then w[m] else w[m + k - j];
  }

  /** Cutting the cycle between two visits of a state keeps a walk that ends in a stop
      state complete. */
  lemma CutCycle(net: Net, b: Budgets, stop: set<nat>, u: nat, w: seq<Slot>, j: nat, k: nat)
    requires Fits(net, b) && stop != {} && Complete(net, b, stop, u, w)
    requires j < k < |w| && Target(net, w[j]) == Target(net, w[k])
    ensures Complete(net, b, stop, u, Cut(w, j, k)) && End(net, u, Cut(w, j, k)) == End(net, u, w)
    ensures |Cut(w, j, k)| < |w|
  {
    CutBudget(net, b, w, j, k);
    CutWalk(net, u, w, j, k);
    assert forall m :: 0 <= m < |Cut(w, j, k)| ==> Cut(w, j, k)[m] in w;
    assert Leaves(Cut(w, j, k), stop);
  }

  /** Every complete walk shortens to one that enters no state twice. */
  lemma {:induction false} Shorten(net: Net, b: Budgets, stop: set<nat>, u: nat, w: seq<Slot>) returns (v: seq<Slot>)
    requires Fits(net, b) && stop != {} && Complete(net, b, stop, u, w)
    ensures Complete(net, b, stop, u, v) && End(net, u, v) == End(net, u, w)
    ensures |v| <= |w| && TargetsDistinct(net, u, v) && (|v| == |w| ==> v == w)
    decreases |w|
  {
    if TargetsDistinct(net, u, w) {
      v := w;
    } else {
      var j, k :| 0 <= j < k < |w| && Target(net, w[j]) == Target(net, w[k]);
      CutCycle(net, b, stop, u, w, j, k);
      v := Shorten(net, b, stop, u, Cut(w, j, k));
    }
  }

  /** What `BestOf` says of one candidate. */
  lemma BestMember(goal: Goal, cands: seq<Path>, q: Path)
    ensures q in BestOf(goal, cands) <==> q in cands && IsBest(goal, NoDist(goal), cands, q)
  {
    KeepMember(cands, p => IsBest(goal, NoDist(goal), cands, p), q);
  }

  lemma {:induction false} KeepDistinct(ps: seq<Path>, f: Path -> bool)
    requires DistinctEdges(ps)
    ensures DistinctEdges(Keep(ps, f))
  {
    if ps != [] {
      assert forall k :: 0 <= k < |ps[1..]| ==> ps[1..][k] == ps[k + 1];
      KeepDistinct(ps[1..], f);
      if f(ps[0]) {
        var rest := Keep(ps[1..], f);
        forall k | 0 <= k < |rest| ensures ps[0].edges != rest[k].edges {
          KeepMember(ps[1..], f, rest[k]);
        }
      }
    }
  }

  lemma TraceStart(net: Net, u: nat, w: seq<Slot>)
    requires net.Shaped() && IsWalk(net, u, w)
    ensures Append(net, Start(u), w) == Trace(net, u, w)
    ensures |Trace(net, u, w).states| == |w| + 1 && Last(Trace(net, u, w)) == End(net, u, w)
  {
  }

  /** The pruned search visits every complete walk that enters no state twice, */
  lemma SimpleVisited(net: Net, b: Budgets, stop: set<nat>, u: nat, w: seq<Slot>)
    requires net.Shaped() && Fits(net, b) && u < |net.to| && Complete(net, b, stop, u, w) && TargetsDistinct(net, u, w)
    requires |w| + 1 <= MAX_PATH_DIST
    ensures Trace(net, u, w) in Visit(net, b, stop, Pruned, Start(u))
    ensures |Trace(net, u, w).states| == |w| + 1 && Last(Trace(net, u, w)) == End(net, u, w)
  {
    hide Visit, Leaves, Stuck, WithinBudget, Append, Trace;
    assert Followed(net, Pruned, Start(u), w);
    VisitCovers(net, b, stop, Pruned, Start(u), w);
    TraceStart(net, u, w);
  }

  /** and no other. */
  lemma SimpleSound(net: Net, b: Budgets, stop: set<nat>, u: nat, k: nat) returns (v: seq<Slot>)
    requires net.Shaped() && Fits(net, b) && u < |net.to| && k < |Visit(net, b, stop, Pruned, Start(u))|
    ensures Complete(net, b, stop, u, v) && TargetsDistinct(net, u, v) && Visit(net, b, stop, Pruned, Start(u))[k] == Trace(net, u, v)
    ensures |Trace(net, u, v).states| == |v| + 1 && Last(Trace(net, u, v)) == End(net, u, v)
  {
    hide Visit, Leaves, Stuck, WithinBudget, Append, Trace;
    v := VisitSound(net, b, stop, Pruned, Start(u), k);
    TraceStart(net, u, v);
  }

  /** `w` is complete, enters no state twice, and is shortest among such walks. */
  ghost predicate IsShortestSimple(net: Net, b: Budgets, stop: set<nat>, u: nat, w: seq<Slot>)
    requires Fits(net, b)
  {
    && Complete(net, b, stop, u, w) && TargetsDistinct(net, u, w)
    && forall v :: Complete(net, b, stop, u, v) && TargetsDistinct(net, u, v) && End(net, u, v) == End(net, u, w)
                   ==> |w| <= |v|
  }

  lemma ReportedIsSimple(net: Net, b: Budgets, stop: set<nat>, u: nat, q: Path) returns (w: seq<Slot>)
    requires net.Shaped() && Fits(net, b) && u < |net.to|
    requires q in BestOf(Shortest, Visit(net, b, stop, Pruned, Start(u)))
    ensures IsShortestSimple(net, b, stop, u, w) && |w| + 1 <= MAX_PATH_DIST && q == Trace(net, u, w)
  {
    var cands := Visit(net, b, stop, Pruned, Start(u));
    BestMember(Shortest, cands, q);
    var k: nat :| k < |cands| && cands[k] == q;
    w := VisitSound(net, b, stop, Pruned, Start(u), k);
    TraceStart(net, u, w);
    forall v | Complete(net, b, stop, u, v) && TargetsDistinct(net, u, v) && End(net, u, v) == End(net, u, w)
      ensures |w| <= |v|
    {
      if |v| <= MAX_PATH_DIST {
        assert Followed(net, Pruned, Start(u), v);
        VisitCovers(net, b, stop, Pruned, Start(u), v);
        TraceStart(net, u, v);
      }
    }
  }

  lemma SimpleIsReported(net: Net, b: Budgets, stop: set<nat>, u: nat, w: seq<Slot>)
    requires net.Shaped() && Fits(net, b) && u < |net.to|
    requires IsShortestSimple(net, b, stop, u, w) && |w| + 1 <= MAX_PATH_DIST
    ensures Trace(net, u, w) in BestOf(Shortest, Visit(net, b, stop, Pruned, Start(u)))
  {
    hide Visit, BestOf, Leaves, Stuck, WithinBudget, Append, Trace;
    var cands := Visit(net, b, stop, Pruned, Start(u));
    SimpleVisited(net, b, stop, u, w);
    var q := Trace(net, u, w);
    forall r | r in cands && r.states != [] && Last(r) == Last(q) ensures |q.states| <= |r.states| {
      var k: nat :| k < |cands| && cands[k] == r;
      var v := SimpleSound(net, b, stop, u, k);
    }
    BestMember(Shortest, cands, q);
  }

  /** The short state-to-state search from one start state on a fresh object, with any
      stop set: it reports exactly the shortest among the complete walks that enter no
      state twice, each once, up to the largest comparable distance. */
  lemma ShortSimpleExact(net: Net, b: Budgets, stop: set<nat>, u: nat, n: nat, q: Path)
    requires net.Valid() && Fits(net, b) && u < |net.to| <= n
    ensures var found := Rounds(Shortest, Pruned, net, b, stop, n, [], [u]).1;
            && DistinctEdges(found)
            && (q in found <==> exists w :: IsShortestSimple(net, b, stop, u, w) && |w| + 1 <= MAX_PATH_DIST && q == Trace(net, u, w))
  {
    var cands := Visit(net, b, stop, Pruned, Start(u));
    OneRound(Shortest, Pruned, net, b, stop, n, u);
    VisitDistinct(net, b, stop, Pruned, Start(u));
    KeepDistinct(cands, r => IsBest(Shortest, NoDist(Shortest), cands, r));
    if q in BestOf(Shortest, cands) {
      var w := ReportedIsSimple(net, b, stop, u, q);
    }
    if w :| IsShortestSimple(net, b, stop, u, w) && |w| + 1 <= MAX_PATH_DIST && q == Trace(net, u, w) {
      SimpleIsReported(net, b, stop, u, w);
    }
  }

  /** With stop states, entering no state twice is no restriction on shortest walks. */
  lemma ShortestIsSimple(net: Net, b: Budgets, stop: set<nat>, u: nat, w: seq<Slot>)
    requires Fits(net, b) && stop != {}
    ensures IsShortest(net, b, stop, u, w) <==> IsShortestSimple(net, b, stop, u, w)
  {
    if IsShortest(net, b, stop, u, w) {
      var s := Shorten(net, b, stop, u, w);
    }
    if IsShortestSimple(net, b, stop, u, w) {
      forall v | Complete(net, b, stop, u, v) && End(net, u, v) == End(net, u, w) ensures |w| <= |v| {
        var s := Shorten(net, b, stop, u, v);
      }
    }
  }

  /** The short state-to-state search from one start state on a fresh object, with stop
      states: it reports a path if and only if it is the trace of a shortest complete
      walk to its end state that is not longer than the largest comparable distance;
      every such walk is reported, each once. */
  lemma ShortestExact(net: Net, b: Budgets, stop: set<nat>, u: nat, n: nat, q: Path)
    requires net.Valid() && Fits(net, b) && u < |net.to| <= n && stop != {}
    ensures var found := Rounds(Shortest, Pruned, net, b, stop, n, [], [u]).1;
            && DistinctEdges(found)
            && (q in found <==> exists w :: IsShortest(net, b, stop, u, w) && |w| + 1 <= MAX_PATH_DIST && q == Trace(net, u, w))
  {
    ShortSimpleExact(net, b, stop, u, n, q);
    forall w ensures IsShortest(net, b, stop, u, w) <==> IsShortestSimple(net, b, stop, u, w) {
      ShortestIsSimple(net, b, stop, u, w);
    }
  }

  /** Which shortest complete walks the short search reports, for any stop set: exactly
      those that enter no state twice. */
  lemma ShortReportsIffSimple(net: Net, b: Budgets, stop: set<nat>, u: nat, n: nat, w: seq<Slot>)
    requires net.Valid() && Fits(net, b) && u < |net.to| <= n
    requires IsShortest(net, b, stop, u, w) && |w| + 1 <= MAX_PATH_DIST
    ensures Trace(net, u, w) in Rounds(Shortest, Pruned, net, b, stop, n, [], [u]).1 <==> TargetsDistinct(net, u, w)
  {
    var q := Trace(net, u, w);
    ShortSimpleExact(net, b, stop, u, n, q);
    if q in Rounds(Shortest, Pruned, net, b, stop, n, [], [u]).1 {
      var v :| IsShortestSimple(net, b, stop, u, v) && |v| + 1 <= MAX_PATH_DIST && q == Trace(net, u, v);
      EdgesDetermineWalk(net, u, w, v);
    }
    if TargetsDistinct(net, u, w) {
      assert IsShortestSimple(net, b, stop, u, w);
    }
  }

  lemma ReportedIsLongest(net: Net, b: Budgets, stop: set<nat>, u: nat, q: Path) returns (w: seq<Slot>)
    requires net.Valid() && Fits(net, b) && u < |net.to|
    requires q in BestOf(Longest, AllPaths(net, b, stop, u))
    ensures IsLongest(net, b, stop, u, w) && q == Trace(net, u, w)
  {
    var all := AllPaths(net, b, stop, u);
    BestMember(Longest, all, q);
    AllPathsExact(net, b, stop, u, q);
    w :| Complete(net, b, stop, u, w) && q == Trace(net, u, w);
    TraceStart(net, u, w);
    forall v | Complete(net, b, stop, u, v) && End(net, u, v) == End(net, u, w) ensures |v| <= |w| {
      AllPathsExact(net, b, stop, u, Trace(net, u, v));
      TraceStart(net, u, v);
    }
  }

  lemma LongestIsReported(net: Net, b: Budgets, stop: set<nat>, u: nat, w: seq<Slot>)
    requires net.Valid() && Fits(net, b) && u < |net.to| && IsLongest(net, b, stop, u, w)
    ensures Trace(net, u, w) in BestOf(Longest, AllPaths(net, b, stop, u))
  {
    var all, q := AllPaths(net, b, stop, u), Trace(net, u, w);
    AllPathsExact(net, b, stop, u, q);
    TraceStart(net, u, w);
    forall r | r in all && r.states != [] && Last(r) == Last(q) ensures |q.states| >= |r.states| {
      AllPathsExact(net, b, stop, u, r);
      var v :| Complete(net, b, stop, u, v) && r == Trace(net, u, v);
      TraceStart(net, u, v);
    }
    BestMember(Longest, all, q);
  }

  /** The long state-to-state search from one start state on a fresh object reports
      exactly the longest complete walks to each end state, each once. */
  lemma LongestExact(net: Net, b: Budgets, stop: set<nat>, u: nat, n: nat, q: Path)
    requires net.Valid() && Fits(net, b) && u < |net.to| <= n
    ensures var found := Rounds(Longest, Full, net, b, stop, n, [], [u]).1;
            && DistinctEdges(found)
            && (q in found <==> exists w :: IsLongest(net, b, stop, u, w) && q == Trace(net, u, w))
  {
    var all := AllPaths(net, b, stop, u);
    OneRound(Longest, Full, net, b, stop, n, u);
    AllPathsExact(net, b, stop, u, q);
    KeepDistinct(all, r => IsBest(Longest, NoDist(Longest), all, r));
    if q in BestOf(Longest, all) {
      var w := ReportedIsLongest(net, b, stop, u, q);
    }
    if w :| IsLongest(net, b, stop, u, w) && q == Trace(net, u, w) {
      LongestIsReported(net, b, stop, u, w);
    }
  }

  /** One edge into a state with a self loop. */
  const LOOP_NET := Net([[1], [1]], [[1], [2]], [[0], [0]])
  const LOOP_BUDGETS: Budgets := [[1], [1]]
  const LOOP_WALK := [Slot(0, 0), Slot(1, 0)]

  lemma LoopFacts()
    ensures LOOP_NET.Valid() && Fits(LOOP_NET, LOOP_BUDGETS) && Complete(LOOP_NET, LOOP_BUDGETS, {}, 0, LOOP_WALK)
  {
    assert forall u, i :: LOOP_NET.HasSlot(u, i) ==> i == 0 && (u == 0 || u == 1);
    assert multiset(LOOP_WALK) == multiset{Slot(0, 0), Slot(1, 0)};
  }

  lemma LoopShortest(v: seq<Slot>)
    requires Fits(LOOP_NET, LOOP_BUDGETS) && Complete(LOOP_NET, LOOP_BUDGETS, {}, 0, v)
    ensures |v| >= 2
  {
    assert LOOP_NET.HasSlot(0, 0) && LOOP_NET.HasSlot(1, 0);
    assert multiset(v)[Slot(1, 0)] > 0 ==> exists k :: 0 <= k < |v| && v[k] == Slot(1, 0);
  }

  /** Without stop states the short search can lose the only walk: the walk over both
      edges is complete and shortest, and nothing reports it. */
  lemma ShortLosesLoopWalk()
    ensures LOOP_NET.Valid() && Fits(LOOP_NET, LOOP_BUDGETS)
    ensures IsShortest(LOOP_NET, LOOP_BUDGETS, {}, 0, LOOP_WALK)
    ensures Trace(LOOP_NET, 0, LOOP_WALK) !in Rounds(Shortest, Pruned, LOOP_NET, LOOP_BUDGETS, {}, 2, [], [0]).1
  {
    LoopFacts();
    forall v | Complete(LOOP_NET, LOOP_BUDGETS, {}, 0, v) ensures |v| >= 2 {
      LoopShortest(v);
    }
    var q := Trace(LOOP_NET, 0, LOOP_WALK);
    if q in Rounds(Shortest, Pruned, LOOP_NET, LOOP_BUDGETS, {}, 2, [], [0]).1 {
      ShortSimpleExact(LOOP_NET, LOOP_BUDGETS, {}, 0, 2, q);
      var v :| IsShortestSimple(LOOP_NET, LOOP_BUDGETS, {}, 0, v) && q == Trace(LOOP_NET, 0, v);
      EdgesDetermineWalk(LOOP_NET, 0, LOOP_WALK, v);
    }
  }
}
