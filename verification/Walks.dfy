/** Walks through a graph, the sequence of paths a depth first search visits, and
    the proof that the search visits every admissible walk exactly once. */
module Walks {
  import opened Graph

  /** One outgoing adjacency slot of a node. */
  datatype Slot = Slot(src: nat, idx: nat)

  /** The three parallel lists the searches report for one walk. */
  datatype Path = Path(states: seq<nat>, edges: seq<nat>, steps: seq<int>)

  /** The largest path length the pruned searches can compare. */
  const MAX_PATH_DIST := 99999999
  const MIN_PATH_DIST := -1

  /** Whether a search prunes on the positions of the states of its current path. */
  datatype Mode = Full | Pruned

  // ---------- the reference: walks as sequences of slots ----------

  function Target(net: Net, s: Slot): nat
    requires net.HasSlot(s.src, s.idx)
  {
    net.to[s.src][s.idx]
  }

  /** `w` starts at `u` and every slot leaves the node its predecessor enters. */
  ghost predicate IsWalk(net: Net, u: nat, w: seq<Slot>) {
    && (forall k :: 0 <= k < |w| ==> net.HasSlot(w[k].src, w[k].idx))
    && (w != [] ==> w[0].src == u)
    && (forall k :: 0 < k < |w| ==> w[k].src == Target(net, w[k - 1]))
  }

  ghost function End(net: Net, u: nat, w: seq<Slot>): nat
    requires IsWalk(net, u, w)
  {
    if w == [] then u else Target(net, w[|w| - 1])
  }

  /** No slot is used more often than its budget. */
  ghost predicate WithinBudget(net: Net, b: Budgets, w: seq<Slot>)
    requires Fits(net, b)
  {
    forall u: nat, i: nat :: net.HasSlot(u, i) ==> multiset(w)[Slot(u, i)] <= b[u][i]
  }

  /** Every slot leaving `u` has used up its budget. */
  ghost predicate Stuck(net: Net, b: Budgets, u: nat, w: seq<Slot>)
    requires Fits(net, b)
  {
    forall i: nat :: net.HasSlot(u, i) ==> multiset(w)[Slot(u, i)] >= b[u][i]
  }

  ghost predicate Leaves(w: seq<Slot>, stop: set<nat>) {
    forall k :: 0 <= k < |w| ==> w[k].src !in stop
  }

  /** A walk worth reporting: it keeps the budgets, meets the stop set for the first
      time at its end, or, when no stop state is given, cannot be extended. */
  ghost predicate Complete(net: Net, b: Budgets, stop: set<nat>, u: nat, w: seq<Slot>)
    requires Fits(net, b)
  {
    && IsWalk(net, u, w)
    && WithinBudget(net, b, w)
    && Leaves(w, stop)
    && (End(net, u, w) in stop || (stop == {} && Stuck(net, b, End(net, u, w), w)))
  }

  /** The lists reported for a walk. */
  ghost function Trace(net: Net, u: nat, w: seq<Slot>): Path
    requires net.Shaped() && IsWalk(net, u, w)
  {
    Path([u] + seq(|w|, k requires 0 <= k < |w| => Target(net, w[k])),
         seq(|w|, k requires 0 <= k < |w| => net.num[w[k].src][w[k].idx]),
         seq(|w|, k requires 0 <= k < |w| => net.step[w[k].src][w[k].idx]))
  }

  // ---------- the search ----------

  function SumRow(r: seq<nat>): nat {
    if r == [] then 0 else r[0] + SumRow(r[1..])
  }

  /** The sum of the remaining budgets; it bounds the depth of every search. */
  function Total(b: Budgets): nat {
    if b == [] then 0 else SumRow(b[0]) + Total(b[1..])
  }

  function Spend(b: Budgets, u: nat, i: nat): Budgets
    requires u < |b| && i < |b[u]| && b[u][i] > 0
  {
    b[u := b[u][i := b[u][i] - 1]]
  }

  lemma SpendRestore(b: Budgets, u: nat, i: nat)
    requires u < |b| && i < |b[u]| && b[u][i] > 0
    ensures SetBudget(b, u, i, b[u][i] - 1) == Spend(b, u, i)
    ensures SetBudget(Spend(b, u, i), u, i, b[u][i]) == b
  {
    var b' := SetBudget(Spend(b, u, i), u, i, b[u][i]);
    assert b'[u] == b[u];
  }

  lemma {:induction false} SumRowSpend(r: seq<nat>, i: nat)
    requires i < |r| && r[i] > 0
    ensures SumRow(r[i := r[i] - 1]) == SumRow(r) - 1
  {
    if i > 0 {
      SumRowSpend(r[1..], i - 1);
      assert r[i := r[i] - 1][1..] == r[1..][i - 1 := r[i] - 1];
    } else {
      assert r[i := r[i] - 1][1..] == r[1..];
    }
  }

  lemma {:induction false} TotalSpend(b: Budgets, u: nat, i: nat)
    requires u < |b| && i < |b[u]| && b[u][i] > 0
    ensures Total(Spend(b, u, i)) == Total(b) - 1
  {
    if u > 0 {
      TotalSpend(b[1..], u - 1, i);
      assert Spend(b, u, i)[1..] == Spend(b[1..], u - 1, i);
    } else {
      SumRowSpend(b[0], i);
      assert Spend(b, u, i)[1..] == b[1..];
    }
  }

  ghost predicate Open(net: Net, b: Budgets, p: Path) {
    && net.Shaped() && Fits(net, b)
    && |p.states| >= 1 && |p.edges| == |p.steps| == |p.states| - 1
    && p.states[|p.states| - 1] < |net.to|
  }

  function Last(p: Path): nat
    requires |p.states| >= 1
  {
    p.states[|p.states| - 1]
  }

  function Extend(net: Net, p: Path, i: nat): Path
    requires |p.states| >= 1 && net.Shaped() && net.HasSlot(Last(p), i)
  {
    var u := Last(p);
    Path(p.states + [net.to[u][i]], p.edges + [net.num[u][i]], p.steps + [net.step[u][i]])
  }

  /** A pruned search skips a state that its path already entered (the start state
      is not entered) and every state beyond the largest distance. */
  predicate Skips(mode: Mode, p: Path, v: nat)
    requires |p.states| >= 1
  {
    mode.Pruned? && (v in p.states[1..] || |p.states| > MAX_PATH_DIST)
  }

  /** Some slot of `u` at or after `i` has budget left. */
  ghost predicate CanMove(b: Budgets, u: nat, i: nat)
    requires u < |b|
  {
    exists j :: i <= j < |b[u]| && b[u][j] > 0
  }

  /** The paths visited from `p`, in order. */
  ghost function Visit(net: Net, b: Budgets, stop: set<nat>, mode: Mode, p: Path): seq<Path>
    requires Open(net, b, p)
    decreases Total(b), 1, 0
  {
    if Last(p) in stop then [p]
    else if stop == {} && !CanMove(b, Last(p), 0) then [p]
    else Branches(net, b, stop, mode, p, 0)
  }

  /** The paths visited through the slots from `i` on. */
  ghost function Branches(net: Net, b: Budgets, stop: set<nat>, mode: Mode, p: Path, i: nat): seq<Path>
    requires Open(net, b, p) && i <= |net.to[Last(p)]|
    decreases Total(b), 0, |net.to[Last(p)]| - i
  {
    if i == |net.to[Last(p)]| then []
    else
      (if b[Last(p)][i] > 0 && !Skips(mode, p, net.to[Last(p)][i]) then
         TotalSpend(b, Last(p), i);
         Visit(net, Spend(b, Last(p), i), stop, mode, Extend(net, p, i))
       else [])
      + Branches(net, b, stop, mode, p, i + 1)
  }

  function Start(u: nat): Path {
    Path([u], [], [])
  }

  /** The complete enumeration from one start state. */
  ghost function AllPaths(net: Net, b: Budgets, stop: set<nat>, u: nat): seq<Path>
    requires net.Shaped() && Fits(net, b) && u < |net.to|
  {
    Visit(net, b, stop, Full, Start(u))
  }

  // ---------- the search visits exactly the complete walks ----------

  ghost function Append(net: Net, p: Path, w: seq<Slot>): Path
    requires |p.states| >= 1 && net.Shaped() && IsWalk(net, Last(p), w)
  {
    var t := Trace(net, Last(p), w);
    Path(p.states + t.states[1..], p.edges + t.edges, p.steps + t.steps)
  }

  /** A pruned search follows `w` from `p` without skipping any of its states. */
  ghost predicate Followed(net: Net, mode: Mode, p: Path, w: seq<Slot>)
    requires |p.states| >= 1 && net.Shaped() && IsWalk(net, Last(p), w)
  {
    mode.Pruned? ==>
      && (forall k :: 0 <= k < |w| ==> Target(net, w[k]) !in p.states[1..])
      && (forall j, k :: 0 <= j < k < |w| ==> Target(net, w[j]) != Target(net, w[k]))
      && (w != [] ==> |p.states| + |w| - 1 <= MAX_PATH_DIST)
  }

  lemma WalkCons(net: Net, s: Slot, w: seq<Slot>)
    requires net.HasSlot(s.src, s.idx)
    ensures IsWalk(net, Target(net, s), w) <==> IsWalk(net, s.src, [s] + w)
    ensures IsWalk(net, Target(net, s), w) ==> End(net, Target(net, s), w) == End(net, s.src, [s] + w)
  {
    var w' := [s] + w;
    if IsWalk(net, s.src, w') {
      forall k | 0 <= k < |w| ensures net.HasSlot(w[k].src, w[k].idx) {
        assert w'[k + 1] == w[k];
      }
      forall k | 0 < k < |w| ensures w[k].src == Target(net, w[k - 1]) {
        assert w'[k + 1] == w[k] && w'[k] == w[k - 1];
      }
      assert w != [] ==> w'[1] == w[0];
    }
  }

  /** Spending a slot and then keeping the rest within budget is keeping the whole
      within budget; likewise for using budgets up. */
  lemma BudgetCons(net: Net, b: Budgets, u: nat, i: nat, w: seq<Slot>)
    requires Fits(net, b) && net.HasSlot(u, i) && b[u][i] > 0
    ensures WithinBudget(net, Spend(b, u, i), w) <==> WithinBudget(net, b, [Slot(u, i)] + w)
    ensures forall e: nat :: Stuck(net, Spend(b, u, i), e, w) <==> Stuck(net, b, e, [Slot(u, i)] + w)
  {
    var b', s, w' := Spend(b, u, i), Slot(u, i), [Slot(u, i)] + w;
    assert multiset(w') == multiset{s} + multiset(w);
    assert forall v: nat, j: nat :: net.HasSlot(v, j) ==>
      multiset(w')[Slot(v, j)] + b'[v][j] == multiset(w)[Slot(v, j)] + b[v][j];
    forall v: nat, j: nat | net.HasSlot(v, j) && WithinBudget(net, b', w)
      ensures multiset(w')[Slot(v, j)] <= b[v][j] {
      assert multiset(w)[Slot(v, j)] <= b'[v][j];
    }
    forall v: nat, j: nat | net.HasSlot(v, j) && WithinBudget(net, b, w')
      ensures multiset(w)[Slot(v, j)] <= b'[v][j] {
      assert multiset(w')[Slot(v, j)] <= b[v][j];
    }
    forall e: nat ensures Stuck(net, b', e, w) <==> Stuck(net, b, e, w') {
      forall j: nat | net.HasSlot(e, j) && Stuck(net, b', e, w) ensures multiset(w')[Slot(e, j)] >= b[e][j] {
        assert multiset(w)[Slot(e, j)] >= b'[e][j];
      }
      forall j: nat | net.HasSlot(e, j) && Stuck(net, b, e, w') ensures multiset(w)[Slot(e, j)] >= b'[e][j] {
        assert multiset(w')[Slot(e, j)] >= b[e][j];
      }
    }
  }

  /** Taking slot `i` first and then walking `w` is the walk `[Slot(u, i)] + w`. */
  lemma StepWalk(net: Net, b: Budgets, stop: set<nat>, u: nat, i: nat, w: seq<Slot>)
    requires Fits(net, b) && net.HasSlot(u, i) && b[u][i] > 0 && u !in stop
    ensures Complete(net, Spend(b, u, i), stop, net.to[u][i], w) <==> Complete(net, b, stop, u, [Slot(u, i)] + w)
  {
    WalkCons(net, Slot(u, i), w);
    BudgetCons(net, b, u, i, w);
    LeavesCons(Slot(u, i), w, stop);
  }

  lemma LeavesCons(s: Slot, w: seq<Slot>, stop: set<nat>)
    requires s.src !in stop
    ensures Leaves(w, stop) <==> Leaves([s] + w, stop)
  {
    if Leaves([s] + w, stop) {
      forall k | 0 <= k < |w| ensures w[k].src !in stop { assert ([s] + w)[k + 1] == w[k]; }
    }
  }

  lemma AppendCons(net: Net, p: Path, i: nat, w: seq<Slot>)
    requires |p.states| >= 1 && net.Shaped() && net.HasSlot(Last(p), i)
    requires IsWalk(net, net.to[Last(p)][i], w)
    ensures IsWalk(net, Last(p), [Slot(Last(p), i)] + w)
    ensures Append(net, Extend(net, p, i), w) == Append(net, p, [Slot(Last(p), i)] + w)
  {
    WalkCons(net, Slot(Last(p), i), w);
    var l, r := Append(net, Extend(net, p, i), w), Append(net, p, [Slot(Last(p), i)] + w);
    assert l.states == r.states;
    assert l.edges == r.edges;
    assert l.steps == r.steps;
  }

  lemma FollowedCons(net: Net, mode: Mode, p: Path, i: nat, w: seq<Slot>)
    requires |p.states| >= 1 && net.Shaped() && net.HasSlot(Last(p), i)
    requires IsWalk(net, net.to[Last(p)][i], w) && IsWalk(net, Last(p), [Slot(Last(p), i)] + w)
    ensures !Skips(mode, p, net.to[Last(p)][i]) && Followed(net, mode, Extend(net, p, i), w)
            <==> Followed(net, mode, p, [Slot(Last(p), i)] + w)
  {
    var s, q := Slot(Last(p), i), Extend(net, p, i);
    var w' := [s] + w;
    var v := Target(net, s);
    assert q.states[1..] == p.states[1..] + [v];
    if mode.Pruned? {
      if !Skips(mode, p, v) && Followed(net, mode, q, w) {
        assert Followed(net, mode, p, w');
      }
      if Followed(net, mode, p, w') {
        assert Target(net, w'[0]) == v;
        forall k | 0 <= k < |w| ensures Target(net, w[k]) !in q.states[1..] {
          assert w'[k + 1] == w[k];
        }
        forall j, k | 0 <= j < k < |w| ensures Target(net, w[j]) != Target(net, w[k]) {
          assert w'[k + 1] == w[k] && w'[j + 1] == w[j];
        }
      }
    }
  }

  lemma Step(net: Net, b: Budgets, stop: set<nat>, mode: Mode, p: Path, i: nat, w: seq<Slot>)
    requires Open(net, b, p) && net.HasSlot(Last(p), i) && b[Last(p)][i] > 0 && Last(p) !in stop
    requires IsWalk(net, net.to[Last(p)][i], w)
    ensures var q, w' := Extend(net, p, i), [Slot(Last(p), i)] + w;
            && IsWalk(net, Last(p), w')
            && (Complete(net, Spend(b, Last(p), i), stop, Last(q), w) <==> Complete(net, b, stop, Last(p), w'))
            && Append(net, q, w) == Append(net, p, w')
            && (!Skips(mode, p, Last(q)) && Followed(net, mode, q, w) <==> Followed(net, mode, p, w'))
  {
    StepWalk(net, b, stop, Last(p), i, w);
    AppendCons(net, p, i, w);
    FollowedCons(net, mode, p, i, w);
  }

  /** An unfinished path is only completed by a walk through some slot with budget. */
  lemma EmptyWalk(net: Net, b: Budgets, stop: set<nat>, p: Path)
    requires Open(net, b, p)
    ensures Complete(net, b, stop, Last(p), []) <==> Last(p) in stop || (stop == {} && !CanMove(b, Last(p), 0))
  {
    var u := Last(p);
    if stop == {} && Stuck(net, b, u, []) && CanMove(b, u, 0) {
      var j: nat :| j < |b[u]| && b[u][j] > 0;
      assert net.HasSlot(u, j);
    }
  }

  /** Everything visited is a complete walk. */
  lemma {:induction false} VisitSound(net: Net, b: Budgets, stop: set<nat>, mode: Mode, p: Path, k: nat)
    returns (w: seq<Slot>)
    requires Open(net, b, p) && k < |Visit(net, b, stop, mode, p)|
    ensures Complete(net, b, stop, Last(p), w) && Followed(net, mode, p, w)
    ensures Visit(net, b, stop, mode, p)[k] == Append(net, p, w)
    decreases Total(b), 1, 0
  {
    EmptyWalk(net, b, stop, p);
    if Complete(net, b, stop, Last(p), []) {
      w := [];
      assert Append(net, p, w) == p;
    } else {
      w := BranchesSound(net, b, stop, mode, p, 0, k);
    }
  }

  lemma {:induction false} BranchesSound(net: Net, b: Budgets, stop: set<nat>, mode: Mode, p: Path, i: nat, k: nat)
    returns (w: seq<Slot>)
    requires Open(net, b, p) && i <= |net.to[Last(p)]| && Last(p) !in stop
    requires k < |Branches(net, b, stop, mode, p, i)|
    ensures Complete(net, b, stop, Last(p), w) && Followed(net, mode, p, w)
    ensures Branches(net, b, stop, mode, p, i)[k] == Append(net, p, w)
    decreases Total(b), 0, |net.to[Last(p)]| - i
  {
    hide Visit, Complete, Followed, Append, Skips;
    if b[Last(p)][i] > 0 && !Skips(mode, p, net.to[Last(p)][i]) {
      var q, b' := Extend(net, p, i), Spend(b, Last(p), i);
      TotalSpend(b, Last(p), i);
      var first := Visit(net, b', stop, mode, q);
      if k < |first| {
        var w0 := VisitSound(net, b', stop, mode, q, k);
        Step(net, b, stop, mode, p, i, w0);
        w := [Slot(Last(p), i)] + w0;
      } else {
        w := BranchesSound(net, b, stop, mode, p, i + 1, k - |first|);
      }
    } else {
      w := BranchesSound(net, b, stop, mode, p, i + 1, k);
    }
  }

  /** Every complete walk the mode follows is visited. */
  lemma {:induction false} VisitCovers(net: Net, b: Budgets, stop: set<nat>, mode: Mode, p: Path, w: seq<Slot>)
    requires Open(net, b, p) && Complete(net, b, stop, Last(p), w) && Followed(net, mode, p, w)
    ensures Append(net, p, w) in Visit(net, b, stop, mode, p)
    decreases Total(b), 1, 0
  {
    EmptyWalk(net, b, stop, p);
    if w == [] {
      assert Append(net, p, w) == p;
    } else {
      var i := w[0].idx;
      assert w[0] == Slot(Last(p), i) && w[0] in multiset(w);
      assert multiset(w)[Slot(Last(p), i)] <= b[Last(p)][i];
      assert CanMove(b, Last(p), 0);
      assert w == [Slot(Last(p), i)] + w[1..];
      WalkCons(net, w[0], w[1..]);
      BranchCovers(net, b, stop, mode, p, 0, i, w[1..]);
    }
  }

  lemma {:induction false} BranchCovers(net: Net, b: Budgets, stop: set<nat>, mode: Mode, p: Path,
                                        i: nat, j: nat, w: seq<Slot>)
    requires Open(net, b, p) && Last(p) !in stop && i <= j < |net.to[Last(p)]| && b[Last(p)][j] > 0
    requires IsWalk(net, net.to[Last(p)][j], w)
    requires Complete(net, b, stop, Last(p), [Slot(Last(p), j)] + w)
    requires Followed(net, mode, p, [Slot(Last(p), j)] + w)
    ensures Append(net, p, [Slot(Last(p), j)] + w) in Branches(net, b, stop, mode, p, i)
    decreases Total(b), 0, |net.to[Last(p)]| - i
  {
    hide Visit, Complete, Followed, Append;
    if i < j {
      BranchCovers(net, b, stop, mode, p, i + 1, j, w);
    } else {
      Step(net, b, stop, mode, p, i, w);
      TotalSpend(b, Last(p), i);
      VisitCovers(net, Spend(b, Last(p), i), stop, mode, Extend(net, p, i), w);
    }
  }

  // ---------- each walk is visited once ----------

  ghost predicate DistinctEdges(ps: seq<Path>) {
    forall j, k :: 0 <= j < k < |ps| ==> ps[j].edges != ps[k].edges
  }

  /** All edge lists continue `edges`. */
  ghost predicate Continue(ps: seq<Path>, edges: seq<nat>) {
    forall k :: 0 <= k < |ps| ==> edges <= ps[k].edges
  }

  lemma {:induction false} VisitDistinct(net: Net, b: Budgets, stop: set<nat>, mode: Mode, p: Path)
    requires Open(net, b, p) && net.NumbersUnique()
    ensures DistinctEdges(Visit(net, b, stop, mode, p)) && Continue(Visit(net, b, stop, mode, p), p.edges)
    decreases Total(b), 1, 0
  {
    if Last(p) !in stop && !(stop == {} && !CanMove(b, Last(p), 0)) {
      BranchesDistinct(net, b, stop, mode, p, 0);
    }
  }

  lemma {:induction false} BranchesDistinct(net: Net, b: Budgets, stop: set<nat>, mode: Mode, p: Path, i: nat)
    requires Open(net, b, p) && net.NumbersUnique() && i <= |net.to[Last(p)]|
    ensures DistinctEdges(Branches(net, b, stop, mode, p, i))
    ensures ContinueWith(Branches(net, b, stop, mode, p, i), p.edges, net.num[Last(p)][i..])
    decreases Total(b), 0, |net.to[Last(p)]| - i
  {
    hide DistinctEdges, Continue, ContinueWith, Net.NumbersUnique, Visit, Total;
    var u := Last(p);
    if i < |net.to[u]| {
      BranchesDistinct(net, b, stop, mode, p, i + 1);
      var rest := Branches(net, b, stop, mode, p, i + 1);
      var first := [];
      assert net.num[u][i..] == [net.num[u][i]] + net.num[u][i + 1..];
      NoneDistinct(p.edges + [net.num[u][i]], []);
      if b[u][i] > 0 && !Skips(mode, p, net.to[u][i]) {
        TotalSpend(b, u, i);
        first := Visit(net, Spend(b, u, i), stop, mode, Extend(net, p, i));
        VisitDistinct(net, Spend(b, u, i), stop, mode, Extend(net, p, i));
      }
      NumberNotLater(net, u, i);
      JoinDistinct(first, rest, p.edges, net.num[u][i], net.num[u][i + 1..]);
      assert Branches(net, b, stop, mode, p, i) == first + rest;
    } else {
      NoneDistinct(p.edges, net.num[u][i..]);
    }
  }

  lemma NoneDistinct(edges: seq<nat>, next: seq<nat>)
    ensures DistinctEdges([]) && Continue([], edges) && ContinueWith([], edges, next)
  {
  }

  /** All edge lists continue `edges` with one of `next`. */
  ghost predicate ContinueWith(ps: seq<Path>, edges: seq<nat>, next: seq<nat>) {
    forall k :: 0 <= k < |ps| ==> edges < ps[k].edges && ps[k].edges[|edges|] in next
  }

  lemma NumberNotLater(net: Net, u: nat, i: nat)
    requires net.Valid() && net.HasSlot(u, i)
    ensures net.num[u][i] !in net.num[u][i + 1..]
  {
    var later := net.num[u][i + 1..];
    forall m | 0 <= m < |later| ensures later[m] != net.num[u][i] {
      assert net.HasSlot(u, i + 1 + m);
    }
  }

  lemma JoinDistinct(first: seq<Path>, rest: seq<Path>, edges: seq<nat>, x: nat, later: seq<nat>)
    requires DistinctEdges(first) && DistinctEdges(rest) && Continue(first, edges + [x]) && ContinueWith(rest, edges, later)
    requires x !in later
    ensures DistinctEdges(first + rest) && ContinueWith(first + rest, edges, [x] + later)
  {
    forall k | 0 <= k < |first| ensures edges < first[k].edges && first[k].edges[|edges|] == x {
      assert edges + [x] <= first[k].edges;
      assert (edges + [x])[|edges|] == x;
    }
  }

  // ---------- the theorem about the full enumeration ----------

  /** The full search reports a path if and only if it is the trace of a complete
      walk, and no two reports have the same edges. */
  lemma AllPathsExact(net: Net, b: Budgets, stop: set<nat>, u: nat, q: Path)
    requires net.Valid() && Fits(net, b) && u < |net.to|
    ensures q in AllPaths(net, b, stop, u) <==> exists w :: Complete(net, b, stop, u, w) && q == Trace(net, u, w)
    ensures DistinctEdges(AllPaths(net, b, stop, u))
  {
    var p := Start(u);
    var all := AllPaths(net, b, stop, u);
    VisitDistinct(net, b, stop, Full, p);
    forall w | IsWalk(net, u, w) ensures Append(net, p, w) == Trace(net, u, w) {
    }
    if q in all {
      var k: nat :| k < |all| && all[k] == q;
      var w := VisitSound(net, b, stop, Full, p, k);
    }
    if w :| Complete(net, b, stop, u, w) && q == Trace(net, u, w) {
      VisitCovers(net, b, stop, Full, p, w);
    }
  }

  /** The walk behind a report is determined by its edges. */
  lemma EdgesDetermineWalk(net: Net, u: nat, w: seq<Slot>, v: seq<Slot>)
    requires net.Valid() && IsWalk(net, u, w) && IsWalk(net, u, v)
    requires Trace(net, u, w).edges == Trace(net, u, v).edges
    ensures w == v
  {
    var ew, ev := Trace(net, u, w).edges, Trace(net, u, v).edges;
    assert |w| == |ew| == |ev| == |v|;
    forall k | 0 <= k < |w| ensures w[k] == v[k] {
      assert ew[k] == net.num[w[k].src][w[k].idx] && ev[k] == net.num[v[k].src][v[k].idx];
    }
  }
}
