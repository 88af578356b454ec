/** The bookkeeping of the state-to-state searches: a best distance per end state,
    updated while paths arrive in any order, and a final deletion pass. */
module Ranking {
  import opened Graph
  import opened Walks
  import opened PathAlgo

  /** Which lengths a search prefers. */
  datatype Goal = Shortest | Longest

  /** The initial entry of every table. */
  function NoDist(goal: Goal): int {
    match goal
    case Shortest => MAX_PATH_DIST
    case Longest => MIN_PATH_DIST
  }

  /** Length `a` is at least as good as length `b`. */
  predicate AtLeast(goal: Goal, a: int, b: int) {
    match goal
    case Shortest => a <= b
    case Longest => a >= b
  }

  ghost predicate Ends(ps: seq<Path>, n: nat) {
    forall k :: 0 <= k < |ps| ==> ps[k].states != [] && Last(ps[k]) < n
  }

  predicate Passes(goal: Goal, best: seq<int>, p: Path) {
    p.states != [] && Last(p) < |best| && AtLeast(goal, |p.states|, best[Last(p)])
  }

  /** Feeds candidates to the table one by one: a candidate no worse than the entry of
      its end state is kept and becomes the entry. */
  ghost function Record(goal: Goal, best: seq<int>, kept: seq<Path>, cands: seq<Path>): (r: (seq<int>, seq<Path>))
    requires Ends(cands, |best|)
    ensures |r.0| == |best|
    decreases |cands|
  {
    if cands == [] then (best, kept)
    else
      var p := cands[0];
      if Passes(goal, best, p) then Record(goal, best[Last(p) := |p.states|], kept + [p], cands[1..])
      else Record(goal, best, kept, cands[1..])
  }

  /** The deletion pass. */
  ghost function Prune(goal: Goal, best: seq<int>, ps: seq<Path>): seq<Path> {
    Keep(ps, p => Passes(goal, best, p))
  }

  /** A candidate within the limit that no candidate with the same end beats. */
  ghost predicate IsBest(goal: Goal, limit: int, cands: seq<Path>, p: Path) {
    && p.states != [] && AtLeast(goal, |p.states|, limit)
    && forall q :: q in cands && q.states != [] && Last(q) == Last(p) ==> AtLeast(goal, |p.states|, |q.states|)
  }

  /** What one round over a fresh table reports. */
  ghost function BestOf(goal: Goal, cands: seq<Path>): seq<Path> {
    Keep(cands, p => IsBest(goal, NoDist(goal), cands, p))
  }

  lemma {:induction false} RecordAppend(goal: Goal, best: seq<int>, kept: seq<Path>, cs: seq<Path>, ds: seq<Path>)
    requires Ends(cs, |best|) && Ends(ds, |best|) && Ends(cs + ds, |best|)
    ensures var (b1, k1) := Record(goal, best, kept, cs);
            Record(goal, best, kept, cs + ds) == Record(goal, b1, k1, ds)
    decreases |cs|
  {
    if cs == [] {
      assert cs + ds == ds;
    } else {
      assert (cs + ds)[1..] == cs[1..] + ds && (cs + ds)[0] == cs[0];
      var p := cs[0];
      if Passes(goal, best, p) {
        RecordAppend(goal, best[Last(p) := |p.states|], kept + [p], cs[1..], ds);
      } else {
        RecordAppend(goal, best, kept, cs[1..], ds);
      }
    }
  }

  lemma {:induction false} KeepSame(ps: seq<Path>, f: Path -> bool, g: Path -> bool)
    requires forall k :: 0 <= k < |ps| ==> f(ps[k]) == g(ps[k])
    ensures Keep(ps, f) == Keep(ps, g)
  {
    if ps != [] {
      assert f(ps[0]) == g(ps[0]);
      forall k | 0 <= k < |ps[1..]| ensures f(ps[1..][k]) == g(ps[1..][k]) {
        assert ps[1..][k] == ps[k + 1];
      }
      KeepSame(ps[1..], f, g);
    }
  }

  lemma {:induction false} KeepTwice(ps: seq<Path>, f: Path -> bool, g: Path -> bool)
    requires forall p :: g(p) ==> f(p)
    ensures Keep(Keep(ps, f), g) == Keep(ps, g)
  {
    if ps != [] {
      KeepTwice(ps[1..], f, g);
      if f(ps[0]) {
        assert Keep(ps, f) == [ps[0]] + Keep(ps[1..], f) && Keep(ps, f)[1..] == Keep(ps[1..], f);
      } else {
        assert Keep(ps, f) == Keep(ps[1..], f) && Keep(ps, g) == Keep(ps[1..], g);
      }
    }
  }

  /** Every entry of `b'` is at least as good as the entry of `b`. */
  ghost predicate Improves(goal: Goal, b': seq<int>, b: seq<int>) {
    |b'| == |b| && forall e :: 0 <= e < |b| ==> AtLeast(goal, b'[e], b[e])
  }

  /** Pruning with a better table makes an earlier pruning redundant. */
  lemma PruneTwice(goal: Goal, b': seq<int>, b: seq<int>, ps: seq<Path>)
    requires Improves(goal, b', b)
    ensures Prune(goal, b', Prune(goal, b, ps)) == Prune(goal, b', ps)
  {
    KeepTwice(ps, p => Passes(goal, b, p), p => Passes(goal, b', p));
  }

  lemma PruneSnoc(goal: Goal, b: seq<int>, ps: seq<Path>, p: Path)
    ensures Prune(goal, b, ps + [p]) == Prune(goal, b, ps) + if Passes(goal, b, p) then [p] else []
  {
    KeepAppend(ps, [p], q => Passes(goal, b, q));
  }

  /** One step of the deletion pass, from the back. */
  lemma PruneStep(goal: Goal, best: seq<int>, all: seq<Path>, i: nat)
    requires i < |all|
    ensures var now := all[..i + 1] + Prune(goal, best, all[i + 1..]);
            && now[i] == all[i]
            && all[..i] + Prune(goal, best, all[i..]) == if Passes(goal, best, all[i]) then now else RemoveAt(now, i)
  {
    KeepStep(all, i, p => Passes(goal, best, p));
  }

  lemma PruneEnds(goal: Goal, best: seq<int>, ps: seq<Path>)
    ensures Ends(Prune(goal, best, ps), |best|)
  {
    var kept := Prune(goal, best, ps);
    forall k | 0 <= k < |kept| ensures kept[k].states != [] && Last(kept[k]) < |best| {
      KeepMember(ps, p => Passes(goal, best, p), kept[k]);
    }
  }

  /** Whatever the arrival order, deleting from the recorded paths leaves the same as
      deleting from all candidates. */
  lemma {:induction false} RecordLosesNothing(goal: Goal, best: seq<int>, kept: seq<Path>, seen: seq<Path>, cands: seq<Path>)
    requires Ends(cands, |best|)
    requires Prune(goal, best, kept) == Prune(goal, best, seen)
    ensures var (b', k') := Record(goal, best, kept, cands);
            && Improves(goal, b', best)
            && Prune(goal, b', k') == Prune(goal, b', seen + cands)
    decreases |cands|
  {
    if cands == [] {
      assert seen + cands == seen;
    } else {
      var p := cands[0];
      assert seen + cands == (seen + [p]) + cands[1..];
      if Passes(goal, best, p) {
        var b1 := best[Last(p) := |p.states|];
        PruneTwice(goal, b1, best, kept);
        PruneTwice(goal, b1, best, seen);
        PruneSnoc(goal, b1, kept, p);
        PruneSnoc(goal, b1, seen, p);
        RecordLosesNothing(goal, b1, kept + [p], seen + [p], cands[1..]);
      } else {
        PruneSnoc(goal, best, seen, p);
        RecordLosesNothing(goal, best, kept, seen + [p], cands[1..]);
      }
    }
  }

  /** The final table holds the best candidate length of every end state. */
  lemma {:induction false} RecordOptimal(goal: Goal, best: seq<int>, kept: seq<Path>, cands: seq<Path>)
    requires Ends(cands, |best|)
    ensures var b' := Record(goal, best, kept, cands).0;
            && Improves(goal, b', best)
            && (forall q :: q in cands ==> q.states != [] && AtLeast(goal, b'[Last(q)], |q.states|))
            && (forall e :: 0 <= e < |best| && b'[e] != best[e] ==>
                  exists q :: q in cands && q.states != [] && Last(q) == e && |q.states| == b'[e])
    decreases |cands|
  {
    if cands != [] {
      var p := cands[0];
      assert forall q :: q in cands <==> q == p || q in cands[1..];
      if Passes(goal, best, p) {
        RecordOptimal(goal, best[Last(p) := |p.states|], kept + [p], cands[1..]);
      } else {
        RecordOptimal(goal, best, kept, cands[1..]);
      }
    }
  }

  /** A round over a fresh table keeps exactly the best candidates, in order. */
  lemma RoundKeepsBest(goal: Goal, best: seq<int>, cands: seq<Path>)
    requires Ends(cands, |best|) && forall e :: 0 <= e < |best| ==> best[e] == NoDist(goal)
    ensures var (b', k') := Record(goal, best, [], cands);
            Prune(goal, b', k') == BestOf(goal, cands) && Prune(goal, b', cands) == BestOf(goal, cands)
  {
    RecordLosesNothing(goal, best, [], [], cands);
    RecordOptimal(goal, best, [], cands);
    assert [] + cands == cands;
    var b' := Record(goal, best, [], cands).0;
    forall k | 0 <= k < |cands|
      ensures Passes(goal, b', cands[k]) <==> IsBest(goal, NoDist(goal), cands, cands[k])
    {
      assert cands[k] in cands;
    }
    KeepSame(cands, p => Passes(goal, b', p), p => IsBest(goal, NoDist(goal), cands, p));
  }

  // ---------- rounds on one object ----------

  ghost function Fresh(goal: Goal, n: nat): seq<int> {
    seq(n, i => NoDist(goal))
  }

  /** The temporary lists and the result after searching from `starts` in turn: the
      temporary lists are pruned but never cleared, and are reported every round. */
  ghost function Rounds(goal: Goal, mode: Mode, net: Net, b: Budgets, stop: set<nat>, n: nat,
                        tmp: seq<Path>, starts: seq<nat>): (seq<Path>, seq<Path>)
    requires net.Shaped() && Fits(net, b) && |net.to| <= n
    requires forall k :: 0 <= k < |starts| ==> starts[k] < |net.to|
    decreases |starts|
  {
    if starts == [] then (tmp, [])
    else
      var (t0, found) := Rounds(goal, mode, net, b, stop, n, tmp, starts[..|starts| - 1]);
      var (best, t1) := RecordVisit(goal, mode, net, b, stop, Start(starts[|starts| - 1]), Fresh(goal, n), t0);
      (Prune(goal, best, t1), found + Prune(goal, best, t1))
  }

  lemma VisitEnds(net: Net, b: Budgets, stop: set<nat>, mode: Mode, p: Path)
    requires Open(net, b, p)
    ensures Ends(Visit(net, b, stop, mode, p), |net.to|)
  {
    var ps := Visit(net, b, stop, mode, p);
    forall k | 0 <= k < |ps| ensures ps[k].states != [] && Last(ps[k]) < |net.to| {
      var w := VisitSound(net, b, stop, mode, p, k);
    }
  }

  lemma RoundsNone(goal: Goal, mode: Mode, net: Net, b: Budgets, stop: set<nat>, n: nat, tmp: seq<Path>)
    requires net.Shaped() && Fits(net, b) && |net.to| <= n
    ensures Rounds(goal, mode, net, b, stop, n, tmp, []) == (tmp, [])
  {
  }

  lemma RoundsSnoc(goal: Goal, mode: Mode, net: Net, b: Budgets, stop: set<nat>, n: nat,
                   tmp: seq<Path>, starts: seq<nat>, u: nat)
    requires net.Shaped() && Fits(net, b) && u < |net.to| <= n
    requires forall k :: 0 <= k < |starts| ==> starts[k] < |net.to|
    ensures forall k :: 0 <= k < |starts + [u]| ==> (starts + [u])[k] < |net.to|
    ensures var (t0, found) := Rounds(goal, mode, net, b, stop, n, tmp, starts);
            var (best, t1) := RecordVisit(goal, mode, net, b, stop, Start(u), Fresh(goal, n), t0);
            Rounds(goal, mode, net, b, stop, n, tmp, starts + [u]) == (Prune(goal, best, t1), found + Prune(goal, best, t1))
  {
    assert (starts + [u])[..|starts + [u]| - 1] == starts;
  }

  lemma NoRounds(goal: Goal, mode: Mode, net: Net, b: Budgets, stop: set<nat>, n: nat)
    requires net.Shaped() && Fits(net, b) && |net.to| <= n
    ensures Rounds(goal, mode, net, b, stop, n, [], []) == ([], [])
  {
  }

  lemma BranchEnds(net: Net, b: Budgets, stop: set<nat>, mode: Mode, p: Path)
    requires Open(net, b, p) && Last(p) !in stop
    ensures Ends(Branches(net, b, stop, mode, p, 0), |net.to|)
  {
    var ps := Branches(net, b, stop, mode, p, 0);
    forall k | 0 <= k < |ps| ensures ps[k].states != [] && Last(ps[k]) < |net.to| {
      var w := BranchesSound(net, b, stop, mode, p, 0, k);
    }
  }

  lemma {:induction false} RecordEnds(goal: Goal, best: seq<int>, kept: seq<Path>, cands: seq<Path>)
    requires Ends(cands, |best|) && Ends(kept, |best|)
    ensures Ends(Record(goal, best, kept, cands).1, |best|)
    decreases |cands|
  {
    if cands != [] {
      var p := cands[0];
      if Passes(goal, best, p) {
        RecordEnds(goal, best[Last(p) := |p.states|], kept + [p], cands[1..]);
      } else {
        RecordEnds(goal, best, kept, cands[1..]);
      }
    }
  }

  /** Recording everything a search visits. */
  ghost function RecordVisit(goal: Goal, mode: Mode, net: Net, b: Budgets, stop: set<nat>, p: Path,
                             best: seq<int>, kept: seq<Path>): (r: (seq<int>, seq<Path>))
    requires Open(net, b, p) && |net.to| <= |best|
    ensures |r.0| == |best|
  {
    VisitEnds(net, b, stop, mode, p);
    Record(goal, best, kept, Visit(net, b, stop, mode, p))
  }

  ghost function RecordBranches(goal: Goal, mode: Mode, net: Net, b: Budgets, stop: set<nat>, p: Path,
                                best: seq<int>, kept: seq<Path>): (r: (seq<int>, seq<Path>))
    requires Open(net, b, p) && |net.to| <= |best| && Last(p) !in stop
    ensures |r.0| == |best|
  {
    BranchEnds(net, b, stop, mode, p);
    Record(goal, best, kept, Branches(net, b, stop, mode, p, 0))
  }

  /** Recording what was seen and then what slot `i` leads to. */
  lemma RecordStep(goal: Goal, mode: Mode, net: Net, b: Budgets, stop: set<nat>, p: Path, i: nat,
                   best0: seq<int>, tmp0: seq<Path>, seen: seq<Path>)
    returns (seen': seq<Path>)
    requires Open(net, b, p) && net.HasSlot(Last(p), i) && b[Last(p)][i] > 0 && |net.to| <= |best0| && Ends(seen, |best0|)
    ensures seen' == seen + Visit(net, Spend(b, Last(p), i), stop, mode, Extend(net, p, i)) && Ends(seen', |best0|)
    ensures var (best, tmp) := Record(goal, best0, tmp0, seen);
            Record(goal, best0, tmp0, seen')
            == RecordVisit(goal, mode, net, Spend(b, Last(p), i), stop, Extend(net, p, i), best, tmp)
  {
    var visited := Visit(net, Spend(b, Last(p), i), stop, mode, Extend(net, p, i));
    VisitEnds(net, Spend(b, Last(p), i), stop, mode, Extend(net, p, i));
    seen' := seen + visited;
    RecordAppend(goal, best0, tmp0, seen, visited);
  }

  /** On a fresh object, one round from one start state reports the best visited paths
      and leaves them in the temporary lists. */
  lemma OneRound(goal: Goal, mode: Mode, net: Net, b: Budgets, stop: set<nat>, n: nat, u: nat)
    requires net.Shaped() && Fits(net, b) && u < |net.to| <= n
    ensures var best := BestOf(goal, Visit(net, b, stop, mode, Start(u)));
            Rounds(goal, mode, net, b, stop, n, [], [u]) == (best, best)
  {
    hide Visit, Rounds, BestOf, Record, Prune, Fits;
    var cands := Visit(net, b, stop, mode, Start(u));
    VisitEnds(net, b, stop, mode, Start(u));
    RoundKeepsBest(goal, Fresh(goal, n), cands);
    RoundsSnoc(goal, mode, net, b, stop, n, [], [], u);
    NoRounds(goal, mode, net, b, stop, n);
    assert [] + [u] == [u] && [] + BestOf(goal, cands) == BestOf(goal, cands);
  }

  /** A candidate the table can compare is strictly better than `p` for the same end. */
  ghost predicate IsBeaten(goal: Goal, cands: seq<Path>, p: Path) {
    p.states != [] &&
    exists q :: q in cands && q.states != [] && Last(q) == Last(p)
                && AtLeast(goal, |q.states|, NoDist(goal)) && !AtLeast(goal, |p.states|, |q.states|)
  }

  /** After recording `second`, exactly the beaten paths of `first` are pruned. */
  lemma PrunedIffBeaten(goal: Goal, n: nat, first: seq<Path>, second: seq<Path>, p: Path)
    requires Ends(second, n) && p.states != [] && Last(p) < n && AtLeast(goal, |p.states|, NoDist(goal))
    ensures Passes(goal, Record(goal, Fresh(goal, n), first, second).0, p) <==> !IsBeaten(goal, second, p)
  {
    RecordOptimal(goal, Fresh(goal, n), first, second);
    var best := Record(goal, Fresh(goal, n), first, second).0;
    if !Passes(goal, best, p) {
      var q :| q in second && q.states != [] && Last(q) == Last(p) && |q.states| == best[Last(p)];
    }
  }

  lemma PrunedTogether(goal: Goal, n: nat, first: seq<Path>, second: seq<Path>)
    requires Ends(second, n)
    ensures var (best, tmp) := Record(goal, Fresh(goal, n), first, second);
            Prune(goal, best, tmp) == Prune(goal, best, first) + BestOf(goal, second)
  {
    var table := Fresh(goal, n);
    var best := Record(goal, table, first, second).0;
    RecordLosesNothing(goal, table, first, first, second);
    RecordTable(goal, table, first, [], second);
    RoundKeepsBest(goal, table, second);
    KeepAppend(first, second, p => Passes(goal, best, p));
  }

  /** The table does not depend on what was kept before. */
  lemma {:induction false} RecordTable(goal: Goal, best: seq<int>, kept: seq<Path>, kept': seq<Path>, cands: seq<Path>)
    requires Ends(cands, |best|)
    ensures Record(goal, best, kept, cands).0 == Record(goal, best, kept', cands).0
    decreases |cands|
  {
    if cands != [] {
      var p := cands[0];
      if Passes(goal, best, p) {
        RecordTable(goal, best[Last(p) := |p.states|], kept + [p], kept' + [p], cands[1..]);
      } else {
        RecordTable(goal, best, kept, kept', cands[1..]);
      }
    }
  }
}
