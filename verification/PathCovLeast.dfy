/** The greedy choice of paths that together take every step. */
module PathCovLeast {
  import opened Collections
  import opened Walks
  import opened PathAlgo

  function Elems(s: seq<int>): set<int> {
    set x | x in s
  }

  /** The steps each path takes. */
  function StepSets(lists: seq<seq<int>>): (sets: seq<set<int>>)
    ensures |sets| == |lists|
  {
    seq(|lists|, i requires 0 <= i < |lists| => Elems(lists[i]))
  }

  ghost function Union(sets: seq<set<int>>): set<int> {
    if sets == [] then {} else Union(sets[..|sets| - 1]) + sets[|sets| - 1]
  }

  lemma {:induction false} UnionMember(sets: seq<set<int>>, x: int)
    ensures x in Union(sets) <==> exists i :: 0 <= i < |sets| && x in sets[i]
  {
    if sets != [] {
      var n := |sets| - 1;
      UnionMember(sets[..n], x);
      if i :| 0 <= i < |sets| && x in sets[i] {
        assert i < n ==> x in sets[..n][i];
      }
    }
  }

  lemma UnionBounds(sets: seq<set<int>>)
    ensures forall i :: 0 <= i < |sets| ==> sets[i] <= Union(sets)
  {
    forall i, x | 0 <= i < |sets| && x in sets[i] ensures x in Union(sets) {
      UnionMember(sets, x);
    }
  }

  /** The sets whose indices are in `cover` together contain `xs`. */
  ghost predicate Covers(sets: seq<set<int>>, cover: set<nat>, xs: set<int>) {
    && (forall j :: j in cover ==> j < |sets|)
    && forall x :: x in xs ==> exists j :: j in cover && x in sets[j]
  }

  // ---------- harmonic numbers ----------

  function Harmonic(n: nat): real {
    if n == 0 then 0.0 else Harmonic(n - 1) + 1.0 / n as real
  }

  /** The last `g` terms of the `n`-th harmonic number sum to at least `g / n`. */
  lemma {:induction false} HarmonicDrop(n: nat, g: nat)
    requires 0 < n && g <= n
    ensures Harmonic(n) - Harmonic(n - g) >= g as real / n as real
    decreases g
  {
    if g > 0 {
      HarmonicDrop(n, g - 1);
      var k := n - g + 1;
      assert Harmonic(k) == Harmonic(k - 1) + 1.0 / k as real;
      assert 1.0 / k as real >= 1.0 / n as real by { Reciprocal(k, n); }
      assert g as real / n as real == (g - 1) as real / n as real + 1.0 / n as real by { SplitFraction(g, n); }
    }
  }

  lemma Reciprocal(k: nat, n: nat)
    requires 0 < k <= n
    ensures 1.0 / k as real >= 1.0 / n as real
  {
    var x, y := k as real, n as real;
    assert (1.0 / x) * y >= 1.0 by { assert (1.0 / x) * x == 1.0; }
  }

  lemma SplitFraction(g: nat, n: nat)
    requires 0 < g && 0 < n
    ensures g as real / n as real == (g - 1) as real / n as real + 1.0 / n as real
  {
  }

  // ---------- the greedy choice ----------

  /** Everything used is already part of `cur`. */
  ghost predicate Used(sets: seq<set<int>>, used: set<nat>, cur: set<int>) {
    forall j :: j in used ==> j < |sets| && sets[j] <= cur
  }

  /** `i` is unused and no unused set adds more to `cur`. */
  ghost predicate IsGreedy(sets: seq<set<int>>, used: set<nat>, cur: set<int>, i: nat) {
    && i < |sets| && i !in used
    && forall j :: 0 <= j < |sets| && j !in used ==> |cur + sets[j]| <= |cur + sets[i]|
  }

  /** If the sets in `rest` contain everything missing, an unused set adds at least their
      average share of it. */
  lemma {:induction false} SomeSetHelps(sets: seq<set<int>>, used: set<nat>, cur: set<int>, rest: set<nat>, missing: set<int>)
    returns (i: nat)
    requires Used(sets, used, cur) && Covers(sets, rest, missing) && missing !! cur && |missing| > 0
    ensures i < |sets| && i !in used && |rest| * |sets[i] - cur| >= |missing|
    decreases |rest|
  {
    var x := Witness(missing);
    var k :| k in rest && x in sets[k];
    assert k !in used;
    var left := missing - sets[k];
    var a := |sets[k] - cur|;
    assert a + |left| >= |missing| by { Share(missing, sets[k], cur); }
    assert |rest - {k}| == |rest| - 1;
    if |left| == 0 {
      i := k;
      Scale(1, |rest|, a);
    } else {
      assert Covers(sets, rest - {k}, left);
      var j := SomeSetHelps(sets, used, cur, rest - {k}, left);
      i := Larger(a, |sets[j] - cur|, |rest|, |left|, k, j);
      Average(a, |sets[j] - cur|, |rest|, |left|, |missing|);
    }
  }

  lemma Share(missing: set<int>, s: set<int>, cur: set<int>)
    requires missing !! cur
    ensures |s - cur| + |missing - s| >= |missing|
  {
    assert missing == (missing * s) + (missing - s);
    CardSubset(missing * s, s - cur);
  }

  ghost function Larger(a: nat, c: nat, n: nat, left: nat, k: nat, j: nat): nat {
    if a <= c then j else k
  }

  lemma Average(a: nat, c: nat, n: nat, left: nat, all: nat)
    requires n >= 1 && (n - 1) * c >= left && a + left >= all
    ensures n * (if a <= c then c else a) >= all
  {
    var m := if a <= c then c else a;
    Scale(c, m, n - 1);
    assert n * m == (n - 1) * m + m;
  }

  lemma Scale(a: nat, b: nat, c: nat)
    requires a <= b
    ensures a * c <= b * c && c * a <= c * b
  {
  }

  lemma CardSubset<T>(a: set<T>, b: set<T>)
    requires a <= b
    ensures |a| <= |b|
  {
    assert b == a + (b - a);
  }

  /** If any `m` sets cover everything, `m` times the gain of a greedy choice is at least
      the number of missing elements. */
  lemma GreedyGain(sets: seq<set<int>>, used: set<nat>, cur: set<int>, all: set<int>, i: nat, cover: set<nat>)
    requires Used(sets, used, cur) && IsGreedy(sets, used, cur, i) && Covers(sets, cover, all)
    ensures |cover| * |sets[i] - cur| >= |all - cur|
  {
    if |all - cur| > 0 {
      var j := SomeSetHelps(sets, used, cur, cover, all - cur);
      Added(cur, sets[j]);
      Added(cur, sets[i]);
      assert |cur + sets[j]| <= |cur + sets[i]|;
      Scale(|sets[j] - cur|, |sets[i] - cur|, |cover|);
    }
  }

  lemma Added<T>(a: set<T>, b: set<T>)
    ensures |a + b| == |a| + |b - a|
  {
    assert a + b == a + (b - a);
  }

  /** `m` times `x`, by repeated addition. */
  function Times(m: nat, x: real): real {
    if m == 0 then 0.0 else x + Times(m - 1, x)
  }

  lemma {:induction false} TimesIsProduct(m: nat, x: real)
    ensures Times(m, x) == m as real * x
  {
    if m > 0 {
      TimesIsProduct(m - 1, x);
      assert m as real * x == (m - 1) as real * x + x;
    }
  }

  lemma {:induction false} TimesLaws(m: nat, x: real, y: real)
    ensures Times(m, x - y) == Times(m, x) - Times(m, y)
    ensures x <= y ==> Times(m, x) <= Times(m, y)
  {
    if m > 0 {
      TimesLaws(m - 1, x, y);
    }
  }

  /** `rounds` picks are accounted for by the harmonic terms from `missing` up to `total`,
      `m` times. */
  ghost predicate Bounded(rounds: nat, m: nat, missing: nat, total: nat) {
    rounds as real + Times(m, Harmonic(missing)) <= Times(m, Harmonic(total))
  }

  /** One round's share of the harmonic bound. */
  lemma RoundBound(m: nat, u: nat, g: nat, rounds: nat, total: nat)
    requires 0 < u && g <= u && m * g >= u
    requires Bounded(rounds, m, u, total)
    ensures Bounded(rounds + 1, m, u - g, total)
  {
    HarmonicDrop(u, g);
    ShareAtLeastOne(m, g, u);
    TimesLaws(m, g as real / u as real, Harmonic(u) - Harmonic(u - g));
    TimesLaws(m, Harmonic(u), Harmonic(u - g));
  }

  lemma ShareAtLeastOne(m: nat, g: nat, u: nat)
    requires u > 0 && m * g >= u
    ensures Times(m, g as real / u as real) >= 1.0
  {
    var x, y, z := m as real, g as real, u as real;
    TimesIsProduct(m, y / z);
    Product(m, g);
    assert x * y >= z by { assert (m * g) as real >= u as real; }
    FractionShare(x, y, z);
  }

  lemma FractionShare(x: real, y: real, z: real)
    requires z > 0.0 && x * y >= z
    ensures x * (y / z) >= 1.0
  {
    var f := y / z;
    assert f * z == y;
    Associate(x, f, z);
    assert x * (f * z) == x * y;
    AtLeastOne(x * f, z, x * y);
  }

  lemma Product(m: nat, g: nat)
    ensures (m * g) as real == m as real * g as real
  {
  }

  lemma Associate(a: real, b: real, c: real)
    ensures (a * b) * c == a * (b * c)
  {
  }

  lemma AtLeastOne(x: real, u: real, p: real)
    requires u > 0.0 && p == x * u && p >= u
    ensures x >= 1.0
  {
    ShrinksBelow(x, u);
  }

  lemma ShrinksBelow(x: real, u: real)
    requires u > 0.0
    ensures x < 1.0 ==> x * u < u
  {
  }

  /** Indices whose sets contain everything any set contains. */
  ghost predicate IsCover(sets: seq<set<int>>, cover: set<nat>) {
    Covers(sets, cover, Union(sets))
  }

  /** After `rounds` rounds every cover still leaves room for the bound. */
  ghost predicate WithinBound(sets: seq<set<int>>, rounds: nat, missing: nat) {
    forall cover :: IsCover(sets, cover) ==> Bounded(rounds, |cover|, missing, |Union(sets)|)
  }

  lemma BoundStep(sets: seq<set<int>>, used: set<nat>, cur: set<int>, i: nat, rounds: nat)
    requires Used(sets, used, cur) && IsGreedy(sets, used, cur, i) && cur <= Union(sets) && |cur| < |Union(sets)|
    requires WithinBound(sets, rounds, |Union(sets) - cur|)
    ensures WithinBound(sets, rounds + 1, |Union(sets) - (cur + sets[i])|)
  {
    forall cover | IsCover(sets, cover)
      ensures Bounded(rounds + 1, |cover|, |Union(sets) - (cur + sets[i])|, |Union(sets)|)
    {
      CoverBoundStep(sets, used, cur, i, rounds, cover);
    }
  }

  lemma CoverBoundStep(sets: seq<set<int>>, used: set<nat>, cur: set<int>, i: nat, rounds: nat, cover: set<nat>)
    requires Used(sets, used, cur) && IsGreedy(sets, used, cur, i) && cur <= Union(sets) && |cur| < |Union(sets)|
    requires IsCover(sets, cover) && Bounded(rounds, |cover|, |Union(sets) - cur|, |Union(sets)|)
    ensures Bounded(rounds + 1, |cover|, |Union(sets) - (cur + sets[i])|, |Union(sets)|)
  {
    UnionBounds(sets);
    Shrinks(Union(sets), cur, sets[i]);
    GreedyGain(sets, used, cur, Union(sets), i, cover);
    RoundBound(|cover|, |Union(sets) - cur|, |sets[i] - cur|, rounds, |Union(sets)|);
  }

  lemma Shrinks(all: set<int>, cur: set<int>, e: set<int>)
    requires cur <= all && |cur| < |all| && e <= all
    ensures |all - cur| > 0 && |all - (cur + e)| == |all - cur| - |e - cur|
  {
    assert all - cur == (all - (cur + e)) + (e - cur);
    assert all == cur + (all - cur);
  }

  /** Some unused set adds something missing, so a greedy choice always exists. */
  lemma UnusedExists(sets: seq<set<int>>, used: set<nat>, cur: set<int>)
    requires Used(sets, used, cur) && cur <= Union(sets) && |cur| < |Union(sets)|
    ensures exists j :: 0 <= j < |sets| && j !in used
  {
    assert Union(sets) == cur + (Union(sets) - cur);
    var missing := Union(sets) - cur;
    var x := Witness(missing);
    UnionMember(sets, x);
    var j :| 0 <= j < |sets| && x in sets[j];
    assert j !in used;
  }

  /** The inner loop: the first unused path with the largest union. */
  method Pick(pathLists: seq<seq<int>>, isSetUsedList: seq<bool>, curSet: set<int>, ghost used: set<nat>) returns (r: nat)
    requires |isSetUsedList| == |pathLists| && forall k: nat :: k in used <==> k < |pathLists| && isSetUsedList[k]
    requires exists j :: 0 <= j < |pathLists| && j !in used
    ensures IsGreedy(StepSets(pathLists), used, curSet, r)
    ensures forall j :: 0 <= j < r && !isSetUsedList[j] ==> |curSet + Elems(pathLists[j])| < |curSet + Elems(pathLists[r])|
  {
    var setIdx := -1;
    var maxUnionSize := -1;
    for i := 0 to |pathLists|
      invariant maxUnionSize == -1 ==> setIdx == -1 && forall j :: 0 <= j < i ==> isSetUsedList[j]
      invariant maxUnionSize != -1 ==>
        && 0 <= setIdx < i && !isSetUsedList[setIdx] && maxUnionSize == |curSet + Elems(pathLists[setIdx])|
        && (forall j :: 0 <= j < i && !isSetUsedList[j] ==> |curSet + Elems(pathLists[j])| <= maxUnionSize)
        && forall j :: 0 <= j < setIdx && !isSetUsedList[j] ==> |curSet + Elems(pathLists[j])| < maxUnionSize
    {
      if !isSetUsedList[i] {
        var tmpSet := curSet + Elems(pathLists[i]);
        if |tmpSet| > maxUnionSize {
          maxUnionSize := |tmpSet|;
          setIdx := i;
        }
      }
    }
    assert setIdx != -1;
    r := setIdx;
  }

  /** Everything any path contains. */
  method AllSteps(pathLists: seq<seq<int>>) returns (allSet: set<int>)
    ensures allSet == Union(StepSets(pathLists))
  {
    ghost var sets := StepSets(pathLists);
    allSet := {};
    for i := 0 to |pathLists|
      invariant allSet == Union(sets[..i])
    {
      allSet := allSet + Elems(pathLists[i]);
      assert sets[..i + 1][..i] == sets[..i];
    }
    assert sets[..|sets|] == sets;
  }

  /** Picks greedily until all steps are covered: the chosen indices cover every step,
      and for every cover the number of picks is at most its size times the harmonic
      number of the number of steps. */
  method GetCoverSet(pathLists: seq<seq<int>>) returns (setNumberList: set<nat>)
    ensures IsCover(StepSets(pathLists), setNumberList)
    ensures WithinBound(StepSets(pathLists), |setNumberList|, 0)
  {
    ghost var sets := StepSets(pathLists);
    setNumberList := {};
    var isSetUsedList := seq(|pathLists|, i => false);
    var allSet := AllSteps(pathLists);
    var curSet: set<int> := {};
    GreedyStart(sets);
    while |curSet| < |allSet|
      invariant |isSetUsedList| == |pathLists|
      invariant forall k: nat :: k in setNumberList <==> k < |pathLists| && isSetUsedList[k]
      invariant GreedyState(sets, setNumberList, curSet)
      decreases |pathLists| - |setNumberList|
    {
      UnusedExists(sets, setNumberList, curSet);
      var setIdx := Pick(pathLists, isSetUsedList, curSet, setNumberList);
      GreedyNext(sets, setNumberList, curSet, setIdx);
      isSetUsedList := isSetUsedList[setIdx := true];
      setNumberList := setNumberList + {setIdx};
      curSet := curSet + Elems(pathLists[setIdx]);
    }
    SubsetFull(curSet, allSet);
    assert allSet - curSet == {};
  }

  /** The picks so far, what they cover, and the bound on their number. */
  ghost predicate GreedyState(sets: seq<set<int>>, picked: set<nat>, cur: set<int>) {
    && Used(sets, picked, cur) && Covers(sets, picked, cur) && cur <= Union(sets)
    && WithinBound(sets, |picked|, |Union(sets) - cur|)
    && |picked| <= |sets|
  }

  lemma GreedyStart(sets: seq<set<int>>)
    ensures GreedyState(sets, {}, {})
  {
    assert Union(sets) - {} == Union(sets);
  }

  lemma GreedyNext(sets: seq<set<int>>, picked: set<nat>, cur: set<int>, i: nat)
    requires GreedyState(sets, picked, cur) && IsGreedy(sets, picked, cur, i) && |cur| < |Union(sets)|
    ensures GreedyState(sets, picked + {i}, cur + sets[i])
  {
    BoundStep(sets, picked, cur, i, |picked|);
    UsedBound(picked + {i}, |sets|);
    CoversPlus(sets, picked, cur, i);
    UnionBounds(sets);
  }

  lemma LastRound(picks: nat, m: nat, h: real)
    requires picks as real + Times(m, 0.0) <= Times(m, h)
    ensures picks as real <= m as real * h
  {
    TimesIsProduct(m, 0.0);
    TimesIsProduct(m, h);
  }

  /** What the bound says when nothing is missing: any cover of `m` sets bounds the number
      of picks by `m` times the harmonic number of the number of elements. */
  lemma GreedyBound(sets: seq<set<int>>, picks: nat, cover: set<nat>)
    requires WithinBound(sets, picks, 0) && IsCover(sets, cover)
    ensures picks as real <= |cover| as real * Harmonic(|Union(sets)|)
  {
    assert Bounded(picks, |cover|, 0, |Union(sets)|);
    LastRound(picks, |cover|, Harmonic(|Union(sets)|));
  }

  lemma CoversPlus(sets: seq<set<int>>, picked: set<nat>, cur: set<int>, i: nat)
    requires Covers(sets, picked, cur) && i < |sets|
    ensures Covers(sets, picked + {i}, cur + sets[i])
  {
    forall x | x in cur + sets[i] ensures exists j :: j in picked + {i} && x in sets[j] {
      if x in cur {
        var j :| j in picked && x in sets[j];
        assert j in picked + {i};
      } else {
        assert i in picked + {i};
      }
    }
  }

  lemma SubsetFull<T>(a: set<T>, b: set<T>)
    requires a <= b && |a| >= |b|
    ensures a == b
  {
    assert b == a + (b - a);
    assert |b - a| == 0;
  }

  lemma {:induction false} UsedBound(used: set<nat>, n: nat)
    requires forall k :: k in used ==> k < n
    ensures |used| <= n
  {
    if n == 0 {
      assert used == {};
    } else {
      UsedBound(used - {n - 1}, n - 1);
    }
  }

  /** The reports at the picked positions. */
  ghost function Chosen(ps: seq<Path>, picked: set<nat>): seq<Path> {
    if ps == [] then []
    else Chosen(ps[..|ps| - 1], picked) + if |ps| - 1 in picked then [ps[|ps| - 1]] else []
  }

  /** The final filter keeps the picked paths in order, from the back. */
  method KeepChosen(algo: MPathAlgo, leastPathNumSet: set<nat>)
    requires algo.Parallel()
    modifies algo`statePaths, algo`edgePaths, algo`stepPaths
    ensures algo.Parallel() && algo.Found() == Chosen(old(algo.Found()), leastPathNumSet)
  {
    ghost var all := algo.Found();
    var i := |algo.statePaths|;
    ghost var tail: seq<Path> := [];
    assert all[..i] == all && all[..i] + tail == all;
    while i > 0
      invariant algo.Parallel() && 0 <= i <= |all|
      invariant algo.Found() == all[..i] + tail
      invariant Chosen(all, leastPathNumSet) == Chosen(all[..i], leastPathNumSet) + tail
    {
      i := i - 1;
      ChosenStep(all, leastPathNumSet, i, tail);
      if i !in leastPathNumSet {
        algo.RemoveRow(i);
      } else {
        tail := [all[i]] + tail;
      }
    }
    assert all[..0] + tail == tail;
  }

  lemma ChosenStep(all: seq<Path>, picked: set<nat>, i: nat, tail: seq<Path>)
    requires i < |all|
    ensures var tail' := if i in picked then [all[i]] + tail else tail;
            && Chosen(all[..i + 1], picked) + tail == Chosen(all[..i], picked) + tail'
            && all[..i] + tail' == if i in picked then all[..i + 1] + tail else RemoveAt(all[..i + 1] + tail, i)
  {
    assert all[..i + 1][..i] == all[..i];
    assert RemoveAt(all[..i + 1] + tail, i) == all[..i] + tail;
  }

  lemma {:induction false} ChosenMember(ps: seq<Path>, picked: set<nat>, q: Path)
    ensures q in Chosen(ps, picked) <==> exists k: nat :: k < |ps| && k in picked && q == ps[k]
  {
    if ps != [] {
      var n := |ps| - 1;
      ChosenMember(ps[..n], picked, q);
      if k: nat :| k < |ps| && k in picked && q == ps[k] {
        assert k == n || ps[..n][k] == q;
      }
      if k: nat :| k < n && k in picked && q == ps[..n][k] {
        assert ps[k] == q;
      }
    }
  }

  /** The two halves of the final stage together: what remains takes every step that any
      report takes, and is within the bound of the greedy choice. */
  method LeastPaths(algo: MPathAlgo)
    requires algo.Parallel()
    modifies algo`statePaths, algo`edgePaths, algo`stepPaths
    ensures algo.Parallel() && Union(StepSets(algo.stepPaths)) == Union(StepSets(old(algo.stepPaths)))
    ensures forall q :: q in algo.Found() ==> q in old(algo.Found())
    ensures WithinBound(StepSets(old(algo.stepPaths)), |algo.Found()|, 0)
  {
    ghost var all, steps := algo.Found(), algo.stepPaths;
    var picked := GetCoverSet(algo.stepPaths);
    KeepChosen(algo, picked);
    ChosenCount(all, picked);
    forall q | q in algo.Found() ensures q in all { ChosenMember(all, picked, q); }
    ChosenCovers(all, picked, steps, algo.stepPaths);
  }

  /** If the picked positions cover, the picked reports take every step. */
  lemma ChosenCovers(all: seq<Path>, picked: set<nat>, steps: seq<seq<int>>, kept: seq<seq<int>>)
    requires |steps| == |all| && forall k :: 0 <= k < |all| ==> all[k].steps == steps[k]
    requires |kept| == |Chosen(all, picked)| && forall k :: 0 <= k < |kept| ==> Chosen(all, picked)[k].steps == kept[k]
    requires IsCover(StepSets(steps), picked)
    ensures Union(StepSets(kept)) == Union(StepSets(steps))
  {
    forall x ensures x in Union(StepSets(kept)) <==> x in Union(StepSets(steps)) {
      StepKept(all, picked, steps, kept, x);
    }
  }

  lemma StepKept(all: seq<Path>, picked: set<nat>, steps: seq<seq<int>>, kept: seq<seq<int>>, x: int)
    requires |steps| == |all| && forall k :: 0 <= k < |all| ==> all[k].steps == steps[k]
    requires |kept| == |Chosen(all, picked)| && forall k :: 0 <= k < |kept| ==> Chosen(all, picked)[k].steps == kept[k]
    requires IsCover(StepSets(steps), picked)
    ensures x in Union(StepSets(kept)) <==> x in Union(StepSets(steps))
  {
    var chosen := Chosen(all, picked);
    UnionMember(StepSets(kept), x);
    UnionMember(StepSets(steps), x);
    if i :| 0 <= i < |kept| && x in StepSets(kept)[i] {
      assert chosen[i] in chosen;
      ChosenMember(all, picked, chosen[i]);
      var k: nat :| k < |all| && k in picked && chosen[i] == all[k];
      assert x in StepSets(steps)[k];
    }
    if x in Union(StepSets(steps)) {
      var k :| k in picked && x in StepSets(steps)[k];
      ChosenMember(all, picked, all[k]);
      var j :| 0 <= j < |chosen| && chosen[j] == all[k];
      assert x in StepSets(kept)[j];
    }
  }

  lemma {:induction false} ChosenCount(ps: seq<Path>, picked: set<nat>)
    requires forall k :: k in picked ==> k < |ps|
    ensures |Chosen(ps, picked)| == |picked|
  {
    if ps != [] {
      var n := |ps| - 1;
      ChosenPrefix(ps[..n], picked);
      ChosenCount(ps[..n], picked - {n});
    } else {
      assert picked == {};
    }
  }

  lemma {:induction false} ChosenPrefix(ps: seq<Path>, picked: set<nat>)
    ensures Chosen(ps, picked) == Chosen(ps, picked - {|ps|})
  {
    ChosenAgree(ps, picked, picked - {|ps|});
  }

  lemma {:induction false} ChosenAgree(ps: seq<Path>, a: set<nat>, b: set<nat>)
    requires forall k :: 0 <= k < |ps| ==> (k in a <==> k in b)
    ensures Chosen(ps, a) == Chosen(ps, b)
  {
    if ps != [] {
      ChosenAgree(ps[..|ps| - 1], a, b);
    }
  }
}
