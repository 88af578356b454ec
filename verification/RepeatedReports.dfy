/** What the state-to-state searches report for several start states. The temporary lists are
    never cleared, so a path of one round comes again in every later round until one beats it. */
module RepeatedReports {
  import opened BestWalks
  import opened Collections
  import opened Graph
  import opened PathAlgo
  import opened Ranking
  import opened Walks

  ghost predicate Starts(net: Net, us: seq<nat>) {
    forall k :: 0 <= k < |us| ==> us[k] < |net.to|
  }

  ghost function Visited(mode: Mode, net: Net, b: Budgets, stop: set<nat>, u: nat): seq<Path>
    requires net.Shaped() && Fits(net, b) && u < |net.to|
  {
    Visit(net, b, stop, mode, Start(u))
  }

  ghost function BestFrom(goal: Goal, mode: Mode, net: Net, b: Budgets, stop: set<nat>, u: nat): seq<Path>
    requires net.Shaped() && Fits(net, b) && u < |net.to|
  {
    BestOf(goal, Visited(mode, net, b, stop, u))
  }

  /** The best paths of each start state, one after the other. */
  ghost function EachBest(goal: Goal, mode: Mode, net: Net, b: Budgets, stop: set<nat>, us: seq<nat>): seq<Path>
    requires net.Shaped() && Fits(net, b) && Starts(net, us)
  {
    if |us| == 0 then []
    else EachBest(goal, mode, net, b, stop, us[..|us| - 1]) + BestFrom(goal, mode, net, b, stop, us[|us| - 1])
  }

  /** The search from `v` beats every path that the search from `u` reports. */
  ghost predicate Overtaken(goal: Goal, mode: Mode, net: Net, b: Budgets, stop: set<nat>, u: nat, v: nat)
    requires net.Shaped() && Fits(net, b) && u < |net.to| && v < |net.to|
  {
    forall p :: p in BestFrom(goal, mode, net, b, stop, u) ==> IsBeaten(goal, Visited(mode, net, b, stop, v), p)
  }

  ghost predicate AllOvertaken(goal: Goal, mode: Mode, net: Net, b: Budgets, stop: set<nat>, us: seq<nat>)
    requires net.Shaped() && Fits(net, b) && Starts(net, us)
  {
    forall i :: 0 <= i < |us| - 1 ==> Overtaken(goal, mode, net, b, stop, us[i], us[i + 1])
  }

  // ---------- one more round ----------

  /** Paths that the table can hold. */
  ghost predicate Comparable(goal: Goal, n: nat, ps: seq<Path>) {
    forall k :: 0 <= k < |ps| ==> ps[k].states != [] && Last(ps[k]) < n && AtLeast(goal, |ps[k].states|, NoDist(goal))
  }

  lemma BestComparable(goal: Goal, n: nat, cands: seq<Path>)
    requires Ends(cands, n)
    ensures Comparable(goal, n, BestOf(goal, cands))
  {
    var best := BestOf(goal, cands);
    forall k | 0 <= k < |best|
      ensures best[k].states != [] && Last(best[k]) < n && AtLeast(goal, |best[k].states|, NoDist(goal))
    {
      BestMember(goal, cands, best[k]);
    }
  }

  /** What is left of earlier reports: exactly those that the candidates do not beat. */
  lemma LeftOver(goal: Goal, n: nat, earlier: seq<Path>, cands: seq<Path>, p: Path)
    requires Ends(cands, n) && Comparable(goal, n, earlier)
    ensures p in Prune(goal, Record(goal, Fresh(goal, n), earlier, cands).0, earlier) <==> p in earlier && !IsBeaten(goal, cands, p)
  {
    var best := Record(goal, Fresh(goal, n), earlier, cands).0;
    KeepMember(earlier, q => Passes(goal, best, q), p);
    if p in earlier {
      PrunedIffBeaten(goal, n, earlier, cands, p);
    }
  }

  /** A further round reports what is left of the earlier ones, then its own best paths. */
  lemma NextRound(goal: Goal, mode: Mode, net: Net, b: Budgets, stop: set<nat>, n: nat, us: seq<nat>, u: nat) returns (again: seq<Path>)
    requires net.Shaped() && Fits(net, b) && Starts(net, us) && u < |net.to| <= n
    requires Comparable(goal, n, Rounds(goal, mode, net, b, stop, n, [], us).0)
    ensures Starts(net, us + [u])
    ensures var (tmp, found) := Rounds(goal, mode, net, b, stop, n, [], us);
            && (forall p :: p in again <==> p in tmp && !IsBeaten(goal, Visited(mode, net, b, stop, u), p))
            && Rounds(goal, mode, net, b, stop, n, [], us + [u])
               == (again + BestFrom(goal, mode, net, b, stop, u), found + (again + BestFrom(goal, mode, net, b, stop, u)))
            && Comparable(goal, n, again + BestFrom(goal, mode, net, b, stop, u))
  {
    var cands := Visited(mode, net, b, stop, u);
    var (tmp, found) := Rounds(goal, mode, net, b, stop, n, [], us);
    VisitEnds(net, b, stop, mode, Start(u));
    again := Prune(goal, Record(goal, Fresh(goal, n), tmp, cands).0, tmp);
    forall p ensures p in again <==> p in tmp && !IsBeaten(goal, cands, p) {
      LeftOver(goal, n, tmp, cands, p);
    }
    forall k | 0 <= k < |again|
      ensures again[k].states != [] && Last(again[k]) < n && AtLeast(goal, |again[k].states|, NoDist(goal))
    {
      assert again[k] in again;
    }
    BestComparable(goal, n, cands);
    hide Rounds, Prune, Record, IsBeaten;
    RoundsSnoc(goal, mode, net, b, stop, n, [], us, u);
    PrunedTogether(goal, n, tmp, cands);
  }

  lemma {:induction false} TmpComparable(goal: Goal, mode: Mode, net: Net, b: Budgets, stop: set<nat>, n: nat, us: seq<nat>)
    requires net.Shaped() && Fits(net, b) && Starts(net, us) && |net.to| <= n
    ensures Comparable(goal, n, Rounds(goal, mode, net, b, stop, n, [], us).0)
  {
    if |us| == 0 {
      RoundsNone(goal, mode, net, b, stop, n, []);
    } else {
      var before, u := us[..|us| - 1], us[|us| - 1];
      TmpComparable(goal, mode, net, b, stop, n, before);
      var again := NextRound(goal, mode, net, b, stop, n, before, u);
      assert before + [u] == us;
    }
  }

  // ---------- which reports stand after several rounds ----------

  /** `p` is a best path of the j-th start state that no later start state beats. */
  ghost predicate Stands(goal: Goal, mode: Mode, net: Net, b: Budgets, stop: set<nat>, us: seq<nat>, j: nat, p: Path)
    requires net.Shaped() && Fits(net, b) && Starts(net, us)
  {
    && j < |us| && p in BestFrom(goal, mode, net, b, stop, us[j])
    && forall m :: j < m < |us| ==> !IsBeaten(goal, Visited(mode, net, b, stop, us[m]), p)
  }

  lemma StandsOn(goal: Goal, mode: Mode, net: Net, b: Budgets, stop: set<nat>, us: seq<nat>, u: nat, j: nat, p: Path)
    requires net.Shaped() && Fits(net, b) && Starts(net, us) && u < |net.to|
    ensures Starts(net, us + [u])
    ensures Stands(goal, mode, net, b, stop, us + [u], j, p)
            <==> if j == |us| then p in BestFrom(goal, mode, net, b, stop, u)
                 else Stands(goal, mode, net, b, stop, us, j, p) && !IsBeaten(goal, Visited(mode, net, b, stop, u), p)
  {
    hide IsBeaten, BestOf, Visited, BestFrom;
    var vs := us + [u];
    assert forall m :: 0 <= m < |us| ==> vs[m] == us[m];
    if j < |us| && Stands(goal, mode, net, b, stop, vs, j, p) {
      assert !IsBeaten(goal, Visited(mode, net, b, stop, vs[|us|]), p);
      forall m | j < m < |us| ensures !IsBeaten(goal, Visited(mode, net, b, stop, us[m]), p) {
        assert !IsBeaten(goal, Visited(mode, net, b, stop, vs[m]), p);
      }
    }
  }

  /** The last round reports exactly the best paths of all start states so far that no later
      start state beats. */
  lemma {:induction false} LastRound(goal: Goal, mode: Mode, net: Net, b: Budgets, stop: set<nat>, n: nat, us: seq<nat>, p: Path)
    requires net.Shaped() && Fits(net, b) && Starts(net, us) && |net.to| <= n
    ensures p in Rounds(goal, mode, net, b, stop, n, [], us).0 <==> exists j :: Stands(goal, mode, net, b, stop, us, j, p)
  {
    hide Stands, Rounds, IsBeaten, BestOf, Visited, BestFrom;
    if |us| == 0 {
      RoundsNone(goal, mode, net, b, stop, n, []);
      assert forall j :: !Stands(goal, mode, net, b, stop, us, j, p) by { NoneStands(goal, mode, net, b, stop, p); }
    } else {
      var before, u := us[..|us| - 1], us[|us| - 1];
      TmpComparable(goal, mode, net, b, stop, n, before);
      var again := NextRound(goal, mode, net, b, stop, n, before, u);
      LastRound(goal, mode, net, b, stop, n, before, p);
      assert before + [u] == us;
      forall j ensures Stands(goal, mode, net, b, stop, us, j, p)
                       <==> if j == |before| then p in BestFrom(goal, mode, net, b, stop, u)
                            else Stands(goal, mode, net, b, stop, before, j, p) && !IsBeaten(goal, Visited(mode, net, b, stop, u), p)
      {
        StandsOn(goal, mode, net, b, stop, before, u, j, p);
      }
      NotYet(goal, mode, net, b, stop, before, p);
    }
  }

  lemma NoneStands(goal: Goal, mode: Mode, net: Net, b: Budgets, stop: set<nat>, p: Path)
    requires net.Shaped() && Fits(net, b)
    ensures Starts(net, []) && forall j :: !Stands(goal, mode, net, b, stop, [], j, p)
  {
  }

  lemma NotYet(goal: Goal, mode: Mode, net: Net, b: Budgets, stop: set<nat>, us: seq<nat>, p: Path)
    requires net.Shaped() && Fits(net, b) && Starts(net, us)
    ensures !Stands(goal, mode, net, b, stop, us, |us|, p)
  {
  }

  // ---------- when nothing is reported twice ----------

  lemma AllOvertakenSnoc(goal: Goal, mode: Mode, net: Net, b: Budgets, stop: set<nat>, us: seq<nat>)
    requires net.Shaped() && Fits(net, b) && Starts(net, us) && |us| > 1
    ensures var before := us[..|us| - 1];
            AllOvertaken(goal, mode, net, b, stop, us)
            <==> AllOvertaken(goal, mode, net, b, stop, before)
                 && Overtaken(goal, mode, net, b, stop, before[|before| - 1], us[|us| - 1])
  {
    hide Overtaken;
    var before := us[..|us| - 1];
    if AllOvertaken(goal, mode, net, b, stop, before) && Overtaken(goal, mode, net, b, stop, before[|before| - 1], us[|us| - 1]) {
      forall i | 0 <= i < |us| - 1 ensures Overtaken(goal, mode, net, b, stop, us[i], us[i + 1]) {
        if i < |before| - 1 {
          assert Overtaken(goal, mode, net, b, stop, before[i], before[i + 1]);
        }
      }
    }
    if AllOvertaken(goal, mode, net, b, stop, us) {
      forall i | 0 <= i < |before| - 1 ensures Overtaken(goal, mode, net, b, stop, before[i], before[i + 1]) {
        assert Overtaken(goal, mode, net, b, stop, us[i], us[i + 1]);
      }
      assert Overtaken(goal, mode, net, b, stop, us[|us| - 2], us[|us| - 1]);
    }
  }

  /** Nothing is left over when the round before reported only best paths that are all beaten. */
  lemma NothingLeft(goal: Goal, mode: Mode, net: Net, b: Budgets, stop: set<nat>, again: seq<Path>, tmp: seq<Path>, u: nat, v: nat)
    requires net.Shaped() && Fits(net, b) && u < |net.to| && v < |net.to|
    requires tmp == BestFrom(goal, mode, net, b, stop, u)
    requires forall p :: p in again <==> p in tmp && !IsBeaten(goal, Visited(mode, net, b, stop, v), p)
    ensures again == [] <==> Overtaken(goal, mode, net, b, stop, u, v)
  {
    hide IsBeaten, BestFrom;
    if again != [] {
      assert again[0] in again;
    }
  }

  /** The result is each start state's best paths, once each, if and only if every search beats
      all that the search before it reports. */
  lemma {:induction false} OnceEach(goal: Goal, mode: Mode, net: Net, b: Budgets, stop: set<nat>, n: nat, us: seq<nat>)
    requires net.Shaped() && Fits(net, b) && Starts(net, us) && |net.to| <= n
    ensures var (tmp, found) := Rounds(goal, mode, net, b, stop, n, [], us);
            && |found| >= |EachBest(goal, mode, net, b, stop, us)|
            && (found == EachBest(goal, mode, net, b, stop, us) <==> AllOvertaken(goal, mode, net, b, stop, us))
            && (AllOvertaken(goal, mode, net, b, stop, us) && |us| > 0 ==> tmp == BestFrom(goal, mode, net, b, stop, us[|us| - 1]))
  {
    hide Rounds, IsBeaten, BestFrom, Overtaken, AllOvertaken, EachBest;
    NoBest(goal, mode, net, b, stop, us);
    if |us| == 0 {
      RoundsNone(goal, mode, net, b, stop, n, []);
      FewStarts(goal, mode, net, b, stop, us);
    } else {
      var before, u := us[..|us| - 1], us[|us| - 1];
      TmpComparable(goal, mode, net, b, stop, n, before);
      var again := NextRound(goal, mode, net, b, stop, n, before, u);
      OnceEach(goal, mode, net, b, stop, n, before);
      assert before + [u] == us;
      var (tmp, found) := Rounds(goal, mode, net, b, stop, n, [], before);
      Longer(found, EachBest(goal, mode, net, b, stop, before), again, BestFrom(goal, mode, net, b, stop, u));
      if |us| == 1 {
        assert before == [];
        RoundsNone(goal, mode, net, b, stop, n, []);
        FewStarts(goal, mode, net, b, stop, us);
        FewStarts(goal, mode, net, b, stop, before);
        FirstIn(again);
      } else {
        NothingLeftIff(goal, mode, net, b, stop, us, again, tmp);
      }
    }
  }

  lemma NoBest(goal: Goal, mode: Mode, net: Net, b: Budgets, stop: set<nat>, us: seq<nat>)
    requires net.Shaped() && Fits(net, b) && Starts(net, us)
    ensures |us| == 0 ==> EachBest(goal, mode, net, b, stop, us) == []
    ensures |us| > 0 ==> Starts(net, us[..|us| - 1])
                         && EachBest(goal, mode, net, b, stop, us)
                            == EachBest(goal, mode, net, b, stop, us[..|us| - 1]) + BestFrom(goal, mode, net, b, stop, us[|us| - 1])
  {
  }

  /** The case of several start states: all are overtaken iff those before are and nothing is left. */
  lemma NothingLeftIff(goal: Goal, mode: Mode, net: Net, b: Budgets, stop: set<nat>, us: seq<nat>, again: seq<Path>, tmp: seq<Path>)
    requires net.Shaped() && Fits(net, b) && Starts(net, us) && |us| > 1
    requires forall p :: p in again <==> p in tmp && !IsBeaten(goal, Visited(mode, net, b, stop, us[|us| - 1]), p)
    requires AllOvertaken(goal, mode, net, b, stop, us[..|us| - 1]) ==> tmp == BestFrom(goal, mode, net, b, stop, us[|us| - 2])
    ensures AllOvertaken(goal, mode, net, b, stop, us) <==> AllOvertaken(goal, mode, net, b, stop, us[..|us| - 1]) && again == []
  {
    hide IsBeaten, BestFrom, Overtaken, AllOvertaken, Visited;
    AllOvertakenSnoc(goal, mode, net, b, stop, us);
    if AllOvertaken(goal, mode, net, b, stop, us[..|us| - 1]) {
      NothingLeft(goal, mode, net, b, stop, again, tmp, us[|us| - 2], us[|us| - 1]);
    }
  }

  lemma FirstIn<T>(s: seq<T>)
    ensures |s| > 0 ==> s[0] in s
  {
  }

  lemma InBoth<T(!new)>(s: seq<T>, t: seq<T>, x: T)
    requires x in s && x in t
    ensures !NoDup(s + t)
  {
    var i: nat :| i < |s| && s[i] == x;
    var j: nat :| j < |t| && t[j] == x;
    assert (s + t)[i] == (s + t)[|s| + j];
  }

  lemma RepeatStays<T(!new)>(s: seq<T>, t: seq<T>)
    requires !NoDup(s)
    ensures !NoDup(s + t)
  {
    var i: nat, j: nat :| i < j < |s| && s[i] == s[j];
    assert (s + t)[i] == (s + t)[j];
  }

  lemma FewStarts(goal: Goal, mode: Mode, net: Net, b: Budgets, stop: set<nat>, us: seq<nat>)
    requires net.Shaped() && Fits(net, b) && Starts(net, us) && |us| <= 1
    ensures AllOvertaken(goal, mode, net, b, stop, us)
  {
  }

  lemma Longer<T>(found: seq<T>, each: seq<T>, again: seq<T>, best: seq<T>)
    requires |found| >= |each|
    ensures |found + (again + best)| >= |each + best|
    ensures found + (again + best) == each + best <==> found == each && again == []
    ensures again == [] ==> again + best == best
  {
    if found + (again + best) == each + best {
      assert |found| + |again| == |each|;
      assert (found + (again + best))[..|found|] == found && (each + best)[..|each|] == each;
    }
    if found == each && again == [] {
      assert again + best == best;
    }
  }

  /** What a start state reports begins with it, and its best paths are different. */
  lemma BestFromStart(goal: Goal, mode: Mode, net: Net, b: Budgets, stop: set<nat>, u: nat)
    requires net.Valid() && Fits(net, b) && u < |net.to|
    ensures NoDup(BestFrom(goal, mode, net, b, stop, u))
    ensures forall p :: p in BestFrom(goal, mode, net, b, stop, u) ==> p.states != [] && p.states[0] == u
  {
    var cands := Visited(mode, net, b, stop, u);
    VisitDistinct(net, b, stop, mode, Start(u));
    KeepDistinct(cands, r => IsBest(goal, NoDist(goal), cands, r));
    var best := BestFrom(goal, mode, net, b, stop, u);
    forall i, j | 0 <= i < j < |best| ensures best[i] != best[j] {
      assert best[i].edges != best[j].edges;
    }
    forall p | p in best ensures p.states != [] && p.states[0] == u {
      BestMember(goal, cands, p);
      var k: nat :| k < |cands| && cands[k] == p;
      var w := VisitSound(net, b, stop, mode, Start(u), k);
      TraceStart(net, u, w);
    }
  }

  lemma {:induction false} EachBestDistinct(goal: Goal, mode: Mode, net: Net, b: Budgets, stop: set<nat>, us: seq<nat>)
    requires net.Valid() && Fits(net, b) && Starts(net, us) && NoDup(us)
    ensures NoDup(EachBest(goal, mode, net, b, stop, us))
    ensures forall p :: p in EachBest(goal, mode, net, b, stop, us) ==> p.states != [] && p.states[0] in us
  {
    hide BestFrom;
    if |us| > 0 {
      var before, u := us[..|us| - 1], us[|us| - 1];
      EachBestDistinct(goal, mode, net, b, stop, before);
      BestFromStart(goal, mode, net, b, stop, u);
      assert us == before + [u] && u !in before;
      JoinNoDup(EachBest(goal, mode, net, b, stop, before), BestFrom(goal, mode, net, b, stop, u));
    } else {
      EmptyNoDup<Path>();
    }
  }

  /** Different start states report no path twice if and only if every search beats all that the
      search before it reports. */
  lemma {:induction false} NoRepeats(goal: Goal, mode: Mode, net: Net, b: Budgets, stop: set<nat>, n: nat, us: seq<nat>)
    requires net.Valid() && Fits(net, b) && Starts(net, us) && NoDup(us) && |net.to| <= n
    ensures NoDup(Rounds(goal, mode, net, b, stop, n, [], us).1) <==> AllOvertaken(goal, mode, net, b, stop, us)
  {
    hide Rounds, IsBeaten, BestFrom, Overtaken, AllOvertaken, NoDup;
    OnceEach(goal, mode, net, b, stop, n, us);
    if AllOvertaken(goal, mode, net, b, stop, us) {
      EachBestDistinct(goal, mode, net, b, stop, us);
    } else if |us| <= 1 {
      FewStarts(goal, mode, net, b, stop, us);
    } else {
      var before, u := us[..|us| - 1], us[|us| - 1];
      assert before + [u] == us;
      assert NoDup(before) by { SplitNoDup(before, [u]); }
      TmpComparable(goal, mode, net, b, stop, n, before);
      var again := NextRound(goal, mode, net, b, stop, n, before, u);
      var (tmp, found) := Rounds(goal, mode, net, b, stop, n, [], before);
      var best := BestFrom(goal, mode, net, b, stop, u);
      NoRepeats(goal, mode, net, b, stop, n, before);
      OnceEach(goal, mode, net, b, stop, n, before);
      AllOvertakenSnoc(goal, mode, net, b, stop, us);
      if AllOvertaken(goal, mode, net, b, stop, before) {
        NothingLeft(goal, mode, net, b, stop, again, tmp, before[|before| - 1], u);
        FirstIn(again);
        assert again[0] in tmp && again[0] in EachBest(goal, mode, net, b, stop, before) && again[0] in again + best;
        InBoth(found, again + best, again[0]);
      } else {
        RepeatStays(found, again + best);
      }
    }
  }

  // ---------- in terms of walks ----------

  /** Every shortest complete walk from `u` that the search can compare has a shorter complete
      walk from `v` to the same end state. */
  ghost predicate ShorterFrom(net: Net, b: Budgets, stop: set<nat>, u: nat, v: nat)
    requires Fits(net, b)
  {
    forall w :: IsShortest(net, b, stop, u, w) && |w| + 1 <= MAX_PATH_DIST ==> HasShorter(net, b, stop, v, End(net, u, w), |w|)
  }

  ghost predicate HasShorter(net: Net, b: Budgets, stop: set<nat>, v: nat, e: nat, bound: nat)
    requires Fits(net, b)
  {
    exists x :: Complete(net, b, stop, v, x) && End(net, v, x) == e && |x| < bound
  }

  /** The same among the walks that enter no state twice. */
  ghost predicate ShorterSimpleFrom(net: Net, b: Budgets, stop: set<nat>, u: nat, v: nat)
    requires Fits(net, b)
  {
    forall w :: IsShortestSimple(net, b, stop, u, w) && |w| + 1 <= MAX_PATH_DIST ==> HasShorterSimple(net, b, stop, v, End(net, u, w), |w|)
  }

  ghost predicate HasShorterSimple(net: Net, b: Budgets, stop: set<nat>, v: nat, e: nat, bound: nat)
    requires Fits(net, b)
  {
    exists x :: Complete(net, b, stop, v, x) && TargetsDistinct(net, v, x) && End(net, v, x) == e && |x| < bound
  }

  /** Every longest complete walk from `u` has a longer complete walk from `v` to the same end. */
  ghost predicate LongerFrom(net: Net, b: Budgets, stop: set<nat>, u: nat, v: nat)
    requires Fits(net, b)
  {
    forall w :: IsLongest(net, b, stop, u, w) ==> HasLonger(net, b, stop, v, End(net, u, w), |w|)
  }

  ghost predicate HasLonger(net: Net, b: Budgets, stop: set<nat>, v: nat, e: nat, bound: nat)
    requires Fits(net, b)
  {
    exists x :: Complete(net, b, stop, v, x) && End(net, v, x) == e && |x| > bound
  }

  lemma BeatenIsShorter(net: Net, b: Budgets, stop: set<nat>, v: nat, p: Path)
    requires net.Shaped() && Fits(net, b) && v < |net.to| && p.states != [] && |p.states| <= MAX_PATH_DIST
    ensures IsBeaten(Shortest, Visited(Pruned, net, b, stop, v), p) <==> HasShorterSimple(net, b, stop, v, Last(p), |p.states| - 1)
  {
    if IsBeaten(Shortest, Visited(Pruned, net, b, stop, v), p) {
      BeatenByWalk(net, b, stop, v, p);
    }
    if HasShorterSimple(net, b, stop, v, Last(p), |p.states| - 1) {
      BeatenByReport(net, b, stop, v, p);
    }
  }

  lemma BeatenByWalk(net: Net, b: Budgets, stop: set<nat>, v: nat, p: Path)
    requires net.Shaped() && Fits(net, b) && v < |net.to| && IsBeaten(Shortest, Visited(Pruned, net, b, stop, v), p)
    ensures HasShorterSimple(net, b, stop, v, Last(p), |p.states| - 1)
  {
    hide Visit;
    var cands := Visited(Pruned, net, b, stop, v);
    var q :| q in cands && q.states != [] && Last(q) == Last(p) && |q.states| < |p.states|;
    var k: nat :| k < |cands| && cands[k] == q;
    var x := VisitSound(net, b, stop, Pruned, Start(v), k);
    TraceStart(net, v, x);
    assert TargetsDistinct(net, v, x);
  }

  lemma BeatenByReport(net: Net, b: Budgets, stop: set<nat>, v: nat, p: Path)
    requires net.Shaped() && Fits(net, b) && v < |net.to| && p.states != [] && |p.states| <= MAX_PATH_DIST
    requires HasShorterSimple(net, b, stop, v, Last(p), |p.states| - 1)
    ensures IsBeaten(Shortest, Visited(Pruned, net, b, stop, v), p)
  {
    hide Visit, Leaves, Stuck, WithinBudget, Trace;
    var x :| Complete(net, b, stop, v, x) && TargetsDistinct(net, v, x) && End(net, v, x) == Last(p) && |x| < |p.states| - 1;
    SimpleVisited(net, b, stop, v, x);
  }

  lemma ShortOvertaken(net: Net, b: Budgets, stop: set<nat>, u: nat, v: nat)
    requires net.Valid() && Fits(net, b) && u < |net.to| && v < |net.to|
    ensures Overtaken(Shortest, Pruned, net, b, stop, u, v) <==> ShorterSimpleFrom(net, b, stop, u, v)
  {
    hide Visited, IsBeaten, HasShorterSimple, BestOf;
    if Overtaken(Shortest, Pruned, net, b, stop, u, v) {
      forall w | IsShortestSimple(net, b, stop, u, w) && |w| + 1 <= MAX_PATH_DIST
        ensures HasShorterSimple(net, b, stop, v, End(net, u, w), |w|)
      {
        Reported(net, b, stop, u, w);
        BeatenIsShorter(net, b, stop, v, Trace(net, u, w));
      }
    }
    if ShorterSimpleFrom(net, b, stop, u, v) {
      forall p | p in BestFrom(Shortest, Pruned, net, b, stop, u) ensures IsBeaten(Shortest, Visited(Pruned, net, b, stop, v), p) {
        var w := ReportOf(net, b, stop, u, p);
        BeatenIsShorter(net, b, stop, v, p);
      }
    }
  }

  lemma Reported(net: Net, b: Budgets, stop: set<nat>, u: nat, w: seq<Slot>)
    requires net.Shaped() && Fits(net, b) && u < |net.to| && IsShortestSimple(net, b, stop, u, w) && |w| + 1 <= MAX_PATH_DIST
    ensures Trace(net, u, w) in BestFrom(Shortest, Pruned, net, b, stop, u)
    ensures |Trace(net, u, w).states| == |w| + 1 && Last(Trace(net, u, w)) == End(net, u, w)
  {
    SimpleIsReported(net, b, stop, u, w);
    TraceStart(net, u, w);
  }

  lemma ReportOf(net: Net, b: Budgets, stop: set<nat>, u: nat, p: Path) returns (w: seq<Slot>)
    requires net.Shaped() && Fits(net, b) && u < |net.to| && p in BestFrom(Shortest, Pruned, net, b, stop, u)
    ensures IsShortestSimple(net, b, stop, u, w) && |w| + 1 <= MAX_PATH_DIST && p.states != [] && |p.states| == |w| + 1
    ensures IsWalk(net, u, w) && Last(p) == End(net, u, w)
  {
    w := ReportedIsSimple(net, b, stop, u, p);
    TraceStart(net, u, w);
  }

  /** With stop states the walks that enter a state twice make no difference. */
  lemma ShorterIsSimple(net: Net, b: Budgets, stop: set<nat>, u: nat, v: nat)
    requires Fits(net, b) && stop != {}
    ensures ShorterFrom(net, b, stop, u, v) <==> ShorterSimpleFrom(net, b, stop, u, v)
  {
    hide HasShorter, HasShorterSimple;
    forall w ensures IsShortest(net, b, stop, u, w) <==> IsShortestSimple(net, b, stop, u, w) {
      ShortestIsSimple(net, b, stop, u, w);
    }
    forall e, bound ensures HasShorter(net, b, stop, v, e, bound) <==> HasShorterSimple(net, b, stop, v, e, bound) {
      HasShorterSame(net, b, stop, v, e, bound);
    }
    if ShorterSimpleFrom(net, b, stop, u, v) {
      forall w | IsShortest(net, b, stop, u, w) && |w| + 1 <= MAX_PATH_DIST ensures HasShorter(net, b, stop, v, End(net, u, w), |w|) {
        assert IsShortestSimple(net, b, stop, u, w);
      }
    }
  }

  lemma HasShorterSame(net: Net, b: Budgets, stop: set<nat>, v: nat, e: nat, bound: nat)
    requires Fits(net, b) && stop != {}
    ensures HasShorter(net, b, stop, v, e, bound) <==> HasShorterSimple(net, b, stop, v, e, bound)
  {
    if HasShorter(net, b, stop, v, e, bound) {
      var x :| Complete(net, b, stop, v, x) && End(net, v, x) == e && |x| < bound;
      var y := Shorten(net, b, stop, v, x);
    }
  }

  lemma LongOvertaken(net: Net, b: Budgets, stop: set<nat>, u: nat, v: nat)
    requires net.Valid() && Fits(net, b) && u < |net.to| && v < |net.to|
    ensures Overtaken(Longest, Full, net, b, stop, u, v) <==> LongerFrom(net, b, stop, u, v)
  {
    hide IsBeaten, HasLonger, BestOf, Visit;
    if Overtaken(Longest, Full, net, b, stop, u, v) {
      forall w | IsLongest(net, b, stop, u, w) ensures HasLonger(net, b, stop, v, End(net, u, w), |w|) {
        LongestIsReported(net, b, stop, u, w);
        TraceStart(net, u, w);
        BeatenIsLonger(net, b, stop, v, Trace(net, u, w));
      }
    }
    if LongerFrom(net, b, stop, u, v) {
      forall p | p in BestFrom(Longest, Full, net, b, stop, u) ensures IsBeaten(Longest, Visited(Full, net, b, stop, v), p) {
        var w := ReportedIsLongest(net, b, stop, u, p);
        TraceStart(net, u, w);
        BeatenIsLonger(net, b, stop, v, p);
      }
    }
  }

  lemma BeatenIsLonger(net: Net, b: Budgets, stop: set<nat>, v: nat, p: Path)
    requires net.Valid() && Fits(net, b) && v < |net.to| && p.states != []
    ensures IsBeaten(Longest, Visited(Full, net, b, stop, v), p) <==> HasLonger(net, b, stop, v, Last(p), |p.states| - 1)
  {
    hide Visit;
    var cands := AllPaths(net, b, stop, v);
    if IsBeaten(Longest, cands, p) {
      var q :| q in cands && q.states != [] && Last(q) == Last(p) && |q.states| > |p.states|;
      AllPathsExact(net, b, stop, v, q);
      var x :| Complete(net, b, stop, v, x) && q == Trace(net, v, x);
      TraceStart(net, v, x);
    }
    if HasLonger(net, b, stop, v, Last(p), |p.states| - 1) {
      var x :| Complete(net, b, stop, v, x) && End(net, v, x) == Last(p) && |x| > |p.states| - 1;
      AllPathsExact(net, b, stop, v, Trace(net, v, x));
      TraceStart(net, v, x);
    }
  }

  /** The short search from any start states on a fresh object, with stop states: no path is
      reported twice if and only if each shortest walk from a start state has a shorter walk to
      the same end from the start state that is searched next. */
  lemma ShortNoRepeats(net: Net, b: Budgets, stop: set<nat>, n: nat, us: seq<nat>)
    requires net.Valid() && Fits(net, b) && Starts(net, us) && NoDup(us) && |net.to| <= n && stop != {}
    ensures NoDup(Rounds(Shortest, Pruned, net, b, stop, n, [], us).1)
            <==> forall i :: 0 <= i < |us| - 1 ==> ShorterFrom(net, b, stop, us[i], us[i + 1])
  {
    ShortSimpleNoRepeats(net, b, stop, n, us);
    hide Rounds, ShorterFrom, ShorterSimpleFrom;
    forall i | 0 <= i < |us| - 1
      ensures ShorterFrom(net, b, stop, us[i], us[i + 1]) <==> ShorterSimpleFrom(net, b, stop, us[i], us[i + 1])
    {
      ShorterIsSimple(net, b, stop, us[i], us[i + 1]);
    }
  }

  /** The same with any stop set, among the walks that enter no state twice. */
  lemma ShortSimpleNoRepeats(net: Net, b: Budgets, stop: set<nat>, n: nat, us: seq<nat>)
    requires net.Valid() && Fits(net, b) && Starts(net, us) && NoDup(us) && |net.to| <= n
    ensures NoDup(Rounds(Shortest, Pruned, net, b, stop, n, [], us).1)
            <==> forall i :: 0 <= i < |us| - 1 ==> ShorterSimpleFrom(net, b, stop, us[i], us[i + 1])
  {
    NoRepeats(Shortest, Pruned, net, b, stop, n, us);
    hide Rounds, Overtaken, ShorterSimpleFrom;
    forall i | 0 <= i < |us| - 1
      ensures Overtaken(Shortest, Pruned, net, b, stop, us[i], us[i + 1]) <==> ShorterSimpleFrom(net, b, stop, us[i], us[i + 1])
    {
      ShortOvertaken(net, b, stop, us[i], us[i + 1]);
    }
  }

  /** The long search from any start states on a fresh object. */
  lemma LongNoRepeats(net: Net, b: Budgets, stop: set<nat>, n: nat, us: seq<nat>)
    requires net.Valid() && Fits(net, b) && Starts(net, us) && NoDup(us) && |net.to| <= n
    ensures NoDup(Rounds(Longest, Full, net, b, stop, n, [], us).1)
            <==> forall i :: 0 <= i < |us| - 1 ==> LongerFrom(net, b, stop, us[i], us[i + 1])
  {
    NoRepeats(Longest, Full, net, b, stop, n, us);
    hide Rounds, Overtaken, LongerFrom;
    forall i | 0 <= i < |us| - 1
      ensures Overtaken(Longest, Full, net, b, stop, us[i], us[i + 1]) <==> LongerFrom(net, b, stop, us[i], us[i + 1])
    {
      LongOvertaken(net, b, stop, us[i], us[i + 1]);
    }
  }

  // ---------- a graph where a report comes twice ----------

  /** Two start states with one edge each into the stop state. */
  const FORK_NET := Net([[2], [2], []], [[1], [2], []], [[0], [0], []])
  const FORK_BUDGETS: Budgets := [[1], [1], []]
  const FORK_WALK := [Slot(0, 0)]

  lemma ForkFacts()
    ensures FORK_NET.Valid() && Fits(FORK_NET, FORK_BUDGETS) && Complete(FORK_NET, FORK_BUDGETS, {2}, 0, FORK_WALK)
  {
    ForkNet();
    assert multiset(FORK_WALK) == multiset{Slot(0, 0)};
  }

  lemma ForkNet()
    ensures FORK_NET.Valid() && Fits(FORK_NET, FORK_BUDGETS)
  {
    assert forall u, i :: FORK_NET.HasSlot(u, i) ==> i == 0 && (u == 0 || u == 1);
  }

  lemma NextSource(net: Net, u: nat, w: seq<Slot>, k: nat)
    requires IsWalk(net, u, w) && 0 < k < |w|
    ensures w[k].src == Target(net, w[k - 1])
  {
  }

  lemma ForkWalks(u: nat, w: seq<Slot>)
    requires u < 2 && Fits(FORK_NET, FORK_BUDGETS) && Complete(FORK_NET, FORK_BUDGETS, {2}, u, w)
    ensures |w| == 1 && End(FORK_NET, u, w) == 2
  {
    assert forall k :: 0 <= k < |w| ==> FORK_NET.HasSlot(w[k].src, w[k].idx) && Target(FORK_NET, w[k]) == 2;
    if |w| > 1 {
      NextSource(FORK_NET, u, w, 1);
    }
  }

  lemma ForkBest(goal: Goal, q: Path)
    requires FORK_NET.Valid() && Fits(FORK_NET, FORK_BUDGETS) && Complete(FORK_NET, FORK_BUDGETS, {2}, 0, FORK_WALK)
    requires q == Trace(FORK_NET, 0, FORK_WALK)
    ensures var mode := if goal.Shortest? then Pruned else Full;
            && q in BestFrom(goal, mode, FORK_NET, FORK_BUDGETS, {2}, 0)
            && !IsBeaten(goal, Visited(mode, FORK_NET, FORK_BUDGETS, {2}, 1), q)
  {
    hide Visit, BestOf, IsBeaten;
    forall u: nat, w | u < 2 && Complete(FORK_NET, FORK_BUDGETS, {2}, u, w) ensures |w| == 1 {
      ForkWalks(u, w);
    }
    TraceStart(FORK_NET, 0, FORK_WALK);
    if goal.Shortest? {
      SimpleIsReported(FORK_NET, FORK_BUDGETS, {2}, 0, FORK_WALK);
      BeatenIsShorter(FORK_NET, FORK_BUDGETS, {2}, 1, q);
    } else {
      LongestIsReported(FORK_NET, FORK_BUDGETS, {2}, 0, FORK_WALK);
      BeatenIsLonger(FORK_NET, FORK_BUDGETS, {2}, 1, q);
    }
  }

  /** Both searches report the walk from the first start state twice. */
  lemma ForkRepeats(goal: Goal)
    ensures FORK_NET.Valid() && Fits(FORK_NET, FORK_BUDGETS) && Complete(FORK_NET, FORK_BUDGETS, {2}, 0, FORK_WALK)
    ensures var mode := if goal.Shortest? then Pruned else Full;
            multiset(Rounds(goal, mode, FORK_NET, FORK_BUDGETS, {2}, 3, [], [0, 1]).1)[Trace(FORK_NET, 0, FORK_WALK)] >= 2
  {
    hide Rounds, Visited, BestOf, IsBeaten, BestFrom, Trace, Complete, Fits, Comparable;
    var net, b, q, mode := FORK_NET, FORK_BUDGETS, Trace(FORK_NET, 0, FORK_WALK), if goal.Shortest? then Pruned else Full;
    ForkFacts();
    ForkBest(goal, q);
    FirstRound(goal, mode, net, b, {2}, 3, 0);
    TmpComparable(goal, mode, net, b, {2}, 3, [0]);
    var again := NextRound(goal, mode, net, b, {2}, 3, [0], 1);
    assert [0] + [1] == [0, 1];
    var first, second := BestFrom(goal, mode, net, b, {2}, 0), again + BestFrom(goal, mode, net, b, {2}, 1);
    TwiceIn(first, second, q);
  }

  lemma TwiceIn<T>(s: seq<T>, t: seq<T>, x: T)
    requires x in s && x in t
    ensures multiset(s + t)[x] >= 2
  {
    assert multiset(s + t) == multiset(s) + multiset(t);
  }

  lemma FirstRound(goal: Goal, mode: Mode, net: Net, b: Budgets, stop: set<nat>, n: nat, u: nat)
    requires net.Shaped() && Fits(net, b) && u < |net.to| <= n
    ensures var best := BestFrom(goal, mode, net, b, stop, u); Rounds(goal, mode, net, b, stop, n, [], [u]) == (best, best)
  {
    OneRound(goal, mode, net, b, stop, n, u);
  }
}
