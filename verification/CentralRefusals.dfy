/** When a removal ends with no object: only after the page heap has refused it a span. */
module CentralRefusals {
  import opened CentralDelivery
  import opened CentralInvariant
  import opened CentralLists
  import opened CentralProperties
  import opened CentralRuns
  import opened CentralThreads
  import opened Collections
  import opened Lists

  /** The thread removes from class c and has been refused a span: it is on its way back to the
      list, or holds it and there is nothing to fetch. */
  ghost predicate Refused(s: State, t: nat, c: nat, n: nat) {
    match PcOf(s, t)
    case CarveWant(d, m, sp, _) => d == c && m == n && sp.None?
    case CarveHeld(d, m, sp, _) => d == c && m == n && sp.None?
    case Fetching(d, m, found, populated) => d == c && m == n && found == [] && populated && c < |s.lists| && !CanFetch(s.lists[c])
    case _ => false
  }

  /** The thread asks the page heap for a span and gets none. */
  ghost predicate Refusal(s: State, t: nat, i: Input, c: nat, n: nat) {
    PcOf(s, t) == NewHeld(c, n) && i.page.None?
  }

  /** A step of another thread leaves the list of a held lock alone. */
  lemma HeldListStays(s: State, u: nat, i: Input, t: nat, c: nat, cfg: Config)
    requires cfg.Ok() && Inv(s, cfg) && u != t && |s.lists| == |cfg.classes| && c < |s.lists| && Holds(PcOf(s, t)) == ClassLock(c)
    ensures |Next(s, u, i, cfg).lists| == |s.lists| && Next(s, u, i, cfg).lists[c] == s.lists[c]
  {
    InRange(s, u, cfg);
    Owners(s, u, t, c, cfg);
    hide Inv, Next, PcOk;
    var k := StepSlots(s, u, i, cfg);
  }

  lemma Owners(s: State, u: nat, t: nat, c: nat, cfg: Config)
    requires cfg.Ok() && Inv(s, cfg) && u != t && Holds(PcOf(s, t)) == ClassLock(c)
    ensures Holds(PcOf(s, u)) != ClassLock(c)
  {
    hide PlacesOk, HomesOk, ListsOk, ObjectsOk, PagesOk, SpanOk, PcOk;
    assert LockOk(s.owner, PcOf(s, t), t) && LockOk(s.owner, PcOf(s, u), u);
    assert ClassLock(c) in s.owner && s.owner[ClassLock(c)] == t;
  }

  /** A thread that has been refused has just been, or was before the step. */
  lemma RefusedBefore(s: State, u: nat, i: Input, t: nat, c: nat, n: nat, cfg: Config)
    requires cfg.Ok() && Inv(s, cfg) && Enabled(s, u, i, cfg) && |s.lists| == |cfg.classes| && Refused(Next(s, u, i, cfg), t, c, n)
    ensures Refused(s, t, c, n) || (u == t && Refusal(s, t, i, c, n))
  {
    if u != t {
      OthersStay(s, u, i, t, cfg);
      var pc := PcOf(s, t);
      if pc.Fetching? && pc.c < |s.lists| {
        hide Inv, Next;
        HeldListStays(s, u, i, t, pc.c, cfg);
      }
    } else {
      OwnStep(s, t, i, c, n, cfg);
    }
  }

  lemma NotAtStart(s: State, t: nat, c: nat, n: nat, cfg: Config)
    requires cfg.Ok() && Initial(s, cfg)
    ensures !Refused(s, t, c, n)
  {
  }

  lemma OwnStep(s: State, t: nat, i: Input, c: nat, n: nat, cfg: Config)
    requires cfg.Ok() && Inv(s, cfg) && |s.lists| == |cfg.classes| && Refused(Next(s, t, i, cfg), t, c, n)
    ensures Refused(s, t, c, n) || Refusal(s, t, i, c, n)
  {
    InRange(s, t, cfg);
    NotFailed(s, t, cfg);
    hide Inv, Acquire, Call, TryCache, PickVictim, Shrink, Back, Released, FreeOne, Delete, TakeCached, FetchOne, NewSpan, AddSpan;
    hide CanFetch, Ready, Refused, Refusal, AllOfClass, TaskOk, OfClass, Config.ObjectsOf;
    if Wants(PcOf(s, t)) != NoLock {
      AcquireStep(s, t, c, n);
    } else {
      match PcOf(s, t)
      case NewHeld(d, m) => NewSpanStep(s, t, d, m, i, c, n, cfg);
      case CarveHeld(d, m, sp, objs) => AddSpanStep(s, t, d, m, sp, objs, c, n);
      case Fetching(d, m, found, populated) => FetchOneStep(s, t, d, m, found, populated, c, n);
      case RemHeld(d, m) => TakeCachedStep(s, t, d, m, c, n, cfg);
      case Idle => CallStep(s, t, i.call, c, n);
      case _ => InsertionStep(s, t, i, c, n, cfg);
    }
  }

  lemma AcquireStep(s: State, t: nat, c: nat, n: nat)
    requires Wants(PcOf(s, t)) != NoLock && Refused(Acquire(s, t), t, c, n)
    ensures Refused(s, t, c, n)
  {
  }

  lemma NewSpanStep(s: State, t: nat, d: nat, m: nat, i: Input, c: nat, n: nat, cfg: Config)
    requires cfg.Ok() && d < |cfg.classes| && PcOf(s, t) == NewHeld(d, m) && Refused(NewSpan(s, t, d, m, i.page, cfg), t, c, n)
    ensures Refusal(s, t, i, c, n)
  {
    hide PageEntries, Config.ObjectsOf;
  }

  lemma AddSpanStep(s: State, t: nat, d: nat, m: nat, sp: Option<Span>, objs: seq<Ptr>, c: nat, n: nat)
    requires d < |s.lists| && PcOf(s, t) == CarveHeld(d, m, sp, objs) && Refused(AddSpan(s, t, d, m, sp, objs), t, c, n)
    ensures Refused(s, t, c, n)
  {
    hide Moved;
  }

  lemma FetchOneStep(s: State, t: nat, d: nat, m: nat, found: seq<Ptr>, populated: bool, c: nat, n: nat)
    requires d < |s.lists| && PcOf(s, t) == Fetching(d, m, found, populated) && (CanFetch(s.lists[d]) ==> Ready(s.lists[d]))
    ensures !Refused(FetchOne(s, t, d, m, found, populated), t, c, n)
  {
    hide Moved, Fetch;
  }

  lemma TakeCachedStep(s: State, t: nat, d: nat, m: nat, c: nat, n: nat, cfg: Config)
    requires d < |s.lists| && d < |cfg.classes|
    ensures !Refused(TakeCached(s, t, d, m, cfg), t, c, n)
  {
    hide Moved;
  }

  lemma CallStep(s: State, t: nat, r: Request, c: nat, n: nat)
    ensures !Refused(Call(s, t, r), t, c, n)
  {
    hide Moved;
  }

  lemma InsertionStep(s: State, t: nat, i: Input, c: nat, n: nat, cfg: Config)
    requires cfg.Ok() && |s.lists| == |cfg.classes| && PcOk(s.heap, PcOf(s, t), t, cfg)
    requires var pc := PcOf(s, t);
             Wants(pc) == NoLock && !pc.NewHeld? && !pc.CarveHeld? && !pc.Fetching? && !pc.RemHeld? && !pc.Idle?
    ensures !Refused(Next(s, t, i, cfg), t, c, n)
  {
    hide Release, Without, Moved, Call, TakeCached, FetchOne, NewSpan, AddSpan, CanFetch, AllOfClass, TaskOk;
  }

  lemma NotFailed(s: State, t: nat, cfg: Config)
    requires cfg.Ok() && Inv(s, cfg)
    ensures var pc := PcOf(s, t);
            && (pc.Fetching? ==> pc.c < |s.lists| && pc.n > 0)
            && (pc.Fetching? && CanFetch(s.lists[pc.c]) ==> Ready(s.lists[pc.c]))
  {
    InRange(s, t, cfg);
    var pc := PcOf(s, t);
    if pc.Fetching? && CanFetch(s.lists[pc.c]) {
      ListAt(s, pc.c, cfg);
      FetchReady(s.lists[pc.c], cfg.ClassOf(pc.c));
    }
  }

  ghost predicate Ready(l: FreeList) {
    CanFetch(l) && FetchSpan(l) in l.spans && |l.spans[FetchSpan(l)].objs| > 0
  }

  /** Over any run: a thread that has been refused was so at a step of its own, and all the time
      since. */
  lemma {:induction false} SinceRefusal(run: seq<State>, moves: seq<CentralProperties.Move>, m: nat, t: nat, c: nat, n: nat, cfg: Config) returns (j: nat)
    requires cfg.Ok() && IsRun(run, moves, cfg) && m < |run| && Refused(run[m], t, c, n)
    ensures j < m && moves[j].t == t && Refusal(run[j], t, moves[j].i, c, n) && forall k :: j < k <= m ==> Refused(run[k], t, c, n)
  {
    NotAtStart(run[0], t, c, n, cfg);
    hide Inv, Enabled, Next, Initial, Refused, Refusal;
    RunKeeps(run, moves, m - 1, cfg);
    var s, u, i := run[m - 1], moves[m - 1].t, moves[m - 1].i;
    assert Enabled(s, u, i, cfg) && run[m] == Next(s, u, i, cfg);
    RefusedBefore(s, u, i, t, c, n, cfg);
    if Refused(s, t, c, n) {
      j := SinceRefusal(run, moves, m - 1, t, c, n, cfg);
    } else {
      j := m - 1;
    }
  }

  /** Over any run: a removal that ends with no object was refused a span by the page heap, at a
      step of the same call, when its list had nothing to fetch; and the list has nothing to
      fetch at the end. */
  lemma EmptyRemovalRefused(run: seq<State>, moves: seq<CentralProperties.Move>, m: nat, t: nat, cfg: Config) returns (j: nat)
    requires cfg.Ok() && IsRun(run, moves, cfg) && m < |moves| && moves[m].t == t && |run[m].lists| == |cfg.classes|
    requires PcOf(run[m], t).Fetching? && PcOf(run[m], t).found == [] && PcOf(run[m + 1], t).Idle?
    ensures var pc := PcOf(run[m], t);
            && j < m && moves[j].t == t && PcOf(run[j], t) == NewHeld(pc.c, pc.n) && moves[j].i.page.None?
            && (forall k :: j < k <= m ==> !PcOf(run[k], t).Idle?)
            && pc.c < |run[m].lists| && !CanFetch(run[m].lists[pc.c])
  {
    RunKeeps(run, moves, m, cfg);
    var s, i := run[m], moves[m].i;
    var pc := PcOf(s, t);
    assert Enabled(s, t, i, cfg) && run[m + 1] == Next(s, t, i, cfg);
    var os := RemovalDelivers(s, t, i, cfg);
    InRange(s, t, cfg);
    assert Refused(s, t, pc.c, pc.n) by { hide Inv, Next, Enabled; }
    hide Inv, Enabled, Next, Initial;
    j := SinceRefusal(run, moves, m, t, pc.c, pc.n, cfg);
  }

  /** When a removal takes a cached chain and an insertion fills a cache slot: a full transfer, and
      a chain or a slot at hand; an insertion looks for a slot elsewhere only if its cache is full
      and may grow. */
  lemma CacheFirst(s: State, t: nat, i: Input, cfg: Config)
    requires cfg.Ok() && Inv(s, cfg) && |s.lists| == |cfg.classes|
    ensures var pc := PcOf(s, t);
            pc.RemHeld? ==>
              && pc.c < |s.lists|
              && (PcOf(Next(s, t, i, cfg), t).Idle? <==> pc.n == cfg.classes[pc.c].move && |s.lists[pc.c].slots| > 0)
    ensures var pc, s' := PcOf(s, t), Next(s, t, i, cfg);
            pc.InsHeld? ==>
              && pc.c < |s.lists|
              && var l := s.lists[pc.c]; var full := |pc.chain| == cfg.classes[pc.c].move;
                 && (PcOf(s', t).Idle? <==> full && |l.slots| < l.cacheSize)
                 && (PcOf(s', t).Idle? ==> s'.lists[pc.c].slots == l.slots + [pc.chain])
                 && (PcOf(s', t).Evict? <==> full && l.cacheSize <= |l.slots| && l.cacheSize < l.maxCache)
  {
    InRange(s, t, cfg);
    if PcOf(s, t).InsHeld? {
      ListAt(s, PcOf(s, t).c, cfg);
    }
    hide Inv, Moved;
  }

  /** An insertion that looks for a slot asks the class picked, unless that is its own or looks
      unsuitable; then it tries once more with force, and after that gives up. */
  lemma AsksPicked(s: State, t: nat, i: Input, cfg: Config)
    requires cfg.Ok() && Inv(s, cfg) && |s.lists| == |cfg.classes| && PcOf(s, t).Evict?
    ensures var pc, pc' := PcOf(s, t), PcOf(Next(s, t, i, cfg), t);
            && (pc'.ShrinkWant? <==> i.victim != pc.c && !i.quit)
            && (pc'.ShrinkWant? ==> pc'.victim == i.victim && pc'.force == pc.force && pc'.chain == pc.chain && pc'.c == pc.c)
            && (!pc'.ShrinkWant? ==> if pc.force then pc' == Freeing(pc.c, pc.chain, Insertion) else pc' == Evict(pc.c, pc.chain, true))
  {
    hide Inv, Moved, TryCache, Shrink, Back, Released, FreeOne, Delete, TakeCached, FetchOne, NewSpan, AddSpan;
  }

  /** A class gives up a slot if it has one, and an unused one unless it is forced. */
  lemma SlotGiven(s: State, t: nat, i: Input, cfg: Config)
    requires cfg.Ok() && Inv(s, cfg) && |s.lists| == |cfg.classes| && PcOf(s, t).ShrinkHeld?
    ensures var pc, s' := PcOf(s, t), Next(s, t, i, cfg);
            && pc.victim < |s.lists| && |s'.lists| == |s.lists|
            && var l := s.lists[pc.victim]; var gives := 0 < l.cacheSize && (pc.force || |l.slots| < l.cacheSize);
               && s'.lists[pc.victim].cacheSize == l.cacheSize - (if gives then 1 else 0)
               && Token(PcOf(s', t)) == (if gives then 1 else 0)
               && (PcOf(s', t).Freeing? <==> gives && |l.slots| == l.cacheSize)
  {
    var pc := PcOf(s, t);
    InRange(s, t, cfg);
    ListAt(s, pc.victim, cfg);
    ShrinkIs(s, t, pc.c, pc.chain, pc.force, pc.victim);
    hide Inv, PcOk, SpansOk, FreeTotal, Token;
    hide Acquire, Call, TryCache, PickVictim, Shrink, Back, Released, FreeOne, Delete, TakeCached, FetchOne, NewSpan, AddSpan;
  }

  lemma ShrinkIs(s: State, t: nat, c: nat, chain: seq<Ptr>, force: bool, v: nat)
    requires v < |s.lists|
    ensures var l, s' := s.lists[v], Shrink(s, t, c, chain, force, v); var gives := 0 < l.cacheSize && (force || |l.slots| < l.cacheSize);
            |l.slots| <= l.cacheSize ==>
              && |s'.lists| == |s.lists| && s'.lists[v].cacheSize == l.cacheSize - (if gives then 1 else 0)
              && Token(PcOf(s', t)) == (if gives then 1 else 0)
              && (PcOf(s', t).Freeing? <==> gives && |l.slots| == l.cacheSize)
  {
    hide Moved;
  }

  /** The class that asked gets the slot if it may still grow, and puts its chain there. */
  lemma SlotTaken(s: State, t: nat, i: Input, cfg: Config)
    requires cfg.Ok() && Inv(s, cfg) && |s.lists| == |cfg.classes| && PcOf(s, t).BackHeld?
    ensures var pc, s' := PcOf(s, t), Next(s, t, i, cfg);
            && pc.c < |s.lists| && |s'.lists| == |s.lists|
            && var l := s.lists[pc.c];
               && (PcOf(s', t).Idle? <==> pc.got && l.cacheSize < l.maxCache)
               && (PcOf(s', t).Idle? ==> s'.lists[pc.c].slots == l.slots + [pc.chain] && s'.lists[pc.c].cacheSize == l.cacheSize + 1)
               && (PcOf(s', t).Evict? <==> !pc.got && !pc.force)
  {
    InRange(s, t, cfg);
    var pc := PcOf(s, t);
    ListAt(s, pc.c, cfg);
    hide Inv, Moved, PcOk, SpansOk, FreeTotal, Call, TryCache, PickVictim, Shrink, Released, FreeOne, Delete, TakeCached, FetchOne, NewSpan, AddSpan;
  }
}
