/** Where the objects of an inserted chain end, and what nobody touches. */
module CentralDelivery {
  import opened CentralInvariant
  import opened CentralLists
  import opened CentralProperties
  import opened CentralRuns
  import opened CentralSpans
  import opened CentralThreads
  import opened Collections
  import opened Lists

  // ---------- insertions ----------

  /** A thread is inserting the chain into class c and has not put this object anywhere yet. */
  ghost predicate Inserting(pc: Pc, c: nat, chain: seq<Ptr>, o: Ptr) {
    match pc
    case InsWant(d, ch) => d == c && ch == chain && o in chain
    case InsHeld(d, ch) => d == c && ch == chain && o in chain
    case Evict(d, ch, _) => d == c && ch == chain && o in chain
    case ShrinkWant(d, ch, _, _) => d == c && ch == chain && o in chain
    case ShrinkHeld(d, ch, _, _) => d == c && ch == chain && o in chain
    case BackWant(d, ch, _, _) => d == c && ch == chain && o in chain
    case BackHeld(d, ch, _, _) => d == c && ch == chain && o in chain
    case Freeing(k, rest, task) => Waiting(k, rest, [], task, c, chain, o)
    case DelWant(k, rest, task, _, dead) => Waiting(k, rest, dead, task, c, chain, o)
    case DelHeld(k, rest, task, _, dead) => Waiting(k, rest, dead, task, c, chain, o)
    case FreeWant(k, rest, task) => Waiting(k, rest, [], task, c, chain, o)
    case _ => false
  }

  /** While chains are released: the object is in what is left, or waits for a cache slot. */
  ghost predicate Waiting(k: nat, rest: seq<Ptr>, dead: seq<Ptr>, task: Task, c: nat, chain: seq<Ptr>, o: Ptr) {
    if task.EvictionFor? then task.c == c && task.chain == chain && o in chain else k == c && (o in rest || o in dead)
  }

  /** The chain is in a cache slot of its class. */
  ghost predicate InCache(s: State, c: nat, chain: seq<Ptr>, o: Ptr) {
    && c < |s.lists| && |s.lists[c].slots| > 0
    && var j := |s.lists[c].slots| - 1;
       s.lists[c].slots[j] == chain && o in chain && o in s.loc && s.loc[o] == InSlot(c, j)
  }

  /** The object is in front of the free objects of its own span. */
  ghost predicate BackInSpan(s: State, s': State, c: nat, o: Ptr, cfg: Config)
    requires cfg.Ok()
  {
    && c < |s.lists| && c < |s'.lists| && o / cfg.pageSize in s.heap.pagemap
    && var sp := s.heap.pagemap[o / cfg.pageSize];
       && sp in s.lists[c].spans && sp in s'.lists[c].spans && s.lists[c].spans[sp].refcount > 0
       && s'.lists[c].spans[sp] == SpanState([o] + s.lists[c].spans[sp].objs, s.lists[c].spans[sp].refcount - 1)
       && o in s'.loc && s'.loc[o] == InSpan(sp)
  }

  /** The object's span goes back to the page heap, with all its objects. */
  ghost predicate GoneWithSpan(s: State, s': State, c: nat, o: Ptr, cfg: Config)
    requires cfg.Ok()
  {
    && c < |cfg.classes| && o / cfg.pageSize in s.heap.pagemap
    && var sp := s.heap.pagemap[o / cfg.pageSize];
       sp in s.heap.live && sp !in s'.heap.live && o in cfg.ObjectsOf(sp, c) && forall x :: x in cfg.ObjectsOf(sp, c) ==> x !in s'.loc
  }

  ghost predicate Placed(s: State, s': State, c: nat, chain: seq<Ptr>, o: Ptr, cfg: Config)
    requires cfg.Ok()
  {
    InCache(s', c, chain, o) || BackInSpan(s, s', c, o, cfg) || GoneWithSpan(s, s', c, o, cfg)
  }

  lemma PutChainPlaces(s: State, t: nat, c: nat, chain: seq<Ptr>, l: FreeList, o: Ptr)
    requires PlaceOk(s, Hand(t)) && HandObjs(PcOf(s, t)) == chain && o in chain && c < |s.lists| && |l.slots| < l.maxCache
    ensures InCache(PutChain(s, t, c, chain, l), c, chain, o)
  {
    hide NoDup, HandObjs;
    assert o in Members(s, Hand(t));
  }

  lemma TryCachePlaces(s: State, t: nat, c: nat, chain: seq<Ptr>, o: Ptr, cfg: Config)
    requires cfg.Ok() && Inv(s, cfg) && PcOf(s, t) == InsHeld(c, chain) && o in chain && c < |s.lists|
    ensures var s' := TryCache(s, t, c, chain, cfg); Inserting(PcOf(s', t), c, chain, o) || InCache(s', c, chain, o)
  {
    hide Inv, NoDup, InCache, PlaceOk, Moved;
    Facts(s, t, c, cfg);
    var l := s.lists[c];
    if |chain| == cfg.classes[c].move && |l.slots| < l.cacheSize {
      PutChainPlaces(s, t, c, chain, l, o);
    }
  }

  lemma BackPlaces(s: State, t: nat, c: nat, chain: seq<Ptr>, force: bool, got: bool, o: Ptr, cfg: Config)
    requires cfg.Ok() && Inv(s, cfg) && PcOf(s, t) == BackHeld(c, chain, force, got) && o in chain && c < |s.lists|
    ensures var s' := Back(s, t, c, chain, force, got); Inserting(PcOf(s', t), c, chain, o) || InCache(s', c, chain, o)
  {
    hide Inv, NoDup, InCache, PlaceOk, Moved;
    Facts(s, t, c, cfg);
    var l := s.lists[c];
    if got && l.cacheSize < l.maxCache {
      PutChainPlaces(s, t, c, chain, Resized(l, 1), o);
    }
  }

  lemma Facts(s: State, t: nat, c: nat, cfg: Config)
    requires cfg.Ok() && Inv(s, cfg) && c < |s.lists|
    ensures PlaceOk(s, Hand(t)) && |s.lists[c].slots| <= s.lists[c].cacheSize <= s.lists[c].maxCache && |cfg.classes| == |s.lists|
  {
    hide NoDup, SpansOk, FreeTotal, SpanOk, PcOk, LockOk, ObjectsOk, PagesOk, HomesOk, AllOfClass;
    assert ListOk(s.lists[c], cfg.ClassOf(c));
  }

  lemma FreeOnePlaces(s: State, t: nat, k: nat, rest: seq<Ptr>, task: Task, c: nat, chain: seq<Ptr>, o: Ptr, cfg: Config)
    requires cfg.Ok() && Inv(s, cfg) && PcOf(s, t) == Freeing(k, rest, task) && |rest| > 0 && k < |s.lists| && Waiting(k, rest, [], task, c, chain, o)
    ensures var s' := FreeOne(s, t, k, rest, task, cfg); Inserting(PcOf(s', t), c, chain, o) || BackInSpan(s, s', c, o, cfg)
  {
    hide Inv, NoDup, Moved, Without, Members, Config.ObjectsOf;
    ReleaseReady(s, t, k, rest, task, cfg);
    var s' := FreeOne(s, t, k, rest, task, cfg);
    assert rest == [rest[0]] + rest[1..];
    var sp := s.heap.pagemap[rest[0] / cfg.pageSize];
    if task.Insertion? && o == rest[0] && !Frees(s.lists[k], sp) {
      MovedTo(s.loc, [o], InSpan(sp), o);
    }
  }

  lemma MovedTo(loc: map<Ptr, Place>, os: seq<Ptr>, q: Place, o: Ptr)
    requires o in loc
    ensures o in Moved(loc, os, q) && Moved(loc, os, q)[o] == if o in os then q else loc[o]
  {
  }

  lemma DeletePlaces(s: State, t: nat, k: nat, rest: seq<Ptr>, task: Task, sp: Span, dead: seq<Ptr>, c: nat, chain: seq<Ptr>, o: Ptr, cfg: Config)
    requires cfg.Ok() && Inv(s, cfg) && PcOf(s, t) == DelHeld(k, rest, task, sp, dead) && Waiting(k, rest, dead, task, c, chain, o)
    ensures var s' := Delete(s, t, k, rest, task, sp, dead); Inserting(PcOf(s', t), c, chain, o) || GoneWithSpan(s, s', c, o, cfg)
  {
    DeleteReady(s, t, k, rest, task, sp, dead, cfg);
    if task.Insertion? && o in dead {
      InLoc(s, t, o, cfg);
      SpanByPage(s.heap, sp, s.loc.Keys, dead, cfg);
      hide Inv, PcOk, Config.ObjectsOf;
    }
  }

  lemma InLoc(s: State, t: nat, o: Ptr, cfg: Config)
    requires cfg.Ok() && Inv(s, cfg) && o in HandObjs(PcOf(s, t))
    ensures o in s.loc && s.loc[o] == Hand(t) && ObjectsOk(s.heap, s.loc.Keys, cfg)
  {
    hide NoDup, SpansOk, FreeTotal, SpanOk, PcOk, LockOk, ObjectsOk, PagesOk, HomesOk, ListsOk;
    assert PlaceOk(s, Hand(t));
  }

  /** A step of an insertion keeps an object in the thread's hands, or puts it into a cache slot
      with its chain, or in front of the free objects of its own span, or gives it back to the
      page heap with its whole span. */
  lemma InsertStep(s: State, t: nat, i: Input, c: nat, chain: seq<Ptr>, o: Ptr, cfg: Config)
    requires cfg.Ok() && Inv(s, cfg) && Enabled(s, t, i, cfg) && |s.lists| == |cfg.classes| && Inserting(PcOf(s, t), c, chain, o)
    ensures var s' := Next(s, t, i, cfg); Inserting(PcOf(s', t), c, chain, o) || Placed(s, s', c, chain, o, cfg)
  {
    hide Inv, TryCache, Back, FreeOne, Delete, TakeCached, FetchOne, NewSpan, AddSpan, Moved, InCache, BackInSpan, GoneWithSpan, OfClass, TaskOk, Enabled;
    InRange(s, t, cfg);
    if Wants(PcOf(s, t)) != NoLock {
    } else {
      match PcOf(s, t)
      case InsHeld(d, ch) => TryCachePlaces(s, t, c, chain, o, cfg);
      case Evict(d, ch, force) =>
      case ShrinkHeld(d, ch, force, v) => ShrinkPlaces(s, t, c, chain, force, v, o, cfg);
      case BackHeld(d, ch, force, g) => BackPlaces(s, t, c, chain, force, g, o, cfg);
      case Freeing(k, rest, task) => if |rest| > 0 { FreeOnePlaces(s, t, k, rest, task, c, chain, o, cfg); }
      case DelHeld(k, rest, task, sp, dead) => DeletePlaces(s, t, k, rest, task, sp, dead, c, chain, o, cfg);
    }
  }

  lemma ShrinkPlaces(s: State, t: nat, c: nat, chain: seq<Ptr>, force: bool, v: nat, o: Ptr, cfg: Config)
    requires cfg.Ok() && Inv(s, cfg) && PcOf(s, t) == ShrinkHeld(c, chain, force, v) && o in chain && v < |s.lists|
    ensures Inserting(PcOf(Shrink(s, t, c, chain, force, v), t), c, chain, o)
  {
    hide Inv, Moved;
    Facts(s, t, v, cfg);
  }

  /** Every object of an inserted chain is put somewhere before the call returns: in a cache slot
      with its chain, in front of the free objects of its own span, or back in the page heap with
      its whole span. */
  lemma InsertionDelivers(run: seq<State>, moves: seq<CentralProperties.Move>, j: nat, n: nat, t: nat, c: nat, chain: seq<Ptr>, o: Ptr, cfg: Config)
    returns (m: nat)
    requires cfg.Ok() && IsRun(run, moves, cfg) && j < n < |run| && moves[j].t == t && moves[j].i.call == Insert(c, chain) && o in chain
    requires PcOf(run[j], t).Idle? && PcOf(run[n], t).Idle?
    ensures j < m < n && moves[m].t == t && Inserting(PcOf(run[m], t), c, chain, o) && Placed(run[m], run[m + 1], c, chain, o, cfg)
  {
    assert Inserting(PcOf(run[j + 1], t), c, chain, o) by {
      hide Moved;
      assert run[j + 1] == Next(run[j], t, moves[j].i, cfg);
    }
    hide IsRun, Inserting, Placed;
    m := UntilPlaced(run, moves, j + 1, n, t, c, chain, o, cfg);
  }

  lemma {:induction false} UntilPlaced(run: seq<State>, moves: seq<CentralProperties.Move>, r: nat, n: nat, t: nat, c: nat, chain: seq<Ptr>, o: Ptr, cfg: Config)
    returns (m: nat)
    requires cfg.Ok() && IsRun(run, moves, cfg) && r <= n < |run| && Inserting(PcOf(run[r], t), c, chain, o) && PcOf(run[n], t).Idle?
    ensures r <= m < n && moves[m].t == t && Inserting(PcOf(run[m], t), c, chain, o) && Placed(run[m], run[m + 1], c, chain, o, cfg)
    decreases n - r
  {
    hide Inv, Enabled, Next, Initial, Placed, PcOf;
    m := r;
    NotIdle(PcOf(run[r], t), c, chain, o);
    hide Inserting;
    RunKeeps(run, moves, r, cfg);
    var s, u, i := run[r], moves[r].t, moves[r].i;
    assert Enabled(s, u, i, cfg) && run[r + 1] == Next(s, u, i, cfg);
    if u != t {
      OthersStay(s, u, i, t, cfg);
      m := UntilPlaced(run, moves, r + 1, n, t, c, chain, o, cfg);
    } else {
      InsertStep(s, t, i, c, chain, o, cfg);
      if !Placed(s, run[r + 1], c, chain, o, cfg) {
        m := UntilPlaced(run, moves, r + 1, n, t, c, chain, o, cfg);
      }
    }
  }

  lemma NotIdle(pc: Pc, c: nat, chain: seq<Ptr>, o: Ptr)
    requires Inserting(pc, c, chain, o)
    ensures !pc.Idle?
  {
  }

  /** A step of one thread leaves the positions of the others alone. */
  lemma OthersStay(s: State, u: nat, i: Input, t: nat, cfg: Config)
    requires cfg.Ok() && Inv(s, cfg) && u != t && |s.lists| == |cfg.classes|
    ensures PcOf(Next(s, u, i, cfg), t) == PcOf(s, t)
  {
    hide Inv, Next, PcOk;
    InRange(s, u, cfg);
    var k := StepSlots(s, u, i, cfg);
  }

  // ---------- what is out stays out ----------

  /** A step calls for the insertion of an object. */
  ghost predicate Inserts(s: State, t: nat, i: Input, o: Ptr) {
    PcOf(s, t).Idle? && i.call.Insert? && o in i.call.chain
  }

  /** An object with the callers, or in the hands of another thread. */
  ghost predicate Out(s: State, t: nat, o: Ptr) {
    o in s.loc && (s.loc[o] == Client || (s.loc[o].Hand? && s.loc[o].t != t))
  }

  ghost predicate Stays(s: State, s': State, o: Ptr) {
    o in s.loc && o in s'.loc && s'.loc[o] == s.loc[o]
  }

  /** Objects that move are all at one place, so others stay. */
  lemma Elsewhere(s: State, os: seq<Ptr>, p: Place, q: Place, o: Ptr)
    requires PlaceOk(s, p) && p != Client && (forall x :: x in os ==> x in Members(s, p)) && o in s.loc && s.loc[o] != p
    ensures o in Moved(s.loc, os, q) && Moved(s.loc, os, q)[o] == s.loc[o]
  {
  }

  lemma PutChainStays(s: State, t: nat, c: nat, chain: seq<Ptr>, l: FreeList, o: Ptr)
    requires PlaceOk(s, Hand(t)) && HandObjs(PcOf(s, t)) == chain && Out(s, t, o) && c < |s.lists| && |l.slots| < l.maxCache
    ensures Stays(s, PutChain(s, t, c, chain, l), o)
  {
    hide PlaceOk, Moved;
    Elsewhere(s, chain, Hand(t), InSlot(c, |l.slots|), o);
  }

  lemma TryCacheStays(s: State, t: nat, c: nat, chain: seq<Ptr>, o: Ptr, cfg: Config)
    requires cfg.Ok() && Inv(s, cfg) && PcOf(s, t) == InsHeld(c, chain) && Out(s, t, o) && c < |s.lists|
    ensures c < |cfg.classes| && Stays(s, TryCache(s, t, c, chain, cfg), o)
  {
    hide Inv, PlaceOk, PutChain;
    Facts(s, t, c, cfg);
    var l := s.lists[c];
    if |chain| == cfg.classes[c].move && |l.slots| < l.cacheSize { PutChainStays(s, t, c, chain, l, o); }
  }

  lemma BackStays(s: State, t: nat, c: nat, chain: seq<Ptr>, force: bool, got: bool, o: Ptr, cfg: Config)
    requires cfg.Ok() && Inv(s, cfg) && PcOf(s, t) == BackHeld(c, chain, force, got) && Out(s, t, o) && c < |s.lists|
    ensures Stays(s, Back(s, t, c, chain, force, got), o)
  {
    hide Inv, PlaceOk, PutChain;
    Facts(s, t, c, cfg);
    var l := s.lists[c];
    if got && l.cacheSize < l.maxCache { PutChainStays(s, t, c, chain, Resized(l, 1), o); }
  }

  lemma ShrinkStays(s: State, t: nat, c: nat, chain: seq<Ptr>, force: bool, v: nat, o: Ptr, cfg: Config)
    requires cfg.Ok() && Inv(s, cfg) && PcOf(s, t) == ShrinkHeld(c, chain, force, v) && Out(s, t, o) && v < |s.lists|
    ensures Stays(s, Shrink(s, t, c, chain, force, v), o)
  {
    hide Inv, PlaceOk, Moved;
    Facts(s, t, v, cfg);
    var l := s.lists[v];
    if l.cacheSize > 0 && |l.slots| == l.cacheSize && force {
      PlaceAt(s, InSlot(v, |l.slots| - 1), cfg);
      Elsewhere(s, l.slots[|l.slots| - 1], InSlot(v, |l.slots| - 1), Hand(t), o);
    }
  }

  lemma FreeOneStays(s: State, t: nat, k: nat, rest: seq<Ptr>, task: Task, o: Ptr, cfg: Config)
    requires cfg.Ok() && Inv(s, cfg) && PcOf(s, t) == Freeing(k, rest, task) && |rest| > 0 && Out(s, t, o) && k < |s.lists|
    ensures k < |cfg.classes| && Stays(s, FreeOne(s, t, k, rest, task, cfg), o)
  {
    hide Inv, NoDup, Moved, Release, Config.ObjectsOf, PlaceOk;
    ReleaseReady(s, t, k, rest, task, cfg);
    var sp := s.heap.pagemap[rest[0] / cfg.pageSize];
    PlaceAt(s, Hand(t), cfg);
    PlaceAt(s, InSpan(sp), cfg);
    assert rest[0] in HandObjs(PcOf(s, t)) by { assert rest[0] in rest; }
    Elsewhere(s, [rest[0]], Hand(t), InSpan(sp), o);
    Elsewhere(s, s.lists[k].spans[sp].objs, InSpan(sp), Hand(t), o);
  }

  lemma DeleteStays(s: State, t: nat, k: nat, rest: seq<Ptr>, task: Task, sp: Span, dead: seq<Ptr>, o: Ptr, cfg: Config)
    requires cfg.Ok() && Inv(s, cfg) && PcOf(s, t) == DelHeld(k, rest, task, sp, dead) && Out(s, t, o)
    ensures Stays(s, Delete(s, t, k, rest, task, sp, dead), o)
  {
    hide Inv, NoDup;
    PlaceAt(s, Hand(t), cfg);
    assert o in dead ==> o in Members(s, Hand(t));
  }

  lemma TakeCachedStays(s: State, t: nat, c: nat, n: nat, o: Ptr, cfg: Config)
    requires cfg.Ok() && Inv(s, cfg) && PcOf(s, t) == RemHeld(c, n) && Out(s, t, o) && c < |s.lists|
    ensures c < |cfg.classes| && Stays(s, TakeCached(s, t, c, n, cfg), o)
  {
    hide Inv, PlaceOk, Moved;
    Facts(s, t, c, cfg);
    var l := s.lists[c];
    if n == cfg.classes[c].move && |l.slots| > 0 {
      PlaceAt(s, InSlot(c, |l.slots| - 1), cfg);
      Elsewhere(s, l.slots[|l.slots| - 1], InSlot(c, |l.slots| - 1), Client, o);
    }
  }

  lemma FetchOneStays(s: State, t: nat, c: nat, n: nat, found: seq<Ptr>, populated: bool, o: Ptr, cfg: Config)
    requires cfg.Ok() && Inv(s, cfg) && PcOf(s, t) == Fetching(c, n, found, populated) && Out(s, t, o) && c < |s.lists|
    ensures Stays(s, FetchOne(s, t, c, n, found, populated), o)
  {
    hide Inv, PlaceOk, Moved, Fetch;
    var l := s.lists[c];
    PlaceAt(s, Hand(t), cfg);
    Elsewhere(s, found, Hand(t), Client, o);
    if CanFetch(l) && FetchSpan(l) in l.spans && |l.spans[FetchSpan(l)].objs| > 0 {
      var sp := FetchSpan(l);
      ListedSpan(s, c, sp, cfg);
      PlaceAt(s, InSpan(sp), cfg);
      Elsewhere(s, [Fetched(l)], InSpan(sp), Hand(t), o);
    }
  }

  lemma NewSpanStays(s: State, t: nat, c: nat, n: nat, page: Option<Span>, o: Ptr, cfg: Config)
    requires cfg.Ok() && Inv(s, cfg) && c < |cfg.classes| && Out(s, t, o) && (page.Some? ==> FreshSpan(s, page.value, c, cfg))
    ensures Stays(s, NewSpan(s, t, c, n, page, cfg), o)
  {
    Paged(s, o, cfg);
    if page.Some? && o in cfg.ObjectsOf(page.value, c) {
      cfg.ObjectPage(page.value, c, o);
      assert false;
    }
    hide Inv, Config.ObjectsOf, PageEntries;
  }

  lemma Paged(s: State, o: Ptr, cfg: Config)
    requires cfg.Ok() && Inv(s, cfg) && o in s.loc
    ensures o / cfg.pageSize in s.heap.pagemap
  {
    hide PlaceOk, SpanOk, PcOk, LockOk, PagesOk, HomesOk, ListsOk, Config.ObjectsOf;
  }

  lemma AddSpanStays(s: State, t: nat, c: nat, n: nat, sp: Option<Span>, objs: seq<Ptr>, o: Ptr, cfg: Config)
    requires cfg.Ok() && Inv(s, cfg) && PcOf(s, t) == CarveHeld(c, n, sp, objs) && Out(s, t, o) && c < |s.lists|
    ensures Stays(s, AddSpan(s, t, c, n, sp, objs), o)
  {
    hide Inv, PlaceOk, Moved;
    PlaceAt(s, Hand(t), cfg);
    if sp.Some? { Elsewhere(s, objs, Hand(t), InSpan(sp.value), o); }
  }

  /** No step of a thread touches an object that is with the callers or in the hands of another
      thread, except the call that inserts it. */
  lemma OutStays(s: State, t: nat, i: Input, o: Ptr, cfg: Config)
    requires cfg.Ok() && Inv(s, cfg) && Enabled(s, t, i, cfg) && |s.lists| == |cfg.classes| && Out(s, t, o) && !Inserts(s, t, i, o)
    ensures Stays(s, Next(s, t, i, cfg), o)
  {
    hide Inv, TryCache, Back, Shrink, FreeOne, Delete, TakeCached, FetchOne, NewSpan, AddSpan, OfClass, TaskOk, FreshSpan, Config.ObjectsOf;
    InRange(s, t, cfg);
    if Wants(PcOf(s, t)) != NoLock {
    } else {
      match PcOf(s, t)
      case Idle => if i.call.Insert? { MovedTo(s.loc, i.call.chain, Hand(t), o); }
      case InsHeld(c, chain) => TryCacheStays(s, t, c, chain, o, cfg);
      case Evict(c, chain, force) =>
      case ShrinkHeld(c, chain, force, v) => ShrinkStays(s, t, c, chain, force, v, o, cfg);
      case BackHeld(c, chain, force, g) => BackStays(s, t, c, chain, force, g, o, cfg);
      case Freeing(k, rest, task) => if |rest| > 0 { FreeOneStays(s, t, k, rest, task, o, cfg); }
      case DelHeld(k, rest, task, sp, dead) => DeleteStays(s, t, k, rest, task, sp, dead, o, cfg);
      case RemHeld(c, n) => TakeCachedStays(s, t, c, n, o, cfg);
      case Fetching(c, n, found, populated) => FetchOneStays(s, t, c, n, found, populated, o, cfg);
      case NewHeld(c, n) => NewSpanStays(s, t, c, n, i.page, o, cfg);
      case CarveHeld(c, n, sp, objs) => AddSpanStays(s, t, c, n, sp, objs, o, cfg);
      case _ =>
    }
  }

  /** Over any run: an object handed out stays with the callers until a call inserts it. So no
      other removal gets it, no cache slot holds it, and its span stays. */
  lemma {:induction false} HandedOutStays(run: seq<State>, moves: seq<CentralProperties.Move>, j: nat, n: nat, o: Ptr, cfg: Config)
    requires cfg.Ok() && IsRun(run, moves, cfg) && j <= n < |run| && o in run[j].loc && run[j].loc[o] == Client
    requires forall m :: j <= m < n ==> !Inserts(run[m], moves[m].t, moves[m].i, o)
    ensures o in run[n].loc && run[n].loc[o] == Client
    decreases n - j
  {
    hide Inv, Enabled, Next, Initial, Inserts;
    if j < n {
      RunKeeps(run, moves, j, cfg);
      var s, t, i := run[j], moves[j].t, moves[j].i;
      assert Enabled(s, t, i, cfg) && run[j + 1] == Next(s, t, i, cfg);
      OutStays(s, t, i, o, cfg);
      HandedOutStays(run, moves, j + 1, n, o, cfg);
    }
  }
}
