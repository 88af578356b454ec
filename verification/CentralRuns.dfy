/** New spans, and whole runs of the central free lists. */
module CentralRuns {
  import opened CentralInvariant
  import opened CentralLists
  import opened CentralSpans
  import opened CentralThreads
  import opened Collections
  import opened Lists
  import opened Multiples
  import opened Sums

  // ---------- a span from the page heap ----------

  /** The page heap after a span has been handed out. */
  ghost predicate Grown(h: PageHeap, h': PageHeap, sp: Span, c: nat, at: SpanPlace, cfg: Config)
    requires c < |cfg.classes|
  {
    && h'.live == h.live[sp := LiveSpan(c, at)] && h'.pagemap == h.pagemap + PageEntries(sp, cfg.classes[c].pages, sp)
    && sp > 0 && forall p :: p in h.pagemap ==> p < sp || sp + cfg.classes[c].pages <= p
  }

  lemma GrownFresh(h: PageHeap, h': PageHeap, sp: Span, c: nat, at: SpanPlace, cfg: Config)
    requires cfg.Ok() && c < |cfg.classes| && Grown(h, h', sp, c, at, cfg) && PagesOk(h, cfg)
    ensures sp !in h.live
  {
    HasPage(c, cfg);
    if sp in h.live {
      assert SpanPagesOk(h, sp, cfg);
      LiveHasPage(h, sp, cfg);
      assert false;
    }
  }

  lemma GrownPages(h: PageHeap, h': PageHeap, sp: Span, c: nat, at: SpanPlace, cfg: Config)
    requires cfg.Ok() && c < |cfg.classes| && Grown(h, h', sp, c, at, cfg) && PagesOk(h, cfg) && sp !in h.live
    ensures PagesOk(h', cfg)
  {
    forall x | x in h'.live ensures SpanPagesOk(h', x, cfg) { assert x in h.live ==> SpanPagesOk(h, x, cfg); }
    forall p | p in h'.pagemap ensures PageOk(h', p, cfg) { assert p in h.pagemap ==> PageOk(h, p, cfg); }
  }

  lemma GrownClasses(h: PageHeap, h': PageHeap, sp: Span, c: nat, at: SpanPlace, cfg: Config)
    requires cfg.Ok() && c < |cfg.classes| && Grown(h, h', sp, c, at, cfg) && sp !in h.live
    ensures forall o, d: nat :: OfClass(h, o, d, cfg) ==> OfClass(h', o, d, cfg)
  {
  }

  lemma HasPage(c: nat, cfg: Config)
    requires cfg.Ok() && c < |cfg.classes|
    ensures cfg.classes[c].pages > 0
  {
    assert 0 * cfg.pageSize == 0;
  }

  lemma LiveHasPage(h: PageHeap, sp: Span, cfg: Config)
    requires cfg.Ok() && sp in h.live && SpanPagesOk(h, sp, cfg)
    ensures sp in h.pagemap
  {
    HasPage(h.live[sp].c, cfg);
  }

  /** The objects of a new span are found by its pages, and no object in use is. */
  lemma NewByPage(h: PageHeap, h': PageHeap, sp: Span, c: nat, at: SpanPlace, os: set<Ptr>, cfg: Config)
    requires cfg.Ok() && c < |cfg.classes| && Grown(h, h', sp, c, at, cfg) && PagesOk(h, cfg) && sp !in h.live && ObjectsOk(h, os, cfg)
    ensures forall o :: o in cfg.ObjectsOf(sp, c) ==> o !in os && o / cfg.pageSize in h'.pagemap && h'.pagemap[o / cfg.pageSize] == sp
    ensures forall o :: o in os ==> o / cfg.pageSize in h'.pagemap && h'.pagemap[o / cfg.pageSize] == h.pagemap[o / cfg.pageSize] != sp
  {
    hide Config.ObjectsOf, SpanPagesOk;
    forall o | o in cfg.ObjectsOf(sp, c) ensures o !in os && o / cfg.pageSize in h'.pagemap && h'.pagemap[o / cfg.pageSize] == sp {
      cfg.ObjectPage(sp, c, o);
    }
    forall o | o in os
      ensures o / cfg.pageSize in h'.pagemap && h'.pagemap[o / cfg.pageSize] == h.pagemap[o / cfg.pageSize] != sp
    {
      assert PageOk(h, o / cfg.pageSize, cfg);
    }
  }

  /** The objects of a new span are new. */
  lemma GrownObjects(h: PageHeap, h': PageHeap, sp: Span, c: nat, at: SpanPlace, os: set<Ptr>, os': set<Ptr>, cfg: Config)
    requires cfg.Ok() && c < |cfg.classes| && Grown(h, h', sp, c, at, cfg) && PagesOk(h, cfg) && sp !in h.live && ObjectsOk(h, os, cfg)
    requires forall o :: o in os' <==> o in os || o in cfg.ObjectsOf(sp, c)
    ensures ObjectsOk(h', os', cfg) && forall o :: o in cfg.ObjectsOf(sp, c) ==> o !in os
  {
    hide PagesOk, Config.ObjectsOf;
    NewByPage(h, h', sp, c, at, os, cfg);
    forall x, o | x in h'.live && h'.live[x].c < |cfg.classes| && o in cfg.ObjectsOf(x, h'.live[x].c)
      ensures o in os' && h'.pagemap[o / cfg.pageSize] == x
    {
      if x != sp {
        assert x in h.live && o in os;
      }
    }
  }

  /** New objects appear in a thread's empty hands. */
  lemma NewPlaces(s: State, s': State, t: nat, sp: Span, objs: seq<Ptr>)
    requires PlacesOk(s) && OnlyThread(s, s', t) && s'.lists == s.lists && HandObjs(PcOf(s, t)) == [] && HandObjs(PcOf(s', t)) == objs
    requires NoDup(objs) && forall o :: o in objs ==> o !in s.loc
    requires s'.loc == s.loc + map o | o in objs :: Hand(t)
    requires sp !in s.heap.live && forall c :: 0 <= c < |s.lists| ==> sp !in s.lists[c].spans
    requires forall x :: x != sp ==> (x in s'.heap.live <==> x in s.heap.live) && (x in s.heap.live ==> s'.heap.live[x] == s.heap.live[x])
    ensures PlacesOk(s')
  {
    assert PlaceOk(s, Hand(t));
    forall r ensures PlaceOk(s', r) {
      assert PlaceOk(s, r);
      if r != Client && r != Hand(t) {
        assert Members(s', r) == Members(s, r);
      }
    }
  }

  lemma NewSpanKeeps(s: State, t: nat, c: nat, n: nat, sp: Span, cfg: Config)
    requires cfg.Ok() && Inv(s, cfg) && PcOf(s, t) == NewHeld(c, n) && c < |cfg.classes| && FreshSpan(s, sp, c, cfg)
    ensures Inv(NewSpan(s, t, c, n, Some(sp), cfg), cfg)
  {
    hide Inv, ObjectsOk, PagesOk, ListOk, ListsOk, NoDup, OfClass, PlacesOk, HomesOk, SpanOk, PcOk, HandObjs, HandSpan, PageEntries, Config.ObjectsOf;
    Parts(s, cfg);
    var s' := NewSpan(s, t, c, n, Some(sp), cfg);
    var objs := cfg.ObjectsOf(sp, c);
    GrownFresh(s.heap, s'.heap, sp, c, Held(t), cfg);
    GrownPages(s.heap, s'.heap, sp, c, Held(t), cfg);
    GrownClasses(s.heap, s'.heap, sp, c, Held(t), cfg);
    GrownObjects(s.heap, s'.heap, sp, c, Held(t), s.loc.Keys, s'.loc.Keys, cfg);
    cfg.ObjectsDistinct(sp, c);
    NewReady(s, s', t, c, n, sp, cfg);
    NewPlaces(s, s', t, sp, objs);
    OthersHaveNot(s, t, sp, cfg);
    NewHomes(s, s', sp, t, c, cfg);
    Rebuilt(s, s', t, |s.lists|, sp, cfg);
  }

  lemma NewReady(s: State, s': State, t: nat, c: nat, n: nat, sp: Span, cfg: Config)
    requires cfg.Ok() && Inv(s, cfg) && PcOf(s, t) == NewHeld(c, n) && c < |cfg.classes|
    requires s' == NewSpan(s, t, c, n, Some(sp), cfg) && sp !in s.heap.live
    ensures SpanOk(s', sp) && PcOk(s'.heap, PcOf(s', t), t, cfg) && forall d :: 0 <= d < |s.lists| ==> sp !in s.lists[d].spans
    ensures HandSpan(PcOf(s, t)).None? && HandObjs(PcOf(s, t)) == [] && HandObjs(PcOf(s', t)) == cfg.ObjectsOf(sp, c)
  {
    hide Inv, AllOfClass, TaskOk, PageEntries, Config.ObjectsOf;
    Parts(s, cfg);
    SpanAt(s, sp, cfg);
    InRange(s, t, cfg);
  }

  lemma NewHomes(s: State, s': State, sp: Span, t: nat, c: nat, cfg: Config)
    requires cfg.Ok() && c < |cfg.classes| && HomesOk(s.heap.pagemap, s.loc, cfg) && Grown(s.heap, s'.heap, sp, c, Held(t), cfg)
    requires s'.loc == s.loc + map o | o in cfg.ObjectsOf(sp, c) :: Hand(t)
    ensures HomesOk(s'.heap.pagemap, s'.loc, cfg)
  {
  }

  // ---------- a carved span joins its list ----------

  lemma AddSpanKeeps(s: State, t: nat, c: nat, n: nat, sp: Span, objs: seq<Ptr>, cfg: Config)
    requires cfg.Ok() && Inv(s, cfg) && PcOf(s, t) == CarveHeld(c, n, Some(sp), objs) && c < |s.lists|
    ensures Inv(AddSpan(s, t, c, n, Some(sp), objs), cfg)
  {
    hide ObjectsOk, PagesOk, LockOk, ListOk, ListsOk, NoDup, OfClass, PlacesOk, HomesOk, SpanOk, PcOk, HandObjs, HandSpan, Holds, LockStep;
    var s' := AddSpan(s, t, c, n, Some(sp), objs);
    AddReady(s, t, c, n, sp, objs, cfg);
    AddedPlaces(s, s', t, c, sp, objs);
    AddedHomes(s, sp, c, objs, cfg);
    HomesMoved(s.heap.pagemap, s.loc, objs, InSpan(sp), cfg);
    SpanMoves(s.heap, s'.heap, sp, Listed, s.loc.Keys, cfg);
    PagesStay(s.heap, s'.heap, sp, Listed, cfg);
    OthersHaveNot(s, t, sp, cfg);
    Rebuilt(s, s', t, c, sp, cfg);
  }

  lemma AddReady(s: State, t: nat, c: nat, n: nat, sp: Span, objs: seq<Ptr>, cfg: Config)
    requires cfg.Ok() && Inv(s, cfg) && PcOf(s, t) == CarveHeld(c, n, Some(sp), objs) && c < |s.lists|
    ensures sp in s.heap.live && s.heap.live[sp] == LiveSpan(c, Held(t)) && objs == cfg.ObjectsOf(sp, c)
    ensures forall d :: 0 <= d < |s.lists| ==> sp !in s.lists[d].spans
    ensures var s' := AddSpan(s, t, c, n, Some(sp), objs);
            && SpanOk(s', sp) && PcOk(s'.heap, PcOf(s', t), t, cfg) && ListOk(s'.lists[c], cfg.ClassOf(c))
            && LockStep(s.owner, s'.owner, Holds(PcOf(s, t)), Holds(PcOf(s', t)), t)
            && HandSpan(PcOf(s, t)) == Some((sp, c, objs)) && HandObjs(PcOf(s, t)) == objs && HandObjs(PcOf(s', t)) == []
  {
    hide ObjectsOk, PagesOk, LockOk, ListOk, NoDup, OfClass, PlacesOk, HomesOk;
    assert SpanOk(s, sp) && PcOk(s.heap, PcOf(s, t), t, cfg);
    assert ListOk(s.lists[c], cfg.ClassOf(c));
    cfg.CapacityPositive(c);
    AddKeeps(s.lists[c], sp, objs, cfg.ClassOf(c));
    NoneOfClass(AddSpan(s, t, c, n, Some(sp), objs).heap, c, cfg);
  }

  lemma AddedPlaces(s: State, s': State, t: nat, c: nat, sp: Span, objs: seq<Ptr>)
    requires PlacesOk(s) && OnlyThread(s, s', t) && c < |s.lists| && s'.lists == s.lists[c := Add(s.lists[c], sp, objs)]
    requires sp in s.heap.live && s'.heap == s.heap.(live := s.heap.live[sp := LiveSpan(c, Listed)]) && s.heap.live[sp].c == c
    requires forall d :: 0 <= d < |s.lists| ==> sp !in s.lists[d].spans
    requires HandObjs(PcOf(s, t)) == objs && HandObjs(PcOf(s', t)) == [] && s'.loc == Moved(s.loc, objs, InSpan(sp))
    ensures PlacesOk(s') && s'.loc.Keys == s.loc.Keys
  {
    assert PlaceOk(s, Hand(t)) && PlaceOk(s, InSpan(sp));
    assert Members(s, InSpan(sp)) == [] && Members(s', InSpan(sp)) == objs;
    EmptyNoDup<Ptr>();
    Transfer(s, s', objs, Hand(t), InSpan(sp));
  }

  lemma AddedHomes(s: State, sp: Span, c: nat, objs: seq<Ptr>, cfg: Config)
    requires cfg.Ok() && c < |cfg.classes| && objs == cfg.ObjectsOf(sp, c) && sp in s.heap.live && s.heap.live[sp].c == c
    requires ObjectsOk(s.heap, s.loc.Keys, cfg)
    ensures forall o :: o in objs ==> o / cfg.pageSize in s.heap.pagemap && s.heap.pagemap[o / cfg.pageSize] == sp
  {
  }

  // ---------- every step ----------

  lemma FetchingKeeps(s: State, t: nat, c: nat, n: nat, found: seq<Ptr>, populated: bool, cfg: Config)
    requires cfg.Ok() && Inv(s, cfg) && PcOf(s, t) == Fetching(c, n, found, populated) && c < |s.lists|
    ensures Inv(FetchOne(s, t, c, n, found, populated), cfg)
  {
    hide Inv, ObjectsOk, PagesOk, ListOk, ListsOk, NoDup, OfClass, HomesOk, PlacesOk;
    Parts(s, cfg);
    InRange(s, t, cfg);
    PlaceAt(s, Hand(t), cfg);
    var s' := FetchOne(s, t, c, n, found, populated);
    if |found| < n && CanFetch(s.lists[c]) {
      FetchOneKeeps(s, t, c, n, found, populated, cfg);
    } else {
      if |found| == 0 && !populated {
        PcKeeps(s, s', t, cfg);
      } else {
        EmptyNoDup<Ptr>();
        Transfer(s, s', found, Hand(t), Client);
        HomesMoved(s.heap.pagemap, s.loc, found, Client, cfg);
        Local(s, s', t, |s.lists|, cfg);
      }
    }
  }

  lemma HeldKeeps(s: State, t: nat, i: Input, cfg: Config)
    requires cfg.Ok() && Inv(s, cfg) && Enabled(s, t, i, cfg)
    requires PcOf(s, t).NewHeld? || PcOf(s, t).CarveHeld?
    ensures Inv(Next(s, t, i, cfg), cfg)
  {
    hide Inv, NoDup, OfClass, Moved, PageEntries, Config.ObjectsOf, FreshSpan, PlacesOk, HomesOk, ListsOk, ObjectsOk, PagesOk;
    Parts(s, cfg);
    InRange(s, t, cfg);
    match PcOf(s, t)
    case NewHeld(c, n) =>
      if i.page.Some? {
        NewSpanKeeps(s, t, c, n, i.page.value, cfg);
      } else {
        PcKeeps(s, NewSpan(s, t, c, n, None, cfg), t, cfg);
      }
    case CarveHeld(c, n, sp, objs) =>
      if sp.Some? {
        AddSpanKeeps(s, t, c, n, sp.value, objs, cfg);
      } else {
        NoneOfClass(s.heap, c, cfg);
        PcKeeps(s, AddSpan(s, t, c, n, None, objs), t, cfg);
      }
  }

  /** Any step of any thread keeps the invariant; no assertion of the source fails. */
  lemma NextKeeps(s: State, t: nat, i: Input, cfg: Config)
    requires cfg.Ok() && Inv(s, cfg) && Enabled(s, t, i, cfg)
    ensures Inv(Next(s, t, i, cfg), cfg)
  {
    hide Inv, Acquire, Call, TryCache, PickVictim, Shrink, Back, Released, FreeOne, Delete, TakeCached, FetchOne, NewSpan, AddSpan;
    InRange(s, t, cfg);
    Lengths(s, cfg);
    if Wants(PcOf(s, t)) != NoLock {
      AcquireKeeps(s, t, cfg);
    } else {
      match PcOf(s, t)
      case Idle => CallKeeps(s, t, i.call, cfg);
      case InsHeld(c, chain) => TryCacheKeeps(s, t, c, chain, cfg);
      case Evict(c, chain, force) => PickVictimKeeps(s, t, c, chain, force, i.victim, i.quit, cfg);
      case ShrinkHeld(c, chain, force, v) => ShrinkKeeps(s, t, c, chain, force, v, cfg);
      case BackHeld(c, chain, force, g) => BackKeeps(s, t, c, chain, force, g, cfg);
      case Freeing(k, rest, task) =>
        if |rest| == 0 { ReleasedKeeps(s, t, k, task, cfg); } else { FreeOneKeeps(s, t, k, rest, task, cfg); }
      case DelHeld(k, rest, task, sp, dead) => DeleteKeeps(s, t, k, rest, task, sp, dead, cfg);
      case RemHeld(c, n) => TakeCachedKeeps(s, t, c, n, cfg);
      case Fetching(c, n, found, populated) => FetchingKeeps(s, t, c, n, found, populated, cfg);
      case NewHeld(c, n) => HeldKeeps(s, t, i, cfg);
      case CarveHeld(c, n, sp, objs) => HeldKeeps(s, t, i, cfg);
      case _ =>
    }
  }

  lemma Lengths(s: State, cfg: Config)
    requires cfg.Ok() && Inv(s, cfg)
    ensures |cfg.classes| == |s.lists|
  {
  }
}
