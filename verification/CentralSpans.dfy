/** Steps that move objects between spans and threads, and the deletion of spans. */
module CentralSpans {
  import opened CentralInvariant
  import opened CentralLists
  import opened CentralThreads
  import opened Collections
  import opened Lists
  import opened Multiples
  import opened Sums

  /** A thread's position stays in order when its objects keep their classes and its span stays. */
  lemma PcOkKept(h: PageHeap, h': PageHeap, pc: Pc, u: nat, cfg: Config)
    requires cfg.Ok() && PcOk(h, pc, u, cfg)
    requires forall o, c :: o in HandObjs(pc) && OfClass(h, o, c, cfg) ==> OfClass(h', o, c, cfg)
    requires HandSpan(pc).Some? ==> var sp := HandSpan(pc).value.0; sp in h.live ==> sp in h'.live && h'.live[sp] == h.live[sp]
    ensures PcOk(h', pc, u, cfg)
  {
    hide OfClass;
  }

  /** Spans other than the one moved stay where they are. */
  lemma SpansRebuilt(s: State, s': State, t: nat, sp: Span)
    requires OnlyThread(s, s', t) && |s'.lists| == |s.lists|
    requires forall x {:trigger SpanOk(s, x)} :: SpanOk(s, x)
    requires forall x :: x != sp ==> (x in s'.heap.live <==> x in s.heap.live) && (x in s.heap.live ==> s'.heap.live[x] == s.heap.live[x])
    requires forall x, c :: 0 <= c < |s.lists| && x != sp ==> (x in s'.lists[c].spans <==> x in s.lists[c].spans)
    requires HandSpan(PcOf(s, t)).None? || HandSpan(PcOf(s, t)).value.0 == sp
    requires SpanOk(s', sp)
    ensures forall x {:trigger SpanOk(s', x)} :: SpanOk(s', x)
  {
    hide HandSpan;
    forall x ensures SpanOk(s', x) {
      assert SpanOk(s, x);
    }
  }

  /** The order is restored around a step of thread t that moves the span sp. */
  lemma Rebuilt(s: State, s': State, t: nat, k: nat, sp: Span, cfg: Config)
    requires cfg.Ok() && Inv(s, cfg) && OnlyThread(s, s', t) && !s'.failed
    requires LockStep(s.owner, s'.owner, Holds(PcOf(s, t)), Holds(PcOf(s', t)), t)
    requires |s'.lists| == |s.lists| && forall c :: 0 <= c < |s.lists| && c != k ==> s'.lists[c] == s.lists[c]
    requires k < |s.lists| ==> ListOk(s'.lists[k], cfg.ClassOf(k)) && s'.lists[k].slots == s.lists[k].slots
    requires k < |s.lists| ==> forall x :: x != sp ==> (x in s'.lists[k].spans <==> x in s.lists[k].spans)
    requires forall x :: x != sp ==> (x in s'.heap.live <==> x in s.heap.live) && (x in s.heap.live ==> s'.heap.live[x] == s.heap.live[x])
    requires forall o, c :: o in s.loc && o in s'.loc && OfClass(s.heap, o, c, cfg) ==> OfClass(s'.heap, o, c, cfg)
    requires HandSpan(PcOf(s, t)).None? || HandSpan(PcOf(s, t)).value.0 == sp
    requires forall u: nat :: u != t && HandSpan(PcOf(s, u)).Some? ==> HandSpan(PcOf(s, u)).value.0 != sp
    requires PlacesOk(s') && ObjectsOk(s'.heap, s'.loc.Keys, cfg) && PagesOk(s'.heap, cfg) && HomesOk(s'.heap.pagemap, s'.loc, cfg)
    requires SpanOk(s', sp) && PcOk(s'.heap, PcOf(s', t), t, cfg)
    ensures Inv(s', cfg)
  {
    hide ListOk, LockOk, Holds, ObjectsOk, PagesOk, HomesOk, LockStep, OfClass;
    LocksKept(s, s', t);
    forall x, c | 0 <= c < |s.lists| && x != sp ensures x in s'.lists[c].spans <==> x in s.lists[c].spans {}
    SpansRebuilt(s, s', t, sp);
    ThreadsRebuilt(s, s', t, sp, cfg);
    SlotsRebuilt(s, s', k, cfg);
  }

  lemma ThreadsRebuilt(s: State, s': State, t: nat, sp: Span, cfg: Config)
    requires cfg.Ok() && OnlyThread(s, s', t) && PlacesOk(s) && PlacesOk(s')
    requires forall u {:trigger PcOf(s, u)} :: PcOk(s.heap, PcOf(s, u), u, cfg)
    requires forall x :: x != sp ==> (x in s'.heap.live <==> x in s.heap.live) && (x in s.heap.live ==> s'.heap.live[x] == s.heap.live[x])
    requires forall o, c :: o in s.loc && o in s'.loc && OfClass(s.heap, o, c, cfg) ==> OfClass(s'.heap, o, c, cfg)
    requires forall u: nat :: u != t && HandSpan(PcOf(s, u)).Some? ==> HandSpan(PcOf(s, u)).value.0 != sp
    requires PcOk(s'.heap, PcOf(s', t), t, cfg)
    ensures forall u {:trigger PcOf(s', u)} :: PcOk(s'.heap, PcOf(s', u), u, cfg)
  {
    hide OfClass, HandSpan, PcOk, HandObjs, NoDup;
    forall u: nat ensures PcOk(s'.heap, PcOf(s', u), u, cfg) {
      if u != t {
        assert PlaceOk(s, Hand(u)) && PlaceOk(s', Hand(u));
        assert PcOk(s.heap, PcOf(s, u), u, cfg);
        PcOkKept(s.heap, s'.heap, PcOf(s, u), u, cfg);
      }
    }
  }

  lemma SlotsRebuilt(s: State, s': State, k: nat, cfg: Config)
    requires cfg.Ok() && |cfg.classes| == |s.lists| == |s'.lists| && ListsOk(s, cfg) && PlacesOk(s) && PlacesOk(s')
    requires forall c :: 0 <= c < |s.lists| && c != k ==> s'.lists[c] == s.lists[c]
    requires k < |s.lists| ==> ListOk(s'.lists[k], cfg.ClassOf(k)) && s'.lists[k].slots == s.lists[k].slots
    requires forall o, c :: o in s.loc && o in s'.loc && OfClass(s.heap, o, c, cfg) ==> OfClass(s'.heap, o, c, cfg)
    ensures ListsOk(s', cfg)
  {
    hide OfClass, ListOk, NoDup;
    forall c | 0 <= c < |s'.lists| ensures ListOk(s'.lists[c], cfg.ClassOf(c)) {
      assert ListOk(s.lists[c], cfg.ClassOf(c));
    }
    forall c, i | 0 <= c < |s'.lists| && 0 <= i < |s'.lists[c].slots| ensures AllOfClass(s'.heap, s'.lists[c].slots[i], c, cfg) {
      assert AllOfClass(s.heap, s.lists[c].slots[i], c, cfg);
      assert PlaceOk(s, InSlot(c, i)) && PlaceOk(s', InSlot(c, i));
    }
  }

  /** A span on a list is live, of that class, and its free objects are of that class. */
  lemma ListedSpan(s: State, c: nat, sp: Span, cfg: Config)
    requires cfg.Ok() && Inv(s, cfg) && c < |s.lists| && sp in s.lists[c].spans
    ensures sp in s.heap.live && s.heap.live[sp] == LiveSpan(c, Listed)
    ensures Members(s, InSpan(sp)) == s.lists[c].spans[sp].objs && NoDup(s.lists[c].spans[sp].objs)
    ensures forall o :: o in s.lists[c].spans[sp].objs ==> OfClass(s.heap, o, c, cfg) && o in cfg.ObjectsOf(sp, c) && s.loc[o] == InSpan(sp)
  {
    hide ListOk, PcOk, LockOk, PagesOk;
    assert SpanOk(s, sp);
    assert PlaceOk(s, InSpan(sp));
  }

  lemma FetchOneKeeps(s: State, t: nat, c: nat, n: nat, found: seq<Ptr>, populated: bool, cfg: Config)
    requires cfg.Ok() && Inv(s, cfg) && PcOf(s, t) == Fetching(c, n, found, populated) && c < |s.lists|
    requires |found| < n && CanFetch(s.lists[c])
    ensures Inv(FetchOne(s, t, c, n, found, populated), cfg)
  {
    hide Inv, PlacesOk, ListsOk, HomesOk, ObjectsOk, PagesOk, SpanOk, LockOk, SpansOk, FreeTotal, NoDup, OfClass;
    Parts(s, cfg);
    var l, s' := s.lists[c], FetchOne(s, t, c, n, found, populated);
    InRange(s, t, cfg);
    ListAt(s, c, cfg);
    FetchReady(l, cfg.ClassOf(c));
    FetchKeeps(l, cfg.ClassOf(c));
    var sp, o := FetchSpan(l), Fetched(l);
    ListedSpan(s, c, sp, cfg);
    assert o in l.spans[sp].objs;
    FetchMoves(s, s', t, c, sp, o, found, cfg);
    HomesMoved(s.heap.pagemap, s.loc, [o], Hand(t), cfg);
    Local(s, s', t, c, cfg);
  }

  lemma FetchMoves(s: State, s': State, t: nat, c: nat, sp: Span, o: Ptr, found: seq<Ptr>, cfg: Config)
    requires PlacesOk(s) && c < |s.lists| && CanFetch(s.lists[c]) && FetchSpan(s.lists[c]) == sp && sp in s.lists[c].spans
    requires |s.lists[c].spans[sp].objs| > 0 && s.lists[c].spans[sp].objs[0] == o
    requires sp in s.heap.live && s.heap.live[sp].c == c
    requires s'.heap == s.heap && s'.lists == s.lists[c := Fetch(s.lists[c])] && s'.loc == Moved(s.loc, [o], Hand(t)) && OnlyThread(s, s', t)
    requires HandObjs(PcOf(s, t)) == found && HandObjs(PcOf(s', t)) == [o] + found
    ensures PlacesOk(s') && s'.loc.Keys == s.loc.Keys
  {
    var objs := s.lists[c].spans[sp].objs;
    assert PlaceOk(s, Hand(t)) && PlaceOk(s, InSpan(sp));
    assert Members(s, InSpan(sp)) == objs && Members(s', InSpan(sp)) == objs[1..];
    DropFirst(objs);
    JoinNoDup([o], found);
    hide NoDup;
    Transfer(s, s', [o], InSpan(sp), Hand(t));
  }

  /** The span of an object in a thread's chain is on its list, with the object in use. */
  lemma ChainObject(s: State, t: nat, k: nat, rest: seq<Ptr>, task: Task, cfg: Config)
    requires cfg.Ok() && Inv(s, cfg) && PcOf(s, t) == Freeing(k, rest, task) && |rest| > 0 && k < |s.lists|
    ensures rest[0] in s.loc && s.loc[rest[0]] == Hand(t) && OfClass(s.heap, rest[0], k, cfg)
    ensures s.heap.pagemap[rest[0] / cfg.pageSize] in s.lists[k].spans
    ensures rest[0] in cfg.ObjectsOf(s.heap.pagemap[rest[0] / cfg.pageSize], k)
  {
    hide HomesOk, PagesOk, LockOk, NoDup, ListOk;
    var o := rest[0];
    assert PcOk(s.heap, PcOf(s, t), t, cfg) && PlaceOk(s, Hand(t));
    assert o in rest && o in Members(s, Hand(t));
    var sp := s.heap.pagemap[o / cfg.pageSize];
    assert SpanOk(s, sp);
    if s.heap.live[sp].at.Held? {
      var u := s.heap.live[sp].at.t;
      assert PcOk(s.heap, PcOf(s, u), u, cfg) && PlaceOk(s, Hand(u));
      assert o in HandSpan(PcOf(s, u)).value.2;
      InHand(PcOf(s, u), o);
      assert false;
    }
  }

  lemma InHand(pc: Pc, o: Ptr)
    requires HandSpan(pc).Some? && o in HandSpan(pc).value.2
    ensures o in HandObjs(pc)
  {
  }

  /** A span with an object out is in use; with its last object back it is complete. */
  lemma ObjectOut(s: State, k: nat, sp: Span, o: Ptr, cfg: Config)
    requires cfg.Ok() && Inv(s, cfg) && k < |s.lists| && sp in s.lists[k].spans
    requires o in s.loc && s.loc[o] != InSpan(sp) && o in cfg.ObjectsOf(sp, k)
    ensures s.lists[k].spans[sp].refcount > 0
    ensures var all := [o] + s.lists[k].spans[sp].objs;
            NoDup(all) && (Frees(s.lists[k], sp) ==> forall x :: x in all <==> x in cfg.ObjectsOf(sp, k))
  {
    hide HomesOk, PagesOk, LockOk, PcOk, FreeTotal, ObjectsOk, PlacesOk;
    ListedSpan(s, k, sp, cfg);
    assert ListOk(s.lists[k], cfg.ClassOf(k));
    var objs := s.lists[k].spans[sp].objs;
    JoinNoDup([o], objs);
    cfg.ObjectsDistinct(sp, k);
    Fewer([o] + objs, cfg.ObjectsOf(sp, k));
  }

  /** What the release of the first object of a chain works on. */
  ghost predicate Releasing(s: State, t: nat, k: nat, rest: seq<Ptr>, task: Task, o: Ptr, sp: Span, cfg: Config)
    requires cfg.Ok()
  {
    && Inv(s, cfg) && PcOf(s, t) == Freeing(k, rest, task) && |rest| > 0 && k < |s.lists| && o == rest[0]
    && o / cfg.pageSize in s.heap.pagemap && sp == s.heap.pagemap[o / cfg.pageSize] && sp in s.lists[k].spans
    && s.lists[k].spans[sp].refcount > 0 && s.heap.live.Keys >= {sp} && s.heap.live[sp] == LiveSpan(k, Listed)
    && o in s.loc && s.loc[o] == Hand(t) && NoDup([o] + s.lists[k].spans[sp].objs)
    && Members(s, InSpan(sp)) == s.lists[k].spans[sp].objs
    && (Frees(s.lists[k], sp) ==> forall x :: x in [o] + s.lists[k].spans[sp].objs <==> x in cfg.ObjectsOf(sp, k))
  }

  lemma ReleaseReady(s: State, t: nat, k: nat, rest: seq<Ptr>, task: Task, cfg: Config)
    requires cfg.Ok() && Inv(s, cfg) && PcOf(s, t) == Freeing(k, rest, task) && |rest| > 0 && k < |s.lists|
    ensures rest[0] / cfg.pageSize in s.heap.pagemap && k < |cfg.classes|
    ensures Releasing(s, t, k, rest, task, rest[0], s.heap.pagemap[rest[0] / cfg.pageSize], cfg)
  {
    hide ListOk, PcOk, PlacesOk, ObjectsOk, PagesOk, HomesOk, SpanOk, LockOk, NoDup;
    ChainObject(s, t, k, rest, task, cfg);
    var sp := s.heap.pagemap[rest[0] / cfg.pageSize];
    ListedSpan(s, k, sp, cfg);
    ObjectOut(s, k, sp, rest[0], cfg);
  }

  /** The step that puts an object in front of its span's free list. */
  ghost predicate PutBack(s: State, s': State, t: nat, k: nat, rest: seq<Ptr>, task: Task, o: Ptr, sp: Span, cfg: Config)
    requires cfg.Ok() && Releasing(s, t, k, rest, task, o, sp, cfg) && k < |cfg.classes|
  {
    && s'.lists == s.lists[k := Release(s.lists[k], o, sp, cfg.ClassOf(k))] && s'.heap == s.heap && s'.owner == s.owner
    && PcOf(s', t) == Freeing(k, rest[1..], task) && OnlyThread(s, s', t) && !s'.failed && s'.loc == Moved(s.loc, [o], InSpan(sp))
  }

  lemma PutBackForm(s: State, t: nat, k: nat, rest: seq<Ptr>, task: Task, o: Ptr, sp: Span, cfg: Config)
    requires cfg.Ok() && Releasing(s, t, k, rest, task, o, sp, cfg) && k < |cfg.classes| && !Frees(s.lists[k], sp)
    ensures PutBack(s, FreeOne(s, t, k, rest, task, cfg), t, k, rest, task, o, sp, cfg)
  {
    hide Release, Moved, NoDup, Members, Config.ObjectsOf, HomesOk, ObjectsOk, PagesOk, SpanOk, LockOk, ListsOk, PlacesOk, PcOk;
  }

  /** Places other than those of a span and a thread, when only these change. */
  lemma OtherPlaces(s: State, s': State, t: nat, k: nat, sp: Span, r: Place)
    requires OnlyThread(s, s', t) && k < |s.lists| == |s'.lists| && (forall c :: 0 <= c < |s.lists| && c != k ==> s'.lists[c] == s.lists[c])
    requires s'.lists[k].slots == s.lists[k].slots
    requires forall x :: x != sp ==> (x in s'.lists[k].spans <==> x in s.lists[k].spans)
                                     && (x in s.lists[k].spans ==> s'.lists[k].spans[x] == s.lists[k].spans[x])
    requires forall x :: x != sp ==> (x in s'.heap.live <==> x in s.heap.live) && (x in s.heap.live ==> s'.heap.live[x] == s.heap.live[x])
    requires r != Hand(t) && r != InSpan(sp)
    ensures Members(s', r) == Members(s, r)
  {
    hide HandObjs;
  }

  /** An object leaves a thread's hands for its span. */
  lemma ReturnMembers(s: State, s': State, t: nat, k: nat, rest: seq<Ptr>, task: Task, o: Ptr, sp: Span, cfg: Config)
    requires cfg.Ok() && Releasing(s, t, k, rest, task, o, sp, cfg) && k < |cfg.classes| && !Frees(s.lists[k], sp)
    requires PutBack(s, s', t, k, rest, task, o, sp, cfg)
    ensures Members(s, Hand(t)) == rest + TaskObjs(task) && Members(s', Hand(t)) == rest[1..] + TaskObjs(task)
    ensures Members(s', InSpan(sp)) == [o] + Members(s, InSpan(sp))
    ensures forall r :: r != Hand(t) && r != InSpan(sp) ==> Members(s', r) == Members(s, r)
  {
    hide Inv, NoDup, Config.ObjectsOf, Without, Moved;
    forall r | r != Hand(t) && r != InSpan(sp) ensures Members(s', r) == Members(s, r) { OtherPlaces(s, s', t, k, sp, r); }
  }

  lemma ReturnPlaces(s: State, s': State, t: nat, k: nat, rest: seq<Ptr>, task: Task, o: Ptr, sp: Span, cfg: Config)
    requires cfg.Ok() && Releasing(s, t, k, rest, task, o, sp, cfg) && k < |cfg.classes| && !Frees(s.lists[k], sp)
    requires PutBack(s, s', t, k, rest, task, o, sp, cfg)
    ensures PlacesOk(s') && s'.loc.Keys == s.loc.Keys
  {
    hide Inv, PlacesOk, NoDup, Members, HandObjs, TaskObjs, OnlyThread, Release, Moved, Config.ObjectsOf;
    Parts(s, cfg);
    PlaceAt(s, Hand(t), cfg);
    PlaceAt(s, InSpan(sp), cfg);
    ReturnMembers(s, s', t, k, rest, task, o, sp, cfg);
    HandRest(rest, task, o);
    Transfer(s, s', [o], Hand(t), InSpan(sp));
  }

  /** The object goes to the front of its span's free list. */
  lemma ReturnKeeps(s: State, t: nat, k: nat, rest: seq<Ptr>, task: Task, o: Ptr, sp: Span, cfg: Config)
    requires cfg.Ok() && Releasing(s, t, k, rest, task, o, sp, cfg) && k < |cfg.classes| && !Frees(s.lists[k], sp)
    ensures Inv(FreeOne(s, t, k, rest, task, cfg), cfg)
  {
    hide Inv, PlacesOk, ListsOk, HomesOk, ObjectsOk, PagesOk, ListOk, NoDup, OfClass, Members, Config.ObjectsOf, FreeOne, Without;
    Parts(s, cfg);
    var l, s' := s.lists[k], FreeOne(s, t, k, rest, task, cfg);
    PutBackForm(s, t, k, rest, task, o, sp, cfg);
    InRange(s, t, cfg);
    ListAt(s, k, cfg);
    ReleaseKeeps(l, o, sp, cfg.ClassOf(k));
    ReturnPlaces(s, s', t, k, rest, task, o, sp, cfg);
    HomesMoved(s.heap.pagemap, s.loc, [o], InSpan(sp), cfg);
    assert s'.lists[k].spans.Keys == l.spans.Keys;
    assert AllOfClass(s.heap, rest[1..], k, cfg);
    Local(s, s', t, k, cfg);
  }

  lemma HandRest(rest: seq<Ptr>, task: Task, o: Ptr)
    requires |rest| > 0 && rest[0] == o && NoDup(rest + TaskObjs(task))
    ensures NoDup(rest[1..] + TaskObjs(task))
    ensures forall x :: x in rest[1..] + TaskObjs(task) <==> x in rest + TaskObjs(task) && x != o
  {
    var all := rest + TaskObjs(task);
    assert all[1..] == rest[1..] + TaskObjs(task) && all[0] == o;
    DropFirst(all);
  }

  /** Where a span is does not matter to its pages and objects. */
  lemma SpanMoves(h: PageHeap, h': PageHeap, sp: Span, at: SpanPlace, os: set<Ptr>, cfg: Config)
    requires cfg.Ok() && sp in h.live && h' == h.(live := h.live[sp := h.live[sp].(at := at)])
    ensures ObjectsOk(h, os, cfg) ==> ObjectsOk(h', os, cfg)
    ensures forall o, c :: OfClass(h, o, c, cfg) <==> OfClass(h', o, c, cfg)
  {
    SameClasses(h, h', sp, at);
    if ObjectsOk(h, os, cfg) {
      assert ObjectsOk(h', os, cfg);
    }
  }

  lemma SameClasses(h: PageHeap, h': PageHeap, sp: Span, at: SpanPlace)
    requires sp in h.live && h' == h.(live := h.live[sp := h.live[sp].(at := at)])
    ensures h'.live.Keys == h.live.Keys && forall x :: x in h.live ==> h'.live[x].c == h.live[x].c
  {
  }

  lemma PagesStay(h: PageHeap, h': PageHeap, sp: Span, at: SpanPlace, cfg: Config)
    requires sp in h.live && h' == h.(live := h.live[sp := h.live[sp].(at := at)]) && PagesOk(h, cfg)
    ensures PagesOk(h', cfg)
  {
    SameClasses(h, h', sp, at);
    forall x | x in h'.live ensures SpanPagesOk(h', x, cfg) { assert SpanPagesOk(h, x, cfg); }
    forall p | p in h'.pagemap ensures PageOk(h', p, cfg) { assert PageOk(h, p, cfg); }
  }

  /** No other thread has the span in its hands. */
  lemma OthersHaveNot(s: State, t: nat, sp: Span, cfg: Config)
    requires cfg.Ok() && Inv(s, cfg) && (sp in s.heap.live ==> s.heap.live[sp].at == Held(t) || s.heap.live[sp].at == Listed)
    ensures forall u: nat :: u != t && HandSpan(PcOf(s, u)).Some? ==> HandSpan(PcOf(s, u)).value.0 != sp
  {
    hide OfClass, HandObjs, ListOk, PlacesOk, ObjectsOk, PagesOk, HomesOk, SpanOk, LockOk;
    forall u: nat | u != t && HandSpan(PcOf(s, u)).Some? ensures HandSpan(PcOf(s, u)).value.0 != sp {
      assert PcOk(s.heap, PcOf(s, u), u, cfg);
    }
  }

  /** The state once the span has passed to the thread. */
  ghost predicate Left(s: State, s': State, t: nat, k: nat, rest: seq<Ptr>, task: Task, o: Ptr, sp: Span, cfg: Config)
    requires cfg.Ok() && Releasing(s, t, k, rest, task, o, sp, cfg)
  {
    var objs := s.lists[k].spans[sp].objs;
    && |s'.lists| == |s.lists| && (forall c :: 0 <= c < |s.lists| && c != k ==> s'.lists[c] == s.lists[c])
    && s'.lists[k].spans == s.lists[k].spans - {sp} && s'.lists[k].slots == s.lists[k].slots && ListOk(s'.lists[k], cfg.ClassOf(k))
    && s'.heap == s.heap.(live := s.heap.live[sp := LiveSpan(k, Held(t))]) && s'.owner == s.owner - {ClassLock(k)}
    && PcOf(s', t) == DelWant(k, rest[1..], task, sp, [o] + objs) && OnlyThread(s, s', t) && !s'.failed
    && s'.loc == Moved(s.loc, objs, Hand(t))
  }

  lemma LeaveForm(s: State, t: nat, k: nat, rest: seq<Ptr>, task: Task, o: Ptr, sp: Span, cfg: Config)
    requires cfg.Ok() && Releasing(s, t, k, rest, task, o, sp, cfg) && Frees(s.lists[k], sp)
    ensures Left(s, FreeOne(s, t, k, rest, task, cfg), t, k, rest, task, o, sp, cfg)
  {
    hide HomesOk, ObjectsOk, PagesOk, LockOk, PcOk, SpanOk, PlacesOk, Moved, NoDup, SpansOk, CacheOk, FreeTotal;
    assert ListOk(s.lists[k], cfg.ClassOf(k));
    ReleaseKeeps(s.lists[k], o, sp, cfg.ClassOf(k));
  }

  lemma LeavingMembers(s: State, s': State, t: nat, k: nat, rest: seq<Ptr>, task: Task, o: Ptr, sp: Span, cfg: Config)
    requires cfg.Ok() && Releasing(s, t, k, rest, task, o, sp, cfg) && Left(s, s', t, k, rest, task, o, sp, cfg)
    ensures var objs := Members(s, InSpan(sp));
            && Members(s, Hand(t)) == rest + TaskObjs(task) && Members(s', Hand(t)) == ([o] + objs) + (rest[1..] + TaskObjs(task))
            && Members(s', InSpan(sp)) == [] && s'.loc == Moved(s.loc, objs, Hand(t))
    ensures forall r :: r != Hand(t) && r != InSpan(sp) ==> Members(s', r) == Members(s, r)
  {
    hide Inv, NoDup, Config.ObjectsOf, Moved, ListOk;
    forall r | r != Hand(t) && r != InSpan(sp) ensures Members(s', r) == Members(s, r) { OtherPlaces(s, s', t, k, sp, r); }
  }

  lemma LeavingPlaces(s: State, s': State, t: nat, k: nat, rest: seq<Ptr>, task: Task, o: Ptr, sp: Span, cfg: Config)
    requires cfg.Ok() && Releasing(s, t, k, rest, task, o, sp, cfg) && Left(s, s', t, k, rest, task, o, sp, cfg)
    ensures PlacesOk(s') && s'.loc.Keys == s.loc.Keys
  {
    hide Inv, PlacesOk, NoDup, Members, HandObjs, TaskObjs, OnlyThread, Left, Moved, Config.ObjectsOf;
    Parts(s, cfg);
    PlaceAt(s, Hand(t), cfg);
    PlaceAt(s, InSpan(sp), cfg);
    LeavingMembers(s, s', t, k, rest, task, o, sp, cfg);
    HandRest(rest, task, o);
    JoinNoDup([o] + Members(s, InSpan(sp)), rest[1..] + TaskObjs(task));
    EmptyNoDup<Ptr>();
    Transfer(s, s', Members(s, InSpan(sp)), InSpan(sp), Hand(t));
  }

  /** The last object comes back: the span passes to the thread, to be deleted. */
  lemma LeaveKeeps(s: State, s': State, t: nat, k: nat, rest: seq<Ptr>, task: Task, o: Ptr, sp: Span, cfg: Config)
    requires cfg.Ok() && Releasing(s, t, k, rest, task, o, sp, cfg) && Frees(s.lists[k], sp) && Left(s, s', t, k, rest, task, o, sp, cfg)
    ensures Inv(s', cfg)
  {
    hide HomesOk, ObjectsOk, PagesOk, LockOk, ListOk, NoDup, OfClass, PlacesOk, HandObjs, PcOk, SpanOk, Moved, Holds, HandSpan, LockStep, ListsOk;
    LeavingPlaces(s, s', t, k, rest, task, o, sp, cfg);
    HomesMoved(s.heap.pagemap, s.loc, s.lists[k].spans[sp].objs, Hand(t), cfg);
    SpanMoves(s.heap, s'.heap, sp, Held(t), s.loc.Keys, cfg);
    PagesStay(s.heap, s'.heap, sp, Held(t), cfg);
    OthersHaveNot(s, t, sp, cfg);
    LeftSpan(s, s', t, k, rest, task, o, sp, cfg);
    Rebuilt(s, s', t, k, sp, cfg);
  }

  lemma LeftSpan(s: State, s': State, t: nat, k: nat, rest: seq<Ptr>, task: Task, o: Ptr, sp: Span, cfg: Config)
    requires cfg.Ok() && Releasing(s, t, k, rest, task, o, sp, cfg) && Frees(s.lists[k], sp) && Left(s, s', t, k, rest, task, o, sp, cfg)
    requires forall x, c :: OfClass(s.heap, x, c, cfg) <==> OfClass(s'.heap, x, c, cfg)
    ensures SpanOk(s', sp) && PcOk(s'.heap, PcOf(s', t), t, cfg)
    ensures LockStep(s.owner, s'.owner, Holds(PcOf(s, t)), Holds(PcOf(s', t)), t) && HandSpan(PcOf(s, t)).None?
  {
    hide HomesOk, ObjectsOk, PagesOk, LockOk, ListOk, NoDup, OfClass, PlacesOk, HandObjs;
    assert PcOk(s.heap, PcOf(s, t), t, cfg) && SpanOk(s, sp);
  }

  lemma SpanListed(s: State, t: nat, k: nat, rest: seq<Ptr>, task: Task, sp: Span, cfg: Config)
    requires cfg.Ok() && |rest| > 0 && Releasing(s, t, k, rest, task, rest[0], sp, cfg)
    ensures sp in s.lists[k].spans && k < |cfg.classes|
  {
  }

  lemma FreeOneKeeps(s: State, t: nat, k: nat, rest: seq<Ptr>, task: Task, cfg: Config)
    requires cfg.Ok() && Inv(s, cfg) && PcOf(s, t) == Freeing(k, rest, task) && |rest| > 0 && k < |s.lists|
    ensures Inv(FreeOne(s, t, k, rest, task, cfg), cfg)
  {
    hide Inv, FreeOne, Releasing, Left;
    ReleaseReady(s, t, k, rest, task, cfg);
    var sp := s.heap.pagemap[rest[0] / cfg.pageSize];
    SpanListed(s, t, k, rest, task, sp, cfg);
    if Frees(s.lists[k], sp) {
      LeaveForm(s, t, k, rest, task, rest[0], sp, cfg);
      LeaveKeeps(s, FreeOne(s, t, k, rest, task, cfg), t, k, rest, task, rest[0], sp, cfg);
    } else {
      ReturnKeeps(s, t, k, rest, task, rest[0], sp, cfg);
    }
  }

  // ---------- deleting a span ----------

  lemma DeletedPages(h: PageHeap, h': PageHeap, sp: Span, cfg: Config)
    requires PagesOk(h, cfg) && h' == PageHeap(h.live - {sp}, map p | p in h.pagemap && h.pagemap[p] != sp :: h.pagemap[p])
    ensures PagesOk(h', cfg)
  {
    forall x | x in h'.live ensures SpanPagesOk(h', x, cfg) { assert SpanPagesOk(h, x, cfg); }
    forall p | p in h'.pagemap ensures PageOk(h', p, cfg) { assert PageOk(h, p, cfg); }
  }

  /** The objects of a span are those that its pages lead to. */
  lemma SpanByPage(h: PageHeap, sp: Span, os: set<Ptr>, dead: seq<Ptr>, cfg: Config)
    requires cfg.Ok() && sp in h.live && ObjectsOk(h, os, cfg)
    requires h.live[sp].c < |cfg.classes| && forall o :: o in dead <==> o in cfg.ObjectsOf(sp, h.live[sp].c)
    ensures forall o :: o in os ==> o / cfg.pageSize in h.pagemap && (o in dead <==> h.pagemap[o / cfg.pageSize] == sp)
  {
    forall o | o in os ensures o / cfg.pageSize in h.pagemap && (o in dead <==> h.pagemap[o / cfg.pageSize] == sp) {}
  }

  lemma DeletedClasses(h: PageHeap, h': PageHeap, sp: Span, os: set<Ptr>, dead: seq<Ptr>, cfg: Config)
    requires cfg.Ok() && h' == PageHeap(h.live - {sp}, map p | p in h.pagemap && h.pagemap[p] != sp :: h.pagemap[p])
    requires forall o :: o in os ==> o / cfg.pageSize in h.pagemap && (o in dead <==> h.pagemap[o / cfg.pageSize] == sp)
    ensures forall o, c :: o in os && o !in dead && OfClass(h, o, c, cfg) ==> OfClass(h', o, c, cfg)
  {
    forall o, c | o in os && o !in dead && OfClass(h, o, c, cfg) ensures OfClass(h', o, c, cfg) {
      var page := o / cfg.pageSize;
      assert page in h'.pagemap && h'.pagemap[page] == h.pagemap[page];
    }
  }

  lemma DeletedObjects(h: PageHeap, h': PageHeap, sp: Span, os: set<Ptr>, os': set<Ptr>, dead: seq<Ptr>, cfg: Config)
    requires cfg.Ok() && sp in h.live && ObjectsOk(h, os, cfg)
    requires h' == PageHeap(h.live - {sp}, map p | p in h.pagemap && h.pagemap[p] != sp :: h.pagemap[p])
    requires forall o :: o in os' <==> o in os && o !in dead
    requires forall o :: o in os ==> o / cfg.pageSize in h.pagemap && (o in dead <==> h.pagemap[o / cfg.pageSize] == sp)
    ensures ObjectsOk(h', os', cfg)
  {
    forall o | o in os'
      ensures o / cfg.pageSize in h'.pagemap && h'.pagemap[o / cfg.pageSize] in h'.live
      ensures var x := h'.pagemap[o / cfg.pageSize]; h'.live[x].c < |cfg.classes| && o in cfg.ObjectsOf(x, h'.live[x].c)
    {
    }
    forall x, o | x in h'.live && h'.live[x].c < |cfg.classes| && o in cfg.ObjectsOf(x, h'.live[x].c)
      ensures o in os' && h'.pagemap[o / cfg.pageSize] == x
    {
      assert o in os && h.pagemap[o / cfg.pageSize] == x;
    }
  }

  /** The objects of the deleted span leave the thread's hands; no other place had any. */
  lemma DeletedPlaces(s: State, s': State, t: nat, sp: Span, dead: seq<Ptr>, kept: seq<Ptr>, cfg: Config)
    requires PlacesOk(s) && OnlyThread(s, s', t) && s'.lists == s.lists
    requires HandObjs(PcOf(s, t)) == dead + kept && HandObjs(PcOf(s', t)) == kept
    requires s'.loc == map o | o in s.loc && o !in dead :: s.loc[o]
    requires s'.heap.live == s.heap.live - {sp} && forall c :: 0 <= c < |s.lists| ==> sp !in s.lists[c].spans
    ensures PlacesOk(s')
  {
    var all := dead + kept;
    assert PlaceOk(s, Hand(t));
    assert NoDup(kept) && forall o :: o in kept ==> o !in dead by { SplitNoDup(dead, kept); }
    forall r ensures PlaceOk(s', r) {
      assert PlaceOk(s, r);
      if r != Client && r != Hand(t) {
        assert Members(s', r) == Members(s, r);
        forall o | o in s.loc && s.loc[o] == r ensures o !in dead {
          assert o in dead ==> o in all;
        }
      }
    }
  }

  lemma DeleteKeeps(s: State, t: nat, k: nat, rest: seq<Ptr>, task: Task, sp: Span, dead: seq<Ptr>, cfg: Config)
    requires cfg.Ok() && Inv(s, cfg) && PcOf(s, t) == DelHeld(k, rest, task, sp, dead)
    ensures Inv(Delete(s, t, k, rest, task, sp, dead), cfg)
  {
    hide ObjectsOk, PagesOk, LockOk, ListOk, ListsOk, NoDup, OfClass, PlacesOk, HomesOk, SpanOk, PcOk, HandObjs, HandSpan, Holds, LockStep;
    var s' := Delete(s, t, k, rest, task, sp, dead);
    DeleteReady(s, t, k, rest, task, sp, dead, cfg);
    SpanByPage(s.heap, sp, s.loc.Keys, dead, cfg);
    DeletedPages(s.heap, s'.heap, sp, cfg);
    DeletedClasses(s.heap, s'.heap, sp, s.loc.Keys, dead, cfg);
    DeletedObjects(s.heap, s'.heap, sp, s.loc.Keys, s'.loc.Keys, dead, cfg);
    DeletedPlaces(s, s', t, sp, dead, rest + TaskObjs(task), cfg);
    OthersHaveNot(s, t, sp, cfg);
    DeletedHomes(s, s', sp, dead, cfg);
    DeletedPc(s, s', t, k, rest, task, dead, cfg);
    DeletedSpan(s', sp);
    Rebuilt(s, s', t, |s.lists|, sp, cfg);
  }

  lemma DeleteReady(s: State, t: nat, k: nat, rest: seq<Ptr>, task: Task, sp: Span, dead: seq<Ptr>, cfg: Config)
    requires cfg.Ok() && Inv(s, cfg) && PcOf(s, t) == DelHeld(k, rest, task, sp, dead)
    ensures sp in s.heap.live && s.heap.live[sp] == LiveSpan(k, Held(t)) && k < |cfg.classes| && PcOk(s.heap, PcOf(s, t), t, cfg)
    ensures forall o :: o in dead <==> o in cfg.ObjectsOf(sp, k)
    ensures forall c :: 0 <= c < |s.lists| ==> sp !in s.lists[c].spans
    ensures var s' := Delete(s, t, k, rest, task, sp, dead);
            && LockStep(s.owner, s'.owner, Holds(PcOf(s, t)), Holds(PcOf(s', t)), t)
            && HandSpan(PcOf(s, t)) == Some((sp, k, dead))
            && HandObjs(PcOf(s, t)) == dead + (rest + TaskObjs(task)) && HandObjs(PcOf(s', t)) == rest + TaskObjs(task)
  {
    hide ObjectsOk, PagesOk, LockOk, ListOk, ListsOk, NoDup, OfClass, PlacesOk, HomesOk;
    assert PcOk(s.heap, PcOf(s, t), t, cfg) && SpanOk(s, sp);
  }

  lemma DeletedSpan(s: State, sp: Span)
    requires sp !in s.heap.live && forall c :: 0 <= c < |s.lists| ==> sp !in s.lists[c].spans
    ensures SpanOk(s, sp)
  {
  }

  lemma DeletedHomes(s: State, s': State, sp: Span, dead: seq<Ptr>, cfg: Config)
    requires cfg.Ok() && HomesOk(s.heap.pagemap, s.loc, cfg)
    requires s'.loc == map o | o in s.loc && o !in dead :: s.loc[o]
    requires s'.heap.pagemap == map p | p in s.heap.pagemap && s.heap.pagemap[p] != sp :: s.heap.pagemap[p]
    requires forall o :: o in s.loc ==> o / cfg.pageSize in s.heap.pagemap && (o in dead <==> s.heap.pagemap[o / cfg.pageSize] == sp)
    ensures HomesOk(s'.heap.pagemap, s'.loc, cfg)
  {
  }

  lemma DeletedPc(s: State, s': State, t: nat, k: nat, rest: seq<Ptr>, task: Task, dead: seq<Ptr>, cfg: Config)
    requires cfg.Ok() && PcOk(s.heap, PcOf(s, t), t, cfg) && PcOf(s, t).DelHeld? && PlacesOk(s) && PlacesOk(s')
    requires PcOf(s, t).k == k && PcOf(s, t).rest == rest && PcOf(s, t).task == task && PcOf(s, t).dead == dead
    requires PcOf(s', t) == FreeWant(k, rest, task)
    requires forall o, c :: o in s.loc && o !in dead && OfClass(s.heap, o, c, cfg) ==> OfClass(s'.heap, o, c, cfg)
    requires forall o :: o in s'.loc ==> o in s.loc && o !in dead
    ensures PcOk(s'.heap, PcOf(s', t), t, cfg)
  {
    hide OfClass, NoDup;
    assert PlaceOk(s', Hand(t));
    var hand := rest + TaskObjs(task);
    assert forall o :: o in rest ==> o in hand;
    assert forall o :: o in TaskObjs(task) ==> o in hand;
  }
}
