/** One central free list in memory: the words of objects, the span descriptors, the transfer
    cache and the page map, and the list that they represent. */
module CentralStores {
  import opened CentralChains
  import opened CentralLists
  import opened CentralReturns
  import opened CentralThreads
  import opened Collections
  import opened Lists

  datatype Store = Store(words: Words, spans: map<Span, SpanDesc>, slots: seq<TCEntry>, pm: PageMap, l: FreeList, home: map<Ptr, Place>)

  ghost predicate Sound(cfg: Config, c: nat, s: Store) {
    && cfg.Ok() && c < |cfg.classes|
    && SpansRep(s.words, s.spans, s.l) && SlotsRep(s.words, s.slots, s.l) && Homes(s.l, s.home)
    && OwnOk(cfg, c, s.pm, s.l, s.home) && ListOk(s.l, cfg.ClassOf(c))
  }

  lemma EmptySound(cfg: Config, c: nat, slots: seq<TCEntry>, l: FreeList)
    requires cfg.Ok() && c < |cfg.classes| && l == FreeList(map[], [], [], 0, 0, [], l.cacheSize, l.maxCache) && 0 <= l.cacheSize <= l.maxCache
    ensures Sound(cfg, c, Store(map[], map[], slots, map[], l, map[]))
  {
    assert FreeCounts(l.spans) == map[];
  }

  // ---------- fetching ----------

  ghost function AfterFetch(s: Store): Store
    requires Fetchable(s.l) && FetchSpan(s.l) in s.spans && Fetched(s.l) in s.words
  {
    var sp := FetchSpan(s.l);
    s.(spans := s.spans[sp := SpanDesc(s.words[Fetched(s.l)], s.spans[sp].refcount + 1)], l := Fetch(s.l), home := s.home - {Fetched(s.l)})
  }

  lemma FetchSound(cfg: Config, c: nat, s: Store)
    requires Sound(cfg, c, s) && CanFetch(s.l)
    ensures Fetchable(s.l) && FetchSpan(s.l) in s.spans && Fetched(s.l) in s.words
    ensures var o := Fetched(s.l);
            && s.spans[FetchSpan(s.l)].objects == o != NULL && (s.words[o] == NULL <==> |s.l.spans[FetchSpan(s.l)].objs| == 1)
            && o in s.home && Owned(cfg, c, s.pm, o)
    ensures Sound(cfg, c, AfterFetch(s))
  {
    hide SpansOk, FreeTotal, Chain, Homes, SlotsRep, SpansRep, OwnOk, Owned, CacheOk;
    FetchReady(s.l, cfg.ClassOf(c));
    hide ListOk;
    FetchKeeps(s.l, cfg.ClassOf(c));
    FetchRep(s.words, s.spans, s.l, s.home);
    FetchOwn(cfg, c, s.pm, s.l, s.home);
    SpanKnown(s.words, s.spans, s.l, FetchSpan(s.l));
    SlotsSame(s.words, s.slots, s.l, Fetch(s.l));
  }

  // ---------- returning ----------

  ghost function AfterReturn(cfg: Config, c: nat, s: Store, o: Ptr): Store
    requires cfg.Ok() && c < |cfg.classes|
    requires var sp := OwnSpan(s.pm, cfg.pageSize, o); sp in s.l.spans && s.l.spans[sp].refcount > 0 && sp in s.spans && s.spans[sp].refcount > 0
  {
    var sp := OwnSpan(s.pm, cfg.pageSize, o);
    var m := Release(s.l, o, sp, cfg.ClassOf(c));
    if Frees(s.l, sp) then s.(spans := s.spans - {sp}, pm := WithoutSpan(s.pm, sp), l := m, home := Rest(s.home, sp))
    else s.(words := s.words[o := s.spans[sp].objects], spans := s.spans[sp := SpanDesc(o, s.spans[sp].refcount - 1)], l := m,
            home := s.home[o := InSpan(sp)])
  }

  lemma ReturnedList(cfg: Config, c: nat, s: Store, o: Ptr)
    requires cfg.Ok() && c < |cfg.classes|
    requires var sp := OwnSpan(s.pm, cfg.pageSize, o); sp in s.l.spans && s.l.spans[sp].refcount > 0 && sp in s.spans && s.spans[sp].refcount > 0
    ensures AfterReturn(cfg, c, s, o).l == Release(s.l, o, OwnSpan(s.pm, cfg.pageSize, o), cfg.ClassOf(c))
  {
  }

  lemma ReturnReady(cfg: Config, c: nat, s: Store, o: Ptr)
    requires Sound(cfg, c, s) && Owned(cfg, c, s.pm, o) && o !in s.home
    ensures var sp := OwnSpan(s.pm, cfg.pageSize, o);
            && o != NULL && o / cfg.pageSize in s.pm && sp in s.l.spans && sp in s.spans
            && s.l.spans[sp].refcount == s.spans[sp].refcount > 0 && (s.spans[sp].objects == NULL <==> |s.l.spans[sp].objs| == 0)
            && (Frees(s.l, sp) ==> forall x :: x in cfg.ObjectsOf(sp, c) ==> x == o || x in s.l.spans[sp].objs)
  {
    hide SlotsRep, SpansRep, Homes, OwnOk, ListOk, Config.ObjectsOf;
    InUse(cfg, c, s.pm, s.l, s.home, o);
    SpanKnown(s.words, s.spans, s.l, OwnSpan(s.pm, cfg.pageSize, o));
  }

  /** The object and its span keep the store in order, and no other object is lost. */
  lemma ReturnSound(cfg: Config, c: nat, s: Store, o: Ptr)
    requires Sound(cfg, c, s) && Owned(cfg, c, s.pm, o) && o !in s.home
    requires var sp := OwnSpan(s.pm, cfg.pageSize, o); sp in s.l.spans && s.l.spans[sp].refcount > 0 && sp in s.spans && s.spans[sp].refcount > 0
    ensures Sound(cfg, c, AfterReturn(cfg, c, s, o))
    ensures forall x :: x != o && x !in s.home && Owned(cfg, c, s.pm, x) ==>
              var s' := AfterReturn(cfg, c, s, o);
              x !in s'.home && Owned(cfg, c, s'.pm, x) && OwnSpan(s'.pm, cfg.pageSize, x) == OwnSpan(s.pm, cfg.pageSize, x)
  {
    ReturnReady(cfg, c, s, o);
    hide SlotsRep, SpansRep, Homes, OwnOk, ListOk, Config.ObjectsOf, Owned, Release, Without, OwnSpan, WithoutSpan;
    var sp, k := OwnSpan(s.pm, cfg.pageSize, o), cfg.ClassOf(c);
    var m := Release(s.l, o, sp, k);
    ReleaseKeeps(s.l, o, sp, k);
    if Frees(s.l, sp) {
      LeaveRep(s.words, s.spans, s.l, s.home, o, sp, k);
      LeaveOwn(cfg, c, s.pm, s.l, s.home, o);
      SlotsSame(s.words, s.slots, s.l, m);
    } else {
      var w := s.words[o := s.spans[sp].objects];
      WordWritten(s.words, s.spans, s.slots, s.l, s.home, o, s.spans[sp].objects);
      ReturnRep(s.words, s.spans, s.l, s.home, o, sp, k);
      ReturnOwn(cfg, c, s.pm, s.l, s.home, o);
      SlotsSame(w, s.slots, s.l, m);
    }
  }

  // ---------- words, cache slots, new spans ----------

  lemma WriteSound(cfg: Config, c: nat, s: Store, o: Ptr, v: Ptr)
    requires Sound(cfg, c, s) && o !in s.home
    ensures Sound(cfg, c, s.(words := s.words[o := v]))
  {
    hide SlotsRep, SpansRep, Homes, OwnOk, ListOk;
    WordWritten(s.words, s.spans, s.slots, s.l, s.home, o, v);
  }

  /** Words of objects that are on no list may all change. */
  lemma RewriteSound(cfg: Config, c: nat, s: Store, words: Words, touched: set<Ptr>)
    requires Sound(cfg, c, s) && Untouched(s.words, words, touched) && forall o :: o in s.home ==> o !in touched
    ensures Sound(cfg, c, s.(words := words))
  {
    hide Chain, OwnOk, ListOk, Untouched, NoDup;
    forall sp | sp in s.spans ensures SpanRep(words, s.spans[sp], s.l.spans[sp]) {
      assert SpanRep(s.words, s.spans[sp], s.l.spans[sp]);
      ChainStays(s.words, words, s.spans[sp].objects, s.l.spans[sp].objs, touched);
    }
    forall i | 0 <= i < |s.l.slots| ensures SlotRep(words, s.slots[i], s.l.slots[i]) {
      assert SlotRep(s.words, s.slots[i], s.l.slots[i]);
      ChainStays(s.words, words, s.slots[i].head, s.l.slots[i], touched);
    }
  }

  lemma PutSound(cfg: Config, c: nat, s: Store, e: TCEntry, os: seq<Ptr>)
    requires Sound(cfg, c, s) && SlotRep(s.words, e, os) && NoDup(os) && |os| == cfg.classes[c].move && |s.l.slots| < s.l.cacheSize
    requires |s.l.slots| < |s.slots| && forall o :: o in os ==> o !in s.home && Owned(cfg, c, s.pm, o)
    ensures Sound(cfg, c, s.(slots := s.slots[|s.l.slots| := e], l := PutSlot(s.l, os), home := Housed(s.home, os, InSlot(0, |s.l.slots|))))
  {
    hide SpansOk, FreeTotal, Homes, SlotsRep, SlotRep, SpansRep, NoDup, Housed, Owned, OwnOk;
    PutSlotRep(s.words, s.slots, s.l, s.home, e, os);
    PutSlotOwn(cfg, c, s.pm, s.l, s.home, os);
    SpansSame(s.words, s.spans, s.l, PutSlot(s.l, os));
  }

  lemma TakeSound(cfg: Config, c: nat, s: Store)
    requires Sound(cfg, c, s) && |s.l.slots| > 0
    ensures var j := |s.l.slots| - 1; var os := s.l.slots[j];
            && j < |s.slots| && SlotRep(s.words, s.slots[j], os) && NoDup(os) && |os| == cfg.classes[c].move
            && (forall o :: o in os ==> o in s.home && Owned(cfg, c, s.pm, o))
            && Sound(cfg, c, s.(l := TakeSlot(s.l), home := Unhoused(s.home, os)))
  {
    assert |s.l.slots| <= |s.slots|;
    hide SpansOk, FreeTotal, Homes, SlotsRep, SlotRep, SpansRep, NoDup, Unhoused, Owned, OwnOk;
    TakeSlotRep(s.words, s.slots, s.l, s.home);
    TakeSlotOwn(cfg, c, s.pm, s.l, s.home);
    SpansSame(s.words, s.spans, s.l, TakeSlot(s.l));
  }

  ghost function AfterAdd(cfg: Config, c: nat, s: Store, sp: Span, head: Ptr): Store
    requires cfg.Ok() && c < |cfg.classes|
  {
    var objs := cfg.ObjectsOf(sp, c);
    s.(spans := s.spans[sp := SpanDesc(head, 0)], pm := s.pm + PageEntries(sp, cfg.classes[c].pages, sp), l := Add(s.l, sp, objs),
       home := Housed(s.home, objs, InSpan(sp)))
  }

  lemma AddSound(cfg: Config, c: nat, s: Store, sp: Span, head: Ptr)
    requires Sound(cfg, c, s) && FreshPages(cfg, c, s.pm, sp) && Chain(s.words, head, cfg.ObjectsOf(sp, c))
    ensures Sound(cfg, c, AfterAdd(cfg, c, s, sp, head)) && sp !in s.spans && sp !in s.l.spans
    ensures forall o :: o in cfg.ObjectsOf(sp, c) ==> o !in s.home && o != NULL && !Owned(cfg, c, s.pm, o)
    ensures forall x :: Owned(cfg, c, s.pm, x) ==>
              Owned(cfg, c, AfterAdd(cfg, c, s, sp, head).pm, x)
              && OwnSpan(AfterAdd(cfg, c, s, sp, head).pm, cfg.pageSize, x) == OwnSpan(s.pm, cfg.pageSize, x)
  {
    hide SpansOk, FreeTotal, Homes, SlotsRep, SpansRep, Chain, NoDup, Housed, CacheOk, Owned, OwnOk, ListOk, PageEntries, Config.ObjectsOf, OwnSpan;
    var objs := cfg.ObjectsOf(sp, c);
    AddOwn(cfg, c, s.pm, s.l, s.home, sp);
    cfg.ObjectsDistinct(sp, c);
    cfg.CapacityPositive(c);
    AddKeeps(s.l, sp, objs, cfg.ClassOf(c));
    AddRep(s.words, s.spans, s.l, s.home, sp, head, objs);
    SpanKnown(s.words, s.spans, s.l, sp);
    SlotsSame(s.words, s.slots, s.l, Add(s.l, sp, objs));
  }

  lemma ResizeSound(cfg: Config, c: nat, s: Store, d: int)
    requires Sound(cfg, c, s) && |s.l.slots| <= s.l.cacheSize + d <= s.l.maxCache
    ensures Sound(cfg, c, s.(l := Resized(s.l, d)))
  {
    hide SpansOk, FreeTotal, Homes, SlotsRep, SpansRep, NoDup, OwnOk;
    SpansSame(s.words, s.spans, s.l, Resized(s.l, d));
    SlotsSame(s.words, s.slots, s.l, Resized(s.l, d));
    HomesSame(s.l, Resized(s.l, d), s.home);
    ResizeOwn(cfg, c, s.pm, s.l, Resized(s.l, d), s.home);
  }

  /** A chain of objects that are on no list can be returned. */
  lemma ChainReleasable(cfg: Config, c: nat, s: Store, os: seq<Ptr>)
    requires Sound(cfg, c, s) && NoDup(os) && forall o :: o in os ==> o !in s.home && Owned(cfg, c, s.pm, o)
    ensures Releasable(s.l, os, s.pm, cfg.pageSize, cfg.ClassOf(c))
  {
    hide Homes, OwnOk, ListOk, Owned, NoDup;
    OwnedReleasable(cfg, c, s.pm, s.pm, s.l, s.home, os);
  }
}
