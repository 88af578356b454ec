/** Which span an object of a central free list belongs to, and what a removal and the return of
    a whole chain do to the list. */
module CentralReturns {
  import opened CentralChains
  import opened CentralLists
  import opened CentralThreads
  import opened Collections
  import opened Lists

  type PageMap = map<nat, Span>

  /** The span that the page map gives for an object. */
  function OwnSpan(pm: PageMap, pageSize: nat, o: Ptr): Span
    requires pageSize > 0
  {
    if o / pageSize in pm then pm[o / pageSize] else 0
  }

  /** An object of one of the spans of the page map. */
  ghost predicate Owned(cfg: Config, c: nat, pm: PageMap, o: Ptr)
    requires cfg.Ok() && c < |cfg.classes|
  {
    o / cfg.pageSize in pm && o in cfg.ObjectsOf(pm[o / cfg.pageSize], c)
  }

  /** The page map leads from exactly the pages of these spans to them. */
  ghost predicate PagesFor(pm: PageMap, spans: set<Span>, pages: nat) {
    && (forall sp, p: nat :: sp in spans && sp <= p < sp + pages ==> p in pm && pm[p] == sp)
    && (forall p :: p in pm ==> pm[p] in spans && pm[p] <= p < pm[p] + pages)
    && 0 !in spans
  }

  /** `home` is right about an object. */
  ghost predicate IsAt(l: FreeList, o: Ptr, p: Place, own: Span) {
    match p
    case InSpan(sp) => sp == own && sp in l.spans && o in l.spans[sp].objs
    case InSlot(j, i) => j == 0 && i < |l.slots| && o in l.slots[i]
    case _ => false
  }

  /** The objects on the list are those of its spans, each where `home` says: on the free list of
      its own span, or in a cache slot. */
  ghost predicate OwnOk(cfg: Config, c: nat, pm: PageMap, l: FreeList, home: map<Ptr, Place>)
    requires cfg.Ok() && c < |cfg.classes|
  {
    && PagesFor(pm, l.spans.Keys, cfg.classes[c].pages)
    && forall o :: o in home ==> Owned(cfg, c, pm, o) && IsAt(l, o, home[o], OwnSpan(pm, cfg.pageSize, o))
  }

  /** An object that is on no list is in use: its span is listed and counts it, and if it is the
      last one in use, all others are on the span's free list. */
  lemma InUse(cfg: Config, c: nat, pm: PageMap, l: FreeList, home: map<Ptr, Place>, o: Ptr)
    requires cfg.Ok() && c < |cfg.classes| && OwnOk(cfg, c, pm, l, home) && Homes(l, home) && ListOk(l, cfg.ClassOf(c))
    requires Owned(cfg, c, pm, o) && o !in home
    ensures var sp := OwnSpan(pm, cfg.pageSize, o);
            && sp in l.spans && l.spans[sp].refcount > 0 && o != NULL
            && (Frees(l, sp) ==> forall x :: x in cfg.ObjectsOf(sp, c) ==> x == o || x in l.spans[sp].objs)
  {
    hide OwnOk, Homes, ListOk, Owned, OwnSpan, NoDup, Config.ObjectsOf, Config.ClassOf;
    var sp, all := OwnSpan(pm, cfg.pageSize, o), cfg.ObjectsOf(OwnSpan(pm, cfg.pageSize, o), c);
    SpanListed(cfg, c, pm, l, home, o);
    NotOnList(l, home, o, sp);
    OnFreeList(cfg, c, pm, l, home, sp);
    Accounted(cfg, c, l, sp);
    cfg.ObjectsDistinct(sp, c);
    OneMoreFits(o, l.spans[sp].objs, all);
  }

  lemma SpanListed(cfg: Config, c: nat, pm: PageMap, l: FreeList, home: map<Ptr, Place>, o: Ptr)
    requires cfg.Ok() && c < |cfg.classes| && OwnOk(cfg, c, pm, l, home) && Owned(cfg, c, pm, o)
    ensures var sp := OwnSpan(pm, cfg.pageSize, o); sp in l.spans && sp > 0 && o in cfg.ObjectsOf(sp, c) && o != NULL
  {
    hide IsAt, Config.ObjectsOf;
    cfg.ObjectPage(OwnSpan(pm, cfg.pageSize, o), c, o);
  }

  lemma NotOnList(l: FreeList, home: map<Ptr, Place>, o: Ptr, sp: Span)
    requires Homes(l, home) && sp in l.spans && o !in home
    ensures NoDup(l.spans[sp].objs) && o !in l.spans[sp].objs
  {
    hide NoDup;
  }

  lemma Accounted(cfg: Config, c: nat, l: FreeList, sp: Span)
    requires cfg.Ok() && c < |cfg.classes| && ListOk(l, cfg.ClassOf(c)) && sp in l.spans
    ensures l.spans[sp].refcount + |l.spans[sp].objs| == |cfg.ObjectsOf(sp, c)|
  {
    hide FreeTotal, CacheOk, NoDup;
  }

  lemma OneMoreFits<T(!new)>(o: T, objs: seq<T>, all: seq<T>)
    requires NoDup(objs) && NoDup(all) && o !in objs && o in all && forall x :: x in objs ==> x in all
    ensures |objs| < |all| && (|objs| + 1 == |all| ==> forall x :: x in all ==> x == o || x in objs)
  {
    PushNoDup(o, objs);
    hide NoDup;
    assert forall x :: x in [o] + objs <==> x == o || x in objs;
    Fewer([o] + objs, all);
  }

  lemma OnFreeList(cfg: Config, c: nat, pm: PageMap, l: FreeList, home: map<Ptr, Place>, sp: Span)
    requires cfg.Ok() && c < |cfg.classes| && OwnOk(cfg, c, pm, l, home) && Homes(l, home) && sp in l.spans
    ensures forall x :: x in l.spans[sp].objs ==> x in cfg.ObjectsOf(sp, c)
  {
    hide NoDup, PagesFor, Config.ObjectsOf;
    forall x | x in l.spans[sp].objs ensures x in cfg.ObjectsOf(sp, c) {
      assert x in home && home[x] == InSpan(sp);
    }
  }

  // ---------- the steps keep it ----------

  lemma FetchOwn(cfg: Config, c: nat, pm: PageMap, l: FreeList, home: map<Ptr, Place>)
    requires cfg.Ok() && c < |cfg.classes| && OwnOk(cfg, c, pm, l, home) && Homes(l, home) && Fetchable(l)
    ensures OwnOk(cfg, c, pm, Fetch(l), home - {Fetched(l)}) && Fetched(l) in home && Owned(cfg, c, pm, Fetched(l))
  {
    hide Owned, PagesFor, NoDup;
    var sp, f, m := FetchSpan(l), Fetched(l), Fetch(l);
    assert f in l.spans[sp].objs;
    assert m.spans.Keys == l.spans.Keys;
    forall o | o in home && o != f ensures IsAt(m, o, home[o], OwnSpan(pm, cfg.pageSize, o)) {
      assert IsAt(l, o, home[o], OwnSpan(pm, cfg.pageSize, o));
      if home[o] == InSpan(sp) {
        assert l.spans[sp].objs == [f] + m.spans[sp].objs;
      }
    }
  }

  lemma ReturnOwn(cfg: Config, c: nat, pm: PageMap, l: FreeList, home: map<Ptr, Place>, o: Ptr)
    requires cfg.Ok() && c < |cfg.classes| && OwnOk(cfg, c, pm, l, home) && Owned(cfg, c, pm, o) && o !in home
    requires var sp := OwnSpan(pm, cfg.pageSize, o); sp in l.spans && l.spans[sp].refcount > 0 && !Frees(l, sp)
    ensures var sp := OwnSpan(pm, cfg.pageSize, o); OwnOk(cfg, c, pm, Release(l, o, sp, cfg.ClassOf(c)), home[o := InSpan(sp)])
  {
    hide Owned, PagesFor, Without;
    var sp := OwnSpan(pm, cfg.pageSize, o);
    var m, home' := Release(l, o, sp, cfg.ClassOf(c)), home[o := InSpan(sp)];
    assert m.spans.Keys == l.spans.Keys;
    forall x | x in home' ensures IsAt(m, x, home'[x], OwnSpan(pm, cfg.pageSize, x)) {
      if x != o { assert IsAt(l, x, home[x], OwnSpan(pm, cfg.pageSize, x)); }
    }
  }

  function WithoutSpan(pm: PageMap, sp: Span): PageMap {
    map p | p in pm && pm[p] != sp :: pm[p]
  }

  lemma LeaveOwn(cfg: Config, c: nat, pm: PageMap, l: FreeList, home: map<Ptr, Place>, o: Ptr)
    requires cfg.Ok() && c < |cfg.classes| && OwnOk(cfg, c, pm, l, home) && Homes(l, home) && Owned(cfg, c, pm, o) && o !in home
    requires var sp := OwnSpan(pm, cfg.pageSize, o);
             && sp in l.spans && Frees(l, sp) && forall x :: x in cfg.ObjectsOf(sp, c) ==> x == o || x in l.spans[sp].objs
    ensures var sp := OwnSpan(pm, cfg.pageSize, o);
            && OwnOk(cfg, c, WithoutSpan(pm, sp), Release(l, o, sp, cfg.ClassOf(c)), Rest(home, sp))
            && forall x :: x != o && x !in home && Owned(cfg, c, pm, x) ==>
                 Owned(cfg, c, WithoutSpan(pm, sp), x) && OwnSpan(WithoutSpan(pm, sp), cfg.pageSize, x) == OwnSpan(pm, cfg.pageSize, x)
  {
    var sp := OwnSpan(pm, cfg.pageSize, o);
    OthersHome(cfg, c, pm, l, home, o);
    PagesWithout(pm, l.spans.Keys, cfg.classes[c].pages, sp);
    hide Without, NoDup, Owned, PagesFor, Homes, WithoutSpan;
    var m, home', pm' := Release(l, o, sp, cfg.ClassOf(c)), Rest(home, sp), WithoutSpan(pm, sp);
    assert m.spans.Keys == l.spans.Keys - {sp};
    forall x | Owned(cfg, c, pm, x) && OwnSpan(pm, cfg.pageSize, x) != sp
      ensures Owned(cfg, c, pm', x) && OwnSpan(pm', cfg.pageSize, x) == OwnSpan(pm, cfg.pageSize, x)
    {
      OwnedWithout(cfg, c, pm, sp, x);
    }
    forall x | x in home' ensures Owned(cfg, c, pm', x) && IsAt(m, x, home'[x], OwnSpan(pm', cfg.pageSize, x)) {
      assert Owned(cfg, c, pm, x) && IsAt(l, x, home[x], OwnSpan(pm, cfg.pageSize, x));
    }
  }

  /** When the last object in use comes back, all other objects of its span are on its free list. */
  lemma OthersHome(cfg: Config, c: nat, pm: PageMap, l: FreeList, home: map<Ptr, Place>, o: Ptr)
    requires cfg.Ok() && c < |cfg.classes| && Homes(l, home) && Owned(cfg, c, pm, o)
    requires var sp := OwnSpan(pm, cfg.pageSize, o);
             sp in l.spans && forall x :: x in cfg.ObjectsOf(sp, c) ==> x == o || x in l.spans[sp].objs
    ensures var sp := OwnSpan(pm, cfg.pageSize, o);
            forall x :: x != o && Owned(cfg, c, pm, x) && OwnSpan(pm, cfg.pageSize, x) == sp ==> x in home && home[x] == InSpan(sp)
  {
    hide NoDup;
  }

  lemma PagesWithout(pm: PageMap, spans: set<Span>, pages: nat, sp: Span)
    requires PagesFor(pm, spans, pages)
    ensures PagesFor(WithoutSpan(pm, sp), spans - {sp}, pages)
  {
  }

  lemma OwnedWithout(cfg: Config, c: nat, pm: PageMap, sp: Span, x: Ptr)
    requires cfg.Ok() && c < |cfg.classes| && Owned(cfg, c, pm, x) && OwnSpan(pm, cfg.pageSize, x) != sp
    ensures Owned(cfg, c, WithoutSpan(pm, sp), x) && OwnSpan(WithoutSpan(pm, sp), cfg.pageSize, x) == OwnSpan(pm, cfg.pageSize, x)
  {
  }

  lemma PutSlotOwn(cfg: Config, c: nat, pm: PageMap, l: FreeList, home: map<Ptr, Place>, os: seq<Ptr>)
    requires cfg.Ok() && c < |cfg.classes| && OwnOk(cfg, c, pm, l, home) && forall o :: o in os ==> o !in home && Owned(cfg, c, pm, o)
    ensures OwnOk(cfg, c, pm, PutSlot(l, os), Housed(home, os, InSlot(0, |l.slots|)))
  {
    hide Owned, PagesFor;
    var m, home' := PutSlot(l, os), Housed(home, os, InSlot(0, |l.slots|));
    forall o | o in home' ensures Owned(cfg, c, pm, o) && IsAt(m, o, home'[o], OwnSpan(pm, cfg.pageSize, o)) {
      if o in os {
        assert m.slots[|l.slots|] == os;
      } else {
        assert IsAt(l, o, home[o], OwnSpan(pm, cfg.pageSize, o));
      }
    }
  }

  lemma TakeSlotOwn(cfg: Config, c: nat, pm: PageMap, l: FreeList, home: map<Ptr, Place>)
    requires cfg.Ok() && c < |cfg.classes| && OwnOk(cfg, c, pm, l, home) && Homes(l, home) && |l.slots| > 0
    ensures var os := l.slots[|l.slots| - 1];
            && OwnOk(cfg, c, pm, TakeSlot(l), Unhoused(home, os)) && forall o :: o in os ==> o in home && Owned(cfg, c, pm, o)
  {
    hide Owned, PagesFor, NoDup;
    var j := |l.slots| - 1;
    var os, m := l.slots[j], TakeSlot(l);
    forall o | o in os ensures o in home { assert o in l.slots[j]; }
    forall o | o in Unhoused(home, os) ensures IsAt(m, o, home[o], OwnSpan(pm, cfg.pageSize, o)) {
      assert IsAt(l, o, home[o], OwnSpan(pm, cfg.pageSize, o));
    }
  }

  /** A span whose pages are in no use. */
  ghost predicate FreshPages(cfg: Config, c: nat, pm: PageMap, sp: Span)
    requires c < |cfg.classes|
  {
    sp > 0 && forall p :: p in pm ==> p < sp || sp + cfg.classes[c].pages <= p
  }

  lemma AddOwn(cfg: Config, c: nat, pm: PageMap, l: FreeList, home: map<Ptr, Place>, sp: Span)
    requires cfg.Ok() && c < |cfg.classes| && OwnOk(cfg, c, pm, l, home) && FreshPages(cfg, c, pm, sp)
    ensures var objs, pm' := cfg.ObjectsOf(sp, c), pm + PageEntries(sp, cfg.classes[c].pages, sp);
            && sp !in l.spans && (forall o :: o in objs ==> o !in home && !Owned(cfg, c, pm, o) && o != NULL)
            && OwnOk(cfg, c, pm', Add(l, sp, objs), Housed(home, objs, InSpan(sp)))
            && forall x :: Owned(cfg, c, pm, x) ==> Owned(cfg, c, pm', x) && OwnSpan(pm', cfg.pageSize, x) == OwnSpan(pm, cfg.pageSize, x)
  {
    var objs, pages := cfg.ObjectsOf(sp, c), cfg.classes[c].pages;
    var pm', m, home' := pm + PageEntries(sp, pages, sp), Add(l, sp, objs), Housed(home, objs, InSpan(sp));
    NewSpanObjects(cfg, c, pm, sp);
    NewSpanFresh(cfg, c, pm, l.spans.Keys, sp);
    NewPages(pm, l.spans.Keys, pages, sp);
    hide PagesFor, Config.ObjectsOf, PageEntries, Owned, FreshPages;
    assert m.spans.Keys == l.spans.Keys + {sp};
    forall x | Owned(cfg, c, pm, x)
      ensures Owned(cfg, c, pm', x) && OwnSpan(pm', cfg.pageSize, x) == OwnSpan(pm, cfg.pageSize, x)
    {
      OwnedStill(cfg, c, pm, sp, x);
    }
    hide IsAt, Add, OwnSpan;
    forall o | o in home' ensures Owned(cfg, c, pm', o) && IsAt(m, o, home'[o], OwnSpan(pm', cfg.pageSize, o)) {
      if o in objs {
        AddedAt(l, sp, objs, o);
      } else {
        assert Owned(cfg, c, pm, o) && IsAt(l, o, home[o], OwnSpan(pm, cfg.pageSize, o));
        StillAt(l, sp, objs, o, home[o], OwnSpan(pm, cfg.pageSize, o));
      }
    }
  }

  lemma AddedAt(l: FreeList, sp: Span, objs: seq<Ptr>, o: Ptr)
    requires o in objs
    ensures IsAt(Add(l, sp, objs), o, InSpan(sp), sp)
  {
  }

  lemma StillAt(l: FreeList, sp: Span, objs: seq<Ptr>, o: Ptr, p: Place, own: Span)
    requires IsAt(l, o, p, own) && sp !in l.spans
    ensures IsAt(Add(l, sp, objs), o, p, own)
  {
  }

  lemma NewSpanObjects(cfg: Config, c: nat, pm: PageMap, sp: Span)
    requires cfg.Ok() && c < |cfg.classes| && FreshPages(cfg, c, pm, sp)
    ensures var pm' := pm + PageEntries(sp, cfg.classes[c].pages, sp);
            forall o :: o in cfg.ObjectsOf(sp, c) ==>
              o != NULL && !Owned(cfg, c, pm, o) && Owned(cfg, c, pm', o) && OwnSpan(pm', cfg.pageSize, o) == sp
  {
    forall o | o in cfg.ObjectsOf(sp, c)
      ensures o / cfg.pageSize !in pm && o / cfg.pageSize in PageEntries(sp, cfg.classes[c].pages, sp) && o != NULL
    {
      cfg.ObjectPage(sp, c, o);
    }
  }

  lemma NewSpanFresh(cfg: Config, c: nat, pm: PageMap, spans: set<Span>, sp: Span)
    requires cfg.Ok() && c < |cfg.classes| && FreshPages(cfg, c, pm, sp) && PagesFor(pm, spans, cfg.classes[c].pages)
    ensures sp !in spans
  {
    HasPages(cfg, c);
    FirstPage(pm, spans, cfg.classes[c].pages, sp);
  }

  lemma FirstPage(pm: PageMap, spans: set<Span>, pages: nat, sp: Span)
    requires PagesFor(pm, spans, pages) && pages > 0
    ensures sp in spans ==> sp in pm
  {
  }

  lemma OwnedStill(cfg: Config, c: nat, pm: PageMap, sp: Span, x: Ptr)
    requires cfg.Ok() && c < |cfg.classes| && FreshPages(cfg, c, pm, sp) && Owned(cfg, c, pm, x)
    ensures var pm' := pm + PageEntries(sp, cfg.classes[c].pages, sp);
            Owned(cfg, c, pm', x) && OwnSpan(pm', cfg.pageSize, x) == OwnSpan(pm, cfg.pageSize, x)
  {
    hide Config.ObjectsOf;
  }

  lemma HasPages(cfg: Config, c: nat)
    requires cfg.Ok() && c < |cfg.classes|
    ensures cfg.classes[c].pages > 0
  {
    assert 0 * cfg.pageSize == 0;
  }

  lemma NewPages(pm: PageMap, spans: set<Span>, pages: nat, sp: Span)
    requires PagesFor(pm, spans, pages) && sp > 0 && forall p :: p in pm ==> p < sp || sp + pages <= p
    ensures PagesFor(pm + PageEntries(sp, pages, sp), spans + {sp}, pages)
  {
  }

  lemma ResizeOwn(cfg: Config, c: nat, pm: PageMap, l: FreeList, m: FreeList, home: map<Ptr, Place>)
    requires cfg.Ok() && c < |cfg.classes| && OwnOk(cfg, c, pm, l, home) && m.spans == l.spans && m.slots == l.slots
    ensures OwnOk(cfg, c, pm, m, home)
  {
    forall o | o in home ensures IsAt(m, o, home[o], OwnSpan(pm, cfg.pageSize, o)) {
      assert IsAt(l, o, home[o], OwnSpan(pm, cfg.pageSize, o));
    }
  }

  // ---------- removing ----------

  /** Fetches objects to the front of the chain until there are enough or none is left. */
  function FetchUpTo(l: FreeList, n: nat, found: seq<Ptr>): (FreeList, seq<Ptr>)
    decreases n - |found|
  {
    if |found| < n && CanFetch(l) && FetchSpan(l) in l.spans && |l.spans[FetchSpan(l)].objs| > 0
    then FetchUpTo(Fetch(l), n, [Fetched(l)] + found)
    else (l, found)
  }

  /** What a removal takes, when no other thread interferes: a cached chain, or objects from the
      spans, with a new span if there was no object at all. */
  function Removal(l: FreeList, n: nat, k: Class, sp: Option<Span>, objs: seq<Ptr>): (FreeList, seq<Ptr>) {
    if n == k.move && |l.slots| > 0 then (TakeSlot(l), l.slots[|l.slots| - 1])
    else FetchUpTo(if !CanFetch(l) && sp.Some? then Add(l, sp.value, objs) else l, n, [])
  }

  lemma FirstFetch(l: FreeList, n: nat)
    requires Fetchable(l) && n > 0
    ensures FetchUpTo(l, n, []) == FetchUpTo(Fetch(l), n, [Fetched(l)])
  {
    assert [Fetched(l)] + [] == [Fetched(l)];
  }

  lemma NextFetch(l: FreeList, n: nat, os: seq<Ptr>)
    requires Fetchable(l) && |os| < n
    ensures FetchUpTo(l, n, os) == FetchUpTo(Fetch(l), n, [Fetched(l)] + os)
  {
  }

  lemma NothingMore(l: FreeList, n: nat, os: seq<Ptr>)
    requires |os| >= n || !CanFetch(l)
    ensures FetchUpTo(l, n, os) == (l, os)
  {
  }

  lemma {:induction false} FetchUpToLength(l: FreeList, n: nat, os: seq<Ptr>)
    requires |os| <= n
    ensures |FetchUpTo(l, n, os).1| <= n
    decreases n - |os|
  {
    if |os| < n && CanFetch(l) && FetchSpan(l) in l.spans && |l.spans[FetchSpan(l)].objs| > 0 {
      FetchUpToLength(Fetch(l), n, [Fetched(l)] + os);
    }
  }

  // ---------- returning a chain ----------

  /** Every object of the chain is in use in a listed span when its turn comes. */
  ghost predicate Releasable(l: FreeList, os: seq<Ptr>, pm: PageMap, pageSize: nat, k: Class)
    requires pageSize > 0
    decreases |os|
  {
    |os| > 0 ==>
      var sp := OwnSpan(pm, pageSize, os[0]);
      sp in l.spans && l.spans[sp].refcount > 0 && Releasable(Release(l, os[0], sp, k), os[1..], pm, pageSize, k)
  }

  ghost function ReleaseAll(l: FreeList, os: seq<Ptr>, pm: PageMap, pageSize: nat, k: Class): (FreeList, seq<Span>)
    requires pageSize > 0 && Releasable(l, os, pm, pageSize, k)
    decreases |os|
  {
    if |os| == 0 then (l, [])
    else
      var sp := OwnSpan(pm, pageSize, os[0]);
      var (m, gone) := ReleaseAll(Release(l, os[0], sp, k), os[1..], pm, pageSize, k);
      (m, (if Frees(l, sp) then [sp] else []) + gone)
  }

  /** Releasing the first object of a chain, then the others. */
  lemma ReleaseFirst(l: FreeList, os: seq<Ptr>, pm: PageMap, pageSize: nat, k: Class, gone: seq<Span>)
    requires pageSize > 0 && |os| > 0 && Releasable(l, os, pm, pageSize, k)
    ensures var sp := OwnSpan(pm, pageSize, os[0]);
            && sp in l.spans && l.spans[sp].refcount > 0 && Releasable(Release(l, os[0], sp, k), os[1..], pm, pageSize, k)
            && var (m, more) := ReleaseAll(Release(l, os[0], sp, k), os[1..], pm, pageSize, k);
               ReleaseAll(l, os, pm, pageSize, k).0 == m
               && gone + ReleaseAll(l, os, pm, pageSize, k).1 == (gone + (if Frees(l, sp) then [sp] else [])) + more
  {
  }

  lemma NoneToRelease(l: FreeList, pm: PageMap, pageSize: nat, k: Class)
    requires pageSize > 0
    ensures Releasable(l, [], pm, pageSize, k) && ReleaseAll(l, [], pm, pageSize, k) == (l, [])
  {
  }

  /** What is still to be returned, and the spans gone so far, make up the whole. */
  ghost predicate GoneSoFar(l: FreeList, rest: seq<Ptr>, gone: seq<Span>, l0: FreeList, os: seq<Ptr>, pm: PageMap, pageSize: nat, k: Class)
    requires pageSize > 0
  {
    && Releasable(l, rest, pm, pageSize, k) && Releasable(l0, os, pm, pageSize, k)
    && var (m, more) := ReleaseAll(l, rest, pm, pageSize, k);
       (m, gone + more) == ReleaseAll(l0, os, pm, pageSize, k)
  }

  lemma GoneFirst(l: FreeList, os: seq<Ptr>, pm: PageMap, pageSize: nat, k: Class)
    requires pageSize > 0 && Releasable(l, os, pm, pageSize, k)
    ensures GoneSoFar(l, os, [], l, os, pm, pageSize, k)
  {
    var (m, more) := ReleaseAll(l, os, pm, pageSize, k);
    assert [] + more == more;
  }

  lemma GoneNext(l: FreeList, rest: seq<Ptr>, gone: seq<Span>, l0: FreeList, os: seq<Ptr>, pm: PageMap, pageSize: nat, k: Class)
    requires pageSize > 0 && |rest| > 0 && GoneSoFar(l, rest, gone, l0, os, pm, pageSize, k)
    ensures var sp := OwnSpan(pm, pageSize, rest[0]);
            && sp in l.spans && l.spans[sp].refcount > 0
            && GoneSoFar(Release(l, rest[0], sp, k), rest[1..], gone + (if Frees(l, sp) then [sp] else []), l0, os, pm, pageSize, k)
  {
    ReleaseFirst(l, rest, pm, pageSize, k, gone);
  }

  lemma GoneAll(l: FreeList, rest: seq<Ptr>, gone: seq<Span>, l0: FreeList, os: seq<Ptr>, pm: PageMap, pageSize: nat, k: Class)
    requires pageSize > 0 && |rest| == 0 && GoneSoFar(l, rest, gone, l0, os, pm, pageSize, k)
    ensures Releasable(l0, os, pm, pageSize, k) && (l, gone) == ReleaseAll(l0, os, pm, pageSize, k)
  {
    assert rest == [] && gone + [] == gone;
  }

  /** The objects of a chain that belong to a span, the last one first. */
  function Back(os: seq<Ptr>, pm: PageMap, pageSize: nat, sp: Span): seq<Ptr>
    requires pageSize > 0
  {
    if |os| == 0 then []
    else Back(os[1..], pm, pageSize, sp) + if OwnSpan(pm, pageSize, os[0]) == sp then [os[0]] else []
  }

  lemma {:induction false} BackMember(os: seq<Ptr>, pm: PageMap, pageSize: nat, sp: Span, o: Ptr)
    requires pageSize > 0
    ensures o in Back(os, pm, pageSize, sp) <==> o in os && OwnSpan(pm, pageSize, o) == sp
  {
    if |os| > 0 {
      BackMember(os[1..], pm, pageSize, sp, o);
      assert os == [os[0]] + os[1..];
    }
  }

  /** No object of a releasable chain belongs to a span that is not listed. */
  lemma {:induction false} NoneOfOthers(l: FreeList, os: seq<Ptr>, pm: PageMap, pageSize: nat, k: Class, sp: Span)
    requires pageSize > 0 && Releasable(l, os, pm, pageSize, k) && sp !in l.spans
    ensures Back(os, pm, pageSize, sp) == []
    decreases |os|
  {
    hide Without;
    if |os| > 0 {
      NoneOfOthers(Release(l, os[0], OwnSpan(pm, pageSize, os[0]), k), os[1..], pm, pageSize, k, sp);
    }
  }

  /** What returning a chain does: each object goes to the front of the free list of its own span,
      spans that get back all their objects leave, and nothing else changes. */
  lemma {:induction false} ReleaseAllIs(l: FreeList, os: seq<Ptr>, pm: PageMap, pageSize: nat, k: Class, sp: Span)
    requires pageSize > 0 && Releasable(l, os, pm, pageSize, k)
    ensures var (m, gone) := ReleaseAll(l, os, pm, pageSize, k); var back := Back(os, pm, pageSize, sp);
            && m.slots == l.slots && m.cacheSize == l.cacheSize && m.maxCache == l.maxCache
            && (sp in gone <==> sp in l.spans && 0 < |back| && l.spans[sp].refcount == |back|)
            && (sp in m.spans <==> sp in l.spans && sp !in gone)
            && (sp in m.spans ==> |back| <= l.spans[sp].refcount
                                  && m.spans[sp] == SpanState(back + l.spans[sp].objs, l.spans[sp].refcount - |back|))
    decreases |os|
  {
    hide Without, Release, Touched;
    BackCons(os, pm, pageSize, sp);
    if |os| > 0 {
      var own := OwnSpan(pm, pageSize, os[0]);
      var next := Release(l, os[0], own, k);
      ReleasedSpan(l, os[0], own, k, sp);
      ReleaseFirst(l, os, pm, pageSize, k, []);
      ReleaseAllIs(next, os[1..], pm, pageSize, k, sp);
      hide ReleaseAll, Releasable, Back, OwnSpan;
      if own == sp {
        if Frees(l, sp) {
          NoneOfOthers(next, os[1..], pm, pageSize, k, sp);
        } else {
          Regroup(Back(os[1..], pm, pageSize, sp), os[0], l.spans[sp].objs);
        }
      }
    } else {
      NoneToRelease(l, pm, pageSize, k);
      EmptyFront(if sp in l.spans then l.spans[sp].objs else []);
    }
  }

  lemma BackCons(os: seq<Ptr>, pm: PageMap, pageSize: nat, sp: Span)
    requires pageSize > 0
    ensures |os| == 0 ==> Back(os, pm, pageSize, sp) == []
    ensures |os| > 0 ==> Back(os, pm, pageSize, sp)
                         == if OwnSpan(pm, pageSize, os[0]) == sp then Back(os[1..], pm, pageSize, sp) + [os[0]] else Back(os[1..], pm, pageSize, sp)
  {
  }

  lemma Regroup<T>(s: seq<T>, x: T, t: seq<T>)
    ensures s + ([x] + t) == (s + [x]) + t
  {
  }

  lemma EmptyFront<T>(s: seq<T>)
    ensures [] + s == s
  {
  }

  /** What one release does to a span. */
  lemma ReleasedSpan(l: FreeList, o: Ptr, own: Span, k: Class, sp: Span)
    requires own in l.spans && l.spans[own].refcount > 0
    ensures var m := Release(l, o, own, k);
            && m.slots == l.slots && m.cacheSize == l.cacheSize && m.maxCache == l.maxCache
            && (sp in m.spans <==> sp in l.spans && !(sp == own && Frees(l, sp)))
            && (sp in m.spans ==> m.spans[sp] == if sp == own then SpanState([o] + l.spans[sp].objs, l.spans[sp].refcount - 1) else l.spans[sp])
  {
    hide Without;
  }

  /** A chain of distinct objects of the list's spans that are on no list is releasable. */
  lemma {:induction false} OwnedReleasable(cfg: Config, c: nat, pm0: PageMap, pm: PageMap, l: FreeList, home: map<Ptr, Place>, os: seq<Ptr>)
    requires cfg.Ok() && c < |cfg.classes| && OwnOk(cfg, c, pm, l, home) && Homes(l, home) && ListOk(l, cfg.ClassOf(c)) && NoDup(os)
    requires forall o :: o in os ==> o !in home && Owned(cfg, c, pm, o) && OwnSpan(pm, cfg.pageSize, o) == OwnSpan(pm0, cfg.pageSize, o)
    ensures Releasable(l, os, pm0, cfg.pageSize, cfg.ClassOf(c))
    decreases |os|
  {
    if |os| > 0 {
      hide OwnOk, Homes, ListOk, NoDup, Owned, Release, Config.ClassOf;
      var o, rest := os[0], os[1..];
      var sp, k := OwnSpan(pm, cfg.pageSize, os[0]), cfg.ClassOf(c);
      assert o in os;
      InUse(cfg, c, pm, l, home, o);
      ReleaseKeeps(l, o, sp, k);
      DropFirst(os);
      if Frees(l, sp) {
        LeaveOwn(cfg, c, pm, l, home, o);
        LeaveHomes(l, home, o, sp, k);
        OwnedReleasable(cfg, c, pm0, WithoutSpan(pm, sp), Release(l, o, sp, k), Rest(home, sp), rest);
      } else {
        ReturnOwn(cfg, c, pm, l, home, o);
        ReturnHomesOf(l, home, o, sp, k);
        OwnedReleasable(cfg, c, pm0, pm, Release(l, o, sp, k), home[o := InSpan(sp)], rest);
      }
    }
  }

  lemma LeaveHomes(l: FreeList, home: map<Ptr, Place>, o: Ptr, sp: Span, k: Class)
    requires Homes(l, home) && sp in l.spans && Frees(l, sp)
    ensures Homes(Release(l, o, sp, k), Rest(home, sp))
  {
    hide NoDup, Without;
    var m, home' := Release(l, o, sp, k), Rest(home, sp);
    forall x, y | x in m.spans && y in m.spans[x].objs ensures y in home' && home'[y] == InSpan(x) {
      assert y in l.spans[x].objs;
    }
    forall i, y | 0 <= i < |m.slots| && y in m.slots[i] ensures y in home' && home'[y] == InSlot(0, i) {
      assert y in l.slots[i];
    }
  }

  lemma ReturnHomesOf(l: FreeList, home: map<Ptr, Place>, o: Ptr, sp: Span, k: Class)
    requires Homes(l, home) && o !in home && sp in l.spans && l.spans[sp].refcount > 0 && !Frees(l, sp)
    ensures Homes(Release(l, o, sp, k), home[o := InSpan(sp)])
  {
    hide Homes, Without;
    ReturnHomes(l, Release(l, o, sp, k), home, o, sp);
  }
}
