/** How many objects a removal delivers, and whether it takes a span from the page heap; what the
    return of a chain does to the counters, and the limit of a cache. */
module CentralSupply {
  import opened CentralChains
  import opened CentralLists
  import opened CentralReturns
  import opened CentralStores
  import opened CentralThreads
  import opened Collections
  import opened Lists
  import Multiples
  import opened Sums

  /** There is an object to fetch exactly if the counter is positive. */
  lemma FetchIfCounted(l: FreeList, k: Class)
    requires ListOk(l, k)
    ensures l.counter >= 0 && (CanFetch(l) <==> l.counter > 0)
  {
    hide NoDup, Sum;
    SumBounds(FreeCounts(l.spans));
    if CanFetch(l) {
      assert l.nonempty[0] in l.nonempty;
      assert FreeCounts(l.spans)[l.nonempty[0]] > 0;
    }
  }

  /** Fetching delivers as many objects as are wanted, or all there are. */
  lemma {:induction false} FetchCount(l: FreeList, n: nat, os: seq<Ptr>, k: Class)
    requires ListOk(l, k) && |os| <= n
    ensures var (m, found) := FetchUpTo(l, n, os);
            && |found| == (if |os| + l.counter < n then |os| + l.counter else n)
            && m.counter == l.counter - (|found| - |os|) && m.numSpans == l.numSpans && m.slots == l.slots
    decreases n - |os|
  {
    hide ListOk;
    FetchIfCounted(l, k);
    if |os| < n && CanFetch(l) {
      FetchesFirst(l, k);
      NextFetch(l, n, os);
      FetchCount(Fetch(l), n, [Fetched(l)] + os, k);
    } else {
      NothingMore(l, n, os);
    }
  }

  lemma FetchesFirst(l: FreeList, k: Class)
    requires ListOk(l, k) && CanFetch(l)
    ensures Fetchable(l) && ListOk(Fetch(l), k)
    ensures Fetch(l).counter == l.counter - 1 && Fetch(l).numSpans == l.numSpans && Fetch(l).slots == l.slots
    ensures Fetched(l) in l.spans[FetchSpan(l)].objs
    ensures forall sp, o :: sp in Fetch(l).spans && o in Fetch(l).spans[sp].objs ==> sp in l.spans && o in l.spans[sp].objs
  {
    hide NoDup, FreeTotal;
    FetchReady(l, k);
    FetchKeeps(l, k);
    hide ListOk;
    var objs := l.spans[FetchSpan(l)].objs;
    assert objs == [objs[0]] + objs[1..];
  }

  /** What is fetched was on the free list of a span. */
  lemma {:induction false} FetchedFrom(l: FreeList, n: nat, os: seq<Ptr>, k: Class, all: seq<Ptr>)
    requires ListOk(l, k) && |os| <= n && forall sp, o :: sp in l.spans && o in l.spans[sp].objs ==> o in all
    requires forall o :: o in os ==> o in all
    ensures forall o :: o in FetchUpTo(l, n, os).1 ==> o in all
    decreases n - |os|
  {
    hide ListOk;
    if |os| < n && CanFetch(l) {
      FetchesFirst(l, k);
      NextFetch(l, n, os);
      FetchedFrom(Fetch(l), n, [Fetched(l)] + os, k, all);
    } else {
      NothingMore(l, n, os);
    }
  }

  /** With no object counted, all free objects after a span is added are its own. */
  lemma OnlyOfSpan(l: FreeList, k: Class, sp: Span, objs: seq<Ptr>)
    requires ListOk(l, k) && l.counter == 0
    ensures forall x, o :: x in Add(l, sp, objs).spans && o in Add(l, sp, objs).spans[x].objs ==> o in objs
  {
    hide NoDup, Sum;
    SumBounds(FreeCounts(l.spans));
    forall x | x in l.spans ensures |l.spans[x].objs| == 0 { assert FreeCounts(l.spans)[x] == 0; }
  }

  /** What a removal gets: a cached chain if there is one and a full transfer is wanted; otherwise
      objects from the spans, of which there are `l.counter`; and only if there is none, those
      of a span from the page heap. */
  lemma RemovalIs(l: FreeList, n: nat, k: Class, page: Option<Span>, objs: seq<Ptr>)
    requires ListOk(l, k) && n > 0 && (page.Some? ==> page.value !in l.spans && |objs| == k.capacity > 0)
    ensures var (m, os) := Removal(l, n, k, page, objs);
            if n == k.move && |l.slots| > 0 then
              os == l.slots[|l.slots| - 1] && m.slots == l.slots[..|l.slots| - 1] && m.counter == l.counter && m.numSpans == l.numSpans
            else
              var added := l.counter == 0 && page.Some?;
              var stock := if added then k.capacity else l.counter;
              && |os| == (if stock < n then stock else n) && m.counter == stock - |os| && m.slots == l.slots
              && m.numSpans == l.numSpans + (if added then 1 else 0) && (added ==> forall o :: o in os ==> o in objs)
  {
    hide ListOk, FetchUpTo;
    FetchIfCounted(l, k);
    if !(n == k.move && |l.slots| > 0) {
      if l.counter == 0 && page.Some? {
        AddKeeps(l, page.value, objs, k);
        FetchCount(Add(l, page.value, objs), n, [], k);
        OnlyOfSpan(l, k, page.value, objs);
        FetchedFrom(Add(l, page.value, objs), n, [], k, objs);
      } else {
        FetchCount(l, n, [], k);
      }
    }
  }

  /** The same for a list in memory and a span on unused pages. */
  lemma StoreRemovalIs(cfg: Config, c: nat, s: Store, n: nat, page: Option<Span>)
    requires Sound(cfg, c, s) && n > 0 && (page.Some? ==> FreshPages(cfg, c, s.pm, page.value))
    ensures var (m, os) := Removal(s.l, n, cfg.ClassOf(c), page, if page.Some? then cfg.ObjectsOf(page.value, c) else []);
            if n == cfg.classes[c].move && |s.l.slots| > 0 then
              os == s.l.slots[|s.l.slots| - 1] && m.slots == s.l.slots[..|s.l.slots| - 1] && m.counter == s.l.counter && m.numSpans == s.l.numSpans
            else
              var added := s.l.counter == 0 && page.Some?;
              var stock := if added then cfg.Capacity(c) else s.l.counter;
              && |os| == (if stock < n then stock else n) && m.counter == stock - |os| && m.slots == s.l.slots
              && m.numSpans == s.l.numSpans + (if added then 1 else 0) && (added ==> forall o :: o in os ==> o in cfg.ObjectsOf(page.value, c))
    ensures s.l.counter >= 0 && (|s.l.nonempty| > 0 <==> s.l.counter > 0)
  {
    hide SlotsRep, SpansRep, Homes, OwnOk, ListOk, Config.ObjectsOf, Removal, FreshPages;
    cfg.CapacityPositive(c);
    FetchIfCounted(s.l, cfg.ClassOf(c));
    if page.Some? {
      AddOwn(cfg, c, s.pm, s.l, s.home, page.value);
      RemovalIs(s.l, n, cfg.ClassOf(c), page, cfg.ObjectsOf(page.value, c));
    } else {
      RemovalIs(s.l, n, cfg.ClassOf(c), page, []);
    }
  }

  /** What returning a chain does to the counters. */
  lemma {:induction false} ReleaseAllCounts(l: FreeList, os: seq<Ptr>, pm: PageMap, pageSize: nat, k: Class)
    requires pageSize > 0 && Releasable(l, os, pm, pageSize, k)
    ensures var (m, gone) := ReleaseAll(l, os, pm, pageSize, k);
            && m.counter == l.counter + |os| - k.capacity * |gone| && m.numSpans == l.numSpans - |gone|
            && m.slots == l.slots && m.cacheSize == l.cacheSize && m.maxCache == l.maxCache
    decreases |os|
  {
    if |os| == 0 {
      NoneToRelease(l, pm, pageSize, k);
      assert os == [] && k.capacity * 0 == 0;
    } else {
      var sp := OwnSpan(pm, pageSize, os[0]);
      ReleaseFirst(l, os, pm, pageSize, k, []);
      var (m, more) := ReleaseAll(Release(l, os[0], sp, k), os[1..], pm, pageSize, k);
      var (m', gone) := ReleaseAll(l, os, pm, pageSize, k);
      ReleaseAllCounts(Release(l, os[0], sp, k), os[1..], pm, pageSize, k);
      Distributed(k.capacity, if Frees(l, sp) then 1 else 0, |more|);
      hide Releasable, ReleaseAll, Without;
      assert gone == (if Frees(l, sp) then [sp] else []) + more by { assert [] + gone == gone && [] + (if Frees(l, sp) then [sp] else []) == (if Frees(l, sp) then [sp] else []); }
    }
  }

  lemma Distributed(a: nat, x: nat, y: nat)
    ensures a * (x + y) == a * x + a * y && a * 1 == a && a * 0 == 0
  {
  }

  /** The limit of a cache: the most transfers, up to 64, that fit one megabyte, and at least one. */
  lemma MostTransfers(c: nat, cfg: Config)
    requires cfg.Ok() && c < |cfg.classes|
    ensures var most, bytes := MaxCache(c, cfg), cfg.classes[c].size * cfg.classes[c].move;
            && 1 <= most <= MAX_TRANSFER_ENTRIES && (c == 0 ==> most == MAX_TRANSFER_ENTRIES)
            && (c > 0 && most > 1 ==> most * bytes <= 1048576)
            && (c > 0 && most < MAX_TRANSFER_ENTRIES ==> (most + 1) * bytes > 1048576)
  {
    if c > 0 {
      var bytes: nat := cfg.classes[c].size * cfg.classes[c].move;
      PositiveProduct(cfg.classes[c].size, cfg.classes[c].move);
      var most, fit := MaxCache(c, cfg), 1048576 / bytes;
      assert 1048576 == bytes * fit + 1048576 % bytes;
      if most <= fit {
        Multiples.Distribute(bytes, fit, most);
        Multiples.Times(bytes, fit - most);
      }
      if most >= fit {
        Multiples.Distribute(bytes, most + 1, fit);
        Multiples.Times(bytes, most + 1 - fit);
      }
    }
  }
}
