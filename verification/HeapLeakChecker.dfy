/** The heap leak checker: bounds kept by the allocation hooks, and the marking of objects
    reachable from the roots over a stack of objects to scan. */
module HeapLeakCheckers {
  import opened AddressFold
  import opened AddressMaps
  import opened AddressMemory
  import opened AddressSearch
  import opened HeapProfiles
  import opened LeakMarking
  import opened Lists
  import opened Multiples
  import opened ProfileBooks

  /** Every recorded object lies between the bounds. */
  ghost predicate Bounded(h: Sizes, lo: Number, hi: Number) {
    forall p :: p in h ==> lo <= p && p + h[p] <= hi
  }

  /** No recorded object is larger than `most`. */
  ghost predicate Sized(h: Sizes, most: nat) {
    forall p :: p in h ==> h[p] <= most
  }

  /** With the largest size as the limit, the search for a pointer misses none. */
  lemma EveryPointer(h: Sizes, most: nat, w: Number, p: Number)
    requires Sized(h, most)
    ensures PointsTo(h, most, w, p) <==> p in h && Inside(p, h[p], w)
  {
    if p in h && Inside(p, h[p], w) {
      DeepEnough(h, most, w, p);
    }
  }

  /** The check against the bounds discards no word that points to a recorded object. */
  lemma BoundsAdmit(h: Sizes, lo: Number, hi: Number, limit: nat, w: Number, p: Number)
    requires Bounded(h, lo, hi) && PointsTo(h, limit, w, p)
    ensures lo <= w <= hi
  {
  }

  lemma BoundedAdded(c: Contents, lo: Number, hi: Number, most: nat, p: Number, v: AllocValue)
    requires Bounded(SizesOf(c), lo, hi) && lo <= p && p + v.bytes <= hi
    ensures Sized(SizesOf(c), most) && v.bytes <= most ==> Sized(SizesOf(c[p := v]), most)
    ensures Bounded(SizesOf(c[p := v]), lo, hi) && SizesOf(c[p := v]) == SizesOf(c)[p := v.bytes]
  {
    assert SizesOf(c[p := v]) == SizesOf(c)[p := v.bytes];
  }

  lemma BoundedWidened(h: Sizes, lo: Number, hi: Number, most: nat, lo': Number, hi': Number, most': nat)
    requires Bounded(h, lo, hi) && lo' <= lo && hi <= hi' && most <= most'
    ensures Bounded(h, lo', hi') && (Sized(h, most) ==> Sized(h, most'))
  {
  }

  lemma BoundedRemoved(c: Contents, lo: Number, hi: Number, most: nat, p: Number)
    requires Bounded(SizesOf(c), lo, hi)
    ensures Bounded(SizesOf(c - {p}), lo, hi) && (Sized(SizesOf(c), most) ==> Sized(SizesOf(c - {p}), most))
    ensures SizesOf(c - {p}) == SizesOf(c) - {p} && (p !in c ==> c - {p} == c)
  {
    assert SizesOf(c - {p}) == SizesOf(c) - {p};
  }

  lemma SameSizes(c: Contents, p: Number, v: AllocValue)
    requires p in c && v.bytes == c[p].bytes
    ensures SizesOf(c[p := v]) == SizesOf(c)
  {
  }

  lemma DisjointOf(c: Contents)
    requires Apart(SizesOf(c))
    ensures Disjoint(c, HeapProfileTable.SizeOf)
  {
    forall a, b | a in c && b in c && a < b ensures a + HeapProfileTable.SizeOf(c[a]) <= b {
      assert a in SizesOf(c) && b in SizesOf(c);
    }
    forall a | a in c ensures a + HeapProfileTable.SizeOf(c[a]) < ADDRESS_SPACE {
      assert a in SizesOf(c);
    }
  }

  // ---------- objects to ignore ----------

  function RootOf(p: Number, v: AllocValue): AllocObject { AllocObject(p, v.bytes, MustBeOnHeap) }

  /** The root made of a recorded object that is to be ignored. */
  ghost predicate IsIgnored(c: Contents, o: AllocObject) {
    o.p in c && c[o.p].Ignored() && o == RootOf(o.p, c[o.p])
  }

  ghost predicate WithIgnored(c: Contents, before: seq<AllocObject>, roots: seq<AllocObject>) {
    forall o :: o in roots <==> o in before || IsIgnored(c, o)
  }

  /** Pushes an object that is to be ignored. */
  function PushIgnored(): Reader<AllocValue, seq<AllocObject>> {
    (p: Number, v: AllocValue, roots) => if v.Ignored() then roots + [RootOf(p, v)] else roots
  }

  /** The visit pushes exactly the visited objects that are to be ignored. */
  lemma {:induction false} IgnoredPushed(c: Contents, order: seq<Number>, roots: seq<AllocObject>)
    requires forall p :: p in order ==> p in c
    ensures var now := Gather(order, c, roots, PushIgnored());
            && (forall o :: o in now <==> o in roots || (o.p in order && IsIgnored(c, o)))
            && roots <= now
  {
    if |order| > 0 {
      var rest, last := order[..|order| - 1], order[|order| - 1];
      IgnoredPushed(c, rest, roots);
      assert order == rest + [last];
    }
  }

  /** The limit on pointers into objects during a leak check; -1 means none, and any other
      negative number is a huge unsigned one. */
  function Capped(cap: int, most: nat): (limit: nat)
    ensures cap >= 0 ==> limit <= cap && limit <= most && (limit == cap || limit == most)
    ensures cap < 0 ==> limit == most
  {
    if 0 <= cap < most then cap else most
  }

  /** The books after an allocation is recorded, and marked as ignored if asked. */
  ghost function Hooked(k: Books, p: Number, size: nat, b: Ptr, ignore: bool): Books {
    var m := Charged(k, p, size, b);
    if ignore && p in m.contents then m.(contents := m.contents[p := m.contents[p].SetIgnore(true)]) else m
  }

  /** The new entry is not live, is to be ignored exactly if asked, and no other one changes. */
  lemma HookedIs(k: Books, p: Number, size: nat, b: Ptr, ignore: bool)
    requires b % 4 == 0
    ensures var d := Hooked(k, p, size, b, ignore).contents;
            && d.Keys == k.contents.Keys + {p} && (forall q :: q in k.contents && q != p ==> d[q] == k.contents[q])
            && d[p].bytes == size && d[p].Bucket() == b && !d[p].Live() && d[p].Ignored() == ignore
  {
    Bits(b / 4, 0);
    AllocValue(b, size).IgnoreApart(true);
  }

  class HeapLeakChecker {
    const profile: HeapProfileTable
    var liveObjects: seq<AllocObject>
    var minHeapAddress: Number
    var maxHeapAddress: Number
    var maxHeapObjectSize: nat
    var liveObjectsTotal: int
    var liveBytesTotal: int

    ghost predicate Valid()
      reads this, profile, profile.allocMap
    {
      profile.Valid() && Bounded(SizesOf(profile.allocMap.Contents), minHeapAddress, maxHeapAddress)
    }

    /** The largest size covers every recorded object: kept by the hooks, and given up only while
        the limit on pointers into objects is lowered for a leak check. */
    ghost predicate Covering()
      reads this, profile, profile.allocMap
    {
      Sized(SizesOf(profile.allocMap.Contents), maxHeapObjectSize)
    }

    constructor ()
      ensures Valid() && Covering() && fresh(profile) && fresh(profile.allocMap) && profile.TheBooks() == Books(map[], map[], ZERO)
      ensures minHeapAddress == ADDRESS_SPACE - 1 && maxHeapAddress == maxHeapObjectSize == 0 && liveObjects == []
      ensures liveObjectsTotal == liveBytesTotal == 0
    {
      hide Represents, BucketsOk, Totals;
      profile := new HeapProfileTable();
      liveObjects := [];
      minHeapAddress, maxHeapAddress, maxHeapObjectSize := ADDRESS_SPACE - 1, 0, 0;
      liveObjectsTotal, liveBytesTotal := 0, 0;
    }

    method Record(p: Number, size: nat, stack: Stack, ignore: bool)
      requires Valid() && minHeapAddress <= p && p + size <= maxHeapAddress
      modifies profile, profile.allocMap
      ensures Valid() && SizesOf(profile.allocMap.Contents) == SizesOf(old(profile.allocMap.Contents))[p := size]
      ensures old(Covering()) && size <= maxHeapObjectSize ==> Covering()
      ensures stack in profile.bucketOf && (stack in old(profile.bucketOf) ==> profile.bucketOf == old(profile.bucketOf))
      ensures profile.bucketOf[stack] % 4 == 0
      ensures profile.TheBooks() == Hooked(old(profile.TheBooks()), p, size, profile.bucketOf[stack], ignore)
    {
      hide Represents, BucketsOk, Totals, Bounded, SizesOf;
      ghost var c := profile.allocMap.Contents;
      profile.RecordAlloc(p, size, stack);
      ghost var v := AllocValue(profile.bucketOf[stack], size);
      assert profile.TheBooks().contents == c[p := v];
      BoundedAdded(c, minHeapAddress, maxHeapAddress, maxHeapObjectSize, p, v);
      if ignore {
        SameSizes(c[p := v], p, v.SetIgnore(true));
        profile.MarkAsIgnored(p);
      }
    }

    /** The bounds and the largest size cover every allocation, recorded or not. While the checker
        is on it is recorded with the bucket of its stack trace, as not live, and as to be ignored
        exactly if asked; no other entry changes. */
    method NewHook(p: Number, size: nat, stack: Stack, ignore: bool, on: bool)
      requires Valid() && p + size < ADDRESS_SPACE
      modifies this`maxHeapObjectSize, this`minHeapAddress, this`maxHeapAddress, profile, profile.allocMap
      ensures Valid() && (old(Covering()) ==> Covering())
      ensures p == 0 ==> (minHeapAddress, maxHeapAddress, maxHeapObjectSize) == old((minHeapAddress, maxHeapAddress, maxHeapObjectSize))
      ensures p != 0 ==>
                && minHeapAddress <= p && minHeapAddress <= old(minHeapAddress) && minHeapAddress in {p, old(minHeapAddress)}
                && maxHeapAddress >= p + size && maxHeapAddress >= old(maxHeapAddress) && maxHeapAddress in {p + size, old(maxHeapAddress)}
                && maxHeapObjectSize >= size && maxHeapObjectSize >= old(maxHeapObjectSize) && maxHeapObjectSize in {size, old(maxHeapObjectSize)}
      ensures p != 0 && on ==>
                && stack in profile.bucketOf
                && profile.TheBooks() == Hooked(old(profile.TheBooks()), p, size, profile.bucketOf[stack], ignore)
      ensures p != 0 && on ==>
                var c, d := old(profile.allocMap.Contents), profile.allocMap.Contents;
                && d.Keys == c.Keys + {p} && (forall q :: q in c && q != p ==> d[q] == c[q])
                && d[p].bytes == size && d[p].Bucket() == profile.bucketOf[stack] && !d[p].Live() && d[p].Ignored() == ignore
      ensures !(p != 0 && on) ==> profile.TheBooks() == old(profile.TheBooks())
      ensures SizesOf(profile.allocMap.Contents)
              == if p != 0 && on then SizesOf(old(profile.allocMap.Contents))[p := size] else SizesOf(old(profile.allocMap.Contents))
    {
      hide Represents, BucketsOk, Totals;
      if p != 0 {
        if size > maxHeapObjectSize { maxHeapObjectSize := size; }
        var addr := p;
        if addr < minHeapAddress { minHeapAddress := addr; }
        addr := addr + size;
        if addr > maxHeapAddress { maxHeapAddress := addr; }
        BoundedWidened(SizesOf(profile.allocMap.Contents), old(minHeapAddress), old(maxHeapAddress), old(maxHeapObjectSize),
                       minHeapAddress, maxHeapAddress, maxHeapObjectSize);
        if on {
          Record(p, size, stack, ignore);
          HookedIs(old(profile.TheBooks()), p, size, profile.bucketOf[stack], ignore);
          assert profile.TheBooks().contents == profile.allocMap.Contents;
        }
      }
    }

    method DeleteHook(p: Number, on: bool)
      requires Valid()
      modifies profile, profile.allocMap
      ensures Valid() && (old(Covering()) ==> Covering())
      ensures profile.allocMap.Contents == old(profile.allocMap.Contents) - if p != 0 && on then {p} else {}
      ensures profile.TheBooks() == if p != 0 && on then Released(old(profile.TheBooks()), p) else old(profile.TheBooks())
      ensures SizesOf(profile.allocMap.Contents)
              == if p != 0 && on then SizesOf(old(profile.allocMap.Contents)) - {p} else SizesOf(old(profile.allocMap.Contents))
    {
      hide Represents, BucketsOk, Totals;
      assert profile.allocMap.Contents - {} == profile.allocMap.Contents;
      if p != 0 && on {
        ghost var c := profile.allocMap.Contents;
        profile.RecordFree(p);
        BoundedRemoved(c, minHeapAddress, maxHeapAddress, maxHeapObjectSize, p);
        assert profile.TheBooks().contents == c - {p} && profile.TheBooks().contents == profile.allocMap.Contents;
      }
    }

    /** What the marking works on. */
    ghost function TheHeap(align: nat, word: LeakMarking.Memory): Heap
      reads this, profile, profile.allocMap
    {
      Heap(SizesOf(profile.allocMap.Contents), maxHeapObjectSize, align, word)
    }

    /** The recorded object that an address points to, if there is one. */
    method HaveOnHeapLocked(addr: Number) returns (found: bool, p: Number, size: nat)
      requires Valid() && Apart(SizesOf(profile.allocMap.Contents))
      ensures var h := SizesOf(profile.allocMap.Contents);
              && (found ==> PointsTo(h, maxHeapObjectSize, addr, p) && size == h[p])
              && (!found ==> forall q :: !PointsTo(h, maxHeapObjectSize, addr, q))
              && (Covering() ==> (found <==> exists q :: q in h && Inside(q, h[q], addr)))
    {
      hide Represents, BucketsOk, Totals;
      DisjointOf(profile.allocMap.Contents);
      found, p, size := profile.FindInsideAlloc(addr, maxHeapObjectSize);
      ghost var h := SizesOf(profile.allocMap.Contents);
      if Covering() {
        forall q ensures PointsTo(h, maxHeapObjectSize, addr, q) <==> q in h && Inside(q, h[q], addr) {
          EveryPointer(h, maxHeapObjectSize, addr, q);
        }
      }
    }

    /** Sets a live bit; true if it was a recorded object not yet in the marked set. */
    method Mark(p: Number, ghost c: Contents, ghost marked: set<Number>) returns (first: bool)
      requires Valid() && profile.allocMap.Contents == Marked(c, marked) && LiveIn(c) <= marked
      modifies profile.allocMap
      ensures Valid() && first == (p in c && p !in marked)
      ensures profile.allocMap.Contents == Marked(c, if first then marked + {p} else marked)
    {
      hide Represents, BucketsOk, Totals;
      MarkedIs(c, marked);
      first := profile.MarkAsLive(p);
      if first {
        MarkedMore(c, marked, p);
        MarkedIs(c, marked + {p});
      }
    }

    /** The marking in progress: the map is `c` with the live bits of `marked`, and the stack
        holds the first `k` roots with the objects `news` on top. */
    ghost predicate Marking(v: Heap, c: Contents, roots: seq<AllocObject>, k: nat, news: seq<Number>, marked: set<Number>, pend: set<AllocObject>)
      reads this, profile, profile.allocMap
    {
      && Valid() && v.Ok() && v.h == SizesOf(c) && v.limit == maxHeapObjectSize
      && profile.allocMap.Contents == Marked(c, marked)
      && v.Traced(LiveIn(c), roots, k, news, marked, pend) && liveObjects == v.StackOf(roots, k, news)
    }

    /** Marks the target of a word and, the first time, pushes it on the stack. */
    method PushTarget(ghost v: Heap, p: Number, size: nat, ghost c: Contents, ghost roots: seq<AllocObject>, ghost k: nat, ghost news: seq<Number>,
                      ghost marked: set<Number>, ghost o: AllocObject, ghost x: nat)
      returns (first: bool)
      requires Marking(v, c, roots, k, news, marked, {o}) && Scans(o, v.align, x)
      requires PointsTo(v.h, v.limit, v.word(x), p) && p in v.h && size == v.h[p]
      modifies this`liveObjects, profile.allocMap
      ensures first == (p !in marked)
      ensures Marking(v, c, roots, k, if first then news + [p] else news, if first then marked + {p} else marked, {o})
    {
      hide Represents, BucketsOk, Totals, Heap.Traced, PointsTo, Bounded, Heap.StackOf;
      v.TracedFacts(LiveIn(c), roots, k, news, marked, {o});
      first := Mark(p, c, marked);
      if first {
        v.MarkTarget(LiveIn(c), roots, k, news, marked, o, x, p);
        v.PushedOne(roots, k, news, p);
        liveObjects := liveObjects + [AllocObject(p, size, IgnoredOnHeap)];
      }
    }

    /** Tries one word as a pointer. */
    method TryWord(ghost v: Heap, addr: Number, ghost c: Contents, ghost roots: seq<AllocObject>, ghost k: nat, ghost news: seq<Number>,
                   ghost marked: set<Number>, ghost o: AllocObject, ghost x: nat)
      returns (count: nat, bytes: nat, ghost news': seq<Number>, ghost marked': set<Number>)
      requires Marking(v, c, roots, k, news, marked, {o}) && Scans(o, v.align, x) && addr == v.word(x)
      modifies this`liveObjects, profile.allocMap
      ensures Marking(v, c, roots, k, news', marked', {o}) && marked <= marked' && (marked == marked' ==> news' == news)
      ensures forall p :: PointsTo(v.h, v.limit, addr, p) ==> p in marked'
      ensures |marked'| == |marked| + count && v.Weigh(marked') == v.Weigh(marked) + bytes
    {
      hide Marking, HeapLeakChecker.Valid, PointsTo, Bounded, Heap.Weigh, Apart, SizesOf, Inside, Sized;
      MarkingParts(v, c, roots, k, news, marked, {o});
      count, bytes, news', marked' := 0, 0, news, marked;
      if addr <= maxHeapAddress && minHeapAddress <= addr {
        var found, p, size := HaveOnHeapLocked(addr);
        if found {
          TargetRecorded(v, addr, p);
          var first := PushTarget(v, p, size, c, roots, k, news, marked, o, x);
          if first {
            v.WeighMore(marked, p);
            count, bytes, news', marked' := 1, size, news + [p], marked + {p};
          }
          forall q | PointsTo(v.h, v.limit, addr, q) ensures q == p { PointsToOne(v.h, v.limit, addr, p, q); }
        }
      } else {
        forall q ensures !PointsTo(v.h, v.limit, addr, q) {
          if PointsTo(v.h, v.limit, addr, q) { BoundsAdmit(v.h, minHeapAddress, maxHeapAddress, v.limit, addr, q); }
        }
      }
    }

    lemma MarkingParts(v: Heap, c: Contents, roots: seq<AllocObject>, k: nat, news: seq<Number>, marked: set<Number>, pend: set<AllocObject>)
      requires Marking(v, c, roots, k, news, marked, pend)
      ensures Valid() && SizesOf(profile.allocMap.Contents) == v.h && v.limit == maxHeapObjectSize && Apart(v.h)
      ensures Bounded(v.h, minHeapAddress, maxHeapAddress) && v.Ok()
    {
      hide Represents, BucketsOk, Totals, Heap.Traced, PointsTo, Bounded, Heap.StackOf, HeapProfileTable.Valid;
      MarkedIs(c, marked);
    }

    static lemma TargetRecorded(v: Heap, addr: Number, p: Number)
      requires PointsTo(v.h, v.limit, addr, p)
      ensures p in v.h
    {
    }

    /** Tries every aligned word of an object. */
    method ScanObject(ghost v: Heap, align: nat, word: LeakMarking.Memory, o: AllocObject, ghost c: Contents, ghost roots: seq<AllocObject>,
                      ghost k: nat, ghost news: seq<Number>, ghost marked: set<Number>)
      returns (count: nat, bytes: nat, ghost news': seq<Number>, ghost marked': set<Number>)
      requires Marking(v, c, roots, k, news, marked, {o}) && v.align == align && v.word == word
      modifies this`liveObjects, profile.allocMap
      ensures Marking(v, c, roots, k, news', marked', {}) && marked <= marked' && (marked == marked' ==> news' == news)
      ensures |marked'| == |marked| + count && v.Weigh(marked') == v.Weigh(marked) + bytes
    {
      hide Represents, BucketsOk, Totals, Heap.Traced, PointsTo, Bounded, Heap.Weigh, Scans;
      count, bytes, news', marked' := 0, 0, news, marked;
      var at, size := o.p, o.size;
      var remainder := at % align;
      if remainder != 0 {
        at := at + (align - remainder);
        size := if size >= align - remainder then size - (align - remainder) else 0;
      }
      ScansFrom(o, v.align, at, size);
      ghost var end := at + size;
      if size >= WORD {
        var maxObject := at + size - WORD;
        ghost var begin := at;
        while at <= maxObject
          invariant begin <= at && at % v.align == 0
          invariant Marking(v, c, roots, k, news', marked', {o}) && marked <= marked' && (marked == marked' ==> news' == news)
          invariant |marked'| == |marked| + count && v.Weigh(marked') == v.Weigh(marked) + bytes
          invariant forall x: nat, p :: Scans(o, v.align, x) && x < at && PointsTo(v.h, v.limit, v.word(x), p) ==> p in marked'
        {
          assert Scans(o, v.align, at);
          var n, m;
          n, m, news', marked' := TryWord(v, word(at), c, roots, k, news', marked', o, at);
          count, bytes := count + n, bytes + m;
          RoundUp(v.align, at);
          forall x: nat | Scans(o, v.align, x) && at < x ensures at + v.align <= x { NextPosition(v.align, at, x); }
          at := at + align;
        }
      }
      assert v.RefsIn(o, marked');
      v.Scanned(LiveIn(c), roots, k, news', marked', o);
    }

    /** Takes the top of the stack; a root that must be on the heap is marked when it is taken. */
    method TakeTop(ghost v: Heap, ghost c: Contents, ghost roots: seq<AllocObject>, ghost k: nat, ghost news: seq<Number>, ghost marked: set<Number>)
      returns (o: AllocObject, count: nat, bytes: nat, ghost k': nat, ghost news': seq<Number>, ghost marked': set<Number>)
      requires Marking(v, c, roots, k, news, marked, {}) && |liveObjects| > 0 && v.RootsOk(roots)
      modifies this`liveObjects, profile.allocMap
      ensures Marking(v, c, roots, k', news', marked', {Heap.Plain(o)}) && marked <= marked'
      ensures |marked'| == |marked| + count && v.Weigh(marked') == v.Weigh(marked) + bytes
      ensures |liveObjects| == old(|liveObjects|) - 1
    {
      hide Represents, BucketsOk, Totals, Heap.Traced, Bounded, Heap.Weigh, Heap.StackOf, HeapProfileTable.Valid;
      v.TracedFacts(LiveIn(c), roots, k, news, marked, {});
      v.StackTop(roots, k, news);
      o := liveObjects[|liveObjects| - 1];
      liveObjects := liveObjects[..|liveObjects| - 1];
      count, bytes, k', news', marked' := 0, 0, k, news, marked;
      if |news| > 0 {
        v.PopNew(LiveIn(c), roots, k, news, marked);
        news' := news[..|news| - 1];
      } else {
        k' := k - 1;
        marked' := if o.place.MustBeOnHeap? && o.p in v.h then marked + {o.p} else marked;
        v.PopRoot(LiveIn(c), roots, k, marked, marked');
      }
      if o.place.MustBeOnHeap? {
        var first := Mark(o.p, c, marked);
        if first {
          v.WeighMore(marked, o.p);
          count, bytes := 1, o.size;
        } else {
          assert marked' == marked;
        }
      }
    }

    /** Takes and scans objects until the stack is empty. */
    method MarkAll(align: nat, word: LeakMarking.Memory, ghost v: Heap, ghost c: Contents, ghost roots: seq<AllocObject>)
      returns (count: nat, bytes: nat, ghost marked: set<Number>)
      requires Marking(v, c, roots, |roots|, [], LiveIn(c), {}) && v.align == align && v.word == word && v.RootsOk(roots)
      modifies this`liveObjects, profile.allocMap
      ensures Marking(v, c, roots, 0, [], marked, {})
      ensures |marked| == |LiveIn(c)| + count && v.Weigh(marked) == v.Weigh(LiveIn(c)) + bytes
    {
      hide Represents, BucketsOk, Totals, Heap.Traced, Bounded, Heap.Weigh, Heap.StackOf, HeapProfileTable.Valid;
      ghost var k: nat, news: seq<Number> := |roots|, [];
      count, bytes, marked := 0, 0, LiveIn(c);
      while |liveObjects| > 0
        invariant Marking(v, c, roots, k, news, marked, {})
        invariant |marked| == |LiveIn(c)| + count && v.Weigh(marked) == v.Weigh(LiveIn(c)) + bytes
        decreases v.h.Keys - marked, |liveObjects|
      {
        var o, n, m;
        ghost var before := marked;
        v.TracedFacts(LiveIn(c), roots, k, news, marked, {});
        o, n, m, k, news, marked := TakeTop(v, c, roots, k, news, marked);
        count, bytes := count + n, bytes + m;
        ghost var marked1, stack1 := marked, liveObjects;
        n, m, news, marked := ScanObject(v, align, word, Heap.Plain(o), c, roots, k, news, marked);
        count, bytes := count + n, bytes + m;
        if marked != before {
          v.Fewer(LiveIn(c), roots, k, news, before, marked, {});
        } else {
          assert marked1 == marked && liveObjects == stack1;
        }
      }
      v.TracedFacts(LiveIn(c), roots, k, news, marked, {});
      v.StackTop(roots, k, news);
    }

    /** Empties the stack of roots, marking exactly what is reachable from it. */
    method IgnoreLiveObjectsLocked(align: nat, word: LeakMarking.Memory)
      requires Valid() && TheHeap(align, word).Ok() && TheHeap(align, word).RootsOk(liveObjects)
      modifies this`liveObjects, this`liveObjectsTotal, this`liveBytesTotal, profile.allocMap
      ensures Valid() && liveObjects == [] && TheHeap(align, word) == old(TheHeap(align, word))
      ensures old(TheHeap(align, word)).Reachable(LiveIn(old(profile.allocMap.Contents)), old(liveObjects), LiveIn(profile.allocMap.Contents))
      ensures profile.allocMap.Contents == Marked(old(profile.allocMap.Contents), LiveIn(profile.allocMap.Contents))
      ensures liveObjectsTotal - old(liveObjectsTotal) == |LiveIn(profile.allocMap.Contents)| - |LiveIn(old(profile.allocMap.Contents))|
      ensures liveBytesTotal - old(liveBytesTotal)
              == old(TheHeap(align, word)).Weigh(LiveIn(profile.allocMap.Contents))
                 - old(TheHeap(align, word)).Weigh(LiveIn(old(profile.allocMap.Contents)))
    {
      hide Represents, BucketsOk, Totals, Heap.Traced, Bounded, Heap.Weigh, Heap.StackOf, HeapProfileTable.Valid, Heap.Reachable, Heap.RootsOk;
      ghost var v, c, roots := TheHeap(align, word), profile.allocMap.Contents, liveObjects;
      v.Started(LiveIn(c), roots);
      NothingMarked(c);
      v.StartStack(roots);
      var count, bytes;
      ghost var marked;
      count, bytes, marked := MarkAll(align, word, v, c, roots);
      v.EndStack(roots);
      v.TracedFacts(LiveIn(c), roots, 0, [], marked, {});
      v.Done(LiveIn(c), roots, marked);
      MarkedIs(c, marked);
      MarkedLive(c, marked);
      liveObjectsTotal := liveObjectsTotal + count;
      liveBytesTotal := liveBytesTotal + bytes;
    }

    /** Makes the objects that are to be ignored roots, and marks what is reachable. */
    method IgnoreDisabledObjects(align: nat, word: LeakMarking.Memory) returns (ghost roots: seq<AllocObject>)
      requires Valid() && TheHeap(align, word).Ok() && TheHeap(align, word).RootsOk(liveObjects)
      modifies this`liveObjects, this`liveObjectsTotal, this`liveBytesTotal, profile.allocMap
      ensures Valid() && liveObjects == [] && TheHeap(align, word) == old(TheHeap(align, word))
      ensures WithIgnored(old(profile.allocMap.Contents), old(liveObjects), roots)
      ensures old(TheHeap(align, word)).Reachable(LiveIn(old(profile.allocMap.Contents)), roots, LiveIn(profile.allocMap.Contents))
      ensures profile.allocMap.Contents == Marked(old(profile.allocMap.Contents), LiveIn(profile.allocMap.Contents))
    {
      hide Represents, BucketsOk, Totals, Bounded, Heap.Reachable, Heap.RootsOk, HeapProfileTable.Valid;
      ghost var c, v, before := profile.allocMap.Contents, TheHeap(align, word), liveObjects;
      ghost var order;
      liveObjects, order := profile.IterateAllocs(PushIgnored(), liveObjects);
      assert profile.TheBooks().contents == profile.allocMap.Contents;
      IgnoredPushed(c, order, before);
      roots := liveObjects;
      assert v.RootsOk(roots) by { RootsStay(v, c, before, roots); }
      IgnoreLiveObjectsLocked(align, word);
    }

    static lemma RootsStay(v: Heap, c: Contents, before: seq<AllocObject>, roots: seq<AllocObject>)
      requires v.h == SizesOf(c) && v.RootsOk(before)
      requires WithIgnored(c, before, roots)
      ensures v.RootsOk(roots)
    {
      forall i | 0 <= i < |roots| && roots[i].place.MustBeOnHeap? && roots[i].p in v.h ensures roots[i].size == v.h[roots[i].p] {
        assert roots[i] in roots;
        if roots[i] in before {
          var k :| 0 <= k < |before| && before[k] == roots[i];
        }
      }
    }

    /** A leak check: lowers the limit on pointers into objects, marks from the roots at hand and
        from the objects to be ignored, and takes the objects that are not live. These are the
        unreachable ones absent from the base, and none of them is to be ignored. */
    method LeakCheck(cap: int, align: nat, word: LeakMarking.Memory, base: Base) returns (leaks: Snapshot, ghost roots: seq<AllocObject>, ghost live: set<Number>)
      requires Valid() && TheHeap(align, word).Ok() && TheHeap(align, word).RootsOk(liveObjects)
      modifies this`liveObjects, this`liveObjectsTotal, this`liveBytesTotal, this`maxHeapObjectSize, profile.allocMap
      ensures Valid() && liveObjects == [] && maxHeapObjectSize == old(maxHeapObjectSize) && (old(Covering()) ==> Covering())
      ensures WithIgnored(old(profile.allocMap.Contents), old(liveObjects), roots)
      ensures var limit, most := Capped(cap, old(maxHeapObjectSize)), old(maxHeapObjectSize);
              if cap < 0 then limit == most else limit <= cap && limit <= most && (limit == cap || limit == most)
      ensures var h := Heap(SizesOf(old(profile.allocMap.Contents)), Capped(cap, old(maxHeapObjectSize)), align, word);
              h.Ok() && h.Reachable(LiveIn(old(profile.allocMap.Contents)), roots, live)
      ensures var c, d := old(profile.allocMap.Contents), leaks.entries;
              && (forall p :: p in d <==> p in c && p !in live && !(base.From? && p in base.snapshot.entries)) && forall p :: p in d ==> d[p] == c[p]
      ensures leaks.Tallied()
      ensures forall p :: p in leaks.entries ==> !leaks.entries[p].Ignored()
    {
      hide Bounded, Sized, HeapProfileTable.Valid, Heap.RootsOk, Heap.Ok, Heap.Reachable, WithIgnored, LiveIn, Marked, SizesOf, Snapshot.Tallied,
           Balanced, Capped;
      ghost var c := profile.allocMap.Contents;
      var oldMax := maxHeapObjectSize;
      maxHeapObjectSize := Capped(cap, maxHeapObjectSize);
      SameRoots(old(TheHeap(align, word)), TheHeap(align, word), liveObjects);
      roots := IgnoreDisabledObjects(align, word);
      live := LiveIn(profile.allocMap.Contents);
      ghost var marked := profile.allocMap.Contents;
      leaks := profile.NonLiveSnapshot(base);
      maxHeapObjectSize := oldMax;
      LeaksAre(c, marked, live, base, leaks.entries);
      UnmarkedSizes(marked, profile.allocMap.Contents);
      MarkedIs(c, live);
      NoneIgnored(Heap(SizesOf(c), Capped(cap, oldMax), align, word), c, LiveIn(c), old(liveObjects), roots, live, leaks.entries, base);
    }
  }

  /** Every word scanned in `o` that points inside the object at `p` is more than the limit, and
      a block, behind its start. */
  ghost predicate OnlyDeep(v: Heap, o: AllocObject, p: Number)
    requires p in v.h && v.align > 0
  {
    forall x :: Scans(o, v.align, x) && Inside(p, v.h[p], v.word(x)) ==> v.word(x) - p >= v.limit + BLOCK_SIZE
  }

  lemma DeepMisses(v: Heap, o: AllocObject, p: Number)
    requires p in v.h && v.align > 0 && OnlyDeep(v, o, p)
    ensures v.Misses(o, {p})
  {
    forall x, q | Scans(o, v.align, x) && q in {p} ensures !PointsTo(v.h, v.limit, v.word(x), q) {
      if Inside(p, v.h[p], v.word(x)) { InnerPointer(v.h, v.limit, v.word(x), p); }
    }
  }

  /** What becomes of an object that is not live and that roots and other objects point to at most
      beyond the limit. */
  lemma Forgotten(v: Heap, c: Contents, before: seq<AllocObject>, roots: seq<AllocObject>, live: set<Number>, p: Number)
    requires v.Ok() && v.h == SizesOf(c) && v.Reachable(LiveIn(c), roots, live) && WithIgnored(c, before, roots)
    requires p in c && !c[p].Live()
    requires forall o :: o in before ==> OnlyDeep(v, o, p) && !(o.place.MustBeOnHeap? && o.p == p)
    requires forall q :: q in c && q != p ==> OnlyDeep(v, v.AsObject(q), p)
    ensures p in live <==> c[p].Ignored()
  {
    hide Heap.Reachable, OnlyDeep;
    forall q | q in v.h && q !in {p} ensures v.Misses(v.AsObject(q), {p}) { DeepMisses(v, v.AsObject(q), p); }
    if c[p].Ignored() {
      assert IsIgnored(c, RootOf(p, c[p]));
      RootMarked(v, LiveIn(c), roots, live, RootOf(p, c[p]));
    } else {
      forall i | 0 <= i < |roots|
        ensures v.Misses(roots[i], {p}) && (roots[i].place.MustBeOnHeap? && roots[i].p in v.h ==> roots[i].p !in {p})
      {
        var o := roots[i];
        assert o in roots;
        if o in before {
          DeepMisses(v, o, p);
        } else {
          SameWords(v, o, v.AsObject(o.p), {p});
        }
      }
      v.Unreached(LiveIn(c), roots, live, {p});
    }
  }

  lemma RootMarked(v: Heap, was: set<Number>, roots: seq<AllocObject>, live: set<Number>, o: AllocObject)
    requires v.Ok() && v.Reachable(was, roots, live) && o in roots && o.place.MustBeOnHeap? && o.p in v.h
    ensures o.p in live
  {
  }

  lemma SameWords(v: Heap, o: AllocObject, q: AllocObject, d: set<Number>)
    requires v.align > 0 && v.Misses(q, d) && q.p == o.p && q.size == o.size
    ensures v.Misses(o, d)
  {
    assert forall x :: Scans(o, v.align, x) ==> Scans(q, v.align, x);
  }

  /** An allocation, then a leak check: an object that roots and other objects point to at most
      beyond the limit is among the leaks, unless it was recorded as to be ignored. */
  method AllocThenCheck(t: HeapLeakChecker, p: Number, size: nat, stack: Stack, ignore: bool, cap: int, align: nat, word: LeakMarking.Memory, base: Base)
    returns (leaks: Snapshot, ghost v: Heap)
    requires t.Valid() && p != 0 && p + size < ADDRESS_SPACE && align > 0 && (base.From? ==> p !in base.snapshot.entries)
    requires p !in t.profile.allocMap.Contents && Apart(SizesOf(t.profile.allocMap.Contents)[p := size])
    requires Heap(SizesOf(t.profile.allocMap.Contents)[p := size], 0, align, word).RootsOk(t.liveObjects)
    modifies t, t.profile, t.profile.allocMap
    ensures v.h == old(SizesOf(t.profile.allocMap.Contents))[p := size] && v.align == align && v.word == word
    ensures var most := if size < old(t.maxHeapObjectSize) then old(t.maxHeapObjectSize) else size;
            if cap < 0 then v.limit == most else v.limit <= cap && v.limit <= most && (v.limit == cap || v.limit == most)
    ensures (forall o :: o in old(t.liveObjects) ==> OnlyDeep(v, o, p) && !(o.place.MustBeOnHeap? && o.p == p))
            && (forall q :: q in v.h && q != p ==> OnlyDeep(v, v.AsObject(q), p))
            ==> (p in leaks.entries <==> !ignore)
  {
    hide Bounded, Sized, HeapProfileTable.Valid, Heap.RootsOk, Heap.Reachable, WithIgnored, LiveIn, Snapshot.Tallied, OnlyDeep, Apart, Represents, Capped;
    var before := t.liveObjects;
    t.NewHook(p, size, stack, ignore, true);
    ghost var c := t.profile.allocMap.Contents;
    v := Heap(SizesOf(c), Capped(cap, t.maxHeapObjectSize), align, word);
    SameRoots(Heap(SizesOf(c), 0, align, word), t.TheHeap(align, word), before);
    ghost var roots, live;
    leaks, roots, live := t.LeakCheck(cap, align, word, base);
    if (forall o :: o in before ==> OnlyDeep(v, o, p) && !(o.place.MustBeOnHeap? && o.p == p))
       && (forall q :: q in v.h && q != p ==> OnlyDeep(v, v.AsObject(q), p)) {
      Forgotten(v, c, before, roots, live, p);
    }
  }

  lemma SameRoots(v: Heap, w: Heap, roots: seq<AllocObject>)
    requires w == v.(limit := w.limit)
    ensures v.Ok() ==> w.Ok()
    ensures v.RootsOk(roots) ==> w.RootsOk(roots)
  {
  }

  lemma UnmarkedSizes(c: Contents, d: Contents)
    requires d == map p | p in c :: c[p].SetLive(false)
    ensures SizesOf(d) == SizesOf(c)
  {
  }

  lemma LeaksAre(c: Contents, marked: Contents, live: set<Number>, base: Base, entries: Contents)
    requires marked == Marked(c, live) && live == LiveIn(marked)
    requires forall p :: p in entries <==> p in marked && !marked[p].Live() && !InBase(base, p)
    requires forall p :: p in entries ==> entries[p] == marked[p]
    ensures entries == map p | p in c && p !in live && !InBase(base, p) :: c[p]
  {
    MarkedIs(c, live);
  }

  lemma NoneIgnored(v: Heap, c: Contents, was: set<Number>, before: seq<AllocObject>, roots: seq<AllocObject>, live: set<Number>, entries: Contents, base: Base)
    requires v.Ok() && v.h == SizesOf(c) && v.Reachable(was, roots, live)
    requires WithIgnored(c, before, roots)
    requires entries == map p | p in c && p !in live && !InBase(base, p) :: c[p]
    ensures forall p :: p in entries ==> !entries[p].Ignored()
  {
    forall p | p in c && c[p].Ignored() ensures p in live {
      assert IsIgnored(c, RootOf(p, c[p]));
      var i :| 0 <= i < |roots| && roots[i] == RootOf(p, c[p]);
      assert roots[i].place.MustBeOnHeap? && roots[i].p in v.h;
    }
  }
}
