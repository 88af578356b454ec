/** The code that runs under the lock of one central free list, on memory. */
module CentralFreeLists {
  import opened CentralChains
  import opened CentralClients
  import opened CentralLists
  import opened CentralReturns
  import opened CentralStores
  import opened CentralSupply
  import opened CentralThreads
  import opened Collections
  import opened Lists

  /** Whether a list gives up a cache slot. */
  predicate Shrinks(l: FreeList, force: bool) {
    l.cacheSize > 0 && (force || |l.slots| < l.cacheSize)
  }

  /** The cache is full but may grow. */
  predicate MayGrow(l: FreeList) { l.cacheSize <= |l.slots| && l.cacheSize < l.maxCache }

  /** Whether the cache has a free slot, or gets one by an eviction elsewhere. */
  predicate HasRoom(l: FreeList, evicted: bool) {
    |l.slots| < l.cacheSize || (MayGrow(l) && evicted)
  }

  function Spaced(l: FreeList, evicted: bool): FreeList {
    if MayGrow(l) && evicted then Resized(l, 1) else l
  }

  /** The list that an insertion leaves: the chain in a cache slot, or returned to its spans. */
  ghost function Inserted(l: FreeList, os: seq<Ptr>, evicted: bool, pm: PageMap, pageSize: nat, k: Class): (FreeList, seq<Span>)
    requires pageSize > 0 && Releasable(l, os, pm, pageSize, k)
  {
    if |os| == k.move && HasRoom(l, evicted) then (PutSlot(Spaced(l, evicted), os), []) else ReleaseAll(l, os, pm, pageSize, k)
  }

  class CentralFreeList {
    const cfg: Config
    const cl: nat
    var words: Words                            // memory
    var pagemap: PageMap                        // the spans of this list, by page
    var spans: map<Span, SpanDesc>
    var nonempty: seq<Span>
    var empty: seq<Span>
    var counter: int
    var numSpans: int
    const tcSlots: array<TCEntry>
    var usedSlots: nat
    var cacheSize: int
    var maxCache: int

    ghost var list: FreeList
    ghost var home: map<Ptr, Place>

    ghost function TheStore(): Store
      reads this, tcSlots
    {
      Store(words, spans, tcSlots[..], pagemap, list, home)
    }

    /** The fields are those of the list. */
    ghost predicate Fields()
      reads this
    {
      && nonempty == list.nonempty && empty == list.empty && counter == list.counter && numSpans == list.numSpans
      && usedSlots == |list.slots| && cacheSize == list.cacheSize && maxCache == list.maxCache
      && usedSlots <= cacheSize <= maxCache <= tcSlots.Length
    }

    ghost predicate Valid()
      reads this, tcSlots
    {
      cfg.Ok() && cl < |cfg.classes| && Sound(cfg, cl, TheStore()) && Fields()
    }

    /** An object of one of the list's spans. */
    ghost predicate Owns(o: Ptr)
      requires cfg.Ok() && cl < |cfg.classes|
      reads this
    {
      Owned(cfg, cl, pagemap, o)
    }

    /** An empty list. Its cache may hold the most transfers, up to 64, that fit one megabyte, and at
        least one; it starts with at most 16. */
    constructor (cfg: Config, cl: nat)
      requires cfg.Ok() && cl < |cfg.classes|
      ensures Valid() && this.cfg == cfg && this.cl == cl && fresh(tcSlots)
      ensures list == InitialList(cl, cfg) && home == map[] && pagemap == map[] && words == map[]
      ensures nonempty == empty == [] && counter == numSpans == usedSlots == 0 && spans == map[]
      ensures 1 <= maxCache <= MAX_TRANSFER_ENTRIES && (cl == 0 ==> maxCache == MAX_TRANSFER_ENTRIES)
      ensures var bytes := cfg.classes[cl].size * cfg.classes[cl].move;
              && (cl > 0 && maxCache > 1 ==> maxCache * bytes <= 1048576)
              && (cl > 0 && maxCache < MAX_TRANSFER_ENTRIES ==> (maxCache + 1) * bytes > 1048576)
      ensures cacheSize <= 16 && cacheSize <= maxCache && (cacheSize == 16 || cacheSize == maxCache)
    {
      hide MaxCache, Sound, Config.Capacity, Config.ClassOf;
      MostTransfers(cl, cfg);
      this.cfg, this.cl := cfg, cl;
      words, pagemap, spans, nonempty, empty, counter, numSpans := map[], map[], map[], [], [], 0, 0;
      tcSlots := new TCEntry[MAX_TRANSFER_ENTRIES](i => TCEntry(NULL, NULL));
      usedSlots := 0;
      var most := MaxCache(cl, cfg);
      maxCache := most;
      cacheSize := if most < 16 then most else 16;
      list := InitialList(cl, cfg);
      home := map[];
      new;
      EmptySound(cfg, cl, tcSlots[..], list);
    }

    /** The fields have become those of `u`. */
    ghost method Adopt(u: Store)
      requires words == u.words && pagemap == u.pm && spans == u.spans && tcSlots[..] == u.slots
      requires nonempty == u.l.nonempty && empty == u.l.empty && counter == u.l.counter && numSpans == u.l.numSpans
      requires usedSlots == |u.l.slots| && cacheSize == u.l.cacheSize && maxCache == u.l.maxCache && usedSlots <= cacheSize <= maxCache <= tcSlots.Length
      modifies this`list, this`home
      ensures TheStore() == u && Fields()
    {
      list, home := u.l, u.home;
    }

    /** Takes the first free object of the first span that has one; null if none has. */
    method FetchFromSpans() returns (o: Ptr)
      requires Valid()
      modifies this`spans, this`nonempty, this`empty, this`counter, this`list, this`home
      ensures Valid()
      ensures !CanFetch(old(list)) ==> o == NULL && TheStore() == old(TheStore())
      ensures CanFetch(old(list)) ==>
                && Fetchable(old(list)) && FetchSpan(old(list)) in old(spans) && Fetched(old(list)) in words
                && o == Fetched(old(list)) != NULL && TheStore() == AfterFetch(old(TheStore()))
    {
      hide Sound, AfterFetch, Fetch, Fetched, FetchSpan, Config.Ok;
      if |nonempty| == 0 {
        return NULL;
      }
      FetchedFields(cfg, cl, TheStore());
      ghost var u := AfterFetch(TheStore());
      var sp := nonempty[0];
      o := spans[sp].objects;
      var next := words[o];
      spans := spans[sp := SpanDesc(next, spans[sp].refcount + 1)];
      if next == NULL {
        nonempty, empty := nonempty[1..], [sp] + empty;
      }
      counter := counter - 1;
      Adopt(u);
    }

    /** Returns an object to its span; true if the span has no object in use any more and goes
        back to the page heap. */
    method ReleaseToSpans(o: Ptr) returns (deleted: bool)
      requires Valid() && Owns(o) && o !in home
      modifies this`words, this`pagemap, this`spans, this`nonempty, this`empty, this`counter, this`numSpans, this`list, this`home
      ensures Valid()
      ensures var sp := OwnSpan(old(pagemap), cfg.pageSize, o);
              && sp in old(list).spans && old(list).spans[sp].refcount > 0 && sp in old(spans) && old(spans)[sp].refcount > 0
              && deleted == Frees(old(list), sp) && TheStore() == AfterReturn(cfg, cl, old(TheStore()), o)
      ensures ClientsKept(cfg, cl, old(TheStore()), TheStore(), {o})
    {
      hide Sound, ClientsKept, Release, Without, Rest, OwnSpan, Owned, WithoutSpan, AfterReturn, Config.Capacity, Config.Ok;
      ghost var s := TheStore();
      cfg.Positive(cl);
      ReturnStep(cfg, cl, s, o);
      ghost var u := AfterReturn(cfg, cl, s, o);
      var sp := pagemap[o / cfg.pageSize];
      deleted := spans[sp].refcount == 1;
      TouchSpan(sp);
      if deleted {
        DropSpan(sp);
      } else {
        PrependObject(o, sp);
      }
      Adopt(u);
    }

    /** A span that gets its first free object moves to the front of `nonempty`; one object more
        is counted. */
    method TouchSpan(sp: Span)
      requires sp in spans
      modifies this`nonempty, this`empty, this`counter
      ensures counter == old(counter) + 1
      ensures empty == if spans[sp].objects == NULL then Without(old(empty), sp) else old(empty)
      ensures nonempty == if spans[sp].objects == NULL then [sp] + old(nonempty) else old(nonempty)
    {
      hide Without;
      if spans[sp].objects == NULL {
        empty, nonempty := Without(empty, sp), [sp] + nonempty;
      }
      counter := counter + 1;
    }

    /** A span without objects in use goes back to the page heap. */
    method DropSpan(sp: Span)
      requires cl < |cfg.classes| && cfg.classes[cl].size > 0
      modifies this`counter, this`nonempty, this`numSpans, this`spans, this`pagemap
      ensures counter == old(counter) - cfg.Capacity(cl) && nonempty == Without(old(nonempty), sp) && numSpans == old(numSpans) - 1
      ensures spans == old(spans) - {sp} && pagemap == WithoutSpan(old(pagemap), sp)
    {
      hide Without;
      counter := counter - cfg.SpanBytes(cl) / cfg.classes[cl].size;
      nonempty := Without(nonempty, sp);
      numSpans := numSpans - 1;
      spans := spans - {sp};
      pagemap := WithoutSpan(pagemap, sp);
    }

    /** Links an object in front of the free objects of its span, and counts it. */
    method PrependObject(o: Ptr, sp: Span)
      requires sp in spans && spans[sp].refcount > 0
      modifies this`words, this`spans
      ensures var d := old(spans)[sp]; words == old(words)[o := d.objects] && spans == old(spans)[sp := SpanDesc(o, d.refcount - 1)]
    {
      var d := spans[sp];
      words := words[o := d.objects];
      spans := spans[sp := SpanDesc(o, d.refcount - 1)];
    }

    /** Writes the link of an object that is on no list. */
    method SetNext(o: Ptr, v: Ptr)
      requires Valid() && o !in home
      modifies this`words
      ensures Valid() && words == old(words)[o := v]
    {
      hide Sound;
      WriteSound(cfg, cl, TheStore(), o, v);
      words := words[o := v];
    }

    /** Puts a full transfer into the next cache slot. */
    method PushSlot(start: Ptr, end: Ptr, ghost os: seq<Ptr>)
      requires Valid() && SlotRep(words, TCEntry(start, end), os) && NoDup(os) && |os| == cfg.classes[cl].move && usedSlots < cacheSize
      requires forall o :: o in os ==> o !in home && Owns(o)
      modifies this`usedSlots, this`list, this`home, tcSlots
      ensures Valid() && list == PutSlot(old(list), os) && home == Housed(old(home), os, InSlot(0, old(usedSlots)))
      ensures tcSlots[..] == old(tcSlots[..])[old(usedSlots) := TCEntry(start, end)]
    {
      hide Sound, SlotRep, NoDup, Housed, Owned;
      ghost var es := tcSlots[..];
      PutSound(cfg, cl, TheStore(), TCEntry(start, end), os);
      tcSlots[usedSlots] := TCEntry(start, end);
      assert tcSlots[..] == es[usedSlots := TCEntry(start, end)];
      list, home := PutSlot(list, os), Housed(home, os, InSlot(0, usedSlots));
      usedSlots := usedSlots + 1;
    }

    /** Takes the chain of the last cache slot in use. */
    method PopSlot() returns (start: Ptr, end: Ptr, ghost os: seq<Ptr>)
      requires Valid() && usedSlots > 0
      modifies this`usedSlots, this`list, this`home
      ensures Valid() && old(|list.slots|) > 0 && os == old(list).slots[old(|list.slots|) - 1] && list == TakeSlot(old(list))
      ensures SlotRep(words, TCEntry(start, end), os) && NoDup(os) && |os| == cfg.classes[cl].move && home == Unhoused(old(home), os)
      ensures forall o :: o in os ==> o in old(home) && Owns(o)
    {
      hide Sound, SlotRep, NoDup, Unhoused, Owned;
      TakeSound(cfg, cl, TheStore());
      usedSlots := usedSlots - 1;
      start, end := tcSlots[usedSlots].head, tcSlots[usedSlots].tail;
      os := list.slots[usedSlots];
      list, home := TakeSlot(list), Unhoused(home, os);
    }

    /** Splits the bytes of a span into linked objects. */
    static method Carve(words0: Words, first: Ptr, bytes: nat, size: nat) returns (words: Words, head: Ptr, num: nat, ghost os: seq<Ptr>)
      requires size > 0 && first > 0
      ensures num == bytes / size
      ensures |os| == num && (forall i :: 0 <= i < |os| ==> os[i] == ObjectFrom(first, size, i)) && NoDup(os)
      ensures if |os| == 0 then bytes < size else os[0] == first && os[|os| - 1] + size <= first + bytes < os[|os| - 1] + 2 * size
      ensures forall i :: 0 <= i < |os| - 1 ==> os[i + 1] == os[i] + size
      ensures Chain(words, head, os) && forall x :: x in words0 && x !in os ==> x in words && words[x] == words0[x]
    {
      hide Chain, ObjectFrom;
      var tail := NULL;                         // null stands for the head pointer itself
      var ptr, limit := first, first + bytes;
      words, head, num, os := words0, NULL, 0, [];
      FirstObject(first, size);
      while ptr + size <= limit
        invariant num == |os| && ptr == ObjectFrom(first, size, num) <= limit && Carved(words0, words, os, first, size)
        invariant if num == 0 then tail == NULL else tail == os[num - 1] && tail != NULL && head == os[0]
        decreases limit - ptr
      {
        CarveStep(words0, words, os, first, size, ptr);
        if tail == NULL { head := ptr; } else { words := words[tail := ptr]; }
        tail := ptr;
        os := os + [ptr];
        ptr := ptr + size;
        num := num + 1;
      }
      CarveEnd(words0, words, os, first, size);
      if tail == NULL { head := NULL; } else { words := words[tail := NULL]; }
      CarvedAll(first, bytes, size, num);
      CarvedApart(os, first, bytes, size);
    }

    /** The objects of a new span, linked. */
    method CarveSpan(sp: Span) returns (carved: Words, head: Ptr, num: nat)
      requires cfg.Ok() && cl < |cfg.classes| && sp > 0
      ensures num == cfg.Capacity(cl) && Chain(carved, head, cfg.ObjectsOf(sp, cl))
      ensures forall x :: x in words && x !in cfg.ObjectsOf(sp, cl) ==> x in carved && carved[x] == words[x]
    {
      hide Chain, NoDup, Config.ObjectsOf, ObjectFrom;
      PositiveProduct(sp, cfg.pageSize);
      ghost var os;
      carved, head, num, os := Carve(words, sp * cfg.pageSize, cfg.SpanBytes(cl), cfg.classes[cl].size);
      CarvedObjects(cfg, sp, cl, os);
    }

    /** Carves the span that the page heap gives and adds it to the list. */
    method Populate(page: Option<Span>)
      requires Valid() && (page.Some? ==> FreshPages(cfg, cl, pagemap, page.value))
      modifies this`words, this`pagemap, this`spans, this`nonempty, this`counter, this`numSpans, this`list, this`home
      ensures Valid() && (page.None? ==> TheStore() == old(TheStore()))
      ensures page.Some? ==>
                && list == Add(old(list), page.value, cfg.ObjectsOf(page.value, cl))
                && home == Housed(old(home), cfg.ObjectsOf(page.value, cl), InSpan(page.value))
                && pagemap == old(pagemap) + PageEntries(page.value, cfg.classes[cl].pages, page.value)
      ensures forall o :: o in home ==> o in old(home) || !old(Owns(o))
      ensures ClientsKept(cfg, cl, old(TheStore()), TheStore(), {})
    {
      hide Sound, ClientsKept, Housed, PageEntries, Chain, Config.ObjectsOf, Config.Capacity, AfterAdd, Add, FreshPages, Owned, OwnSpan, Config.Ok;
      KeptSame(cfg, cl, TheStore(), {});
      if page.None? {
        return;
      }
      var sp := page.value;
      FreshFirst(cfg, cl, pagemap, sp);
      cfg.Positive(cl);
      ghost var s := TheStore();
      var carved, head, num := CarveSpan(sp);
      AddStep(cfg, cl, s, sp, carved, head);
      ghost var u := AfterAdd(cfg, cl, s.(words := carved), sp, head);
      words := carved;
      spans := spans[sp := SpanDesc(head, 0)];
      pagemap := pagemap + PageEntries(sp, cfg.classes[cl].pages, sp);
      nonempty := [sp] + nonempty;
      numSpans := numSpans + 1;
      counter := counter + num;
      Adopt(u);
    }

    /** Fetches objects until there are `n` or none is left, each to the front of the chain. */
    method FetchMore(n: nat, start: Ptr, ghost os0: seq<Ptr>) returns (result: nat, head: Ptr, ghost os: seq<Ptr>)
      requires Valid() && |os0| == 1 <= n && Chain(words, start, os0) && forall o :: o in os0 ==> o !in home && Owns(o)
      modifies this`words, this`spans, this`nonempty, this`empty, this`counter, this`list, this`home
      ensures Valid() && (list, os) == FetchUpTo(old(list), n, os0) && result == |os| && Chain(words, head, os)
      ensures NoDup(os) && (forall o :: o in os ==> o !in home && Owns(o)) && |os| >= 1 && os[|os| - 1] == os0[0]
      ensures forall o :: o in os ==> o in os0 || o in old(home)
      ensures ClientsKept(cfg, cl, old(TheStore()), TheStore(), Objects(os0)) && home.Keys <= old(home.Keys)
    {
      hide Sound, ClientsKept, Owned, FetchUpTo, Chain, NoDup;
      result, head, os := 1, start, os0;
      OneNoDup(os0);
      KeptSame(cfg, cl, TheStore(), Objects(os0));
      while result < n
        invariant Valid() && result == |os| && 1 <= |os| <= n && Chain(words, head, os) && NoDup(os) && os[|os| - 1] == os0[0]
        invariant forall o :: o in os ==> o !in home && Owns(o)
        invariant FetchUpTo(list, n, os) == FetchUpTo(old(list), n, os0) && forall o :: o in os ==> o in os0 || o in old(home)
        invariant ClientsKept(cfg, cl, old(TheStore()), TheStore(), Objects(os0)) && home.Keys <= old(home.Keys)
        decreases n - result
      {
        var more;
        ghost var found := os;
        more, head, os := FetchNext(n, head, os, old(TheStore()), Objects(os0));
        assert more ==> os == [os[0]] + found;
        if !more {
          break;
        }
        result := result + 1;
      }
      NothingMore(list, n, os);
    }

    /** The body of that loop; false if no object is left. */
    method FetchNext(n: nat, head: Ptr, ghost os: seq<Ptr>, ghost s: Store, ghost taken: set<Ptr>)
      returns (more: bool, head': Ptr, ghost os': seq<Ptr>)
      requires Valid() && 1 <= |os| < n && Chain(words, head, os) && NoDup(os) && forall o :: o in os ==> o !in home && Owns(o)
      requires ClientsKept(cfg, cl, s, TheStore(), taken)
      modifies this`words, this`spans, this`nonempty, this`empty, this`counter, this`list, this`home
      ensures Valid() && Chain(words, head', os') && NoDup(os') && (forall o :: o in os' ==> o !in home && Owns(o))
      ensures FetchUpTo(list, n, os') == FetchUpTo(old(list), n, os) && ClientsKept(cfg, cl, s, TheStore(), taken) && home.Keys <= old(home.Keys)
      ensures if more then |os'| == |os| + 1 && os'[1..] == os && os'[0] in old(home) else os' == os && !CanFetch(list)
    {
      hide Sound, ClientsKept, Owned, FetchUpTo, Chain, NoDup, Fetched, Fetch, AfterFetch;
      ghost var before := TheStore();
      head', os' := head, os;
      if CanFetch(list) {
        FetchStep(cfg, cl, s, taken, before, n, head, os);
      }
      var t := FetchFromSpans();
      more := t != NULL;
      if more {
        SetNext(t, head);
        head', os' := t, [t] + os;
      }
    }

    /** Removes up to `n` objects; `page` is what the page heap would give. The chain runs from
        `start` to `end` and to null, and its objects are the caller's from then on; what other
        callers hold is untouched. If a full transfer is wanted and one is cached, that is the
        chain. Otherwise it has `n` objects or all that are free; and if none is free, the span
        from the page heap is added and the chain is of its objects. */
    method RemoveRange(n: nat, page: Option<Span>) returns (result: nat, start: Ptr, end: Ptr, ghost os: seq<Ptr>)
      requires Valid() && n > 0 && (page.Some? ==> FreshPages(cfg, cl, pagemap, page.value))
      modifies this`words, this`pagemap, this`spans, this`nonempty, this`empty, this`counter, this`numSpans, this`usedSlots, this`list, this`home
      ensures Valid()
      ensures (list, os) == Removal(old(list), n, cfg.ClassOf(cl), page, if page.Some? then cfg.ObjectsOf(page.value, cl) else [])
      ensures result == |os| <= n && Chain(words, start, os) && NoDup(os) && forall o :: o in os ==> o !in home && Owns(o)
      ensures if result == 0 then start == end == NULL else end == os[|os| - 1]
      ensures forall o :: o in os ==> o in old(home) || !old(Owns(o))
      ensures ClientsKept(cfg, cl, old(TheStore()), TheStore(), {})
      ensures old(counter) >= 0 && (|old(nonempty)| > 0 <==> old(counter) > 0)
      ensures n == cfg.classes[cl].move && old(usedSlots) > 0 ==>
                && result == n && usedSlots == old(usedSlots) - 1 && counter == old(counter) && numSpans == old(numSpans)
                && old(usedSlots) == old(|list.slots|) && os == old(list.slots)[usedSlots] && pagemap == old(pagemap)
      ensures !(n == cfg.classes[cl].move && old(usedSlots) > 0) ==>
                var added := old(counter) == 0 && page.Some?;
                var stock := if added then cfg.Capacity(cl) else old(counter);
                && result == (if stock < n then stock else n) && counter == stock - result && usedSlots == old(usedSlots)
                && (!added ==> numSpans == old(numSpans) && pagemap == old(pagemap))
                && (added ==>
                      && numSpans == old(numSpans) + 1 && pagemap == old(pagemap) + PageEntries(page.value, cfg.classes[cl].pages, page.value)
                      && forall o :: o in os ==> o in cfg.ObjectsOf(page.value, cl))
    {
      hide Sound, ClientsKept, Owned, FetchUpTo, Chain, NoDup, Housed, Unhoused, PageEntries, FreshPages, Config.ObjectsOf, Config.Capacity;
      StoreRemovalIs(cfg, cl, TheStore(), n, page);
      ghost var s := TheStore();
      KeptSame(cfg, cl, s, {});
      if n == cfg.classes[cl].move && usedSlots > 0 {
        start, end, os := PopSlot();
        result := n;
        UnhousedGone(s.home, os);
        UnhousedKeys(s.home, os);
        TakenKept(cfg, cl, s, TheStore());
        SlotChain(words, TCEntry(start, end), os);
        return;
      }
      if |nonempty| == 0 {
        Populate(page);
      }
      ghost var m := TheStore();
      result, start, end, os := FetchRange(n);
      KeptThen(cfg, cl, s, m, TheStore(), {}, {});
    }

    /** Fetches up to `n` objects from the spans. */
    method FetchRange(n: nat) returns (result: nat, start: Ptr, end: Ptr, ghost os: seq<Ptr>)
      requires Valid() && n > 0
      modifies this`words, this`spans, this`nonempty, this`empty, this`counter, this`list, this`home
      ensures Valid() && (list, os) == FetchUpTo(old(list), n, [])
      ensures result == |os| <= n && Chain(words, start, os) && NoDup(os) && forall o :: o in os ==> o !in home && Owns(o)
      ensures if result == 0 then start == end == NULL else end == os[|os| - 1]
      ensures forall o :: o in os ==> o in old(home)
      ensures ClientsKept(cfg, cl, old(TheStore()), TheStore(), {})
    {
      hide Sound, ClientsKept, Owned, FetchUpTo, Chain, NoDup, Fetch, Fetched, AfterFetch;
      ghost var m := TheStore();
      KeptSame(cfg, cl, m, {});
      if CanFetch(list) {
        FirstStep(cfg, cl, m, n);
      }
      end := FetchFromSpans();
      if end == NULL {
        result, start, os := 0, NULL, [];
        NothingMore(list, n, []);
        EmptyNoDup<Ptr>();
        NoChain(words);
        return;
      }
      SetNext(end, NULL);
      OneChain(words, end);
      ghost var t := TheStore();
      result, start, os := FetchMore(n, end, [end]);
      KeptThen(cfg, cl, m, t, TheStore(), {}, Objects([end]));
    }

    /** Returns every object of a chain to its span; the result lists the spans that went back
        to the page heap. */
    method ReleaseListToSpans(start: Ptr, ghost os: seq<Ptr>) returns (ghost gone: seq<Span>)
      requires Valid() && Chain(words, start, os) && NoDup(os) && (forall o :: o in os ==> o !in home && Owns(o))
      modifies this`words, this`pagemap, this`spans, this`nonempty, this`empty, this`counter, this`numSpans, this`list, this`home
      ensures Valid() && Releasable(old(list), os, old(pagemap), cfg.pageSize, cfg.ClassOf(cl))
      ensures (list, gone) == ReleaseAll(old(list), os, old(pagemap), cfg.pageSize, cfg.ClassOf(cl))
      ensures counter == old(counter) + |os| - cfg.Capacity(cl) * |gone| && numSpans == old(numSpans) - |gone|
      ensures list.slots == old(list.slots)
      ensures ClientsKept(cfg, cl, old(TheStore()), TheStore(), Objects(os))
    {
      ghost var s, k := TheStore(), cfg.ClassOf(cl);
      ChainReleasable(cfg, cl, s, os);
      KeptSame(cfg, cl, s, Objects(os));
      GoneFirst(list, os, pagemap, cfg.pageSize, k);
      hide Sound, ClientsKept, Owned, Chain, NoDup, ReleaseAll, Releasable, Release, OwnSpan, AfterReturn, GoneSoFar;
      var at := start;
      ghost var rest := os;
      gone := [];
      while at != NULL
        invariant Valid() && Chain(words, at, rest) && NoDup(rest) && (forall o :: o in rest ==> o in os && o !in home && Owns(o))
        invariant forall o :: o in rest ==> OwnSpan(pagemap, cfg.pageSize, o) == OwnSpan(s.pm, cfg.pageSize, o)
        invariant ClientsKept(cfg, cl, s, TheStore(), Objects(os)) && GoneSoFar(list, rest, gone, s.l, os, s.pm, cfg.pageSize, k)
        decreases |rest|
      {
        ChainHead(words, at, rest);
        ghost var t := TheStore();
        ghost var sp := OwnSpan(pagemap, cfg.pageSize, at);
        assert at in rest;
        GoneNext(list, rest, gone, s.l, os, s.pm, cfg.pageSize, k);
        var next := words[at];
        var deleted := ReleaseToSpans(at);
        ReturnedList(cfg, cl, t, at);
        RestKept(cfg, cl, s, t, TheStore(), os, rest);
        gone := gone + if deleted then [sp] else [];
        at, rest := next, rest[1..];
      }
      ChainHead(words, at, rest);
      GoneAll(list, rest, gone, s.l, os, s.pm, cfg.pageSize, k);
      ReleaseAllCounts(s.l, os, s.pm, cfg.pageSize, k);
    }

    /** Gives up a cache slot for another class: an unused one, or with force the last one in
        use, whose chain goes back to its spans. */
    method ShrinkCache(force: bool) returns (shrunk: bool, ghost gone: seq<Span>)
      requires Valid()
      modifies this`words, this`pagemap, this`spans, this`nonempty, this`empty, this`counter, this`numSpans, this`usedSlots, this`cacheSize,
               this`list, this`home
      ensures Valid() && shrunk == Shrinks(old(list), force)
      ensures shrunk == (old(cacheSize) > 0 && (force || old(usedSlots) < old(cacheSize)))
      ensures !shrunk ==> TheStore() == old(TheStore()) && gone == []
      ensures shrunk ==> ShrunkTo(old(TheStore()), list, gone) && cacheSize == old(cacheSize) - 1
      ensures shrunk && old(usedSlots) < old(cacheSize) ==> TheStore() == old(TheStore()).(l := old(list).(cacheSize := cacheSize)) && gone == []
      ensures shrunk && old(usedSlots) == old(cacheSize) ==>
                && usedSlots == old(usedSlots) - 1 && numSpans == old(numSpans) - |gone|
                && counter == old(counter) + cfg.classes[cl].move - cfg.Capacity(cl) * |gone|
      ensures ClientsKept(cfg, cl, old(TheStore()), TheStore(), {})
    {
      ghost var s := TheStore();
      KeptSame(cfg, cl, s, {});
      shrunk, gone := false, [];
      if cacheSize == 0 || (usedSlots == cacheSize && !force) {
        return;
      }
      shrunk := true;
      if usedSlots == cacheSize {
        gone := EvictLast();
      } else {
        Resize(-1);
      }
    }

    /** The list without one cache slot: an unused one, or the last one, with its chain returned. */
    ghost predicate ShrunkTo(s: Store, m: FreeList, gone: seq<Span>)
      requires cfg.Ok() && cl < |cfg.classes|
    {
      var l := Resized(s.l, -1);
      if |s.l.slots| < s.l.cacheSize then (m, gone) == (l, [])
      else
        && |l.slots| > 0
        && var os := l.slots[|l.slots| - 1];
           && Releasable(TakeSlot(l), os, s.pm, cfg.pageSize, cfg.ClassOf(cl))
           && (m, gone) == ReleaseAll(TakeSlot(l), os, s.pm, cfg.pageSize, cfg.ClassOf(cl))
    }

    method Resize(d: int)
      requires Valid() && usedSlots <= cacheSize + d <= maxCache
      modifies this`cacheSize, this`list
      ensures Valid() && TheStore() == old(TheStore()).(l := Resized(old(list), d))
    {
      hide Sound;
      ResizeSound(cfg, cl, TheStore(), d);
      cacheSize := cacheSize + d;
      list := Resized(list, d);
    }

    /** Gives up the last cache slot, with its chain. */
    method EvictLast() returns (ghost gone: seq<Span>)
      requires Valid() && usedSlots == cacheSize > 0
      modifies this`words, this`pagemap, this`spans, this`nonempty, this`empty, this`counter, this`numSpans, this`usedSlots, this`cacheSize,
               this`list, this`home
      ensures Valid() && ShrunkTo(old(TheStore()), list, gone) && ClientsKept(cfg, cl, old(TheStore()), TheStore(), {})
      ensures cacheSize == old(cacheSize) - 1 && usedSlots == old(usedSlots) - 1 && numSpans == old(numSpans) - |gone|
      ensures counter == old(counter) + cfg.classes[cl].move - cfg.Capacity(cl) * |gone|
    {
      hide Sound, ClientsKept, Owned, NoDup, SlotRep, Unhoused, Releasable, ReleaseAll;
      ghost var s := TheStore();
      ghost var end, os;
      var start;
      start, end, os := PopSlot();
      Resize(-1);
      ghost var t := TheStore();
      UnhousedGone(s.home, os);
      UnhousedKeys(s.home, os);
      TakenKept(cfg, cl, s, t);
      SlotChain(words, TCEntry(start, end), os);
      gone := ReleaseListToSpans(start, os);
      KeptThen(cfg, cl, s, t, TheStore(), {}, Objects(os));
    }

    /** Takes a cache slot from another class, if that one gives up any. */
    method EvictFrom(other: CentralFreeList, force: bool) returns (evicted: bool, ghost gone: seq<Span>)
      requires other != this ==> other.Valid()
      modifies if other == this then {} else {other}
      ensures other == this ==> !evicted && gone == []
      ensures other != this ==>
                && other.Valid() && evicted == Shrinks(old(other.list), force) && other.KeptFrom(old(other.TheStore()))
                && if evicted then other.ShrunkTo(old(other.TheStore()), other.list, gone) else other.TheStore() == old(other.TheStore()) && gone == []
    {
      evicted, gone := false, [];
      if other != this {
        evicted, gone := other.ShrinkCache(force);
      }
    }

    /** What callers hold has been untouched since. */
    ghost predicate KeptFrom(s: Store)
      requires cfg.Ok() && cl < |cfg.classes|
      reads this, tcSlots
    {
      ClientsKept(cfg, cl, s, TheStore(), {})
    }

    /** Another list would give up a cache slot for this one: it has a slot, and a free one unless
        it is forced. */
    ghost predicate Gives(other: CentralFreeList, force: bool)
      reads other
    {
      other != this && 0 < other.cacheSize && (force || other.usedSlots < other.cacheSize)
    }

    /** Another list, with its own cache entries. */
    ghost predicate Apart(other: CentralFreeList)
      reads other, other.tcSlots
    {
      other != this ==> other.Valid() && other.tcSlots != tcSlots
    }

    lemma ApartIs(other: CentralFreeList)
      requires Apart(other)
      ensures {this, tcSlots} !! Others(other) && forall force :: Gives(other, force) <==> other != this && Shrinks(other.list, force)
    {
      hide Sound;
    }

    ghost function Others(other: CentralFreeList): set<object> { if other == this then {} else {other, other.tcSlots} }

    /** What evictions do to the lists tried, which were `s1` and `s2`: the first gives up a slot
        without force, else the second one with force; `gone` are the spans that the evicted chain
        frees. */
    ghost predicate Evicted(first: CentralFreeList, s1: Store, second: CentralFreeList, s2: Store, wanted: bool, gone: seq<Span>)
      reads Others(first), Others(second)
    {
      var a := wanted && first != this && Shrinks(s1.l, false);
      var b := wanted && !a && second != this && Shrinks(s2.l, true);
      && (first != this ==> first.Valid() && first.KeptFrom(s1))
      && (second != this ==> second.Valid() && second.KeptFrom(s2))
      && (a ==> first.ShrunkTo(s1, first.list, gone))
      && (b ==> second.ShrunkTo(s2, second.list, gone))
      && (first != this && !a && !(b && first == second) ==> first.TheStore() == s1)
      && (second != this && !b && !(a && first == second) ==> second.TheStore() == s2)
      && (!a && !b ==> gone == [])
    }

    lemma NoneEvicted(first: CentralFreeList, second: CentralFreeList)
      requires Apart(first) && Apart(second)
      ensures Evicted(first, first.TheStore(), second, second.TheStore(), false, [])
    {
      hide Sound;
    }

    /** One of two other lists gives up a cache slot, or none does. */
    method EvictOne(first: CentralFreeList, second: CentralFreeList) returns (evicted: bool, ghost gone: seq<Span>)
      requires Apart(first) && Apart(second)
      modifies {first, second} - {this}
      ensures Evicted(first, old(first.TheStore()), second, old(second.TheStore()), true, gone)
      ensures evicted == old(Gives(first, false) || Gives(second, true))
    {
      hide Sound, ClientsKept, ShrunkTo;
      NoneEvicted(first, second);
      evicted, gone := EvictFrom(first, false);
      if !evicted {
        evicted, gone := EvictFrom(second, true);
      }
    }

    /** Makes room for one more chain in the cache, if need be with a slot from one of two other
        lists. */
    method MakeCacheSpace(first: CentralFreeList, second: CentralFreeList) returns (space: bool, ghost gone: seq<Span>)
      requires Valid() && Apart(first) && Apart(second)
      modifies this`cacheSize, this`list, {first, second} - {this}
      ensures Valid() && Evicted(first, old(first.TheStore()), second, old(second.TheStore()), MayGrow(old(list)), gone)
      ensures var given := old(Gives(first, false) || Gives(second, true));
              && space == HasRoom(old(list), given) && TheStore() == old(TheStore()).(l := Spaced(old(list), given))
              && (space ==> usedSlots < cacheSize)
      ensures var given := old(Gives(first, false) || Gives(second, true));
              && space == (old(usedSlots) < old(cacheSize) || (old(cacheSize) < maxCache && given))
              && cacheSize == old(cacheSize) + if old(usedSlots) < old(cacheSize) then 0 else if old(cacheSize) < maxCache && given then 1 else 0
    {
      hide Sound, Evicted, Apart, Gives;
      NoneEvicted(first, second);
      ApartIs(first);
      ApartIs(second);
      if usedSlots < cacheSize {
        return true, [];
      }
      if cacheSize == maxCache {
        return false, [];
      }
      var evicted;
      evicted, gone := EvictOne(first, second);
      assert this !in Others(first) && this !in Others(second);
      if evicted && cacheSize < maxCache {
        Resize(1);
        return true, gone;
      }
      return false, gone;
    }

    /** Puts a chain into the cache if there is space, otherwise back to its spans. */
    method PlaceChain(start: Ptr, end: Ptr, space: bool, ghost os: seq<Ptr>) returns (ghost gone: seq<Span>)
      requires Valid() && |os| > 0 && SlotRep(words, TCEntry(start, end), os) && NoDup(os) && (forall o :: o in os ==> o !in home && Owns(o))
      requires space ==> |os| == cfg.classes[cl].move && usedSlots < cacheSize
      modifies this`words, this`pagemap, this`spans, this`nonempty, this`empty, this`counter, this`numSpans, this`usedSlots, this`list, this`home,
               tcSlots
      ensures Valid() && Releasable(old(list), os, old(pagemap), cfg.pageSize, cfg.ClassOf(cl))
      ensures if space then
                && list == PutSlot(old(list), os) && usedSlots == old(usedSlots) + 1 <= tcSlots.Length
                && tcSlots[old(usedSlots)] == TCEntry(start, end) && words == old(words) && gone == []
              else
                && (list, gone) == ReleaseAll(old(list), os, old(pagemap), cfg.pageSize, cfg.ClassOf(cl)) && list.slots == old(list.slots)
                && usedSlots == old(usedSlots) && counter == old(counter) + |os| - cfg.Capacity(cl) * |gone| && numSpans == old(numSpans) - |gone|
      ensures ClientsKept(cfg, cl, old(TheStore()), TheStore(), Objects(os))
    {
      hide Sound, ClientsKept, ReleaseAll, Releasable, Owned, NoDup, SlotRep, Housed, Config.Capacity;
      ghost var s := TheStore();
      SlotChain(words, TCEntry(start, end), os);
      ChainReleasable(cfg, cl, s, os);
      gone := [];
      if space {
        PushSlot(start, end, os);
        PutKept(cfg, cl, s, TheStore(), os, InSlot(0, |s.l.slots|));
      } else {
        gone := ReleaseListToSpans(start, os);
      }
    }

    /** Inserts a chain: into the cache if it is a full transfer and there is or can be made room,
        otherwise back to its spans. */
    method InsertRange(start: Ptr, end: Ptr, n: nat, first: CentralFreeList, second: CentralFreeList, ghost os: seq<Ptr>)
      returns (ghost gone: seq<Span>, ghost evictions: seq<Span>)
      requires Valid() && n == |os| > 0 && SlotRep(words, TCEntry(start, end), os) && NoDup(os) && (forall o :: o in os ==> o !in home && Owns(o))
      requires Apart(first) && Apart(second)
      modifies this, tcSlots, {first, second} - {this}
      ensures Valid() && maxCache == old(maxCache)
      ensures Evicted(first, old(first.TheStore()), second, old(second.TheStore()), n == cfg.classes[cl].move && MayGrow(old(list)), evictions)
      ensures Releasable(old(list), os, old(pagemap), cfg.pageSize, cfg.ClassOf(cl))
      ensures (list, gone) == Inserted(old(list), os, old(Gives(first, false) || Gives(second, true)), old(pagemap), cfg.pageSize, cfg.ClassOf(cl))
      ensures ClientsKept(cfg, cl, old(TheStore()), TheStore(), Objects(os))
      ensures var given := old(Gives(first, false) || Gives(second, true));
              if n == cfg.classes[cl].move && (old(usedSlots) < old(cacheSize) || (old(cacheSize) < maxCache && given)) then
                && list.slots == old(list.slots) + [os] && usedSlots == old(usedSlots) + 1
                && cacheSize == old(cacheSize) + (if old(usedSlots) < old(cacheSize) then 0 else 1)
                && gone == [] && counter == old(counter) && numSpans == old(numSpans)
              else
                && list.slots == old(list.slots) && usedSlots == old(usedSlots) && cacheSize == old(cacheSize)
                && counter == old(counter) + n - cfg.Capacity(cl) * |gone| && numSpans == old(numSpans) - |gone|
    {
      hide Sound, ClientsKept, ReleaseAll, Releasable, Owned, NoDup, SlotRep, Housed, Evicted, Config.Capacity, Gives, Apart, PutSlot, Resized, ShrunkTo, KeptFrom, Shrinks;
      ghost var s := TheStore();
      ApartIs(first);
      ApartIs(second);
      NoneEvicted(first, second);
      ChainReleasable(cfg, cl, s, os);
      var space := false;
      evictions := [];
      if n == cfg.classes[cl].move {
        space, evictions := MakeCacheSpace(first, second);
      }
      ghost var t, given := TheStore(), old(Gives(first, false) || Gives(second, true));
      InsertedIs(s.l, os, given, pagemap, cfg.pageSize, cfg.ClassOf(cl));
      gone := PlaceChain(start, end, space, os);
      assert (list, gone) == Inserted(s.l, os, given, s.pm, cfg.pageSize, cfg.ClassOf(cl));
      KeptResized(cfg, cl, s, t, TheStore(), Objects(os));
    }

    /** Two callers take a chain each, and the first one returns its own: the other chain is
        untouched, and has no object in common with the first. */
    method TwoCallers(n: nat, m: nat, page: Option<Span>, first: CentralFreeList, second: CentralFreeList)
      returns (ghost mine: seq<Ptr>, start: Ptr, end: Ptr, ghost os: seq<Ptr>)
      requires Valid() && n > 0 && m > 0 && (page.Some? ==> FreshPages(cfg, cl, pagemap, page.value)) && Apart(first) && Apart(second)
      modifies this, tcSlots, {first, second} - {this}
      ensures Valid() && Chain(words, start, os) && NoDup(os) && forall o :: o in os ==> o !in home && Owns(o)
      ensures NoDup(mine) && forall o :: o in os ==> o !in mine
    {
      hide Sound, ClientsKept, Owned, Chain, NoDup, Removal, Inserted, FreshPages, Evicted, Releasable, Config.ObjectsOf, SlotRep;
      assert {this, tcSlots} !! Others(first) && {this, tcSlots} !! Others(second);
      var size, at, last;
      size, at, last, mine := RemoveRange(n, page);
      ghost var s := TheStore();
      var size2;
      size2, start, end, os := RemoveRange(m, None);
      ClientChain(cfg, cl, s, TheStore(), {}, at, mine);
      ghost var t := TheStore();
      if size > 0 {
        ChainSlot(words, TCEntry(at, last), mine);
        ghost var gone, evictions := InsertRange(at, last, size, first, second, mine);
        ClientChain(cfg, cl, t, TheStore(), Objects(mine), start, os);
      }
    }
  }

  /** What an insertion does to the list, case by case. */
  lemma InsertedIs(l: FreeList, os: seq<Ptr>, evicted: bool, pm: PageMap, pageSize: nat, k: Class)
    requires pageSize > 0 && Releasable(l, os, pm, pageSize, k) && |l.slots| <= l.cacheSize <= l.maxCache
    ensures var (m, gone) := Inserted(l, os, evicted, pm, pageSize, k);
            && m.maxCache == l.maxCache
            && if |os| == k.move && (|l.slots| < l.cacheSize || (l.cacheSize < l.maxCache && evicted)) then
                 && m.slots == l.slots + [os] && m.cacheSize == l.cacheSize + (if |l.slots| < l.cacheSize then 0 else 1)
                 && gone == [] && m.counter == l.counter && m.numSpans == l.numSpans
               else
                 && m.slots == l.slots && m.cacheSize == l.cacheSize
                 && m.counter == l.counter + |os| - k.capacity * |gone| && m.numSpans == l.numSpans - |gone|
  {
    ReleaseAllCounts(l, os, pm, pageSize, k);
  }

  lemma KeptResized(cfg: Config, c: nat, s: Store, t: Store, u: Store, taken: set<Ptr>)
    requires cfg.Ok() && c < |cfg.classes| && t == s.(l := t.l) && ClientsKept(cfg, c, t, u, taken)
    ensures ClientsKept(cfg, c, s, u, taken)
  {
  }

  /** The fields after the return of an object. */
  lemma ReturnStep(cfg: Config, c: nat, s: Store, o: Ptr)
    requires Sound(cfg, c, s) && Owned(cfg, c, s.pm, o) && o !in s.home
    ensures o / cfg.pageSize in s.pm
    ensures var sp := s.pm[o / cfg.pageSize];
            && OwnSpan(s.pm, cfg.pageSize, o) == sp && sp in s.spans && sp in s.l.spans
            && s.l.spans[sp].refcount == s.spans[sp].refcount > 0
    ensures var sp, u := s.pm[o / cfg.pageSize], AfterReturn(cfg, c, s, o);
            var d := s.spans[sp];
            var ns := if d.objects == NULL then [sp] + s.l.nonempty else s.l.nonempty;
            && Sound(cfg, c, u) && ClientsKept(cfg, c, s, u, {o})
            && u.slots == s.slots && u.l.slots == s.l.slots && u.l.cacheSize == s.l.cacheSize && u.l.maxCache == s.l.maxCache
            && u.l.empty == (if d.objects == NULL then Without(s.l.empty, sp) else s.l.empty)
            && if d.refcount == 1 then
                 && u.words == s.words && u.spans == s.spans - {sp} && u.pm == WithoutSpan(s.pm, sp)
                 && u.l.nonempty == Without(ns, sp) && u.l.counter == s.l.counter + 1 - cfg.Capacity(c) && u.l.numSpans == s.l.numSpans - 1
               else
                 && u.words == s.words[o := d.objects] && u.spans == s.spans[sp := SpanDesc(o, d.refcount - 1)] && u.pm == s.pm
                 && u.l.nonempty == ns && u.l.counter == s.l.counter + 1 && u.l.numSpans == s.l.numSpans
  {
    ReturnReady(cfg, c, s, o);
    ReturnSound(cfg, c, s, o);
    ReturnKept(cfg, c, s, o);
    PageSpan(s.pm, cfg.pageSize, o);
    ReleaseFields(s.l, o, OwnSpan(s.pm, cfg.pageSize, o), cfg.ClassOf(c));
    hide Sound, ClientsKept, Release, Without, Rest, OwnSpan, Owned, WithoutSpan;
  }

  /** The fields after a carved span has joined. */
  lemma AddStep(cfg: Config, c: nat, s: Store, sp: Span, words: Words, head: Ptr)
    requires Sound(cfg, c, s) && FreshPages(cfg, c, s.pm, sp) && Chain(words, head, cfg.ObjectsOf(sp, c))
    requires forall x :: x in s.words && x !in cfg.ObjectsOf(sp, c) ==> x in words && words[x] == s.words[x]
    ensures var u, objs := AfterAdd(cfg, c, s.(words := words), sp, head), cfg.ObjectsOf(sp, c);
            && Sound(cfg, c, u) && ClientsKept(cfg, c, s, u, {}) && (forall o :: o in u.home ==> o in s.home || !Owned(cfg, c, s.pm, o))
            && u.words == words && u.slots == s.slots && u.spans == s.spans[sp := SpanDesc(head, 0)]
            && u.pm == s.pm + PageEntries(sp, cfg.classes[c].pages, sp)
            && u.l == Add(s.l, sp, objs) && u.home == Housed(s.home, objs, InSpan(sp))
            && u.l.nonempty == [sp] + s.l.nonempty && u.l.numSpans == s.l.numSpans + 1 && u.l.counter == s.l.counter + cfg.Capacity(c)
            && u.l.slots == s.l.slots && u.l.empty == s.l.empty && u.l.cacheSize == s.l.cacheSize && u.l.maxCache == s.l.maxCache
  {
    hide Sound, ClientsKept, Housed, PageEntries, FreshPages, Chain, Config.Ok;
    CarveKept(cfg, c, s, sp, words, head);
  }

  /** The fields after a fetch. */
  lemma FetchedFields(cfg: Config, c: nat, s: Store)
    requires cfg.Ok() && c < |cfg.classes| && Sound(cfg, c, s) && CanFetch(s.l)
    ensures Fetchable(s.l) && FetchSpan(s.l) in s.spans && Fetched(s.l) in s.words && FetchSpan(s.l) == s.l.nonempty[0]
    ensures var sp, o, u := FetchSpan(s.l), Fetched(s.l), AfterFetch(s);
            && s.spans[sp].objects == o != NULL && Sound(cfg, c, u)
            && u.words == s.words && u.pm == s.pm && u.slots == s.slots
            && u.spans == s.spans[sp := SpanDesc(s.words[o], s.spans[sp].refcount + 1)]
            && u.l.nonempty == (if s.words[o] == NULL then s.l.nonempty[1..] else s.l.nonempty)
            && u.l.empty == (if s.words[o] == NULL then [sp] + s.l.empty else s.l.empty)
            && u.l.counter == s.l.counter - 1 && u.l.numSpans == s.l.numSpans
            && u.l.slots == s.l.slots && u.l.cacheSize == s.l.cacheSize && u.l.maxCache == s.l.maxCache
  {
    hide Sound, Config.Ok;
    FetchSound(cfg, c, s);
  }

  /** The first object fetched. */
  lemma FirstStep(cfg: Config, c: nat, m: Store, n: nat)
    requires cfg.Ok() && c < |cfg.classes| && Sound(cfg, c, m) && CanFetch(m.l) && n > 0
    ensures Fetchable(m.l) && FetchSpan(m.l) in m.spans && Fetched(m.l) in m.words && Fetched(m.l) in m.home
    ensures var o, u := Fetched(m.l), AfterFetch(m);
            && u.pm == m.pm && o !in u.home && u.home.Keys <= m.home.Keys && Owned(cfg, c, u.pm, o) && ClientsKept(cfg, c, m, u.(words := u.words[o := NULL]), {})
            && FetchUpTo(u.l, n, [o]) == FetchUpTo(m.l, n, [])
    ensures |FetchUpTo(m.l, n, []).1| <= n
  {
    hide ClientsKept, Owned, Sound, FetchUpTo;
    FetchSound(cfg, c, m);
    FirstFetch(m.l, n);
    FetchUpToLength(m.l, n, []);
    KeptSame(cfg, c, m, {});
    FetchKept(cfg, c, m, {}, m, NULL);
  }

  /** One more object in front of the chain fetched so far. */
  lemma FetchStep(cfg: Config, c: nat, s: Store, taken: set<Ptr>, before: Store, n: nat, head: Ptr, os: seq<Ptr>)
    requires cfg.Ok() && c < |cfg.classes| && Sound(cfg, c, before) && ClientsKept(cfg, c, s, before, taken) && |os| < n && CanFetch(before.l)
    requires Chain(before.words, head, os) && NoDup(os) && forall o :: o in os ==> o !in before.home && Owned(cfg, c, before.pm, o)
    ensures Fetchable(before.l) && FetchSpan(before.l) in before.spans && Fetched(before.l) in before.words
    ensures var o, u := Fetched(before.l), AfterFetch(before);
            && u.pm == before.pm && u.words == before.words && o in before.home && o !in u.home && u.home.Keys <= before.home.Keys && Owned(cfg, c, u.pm, o)
            && ClientsKept(cfg, c, s, u.(words := u.words[o := head]), taken)
            && Chain(u.words[o := head], o, [o] + os) && NoDup([o] + os)
            && FetchUpTo(u.l, n, [o] + os) == FetchUpTo(before.l, n, os)
  {
    hide ClientsKept, Chain, NoDup, Owned, Sound, FetchUpTo;
    FetchSound(cfg, c, before);
    var o := Fetched(before.l);
    NextFetch(before.l, n, os);
    FetchKept(cfg, c, s, taken, before, head);
    ChainPush(before.words, head, os, o);
    PushNoDup(o, os);
  }

  lemma FreshFirst(cfg: Config, c: nat, pm: PageMap, sp: Span)
    requires c < |cfg.classes| && FreshPages(cfg, c, pm, sp)
    ensures sp > 0
  {
  }

  lemma PageSpan(pm: PageMap, pageSize: nat, o: Ptr)
    requires pageSize > 0 && o / pageSize in pm
    ensures OwnSpan(pm, pageSize, o) == pm[o / pageSize]
  {
  }

  lemma ReleaseFields(l: FreeList, o: Ptr, sp: Span, k: Class)
    requires sp in l.spans && l.spans[sp].refcount > 0
    ensures var m := Release(l, o, sp, k);
            var none := |l.spans[sp].objs| == 0;
            var ns := if none then [sp] + l.nonempty else l.nonempty;
            && m.empty == (if none then Without(l.empty, sp) else l.empty)
            && m.nonempty == (if Frees(l, sp) then Without(ns, sp) else ns)
            && m.counter == l.counter + 1 - (if Frees(l, sp) then k.capacity else 0)
            && m.numSpans == l.numSpans - (if Frees(l, sp) then 1 else 0)
  {
  }
}
