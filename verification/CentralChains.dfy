/** Lists through the first words of free objects: the free objects of a span, and the chains
    of the transfer cache. */
module CentralChains {
  import opened CentralLists
  import opened CentralThreads
  import opened Collections
  import opened Lists
  import opened Multiples

  type Words = map<Ptr, Ptr>

  /** The pointer leads through these objects, in order, to null. */
  ghost predicate Chain(words: Words, p: Ptr, os: seq<Ptr>)
    decreases |os|
  {
    if |os| == 0 then p == NULL else p == os[0] && p != NULL && p in words && Chain(words, words[p], os[1..])
  }

  /** Writing the word of an object that is not on a chain leaves the chain alone. */
  lemma {:induction false} ChainFrame(words: Words, p: Ptr, os: seq<Ptr>, o: Ptr, v: Ptr)
    requires Chain(words, p, os) && o !in os
    ensures Chain(words[o := v], p, os)
    decreases |os|
  {
    if |os| > 0 {
      ChainFrame(words, words[p], os[1..], o, v);
    }
  }

  /** The first object of a chain. */
  lemma ChainHead(words: Words, p: Ptr, os: seq<Ptr>)
    requires Chain(words, p, os)
    ensures p != NULL <==> |os| > 0
    ensures |os| > 0 ==> p == os[0] && p in words && Chain(words, words[p], os[1..])
  {
  }

  /** Linking an object in front of a chain. */
  lemma ChainPush(words: Words, p: Ptr, os: seq<Ptr>, o: Ptr)
    requires Chain(words, p, os) && o !in os && o != NULL
    ensures Chain(words[o := p], o, [o] + os)
  {
    ChainFrame(words, p, os, o, p);
    assert ([o] + os)[1..] == os;
  }

  datatype SpanDesc = SpanDesc(objects: Ptr, refcount: nat)
  datatype TCEntry = TCEntry(head: Ptr, tail: Ptr)

  /** A span descriptor and its free objects. */
  ghost predicate SpanRep(words: Words, d: SpanDesc, x: SpanState) {
    d.refcount == x.refcount && Chain(words, d.objects, x.objs)
  }

  /** A cache entry and its chain. */
  ghost predicate SlotRep(words: Words, e: TCEntry, os: seq<Ptr>) {
    |os| > 0 && Chain(words, e.head, os) && e.tail == os[|os| - 1]
  }

  /** Each object is at one place: `home` says which. */
  ghost predicate Homes(l: FreeList, home: map<Ptr, Place>) {
    && (forall sp, o :: sp in l.spans && o in l.spans[sp].objs ==> o in home && home[o] == InSpan(sp))
    && (forall i, o :: 0 <= i < |l.slots| && o in l.slots[i] ==> o in home && home[o] == InSlot(0, i))
    && (forall sp :: sp in l.spans ==> NoDup(l.spans[sp].objs))
    && (forall i :: 0 <= i < |l.slots| ==> NoDup(l.slots[i]))
  }

  ghost predicate SpansRep(words: Words, spans: map<Span, SpanDesc>, l: FreeList) {
    spans.Keys == l.spans.Keys && forall sp {:trigger SpanRep(words, spans[sp], l.spans[sp])} :: sp in spans ==> SpanRep(words, spans[sp], l.spans[sp])
  }

  ghost predicate SlotsRep(words: Words, es: seq<TCEntry>, l: FreeList) {
    |l.slots| <= |es| && forall i {:trigger SlotRep(words, es[i], l.slots[i])} :: 0 <= i < |l.slots| ==> SlotRep(words, es[i], l.slots[i])
  }

  /** Writing the word of an object that is on no list. */
  lemma WordWritten(words: Words, spans: map<Span, SpanDesc>, es: seq<TCEntry>, l: FreeList, home: map<Ptr, Place>, o: Ptr, v: Ptr)
    requires SpansRep(words, spans, l) && SlotsRep(words, es, l) && Homes(l, home) && o !in home
    ensures SpansRep(words[o := v], spans, l) && SlotsRep(words[o := v], es, l)
  {
    forall sp | sp in spans ensures SpanRep(words[o := v], spans[sp], l.spans[sp]) {
      assert SpanRep(words, spans[sp], l.spans[sp]);
      ChainFrame(words, spans[sp].objects, l.spans[sp].objs, o, v);
    }
    forall i | 0 <= i < |l.slots| ensures SlotRep(words[o := v], es[i], l.slots[i]) {
      assert SlotRep(words, es[i], l.slots[i]);
      ChainFrame(words, es[i].head, l.slots[i], o, v);
    }
  }

  // ---------- what the steps do to the representation ----------

  ghost predicate Fetchable(l: FreeList) {
    CanFetch(l) && FetchSpan(l) in l.spans && |l.spans[FetchSpan(l)].objs| > 0
  }

  lemma FetchRep(words: Words, spans: map<Span, SpanDesc>, l: FreeList, home: map<Ptr, Place>)
    requires SpansRep(words, spans, l) && Homes(l, home) && Fetchable(l)
    ensures var sp := FetchSpan(l); var d := spans[sp];
            && d.objects == Fetched(l) && d.objects != NULL && d.objects in words
            && (words[d.objects] == NULL <==> |l.spans[sp].objs| == 1)
            && SpansRep(words, spans[sp := SpanDesc(words[d.objects], d.refcount + 1)], Fetch(l))
            && Homes(Fetch(l), home - {Fetched(l)})
  {
    var sp := FetchSpan(l);
    assert SpanRep(words, spans[sp], l.spans[sp]);
    ChainHead(words, spans[sp].objects, l.spans[sp].objs);
    ChainHead(words, words[spans[sp].objects], l.spans[sp].objs[1..]);
    FetchSpansRep(words, spans, l);
    FetchHomes(l, home);
  }

  lemma FetchSpansRep(words: Words, spans: map<Span, SpanDesc>, l: FreeList)
    requires SpansRep(words, spans, l) && Fetchable(l)
    requires var sp := FetchSpan(l); spans[sp].objects in words && Chain(words, words[spans[sp].objects], l.spans[sp].objs[1..])
    ensures var sp := FetchSpan(l); SpansRep(words, spans[sp := SpanDesc(words[spans[sp].objects], spans[sp].refcount + 1)], Fetch(l))
  {
    hide Chain;
    var sp, m := FetchSpan(l), Fetch(l);
    var spans' := spans[sp := SpanDesc(words[spans[sp].objects], spans[sp].refcount + 1)];
    assert SpanRep(words, spans[sp], l.spans[sp]);
    forall x | x in spans' ensures SpanRep(words, spans'[x], m.spans[x]) {
      assert SpanRep(words, spans[x], l.spans[x]);
    }
  }

  lemma FetchHomes(l: FreeList, home: map<Ptr, Place>)
    requires Homes(l, home) && Fetchable(l)
    ensures Homes(Fetch(l), home - {Fetched(l)})
  {
    var sp, o, m := FetchSpan(l), Fetched(l), Fetch(l);
    var objs := l.spans[sp].objs;
    assert objs == [o] + objs[1..] && o !in objs[1..] && o in objs;
    assert home[o] == InSpan(sp);
    assert NoDup(objs[1..]);
    hide NoDup;
    forall x, y | x in m.spans && y in m.spans[x].objs ensures y in home - {o} && (home - {o})[y] == InSpan(x) {
      assert y in l.spans[x].objs;
    }
    forall i, y | 0 <= i < |m.slots| && y in m.slots[i] ensures y in home - {o} && (home - {o})[y] == InSlot(0, i) {
      assert y in l.slots[i];
    }
  }

  /** Linking a returned object in front of its span's free objects. */
  lemma ReturnRep(words: Words, spans: map<Span, SpanDesc>, l: FreeList, home: map<Ptr, Place>, o: Ptr, sp: Span, k: Class)
    requires SpansRep(words, spans, l) && Homes(l, home) && o !in home && o != NULL
    requires sp in l.spans && l.spans[sp].refcount > 0 && !Frees(l, sp)
    requires sp in spans && spans[sp].refcount == l.spans[sp].refcount && SpansRep(words[o := spans[sp].objects], spans, l)
    ensures var d := spans[sp];
            SpansRep(words[o := d.objects], spans[sp := SpanDesc(o, d.refcount - 1)], Release(l, o, sp, k))
    ensures Homes(Release(l, o, sp, k), home[o := InSpan(sp)])
  {
    var d, m := spans[sp], Release(l, o, sp, k);
    var w, spans' := words[o := d.objects], spans[sp := SpanDesc(o, d.refcount - 1)];
    var objs := l.spans[sp].objs;
    assert SpanRep(words, d, l.spans[sp]);
    assert o !in objs;
    ChainPush(words, d.objects, objs, o);
    forall x | x in spans' ensures SpanRep(w, spans'[x], m.spans[x]) {
      assert SpanRep(w, spans[x], l.spans[x]);
    }
    ReturnHomes(l, m, home, o, sp);
  }

  lemma ReturnHomes(l: FreeList, m: FreeList, home: map<Ptr, Place>, o: Ptr, sp: Span)
    requires Homes(l, home) && o !in home && sp in l.spans && m.slots == l.slots
    requires sp in m.spans && m.spans == l.spans[sp := SpanState([o] + l.spans[sp].objs, m.spans[sp].refcount)]
    ensures Homes(m, home[o := InSpan(sp)])
  {
    var objs, home' := l.spans[sp].objs, home[o := InSpan(sp)];
    assert o !in objs;
    forall x, y | x in m.spans && y in m.spans[x].objs ensures y in home' && home'[y] == InSpan(x) {
      assert y != o ==> y in l.spans[x].objs;
    }
    forall i, y | 0 <= i < |m.slots| && y in m.slots[i] ensures y in home' && home'[y] == InSlot(0, i) {
      assert y in l.slots[i];
    }
  }

  /** A span leaves the list with its free objects. */
  lemma LeaveRep(words: Words, spans: map<Span, SpanDesc>, l: FreeList, home: map<Ptr, Place>, o: Ptr, sp: Span, k: Class)
    requires SpansRep(words, spans, l) && Homes(l, home) && sp in l.spans && Frees(l, sp)
    ensures SpansRep(words, spans - {sp}, Release(l, o, sp, k))
    ensures Homes(Release(l, o, sp, k), Rest(home, sp))
  {
    hide NoDup, Chain;
    var m := Release(l, o, sp, k);
    forall x | x in spans - {sp} ensures SpanRep(words, (spans - {sp})[x], m.spans[x]) {
      assert SpanRep(words, spans[x], l.spans[x]);
    }
    var home' := Rest(home, sp);
    forall x, y | x in m.spans && y in m.spans[x].objs ensures y in home' && home'[y] == InSpan(x) {
      assert y in l.spans[x].objs;
    }
    forall i, y | 0 <= i < |m.slots| && y in m.slots[i] ensures y in home' && home'[y] == InSlot(0, i) {
      assert y in l.slots[i];
    }
  }

  ghost function Rest(home: map<Ptr, Place>, sp: Span): map<Ptr, Place> {
    map o | o in home && home[o] != InSpan(sp) :: home[o]
  }

  /** Objects of a chain go to one place. */
  ghost function Housed(home: map<Ptr, Place>, os: seq<Ptr>, p: Place): map<Ptr, Place> {
    home + map o | o in os :: p
  }

  lemma PutSlotRep(words: Words, es: seq<TCEntry>, l: FreeList, home: map<Ptr, Place>, e: TCEntry, os: seq<Ptr>)
    requires SlotsRep(words, es, l) && Homes(l, home) && |l.slots| < |es| && SlotRep(words, e, os) && NoDup(os)
    requires forall o :: o in os ==> o !in home
    ensures SlotsRep(words, es[|l.slots| := e], PutSlot(l, os)) && Homes(PutSlot(l, os), Housed(home, os, InSlot(0, |l.slots|)))
  {
    hide NoDup, SlotRep;
    var m, es', home' := PutSlot(l, os), es[|l.slots| := e], Housed(home, os, InSlot(0, |l.slots|));
    forall i | 0 <= i < |m.slots| ensures SlotRep(words, es'[i], m.slots[i]) {
      if i < |l.slots| { assert SlotRep(words, es[i], l.slots[i]); }
    }
    forall i, y | 0 <= i < |m.slots| && y in m.slots[i] ensures y in home' && home'[y] == InSlot(0, i) {
      if i < |l.slots| { assert y in l.slots[i]; }
    }
  }

  ghost function Unhoused(home: map<Ptr, Place>, os: seq<Ptr>): map<Ptr, Place> {
    map o | o in home && o !in os :: home[o]
  }

  lemma TakeSlotRep(words: Words, es: seq<TCEntry>, l: FreeList, home: map<Ptr, Place>)
    requires SlotsRep(words, es, l) && Homes(l, home) && |l.slots| > 0
    ensures var j := |l.slots| - 1; var os := l.slots[j];
            && SlotsRep(words, es, TakeSlot(l)) && Homes(TakeSlot(l), Unhoused(home, os))
            && SlotRep(words, es[j], os) && NoDup(os)
  {
    hide NoDup, SlotRep;
    var j := |l.slots| - 1;
    var os, m := l.slots[j], TakeSlot(l);
    var home' := Unhoused(home, os);
    assert SlotRep(words, es[j], l.slots[j]);
    forall y | y in os ensures y in home && home[y] == InSlot(0, j) { assert y in l.slots[j]; }
    forall i | 0 <= i < |m.slots| ensures SlotRep(words, es[i], m.slots[i]) { assert SlotRep(words, es[i], l.slots[i]); }
    forall x, y | x in m.spans && y in m.spans[x].objs ensures y in home' && home'[y] == InSpan(x) {
      assert y in l.spans[x].objs;
    }
    forall i, y | 0 <= i < |m.slots| && y in m.slots[i] ensures y in home' && home'[y] == InSlot(0, i) {
      assert y in l.slots[i];
    }
  }

  lemma AddRep(words: Words, spans: map<Span, SpanDesc>, l: FreeList, home: map<Ptr, Place>, sp: Span, head: Ptr, os: seq<Ptr>)
    requires SpansRep(words, spans, l) && Homes(l, home) && sp !in l.spans && Chain(words, head, os) && NoDup(os)
    requires forall o :: o in os ==> o !in home
    ensures SpansRep(words, spans[sp := SpanDesc(head, 0)], Add(l, sp, os)) && Homes(Add(l, sp, os), Housed(home, os, InSpan(sp)))
  {
    AddHomes(l, home, sp, os);
    hide NoDup, Chain, Homes;
    var m, spans' := Add(l, sp, os), spans[sp := SpanDesc(head, 0)];
    forall x | x in spans' ensures SpanRep(words, spans'[x], m.spans[x]) {
      if x != sp { assert SpanRep(words, spans[x], l.spans[x]); }
    }
  }

  lemma AddHomes(l: FreeList, home: map<Ptr, Place>, sp: Span, os: seq<Ptr>)
    requires Homes(l, home) && sp !in l.spans && NoDup(os) && forall o :: o in os ==> o !in home
    ensures Homes(Add(l, sp, os), Housed(home, os, InSpan(sp)))
  {
    hide NoDup;
    var m, home' := Add(l, sp, os), Housed(home, os, InSpan(sp));
    forall x, y | x in m.spans && y in m.spans[x].objs ensures y in home' && home'[y] == InSpan(x) {
      if x != sp { assert y in l.spans[x].objs; }
    }
    forall i, y | 0 <= i < |m.slots| && y in m.slots[i] ensures y in home' && home'[y] == InSlot(0, i) {
      assert y in l.slots[i];
    }
  }

  /** Each object's word leads to the next one, the last one's to null. */
  ghost predicate Linked(words: Words, os: seq<Ptr>) {
    && (forall i :: 0 <= i < |os| ==> os[i] != NULL)
    && (forall i :: 0 <= i < |os| - 1 ==> os[i] in words && words[os[i]] == os[i + 1])
    && (|os| > 0 ==> os[|os| - 1] in words && words[os[|os| - 1]] == NULL)
  }

  /** Consecutive links make a chain. */
  lemma {:induction false} Links(words: Words, os: seq<Ptr>)
    requires Linked(words, os)
    ensures Chain(words, if |os| == 0 then NULL else os[0], os)
    decreases |os|
  {
    if |os| > 0 {
      var rest := os[1..];
      forall i | 0 <= i < |rest| ensures rest[i] == os[i + 1] {}
      assert Linked(words, rest);
      Links(words, rest);
      if |os| > 1 { assert words[os[0]] == rest[0]; }
    }
  }

  /** The i-th object of a span that starts at `first`. */
  ghost function ObjectFrom(first: Ptr, size: nat, i: nat): Ptr { first + i * size }

  ghost predicate Rising(os: seq<Ptr>) { forall i, j :: 0 <= i < j < |os| ==> os[i] < os[j] }

  /** Each object's word leads to the next one; the last one's is still to be written. */
  ghost predicate LinkedSoFar(words: Words, os: seq<Ptr>) {
    forall i :: 0 <= i < |os| - 1 ==> os[i] in words && words[os[i]] == os[i + 1]
  }

  /** The objects carved so far. */
  ghost predicate Carved(words0: Words, words: Words, os: seq<Ptr>, first: Ptr, size: nat) {
    && (forall i :: 0 <= i < |os| ==> os[i] == ObjectFrom(first, size, i) > 0)
    && Rising(os) && LinkedSoFar(words, os)
    && (forall x :: x in words0 && x !in os ==> x in words && words[x] == words0[x])
  }

  lemma RisingPush(os: seq<Ptr>, ptr: Ptr)
    requires Rising(os) && (|os| > 0 ==> os[|os| - 1] < ptr)
    ensures Rising(os + [ptr])
  {
    var os', last := os + [ptr], |os| - 1;
    forall i, j | 0 <= i < j < |os'| ensures os'[i] < os'[j] {
      if j == |os| && i < last { assert os[i] < os[last]; }
    }
  }

  lemma LinkPush(words: Words, os: seq<Ptr>, ptr: Ptr)
    requires Rising(os) && LinkedSoFar(words, os)
    ensures LinkedSoFar(if |os| == 0 then words else words[os[|os| - 1] := ptr], os + [ptr])
  {
    if |os| > 0 {
      var os', last := os + [ptr], |os| - 1;
      var w := words[os[last] := ptr];
      forall i | 0 <= i < last ensures os'[i] in w && w[os'[i]] == os'[i + 1] { assert os[i] < os[last]; }
    }
  }

  lemma ObjectStep(first: Ptr, size: nat, n: nat)
    requires first > 0
    ensures ObjectFrom(first, size, n) > 0 && ObjectFrom(first, size, n + 1) == ObjectFrom(first, size, n) + size
  {
    Distribute(size, n, -1);
  }

  lemma CarveStep(words0: Words, words: Words, os: seq<Ptr>, first: Ptr, size: nat, ptr: Ptr)
    requires size > 0 && first > 0 && Carved(words0, words, os, first, size) && ptr == ObjectFrom(first, size, |os|)
    ensures Carved(words0, if |os| == 0 then words else words[os[|os| - 1] := ptr], os + [ptr], first, size)
    ensures ptr > 0 && ptr + size == ObjectFrom(first, size, |os| + 1)
  {
    hide ObjectFrom, Rising, LinkedSoFar;
    var os' := os + [ptr];
    ObjectStep(first, size, |os|);
    if |os| > 0 { ObjectStep(first, size, |os| - 1); }
    RisingPush(os, ptr);
    LinkPush(words, os, ptr);
    forall x | x in words0 && x !in os' ensures x !in os {}
  }

  lemma CarveEnd(words0: Words, words: Words, os: seq<Ptr>, first: Ptr, size: nat)
    requires Carved(words0, words, os, first, size)
    ensures var w := if |os| == 0 then words else words[os[|os| - 1] := NULL];
            Chain(w, if |os| == 0 then NULL else os[0], os) && forall x :: x in words0 && x !in os ==> x in w && w[x] == words0[x]
  {
    var w := if |os| == 0 then words else words[os[|os| - 1] := NULL];
    assert Linked(w, os);
    Links(w, os);
  }

  /** Words outside `touched` keep their values. */
  ghost predicate Untouched(words: Words, words': Words, touched: set<Ptr>) {
    forall x :: x in words && x !in touched ==> x in words' && words'[x] == words[x]
  }

  /** A chain of untouched objects stays. */
  lemma {:induction false} ChainStays(words: Words, words': Words, p: Ptr, os: seq<Ptr>, touched: set<Ptr>)
    requires Chain(words, p, os) && Untouched(words, words', touched) && forall o :: o in os ==> o !in touched
    ensures Chain(words', p, os)
    decreases |os|
  {
    if |os| > 0 {
      ChainStays(words, words', words[p], os[1..], touched);
    }
  }

  lemma NoChain(words: Words)
    ensures Chain(words, NULL, [])
  {
  }

  lemma HomesSame(l: FreeList, m: FreeList, home: map<Ptr, Place>)
    requires Homes(l, home) && m.spans == l.spans && m.slots == l.slots
    ensures Homes(m, home)
  {
  }

  /** The objects carved from the bytes of a span are the objects of the span. */
  lemma CarvedObjects(cfg: Config, sp: Span, c: nat, os: seq<Ptr>)
    requires cfg.Ok() && c < |cfg.classes| && |os| == cfg.SpanBytes(c) / cfg.classes[c].size
    requires forall i :: 0 <= i < |os| ==> os[i] == ObjectFrom(sp * cfg.pageSize, cfg.classes[c].size, i)
    ensures os == cfg.ObjectsOf(sp, c)
  {
    forall i | 0 <= i < |os| ensures os[i] == cfg.ObjectsOf(sp, c)[i] {}
  }

  lemma OneChain(words: Words, o: Ptr)
    requires o != NULL && o in words && words[o] == NULL
    ensures Chain(words, o, [o]) && NoDup([o])
  {
    assert [o][1..] == [];
  }

  lemma UnhousedGone(home: map<Ptr, Place>, os: seq<Ptr>)
    ensures forall o :: o in os ==> o !in Unhoused(home, os)
  {
  }

  lemma UnhousedKeys(home: map<Ptr, Place>, os: seq<Ptr>)
    ensures Unhoused(home, os).Keys <= home.Keys
  {
  }

  lemma FirstObject(first: Ptr, size: nat)
    ensures ObjectFrom(first, size, 0) == first
  {
  }

  lemma CarvedAll(first: Ptr, bytes: nat, size: nat, n: nat)
    requires size > 0 && ObjectFrom(first, size, n) <= first + bytes < ObjectFrom(first, size, n) + size
    ensures n == bytes / size
  {
    var q := bytes / size;
    assert bytes == size * q + bytes % size;
    Distribute(size, q, n);
    Times(size, q - n);
  }

  /** Carved objects start where the bytes start, follow each other without overlap, and fill the
      bytes but for less than one object. */
  lemma CarvedApart(os: seq<Ptr>, first: Ptr, bytes: nat, size: nat)
    requires size > 0 && |os| == bytes / size && forall i :: 0 <= i < |os| ==> os[i] == ObjectFrom(first, size, i)
    ensures |os| > 0 ==> os[0] == first && os[|os| - 1] + size <= first + bytes < os[|os| - 1] + 2 * size
    ensures |os| == 0 ==> bytes < size
    ensures forall i :: 0 <= i < |os| - 1 ==> os[i + 1] == os[i] + size
    ensures forall i, j :: 0 <= i < j < |os| ==> os[i] + size <= os[j]
  {
    assert bytes == size * |os| + bytes % size;
    if |os| > 0 {
      Distribute(size, |os|, 1);
      assert os[|os| - 1] == first + (|os| - 1) * size;
    }
    forall i, j | 0 <= i < j < |os| ensures os[i] + size <= os[j] && (j == i + 1 ==> os[j] == os[i] + size) {
      assert os[i] == first + i * size && os[j] == first + j * size;
      Distribute(size, j, i);
      Times(size, j - i);
    }
    forall i | 0 <= i < |os| - 1 ensures os[i + 1] == os[i] + size { assert os[i] + size <= os[i + 1]; }
  }

  lemma SpansSame(words: Words, spans: map<Span, SpanDesc>, l: FreeList, m: FreeList)
    requires SpansRep(words, spans, l) && m.spans == l.spans
    ensures SpansRep(words, spans, m)
  {
    forall sp | sp in spans ensures SpanRep(words, spans[sp], m.spans[sp]) {
      assert SpanRep(words, spans[sp], l.spans[sp]);
    }
  }

  lemma SpanKnown(words: Words, spans: map<Span, SpanDesc>, l: FreeList, sp: Span)
    requires SpansRep(words, spans, l)
    ensures sp in spans <==> sp in l.spans
    ensures sp in spans ==> spans[sp].refcount == l.spans[sp].refcount && (spans[sp].objects == NULL <==> |l.spans[sp].objs| == 0)
  {
    if sp in spans {
      assert SpanRep(words, spans[sp], l.spans[sp]);
      ChainHead(words, spans[sp].objects, l.spans[sp].objs);
    }
  }

  lemma SlotsSame(words: Words, es: seq<TCEntry>, l: FreeList, m: FreeList)
    requires SlotsRep(words, es, l) && m.slots == l.slots
    ensures SlotsRep(words, es, m)
  {
    forall i | 0 <= i < |m.slots| ensures SlotRep(words, es[i], m.slots[i]) {
      assert SlotRep(words, es[i], l.slots[i]);
    }
  }
}
