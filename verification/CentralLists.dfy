/** The contents of one central free list, as values: its spans with their free objects, its
    transfer cache, and the steps that run under its lock. */
module CentralLists {
  import opened Collections
  import opened Lists
  import opened Sums

  type Span = nat

  /** The free objects of a span, and how many of its objects are in use. */
  datatype SpanState = SpanState(objs: seq<Ptr>, refcount: nat)

  datatype FreeList = FreeList(
    spans: map<Span, SpanState>, nonempty: seq<Span>, empty: seq<Span>, counter: int, numSpans: int,
    slots: seq<seq<Ptr>>, cacheSize: int, maxCache: int)

  function Without<T(==)>(s: seq<T>, x: T): seq<T> {
    if |s| == 0 then [] else if s[0] == x then s[1..] else [s[0]] + Without(s[1..], x)
  }

  lemma {:induction false} WithoutIs<T(!new)>(s: seq<T>, x: T)
    requires NoDup(s)
    ensures NoDup(Without(s, x)) && forall y :: y in Without(s, x) <==> y in s && y != x
    ensures |Without(s, x)| == |s| - if x in s then 1 else 0
  {
    if |s| > 0 {
      assert s == [s[0]] + s[1..];
      assert s[0] !in s[1..];
      if s[0] != x {
        WithoutIs(s[1..], x);
      }
    }
  }

  ghost function FreeCounts(spans: map<Span, SpanState>): map<Span, int> {
    map sp | sp in spans :: |spans[sp].objs|
  }

  ghost function FreeTotal(spans: map<Span, SpanState>): int { Sum(FreeCounts(spans)) }

  lemma FreeTotalSet(spans: map<Span, SpanState>, sp: Span, x: SpanState)
    ensures FreeTotal(spans[sp := x]) == FreeTotal(spans) - (if sp in spans then |spans[sp].objs| else 0) + |x.objs|
  {
    hide Sum;
    SumUpdate(FreeCounts(spans), sp, |x.objs|);
    assert FreeCounts(spans[sp := x]) == FreeCounts(spans)[sp := |x.objs|];
  }

  lemma FreeTotalDrop(spans: map<Span, SpanState>, sp: Span)
    requires sp in spans
    ensures FreeTotal(spans - {sp}) == FreeTotal(spans) - |spans[sp].objs|
  {
    hide Sum;
    SumRemove(FreeCounts(spans), sp);
    assert FreeCounts(spans) - {sp} == FreeCounts(spans - {sp});
  }

  /** What a size class fixes: objects per span, objects per transfer. */
  datatype Class = Class(capacity: nat, move: nat)

  /** The spans are on the two lists, each once: on `empty` exactly those without free objects;
      used and free objects make up the span. */
  ghost predicate SpansOk(spans: map<Span, SpanState>, nonempty: seq<Span>, empty: seq<Span>, k: Class) {
    && NoDup(nonempty) && NoDup(empty)
    && (forall sp :: sp in spans <==> sp in nonempty || sp in empty)
    && (forall sp :: sp in nonempty ==> |spans[sp].objs| > 0)
    && (forall sp :: sp in empty ==> |spans[sp].objs| == 0)
    && (forall sp :: sp in spans ==> spans[sp].refcount + |spans[sp].objs| == k.capacity)
  }

  /** The transfer cache is within its limits and holds full transfers. */
  ghost predicate CacheOk(l: FreeList, k: Class) {
    && |l.slots| <= l.cacheSize <= l.maxCache
    && forall i :: 0 <= i < |l.slots| ==> |l.slots[i]| == k.move
  }

  ghost predicate ListOk(l: FreeList, k: Class) {
    && SpansOk(l.spans, l.nonempty, l.empty, k) && CacheOk(l, k)
    && l.counter == FreeTotal(l.spans) && l.numSpans == |l.nonempty| + |l.empty|
  }

  // ---------- steps under the lock ----------

  function CanFetch(l: FreeList): bool { |l.nonempty| > 0 }

  /** The span to fetch from, the object fetched, and the list after it. */
  function FetchSpan(l: FreeList): Span
    requires CanFetch(l)
  {
    l.nonempty[0]
  }

  function Fetched(l: FreeList): Ptr
    requires CanFetch(l) && FetchSpan(l) in l.spans && |l.spans[FetchSpan(l)].objs| > 0
  {
    l.spans[FetchSpan(l)].objs[0]
  }

  function Fetch(l: FreeList): (m: FreeList)
    requires CanFetch(l) && FetchSpan(l) in l.spans && |l.spans[FetchSpan(l)].objs| > 0
    ensures m.cacheSize == l.cacheSize && m.maxCache == l.maxCache && m.slots == l.slots
  {
    var sp := FetchSpan(l);
    var s := l.spans[sp];
    var rest := s.objs[1..];
    l.(spans := l.spans[sp := SpanState(rest, s.refcount + 1)], counter := l.counter - 1,
       nonempty := if |rest| == 0 then l.nonempty[1..] else l.nonempty,
       empty := if |rest| == 0 then [sp] + l.empty else l.empty)
  }

  /** A span that gets its first free object moves to the front of `nonempty`. */
  function Touched(l: FreeList, sp: Span): FreeList
    requires sp in l.spans
  {
    if |l.spans[sp].objs| == 0 then l.(empty := Without(l.empty, sp), nonempty := [sp] + l.nonempty) else l
  }

  /** The last used object comes back: the span leaves the list. */
  predicate Frees(l: FreeList, sp: Span)
    requires sp in l.spans
  {
    l.spans[sp].refcount == 1
  }

  function Release(l: FreeList, o: Ptr, sp: Span, k: Class): (m: FreeList)
    requires sp in l.spans && l.spans[sp].refcount > 0
    ensures m.cacheSize == l.cacheSize && m.maxCache == l.maxCache && m.slots == l.slots
  {
    var t := Touched(l, sp);
    var s := l.spans[sp];
    if Frees(l, sp) then
      t.(spans := l.spans - {sp}, counter := l.counter + 1 - k.capacity, nonempty := Without(t.nonempty, sp), numSpans := l.numSpans - 1)
    else
      t.(spans := l.spans[sp := SpanState([o] + s.objs, s.refcount - 1)], counter := l.counter + 1)
  }

  function Add(l: FreeList, sp: Span, objs: seq<Ptr>): FreeList {
    l.(spans := l.spans[sp := SpanState(objs, 0)], nonempty := [sp] + l.nonempty, numSpans := l.numSpans + 1,
       counter := l.counter + |objs|)
  }

  function PutSlot(l: FreeList, chain: seq<Ptr>): FreeList { l.(slots := l.slots + [chain]) }

  function TakeSlot(l: FreeList): FreeList
    requires |l.slots| > 0
  {
    l.(slots := l.slots[..|l.slots| - 1])
  }

  function Resized(l: FreeList, d: int): FreeList { l.(cacheSize := l.cacheSize + d) }

  // ---------- they keep the list in order ----------

  lemma FetchReady(l: FreeList, k: Class)
    requires SpansOk(l.spans, l.nonempty, l.empty, k) && CanFetch(l)
    ensures FetchSpan(l) in l.spans && |l.spans[FetchSpan(l)].objs| > 0
  {
    assert l.nonempty[0] in l.nonempty;
  }

  /** Moving the first element of one list to the front of another. */
  lemma HeadMoves<T(!new)>(s: seq<T>, t: seq<T>)
    requires |s| > 0 && NoDup(s) && NoDup(t) && s[0] !in t
    ensures NoDup(s[1..]) && NoDup([s[0]] + t) && |s[1..]| + |[s[0]] + t| == |s| + |t|
    ensures forall x :: x in s[1..] <==> x in s && x != s[0]
    ensures forall x :: x in [s[0]] + t <==> x == s[0] || x in t
  {
    assert s == [s[0]] + s[1..];
  }

  lemma FetchSpansOk(l: FreeList, k: Class)
    requires SpansOk(l.spans, l.nonempty, l.empty, k) && CanFetch(l)
    requires FetchSpan(l) in l.spans && |l.spans[FetchSpan(l)].objs| > 0
    ensures SpansOk(Fetch(l).spans, Fetch(l).nonempty, Fetch(l).empty, k) && |Fetch(l).nonempty| + |Fetch(l).empty| == |l.nonempty| + |l.empty|
  {
    var sp, m := FetchSpan(l), Fetch(l);
    assert sp in l.nonempty && sp !in l.empty;
    if |l.spans[sp].objs| == 1 {
      hide NoDup;
      HeadMoves(l.nonempty, l.empty);
      assert m.nonempty == l.nonempty[1..] && m.empty == [sp] + l.empty;
      forall x ensures x in m.spans <==> x in m.nonempty || x in m.empty {}
      forall x | x in m.nonempty ensures |m.spans[x].objs| > 0 {}
      forall x | x in m.empty ensures |m.spans[x].objs| == 0 {}
    } else {
      assert m.nonempty == l.nonempty && m.empty == l.empty;
    }
  }

  lemma FetchKeeps(l: FreeList, k: Class)
    requires ListOk(l, k) && CanFetch(l)
    requires FetchSpan(l) in l.spans && |l.spans[FetchSpan(l)].objs| > 0
    ensures ListOk(Fetch(l), k)
  {
    var s := l.spans[FetchSpan(l)];
    FreeTotalSet(l.spans, FetchSpan(l), SpanState(s.objs[1..], s.refcount + 1));
    FetchSpansOk(l, k);
    hide FreeTotal, SpansOk;
  }

  lemma TouchedKeeps(l: FreeList, sp: Span, k: Class)
    requires SpansOk(l.spans, l.nonempty, l.empty, k) && sp in l.spans
    ensures var t := Touched(l, sp);
            && NoDup(t.nonempty) && NoDup(t.empty) && sp in t.nonempty && sp !in t.empty
            && (forall x :: x in l.spans <==> x in t.nonempty || x in t.empty)
            && (forall x :: x in t.nonempty && x != sp ==> |l.spans[x].objs| > 0)
            && (forall x :: x in t.empty ==> |l.spans[x].objs| == 0)
            && |t.nonempty| + |t.empty| == |l.nonempty| + |l.empty|
  {
    WithoutIs(l.empty, sp);
    var t := Touched(l, sp);
    if |l.spans[sp].objs| == 0 {
      assert sp !in l.nonempty && sp in l.empty;
      assert forall x :: x in t.nonempty <==> x == sp || x in l.nonempty;
    }
  }

  lemma ReleaseKeeps(l: FreeList, o: Ptr, sp: Span, k: Class)
    requires ListOk(l, k) && sp in l.spans && l.spans[sp].refcount > 0
    ensures ListOk(Release(l, o, sp, k), k)
  {
    var t, s := Touched(l, sp), l.spans[sp];
    TouchedKeeps(l, sp, k);
    if Frees(l, sp) {
      WithoutIs(t.nonempty, sp);
      FreeTotalDrop(l.spans, sp);
    } else {
      FreeTotalSet(l.spans, sp, SpanState([o] + s.objs, s.refcount - 1));
    }
  }

  lemma AddKeeps(l: FreeList, sp: Span, objs: seq<Ptr>, k: Class)
    requires ListOk(l, k) && sp !in l.spans && |objs| == k.capacity > 0
    ensures ListOk(Add(l, sp, objs), k)
  {
    FreeTotalSet(l.spans, sp, SpanState(objs, 0));
    assert forall x :: x in [sp] + l.nonempty <==> x == sp || x in l.nonempty;
  }
}
