/** What the heap leak checker marks: reachability through aligned memory words. */
module LeakMarking {
  import opened AddressMemory
  import opened AddressSearch
  import opened Multiples
  import opened ProfileBooks
  import opened Sums

  const WORD := 8

  datatype Placement = MustBeOnHeap | IgnoredOnHeap | MaybeLive | InGlobalData | ThreadData | ThreadRegisters

  datatype AllocObject = AllocObject(p: Number, size: nat, place: Placement)

  type Sizes = map<Number, nat>

  /** The recorded objects and their sizes; marking does not change them. */
  ghost function SizesOf(c: Contents): Sizes {
    map p | p in c :: c[p].bytes
  }

  ghost function LiveIn(c: Contents): set<Number> {
    set p | p in c && c[p].Live()
  }

  /** Recorded objects do not overlap and do not wrap. */
  ghost predicate Apart(h: Sizes) {
    && (forall a, b :: a in h && b in h && a < b ==> a + h[a] <= b)
    && (forall a :: a in h ==> a + h[a] < ADDRESS_SPACE)
  }

  /** A word is taken for a pointer to `p`: it points to its start or inside, not too deep
      for the limit on the search. */
  ghost predicate PointsTo(h: Sizes, limit: nat, w: Number, p: Number) {
    p in h && Inside(p, h[p], w) && Reached(p, w, limit)
  }

  lemma PointsToOne(h: Sizes, limit: nat, w: Number, p: Number, q: Number)
    requires Apart(h) && PointsTo(h, limit, w, p) && PointsTo(h, limit, w, q)
    ensures p == q
  {
  }

  /** With a limit no smaller than any object, every pointer into an object counts. */
  lemma DeepEnough(h: Sizes, limit: nat, w: Number, p: Number)
    requires p in h && Inside(p, h[p], w) && h[p] <= limit
    ensures PointsTo(h, limit, w, p)
  {
    assert LastOf(p) >= p;
  }

  /** A pointer into an object counts up to the limit, and not from one block beyond it on. */
  lemma InnerPointer(h: Sizes, limit: nat, w: Number, p: Number)
    requires p in h && Inside(p, h[p], w)
    ensures w - p <= limit ==> PointsTo(h, limit, w, p)
    ensures w - p >= limit + BLOCK_SIZE ==> !PointsTo(h, limit, w, p)
  {
    assert p <= LastOf(p) < p + BLOCK_SIZE;
    assert w - p >= BLOCK_SIZE ==> p / BLOCK_SIZE < w / BLOCK_SIZE;
  }

  /** All of memory, as the word at each address. */
  type Memory = nat -> Number

  /** The checker reads a word at `x` when it scans the object. */
  ghost predicate Scans(o: AllocObject, align: nat, x: nat)
    requires align > 0
  {
    o.p <= x && x % align == 0 && x + WORD <= o.p + o.size
  }

  /** The fixed surroundings of a marking: recorded objects, search limit, alignment, memory. */
  datatype Heap = Heap(h: Sizes, limit: nat, align: nat, word: Memory) {
    ghost predicate Ok() { align > 0 && Apart(h) }

    /** Every object that a scanned word of `o` points to is in `s`. */
    ghost predicate RefsIn(o: AllocObject, s: set<Number>)
      requires Ok()
    {
      forall x, p :: Scans(o, align, x) && PointsTo(h, limit, word(x), p) ==> p in s
    }

    function AsObject(p: Number): AllocObject
      requires p in h
    {
      AllocObject(p, h[p], IgnoredOnHeap)
    }

    /** A set that marking from the roots may not leave: it has what was live before, the roots
        that are heap objects, what the roots refer to, and what its new members refer to. */
    ghost predicate Closed(live: set<Number>, roots: seq<AllocObject>, s: set<Number>)
      requires Ok()
    {
      && live <= s
      && (forall i :: 0 <= i < |roots| ==> RefsIn(roots[i], s) && (roots[i].place.MustBeOnHeap? && roots[i].p in h ==> roots[i].p in s))
      && (forall p :: p in s && p in h && p !in live ==> RefsIn(AsObject(p), s))
    }

    /** The marked set is the least closed one: exactly what is reachable. */
    ghost predicate Reachable(live: set<Number>, roots: seq<AllocObject>, marked: set<Number>)
      requires Ok()
    {
      Closed(live, roots, marked) && forall s :: Closed(live, roots, s) ==> marked <= s
    }

    /** No word scanned in an object counts as a pointer to a member of `d`. */
    ghost predicate Misses(o: AllocObject, d: set<Number>)
      requires align > 0
    {
      forall x, p :: Scans(o, align, x) && p in d ==> !PointsTo(h, limit, word(x), p)
    }

    /** Objects that nothing outside of them points to are not marked, even if they point to
        each other. */
    lemma Unreached(live: set<Number>, roots: seq<AllocObject>, marked: set<Number>, d: set<Number>)
      requires Ok() && Reachable(live, roots, marked) && d !! live
      requires forall i :: 0 <= i < |roots| ==> Misses(roots[i], d) && (roots[i].place.MustBeOnHeap? && roots[i].p in h ==> roots[i].p !in d)
      requires forall q :: q in h && q !in d ==> Misses(AsObject(q), d)
      ensures d !! marked
    {
      var s := marked - d;
      forall i | 0 <= i < |roots| ensures RefsIn(roots[i], s) { OthersIn(roots[i], marked, d); }
      forall p | p in s && p in h && p !in live ensures RefsIn(AsObject(p), s) { OthersIn(AsObject(p), marked, d); }
      assert Closed(live, roots, s);
    }

    lemma OthersIn(o: AllocObject, s: set<Number>, d: set<Number>)
      requires Ok() && RefsIn(o, s) && Misses(o, d)
      ensures RefsIn(o, s - d)
    {
    }

    /** Marking follows every pointer: a word at an aligned position that lies wholly in a root or
        in a newly marked object, and that points to the start of a recorded object or inside it,
        no deeper than the limit, marks that object. */
    lemma Followed(live: set<Number>, roots: seq<AllocObject>, marked: set<Number>, i: nat, p: Number, x: nat, q: Number)
      requires Ok() && Reachable(live, roots, marked) && q in h && x % align == 0
      requires word(x) == q || q < word(x) < q + h[q]
      requires word(x) - q <= limit
      ensures i < |roots| && roots[i].p <= x && x + 8 <= roots[i].p + roots[i].size ==> q in marked
      ensures p in marked && p in h && p !in live && p <= x && x + 8 <= p + h[p] ==> q in marked
    {
      InnerPointer(h, limit, word(x), q);
      if i < |roots| && roots[i].p <= x && x + 8 <= roots[i].p + roots[i].size { TargetIn(roots[i], marked, x, q); }
      if p in marked && p in h && p !in live && p <= x && x + 8 <= p + h[p] { TargetIn(AsObject(p), marked, x, q); }
    }

    ghost function Weights(s: set<Number>): map<Number, int> {
      map p | p in s && p in h :: h[p]
    }

    ghost function Weigh(s: set<Number>): int { Sum(Weights(s)) }

    lemma WeighMore(s: set<Number>, p: Number)
      requires p in h && p !in s
      ensures Weigh(s + {p}) == Weigh(s) + h[p]
    {
      hide Sum;
      SumUpdate(Weights(s), p, h[p]);
      assert Weights(s + {p}) == Weights(s)[p := h[p]];
    }

    /** The roots given to a marking that must be on the heap have their recorded sizes. */
    ghost predicate RootsOk(roots: seq<AllocObject>) {
      forall i :: 0 <= i < |roots| && roots[i].place.MustBeOnHeap? && roots[i].p in h ==> roots[i].size == h[roots[i].p]
    }

    // ---------- the state of the traversal ----------

    /** The stack holds the first `k` roots, with the objects `news` marked since on top. */
    ghost function StackOf(roots: seq<AllocObject>, k: nat, news: seq<Number>): seq<AllocObject>
      requires k <= |roots| && forall i :: 0 <= i < |news| ==> news[i] in h
    {
      roots[..k] + seq(|news|, i requires 0 <= i < |news| => AsObject(news[i]))
    }

    static function Plain(o: AllocObject): AllocObject { o.(place := IgnoredOnHeap) }

    /** Whatever was marked or taken from the stack has been scanned, except what is in
        `pend`; and nothing is marked that a closed set could leave out. */
    ghost predicate Traced(live: set<Number>, roots: seq<AllocObject>, k: nat, news: seq<Number>, marked: set<Number>, pend: set<AllocObject>)
      requires Ok()
    {
      && k <= |roots| && live <= marked
      && (forall i :: 0 <= i < |news| ==> news[i] in h && news[i] in marked && news[i] !in live)
      && (forall p :: p in marked && p !in live ==> p in h)
      && (forall i :: k <= i < |roots| ==>
            && (Plain(roots[i]) in pend || RefsIn(roots[i], marked))
            && (roots[i].place.MustBeOnHeap? && roots[i].p in h ==> roots[i].p in marked))
      && (forall p :: p in marked && p in h && p !in live && p !in news ==> AsObject(p) in pend || RefsIn(AsObject(p), marked))
      && (forall s :: Closed(live, roots, s) ==> marked <= s && forall o :: o in pend ==> RefsIn(o, s))
    }

    lemma PushedOne(roots: seq<AllocObject>, k: nat, news: seq<Number>, p: Number)
      requires k <= |roots| && (forall i :: 0 <= i < |news| ==> news[i] in h) && p in h
      ensures StackOf(roots, k, news + [p]) == StackOf(roots, k, news) + [AsObject(p)]
    {
    }

    lemma StartStack(roots: seq<AllocObject>)
      ensures StackOf(roots, |roots|, []) == roots
    {
    }

    lemma EndStack(roots: seq<AllocObject>)
      ensures StackOf(roots, 0, []) == []
    {
    }

    /** What the top of the stack is. */
    lemma StackTop(roots: seq<AllocObject>, k: nat, news: seq<Number>)
      requires k <= |roots| && forall i :: 0 <= i < |news| ==> news[i] in h
      ensures var st := StackOf(roots, k, news);
              && |st| == k + |news|
              && (|news| > 0 ==> st[..|st| - 1] == StackOf(roots, k, news[..|news| - 1]) && st[|st| - 1] == AsObject(news[|news| - 1]))
              && (|news| == 0 && k > 0 ==> st[..|st| - 1] == StackOf(roots, k - 1, []) && st[|st| - 1] == roots[k - 1])
    {
      if |news| > 0 {
        PushedOne(roots, k, news[..|news| - 1], news[|news| - 1]);
        assert news == news[..|news| - 1] + [news[|news| - 1]];
      } else {
        assert StackOf(roots, k, news) == roots[..k];
      }
    }

    /** Marking grows the set within the recorded objects. */
    lemma Fewer(live: set<Number>, roots: seq<AllocObject>, k: nat, news: seq<Number>, marked: set<Number>, marked': set<Number>, pend: set<AllocObject>)
      requires Ok() && Traced(live, roots, k, news, marked', pend) && live <= marked <= marked' && marked != marked'
      ensures h.Keys - marked' < h.Keys - marked
    {
      var p :| p in marked' && p !in marked;
      assert p in h.Keys - marked;
    }

    /** The book-keeping facts of a traversal. */
    lemma TracedFacts(live: set<Number>, roots: seq<AllocObject>, k: nat, news: seq<Number>, marked: set<Number>, pend: set<AllocObject>)
      requires Ok() && Traced(live, roots, k, news, marked, pend)
      ensures k <= |roots| && live <= marked && (forall i :: 0 <= i < |news| ==> news[i] in h)
      ensures forall p :: p in marked && p !in live ==> p in h
    {
    }

    lemma RefsMonotone(o: AllocObject, s: set<Number>, t: set<Number>)
      requires Ok() && RefsIn(o, s) && s <= t
      ensures RefsIn(o, t) && RefsIn(Plain(o), t)
    {
    }

    lemma Started(live: set<Number>, roots: seq<AllocObject>)
      requires Ok()
      ensures Traced(live, roots, |roots|, [], live, {})
    {
    }

    lemma Done(live: set<Number>, roots: seq<AllocObject>, marked: set<Number>)
      requires Ok() && Traced(live, roots, 0, [], marked, {})
      ensures Reachable(live, roots, marked)
    {
    }

    lemma PopNew(live: set<Number>, roots: seq<AllocObject>, k: nat, news: seq<Number>, marked: set<Number>)
      requires Ok() && |news| > 0 && Traced(live, roots, k, news, marked, {})
      ensures Traced(live, roots, k, news[..|news| - 1], marked, {AsObject(news[|news| - 1])})
    {
      hide RefsIn;
      var p, rest := news[|news| - 1], news[..|news| - 1];
      assert forall q :: q in news <==> q in rest || q == p;
    }

    /** Takes a root from the stack, marking it if it must be on the heap and is recorded. */
    lemma PopRoot(live: set<Number>, roots: seq<AllocObject>, k: nat, marked: set<Number>, marked': set<Number>)
      requires Ok() && 0 < k && RootsOk(roots) && Traced(live, roots, k, [], marked, {})
      requires var o := roots[k - 1]; marked' == if o.place.MustBeOnHeap? && o.p in h then marked + {o.p} else marked
      ensures Traced(live, roots, k - 1, [], marked', {Plain(roots[k - 1])})
    {
      hide RefsIn;
      var o := roots[k - 1];
      forall i | k <= i < |roots| ensures RefsIn(roots[i], marked') { RefsMonotone(roots[i], marked, marked'); }
      forall p | p in marked' && p in h && p !in live ensures AsObject(p) == Plain(o) || RefsIn(AsObject(p), marked') {
        if p in marked { RefsMonotone(AsObject(p), marked, marked'); }
      }
      forall s | Closed(live, roots, s) ensures marked' <= s && RefsIn(Plain(o), s) { RefsMonotone(o, s, s); }
    }

    lemma TargetOnHeap(o: AllocObject, x: nat, q: Number)
      requires Ok() && PointsTo(h, limit, word(x), q)
      ensures q in h
    {
    }

    lemma TargetIn(o: AllocObject, s: set<Number>, x: nat, q: Number)
      requires Ok() && RefsIn(o, s) && Scans(o, align, x) && PointsTo(h, limit, word(x), q)
      ensures q in s
    {
    }

    /** Marks an object that a scanned word of the pending one points to. */
    lemma MarkTarget(live: set<Number>, roots: seq<AllocObject>, k: nat, news: seq<Number>, marked: set<Number>, o: AllocObject, x: nat, q: Number)
      requires Ok() && Traced(live, roots, k, news, marked, {o}) && q !in marked
      requires Scans(o, align, x) && PointsTo(h, limit, word(x), q)
      ensures Traced(live, roots, k, news + [q], marked + {q}, {o})
    {
      hide RefsIn, Closed, Scans, PointsTo;
      var marked' := marked + {q};
      assert q in h by { TargetOnHeap(o, x, q); }
      forall s | Closed(live, roots, s) ensures q in s && marked' <= s { TargetIn(o, s, x, q); }
      assert q !in live;
      forall i | k <= i < |roots| ensures Plain(roots[i]) == o || RefsIn(roots[i], marked') {
        if Plain(roots[i]) != o { RefsMonotone(roots[i], marked, marked'); }
      }
      forall p | p in marked' && p in h && p !in live && p !in news + [q] ensures AsObject(p) == o || RefsIn(AsObject(p), marked') {
        assert p in marked && p !in news;
        if AsObject(p) != o { RefsMonotone(AsObject(p), marked, marked'); }
      }
    }

    lemma Scanned(live: set<Number>, roots: seq<AllocObject>, k: nat, news: seq<Number>, marked: set<Number>, o: AllocObject)
      requires Ok() && Traced(live, roots, k, news, marked, {o}) && RefsIn(o, marked)
      ensures Traced(live, roots, k, news, marked, {})
    {
      forall i | k <= i < |roots| && Plain(roots[i]) == o ensures RefsIn(roots[i], marked) {}
    }
  }

  /** The positions scanned in an object are the multiples of the alignment from `first` on. */
  lemma ScansFrom(o: AllocObject, align: nat, first: nat, size: nat)
    requires align > 0
    requires var r := o.p % align;
             if r == 0 then first == o.p && size == o.size
             else first == o.p - r + align && size == if o.size >= align - r then o.size - (align - r) else 0
    ensures first % align == 0
    ensures forall x: nat {:trigger Scans(o, align, x)} :: Scans(o, align, x) <==> first <= x && x % align == 0 && x + WORD <= first + size
  {
    RoundUp(align, o.p);
    forall x: nat ensures Scans(o, align, x) <==> first <= x && x % align == 0 && x + WORD <= first + size {
    }
  }

  /** Between two positions a step apart there is no other. */
  lemma NextPosition(align: nat, x: nat, y: nat)
    requires align > 0 && x % align == 0 && y % align == 0 && x < y
    ensures x + align <= y
  {
    StepApart(align, x, y);
  }

  // ---------- the flags behind the marked set ----------

  /** The allocation map with the live bit set on the members of `marked`. */
  ghost function Marked(c: Contents, marked: set<Number>): Contents {
    map p | p in c :: if p in marked && !c[p].Live() then c[p].SetLive(true) else c[p]
  }

  lemma MarkedIs(c: Contents, marked: set<Number>)
    ensures SizesOf(Marked(c, marked)) == SizesOf(c)
    ensures forall p :: p in c ==> (Marked(c, marked)[p].Live() <==> p in marked || c[p].Live())
    ensures forall p :: p in c ==> Marked(c, marked)[p].Bucket() == c[p].Bucket() && Marked(c, marked)[p].Ignored() == c[p].Ignored()
  {
    forall p | p in c
      ensures Marked(c, marked)[p].Live() <==> p in marked || c[p].Live()
      ensures Marked(c, marked)[p].Bucket() == c[p].Bucket() && Marked(c, marked)[p].Ignored() == c[p].Ignored()
    {
      c[p].LiveApart(true);
    }
  }

  /** Setting one more live bit. */
  lemma MarkedMore(c: Contents, marked: set<Number>, p: Number)
    requires p in c && p !in marked && LiveIn(c) <= marked
    ensures var m := Marked(c, marked); m[p := m[p].SetLive(true)] == Marked(c, marked + {p})
  {
    var m := Marked(c, marked);
    assert m[p] == c[p] && !c[p].Live();
  }

  lemma NothingMarked(c: Contents)
    ensures Marked(c, LiveIn(c)) == c
  {
  }

  lemma MarkedLive(c: Contents, marked: set<Number>)
    requires LiveIn(c) <= marked && forall p :: p in marked && p !in LiveIn(c) ==> p in SizesOf(c)
    ensures LiveIn(Marked(c, marked)) == marked
  {
    MarkedIs(c, marked);
  }
}
