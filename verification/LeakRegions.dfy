/** Which memory the leak checker treats as roots: memory regions are cut out of the
    intervals of the libraries, and thread stacks are carved out of them. */
module LeakRegions {
  import opened AddressMemory
  import opened Collections
  import opened LeakMarking

  datatype Region = Region(start: Number, end: Number, isStack: bool, caller: nat)

  /** Caller ranges by their ends: each key is an end, its value the start. */
  type Ranges = map<nat, nat>

  predicate In(o: AllocObject, a: nat) {
    o.p <= a < o.p + o.size
  }

  predicate InRegion(r: Region, a: nat) {
    r.start <= a < r.end
  }

  /** The interval holds the whole stretch from `a` up to `b`, such as a word that is scanned. */
  predicate Holds(o: AllocObject, a: nat, b: nat) {
    o.p <= a && b <= o.p + o.size
  }

  /** The region and the stretch have an address in common, or the region, being empty, parts it. */
  predicate Meets(r: Region, a: nat, b: nat) {
    r.start < b && a < r.end
  }

  /** How many of the intervals hold a stretch. */
  function Cover(os: seq<AllocObject>, a: nat, b: nat): nat {
    if |os| == 0 then 0 else Cover(os[..|os| - 1], a, b) + if Holds(os[|os| - 1], a, b) then 1 else 0
  }

  lemma {:induction false} CoverConcat(s: seq<AllocObject>, t: seq<AllocObject>, a: nat, b: nat)
    ensures Cover(s + t, a, b) == Cover(s, a, b) + Cover(t, a, b)
  {
    if |t| == 0 {
      assert s + t == s;
    } else {
      assert (s + t)[..|s + t| - 1] == s + t[..|t| - 1];
      CoverConcat(s, t[..|t| - 1], a, b);
    }
  }

  /** What counting stretches says: one is held by some interval, or by none. */
  lemma {:induction false} CoverSome(os: seq<AllocObject>, a: nat, b: nat)
    ensures Cover(os, a, b) > 0 <==> exists i :: 0 <= i < |os| && Holds(os[i], a, b)
  {
    if |os| > 0 {
      var rest := os[..|os| - 1];
      CoverSome(rest, a, b);
      if i :| 0 <= i < |os| && Holds(os[i], a, b) {
        assert i < |rest| ==> rest[i] == os[i];
      }
    }
  }

  // ---------- which regions are subtracted ----------

  /** The least range end above an address. */
  ghost predicate IsUpperBound(ranges: Ranges, caller: nat, e: nat) {
    e in ranges && caller < e && forall f :: f in ranges && caller < f ==> e <= f
  }

  method UpperBound(ranges: Ranges, caller: nat) returns (e: Option<nat>)
    ensures e.Some? ==> IsUpperBound(ranges, caller, e.value)
    ensures e.None? ==> forall f :: f in ranges ==> f <= caller
  {
    e := None;
    var left := ranges.Keys;
    while |left| > 0
      invariant left <= ranges.Keys
      invariant e.Some? ==> e.value in ranges && caller < e.value
      invariant forall f :: f in ranges && f !in left && caller < f ==> e.Some? && e.value <= f
      decreases |left|
    {
      ghost var some := Witness(left);
      var f :| f in left;
      if caller < f && (e.None? || f < e.value) {
        e := Some(f);
      }
      left := left - {f};
    }
  }

  /** Ranges are proper and do not overlap. */
  ghost predicate Separate(ranges: Ranges) {
    && (forall e :: e in ranges ==> ranges[e] < e)
    && (forall e, f :: e in ranges && f in ranges && e < f ==> e <= ranges[f])
  }

  /** Strictly inside some range. */
  ghost predicate InRange(ranges: Ranges, caller: nat) {
    exists e :: e in ranges && ranges[e] < caller < e
  }

  /** Subtracted: stacks, and what was not allocated from inside a special range. */
  ghost predicate Subtracted(r: Region, ranges: Option<Ranges>) {
    r.isStack || ranges.None? || r.caller == 0 || !InRange(ranges.value, r.caller)
  }

  ghost predicate Removed(rs: seq<Region>, ranges: Option<Ranges>, a: nat, b: nat) {
    exists i :: 0 <= i < |rs| && Subtracted(rs[i], ranges) && Meets(rs[i], a, b)
  }

  lemma UpperBoundDecides(ranges: Ranges, caller: nat, e: nat)
    requires Separate(ranges) && IsUpperBound(ranges, caller, e)
    ensures InRange(ranges, caller) <==> ranges[e] < caller
  {
    if f :| f in ranges && ranges[f] < caller < f {
      assert e <= f;
    }
  }

  /** The decision of the filter, by one lookup. */
  method Selects(r: Region, ranges: Option<Ranges>) returns (subtract: bool, nullCaller: bool)
    requires ranges.Some? ==> Separate(ranges.value)
    ensures subtract <==> Subtracted(r, ranges)
    ensures nullCaller <==> !r.isStack && ranges.Some? && r.caller == 0
  {
    subtract, nullCaller := true, false;
    if !r.isStack && ranges.Some? {
      if r.caller == 0 {
        nullCaller := true;
      } else {
        var iter := UpperBound(ranges.value, r.caller);
        if iter.Some? {
          UpperBoundDecides(ranges.value, r.caller, iter.value);
          if ranges.value[iter.value] < r.caller {
            subtract := false;
          }
        }
      }
    }
  }

  // ---------- cutting regions out ----------

  ghost predicate Proper(rs: seq<Region>) {
    forall i :: 0 <= i < |rs| ==> rs[i].start <= rs[i].end
  }

  /** What is left of an interval without a region: no, one or two pieces. */
  function Cut(o: AllocObject, r: Region): seq<AllocObject>
    requires r.start <= r.end
  {
    var start, end := o.p, o.p + o.size;
    if r.start <= start && end <= r.end then []
    else if start < r.start && r.end < end then
      [AllocObject(start, r.start - start, InGlobalData), AllocObject(r.end, end - r.end, InGlobalData)]
    else if r.end > start && r.start <= start then [AllocObject(r.end, end - r.end, InGlobalData)]
    else if r.start > start && r.start < end then [AllocObject(start, r.start - start, InGlobalData)]
    else [AllocObject(start, o.size, InGlobalData)]
  }

  /** Each stretch of the interval clear of the region is in one of the pieces, and only those. */
  lemma CutCovers(o: AllocObject, r: Region, a: nat, b: nat)
    requires r.start <= r.end && a < b
    ensures Cover(Cut(o, r), a, b) == if Holds(o, a, b) && !Meets(r, a, b) then 1 else 0
    ensures forall x :: x in Cut(o, r) ==> x.place == InGlobalData
  {
    var c := Cut(o, r);
    if |c| == 2 {
      assert c == [c[0]] + [c[1]];
      CoverConcat([c[0]], [c[1]], a, b);
      CoverOne(c[0], a, b);
      CoverOne(c[1], a, b);
    } else if |c| == 1 {
      CoverOne(c[0], a, b);
      assert c == [c[0]];
    }
  }

  lemma CoverOne(o: AllocObject, a: nat, b: nat)
    ensures Cover([o], a, b) == if Holds(o, a, b) then 1 else 0
  {
    assert [o][..0] == [];
    assert Cover([], a, b) == 0;
  }

  ghost predicate AllPlaced(os: seq<AllocObject>, place: Placement) {
    forall o :: o in os ==> o.place == place
  }

  class LiveRegions {
    var liveObjects: seq<AllocObject>
    var library: seq<AllocObject>
    var libraries: seq<seq<AllocObject>>

    /** Puts what is left of the library's intervals on the stack, then swaps the two. */
    method CutOut(r: Region)
      requires liveObjects == [] && r.start <= r.end
      modifies this`liveObjects, this`library
      ensures liveObjects == [] && AllPlaced(library, InGlobalData)
      ensures forall a: nat, b: nat :: a < b ==> Cover(library, a, b) == if Meets(r, a, b) then 0 else old(Cover(library, a, b))
    {
      ghost var before := library;
      var i := 0;
      while i < |library|
        invariant i <= |library| && library == before && AllPlaced(liveObjects, InGlobalData)
        invariant forall a: nat, b: nat :: a < b ==> Cover(liveObjects, a, b) == if Meets(r, a, b) then 0 else Cover(before[..i], a, b)
      {
        var pieces := Cut(library[i], r);
        forall a: nat, b: nat | a < b
          ensures Cover(liveObjects + pieces, a, b) == if Meets(r, a, b) then 0 else Cover(before[..i + 1], a, b)
        {
          CutCovers(library[i], r, a, b);
          CoverConcat(liveObjects, pieces, a, b);
          assert before[..i + 1][..i] == before[..i];
        }
        CutCovers(library[i], r, 0, 1);
        liveObjects := liveObjects + pieces;
        i := i + 1;
      }
      assert before[..|before|] == before;
      library, liveObjects := liveObjects, [];
    }

    /** Subtracts all selected regions: a stretch that meets none of them is held by as many
        intervals as before, a stretch that meets one by none. */
    method SubtractRegions(regions: seq<Region>, ranges: Option<Ranges>) returns (haveNullCallers: bool)
      requires liveObjects == [] && Proper(regions) && (ranges.Some? ==> Separate(ranges.value))
      modifies this`liveObjects, this`library
      ensures library == []
      ensures forall a: nat, b: nat :: a < b ==>
                Cover(liveObjects, a, b) == if Removed(regions, ranges, a, b) then 0 else old(Cover(library, a, b))
      ensures old(AllPlaced(library, InGlobalData)) ==> AllPlaced(liveObjects, InGlobalData)
      ensures haveNullCallers <==> exists i :: 0 <= i < |regions| && !regions[i].isStack && ranges.Some? && regions[i].caller == 0
    {
      ghost var before := library;
      haveNullCallers := false;
      var i := 0;
      while i < |regions|
        invariant i <= |regions| && liveObjects == [] && (AllPlaced(before, InGlobalData) ==> AllPlaced(library, InGlobalData))
        invariant forall a: nat, b: nat :: a < b ==>
                    Cover(library, a, b) == if Removed(regions[..i], ranges, a, b) then 0 else Cover(before, a, b)
        invariant haveNullCallers <==> exists j :: 0 <= j < i && !regions[j].isStack && ranges.Some? && regions[j].caller == 0
      {
        var subtract, nullCaller := Selects(regions[i], ranges);
        haveNullCallers := haveNullCallers || nullCaller;
        forall a: nat, b: nat
          ensures Removed(regions[..i + 1], ranges, a, b) <==> Removed(regions[..i], ranges, a, b) || (subtract && Meets(regions[i], a, b))
        {
          RemovedMore(regions, i, ranges, a, b);
        }
        if subtract {
          CutOut(regions[i]);
        }
        i := i + 1;
      }
      assert regions[..|regions|] == regions;
      library, liveObjects := liveObjects, library;
    }

    /** The first interval of the first library that holds the top. */
    method FindSpan(top: Number) returns (found: bool, l: nat, j: nat)
      ensures found ==> l < |libraries| && j < |libraries[l]| && In(libraries[l][j], top)
      ensures !found ==> forall m, i :: 0 <= m < |libraries| && 0 <= i < |libraries[m]| ==> !In(libraries[m][i], top)
      ensures found ==> forall m, i :: 0 <= m < |libraries| && 0 <= i < |libraries[m]| && (m < l || (m == l && i < j)) ==>
                          !In(libraries[m][i], top)
    {
      l, j := 0, 0;
      while l < |libraries|
        invariant l <= |libraries|
        invariant forall m, i :: 0 <= m < l && 0 <= i < |libraries[m]| ==> !In(libraries[m][i], top)
      {
        j := 0;
        while j < |libraries[l]|
          invariant j <= |libraries[l]|
          invariant forall i :: 0 <= i < j ==> !In(libraries[l][i], top)
        {
          if In(libraries[l][j], top) {
            return true, l, j;
          }
          j := j + 1;
        }
        l := l + 1;
      }
      found := false;
    }

    /** Makes the used part of a thread stack live, as one object: from the top to the end if the
        stack grows down, from the start to the top if it grows up. A stack in no known memory
        region is carved out of the library interval around its top, the j-th of library l; the
        rest of that interval is put back. */
    method RegisterStackLocked(top: Number, region: Option<Region>, growsDown: bool, globalLive: bool, regions: seq<Region>)
      returns (carved: bool, l: nat, j: nat, s: nat, e: nat)
      requires region.Some? ==> region.value.start <= top <= region.value.end
      requires forall m, i :: 0 <= m < |libraries| && 0 <= i < |libraries[m]| ==> libraries[m][i].p + libraries[m][i].size < ADDRESS_SPACE
      modifies this`liveObjects, this`libraries
      ensures carved <==> region.None? && globalLive && exists m, i :: 0 <= m < |old(libraries)| && 0 <= i < |old(libraries)[m]| && In(old(libraries)[m][i], top)
      ensures region.Some? ==> s == region.value.start && e == region.value.end
      ensures if region.Some? || carved then
                && |liveObjects| == |old(liveObjects)| + 1 && liveObjects[..|old(liveObjects)|] == old(liveObjects)
                && var o := liveObjects[|old(liveObjects)|];
                   && o.place == ThreadData && (if growsDown then o.p == top else o.p == s)
                   && forall a: nat :: In(o, a) <==> if growsDown then top <= a < e else s <= a < top
              else liveObjects == old(liveObjects)
      ensures !carved ==> libraries == old(libraries)
      ensures carved ==>
                && l < |libraries| == |old(libraries)| && (forall m :: 0 <= m < |libraries| && m != l ==> libraries[m] == old(libraries)[m])
                && j < |old(libraries)[l]| && In(old(libraries)[l][j], top) && s <= top < e
      ensures carved ==> forall a: nat :: s <= a < e <==> In(old(libraries)[l][j], a) && WithTop(regions, top, a)
      ensures carved ==> forall a: nat, b: nat :: a < b ==>
                Cover(libraries[l], a, b) == Cover(old(libraries)[l], a, b) - if Holds(old(libraries)[l][j], a, b) && s < b && a < e then 1 else 0
      ensures carved ==> forall o :: o in libraries[l] ==> o in old(libraries)[l] || o.place == MaybeLive
    {
      carved, l, j, s, e := false, 0, 0, 0, 0;
      if region.Some? {
        s, e := region.value.start, region.value.end;
        liveObjects := liveObjects + [StackPart(s, e, top, growsDown)];
      } else if globalLive {
        carved, l, j := FindSpan(top);
        if carved {
          ghost var before := libraries[l];
          var o := libraries[l][j];
          s, e := Carve(o.p, o.p + o.size, top, regions);
          liveObjects := liveObjects + [StackPart(s, e, top, growsDown)];
          forall a: nat, b: nat | a < b
            ensures Cover(PutBack(before, j, s, e), a, b) == Cover(before, a, b) - if Holds(before[j], a, b) && s < b && a < e then 1 else 0
          {
            PutBackCovers(before, j, s, e, a, b);
          }
          libraries := libraries[l := PutBack(libraries[l], j, s, e)];
        }
      }
    }
  }

  // ---------- carving out a stack ----------

  /** No region ends or starts between an address and the stack top. */
  ghost predicate WithTop(rs: seq<Region>, top: Number, a: nat) {
    forall i :: 0 <= i < |rs| ==> !(top < rs[i].start <= a) && !(a < rs[i].end <= top)
  }

  lemma WithTopSnoc(rs: seq<Region>, i: nat, top: Number, a: nat)
    requires i < |rs|
    ensures WithTop(rs[..i + 1], top, a) <==> WithTop(rs[..i], top, a) && !(top < rs[i].start <= a) && !(a < rs[i].end <= top)
  {
    var s, t := rs[..i], rs[..i + 1];
    assert t[i] == rs[i] && forall j :: 0 <= j < i ==> t[j] == s[j];
  }

  /** Shrinks an interval around the top to the part no region border cuts off from it. */
  method Carve(start: nat, end: nat, top: Number, rs: seq<Region>) returns (s: nat, e: nat)
    requires start <= top < end
    ensures start <= s <= top < e <= end
    ensures forall a: nat :: s <= a < e <==> start <= a < end && WithTop(rs, top, a)
  {
    s, e := start, end;
    var i := 0;
    while i < |rs|
      invariant i <= |rs| && start <= s <= top < e <= end
      invariant forall a: nat :: s <= a < e <==> start <= a < end && WithTop(rs[..i], top, a)
    {
      ghost var s0, e0 := s, e;
      if top < rs[i].start && rs[i].start < e {
        e := rs[i].start;
      }
      if s < rs[i].end && rs[i].end <= top {
        s := rs[i].end;
      }
      ghost var seen := rs[..i];
      i := i + 1;
      forall a: nat ensures s <= a < e <==> start <= a < end && WithTop(rs[..i], top, a) {
        assert s0 <= a < e0 <==> start <= a < end && WithTop(seen, top, a);
        WithTopSnoc(rs, i - 1, top, a);
      }
    }
    assert rs[..|rs|] == rs;
  }

  /** The carved interval meets no region that does not itself hold the top. */
  lemma CarvedMeetsNone(rs: seq<Region>, top: Number, a: nat, i: nat)
    requires i < |rs| && WithTop(rs, top, a) && !InRegion(rs[i], top) && rs[i].start <= rs[i].end
    ensures !InRegion(rs[i], a)
  {
  }

  /** The live part of a stack interval, by the direction of growth. */
  function StackPart(s: nat, e: nat, top: Number, growsDown: bool): AllocObject
    requires s <= top < ADDRESS_SPACE && top <= e
  {
    if growsDown then AllocObject(top, e - top, ThreadData) else AllocObject(s, top - s, ThreadData)
  }

  lemma {:induction false} CoverWithout(os: seq<AllocObject>, j: nat, a: nat, b: nat)
    requires j < |os|
    ensures Cover(os, a, b) == Cover(os[..j] + os[j + 1..], a, b) + if Holds(os[j], a, b) then 1 else 0
  {
    assert os == os[..j] + [os[j]] + os[j + 1..];
    CoverConcat(os[..j] + [os[j]], os[j + 1..], a, b);
    CoverConcat(os[..j], [os[j]], a, b);
    CoverOne(os[j], a, b);
    CoverConcat(os[..j], os[j + 1..], a, b);
  }

  /** The library's intervals after a stack is carved out of one of them. */
  function PutBack(os: seq<AllocObject>, j: nat, s: Number, e: Number): seq<AllocObject>
    requires j < |os| && os[j].p <= s <= e <= os[j].p + os[j].size
  {
    var start, end := os[j].p, os[j].p + os[j].size;
    os[..j] + os[j + 1..]
    + (if s != start then [AllocObject(start, s - start, MaybeLive)] else [])
    + (if e != end then [AllocObject(e, end - e, MaybeLive)] else [])
  }

  /** Exactly the stretches that meet the carved interval are gone. */
  lemma PutBackCovers(os: seq<AllocObject>, j: nat, s: Number, e: Number, a: nat, b: nat)
    requires j < |os| && os[j].p <= s < e <= os[j].p + os[j].size && a < b
    ensures Cover(PutBack(os, j, s, e), a, b) == Cover(os, a, b) - if Holds(os[j], a, b) && s < b && a < e then 1 else 0
  {
    var start, end := os[j].p, os[j].p + os[j].size;
    var rest := os[..j] + os[j + 1..];
    var l := if s != start then [AllocObject(start, s - start, MaybeLive)] else [];
    var r := if e != end then [AllocObject(e, end - e, MaybeLive)] else [];
    CoverWithout(os, j, a, b);
    CoverConcat(rest + l, r, a, b);
    CoverConcat(rest, l, a, b);
    CoverOne(AllocObject(start, s - start, MaybeLive), a, b);
    CoverOne(AllocObject(e, end - e, MaybeLive), a, b);
  }

  lemma RemovedMore(rs: seq<Region>, i: nat, ranges: Option<Ranges>, a: nat, b: nat)
    requires i < |rs|
    ensures Removed(rs[..i + 1], ranges, a, b) <==> Removed(rs[..i], ranges, a, b) || (Subtracted(rs[i], ranges) && Meets(rs[i], a, b))
  {
    var s, t := rs[..i], rs[..i + 1];
    if j :| 0 <= j < |s| && Subtracted(s[j], ranges) && Meets(s[j], a, b) {
      assert t[j] == s[j];
    }
    if j :| 0 <= j < |t| && Subtracted(t[j], ranges) && Meets(t[j], a, b) {
      assert j < i ==> s[j] == t[j];
    }
    assert t[i] == rs[i];
  }
}
