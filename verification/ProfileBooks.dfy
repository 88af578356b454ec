/** The accounting of the heap profile: what the allocation map and the bucket statistics
    say about each other. */
module ProfileBooks {
  import opened AddressFold
  import opened AddressMemory
  import opened Collections
  import opened Lists
  import opened Sums

  datatype Stats = Stats(allocs: int, frees: int, allocSize: int, freeSize: int) {
    function Allocated(bytes: nat): Stats { this.(allocs := allocs + 1, allocSize := allocSize + bytes) }
    function Freed(bytes: nat): Stats { this.(frees := frees + 1, freeSize := freeSize + bytes) }
    function InUse(): int { allocs - frees }
    function InUseSize(): int { allocSize - freeSize }
  }

  const ZERO := Stats(0, 0, 0, 0)

  function Allocs(s: Stats): int { s.allocs }
  function Frees(s: Stats): int { s.frees }
  function AllocSize(s: Stats): int { s.allocSize }
  function FreeSize(s: Stats): int { s.freeSize }

  /** One statistic of every bucket. */
  ghost function Column(s: map<Ptr, Stats>, f: Stats -> int): map<Ptr, int> {
    map b | b in s :: f(s[b])
  }

  ghost predicate AddsUp(total: Stats, s: map<Ptr, Stats>) {
    && total.allocs == Sum(Column(s, Allocs)) && total.frees == Sum(Column(s, Frees))
    && total.allocSize == Sum(Column(s, AllocSize)) && total.freeSize == Sum(Column(s, FreeSize))
  }

  lemma Bits(q: nat, r: nat)
    requires r < 4
    ensures (4 * q + r) % 4 == r && (4 * q + r) % 2 == r % 2 && (4 * q + r) / 2 % 2 == r / 2
  {
    assert (4 * q + r) / 2 == 2 * q + r / 2;
  }

  /** Bucket pointers are multiples of four, and two flags live in their low bits. */
  datatype AllocValue = AllocValue(bucketRep: nat, bytes: nat) {
    function Bucket(): Ptr { bucketRep - bucketRep % 4 }
    function Live(): bool { bucketRep % 2 == 1 }
    function Ignored(): bool { bucketRep / 2 % 2 == 1 }
    function SetLive(l: bool): AllocValue { this.(bucketRep := bucketRep - bucketRep % 2 + if l then 1 else 0) }
    function SetIgnore(r: bool): AllocValue {
      this.(bucketRep := bucketRep - bucketRep / 2 % 2 * 2 + if r then 2 else 0)
    }

    /** Each setter changes its own flag and nothing else. */
    lemma LiveApart(b: bool)
      ensures SetLive(b).Live() == b && SetLive(b).Ignored() == Ignored() && SetLive(b).Bucket() == Bucket()
    {
      var q, r := bucketRep / 4, bucketRep % 4;
      Bits(q, r);
      Bits(q, r - r % 2 + if b then 1 else 0);
    }

    lemma IgnoreApart(b: bool)
      ensures SetIgnore(b).Ignored() == b && SetIgnore(b).Live() == Live() && SetIgnore(b).Bucket() == Bucket()
    {
      var q, r := bucketRep / 4, bucketRep % 4;
      Bits(q, r);
      Bits(q, r % 2 + if b then 2 else 0);
    }
  }

  type Contents = map<Number, AllocValue>

  /** The allocation map, the statistics of each bucket and the overall statistics. */
  datatype Books = Books(contents: Contents, stats: map<Ptr, Stats>, total: Stats)

  ghost function Owned(c: Contents, b: Ptr): set<Number> {
    set k | k in c && c[k].Bucket() == b
  }

  ghost function Sizes(c: Contents, b: Ptr): map<Number, int> {
    map k | k in c && c[k].Bucket() == b :: c[k].bytes
  }

  ghost function Count(c: Contents, b: Ptr): nat { |Owned(c, b)| }
  ghost function Bytes(c: Contents, b: Ptr): int { Sum(Sizes(c, b)) }

  /** The live count and size of every bucket are those of the entries that point to it. */
  ghost predicate Balanced(k: Books) {
    forall b :: b in k.stats ==> k.stats[b].InUse() == Count(k.contents, b) && k.stats[b].InUseSize() == Bytes(k.contents, b)
  }

  /** The overall statistics are the sums over the buckets, and entries point to buckets. */
  ghost predicate Totals(k: Books) {
    && AddsUp(k.total, k.stats)
    && Entered(k)
  }

  /** Entries point to buckets. */
  ghost predicate Entered(k: Books) {
    forall p :: p in k.contents ==> k.contents[p].Bucket() in k.stats
  }

  /** Allocations never freed that no entry accounts for. */
  ghost function Lost(k: Books, b: Ptr): int
    requires b in k.stats
  {
    k.stats[b].InUse() - Count(k.contents, b)
  }

  ghost function LostSize(k: Books, b: Ptr): int
    requires b in k.stats
  {
    k.stats[b].InUseSize() - Bytes(k.contents, b)
  }

  // ---------- the steps ----------

  function StatsOf(s: map<Ptr, Stats>, b: Ptr): Stats {
    if b in s then s[b] else ZERO
  }

  function Opened(k: Books, b: Ptr): Books {
    k.(stats := k.stats[b := StatsOf(k.stats, b)])
  }

  function Charged(k: Books, p: Number, bytes: nat, b: Ptr): Books {
    Books(k.contents[p := AllocValue(b, bytes)], k.stats[b := StatsOf(k.stats, b).Allocated(bytes)], k.total.Allocated(bytes))
  }

  function Released(k: Books, p: Number): Books {
    if p !in k.contents then k
    else
      var v := k.contents[p];
      Books(k.contents - {p}, k.stats[v.Bucket() := StatsOf(k.stats, v.Bucket()).Freed(v.bytes)], k.total.Freed(v.bytes))
  }

  lemma ChargeOpened(k: Books, p: Number, bytes: nat, b: Ptr)
    ensures Charged(Opened(k, b), p, bytes, b) == Charged(k, p, bytes, b)
  {
    assert k.stats[b := StatsOf(k.stats, b)][b := StatsOf(k.stats, b).Allocated(bytes)]
           == k.stats[b := StatsOf(k.stats, b).Allocated(bytes)];
  }

  // ---------- counting ----------

  /** What one entry adds to the usage of a bucket. */
  lemma Without(c: Contents, p: Number, b: Ptr)
    requires p in c
    ensures Count(c, b) == Count(c - {p}, b) + if c[p].Bucket() == b then 1 else 0
    ensures Bytes(c, b) == Bytes(c - {p}, b) + if c[p].Bucket() == b then c[p].bytes else 0
  {
    hide Sum, AllocValue.Bucket;
    if c[p].Bucket() == b {
      assert Owned(c, b) == Owned(c - {p}, b) + {p};
      SumRemove(Sizes(c, b), p);
      assert Sizes(c, b) - {p} == Sizes(c - {p}, b);
    } else {
      assert Owned(c, b) == Owned(c - {p}, b);
      assert Sizes(c, b) == Sizes(c - {p}, b);
    }
  }

  lemma With(c: Contents, p: Number, v: AllocValue, b: Ptr)
    requires p !in c
    ensures Count(c[p := v], b) == Count(c, b) + if v.Bucket() == b then 1 else 0
    ensures Bytes(c[p := v], b) == Bytes(c, b) + if v.Bucket() == b then v.bytes else 0
  {
    hide Sum, Count, Bytes, AllocValue.Bucket;
    Without(c[p := v], p, b);
    assert c[p := v] - {p} == c;
  }

  /** Recording an allocation loses exactly the entry it overwrites, if any. */
  lemma ChargedLost(k: Books, p: Number, bytes: nat, b: Ptr, q: Ptr)
    requires b % 4 == 0 && q in k.stats
    ensures var over := p in k.contents && k.contents[p].Bucket() == q;
            && Lost(Charged(k, p, bytes, b), q) == Lost(k, q) + (if over then 1 else 0)
            && LostSize(Charged(k, p, bytes, b), q) == LostSize(k, q) + (if over then k.contents[p].bytes else 0)
  {
    hide Count, Bytes;
    var v := AllocValue(b, bytes);
    assert v.Bucket() == b;
    var c := k.contents - {p};
    if p in k.contents {
      Without(k.contents, p, q);
    } else {
      assert c == k.contents;
    }
    With(c, p, v, q);
    assert k.contents[p := v] == c[p := v];
  }

  /** A free loses nothing. */
  lemma ReleasedLost(k: Books, p: Number, q: Ptr)
    requires Entered(k) && q in k.stats
    ensures q in Released(k, p).stats && Lost(Released(k, p), q) == Lost(k, q) && LostSize(Released(k, p), q) == LostSize(k, q)
  {
    if p in k.contents {
      Without(k.contents, p, q);
    }
  }

  /** A new bucket has no entries. */
  lemma NoEntries(k: Books, b: Ptr)
    requires Entered(k) && b !in k.stats
    ensures Count(k.contents, b) == 0 && Bytes(k.contents, b) == 0
  {
    assert Owned(k.contents, b) == {};
    assert Sizes(k.contents, b) == map[];
  }

  lemma ColumnUpdated(s: map<Ptr, Stats>, b: Ptr, x: Stats, f: Stats -> int)
    requires f(ZERO) == 0
    ensures Sum(Column(s[b := x], f)) == Sum(Column(s, f)) - f(StatsOf(s, b)) + f(x)
  {
    hide Sum;
    SumUpdate(Column(s, f), b, f(x));
    assert Column(s[b := x], f) == Column(s, f)[b := f(x)];
  }

  /** Adding the same to one bucket and to the total keeps the sums. */
  lemma SumsKept(total: Stats, s: map<Ptr, Stats>, b: Ptr, x: Stats)
    requires AddsUp(total, s)
    ensures var o := StatsOf(s, b);
            AddsUp(Stats(total.allocs - o.allocs + x.allocs, total.frees - o.frees + x.frees,
                       total.allocSize - o.allocSize + x.allocSize, total.freeSize - o.freeSize + x.freeSize), s[b := x])
  {
    hide Sum, Column;
    ColumnUpdated(s, b, x, Allocs);
    ColumnUpdated(s, b, x, Frees);
    ColumnUpdated(s, b, x, AllocSize);
    ColumnUpdated(s, b, x, FreeSize);
  }

  /** Every step keeps the overall statistics equal to the sums over the buckets. */
  lemma TotalsKept(k: Books, p: Number, bytes: nat, b: Ptr)
    requires Totals(k) && b % 4 == 0
    ensures Totals(Opened(k, b)) && Totals(Charged(k, p, bytes, b)) && Totals(Released(k, p))
  {
    hide AddsUp;
    SumsKept(k.total, k.stats, b, StatsOf(k.stats, b));
    SumsKept(k.total, k.stats, b, StatsOf(k.stats, b).Allocated(bytes));
    assert AllocValue(b, bytes).Bucket() == b;
    if p in k.contents {
      var v := k.contents[p];
      SumsKept(k.total, k.stats, v.Bucket(), StatsOf(k.stats, v.Bucket()).Freed(v.bytes));
    }
  }

  // ---------- whole runs ----------

  datatype Event = Alloc(p: Number, bytes: nat, bucket: Ptr) | Free(p: Number)

  ghost function After(k: Books, e: Event): Books {
    match e
    case Alloc(p, bytes, b) => Charged(k, p, bytes, b)
    case Free(p) => Released(k, p)
  }

  ghost function Run(k: Books, es: seq<Event>): Books {
    if |es| == 0 then k else After(Run(k, es[..|es| - 1]), es[|es| - 1])
  }

  /** No event records an allocation at an address that is recorded already. */
  ghost predicate Clean(k: Books, es: seq<Event>) {
    |es| > 0 ==>
      && Clean(k, es[..|es| - 1])
      && (es[|es| - 1].Alloc? ==> es[|es| - 1].p !in Run(k, es[..|es| - 1]).contents)
  }

  ghost predicate Aligned(es: seq<Event>) {
    forall i :: 0 <= i < |es| && es[i].Alloc? ==> es[i].bucket % 4 == 0
  }

  /** Some bucket has lost an allocation. */
  ghost predicate SomeLost(k: Books) {
    exists b :: b in k.stats && Lost(k, b) > 0
  }

  /** The first allocation of a bucket opens it with nothing lost. */
  lemma FirstCharge(k: Books, p: Number, bytes: nat, b: Ptr)
    requires Entered(k) && b % 4 == 0 && b !in k.stats
    ensures Lost(Charged(k, p, bytes, b), b) == 0 && LostSize(Charged(k, p, bytes, b), b) == 0
  {
    hide Count, Bytes;
    var v, c := AllocValue(b, bytes), k.contents - {p};
    NoEntries(k, b);
    if p in k.contents {
      Without(k.contents, p, b);
    } else {
      assert c == k.contents;
    }
    With(c, p, v, b);
    assert k.contents[p := v] == c[p := v];
    assert Charged(k, p, bytes, b).stats[b] == Stats(1, 0, bytes, 0);
  }

  ghost predicate Overwrites(k: Books, e: Event, q: Ptr) {
    e.Alloc? && e.p in k.contents && k.contents[e.p].Bucket() == q
  }

  lemma AfterLost(k: Books, e: Event, q: Ptr)
    requires Entered(k) && (e.Alloc? ==> e.bucket % 4 == 0) && q in After(k, e).stats
    ensures Lost(After(k, e), q) == (if q in k.stats then Lost(k, q) else 0) + (if Overwrites(k, e, q) then 1 else 0)
    ensures LostSize(After(k, e), q)
            == (if q in k.stats then LostSize(k, q) else 0) + (if Overwrites(k, e, q) then k.contents[e.p].bytes else 0)
  {
    hide Lost, LostSize;
    if e.Free? {
      ReleasedLost(k, e.p, q);
    } else if q in k.stats {
      ChargedLost(k, e.p, e.bytes, e.bucket, q);
    } else {
      FirstCharge(k, e.p, e.bytes, q);
    }
  }

  /** Over any run of events the books stay balanced exactly if no allocation is ever
      recorded at an address that is recorded already; the totals hold regardless. */
  lemma {:induction false} RunBalance(k: Books, es: seq<Event>)
    requires Totals(k) && Balanced(k) && Aligned(es)
    ensures Totals(Run(k, es))
    ensures Clean(k, es) ==> Balanced(Run(k, es))
    ensures !Clean(k, es) ==> SomeLost(Run(k, es)) && !Balanced(Run(k, es))
  {
    hide AddsUp, Count, Bytes;
    if |es| > 0 {
      var r, e := es[..|es| - 1], es[|es| - 1];
      RunBalance(k, r);
      var m := Run(k, r);
      TotalsKept(m, e.p, if e.Alloc? then e.bytes else 0, if e.Alloc? then e.bucket else 0);
      if Clean(k, es) {
        forall b | b in After(m, e).stats
          ensures Lost(After(m, e), b) == 0 && LostSize(After(m, e), b) == 0
        {
          AfterLost(m, e, b);
        }
      } else {
        var b := LossStays(k, r, e);
      }
    }
  }

  /** Once an allocation is lost it stays lost. */
  lemma LossStays(k: Books, r: seq<Event>, e: Event) returns (b: Ptr)
    requires var m := Run(k, r); Entered(m) && (e.Alloc? ==> e.bucket % 4 == 0)
    requires var m := Run(k, r); (Clean(k, r) ==> Balanced(m)) && (!Clean(k, r) ==> SomeLost(m))
    requires !Clean(k, r) || (e.Alloc? && e.p in Run(k, r).contents)
    ensures b in After(Run(k, r), e).stats && Lost(After(Run(k, r), e), b) > 0
  {
    var m := Run(k, r);
    if Clean(k, r) {
      b := m.contents[e.p].Bucket();
    } else {
      b :| b in m.stats && Lost(m, b) > 0;
    }
    AfterLost(m, e, b);
  }

  /** The allocations of a run that went to a bucket, by their positions, with their bytes. */
  ghost function AllocsAt(es: seq<Event>, b: Ptr): map<nat, int> {
    map i: nat | i < |es| && es[i].Alloc? && es[i].bucket == b :: es[i].bytes
  }

  /** The frees of a run that took an entry of a bucket, by their positions, with its bytes. */
  ghost function FreesAt(k: Books, es: seq<Event>, b: Ptr): map<nat, int> {
    map i: nat | i < |es| && es[i].Free? && es[i].p in Run(k, es[..i]).contents && Run(k, es[..i]).contents[es[i].p].Bucket() == b ::
      Run(k, es[..i]).contents[es[i].p].bytes
  }

  lemma AllocsSnoc(es: seq<Event>, e: Event, b: Ptr)
    ensures var now := e.Alloc? && e.bucket == b;
            && AllocsAt(es + [e], b) == (if now then AllocsAt(es, b)[|es| := e.bytes] else AllocsAt(es, b)) && |es| !in AllocsAt(es, b)
  {
  }

  lemma FreesSnoc(k: Books, es: seq<Event>, e: Event, b: Ptr)
    ensures var c := Run(k, es).contents; var now := e.Free? && e.p in c && c[e.p].Bucket() == b;
            && FreesAt(k, es + [e], b) == (if now then FreesAt(k, es, b)[|es| := c[e.p].bytes] else FreesAt(k, es, b)) && |es| !in FreesAt(k, es, b)
  {
    hide Run, AllocValue.Bucket;
    forall i: nat | i <= |es| ensures (es + [e])[..i] == if i < |es| then es[..i] else es {}
  }

  lemma OneMoreIn(m: map<nat, int>, i: nat, v: int)
    requires i !in m
    ensures |m[i := v]| == |m| + 1 && Sum(m[i := v]) == Sum(m) + v
  {
    hide Sum;
    SumUpdate(m, i, v);
    assert m[i := v].Keys == m.Keys + {i};
  }

  /** The four statistics of a bucket after any run: what they were, and the number and the bytes
      of the allocations and of the frees of its entries. */
  lemma {:induction false} RunCounts(k: Books, es: seq<Event>, b: Ptr)
    requires Entered(k)
    ensures var s, r := StatsOf(k.stats, b), StatsOf(Run(k, es).stats, b);
            && r.allocs == s.allocs + |AllocsAt(es, b)| && r.allocSize == s.allocSize + Sum(AllocsAt(es, b))
            && r.frees == s.frees + |FreesAt(k, es, b)| && r.freeSize == s.freeSize + Sum(FreesAt(k, es, b))
    ensures b in Run(k, es).stats <==> b in k.stats || |AllocsAt(es, b)| + |FreesAt(k, es, b)| > 0
  {
    if |es| == 0 {
      assert AllocsAt(es, b) == map[] && FreesAt(k, es, b) == map[];
    } else {
      var r, e := es[..|es| - 1], es[|es| - 1];
      assert es == r + [e];
      RunCounts(k, r, b);
      AllocsSnoc(r, e, b);
      FreesSnoc(k, r, e, b);
      hide AllocsAt, FreesAt, Sum, AllocValue.Bucket;
      var m := Run(k, r);
      if e.Alloc? && e.bucket == b { OneMoreIn(AllocsAt(r, b), |r|, e.bytes); }
      if e.Free? && e.p in m.contents && m.contents[e.p].Bucket() == b { OneMoreIn(FreesAt(k, r, b), |r|, m.contents[e.p].bytes); }
      assert StatsOf(After(m, e).stats, b)
             == if e.Alloc? && e.bucket == b then StatsOf(m.stats, b).Allocated(e.bytes)
                else if e.Free? && e.p in m.contents && m.contents[e.p].Bucket() == b then StatsOf(m.stats, b).Freed(m.contents[e.p].bytes)
                else StatsOf(m.stats, b);
    }
  }

  // ---------- marks and snapshots ----------

  /** Changing flags of an entry changes no accounting. */
  lemma FlagsNeutral(k: Books, c: Contents)
    requires c.Keys == k.contents.Keys
    requires forall p :: p in c ==> c[p].Bucket() == k.contents[p].Bucket() && c[p].bytes == k.contents[p].bytes
    ensures Totals(k) ==> Totals(k.(contents := c))
    ensures Balanced(k) ==> Balanced(k.(contents := c))
  {
    forall b ensures Count(c, b) == Count(k.contents, b) && Bytes(c, b) == Bytes(k.contents, b) {
      assert Owned(c, b) == Owned(k.contents, b);
      assert Sizes(c, b) == Sizes(k.contents, b);
    }
  }

  ghost function EntrySizes(c: Contents): map<Number, int> {
    map p | p in c :: c[p].bytes
  }

  /** Objects copied out of the table, with their own statistics. */
  datatype Snapshot = Snapshot(entries: Contents, total: Stats) {
    function Add(p: Number, v: AllocValue): Snapshot {
      Snapshot(entries[p := v], total.Allocated(v.bytes))
    }

    /** The statistics are those of the entries. */
    ghost predicate Tallied() {
      && total.allocs == |entries| && total.frees == total.freeSize == 0
      && total.allocSize == Sum(EntrySizes(entries))
    }
  }

  const EMPTY := Snapshot(map[], ZERO)

  datatype Base = NoBase | From(snapshot: Snapshot)

  function InBase(base: Base, p: Number): bool {
    base.From? && p in base.snapshot.entries
  }

  function AddToSnapshot(): Callback<AllocValue, Snapshot> {
    (p: Number, v: AllocValue, s: Snapshot) => (v, s.Add(p, v))
  }

  function AddIfNonLive(base: Base): Callback<AllocValue, Snapshot> {
    (p: Number, v: AllocValue, s: Snapshot) =>
      if v.Live() then (v.SetLive(false), s) else if InBase(base, p) then (v, s) else (v, s.Add(p, v))
  }

  /** The entries of `order` that are neither live nor in the base. */
  ghost function NonLive(c: Contents, order: seq<Number>, base: Base): Contents {
    map p | p in order && p in c && !c[p].Live() && !InBase(base, p) :: c[p]
  }

  ghost function Unmarked(c: Contents, order: seq<Number>): Contents {
    map p | p in c :: if p in order then c[p].SetLive(false) else c[p]
  }

  lemma EmptyTally()
    ensures EMPTY.Tallied()
  {
    assert EntrySizes(map[]) == map[];
  }

  lemma Tally(s: Snapshot, p: Number, v: AllocValue)
    requires s.Tallied() && p !in s.entries
    ensures s.Add(p, v).Tallied()
  {
    hide Sum;
    SumUpdate(EntrySizes(s.entries), p, v.bytes);
    assert EntrySizes(s.entries[p := v]) == EntrySizes(s.entries)[p := v.bytes];
  }

  /** A visit of distinct entries collects exactly the non-live ones outside the base, with
      matching totals, and clears their live bits. */
  lemma {:induction false} NonLiveCollected(c: Contents, order: seq<Number>, base: Base)
    requires NoDup(order) && forall p :: p in order ==> p in c
    ensures var (c', s) := Fold(order, c, EMPTY, AddIfNonLive(base));
            s.entries == NonLive(c, order, base) && s.Tallied() && c' == Unmarked(c, order)
  {
    hide Snapshot.Tallied, NonLive, Unmarked;
    if |order| == 0 {
      EmptyTally();
      NothingVisited(c, base);
    } else {
      var rest, p := order[..|order| - 1], order[|order| - 1];
      NonLiveCollected(c, rest, base);
      assert order == rest + [p] && p !in rest;
      FoldSnoc(rest, p, c, EMPTY, AddIfNonLive(base));
      NonLiveStep(c, rest, base, p);
      if !c[p].Live() && !InBase(base, p) {
        var (c', s) := Fold(rest, c, EMPTY, AddIfNonLive(base));
        Tally(s, p, c[p]);
      }
    }
  }

  lemma NothingVisited(c: Contents, base: Base)
    ensures Unmarked(c, []) == c && NonLive(c, [], base) == map[]
  {
  }

  lemma NonLiveStep(c: Contents, rest: seq<Number>, base: Base, p: Number)
    requires p in c && p !in rest
    ensures NonLive(c, rest + [p], base)
            == if c[p].Live() || InBase(base, p) then NonLive(c, rest, base) else NonLive(c, rest, base)[p := c[p]]
    ensures Unmarked(c, rest + [p]) == Unmarked(c, rest)[p := c[p].SetLive(false)]
    ensures !c[p].Live() ==> c[p].SetLive(false) == c[p]
    ensures p in Unmarked(c, rest) && Unmarked(c, rest)[p] == c[p] && p !in NonLive(c, rest, base)
  {
  }

  /** A visit of all entries, in any order. */
  lemma NonLiveVisited(k: Books, order: seq<Number>, base: Base)
    requires NoDup(order) && forall p :: p in order <==> p in k.contents
    ensures var (c', s) := Fold(order, k.contents, EMPTY, AddIfNonLive(base));
            && s.entries == (map p | p in k.contents && !k.contents[p].Live() && !InBase(base, p) :: k.contents[p])
            && s.Tallied() && c' == (map p | p in k.contents :: k.contents[p].SetLive(false))
            && (Totals(k) ==> Totals(k.(contents := c'))) && (Balanced(k) ==> Balanced(k.(contents := c')))
  {
    hide Totals, Balanced, Fold, Snapshot.Tallied, AllocValue.Live, AllocValue.SetLive, AllocValue.Bucket, NoDup;
    var c := k.contents;
    NonLiveCollected(c, order, base);
    var c' := map p | p in c :: c[p].SetLive(false);
    assert Unmarked(c, order) == c';
    assert NonLive(c, order, base) == map p | p in c && !c[p].Live() && !InBase(base, p) :: c[p];
    forall p | p in c ensures c[p].SetLive(false).Bucket() == c[p].Bucket() && c[p].SetLive(false).bytes == c[p].bytes { LiveBitOnly(c[p]); }
    FlagsNeutral(k, c');
  }

  lemma LiveBitOnly(v: AllocValue)
    ensures v.SetLive(false).Bucket() == v.Bucket() && v.SetLive(false).bytes == v.bytes
  {
    v.LiveApart(false);
  }

  ghost function Copied(c: Contents, order: seq<Number>): Contents {
    map p | p in c && p in order :: c[p]
  }

  lemma CopiedStep(c: Contents, rest: seq<Number>, p: Number)
    requires p in c && p !in rest
    ensures Copied(c, rest + [p]) == Copied(c, rest)[p := c[p]] && p !in Copied(c, rest) && c[p := c[p]] == c
  {
  }

  /** A plain snapshot copies everything. */
  lemma {:induction false} AllCollected(c: Contents, order: seq<Number>)
    requires NoDup(order) && forall p :: p in order ==> p in c
    ensures var (c', s) := Fold(order, c, EMPTY, AddToSnapshot()); s.entries == Copied(c, order) && s.Tallied() && c' == c
  {
    if |order| == 0 {
      EmptyTally();
    } else {
      var rest, p := order[..|order| - 1], order[|order| - 1];
      AllCollected(c, rest);
      assert order == rest + [p] && p !in rest;
      FoldSnoc(rest, p, c, EMPTY, AddToSnapshot());
      var (c', s) := Fold(rest, c, EMPTY, AddToSnapshot());
      CopiedStep(c, rest, p);
      Tally(s, p, c[p]);
    }
  }

  /** The header promises the non-live, non-ignored objects; that is what the snapshot holds
      exactly if no non-live object outside the base is ignored. */
  lemma NonIgnoredPromise(c: Contents, base: Base, s: Contents)
    requires s == map p | p in c && !c[p].Live() && !InBase(base, p) :: c[p]
    ensures s == (map p | p in c && !c[p].Live() && !c[p].Ignored() && !InBase(base, p) :: c[p])
            <==> forall p :: p in c && !c[p].Live() && !InBase(base, p) ==> !c[p].Ignored()
  {
    var promised := map p | p in c && !c[p].Live() && !c[p].Ignored() && !InBase(base, p) :: c[p];
    if p :| p in c && !c[p].Live() && !InBase(base, p) && c[p].Ignored() {
      assert p in s && p !in promised;
    } else {
      assert s == promised;
    }
  }
}
