/** The heap profile table: buckets of allocations with the same stack trace, kept in a
    chained hash table, over the address map of current allocations. */
module HeapProfiles {
  import opened AddressFold
  import opened AddressMaps
  import opened AddressMemory
  import opened Collections
  import opened AddressSearch
  import opened Lists
  import opened ProfileBooks

  const HASH_TABLE_SIZE := 179999

  type Stack = seq<bv64>

  function Mix(h: bv64, key: bv64): bv64 {
    var a := h + key;
    var b := a + (a << 10);
    b ^ (b >> 6)
  }

  function Mixed(stack: Stack): bv64 {
    if |stack| == 0 then 0 else Mix(Mixed(stack[..|stack| - 1]), stack[|stack| - 1])
  }

  function Finish(h: bv64): bv64 {
    var a := h + (h << 3);
    a ^ (a >> 11)
  }

  function HashOf(stack: Stack): bv64 { Finish(Mixed(stack)) }

  /** The low 32 bits of the hash select the chain. */
  function SlotOf(h: bv64): (i: nat)
    ensures i < HASH_TABLE_SIZE
  {
    ((h & 0xFFFF_FFFF) as nat) % HASH_TABLE_SIZE
  }

  datatype Bucket = Bucket(next: Ptr, hash: bv64, stack: Stack, stats: Stats)

  ghost predicate BucketOk(m: map<Ptr, Bucket>, l: Lists<nat>, of: map<Stack, Ptr>, b: Ptr)
    requires b in m && b in l.next && b in l.home
  {
    var d := m[b];
    && b % 4 == 0 && d.next == l.next[b] && l.home[b] == SlotOf(HashOf(d.stack))
    && d.hash == HashOf(d.stack) && d.stack in of && of[d.stack] == b
  }

  /** Every bucket is on the chain of its stack trace, and each stack trace has one bucket. */
  ghost predicate BucketsOk(table: seq<Ptr>, m: map<Ptr, Bucket>, l: Lists<nat>, of: map<Stack, Ptr>) {
    && l.Valid() && l.next.Keys == m.Keys && |table| == HASH_TABLE_SIZE
    && (forall b {:trigger BucketOk(m, l, of, b)} :: b in m ==> BucketOk(m, l, of, b))
    && (forall st :: st in of ==> of[st] in m && m[of[st]].stack == st)
    && (forall h :: 0 <= h < HASH_TABLE_SIZE ==> table[h] == l.HeadOf(h))
  }

  ghost function StatsIn(m: map<Ptr, Bucket>): map<Ptr, Stats> {
    map b | b in m :: m[b].stats
  }

  lemma StatsAdded(m: map<Ptr, Bucket>, b: Ptr, d: Bucket)
    ensures StatsIn(m[b := d]) == StatsIn(m)[b := d.stats] && |m[b := d]| == |m| + if b in m then 0 else 1
    ensures b in StatsIn(m) <==> b in m
    ensures b in m ==> StatsIn(m)[b] == m[b].stats
  {
  }

  lemma BucketAdded(table: seq<Ptr>, m: map<Ptr, Bucket>, l: Lists<nat>, of: map<Stack, Ptr>, b: Ptr, stack: Stack)
    requires BucketsOk(table, m, l, of) && stack !in of && b !in m && b != NULL && b % 4 == 0
    ensures |table| == HASH_TABLE_SIZE
    ensures var h := SlotOf(HashOf(stack)); var d := Bucket(table[h], HashOf(stack), stack, ZERO);
            BucketsOk(table[h := b], m[b := d], l.Push(b, h), of[stack := b])
  {
    hide HashOf, SlotOf;
    var h := SlotOf(HashOf(stack));
    l.PushValid(b, h);
    var m', l', of' := m[b := Bucket(table[h], HashOf(stack), stack, ZERO)], l.Push(b, h), of[stack := b];
    forall x | x in m' ensures BucketOk(m', l', of', x) {
      assert x != b ==> BucketOk(m, l, of, x);
    }
    forall st | st in of' ensures of'[st] in m' && m'[of'[st]].stack == st {
      assert st != stack ==> of[st] in m;
    }
  }

  lemma StatsWritten(table: seq<Ptr>, m: map<Ptr, Bucket>, l: Lists<nat>, of: map<Stack, Ptr>, b: Ptr, x: Stats)
    requires BucketsOk(table, m, l, of) && b in m
    ensures BucketsOk(table, m[b := m[b].(stats := x)], l, of)
    ensures StatsIn(m[b := m[b].(stats := x)]) == StatsIn(m)[b := x]
  {
    hide HashOf, SlotOf;
    var m' := m[b := m[b].(stats := x)];
    forall y | y in m' ensures BucketOk(m', l, of, y) { assert BucketOk(m, l, of, y); }
    forall st | st in of ensures of[st] in m' && m'[of[st]].stack == st { assert m[of[st]].stack == st; }
  }

  lemma BucketAligned(table: seq<Ptr>, m: map<Ptr, Bucket>, l: Lists<nat>, of: map<Stack, Ptr>, stack: Stack)
    requires BucketsOk(table, m, l, of) && stack in of
    ensures of[stack] in m && of[stack] % 4 == 0
  {
    hide HashOf, SlotOf;
    assert m[of[stack]].stack == stack && BucketOk(m, l, of, of[stack]);
  }

  lemma BucketKnown(k: Books, p: Number)
    requires Totals(k) && p in k.contents
    ensures k.contents[p].Bucket() in k.stats
  {
  }

  /** What a walk along a chain relies on. */
  lemma BucketsWalk(table: seq<Ptr>, m: map<Ptr, Bucket>, l: Lists<nat>, of: map<Stack, Ptr>, stack: Stack)
    requires BucketsOk(table, m, l, of)
    ensures forall x :: x in m ==> m[x].next == l.next[x] && m[x].hash == HashOf(m[x].stack)
    ensures forall x :: x in m && m[x].stack == stack ==> stack in of && of[stack] == x
    ensures stack in of ==> of[stack] in m && of[stack] != NULL && l.On(of[stack], SlotOf(HashOf(stack))) && m[of[stack]].stack == stack
    ensures l.Valid() && l.home.Keys == m.Keys && |table| == HASH_TABLE_SIZE
    ensures table[SlotOf(HashOf(stack))] == l.HeadOf(SlotOf(HashOf(stack)))
  {
    hide HashOf, SlotOf;
    forall x | x in m
      ensures m[x].next == l.next[x] && m[x].hash == HashOf(m[x].stack) && (m[x].stack == stack ==> stack in of && of[stack] == x)
    {
      assert BucketOk(m, l, of, x);
    }
    assert stack in of ==> BucketOk(m, l, of, of[stack]);
  }

  lemma EmptyTable()
    ensures BucketsOk(seq(HASH_TABLE_SIZE, i => NULL), map[], Lists(map[], map[], map[], map[]), map[])
    ensures Totals(Books(map[], StatsIn(map[]), ZERO)) && StatsIn(map[]) == map[]
  {
    assert Column(map[], Allocs) == map[] && Column(map[], Frees) == map[];
    assert Column(map[], AllocSize) == map[] && Column(map[], FreeSize) == map[];
  }

  // ---------- runs of calls ----------

  datatype Call = AllocCall(p: Number, bytes: nat, stack: Stack) | FreeCall(p: Number)

  /** The recorded addresses after a run of calls. */
  function Recorded(known: set<Number>, calls: seq<Call>): set<Number> {
    if |calls| == 0 then known
    else
      var before, c := Recorded(known, calls[..|calls| - 1]), calls[|calls| - 1];
      if c.AllocCall? then before + {c.p} else before - {c.p}
  }

  /** No call allocates at an address that is recorded at that time. */
  predicate NoOverwrite(known: set<Number>, calls: seq<Call>) {
    |calls| > 0 ==>
      && NoOverwrite(known, calls[..|calls| - 1])
      && (calls[|calls| - 1].AllocCall? ==> calls[|calls| - 1].p !in Recorded(known, calls[..|calls| - 1]))
  }

  /** The event of a call: an allocation goes to the bucket of its stack trace. */
  ghost predicate EventOf(c: Call, of: map<Stack, Ptr>, e: Event) {
    match c
    case AllocCall(p, bytes, stack) => stack in of && e == Alloc(p, bytes, of[stack])
    case FreeCall(p) => e == Free(p)
  }

  ghost predicate EventsOf(calls: seq<Call>, of: map<Stack, Ptr>, es: seq<Event>) {
    |es| == |calls| && forall i :: 0 <= i < |calls| ==> EventOf(calls[i], of, es[i])
  }

  lemma EventsMore(calls: seq<Call>, of: map<Stack, Ptr>, es: seq<Event>, of': map<Stack, Ptr>, c: Call, e: Event)
    requires EventsOf(calls, of, es) && EventOf(c, of', e) && forall st :: st in of ==> st in of' && of'[st] == of[st]
    ensures EventsOf(calls + [c], of', es + [e])
  {
  }

  lemma BucketsDiffer(table: seq<Ptr>, m: map<Ptr, Bucket>, l: Lists<nat>, of: map<Stack, Ptr>)
    requires BucketsOk(table, m, l, of)
    ensures forall s, t :: s in of && t in of && of[s] == of[t] ==> s == t
  {
    hide HashOf, SlotOf, BucketOk;
    forall s, t | s in of && t in of && of[s] == of[t] ensures s == t { assert m[of[s]].stack == s && m[of[t]].stack == t; }
  }

  /** One more call and its event. */
  lemma CallEvent(k: Books, es: seq<Event>, known: set<Number>, calls: seq<Call>, c: Call, of: map<Stack, Ptr>, e: Event)
    requires Run(k, es).contents.Keys == Recorded(known, calls) && (Clean(k, es) <==> NoOverwrite(known, calls)) && Aligned(es)
    requires EventOf(c, of, e) && (e.Alloc? ==> e.bucket % 4 == 0)
    ensures Run(k, es + [e]) == After(Run(k, es), e) && Aligned(es + [e])
    ensures Run(k, es + [e]).contents.Keys == Recorded(known, calls + [c])
    ensures Clean(k, es + [e]) <==> NoOverwrite(known, calls + [c])
  {
    assert (es + [e])[..|es|] == es && (calls + [c])[..|calls|] == calls;
  }

  class HeapProfileTable {
    const allocMap: AddressMap<AllocValue>
    var table: seq<Ptr>
    var bucketMem: map<Ptr, Bucket>
    var top: Ptr                                // addresses from here on are unused
    var numBuckets: nat
    var total: Stats

    ghost var chains: Lists<nat>
    ghost var bucketOf: map<Stack, Ptr>

    ghost function TheBooks(): Books
      reads this, allocMap
    {
      Books(allocMap.Contents, StatsIn(bucketMem), total)
    }

    ghost predicate Valid()
      reads this, allocMap
    {
      && allocMap.Valid() && BucketsOk(table, bucketMem, chains, bucketOf) && Totals(TheBooks())
      && (forall b :: b in bucketMem ==> b < top) && top % 4 == 0 && top > 0 && numBuckets == |bucketMem|
    }

    constructor ()
      ensures Valid() && fresh(allocMap) && TheBooks() == Books(map[], map[], ZERO)
    {
      hide BucketsOk, Totals, Represents;
      EmptyTable();
      allocMap := new AddressMap();
      table := seq(HASH_TABLE_SIZE, i => NULL);
      bucketMem, top, numBuckets, total := map[], 4, 0, ZERO;
      chains, bucketOf := Lists(map[], map[], map[], map[]), map[];
    }

    /** The hash of a stack trace. */
    static method ComputeHash(key: Stack) returns (h: bv64)
      ensures h == HashOf(key)
    {
      hide Mix, Finish;
      h := 0;
      for i := 0 to |key|
        invariant h == Mixed(key[..i])
      {
        assert key[..i + 1][..i] == key[..i];
        h := Mix(h, key[i]);
      }
      assert key[..|key|] == key;
      h := Finish(h);
    }

    /** Follows a chain until the bucket with the stack trace, here `t`, or the end. */
    static method WalkChain(m: map<Ptr, Bucket>, head: Ptr, h: bv64, key: Stack, ghost l: Lists<nat>, ghost i: nat, ghost t: Ptr)
      returns (b: Ptr)
      requires l.Valid() && l.home.Keys == m.Keys && head == l.HeadOf(i) && h == HashOf(key)
      requires forall x :: x in m ==> m[x].next == l.next[x] && m[x].hash == HashOf(m[x].stack)
      requires t != NULL ==> l.On(t, i) && m[t].stack == key
      requires forall x :: x in m && m[x].stack == key ==> x == t
      ensures b == t
    {
      hide HashOf;
      b := head;
      if t != NULL { l.HeadAbove(i, t); }
      if head != NULL { l.HeadOn(i); }
      while b != NULL
        invariant b != NULL ==> l.On(b, i)
        invariant t != NULL ==> b != NULL && l.pos[t] <= l.pos[b]
        decreases if b == NULL then 0 else l.pos[b] + 1
      {
        if m[b].hash == h && |m[b].stack| == |key| && m[b].stack == key {
          return;
        }
        if t != NULL { l.NextAbove(b, t); }
        if m[b].next != NULL { l.NextOn(b); }
        b := m[b].next;
      }
    }

    /** Puts an empty bucket in front of a chain. */
    method CreateBucket(key: Stack, h: bv64) returns (b: Ptr)
      requires BucketsOk(table, bucketMem, chains, bucketOf) && key !in bucketOf && h == HashOf(key)
      requires (forall x :: x in bucketMem ==> x < top) && top % 4 == 0 && top > 0
      modifies this`bucketMem, this`table, this`top, this`numBuckets, this`chains, this`bucketOf
      ensures BucketsOk(table, bucketMem, chains, bucketOf) && bucketOf == old(bucketOf)[key := b]
      ensures b !in old(bucketMem) && StatsIn(bucketMem) == old(StatsIn(bucketMem))[b := ZERO]
      ensures numBuckets == old(numBuckets) + 1 && |bucketMem| == old(|bucketMem|) + 1
      ensures (forall x :: x in bucketMem ==> x < top) && top % 4 == 0 && top > 0 && b % 4 == 0
    {
      hide HashOf, SlotOf, BucketsOk, StatsIn;
      b := top;
      BucketAdded(table, bucketMem, chains, bucketOf, b, key);
      StatsAdded(bucketMem, b, Bucket(table[SlotOf(h)], h, key, ZERO));
      chains, bucketOf := chains.Push(b, SlotOf(h)), bucketOf[key := b];
      top := top + 4;
      numBuckets := numBuckets + 1;
      bucketMem := bucketMem[b := Bucket(table[SlotOf(h)], h, key, ZERO)];
      table := table[SlotOf(h) := b];
    }

    /** Looks a stack trace up in its chain. */
    method Lookup(key: Stack) returns (h: bv64, b: Ptr)
      requires BucketsOk(table, bucketMem, chains, bucketOf)
      ensures h == HashOf(key) && b == if key in bucketOf then bucketOf[key] else NULL
      ensures b != NULL <==> key in bucketOf
      ensures b != NULL ==> b in bucketMem
    {
      hide HashOf, SlotOf, BucketsOk;
      h := ComputeHash(key);
      BucketsWalk(table, bucketMem, chains, bucketOf, key);
      b := WalkChain(bucketMem, table[SlotOf(h)], h, key, chains, SlotOf(h), if key in bucketOf then bucketOf[key] else NULL);
    }

    /** The bucket of a stack trace, created empty if there is none. */
    method GetBucket(key: Stack) returns (b: Ptr)
      requires Valid()
      modifies this
      ensures Valid() && key in bucketOf && b == bucketOf[key]
      ensures bucketOf == old(bucketOf)[key := b] && (key in old(bucketOf) ==> b == old(bucketOf)[key])
      ensures TheBooks() == Opened(old(TheBooks()), b) && (b in old(bucketMem) <==> key in old(bucketOf))
    {
      hide HashOf, SlotOf, Represents, BucketsOk, StatsIn, Totals;
      ghost var k := TheBooks();
      var h;
      h, b := Lookup(key);
      if b == NULL {
        b := CreateBucket(key, h);
        TotalsKept(k, 0, 0, b);
        StatsAdded(old(bucketMem), b, Bucket(0, 0, [], ZERO));
      } else {
        StatsAdded(bucketMem, b, bucketMem[b]);
        assert bucketOf[key := b] == bucketOf;
        assert StatsIn(bucketMem)[b := StatsIn(bucketMem)[b]] == StatsIn(bucketMem);
      }
    }

    /** Writes the statistics of one bucket and the overall ones. */
    method Account(b: Ptr, x: Stats, t: Stats)
      requires allocMap.Valid() && BucketsOk(table, bucketMem, chains, bucketOf) && b in bucketMem
      modifies this`bucketMem, this`total
      ensures BucketsOk(table, bucketMem, chains, bucketOf) && StatsIn(bucketMem) == old(StatsIn(bucketMem))[b := x] && total == t
      ensures bucketMem.Keys == old(bucketMem.Keys) && |bucketMem| == old(|bucketMem|)
    {
      hide Represents, BucketsOk;
      StatsWritten(table, bucketMem, chains, bucketOf, b, x);
      StatsAdded(bucketMem, b, bucketMem[b].(stats := x));
      bucketMem := bucketMem[b := bucketMem[b].(stats := x)];
      total := t;
    }

    /** Every allocation starts neither live nor ignored. */
    method RecordAlloc(p: Number, bytes: nat, stack: Stack)
      requires Valid()
      modifies this, allocMap
      ensures Valid() && stack in bucketOf && (stack in old(bucketOf) ==> bucketOf == old(bucketOf))
      ensures stack !in old(bucketOf) ==> bucketOf == old(bucketOf)[stack := bucketOf[stack]] && bucketOf[stack] !in old(bucketMem)
      ensures bucketOf[stack] % 4 == 0 && TheBooks() == Charged(old(TheBooks()), p, bytes, bucketOf[stack])
    {
      hide Represents, HashOf, Totals, StatsIn, BucketsOk;
      ghost var k := TheBooks();
      var b := GetBucket(stack);
      BucketAligned(table, bucketMem, chains, bucketOf, stack);
      ChargeOpened(k, p, bytes, b);
      TotalsKept(TheBooks(), p, bytes, b);
      StatsAdded(bucketMem, b, bucketMem[b]);
      Account(b, bucketMem[b].stats.Allocated(bytes), total.Allocated(bytes));
      allocMap.Insert(p, AllocValue(b, bytes));
      assert TheBooks() == Charged(k, p, bytes, b);
    }

    /** An address that is not recorded is ignored. */
    method RecordFree(p: Number)
      requires Valid()
      modifies this, allocMap
      ensures Valid() && bucketOf == old(bucketOf) && TheBooks() == Released(old(TheBooks()), p)
    {
      hide Represents, HashOf, BucketsOk, StatsIn, Totals;
      ghost var k := TheBooks();
      TotalsKept(k, p, 0, 0);
      var found, v := allocMap.FindAndRemove(p);
      if found {
        var b := v.Bucket();
        BucketKnown(k, p);
        StatsAdded(bucketMem, b, Bucket(0, 0, [], ZERO));
        Account(b, bucketMem[b].stats.Freed(v.bytes), total.Freed(v.bytes));
      } else {
        assert k.contents - {p} == k.contents;
      }
      assert TheBooks() == Released(k, p);
    }

    method FindAlloc(p: Number) returns (found: bool, size: nat)
      requires Valid()
      ensures found == (p in allocMap.Contents) && (found ==> size == allocMap.Contents[p].bytes)
    {
      hide Represents, HashOf;
      var e := allocMap.FindMutable(p);
      found, size := e != NULL, if e == NULL then 0 else allocMap.entryMem[e].value.bytes;
    }

    static function SizeOf(v: AllocValue): nat { v.bytes }

    method FindInsideAlloc(p: Number, maxSize: nat) returns (found: bool, start: Number, size: nat)
      requires Valid() && Disjoint(allocMap.Contents, SizeOf)
      ensures Answer(allocMap.Contents, SizeOf, maxSize, p, found, start)
      ensures found ==> start in allocMap.Contents && size == allocMap.Contents[start].bytes
    {
      hide HashOf;
      var e;
      e, start := allocMap.FindInside(SizeOf, maxSize, p);
      found := e != NULL;
      if found {
        EntryOfKey(allocMap.Mem(), allocMap.shape, allocMap.Contents, start);
        size := allocMap.entryMem[e].value.bytes;
      } else {
        size := 0;
      }
    }

    /** Rewrites the flags of a recorded allocation in place. */
    method WriteFlags(e: Ptr, ghost p: Number, v: AllocValue)
      requires Valid() && p in allocMap.Contents && p in allocMap.shape.entryOf && e == allocMap.shape.entryOf[p]
      requires v.Bucket() == allocMap.Contents[p].Bucket() && v.bytes == allocMap.Contents[p].bytes
      modifies allocMap
      ensures Valid() && TheBooks() == old(TheBooks()).(contents := old(allocMap.Contents)[p := v])
      ensures Balanced(old(TheBooks())) ==> Balanced(TheBooks())
    {
      hide Represents, HashOf, BucketsOk, Totals, Balanced;
      FlagsNeutral(TheBooks(), allocMap.Contents[p := v]);
      allocMap.Store(e, p, v);
    }

    /** True exactly when the allocation is recorded and was not live. */
    method MarkAsLive(p: Number) returns (marked: bool)
      requires Valid()
      modifies allocMap
      ensures Valid() && marked == (p in old(allocMap.Contents) && !old(allocMap.Contents)[p].Live())
      ensures marked ==> allocMap.Contents == old(allocMap.Contents)[p := old(allocMap.Contents)[p].SetLive(true)]
      ensures !marked ==> allocMap.Contents == old(allocMap.Contents)
      ensures Balanced(old(TheBooks())) ==> Balanced(TheBooks())
    {
      hide Represents, HashOf, BucketsOk, Totals, Balanced;
      var e := allocMap.FindMutable(p);
      marked := false;
      if e != NULL && !allocMap.entryMem[e].value.Live() {
        var v := allocMap.entryMem[e].value;
        v.LiveApart(true);
        WriteFlags(e, p, v.SetLive(true));
        marked := true;
      }
    }

    method MarkAsIgnored(p: Number)
      requires Valid()
      modifies allocMap
      ensures Valid()
      ensures allocMap.Contents == if p in old(allocMap.Contents) then old(allocMap.Contents)[p := old(allocMap.Contents)[p].SetIgnore(true)]
                                   else old(allocMap.Contents)
      ensures Balanced(old(TheBooks())) ==> Balanced(TheBooks())
    {
      hide Represents, HashOf, BucketsOk, Totals, Balanced;
      var e := allocMap.FindMutable(p);
      if e != NULL {
        var v := allocMap.entryMem[e].value;
        v.IgnoreApart(true);
        WriteFlags(e, p, v.SetIgnore(true));
      }
    }

    /** Shows every recorded object to a callback, each exactly once. */
    method IterateAllocs<A>(f: Reader<AllocValue, A>, a: A) returns (a': A, ghost order: seq<Number>)
      requires Valid()
      modifies allocMap
      ensures Valid() && TheBooks() == old(TheBooks())
      ensures NoDup(order) && (forall p :: p in order <==> p in old(allocMap.Contents)) && a' == Gather(order, old(allocMap.Contents), a, f)
    {
      hide Represents, HashOf, BucketsOk, Totals;
      a', order := allocMap.Iterate(Reading(f), a);
      GatherIs(order, old(allocMap.Contents), a, f);
    }

    /** Every recorded object, with matching totals. */
    method TakeSnapshot() returns (s: Snapshot)
      requires Valid()
      modifies allocMap
      ensures Valid() && TheBooks() == old(TheBooks())
      ensures s.entries == allocMap.Contents && s.Tallied()
    {
      hide Represents, HashOf, BucketsOk, Totals;
      ghost var order;
      s, order := allocMap.Iterate(AddToSnapshot(), EMPTY);
      AllCollected(old(allocMap.Contents), order);
      assert Copied(old(allocMap.Contents), order) == old(allocMap.Contents);
    }

    /** Exactly the objects that are neither live nor in the base, with matching totals;
        every live bit is cleared and nothing else changes. */
    method NonLiveSnapshot(base: Base) returns (s: Snapshot)
      requires Valid()
      modifies allocMap
      ensures Valid() && TheBooks() == old(TheBooks()).(contents := allocMap.Contents)
      ensures var c, d := old(allocMap.Contents), s.entries;
              && (forall p :: p in d <==> p in c && !c[p].Live() && !(base.From? && p in base.snapshot.entries)) && forall p :: p in d ==> d[p] == c[p]
      ensures s.Tallied()
      ensures allocMap.Contents == map p | p in old(allocMap.Contents) :: old(allocMap.Contents)[p].SetLive(false)
      ensures Balanced(old(TheBooks())) ==> Balanced(TheBooks())
      ensures (forall p :: p in s.entries ==> !s.entries[p].Ignored())
              <==> forall p :: p in old(allocMap.Contents) && !old(allocMap.Contents)[p].Live() && !InBase(base, p) ==>
                                 !old(allocMap.Contents)[p].Ignored()
    {
      hide Represents, HashOf, BucketsOk, Totals, Balanced;
      ghost var k := TheBooks();
      ghost var order;
      s, order := allocMap.Iterate(AddIfNonLive(base), EMPTY);
      NonLiveVisited(k, order, base);
      NonIgnoredPromise(k.contents, base, s.entries);
    }

    /** Performs the calls in turn: each is one event of the books, an allocation at the bucket of its
        stack trace, and different stack traces have different buckets. Starting from balanced
        books, every bucket balance is the count and the bytes of the entries that point to it
        afterwards if and only if no call allocated at a recorded address. */
    method Perform(calls: seq<Call>) returns (ghost es: seq<Event>)
      requires Valid()
      modifies this, allocMap
      ensures EventsOf(calls, bucketOf, es) && TheBooks() == Run(old(TheBooks()), es)
      ensures forall s, t :: s in bucketOf && t in bucketOf && bucketOf[s] == bucketOf[t] ==> s == t
      ensures Valid() && allocMap.Contents.Keys == Recorded(old(allocMap.Contents.Keys), calls)
      ensures old(Balanced(TheBooks())) ==> (Balanced(TheBooks()) <==> NoOverwrite(old(allocMap.Contents.Keys), calls))
    {
      hide Represents, HashOf, BucketsOk, Totals, Balanced, StatsIn, EventsOf, EventOf, Clean, NoOverwrite, Recorded, Run, Aligned;
      ghost var k, known := TheBooks(), allocMap.Contents.Keys;
      es := [];
      NoCalls(k, known, bucketOf);
      for i := 0 to |calls|
        invariant EventsOf(calls[..i], bucketOf, es) && Valid() && TheBooks() == Run(k, es) && Aligned(es)
        invariant Run(k, es).contents.Keys == Recorded(known, calls[..i]) && (Clean(k, es) <==> NoOverwrite(known, calls[..i]))
      {
        assert calls[..i] + [calls[i]] == calls[..i + 1];
        ghost var of := bucketOf;
        ghost var e := PerformOne(calls[i]);
        CallEvent(k, es, known, calls[..i], calls[i], bucketOf, e);
        EventsMore(calls[..i], of, es, bucketOf, calls[i], e);
        es := es + [e];
      }
      assert calls[..|calls|] == calls;
      BucketsDiffer(table, bucketMem, chains, bucketOf);
      if Balanced(k) {
        RunBalance(k, es);
      }
    }

    method PerformOne(c: Call) returns (ghost e: Event)
      requires Valid()
      modifies this, allocMap
      ensures Valid() && EventOf(c, bucketOf, e) && TheBooks() == After(old(TheBooks()), e) && (e.Alloc? ==> e.bucket % 4 == 0)
      ensures forall st :: st in old(bucketOf) ==> st in bucketOf && bucketOf[st] == old(bucketOf)[st]
    {
      hide Represents, HashOf, BucketsOk, Totals, StatsIn, Charged, ProfileBooks.Released;
      match c {
        case AllocCall(p, bytes, stack) =>
          RecordAlloc(p, bytes, stack);
          e := Alloc(p, bytes, bucketOf[stack]);
        case FreeCall(p) =>
          RecordFree(p);
          e := Free(p);
      }
    }
  }

  lemma NoCalls(k: Books, known: set<Number>, of: map<Stack, Ptr>)
    ensures EventsOf([], of, []) && Run(k, []) == k && Aligned([]) && Recorded(known, []) == known && Clean(k, []) && NoOverwrite(known, [])
  {
  }

  // ---------- runs where an expectation fails ----------

  /** Two allocations at one address from different stack traces leave the books unbalanced. */
  method AllocTwice() returns (t: HeapProfileTable)
    ensures t.Valid() && !Balanced(t.TheBooks())
  {
    hide Represents, HashOf, BucketsOk, Totals, Balanced, StatsIn, NoOverwrite, Recorded, HeapProfileTable.Valid;
    t := new HeapProfileTable();
    var calls := [AllocCall(16, 8, [1]), AllocCall(16, 8, [2])];
    NothingBalanced();
    AddressTwice(t.allocMap.Contents.Keys, calls);
    ghost var es := t.Perform(calls);
  }

  lemma AddressTwice(known: set<Number>, calls: seq<Call>)
    requires |calls| == 2 && calls[0].AllocCall? && calls[1].AllocCall? && calls[0].p == calls[1].p
    ensures !NoOverwrite(known, calls)
  {
    assert calls[..1] == [calls[0]];
  }

  lemma NothingBalanced()
    ensures Balanced(Books(map[], map[], ZERO))
  {
  }

  /** An ignored object that no marking has made live is in the snapshot. */
  method SnapshotOfIgnored() returns (s: Snapshot)
    ensures 16 in s.entries && s.entries[16].Ignored()
  {
    hide Represents, HashOf, BucketsOk, Totals, Charged, StatsIn, AllocValue.SetIgnore, AllocValue.Live, AllocValue.Ignored, HeapProfileTable.Valid;
    var t := new HeapProfileTable();
    t.RecordAlloc(16, 8, [1]);
    ghost var v := AllocValue(t.bucketOf[[1]], 8);
    ChargedEntry(Books(map[], map[], ZERO), 16, 8, t.bucketOf[[1]]);
    assert t.TheBooks().contents == t.allocMap.Contents;
    NewIsPlain(t.bucketOf[[1]], 8);
    t.MarkAsIgnored(16);
    v.IgnoreApart(true);
    s := t.NonLiveSnapshot(NoBase);
  }

  lemma NewIsPlain(b: Ptr, bytes: nat)
    requires b % 4 == 0
    ensures !AllocValue(b, bytes).Live() && !AllocValue(b, bytes).Ignored()
  {
  }

  lemma ChargedEntry(k: Books, p: Number, bytes: nat, b: Ptr)
    ensures p in Charged(k, p, bytes, b).contents && Charged(k, p, bytes, b).contents[p] == AllocValue(b, bytes)
  {
  }
}
