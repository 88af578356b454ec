/** The address map: a hash table of clusters, each an array of block lists, with a
    free list of spare entries. Entries and clusters live in memory addressed by
    pointers, and every operation relinks them in place. */
module AddressMaps {
  import opened AddressFold
  import opened AddressMemory
  import opened AddressSearch
  import opened Collections
  import opened Lists

  class AddressMap<V(0)> {
    var hashtable: seq<Ptr>
    var free: Ptr
    var clusterMem: map<Ptr, Cluster>
    var entryMem: map<Ptr, Entry<V>>
    var top: Ptr                                // addresses from here on are unused

    ghost var Contents: map<Number, V>
    ghost var shape: Shape

    function Mem(): Memory<V>
      reads this
    {
      Memory(hashtable, clusterMem, entryMem, free)
    }

    ghost predicate Valid()
      reads this
    {
      && Represents(Mem(), shape, Contents)
      && (forall c :: c in clusterMem ==> c < top) && (forall e :: e in entryMem ==> e < top) && 0 < top
    }

    constructor ()
      ensures Valid() && Contents == map[]
    {
      hashtable := seq(HASH_SIZE, i => NULL);
      free := NULL;
      clusterMem, entryMem, top := map[], map[], 1;
      Contents := map[];
      shape := Shape(Lists(map[], map[], map[], map[]), Lists(map[], map[], map[], map[]), map[], map[]);
    }

    /** Hashes the cluster id and walks the chain. */
    method LookupCluster(address: Number) returns (c: Ptr)
      requires Valid()
      ensures c == if ClusterId(address) in shape.clusterOf then shape.clusterOf[ClusterId(address)] else NULL
      ensures c != NULL <==> ClusterId(address) in shape.clusterOf
      ensures c != NULL ==> c in clusterMem && |clusterMem[c].blocks| == CLUSTER_BLOCKS
    {
      var id := ClusterId(address);
      ClustersWalk(hashtable, clusterMem, shape.chains, shape.clusterOf, id);
      c := WalkChain(clusterMem, hashtable[HashInt(id)], id, shape.chains, HashInt(id),
                     if id in shape.clusterOf then shape.clusterOf[id] else NULL);
    }

    /** Follows a hash chain until the cluster with the id, here `t`, or the end. */
    static method WalkChain(cm: map<Ptr, Cluster>, head: Ptr, id: nat, ghost l: Lists<nat>, ghost h: nat, ghost t: Ptr)
      returns (c: Ptr)
      requires l.Valid() && l.home.Keys == cm.Keys && head == l.HeadOf(h)
      requires forall x :: x in cm ==> cm[x].next == l.next[x]
      requires t != NULL ==> l.On(t, h) && cm[t].id == id
      requires forall x :: x in cm && cm[x].id == id ==> x == t
      ensures c == t
    {
      c := head;
      if t != NULL { l.HeadAbove(h, t); }
      if head != NULL { l.HeadOn(h); }
      while c != NULL
        invariant c != NULL ==> l.On(c, h)
        invariant t != NULL ==> c != NULL && l.pos[t] <= l.pos[c]
        decreases if c == NULL then 0 else l.pos[c] + 1
      {
        if cm[c].id == id {
          return;
        }
        if t != NULL { l.NextAbove(c, t); }
        if cm[c].next != NULL { l.NextOn(c); }
        c := cm[c].next;
      }
    }

    /** The entry stored for a key, or null; the source returns a pointer to the value
        field of this entry. */
    method FindMutable(key: Number) returns (e: Ptr)
      requires Valid()
      ensures e == if key in shape.entryOf then shape.entryOf[key] else NULL
      ensures e == NULL <==> key !in Contents
      ensures e != NULL ==> e in entryMem && entryMem[e].key == key && entryMem[e].value == Contents[key]
    {
      EntryOfKey(Mem(), shape, Contents, key);
      var c := LookupCluster(key);
      if c == NULL {
        return NULL;
      }
      e := FindInBlock(c, key);
    }

    /** Walks the block list of a key. */
    method FindInBlock(c: Ptr, key: Number) returns (e: Ptr)
      requires Valid() && ClusterId(key) in shape.clusterOf && shape.clusterOf[ClusterId(key)] == c
      ensures e == if key in shape.entryOf then shape.entryOf[key] else NULL
      ensures e != NULL <==> key in shape.entryOf
    {
      EntryOfKey(Mem(), shape, Contents, key);
      BlockHead(Mem(), shape, key);
      EntriesWalk(entryMem, shape.lists, shape.entryOf, Contents, key);
      e := WalkList(entryMem, clusterMem[c].blocks[BlockId(key)], key, shape.lists, Listed(PlaceOf(key)),
                    if key in shape.entryOf then shape.entryOf[key] else NULL);
    }

    /** Follows a block list until the entry with the key, here `t`, or the end. */
    static method WalkList(em: map<Ptr, Entry<V>>, head: Ptr, key: Number, ghost l: Lists<Home>, ghost h: Home, ghost t: Ptr)
      returns (e: Ptr)
      requires l.Valid() && l.home.Keys == em.Keys && head == l.HeadOf(h)
      requires forall x :: x in em ==> em[x].next == l.next[x]
      requires t != NULL ==> l.On(t, h) && em[t].key == key
      requires forall x :: l.On(x, h) && em[x].key == key ==> x == t
      ensures e == t
    {
      e := head;
      if t != NULL { l.HeadAbove(h, t); }
      if head != NULL { l.HeadOn(h); }
      while e != NULL
        invariant e != NULL ==> l.On(e, h)
        invariant t != NULL ==> e != NULL && l.pos[t] <= l.pos[e]
        decreases if e == NULL then 0 else l.pos[e] + 1
      {
        if em[e].key == key {
          return;
        }
        if t != NULL { l.NextAbove(e, t); }
        if em[e].next != NULL { l.NextOn(e); }
        e := em[e].next;
      }
    }

    /** The cluster of an address, created in front of its hash chain if there is none. */
    method FindOrCreateCluster(address: Number) returns (c: Ptr)
      requires Valid()
      modifies this
      ensures Valid() && Contents == old(Contents)
      ensures ClusterId(address) in shape.clusterOf && shape.clusterOf[ClusterId(address)] == c
    {
      hide Represents, NewCluster;
      c := LookupCluster(address);
      if c == NULL {
        var id := ClusterId(address);
        var h := HashInt(id);
        ClusterAdded(Mem(), shape, Contents, id, top);
        c := top;
        clusterMem := clusterMem[c := NewCluster(hashtable[h], id)];
        hashtable := hashtable[h := c];
        top := top + 1;
        shape := shape.(chains := shape.chains.Push(c, h), clusterOf := shape.clusterOf[id := c]);
      }
    }

    /** Writes through the value pointer that `FindMutable` hands out. */
    method Store(e: Ptr, ghost key: Number, value: V)
      requires Valid() && key in Contents && e == shape.entryOf[key]
      modifies this`entryMem, this`Contents
      ensures Valid() && Contents == old(Contents)[key := value]
    {
      EntryOfKey(Mem(), shape, Contents, key);
      ValueStored(entryMem, shape.lists, shape.entryOf, Contents, key, value);
      entryMem := entryMem[e := entryMem[e].(value := value)];
      Contents := Contents[key := value];
    }

    /** The first `i` entries of the new array point to the one after them. */
    static ghost predicate Chained(em0: map<Ptr, Entry<V>>, em: map<Ptr, Entry<V>>, a: Ptr, i: nat, tail: Ptr, zero: V) {
      && (forall p :: p in em <==> p in em0 || a <= p < a + ALLOC_COUNT)
      && (forall p :: p in em ==>
            em[p] == if a <= p < a + ALLOC_COUNT then Entry(if p < a + i then p + 1 else tail, 0, zero) else em0[p])
    }

    /** Allocates a batch of zeroed entries and chains them in front of the free list. */
    method AllocBatch(zero: V)
      requires Valid()
      modifies this`entryMem, this`free, this`top, this`shape
      ensures Valid() && free != NULL
      ensures shape.clusterOf == old(shape.clusterOf) && shape.entryOf == old(shape.entryOf)
    {
      hide Represents;
      ghost var s' := BatchAdded(Mem(), shape, Contents, top, ALLOC_COUNT, zero);
      var em := ChainArray(entryMem, top, free, zero);
      ChainedIsBatch(Mem(), em, top, zero);
      entryMem := em;
      free := top;
      top := top + ALLOC_COUNT;
      shape := s';
    }

    static lemma ChainedIsBatch(m: Memory<V>, em: map<Ptr, Entry<V>>, a: Ptr, zero: V)
      requires Chained(m.entries, em, a, ALLOC_COUNT - 1, m.free, zero)
      ensures Batch(m, a, ALLOC_COUNT, zero) == m.(entries := em, free := a)
      ensures forall p :: p in em ==> p in m.entries || p < a + ALLOC_COUNT
    {
      BatchIs(m, a, ALLOC_COUNT, zero);
      var r := Batch(m, a, ALLOC_COUNT, zero).entries;
      forall p | p in em ensures p in r && em[p] == r[p] {}
      assert em == r;
    }

    /** Chains a new array of entries. */
    static method ChainArray(em0: map<Ptr, Entry<V>>, a: Ptr, tail: Ptr, zero: V) returns (em: map<Ptr, Entry<V>>)
      requires forall p :: p in em0 ==> p < a
      ensures Chained(em0, em, a, ALLOC_COUNT - 1, tail, zero)
    {
      em := em0 + Zeroed(a, ALLOC_COUNT, zero);
      for i := 0 to ALLOC_COUNT - 1
        invariant Chained(em0, em, a, i, NULL, zero)
      {
        em := em[a + i := em[a + i].(next := a + i + 1)];
      }
      em := em[a + ALLOC_COUNT - 1 := em[a + ALLOC_COUNT - 1].(next := tail)];
    }

    /** Moves the first spare entry to the front of the block list of a new key. */
    method UseSpare(c: Ptr, key: Number, value: V)
      requires Valid() && key !in Contents && free != NULL
      requires ClusterId(key) in shape.clusterOf && shape.clusterOf[ClusterId(key)] == c
      modifies this`free, this`entryMem, this`clusterMem, this`Contents, this`shape
      ensures Valid() && Contents == old(Contents)[key := value]
    {
      hide Represents;
      ghost var s' := SpareUsedKeeps(Mem(), shape, Contents, key, value);
      ghost var m' := SpareUsed(Mem(), c, key, value);
      var e, block := free, BlockId(key);
      free := entryMem[e].next;
      entryMem := entryMem[e := Entry(clusterMem[c].blocks[block], key, value)];
      clusterMem := clusterMem[c := clusterMem[c].(blocks := clusterMem[c].blocks[block := e])];
      assert Mem() == m';
      shape := s';
      Contents := Contents[key := value];
    }

    /** Any old value of the key is replaced. */
    method Insert(key: Number, value: V)
      requires Valid()
      modifies this
      ensures Valid() && Contents == old(Contents)[key := value]
    {
      var c := FindOrCreateCluster(key);
      var e := FindInBlock(c, key);
      if e != NULL {
        Store(e, key, value);
        return;
      }
      if free == NULL {
        var zero: V := *;
        AllocBatch(zero);
      }
      UseSpare(c, key, value);
    }

    /** Follows a block list, keeping what points to the current entry, until the entry with
        the key, here `t`, or the end. */
    static method WalkLinks(em: map<Ptr, Entry<V>>, head: Ptr, key: Number, ghost l: Lists<Home>, ghost h: Home, ghost t: Ptr)
      returns (prev: Ptr, e: Ptr)
      requires l.Valid() && l.home.Keys == em.Keys && head == l.HeadOf(h)
      requires forall x :: x in em ==> em[x].next == l.next[x]
      requires t != NULL ==> l.On(t, h) && em[t].key == key
      requires forall x :: l.On(x, h) && em[x].key == key ==> x == t
      ensures e == t && (t != NULL ==> l.PointsTo(prev, t))
    {
      prev, e := NULL, head;
      if t != NULL { l.HeadAbove(h, t); }
      if head != NULL { l.HeadOn(h); }
      while e != NULL
        invariant e != NULL ==> l.On(e, h) && l.PointsTo(prev, e)
        invariant t != NULL ==> e != NULL && l.pos[t] <= l.pos[e]
        decreases if e == NULL then 0 else l.pos[e] + 1
      {
        if em[e].key == key {
          return;
        }
        if t != NULL { l.NextAbove(e, t); }
        if em[e].next != NULL { l.NextOn(e); }
        prev, e := e, em[e].next;
      }
    }

    /** Writes the link that skips the entry, and links it in front of the free list. */
    method Unhook(c: Ptr, prev: Ptr, e: Ptr, key: Number)
      requires e in entryMem && entryMem[e].key == key && c in clusterMem && (prev != NULL ==> prev in entryMem)
      requires BlockId(key) < |clusterMem[c].blocks|
      modifies this`free, this`entryMem, this`clusterMem
      ensures Mem() == old(Freed(Mem(), c, prev, e))
    {
      var n := entryMem[e].next;
      if prev == NULL {
        clusterMem := clusterMem[c := clusterMem[c].(blocks := clusterMem[c].blocks[BlockId(key) := n])];
      } else {
        entryMem := entryMem[prev := entryMem[prev].(next := n)];
      }
      entryMem := entryMem[e := entryMem[e].(next := free)];
      free := e;
    }

    /** Takes an entry out of its block list and puts it on the free list. */
    method Free(c: Ptr, prev: Ptr, e: Ptr, key: Number)
      requires Valid() && key in shape.entryOf && e == shape.entryOf[key] && shape.lists.PointsTo(prev, e)
      requires ClusterId(key) in shape.clusterOf && shape.clusterOf[ClusterId(key)] == c
      modifies this`free, this`entryMem, this`clusterMem, this`Contents, this`shape
      ensures Valid() && Contents == old(Contents) - {key}
    {
      hide Represents;
      ghost var s' := FreedKeeps(Mem(), shape, Contents, prev, key);
      ghost var m := Mem();
      shape := s';
      Contents := Contents - {key};
      assert Mem() == m;
      Unhook(c, prev, e, key);
    }

    method FindAndRemove(key: Number) returns (found: bool, value: V)
      requires Valid()
      modifies this
      ensures Valid() && Contents == old(Contents) - {key}
      ensures found == (key in old(Contents)) && (found ==> value == old(Contents)[key])
    {
      EntryOfKey(Mem(), shape, Contents, key);
      found, value := false, *;
      var c := LookupCluster(key);
      if c != NULL {
        BlockHead(Mem(), shape, key);
        EntriesWalk(entryMem, shape.lists, shape.entryOf, Contents, key);
        var prev, e := WalkLinks(entryMem, clusterMem[c].blocks[BlockId(key)], key, shape.lists, Listed(PlaceOf(key)),
                                 if key in shape.entryOf then shape.entryOf[key] else NULL);
        if e != NULL {
          found, value := true, entryMem[e].value;
          Free(c, prev, e, key);
        }
      }
    }

    /** Walks a block list for a range that the key points into, noting any smaller key `w`. */
    static method ScanList(em: map<Ptr, Entry<V>>, head: Ptr, size: V -> nat, key: Number, ghost l: Lists<Home>, ghost h: Home)
      returns (e: Ptr, hadSmallerKey: bool, ghost w: Ptr)
      requires l.Valid() && l.home.Keys == em.Keys && head == l.HeadOf(h)
      requires forall x :: x in em ==> em[x].next == l.next[x]
      requires forall x :: x in em && l.home[x].Listed? ==> em[x].key + size(em[x].value) < ADDRESS_SPACE
      requires h.Listed?
      ensures e != NULL ==> l.On(e, h) && Inside(em[e].key, size(em[e].value), key)
      ensures e == NULL ==> forall x :: l.On(x, h) ==> !Inside(em[x].key, size(em[x].value), key) && (em[x].key <= key ==> hadSmallerKey)
      ensures e == NULL && hadSmallerKey ==> l.On(w, h) && em[w].key <= key
    {
      e, hadSmallerKey, w := head, false, NULL;
      assert l.HeadOk(h);
      while e != NULL
        invariant e != NULL ==> l.On(e, h)
        invariant forall x :: l.On(x, h) && (e == NULL || l.pos[x] > l.pos[e]) ==>
                    !Inside(em[x].key, size(em[x].value), key) && (em[x].key <= key ==> hadSmallerKey)
        invariant hadSmallerKey ==> l.On(w, h) && em[w].key <= key
        decreases if e == NULL then 0 else l.pos[e] + 1
      {
        var start := em[e].key;
        if start <= key {
          if start == key || key < (start + size(em[e].value)) % ADDRESS_SPACE {
            return;
          }
          hadSmallerKey, w := true, e;
        }
        assert l.NodeOk(e);
        e := em[e].next;
      }
    }

    /** Scans the block of `num` in an existing cluster. */
    method ScanBlock(c: Ptr, num: Number, size: V -> nat, key: Number) returns (e: Ptr, hadSmallerKey: bool, ghost w: Number)
      requires Valid() && Disjoint(Contents, size)
      requires ClusterId(num) in shape.clusterOf && shape.clusterOf[ClusterId(num)] == c
      ensures e != NULL ==> e in entryMem && entryMem[e].key in Contents && shape.entryOf[entryMem[e].key] == e
      ensures e != NULL ==> entryMem[e].key / BLOCK_SIZE == num / BLOCK_SIZE
                            && Inside(entryMem[e].key, size(Contents[entryMem[e].key]), key)
      ensures e == NULL ==> forall k :: k in Contents && k / BLOCK_SIZE == num / BLOCK_SIZE ==>
                              !Inside(k, size(Contents[k]), key) && (k <= key ==> hadSmallerKey)
      ensures e == NULL && hadSmallerKey ==> w in Contents && w <= key && w / BLOCK_SIZE == num / BLOCK_SIZE
    {
      ghost var l, h := shape.lists, Listed(PlaceOf(num));
      BlockHead(Mem(), shape, num);
      EntriesWalk(entryMem, l, shape.entryOf, Contents, num);
      forall x | x in entryMem && l.home[x].Listed?
        ensures entryMem[x].key in Contents && Contents[entryMem[x].key] == entryMem[x].value
        ensures shape.entryOf[entryMem[x].key] == x && l.home[x].place == PlaceOf(entryMem[x].key)
      {
        EntryListed(entryMem, l, shape.entryOf, Contents, x);
      }
      ghost var x: Ptr;
      e, hadSmallerKey, x := ScanList(entryMem, clusterMem[c].blocks[BlockId(num)], size, key, l, h);
      w := if x in entryMem then entryMem[x].key else 0;
      if e == NULL {
        forall k | k in Contents && k / BLOCK_SIZE == num / BLOCK_SIZE
          ensures !Inside(k, size(Contents[k]), key) && (k <= key ==> hadSmallerKey)
        {
          PlaceIsBlock(k, num);
          EntryOfKey(Mem(), shape, Contents, k);
          assert l.On(shape.entryOf[k], h);
        }
        PlaceIsBlock(w, num);
      } else {
        PlaceIsBlock(entryMem[e].key, num);
      }
    }

    /** Scans the blocks of one cluster backwards from `from`; `done` when the search ends there. */
    method FindInCluster(c: Ptr, from: Number, size: V -> nat, maxSize: nat, key: Number)
      returns (done: bool, e: Ptr, resKey: Number, num: Number)
      requires Valid() && Disjoint(Contents, size) && NoneAbove(Contents, key, from) && At(key, from, maxSize)
      requires ClusterId(from) in shape.clusterOf && shape.clusterOf[ClusterId(from)] == c
      ensures done ==> Answer(Contents, size, maxSize, key, e != NULL, resKey)
      ensures done && e != NULL ==> resKey in shape.entryOf && e == shape.entryOf[resKey]
      ensures !done ==> num <= from && NoneAbove(Contents, key, num) && At(key, num, maxSize) && NoneHere(Contents, key, num)
    {
      num := from;
      while true
        invariant NoneAbove(Contents, key, num) && At(key, num, maxSize) && num <= from
        invariant ClusterId(num) == ClusterId(from)
        decreases num
      {
        var hadSmallerKey;
        ghost var w;
        e, hadSmallerKey, w := ScanBlock(c, num, size, key);
        if e != NULL {
          Found(Contents, size, maxSize, key, num, entryMem[e].key);
          return true, e, entryMem[e].key, num;
        }
        if hadSmallerKey {
          Covered(Contents, size, maxSize, key, num, w);
          return true, NULL, 0, num;
        }
        if BlockId(num) == 0 {
          FirstBlock(Contents, key, num);
          return false, NULL, 0, num;
        }
        SameCluster(num);
        BlockPassed(Contents, key, num, maxSize);
        num := StepBack(num, BLOCK_SIZE);
        if key - num > maxSize {
          Stopped(Contents, size, maxSize, key, num);
          return true, NULL, 0, num;
        }
      }
    }

    lemma NoClusterHere(num: Number, key: Number)
      requires Valid() && ClusterId(num) !in shape.clusterOf
      ensures NoneHere(Contents, key, num)
    {
      ClusterOfKeys(Mem(), shape, Contents);
    }

    /** Finds the range that the key points into, stepping back over blocks and clusters. */
    method FindInside(size: V -> nat, maxSize: nat, key: Number) returns (e: Ptr, resKey: Number)
      requires Valid() && Disjoint(Contents, size)
      ensures Answer(Contents, size, maxSize, key, e != NULL, resKey)
      ensures e != NULL ==> resKey in shape.entryOf && e == shape.entryOf[resKey]
    {
      hide Represents, NoneAbove, At, NoneHere, Answer, Disjoint, StepBack, ClusterId;
      e, resKey := NULL, 0;
      var num: Number := key;
      SearchStart(Contents, key, maxSize);
      while true
        invariant NoneAbove(Contents, key, num) && At(key, num, maxSize)
        decreases num
      {
        var c := LookupCluster(num);
        ghost var from := num;
        if c != NULL {
          var done;
          done, e, resKey, num := FindInCluster(c, num, size, maxSize, key);
          if done {
            return;
          }
        } else {
          NoClusterHere(num, key);
        }
        if num < CLUSTER_SIZE {
          FirstCluster(Contents, size, maxSize, key, num);
          return NULL, 0;
        }
        ClusterPassed(Contents, key, num, maxSize);
        num := StepBack(num, CLUSTER_SIZE);
        if key - num > maxSize {
          Stopped(Contents, size, maxSize, key, num);
          return NULL, 0;
        }
      }
    }

    /** The callback has been applied to the keys of `order` in turn, once to each. */
    ghost predicate Applied<A>(c0: map<Number, V>, a0: A, f: Callback<V, A>, order: seq<Number>, a: A)
      reads this
    {
      && Valid() && NoDup(order) && (forall k :: k in order ==> k in c0)
      && Fold(order, c0, a0, f) == (Contents, a)
    }

    method Apply<A>(e: Ptr, ghost key: Number, f: Callback<V, A>, a: A, ghost c0: map<Number, V>, ghost a0: A, ghost before: seq<Number>)
      returns (a': A, ghost order: seq<Number>)
      requires Applied(c0, a0, f, before, a) && key in Contents && e == shape.entryOf[key] && key !in before
      modifies this`entryMem, this`Contents
      ensures order == before + [key] && Applied(c0, a0, f, order, a') && Contents.Keys == old(Contents.Keys)
    {
      EntryOfKey(Mem(), shape, Contents, key);
      var (v, x) := f(entryMem[e].key, entryMem[e].value, a);
      FoldSnoc(before, key, c0, a0, f);
      Store(e, key, v);
      a', order := x, before + [key];
    }

    /** Visits one block list. */
    method IterateBlock<A>(c: Ptr, ghost id: nat, b: nat, f: Callback<V, A>, a: A, ghost c0: map<Number, V>, ghost a0: A, ghost before: seq<Number>)
      returns (a': A, ghost order: seq<Number>)
      requires Applied(c0, a0, f, before, a) && id in shape.clusterOf && shape.clusterOf[id] == c && b < CLUSTER_BLOCKS
      requires forall k :: k in before ==> PlaceOf(k) != Place(id, b)
      modifies this`entryMem, this`Contents
      ensures Applied(c0, a0, f, order, a') && Contents.Keys == old(Contents.Keys)
      ensures forall k :: k in order <==> k in before || (k in Contents && PlaceOf(k) == Place(id, b))
    {
      hide Fold, NoDup, ClustersOk;
      ghost var l, h := shape.lists, Listed(Place(id, b));
      a', order := a, before;
      assert BlocksOk(clusterMem, shape.clusterOf, l.head, id);
      var e := clusterMem[c].blocks[b];
      assert l.HeadOk(h);
      KeysListed(entryMem, l, shape.entryOf, Contents);
      while e != NULL
        invariant Applied(c0, a0, f, order, a') && Contents.Keys == old(Contents.Keys)
        invariant e != NULL ==> l.On(e, h)
        invariant forall k :: k in order <==>
                    k in before || (k in Contents && PlaceOf(k) == Place(id, b) && (e == NULL || l.pos[shape.entryOf[k]] > l.pos[e]))
        decreases if e == NULL then 0 else l.pos[e] + 1
      {
        EntryListed(entryMem, l, shape.entryOf, Contents, e);
        assert EntryOk(entryMem, l, shape.entryOf, e) && l.NodeOk(e);
        var n := entryMem[e].next;
        a', order := Apply(e, entryMem[e].key, f, a', c0, a0, order);
        e := n;
      }
    }

    /** Visits the block lists of one cluster. */
    method IterateCluster<A>(c: Ptr, ghost id: nat, f: Callback<V, A>, a: A, ghost c0: map<Number, V>, ghost a0: A, ghost before: seq<Number>)
      returns (a': A, ghost order: seq<Number>)
      requires Applied(c0, a0, f, before, a) && id in shape.clusterOf && shape.clusterOf[id] == c
      requires forall k :: k in before ==> ClusterId(k) != id
      modifies this`entryMem, this`Contents
      ensures Applied(c0, a0, f, order, a') && Contents.Keys == old(Contents.Keys)
      ensures forall k :: k in order <==> k in before || (k in Contents && ClusterId(k) == id)
    {
      hide Fold, NoDup, Represents;
      a', order := a, before;
      for b := 0 to CLUSTER_BLOCKS
        invariant Applied(c0, a0, f, order, a') && Contents.Keys == old(Contents.Keys)
        invariant forall k :: k in order <==> k in before || (k in Contents && ClusterId(k) == id && BlockId(k) < b)
      {
        a', order := IterateBlock(c, id, b, f, a', c0, a0, order);
      }
    }

    /** Visits the clusters of one hash chain. */
    method IterateChain<A>(h: nat, f: Callback<V, A>, a: A, ghost c0: map<Number, V>, ghost a0: A, ghost before: seq<Number>)
      returns (a': A, ghost order: seq<Number>)
      requires Applied(c0, a0, f, before, a) && h < HASH_SIZE
      requires forall k :: k in before ==> HashInt(ClusterId(k)) != h
      modifies this`entryMem, this`Contents
      ensures Applied(c0, a0, f, order, a') && Contents.Keys == old(Contents.Keys)
      ensures forall k :: k in order <==> k in before || (k in Contents && HashInt(ClusterId(k)) == h)
    {
      hide Fold, NoDup, EntriesOk, HeadsOk;
      ghost var l, ids := shape.chains, shape.clusterOf;
      a', order := a, before;
      var c := hashtable[h];
      assert l.HeadOk(h);
      ClusterOfKeys(Mem(), shape, Contents);
      IdsListed(hashtable, clusterMem, l, ids);
      while c != NULL
        invariant Applied(c0, a0, f, order, a') && Contents.Keys == old(Contents.Keys)
        invariant c != NULL ==> l.On(c, h)
        invariant forall k :: k in order <==>
                    k in before || (k in Contents && HashInt(ClusterId(k)) == h && (c == NULL || l.pos[ids[ClusterId(k)]] > l.pos[c]))
        decreases if c == NULL then 0 else l.pos[c] + 1
      {
        assert ClusterOk(clusterMem, l, ids, c) && l.NodeOk(c);
        a', order := IterateCluster(c, clusterMem[c].id, f, a', c0, a0, order);
        c := clusterMem[c].next;
      }
    }

    /** Applies the callback to every stored pair, each exactly once. */
    method Iterate<A>(f: Callback<V, A>, a: A) returns (a': A, ghost order: seq<Number>)
      requires Valid()
      modifies this`entryMem, this`Contents
      ensures Valid() && NoDup(order) && (forall k :: k in order <==> k in old(Contents))
      ensures (Contents, a') == Fold(order, old(Contents), a, f)
    {
      a', order := a, [];
      for h := 0 to HASH_SIZE
        invariant Applied(old(Contents), a, f, order, a') && Contents.Keys == old(Contents.Keys)
        invariant forall k :: k in order <==> k in Contents && HashInt(ClusterId(k)) < h
      {
        a', order := IterateChain(h, f, a', old(Contents), a, order);
      }
    }

    method Perform(op: Operation<V>) returns (r: Answered<V>)
      requires Valid()
      modifies this
      ensures Valid() && (Contents, r) == OnMap(old(Contents), op)
    {
      match op
      case Put(key, value) =>
        Insert(key, value);
        r := Nothing;
      case Get(key) =>
        var e := FindMutable(key);
        r := if e == NULL then Nothing else Just(entryMem[e].value);
      case Take(key) =>
        var found, value := FindAndRemove(key);
        r := if found then Just(value) else Nothing;
    }

    /** Any run of operations answers as the plain map does. */
    method Run(ops: seq<Operation<V>>) returns (rs: seq<Answered<V>>)
      requires Valid()
      modifies this
      ensures Valid() && (Contents, rs) == RunOnMap(old(Contents), ops)
    {
      rs := [];
      for i := 0 to |ops|
        invariant Valid() && (Contents, rs) == RunOnMap(old(Contents), ops[..i])
      {
        var r := Perform(ops[i]);
        assert ops[..i + 1][..i] == ops[..i];
        rs := rs + [r];
      }
      assert ops[..|ops|] == ops;
    }
  }

  datatype Operation<V> = Put(key: Number, value: V) | Get(key: Number) | Take(key: Number)
  datatype Answered<V> = Nothing | Just(value: V)

  /** The operations on a plain map. */
  ghost function OnMap<V>(m: map<Number, V>, op: Operation<V>): (map<Number, V>, Answered<V>) {
    match op
    case Put(key, value) => (m[key := value], Nothing)
    case Get(key) => (m, if key in m then Just(m[key]) else Nothing)
    case Take(key) => (m - {key}, if key in m then Just(m[key]) else Nothing)
  }

  ghost function RunOnMap<V>(m: map<Number, V>, ops: seq<Operation<V>>): (map<Number, V>, seq<Answered<V>>) {
    if |ops| == 0 then (m, [])
    else
      var (m', rs) := RunOnMap(m, ops[..|ops| - 1]);
      var (m'', r) := OnMap(m', ops[|ops| - 1]);
      (m'', rs + [r])
  }
}
