/** The linked structure of the address map as values in memory: what it represents and
    what each update of a pointer keeps. */
module AddressMemory {
  import opened Lists

  const ADDRESS_SPACE := 0x1_0000_0000_0000_0000
  const BLOCK_SIZE := 128
  const CLUSTER_BLOCKS := 8192
  const CLUSTER_SIZE := 0x10_0000
  const HASH_SIZE := 4096
  const HASH_MULTIPLIER := 2654435769
  const ALLOC_COUNT := 64

  type Number = n: nat | n < ADDRESS_SPACE

  /** Multiplicative hashing on 32 bits; the top 12 bits select the chain. */
  function HashInt(x: nat): (h: nat)
    ensures h < HASH_SIZE
  {
    ((x % 0x1_0000_0000) * HASH_MULTIPLIER % 0x1_0000_0000) / 0x10_0000
  }

  function ClusterId(address: nat): nat {
    address / CLUSTER_SIZE
  }

  function BlockId(address: nat): (b: nat)
    ensures b < CLUSTER_BLOCKS
  {
    (address / BLOCK_SIZE) % CLUSTER_BLOCKS
  }

  /** The cluster and the block within it that hold the entry of an address. */
  datatype Place = Place(id: nat, block: nat)

  function PlaceOf(address: nat): Place {
    Place(ClusterId(address), BlockId(address))
  }

  datatype Entry<V> = Entry(next: Ptr, key: Number, value: V)
  datatype Cluster = Cluster(next: Ptr, id: nat, blocks: seq<Ptr>)

  /** Where an entry is linked. */
  datatype Home = Spare | Listed(place: Place)

  /** The linked structure: hash table, clusters, entries and the free list head. */
  datatype Memory<V> = Memory(table: seq<Ptr>, clusters: map<Ptr, Cluster>, entries: map<Ptr, Entry<V>>, free: Ptr)

  /** What it represents: the hash chains, the block lists and free list, the cluster of
      each id and the entry of each key. */
  datatype Shape = Shape(chains: Lists<nat>, lists: Lists<Home>, clusterOf: map<nat, Ptr>, entryOf: map<Number, Ptr>)

  /** A cluster is on the chain its id hashes to, and is the only one with its id. */
  ghost predicate ClusterOk(m: map<Ptr, Cluster>, l: Lists<nat>, ids: map<nat, Ptr>, c: Ptr)
    requires c in m && c in l.next && c in l.home
  {
    var d := m[c];
    d.next == l.next[c] && l.home[c] == HashInt(d.id) && |d.blocks| == CLUSTER_BLOCKS && d.id in ids && ids[d.id] == c
  }

  ghost predicate ClustersOk(table: seq<Ptr>, m: map<Ptr, Cluster>, l: Lists<nat>, ids: map<nat, Ptr>) {
    && l.Valid() && l.next.Keys == m.Keys && |table| == HASH_SIZE
    && (forall c {:trigger ClusterOk(m, l, ids, c)} :: c in m ==> ClusterOk(m, l, ids, c))
    && (forall id :: id in ids ==> ids[id] in m && m[ids[id]].id == id)
    && (forall h :: 0 <= h < HASH_SIZE ==> table[h] == l.HeadOf(h))
  }

  /** A listed entry is on the list of the block its key selects, and is the entry of its key. */
  ghost predicate EntryOk<V>(m: map<Ptr, Entry<V>>, l: Lists<Home>, keys: map<Number, Ptr>, e: Ptr)
    requires e in m && e in l.next && e in l.home
  {
    && m[e].next == l.next[e]
    && (l.home[e].Listed? ==> l.home[e].place == PlaceOf(m[e].key) && m[e].key in keys && keys[m[e].key] == e)
  }

  ghost predicate KeyOk<V>(m: map<Ptr, Entry<V>>, l: Lists<Home>, keys: map<Number, Ptr>, k: Number, v: V)
    requires k in keys
  {
    var e := keys[k];
    e in m && e in l.home && l.home[e].Listed? && m[e].key == k && m[e].value == v
  }

  /** Every entry is on the free list or on the list of the block its key selects, and the
      listed entries are exactly the contents, one entry a key. */
  ghost predicate EntriesOk<V>(m: map<Ptr, Entry<V>>, l: Lists<Home>, keys: map<Number, Ptr>, contents: map<Number, V>) {
    && l.Valid() && l.next.Keys == m.Keys && keys.Keys == contents.Keys
    && (forall e {:trigger EntryOk(m, l, keys, e)} :: e in m ==> EntryOk(m, l, keys, e))
    && (forall k {:trigger KeyOk(m, l, keys, k, contents[k])} :: k in keys ==> KeyOk(m, l, keys, k, contents[k]))
  }

  /** The blocks of a cluster head the lists of their places. */
  ghost predicate BlocksOk(m: map<Ptr, Cluster>, ids: map<nat, Ptr>, head: map<Home, Ptr>, id: nat)
    requires id in ids
  {
    var c := ids[id];
    && c in m && |m[c].blocks| == CLUSTER_BLOCKS
    && forall b :: 0 <= b < CLUSTER_BLOCKS ==> m[c].blocks[b] == HeadIn(head, Listed(Place(id, b)))
  }

  /** Each block of each cluster heads the list of its place, places outside the clusters
      have no entries, and the free list head is in place. */
  ghost predicate HeadsOk(m: map<Ptr, Cluster>, free: Ptr, ids: map<nat, Ptr>, head: map<Home, Ptr>) {
    && free == HeadIn(head, Spare)
    && (forall id {:trigger BlocksOk(m, ids, head, id)} :: id in ids ==> BlocksOk(m, ids, head, id))
    && (forall p :: Listed(p) in head && head[Listed(p)] != NULL ==> p.id in ids && p.block < CLUSTER_BLOCKS)
  }

  ghost predicate Represents<V>(m: Memory<V>, s: Shape, contents: map<Number, V>) {
    && ClustersOk(m.table, m.clusters, s.chains, s.clusterOf)
    && EntriesOk(m.entries, s.lists, s.entryOf, contents)
    && HeadsOk(m.clusters, m.free, s.clusterOf, s.lists.head)
  }

  // ---------- what the updates keep ----------

  function NewCluster(next: Ptr, id: nat): Cluster {
    Cluster(next, id, seq(CLUSTER_BLOCKS, i => NULL))
  }

  lemma ClusterChained(table: seq<Ptr>, m: map<Ptr, Cluster>, l: Lists<nat>, ids: map<nat, Ptr>, id: nat, c: Ptr, d: Cluster)
    requires ClustersOk(table, m, l, ids) && id !in ids && c !in m && c != NULL
    requires d.next == table[HashInt(id)] && d.id == id && |d.blocks| == CLUSTER_BLOCKS
    ensures ClustersOk(table[HashInt(id) := c], m[c := d], l.Push(c, HashInt(id)), ids[id := c])
  {
    l.PushValid(c, HashInt(id));
    var m', l', ids' := m[c := d], l.Push(c, HashInt(id)), ids[id := c];
    forall x | x in m' ensures ClusterOk(m', l', ids', x) {
      assert x != c ==> ClusterOk(m, l, ids, x);
    }
  }

  lemma ClusterHeads(m: map<Ptr, Cluster>, free: Ptr, ids: map<nat, Ptr>, head: map<Home, Ptr>, id: nat, c: Ptr, d: Cluster)
    requires HeadsOk(m, free, ids, head) && id !in ids && c !in m && d == NewCluster(d.next, id)
    ensures HeadsOk(m[c := d], free, ids[id := c], head)
  {
    var m', ids' := m[c := d], ids[id := c];
    forall q | q in ids' ensures BlocksOk(m', ids', head, q) {
      assert q != id ==> BlocksOk(m, ids, head, q);
    }
  }

  /** Adding an empty cluster in front of its chain. */
  lemma ClusterAdded<V>(m: Memory<V>, s: Shape, contents: map<Number, V>, id: nat, c: Ptr)
    requires Represents(m, s, contents) && id !in s.clusterOf && c !in m.clusters && c != NULL
    ensures HashInt(id) < |m.table|
    ensures var h := HashInt(id);
            Represents(m.(table := m.table[h := c], clusters := m.clusters[c := NewCluster(m.table[h], id)]),
                       s.(chains := s.chains.Push(c, h), clusterOf := s.clusterOf[id := c]), contents)
  {
    var d := NewCluster(m.table[HashInt(id)], id);
    ClusterChained(m.table, m.clusters, s.chains, s.clusterOf, id, c, d);
    ClusterHeads(m.clusters, m.free, s.clusterOf, s.lists.head, id, c, d);
  }

  /** Storing a value in a listed entry. */
  lemma ValueStored<V>(m: map<Ptr, Entry<V>>, l: Lists<Home>, keys: map<Number, Ptr>, contents: map<Number, V>, k: Number, v: V)
    requires EntriesOk(m, l, keys, contents) && k in keys
    ensures keys[k] in m && EntriesOk(m[keys[k] := m[keys[k]].(value := v)], l, keys, contents[k := v])
  {
    assert KeyOk(m, l, keys, k, contents[k]);
    var m' := m[keys[k] := m[keys[k]].(value := v)];
    forall x | x in m' ensures EntryOk(m', l, keys, x) { assert EntryOk(m, l, keys, x); }
    forall q | q in keys ensures KeyOk(m', l, keys, q, contents[k := v][q]) { assert KeyOk(m, l, keys, q, contents[q]); }
  }

  /** The head pointer of a list exists: the free list has one, a block list has one when
      its cluster does. */
  ghost predicate HasHead(m: map<Ptr, Cluster>, ids: map<nat, Ptr>, h: Home) {
    h.Listed? ==> h.place.id in ids && ids[h.place.id] in m && h.place.block < |m[ids[h.place.id]].blocks|
  }

  ghost function SetBlock(m: map<Ptr, Cluster>, ids: map<nat, Ptr>, h: Home, p: Ptr): map<Ptr, Cluster>
    requires HasHead(m, ids, h)
  {
    if h.Spare? then m
    else var c := ids[h.place.id]; m[c := m[c].(blocks := m[c].blocks[h.place.block := p])]
  }

  lemma HeadClusters(table: seq<Ptr>, m: map<Ptr, Cluster>, l: Lists<nat>, ids: map<nat, Ptr>, h: Home, p: Ptr)
    requires ClustersOk(table, m, l, ids) && HasHead(m, ids, h)
    ensures ClustersOk(table, SetBlock(m, ids, h, p), l, ids)
  {
    forall c | c in m ensures ClusterOk(SetBlock(m, ids, h, p), l, ids, c) { assert ClusterOk(m, l, ids, c); }
  }

  lemma HeadMoved(m: map<Ptr, Cluster>, free: Ptr, ids: map<nat, Ptr>, head: map<Home, Ptr>, h: Home, p: Ptr)
    requires HeadsOk(m, free, ids, head) && HasHead(m, ids, h) && (h.Listed? ==> h.place.block < CLUSTER_BLOCKS)
    requires forall id :: id in ids ==> ids[id] in m && m[ids[id]].id == id
    ensures HeadsOk(SetBlock(m, ids, h, p), if h.Spare? then p else free, ids, head[h := p])
  {
    forall id | id in ids ensures BlocksOk(SetBlock(m, ids, h, p), ids, head[h := p], id) {
      assert BlocksOk(m, ids, head, id);
    }
  }

  /** Taking an entry off its list, given what points to it. */
  ghost function Unlink<V>(m: Memory<V>, s: Shape, prev: Ptr, e: Ptr): Memory<V>
    requires e in m.entries && e in s.lists.home && HasHead(m.clusters, s.clusterOf, s.lists.home[e])
    requires prev != NULL ==> prev in m.entries
  {
    var n, h := m.entries[e].next, s.lists.home[e];
    m.(clusters := if prev == NULL then SetBlock(m.clusters, s.clusterOf, h, n) else m.clusters,
       free := if prev == NULL && h.Spare? then n else m.free,
       entries := (if prev == NULL then m.entries else m.entries[prev := m.entries[prev].(next := n)]) - {e})
  }

  ghost function Unlinked<V>(m: Memory<V>, s: Shape, prev: Ptr, e: Ptr): Shape
    requires e in m.entries && e in s.lists.home && e in s.lists.next
  {
    s.(lists := s.lists.Remove(prev, e), entryOf := if s.lists.home[e].Listed? then s.entryOf - {m.entries[e].key} else s.entryOf)
  }

  lemma EntryUnlinked<V>(m: map<Ptr, Entry<V>>, l: Lists<Home>, keys: map<Number, Ptr>, contents: map<Number, V>, prev: Ptr, e: Ptr)
    requires EntriesOk(m, l, keys, contents) && l.PointsTo(prev, e) && l.home[e].Listed?
    ensures var m' := (if prev == NULL then m else m[prev := m[prev].(next := m[e].next)]) - {e};
            EntriesOk(m', l.Remove(prev, e), keys - {m[e].key}, contents - {m[e].key})
  {
    l.RemoveValid(prev, e);
    var m' := (if prev == NULL then m else m[prev := m[prev].(next := m[e].next)]) - {e};
    var l', keys' := l.Remove(prev, e), keys - {m[e].key};
    assert EntryOk(m, l, keys, e);
    forall x | x in m' ensures EntryOk(m', l', keys', x) { assert EntryOk(m, l, keys, x); }
    forall q | q in keys' ensures KeyOk(m', l', keys', q, contents[q]) { assert KeyOk(m, l, keys, q, contents[q]); }
  }

  lemma SpareUnlinked<V>(m: map<Ptr, Entry<V>>, l: Lists<Home>, keys: map<Number, Ptr>, contents: map<Number, V>, prev: Ptr, e: Ptr)
    requires EntriesOk(m, l, keys, contents) && l.PointsTo(prev, e) && l.home[e].Spare?
    ensures EntriesOk((if prev == NULL then m else m[prev := m[prev].(next := m[e].next)]) - {e}, l.Remove(prev, e), keys, contents)
  {
    l.RemoveValid(prev, e);
    var m' := (if prev == NULL then m else m[prev := m[prev].(next := m[e].next)]) - {e};
    var l' := l.Remove(prev, e);
    assert EntryOk(m, l, keys, e);
    forall x | x in m' ensures EntryOk(m', l', keys, x) { assert EntryOk(m, l, keys, x); }
    forall q | q in keys ensures KeyOk(m', l', keys, q, contents[q]) { assert KeyOk(m, l, keys, q, contents[q]); }
  }

  lemma HeadOfHome(m: map<Ptr, Cluster>, free: Ptr, ids: map<nat, Ptr>, l: Lists<Home>, e: Ptr)
    requires HeadsOk(m, free, ids, l.head) && l.Valid() && e in l.home
    ensures HasHead(m, ids, l.home[e]) && (l.home[e].Listed? ==> l.home[e].place.block < CLUSTER_BLOCKS)
  {
    l.HeadAbove(l.home[e], e);
    assert l.home[e].Listed? ==> BlocksOk(m, ids, l.head, l.home[e].place.id);
  }

  lemma UnlinkKeeps<V>(m: Memory<V>, s: Shape, contents: map<Number, V>, prev: Ptr, e: Ptr)
    requires Represents(m, s, contents) && s.lists.PointsTo(prev, e)
    ensures HasHead(m.clusters, s.clusterOf, s.lists.home[e])
    ensures Represents(Unlink(m, s, prev, e), Unlinked(m, s, prev, e),
                       if s.lists.home[e].Listed? then contents - {m.entries[e].key} else contents)
  {
    assert EntryOk(m.entries, s.lists, s.entryOf, e);
    HeadOfHome(m.clusters, m.free, s.clusterOf, s.lists, e);
    if s.lists.home[e].Listed? {
      EntryUnlinked(m.entries, s.lists, s.entryOf, contents, prev, e);
    } else {
      SpareUnlinked(m.entries, s.lists, s.entryOf, contents, prev, e);
    }
    if prev == NULL {
      HeadClusters(m.table, m.clusters, s.chains, s.clusterOf, s.lists.home[e], m.entries[e].next);
      HeadMoved(m.clusters, m.free, s.clusterOf, s.lists.head, s.lists.home[e], m.entries[e].next);
    }
  }

  /** Putting a new entry at the front of a list. */
  ghost function Link<V>(m: Memory<V>, s: Shape, e: Ptr, h: Home, k: Number, v: V): Memory<V>
    requires HasHead(m.clusters, s.clusterOf, h)
  {
    m.(entries := m.entries[e := Entry(s.lists.HeadOf(h), k, v)],
       clusters := SetBlock(m.clusters, s.clusterOf, h, e), free := if h.Spare? then e else m.free)
  }

  ghost function Linked(s: Shape, e: Ptr, h: Home, k: Number): Shape {
    s.(lists := s.lists.Push(e, h), entryOf := if h.Listed? then s.entryOf[k := e] else s.entryOf)
  }

  lemma SpareLinked<V>(m: map<Ptr, Entry<V>>, l: Lists<Home>, keys: map<Number, Ptr>, contents: map<Number, V>, e: Ptr, k: Number, v: V)
    requires EntriesOk(m, l, keys, contents) && e !in m && e != NULL
    ensures EntriesOk(m[e := Entry(l.HeadOf(Spare), k, v)], l.Push(e, Spare), keys, contents)
  {
    l.PushValid(e, Spare);
    var m', l' := m[e := Entry(l.HeadOf(Spare), k, v)], l.Push(e, Spare);
    forall x | x in m' ensures EntryOk(m', l', keys, x) { assert x != e ==> EntryOk(m, l, keys, x); }
    forall q | q in keys ensures KeyOk(m', l', keys, q, contents[q]) { assert KeyOk(m, l, keys, q, contents[q]); }
  }

  lemma EntryLinked<V>(m: map<Ptr, Entry<V>>, l: Lists<Home>, keys: map<Number, Ptr>, contents: map<Number, V>, e: Ptr, k: Number, v: V)
    requires EntriesOk(m, l, keys, contents) && e !in m && e != NULL && k !in contents
    ensures var h := Listed(PlaceOf(k)); EntriesOk(m[e := Entry(l.HeadOf(h), k, v)], l.Push(e, h), keys[k := e], contents[k := v])
  {
    var h := Listed(PlaceOf(k));
    l.PushValid(e, h);
    var m', l', keys' := m[e := Entry(l.HeadOf(h), k, v)], l.Push(e, h), keys[k := e];
    forall x | x in m' ensures EntryOk(m', l', keys', x) { assert x != e ==> EntryOk(m, l, keys, x); }
    forall q | q in keys' ensures KeyOk(m', l', keys', q, contents[k := v][q]) {
      assert q != k ==> KeyOk(m, l, keys, q, contents[q]);
    }
  }

  lemma LinkKeeps<V>(m: Memory<V>, s: Shape, contents: map<Number, V>, e: Ptr, h: Home, k: Number, v: V)
    requires Represents(m, s, contents) && e !in m.entries && e != NULL
    requires h.Listed? ==> h.place == PlaceOf(k) && k !in contents && ClusterId(k) in s.clusterOf
    ensures HasHead(m.clusters, s.clusterOf, h)
    ensures Represents(Link(m, s, e, h, k, v), Linked(s, e, h, k), if h.Listed? then contents[k := v] else contents)
  {
    if h.Listed? {
      assert BlocksOk(m.clusters, s.clusterOf, s.lists.head, ClusterId(k));
      EntryLinked(m.entries, s.lists, s.entryOf, contents, e, k, v);
    } else {
      SpareLinked(m.entries, s.lists, s.entryOf, contents, e, k, v);
    }
    HeadClusters(m.table, m.clusters, s.chains, s.clusterOf, h, e);
    HeadMoved(m.clusters, m.free, s.clusterOf, s.lists.head, h, e);
  }

  /** What is known of the entry of a key. */
  lemma EntryOfKey<V>(m: Memory<V>, s: Shape, contents: map<Number, V>, key: Number)
    requires Represents(m, s, contents)
    ensures key in contents <==> key in s.entryOf
    ensures key in contents ==>
              && s.entryOf[key] in m.entries && s.entryOf[key] != NULL && ClusterId(key) in s.clusterOf
              && s.lists.On(s.entryOf[key], Listed(PlaceOf(key)))
              && m.entries[s.entryOf[key]].key == key && m.entries[s.entryOf[key]].value == contents[key]
  {
    if key in contents {
      var e := s.entryOf[key];
      assert KeyOk(m.entries, s.lists, s.entryOf, key, contents[key]) && EntryOk(m.entries, s.lists, s.entryOf, e);
      s.lists.HeadAbove(Listed(PlaceOf(key)), e);
    }
  }

  lemma ClusterOfKeys<V>(m: Memory<V>, s: Shape, contents: map<Number, V>)
    requires Represents(m, s, contents)
    ensures forall k :: k in contents ==> ClusterId(k) in s.clusterOf
  {
    forall k | k in contents ensures ClusterId(k) in s.clusterOf { EntryOfKey(m, s, contents, k); }
  }

  /** What a walk along a block list relies on. */
  lemma EntriesWalk<V>(m: map<Ptr, Entry<V>>, l: Lists<Home>, keys: map<Number, Ptr>, contents: map<Number, V>, key: Number)
    requires EntriesOk(m, l, keys, contents)
    ensures forall x :: x in m ==> m[x].next == l.next[x]
    ensures forall x, p :: l.On(x, Listed(p)) && m[x].key == key ==> key in keys && keys[key] == x
  {
    forall x | x in m ensures m[x].next == l.next[x] { assert EntryOk(m, l, keys, x); }
    forall x, p | l.On(x, Listed(p)) && m[x].key == key ensures key in keys && keys[key] == x { assert EntryOk(m, l, keys, x); }
  }

  /** A listed entry holds the value of its key. */
  lemma EntryListed<V>(m: map<Ptr, Entry<V>>, l: Lists<Home>, keys: map<Number, Ptr>, contents: map<Number, V>, e: Ptr)
    requires EntriesOk(m, l, keys, contents) && e in m && l.home[e].Listed?
    ensures m[e].key in contents && contents[m[e].key] == m[e].value && keys[m[e].key] == e && l.home[e].place == PlaceOf(m[e].key)
  {
    assert EntryOk(m, l, keys, e);
    assert KeyOk(m, l, keys, m[e].key, contents[m[e].key]);
  }

  /** Every key has its own entry, on the list of its place. */
  lemma KeysListed<V>(m: map<Ptr, Entry<V>>, l: Lists<Home>, keys: map<Number, Ptr>, contents: map<Number, V>)
    requires EntriesOk(m, l, keys, contents)
    ensures forall k :: k in keys ==> keys[k] in m && m[keys[k]].key == k && l.On(keys[k], Listed(PlaceOf(k)))
  {
    forall k | k in keys ensures keys[k] in m && m[keys[k]].key == k && l.On(keys[k], Listed(PlaceOf(k))) {
      assert KeyOk(m, l, keys, k, contents[k]) && EntryOk(m, l, keys, keys[k]);
    }
  }

  /** Every cluster id has its own cluster, on the chain of its hash. */
  lemma IdsListed(table: seq<Ptr>, m: map<Ptr, Cluster>, l: Lists<nat>, ids: map<nat, Ptr>)
    requires ClustersOk(table, m, l, ids)
    ensures forall id :: id in ids ==> ids[id] in m && m[ids[id]].id == id && l.On(ids[id], HashInt(id))
  {
    forall id | id in ids ensures l.On(ids[id], HashInt(id)) { assert ClusterOk(m, l, ids, ids[id]); }
  }

  /** What a walk along a hash chain relies on. */
  lemma ClustersWalk(table: seq<Ptr>, m: map<Ptr, Cluster>, l: Lists<nat>, ids: map<nat, Ptr>, id: nat)
    requires ClustersOk(table, m, l, ids)
    ensures forall x :: x in m ==> m[x].next == l.next[x]
    ensures forall x :: x in m && m[x].id == id ==> id in ids && ids[id] == x
    ensures id in ids ==> ids[id] != NULL && l.On(ids[id], HashInt(id)) && m[ids[id]].id == id && |m[ids[id]].blocks| == CLUSTER_BLOCKS
  {
    forall x | x in m ensures m[x].next == l.next[x] && (m[x].id == id ==> id in ids && ids[id] == x) {
      assert ClusterOk(m, l, ids, x);
    }
    assert id in ids ==> ClusterOk(m, l, ids, ids[id]);
  }

  /** The block slot of a key in an existing cluster heads its list. */
  lemma BlockHead<V>(m: Memory<V>, s: Shape, key: Number)
    requires HeadsOk(m.clusters, m.free, s.clusterOf, s.lists.head) && ClusterId(key) in s.clusterOf
    ensures var c := s.clusterOf[ClusterId(key)];
            && c in m.clusters && |m.clusters[c].blocks| == CLUSTER_BLOCKS
            && m.clusters[c].blocks[BlockId(key)] == s.lists.HeadOf(Listed(PlaceOf(key)))
  {
    assert BlocksOk(m.clusters, s.clusterOf, s.lists.head, ClusterId(key));
  }

  /** The memory after the first spare entry is moved to the front of the block list of a key. */
  ghost function SpareUsed<V>(m: Memory<V>, c: Ptr, key: Number, v: V): Memory<V>
    requires m.free in m.entries && c in m.clusters && BlockId(key) < |m.clusters[c].blocks|
  {
    var e, d := m.free, m.clusters[c];
    m.(free := m.entries[e].next,
       entries := m.entries[e := Entry(d.blocks[BlockId(key)], key, v)],
       clusters := m.clusters[c := d.(blocks := d.blocks[BlockId(key) := e])])
  }

  lemma SpareUsedIs<V>(m: Memory<V>, s: Shape, key: Number, v: V)
    requires m.free == s.lists.HeadOf(Spare) && m.free in m.entries && s.lists.On(m.free, Spare) && m.free in s.lists.next
    requires HasHead(m.clusters, s.clusterOf, Listed(PlaceOf(key)))
    requires var c := s.clusterOf[ClusterId(key)]; m.clusters[c].blocks[BlockId(key)] == s.lists.HeadOf(Listed(PlaceOf(key)))
    ensures HasHead(Unlink(m, s, NULL, m.free).clusters, s.clusterOf, Listed(PlaceOf(key)))
    ensures SpareUsed(m, s.clusterOf[ClusterId(key)], key, v)
            == Link(Unlink(m, s, NULL, m.free), Unlinked(m, s, NULL, m.free), m.free, Listed(PlaceOf(key)), key, v)
  {
    var m1, s1, h := Unlink(m, s, NULL, m.free), Unlinked(m, s, NULL, m.free), Listed(PlaceOf(key));
    assert s1.lists.HeadOf(h) == s.lists.HeadOf(h);
    var e := Entry(s.lists.HeadOf(h), key, v);
    assert (m.entries - {m.free})[m.free := e] == m.entries[m.free := e];
  }

  lemma SpareUsedKeeps<V>(m: Memory<V>, s: Shape, contents: map<Number, V>, key: Number, v: V) returns (s': Shape)
    requires Represents(m, s, contents) && key !in contents && m.free != NULL && ClusterId(key) in s.clusterOf
    ensures var c := s.clusterOf[ClusterId(key)];
            && m.free in m.entries && c in m.clusters && |m.clusters[c].blocks| == CLUSTER_BLOCKS
            && Represents(SpareUsed(m, c, key, v), s', contents[key := v])
  {
    s.lists.HeadOn(Spare);
    BlockHead(m, s, key);
    SpareUsedIs(m, s, key, v);
    UnlinkKeeps(m, s, contents, NULL, m.free);
    LinkKeeps(Unlink(m, s, NULL, m.free), Unlinked(m, s, NULL, m.free), contents, m.free, Listed(PlaceOf(key)), key, v);
    s' := Linked(Unlinked(m, s, NULL, m.free), m.free, Listed(PlaceOf(key)), key);
  }

  /** The memory after an entry, found with what points to it, moves to the free list. */
  ghost function Freed<V>(m: Memory<V>, c: Ptr, prev: Ptr, e: Ptr): Memory<V>
    requires e in m.entries && c in m.clusters && (prev != NULL ==> prev in m.entries)
    requires BlockId(m.entries[e].key) < |m.clusters[c].blocks|
  {
    var n, d, b := m.entries[e].next, m.clusters[c], BlockId(m.entries[e].key);
    var m' := if prev == NULL then m.(clusters := m.clusters[c := d.(blocks := d.blocks[b := n])])
              else m.(entries := m.entries[prev := m.entries[prev].(next := n)]);
    m'.(entries := m'.entries[e := m.entries[e].(next := m.free)], free := e)
  }

  lemma FreedIs<V>(m: Memory<V>, s: Shape, prev: Ptr, e: Ptr)
    requires m.free == s.lists.HeadOf(Spare) && e in m.entries && e in s.lists.next && (prev != NULL ==> prev in m.entries)
    requires s.lists.On(e, Listed(PlaceOf(m.entries[e].key))) && HasHead(m.clusters, s.clusterOf, Listed(PlaceOf(m.entries[e].key)))
    ensures Freed(m, s.clusterOf[ClusterId(m.entries[e].key)], prev, e)
            == Link(Unlink(m, s, prev, e), Unlinked(m, s, prev, e), e, Spare, m.entries[e].key, m.entries[e].value)
  {
    assert Unlinked(m, s, prev, e).lists.HeadOf(Spare) == m.free;
    var x := m.entries[e].(next := m.free);
    assert (m.entries - {e})[e := x] == m.entries[e := x];
    if prev != NULL {
      var em := m.entries[prev := m.entries[prev].(next := m.entries[e].next)];
      assert (em - {e})[e := x] == em[e := x];
    }
  }

  lemma FreedKeeps<V>(m: Memory<V>, s: Shape, contents: map<Number, V>, prev: Ptr, key: Number) returns (s': Shape)
    requires Represents(m, s, contents) && key in s.entryOf && s.lists.PointsTo(prev, s.entryOf[key])
    ensures key in contents && ClusterId(key) in s.clusterOf
    ensures var c, e := s.clusterOf[ClusterId(key)], s.entryOf[key];
            && e in m.entries && m.entries[e].key == key && m.entries[e].value == contents[key]
            && c in m.clusters && |m.clusters[c].blocks| == CLUSTER_BLOCKS && (prev != NULL ==> prev in m.entries)
            && Represents(Freed(m, c, prev, e), s', contents - {key})
  {
    var e := s.entryOf[key];
    EntryOfKey(m, s, contents, key);
    BlockHead(m, s, key);
    FreedIs(m, s, prev, e);
    UnlinkKeeps(m, s, contents, prev, e);
    LinkKeeps(Unlink(m, s, prev, e), Unlinked(m, s, prev, e), contents - {key}, e, Spare, key, m.entries[e].value);
    s' := Linked(Unlinked(m, s, prev, e), e, Spare, key);
  }

  /** A zeroed array of entries. */
  function Zeroed<V>(a: Ptr, n: nat, zero: V): (r: map<Ptr, Entry<V>>)
    ensures forall p :: p in r <==> a <= p < a + n
    ensures forall p :: p in r ==> r[p] == Entry(NULL, 0, zero)
  {
    if n == 0 then map[] else Zeroed(a, n - 1, zero)[a + n - 1 := Entry(NULL, 0, zero)]
  }

  /** Pushing the entries of an array on the free list, the last one first. */
  ghost function Batch<V>(m: Memory<V>, a: Ptr, n: nat, zero: V): Memory<V>
    decreases n
  {
    if n == 0 then m
    else var r := Batch(m, a + 1, n - 1, zero);
         r.(entries := r.entries[a := Entry(r.free, 0, zero)], free := a)
  }

  lemma {:induction false} BatchIs<V>(m: Memory<V>, a: Ptr, n: nat, zero: V)
    ensures var r := Batch(m, a, n, zero);
            && r == m.(entries := r.entries, free := if n == 0 then m.free else a)
            && (forall p :: p in r.entries <==> p in m.entries || a <= p < a + n)
            && (forall p :: p in r.entries ==>
                  r.entries[p] == if a <= p < a + n then Entry(if p == a + n - 1 then m.free else p + 1, 0, zero) else m.entries[p])
    decreases n
  {
    if n != 0 { BatchIs(m, a + 1, n - 1, zero); }
  }

  /** One push on the free list. */
  lemma SparePushed<V>(m: Memory<V>, s: Shape, contents: map<Number, V>, e: Ptr, v: V) returns (s': Shape)
    requires Represents(m, s, contents) && e !in m.entries && e != NULL
    ensures Represents(m.(entries := m.entries[e := Entry(m.free, 0, v)], free := e), s', contents)
    ensures s'.entryOf == s.entryOf && s'.clusterOf == s.clusterOf
  {
    LinkKeeps(m, s, contents, e, Spare, 0, v);
    s' := Linked(s, e, Spare, 0);
  }

  lemma {:induction false} BatchAdded<V>(m: Memory<V>, s: Shape, contents: map<Number, V>, a: Ptr, n: nat, zero: V)
    returns (s': Shape)
    requires Represents(m, s, contents) && a != NULL
    requires forall p :: p in m.entries ==> p < a
    ensures Represents(Batch(m, a, n, zero), s', contents)
    ensures s'.entryOf == s.entryOf && s'.clusterOf == s.clusterOf
    decreases n
  {
    if n == 0 {
      s' := s;
    } else {
      var s1 := BatchAdded(m, s, contents, a + 1, n - 1, zero);
      assert a !in Batch(m, a + 1, n - 1, zero).entries by { BatchIs(m, a + 1, n - 1, zero); }
      s' := SparePushed(Batch(m, a + 1, n - 1, zero), s1, contents, a, zero);
    }
  }
}
