/** Threads at work on the central free lists: one lock per size class and one for the page
    heap. A step takes a lock, or runs the code up to the next lock operation. */
module CentralThreads {
  import opened CentralLists
  import opened Collections
  import opened Lists
  import opened Multiples

  // ---------- spans and their objects ----------

  /** A size class: bytes per object, pages per span, objects per transfer. */
  datatype SizeClass = SizeClass(size: nat, pages: nat, move: nat)

  datatype Config = Config(pageSize: nat, classes: seq<SizeClass>) {
    ghost predicate Ok() {
      && pageSize > 0
      && forall c :: 0 <= c < |classes| ==> classes[c].size > 0 && classes[c].move > 0 && classes[c].pages * pageSize >= classes[c].size
    }

    function SpanBytes(c: nat): nat
      requires c < |classes|
    {
      classes[c].pages * pageSize
    }

    function Capacity(c: nat): nat
      requires c < |classes| && classes[c].size > 0
    {
      SpanBytes(c) / classes[c].size
    }

    function ClassOf(c: nat): Class
      requires c < |classes| && classes[c].size > 0
    {
      Class(Capacity(c), classes[c].move)
    }

    /** The i-th object carved from a span; a span is named by its first page. */
    function ObjectAt(sp: Span, c: nat, i: nat): Ptr
      requires c < |classes|
    {
      sp * pageSize + i * classes[c].size
    }

    function ObjectsOf(sp: Span, c: nat): (os: seq<Ptr>)
      requires c < |classes| && classes[c].size > 0
      ensures |os| == Capacity(c)
    {
      seq(Capacity(c), i requires 0 <= i < Capacity(c) => ObjectAt(sp, c, i))
    }

    lemma ObjectsDistinct(sp: Span, c: nat)
      requires Ok() && c < |classes|
      ensures NoDup(ObjectsOf(sp, c))
    {
      var os, z := ObjectsOf(sp, c), classes[c].size;
      forall i, j | 0 <= i < j < |os| ensures os[i] != os[j] {
        Distribute(z, j, i);
        Times(z, j - i);
        assert os[i] == sp * pageSize + i * z && os[j] == sp * pageSize + j * z;
      }
    }

    /** An object lies within the pages of its span. */
    lemma ObjectPage(sp: Span, c: nat, o: Ptr)
      requires Ok() && c < |classes| && o in ObjectsOf(sp, c)
      ensures sp <= o / pageSize < sp + classes[c].pages
    {
      var i :| 0 <= i < Capacity(c) && o == ObjectAt(sp, c, i);
      var z, n, b := classes[c].size, Capacity(c), SpanBytes(c);
      Distribute(z, n, i);
      Times(z, n - i);
      assert z * n <= b by { assert b == z * n + b % z; }
      assert i * z + z <= b;
      PageOf(sp, classes[c].pages, i * z);
    }

    lemma PageOf(sp: nat, pages: nat, offset: nat)
      requires pageSize > 0 && offset < pages * pageSize
      ensures sp <= (sp * pageSize + offset) / pageSize < sp + pages
    {
      var o := sp * pageSize + offset;
      var q := o / pageSize;
      Distribute(pageSize, sp + pages, sp);
      assert o == pageSize * q + o % pageSize;
      Between(pageSize, q, o % pageSize, sp, sp + pages);
    }

    lemma Positive(c: nat)
      requires Ok() && c < |classes|
      ensures pageSize > 0 && classes[c].size > 0 && classes[c].move > 0
    {
    }

    lemma CapacityPositive(c: nat)
      requires Ok() && c < |classes|
      ensures Capacity(c) > 0
    {
      var z, b := classes[c].size, SpanBytes(c);
      assert b == z * (b / z) + b % z;
      assert z * 0 == 0;
    }
  }

  // ---------- the state ----------

  datatype Place = InSpan(sp: Span) | InSlot(c: nat, i: nat) | Hand(t: nat) | Client

  datatype SpanPlace = Listed | Held(t: nat)

  /** A span the page heap has handed out: its class, and whether it is on that list or in the
      hands of a thread. */
  datatype LiveSpan = LiveSpan(c: nat, at: SpanPlace)

  datatype Lock = NoLock | ClassLock(c: nat) | HeapLock

  /** What follows when a chain has been released: the end of an insertion, or the return from
      an eviction made for one. */
  datatype Task = Insertion | EvictionFor(c: nat, chain: seq<Ptr>, force: bool)

  datatype Pc =
    | Idle
    | InsWant(c: nat, chain: seq<Ptr>)
    | InsHeld(c: nat, chain: seq<Ptr>)
    | Evict(c: nat, chain: seq<Ptr>, force: bool)
    | ShrinkWant(c: nat, chain: seq<Ptr>, force: bool, victim: nat)
    | ShrinkHeld(c: nat, chain: seq<Ptr>, force: bool, victim: nat)
    | BackWant(c: nat, chain: seq<Ptr>, force: bool, got: bool)
    | BackHeld(c: nat, chain: seq<Ptr>, force: bool, got: bool)
    | Freeing(k: nat, rest: seq<Ptr>, task: Task)
    | DelWant(k: nat, rest: seq<Ptr>, task: Task, sp: Span, dead: seq<Ptr>)
    | DelHeld(k: nat, rest: seq<Ptr>, task: Task, sp: Span, dead: seq<Ptr>)
    | FreeWant(k: nat, rest: seq<Ptr>, task: Task)
    | RemWant(c: nat, n: nat)
    | RemHeld(c: nat, n: nat)
    | Fetching(c: nat, n: nat, found: seq<Ptr>, populated: bool)
    | NewWant(c: nat, n: nat)
    | NewHeld(c: nat, n: nat)
    | CarveWant(c: nat, n: nat, span: Option<Span>, objs: seq<Ptr>)
    | CarveHeld(c: nat, n: nat, span: Option<Span>, objs: seq<Ptr>)

  /** The spans in use and the span of each page. */
  datatype PageHeap = PageHeap(live: map<Span, LiveSpan>, pagemap: map<nat, Span>)

  datatype State = State(
    lists: seq<FreeList>, owner: map<Lock, nat>, heap: PageHeap,
    loc: map<Ptr, Place>, threads: map<nat, Pc>, failed: bool)

  function PcOf(s: State, t: nat): Pc {
    if t in s.threads then s.threads[t] else Idle
  }

  /** The lock that a thread holds. */
  function Holds(pc: Pc): Lock {
    match pc
    case InsHeld(c, _) => ClassLock(c)
    case Evict(c, _, _) => ClassLock(c)
    case ShrinkHeld(_, _, _, v) => ClassLock(v)
    case BackHeld(c, _, _, _) => ClassLock(c)
    case Freeing(k, _, _) => ClassLock(k)
    case DelHeld(_, _, _, _, _) => HeapLock
    case RemHeld(c, _) => ClassLock(c)
    case Fetching(c, _, _, _) => ClassLock(c)
    case NewHeld(_, _) => HeapLock
    case CarveHeld(c, _, _, _) => ClassLock(c)
    case _ => NoLock
  }

  /** The lock that a thread waits for. */
  function Wants(pc: Pc): Lock {
    match pc
    case InsWant(c, _) => ClassLock(c)
    case ShrinkWant(_, _, _, v) => ClassLock(v)
    case BackWant(c, _, _, _) => ClassLock(c)
    case DelWant(_, _, _, _, _) => HeapLock
    case FreeWant(k, _, _) => ClassLock(k)
    case RemWant(c, _) => ClassLock(c)
    case NewWant(_, _) => HeapLock
    case CarveWant(c, _, _, _) => ClassLock(c)
    case _ => NoLock
  }

  /** Where a thread goes on once it has the lock. */
  function Acquired(pc: Pc): Pc {
    match pc
    case InsWant(c, chain) => InsHeld(c, chain)
    case ShrinkWant(c, chain, force, v) => ShrinkHeld(c, chain, force, v)
    case BackWant(c, chain, force, g) => BackHeld(c, chain, force, g)
    case DelWant(k, rest, task, sp, dead) => DelHeld(k, rest, task, sp, dead)
    case FreeWant(k, rest, task) => Freeing(k, rest, task)
    case RemWant(c, n) => RemHeld(c, n)
    case NewWant(c, n) => NewHeld(c, n)
    case CarveWant(c, n, f, objs) => CarveHeld(c, n, f, objs)
    case _ => pc
  }

  function TaskObjs(task: Task): seq<Ptr> {
    if task.EvictionFor? then task.chain else []
  }

  /** The objects in a thread's hands. */
  function HandObjs(pc: Pc): seq<Ptr> {
    match pc
    case InsWant(_, chain) => chain
    case InsHeld(_, chain) => chain
    case Evict(_, chain, _) => chain
    case ShrinkWant(_, chain, _, _) => chain
    case ShrinkHeld(_, chain, _, _) => chain
    case BackWant(_, chain, _, _) => chain
    case BackHeld(_, chain, _, _) => chain
    case Freeing(_, rest, task) => rest + TaskObjs(task)
    case DelWant(_, rest, task, _, dead) => dead + (rest + TaskObjs(task))
    case DelHeld(_, rest, task, _, dead) => dead + (rest + TaskObjs(task))
    case FreeWant(_, rest, task) => rest + TaskObjs(task)
    case Fetching(_, _, found, _) => found
    case CarveWant(_, _, _, objs) => objs
    case CarveHeld(_, _, _, objs) => objs
    case _ => []
  }

  /** A cache slot taken from another class and not added anywhere yet. */
  function Token(pc: Pc): int {
    match pc
    case BackWant(_, _, _, g) => if g then 1 else 0
    case BackHeld(_, _, _, g) => if g then 1 else 0
    case Freeing(_, _, task) => if task.EvictionFor? then 1 else 0
    case DelWant(_, _, task, _, _) => if task.EvictionFor? then 1 else 0
    case DelHeld(_, _, task, _, _) => if task.EvictionFor? then 1 else 0
    case FreeWant(_, _, task) => if task.EvictionFor? then 1 else 0
    case _ => 0
  }

  // ---------- the steps ----------

  datatype Request = Insert(c: nat, chain: seq<Ptr>) | Remove(c: nat, n: nat)

  /** What a step cannot choose itself: the next call, the size class to evict from, the outcome
      of the reads made without a lock, and the span from the page heap. */
  datatype Input = Input(call: Request, victim: nat, quit: bool, page: Option<Span>)

  function SetPc(s: State, t: nat, pc: Pc): State { s.(threads := s.threads[t := pc]) }

  function SetList(s: State, c: nat, l: FreeList): State
    requires c < |s.lists|
  {
    s.(lists := s.lists[c := l])
  }

  function Unlock(s: State, l: Lock): State { s.(owner := s.owner - {l}) }

  function Fail(s: State): State { s.(failed := true) }

  ghost function Moved(loc: map<Ptr, Place>, os: seq<Ptr>, q: Place): map<Ptr, Place> {
    map o | o in loc :: if o in os then q else loc[o]
  }

  ghost function Move(s: State, os: seq<Ptr>, q: Place): State { s.(loc := Moved(s.loc, os, q)) }

  ghost function Acquire(s: State, t: nat): State {
    SetPc(s, t, Acquired(PcOf(s, t))).(owner := s.owner[Wants(PcOf(s, t)) := t])
  }

  ghost function Call(s: State, t: nat, r: Request): State {
    match r
    case Insert(c, chain) => Move(SetPc(s, t, InsWant(c, chain)), chain, Hand(t))
    case Remove(c, n) => SetPc(s, t, RemWant(c, n))
  }

  /** Puts a chain into the next cache slot and ends the insertion. */
  ghost function PutChain(s: State, t: nat, c: nat, chain: seq<Ptr>, l: FreeList): State
    requires c < |s.lists|
  {
    var s' := Unlock(SetPc(SetList(s, c, PutSlot(l, chain)), t, Idle), ClassLock(c));
    if |l.slots| < l.maxCache then Move(s', chain, InSlot(c, |l.slots|)) else Fail(s')
  }

  /** Only full transfers go into the cache. */
  ghost function TryCache(s: State, t: nat, c: nat, chain: seq<Ptr>, cfg: Config): State
    requires c < |s.lists| && c < |cfg.classes|
  {
    var l := s.lists[c];
    if |chain| == cfg.classes[c].move then
      if |l.slots| < l.cacheSize then PutChain(s, t, c, chain, l)
      else if l.cacheSize == l.maxCache then SetPc(s, t, Freeing(c, chain, Insertion))
      else SetPc(s, t, Evict(c, chain, false))
    else SetPc(s, t, Freeing(c, chain, Insertion))
  }

  /** Picks a class to evict from; nothing comes of its own class, nor of one that looks
      unsuitable in the reads without its lock. */
  ghost function PickVictim(s: State, t: nat, c: nat, chain: seq<Ptr>, force: bool, v: nat, quit: bool): State {
    if v == c || quit then NotEvicted(s, t, c, chain, force)
    else Unlock(SetPc(s, t, ShrinkWant(c, chain, force, v)), ClassLock(c))
  }

  /** After a failed eviction: a second try, with force, or no cache space. */
  ghost function NotEvicted(s: State, t: nat, c: nat, chain: seq<Ptr>, force: bool): State {
    if force then SetPc(s, t, Freeing(c, chain, Insertion)) else SetPc(s, t, Evict(c, chain, true))
  }

  ghost function Shrink(s: State, t: nat, c: nat, chain: seq<Ptr>, force: bool, v: nat): State
    requires v < |s.lists|
  {
    var l := s.lists[v];
    if |l.slots| > l.cacheSize || l.cacheSize < 0 then Fail(s)
    else if l.cacheSize == 0 then Unlock(SetPc(s, t, BackWant(c, chain, force, false)), ClassLock(v))
    else if |l.slots| == l.cacheSize then
      if !force then Unlock(SetPc(s, t, BackWant(c, chain, force, false)), ClassLock(v))
      else
        var last := l.slots[|l.slots| - 1];
        Move(SetPc(SetList(s, v, TakeSlot(Resized(l, -1))), t, Freeing(v, last, EvictionFor(c, chain, force))), last, Hand(t))
    else Unlock(SetPc(SetList(s, v, Resized(l, -1)), t, BackWant(c, chain, force, true)), ClassLock(v))
  }

  ghost function Back(s: State, t: nat, c: nat, chain: seq<Ptr>, force: bool, got: bool): State
    requires c < |s.lists|
  {
    var l := s.lists[c];
    if !got then NotEvicted(s, t, c, chain, force)
    else if l.cacheSize < l.maxCache then PutChain(s, t, c, chain, Resized(l, 1))
    else SetPc(s, t, Freeing(c, chain, Insertion))
  }

  ghost function Released(s: State, t: nat, k: nat, task: Task): State {
    Unlock(SetPc(s, t, if task.EvictionFor? then BackWant(task.c, task.chain, task.force, true) else Idle), ClassLock(k))
  }

  /** Returns the first object of the chain to its span, found through the page map. */
  ghost function FreeOne(s: State, t: nat, k: nat, rest: seq<Ptr>, task: Task, cfg: Config): State
    requires k < |s.lists| && k < |cfg.classes| && |rest| > 0 && cfg.Ok()
  {
    var l, o := s.lists[k], rest[0];
    var page := o / cfg.pageSize;
    if page !in s.heap.pagemap || s.heap.pagemap[page] !in l.spans || l.spans[s.heap.pagemap[page]].refcount == 0 then Fail(s)
    else
      var sp := s.heap.pagemap[page];
      var s' := SetList(s, k, Release(l, o, sp, cfg.ClassOf(k)));
      if Frees(l, sp) then
        var objs := l.spans[sp].objs;
        Move(Unlock(SetPc(s', t, DelWant(k, rest[1..], task, sp, [o] + objs)), ClassLock(k)), objs, Hand(t)).(
          heap := s.heap.(live := s.heap.live[sp := LiveSpan(k, Held(t))]))
      else Move(SetPc(s', t, Freeing(k, rest[1..], task)), [o], InSpan(sp))
  }

  /** Gives the span back to the page heap. */
  ghost function Delete(s: State, t: nat, k: nat, rest: seq<Ptr>, task: Task, sp: Span, dead: seq<Ptr>): State {
    Unlock(SetPc(s, t, FreeWant(k, rest, task)), HeapLock).(
      heap := PageHeap(s.heap.live - {sp}, map p | p in s.heap.pagemap && s.heap.pagemap[p] != sp :: s.heap.pagemap[p]),
      loc := map o | o in s.loc && o !in dead :: s.loc[o])
  }

  /** A whole transfer from the cache, or objects one by one. */
  ghost function TakeCached(s: State, t: nat, c: nat, n: nat, cfg: Config): State
    requires c < |s.lists| && c < |cfg.classes|
  {
    var l := s.lists[c];
    if n == cfg.classes[c].move && |l.slots| > 0 then
      Move(Unlock(SetPc(SetList(s, c, TakeSlot(l)), t, Idle), ClassLock(c)), l.slots[|l.slots| - 1], Client)
    else SetPc(s, t, Fetching(c, n, [], false))
  }

  /** One turn of fetching: an object to the front of the chain, a call to the page heap when
      there is none at all, or the end. */
  ghost function FetchOne(s: State, t: nat, c: nat, n: nat, found: seq<Ptr>, populated: bool): State
    requires c < |s.lists|
  {
    var l := s.lists[c];
    if |found| < n && CanFetch(l) then
      if FetchSpan(l) !in l.spans || |l.spans[FetchSpan(l)].objs| == 0 then Fail(s)
      else Move(SetPc(SetList(s, c, Fetch(l)), t, Fetching(c, n, [Fetched(l)] + found, populated)), [Fetched(l)], Hand(t))
    else if |found| == 0 && !populated then Unlock(SetPc(s, t, NewWant(c, n)), ClassLock(c))
    else Move(Unlock(SetPc(s, t, Idle), ClassLock(c)), found, Client)
  }

  /** The page heap hands out a span that overlaps none in use, or fails. */
  ghost predicate FreshSpan(s: State, sp: Span, c: nat, cfg: Config)
    requires c < |cfg.classes|
  {
    sp > 0 && forall p :: p in s.heap.pagemap ==> p < sp || sp + cfg.classes[c].pages <= p
  }

  /** Registering the pages of a span. */
  function PageEntries(first: nat, n: nat, sp: Span): (r: map<nat, Span>)
    ensures forall p :: p in r <==> first <= p < first + n
    ensures forall p :: p in r ==> r[p] == sp
  {
    if n == 0 then map[] else PageEntries(first, n - 1, sp)[first + n - 1 := sp]
  }

  ghost function NewSpan(s: State, t: nat, c: nat, n: nat, page: Option<Span>, cfg: Config): State
    requires c < |cfg.classes| && cfg.Ok()
  {
    if page.None? then Unlock(SetPc(s, t, CarveWant(c, n, None, [])), HeapLock)
    else
      var sp := page.value;
      var objs := cfg.ObjectsOf(sp, c);
      Unlock(SetPc(s, t, CarveWant(c, n, Some(sp), objs)), HeapLock).(
        heap := PageHeap(s.heap.live[sp := LiveSpan(c, Held(t))], s.heap.pagemap + PageEntries(sp, cfg.classes[c].pages, sp)),
        loc := s.loc + (map o | o in objs :: Hand(t)))
  }

  ghost function AddSpan(s: State, t: nat, c: nat, n: nat, sp: Option<Span>, objs: seq<Ptr>): State
    requires c < |s.lists|
  {
    var s' := SetPc(s, t, Fetching(c, n, [], true));
    if sp.None? then s'
    else Move(SetList(s', c, Add(s.lists[c], sp.value, objs)), objs, InSpan(sp.value)).(
           heap := s.heap.(live := s.heap.live[sp.value := LiveSpan(c, Listed)]))
  }

  /** The size class of an object, through the page map. */
  ghost predicate OfClass(h: PageHeap, o: Ptr, c: nat, cfg: Config)
    requires cfg.pageSize > 0
  {
    var page := o / cfg.pageSize;
    page in h.pagemap && h.pagemap[page] in h.live && h.live[h.pagemap[page]].c == c
  }

  /** Callers insert chains of distinct objects of the class that they own, and ask for a
      positive number of objects. */
  ghost predicate Legal(s: State, r: Request, cfg: Config)
    requires cfg.pageSize > 0
  {
    && r.c < |s.lists|
    && match r
       case Insert(c, chain) => NoDup(chain) && forall o :: o in chain ==> o in s.loc && s.loc[o] == Client && OfClass(s.heap, o, c, cfg)
       case Remove(c, n) => n > 0
  }

  ghost predicate Enabled(s: State, t: nat, i: Input, cfg: Config)
    requires cfg.Ok()
  {
    var pc := PcOf(s, t);
    if Wants(pc) != NoLock then Wants(pc) !in s.owner
    else if pc.Idle? then Legal(s, i.call, cfg)
    else if pc.Evict? then i.victim < |s.lists|
    else if pc.NewHeld? && i.page.Some? && pc.c < |cfg.classes| then FreshSpan(s, i.page.value, pc.c, cfg)
    else true
  }

  ghost function Next(s: State, t: nat, i: Input, cfg: Config): State
    requires cfg.Ok() && |cfg.classes| == |s.lists|
  {
    var pc := PcOf(s, t);
    if Wants(pc) != NoLock then Acquire(s, t)
    else
      match pc
      case Idle => Call(s, t, i.call)
      case InsHeld(c, chain) => if c < |s.lists| then TryCache(s, t, c, chain, cfg) else Fail(s)
      case Evict(c, chain, force) => PickVictim(s, t, c, chain, force, i.victim, i.quit)
      case ShrinkHeld(c, chain, force, v) => if v < |s.lists| then Shrink(s, t, c, chain, force, v) else Fail(s)
      case BackHeld(c, chain, force, g) => if c < |s.lists| then Back(s, t, c, chain, force, g) else Fail(s)
      case Freeing(k, rest, task) =>
        if k >= |s.lists| then Fail(s)
        else if |rest| == 0 then Released(s, t, k, task) else FreeOne(s, t, k, rest, task, cfg)
      case DelHeld(k, rest, task, sp, dead) => Delete(s, t, k, rest, task, sp, dead)
      case RemHeld(c, n) => if c < |s.lists| then TakeCached(s, t, c, n, cfg) else Fail(s)
      case Fetching(c, n, found, populated) => if c < |s.lists| then FetchOne(s, t, c, n, found, populated) else Fail(s)
      case NewHeld(c, n) => if c < |s.lists| then NewSpan(s, t, c, n, i.page, cfg) else Fail(s)
      case CarveHeld(c, n, sp, objs) => if c < |s.lists| then AddSpan(s, t, c, n, sp, objs) else Fail(s)
      case _ => s
  }

  // ---------- the initial lists ----------

  const MAX_TRANSFER_ENTRIES := 64

  /** The limits of a transfer cache: one megabyte of objects or one entry; class 0 is unlimited. */
  function MaxCache(c: nat, cfg: Config): int
    requires cfg.Ok() && c < |cfg.classes|
  {
    if c == 0 then MAX_TRANSFER_ENTRIES
    else
      PositiveProduct(cfg.classes[c].size, cfg.classes[c].move);
      var fit := 1048576 / (cfg.classes[c].size * cfg.classes[c].move);
      var most := if fit < 1 then 1 else fit;
      if most < MAX_TRANSFER_ENTRIES then most else MAX_TRANSFER_ENTRIES
  }

  lemma PositiveProduct(a: nat, b: nat)
    requires a > 0 && b > 0
    ensures a * b > 0
  {
  }

  function InitialList(c: nat, cfg: Config): FreeList
    requires cfg.Ok() && c < |cfg.classes|
  {
    var most := MaxCache(c, cfg);
    FreeList(map[], [], [], 0, 0, [], if most < 16 then most else 16, most)
  }
}
