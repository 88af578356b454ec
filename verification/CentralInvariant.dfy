/** What every step of the threads keeps. */
module CentralInvariant {
  import opened CentralLists
  import opened CentralThreads
  import opened Collections
  import opened Lists
  import opened Multiples
  import opened Sums

  // ---------- the invariant ----------

  /** The objects at a place. */
  ghost function Members(s: State, p: Place): seq<Ptr> {
    match p
    case InSpan(sp) =>
      if sp in s.heap.live && s.heap.live[sp].c < |s.lists| && sp in s.lists[s.heap.live[sp].c].spans then s.lists[s.heap.live[sp].c].spans[sp].objs else []
    case InSlot(c, i) => if c < |s.lists| && i < |s.lists[c].slots| then s.lists[c].slots[i] else []
    case Hand(t) => HandObjs(PcOf(s, t))
    case Client => []
  }

  /** A place holds exactly the objects located there, each once. */
  ghost predicate PlaceOk(s: State, p: Place) {
    p != Client ==> NoDup(Members(s, p)) && forall o :: o in Members(s, p) <==> o in s.loc && s.loc[o] == p
  }

  ghost predicate PlacesOk(s: State) {
    forall p {:trigger PlaceOk(s, p)} :: PlaceOk(s, p)
  }

  /** The objects are those of the live spans, found through the page map. */
  ghost predicate ObjectsOk(h: PageHeap, os: set<Ptr>, cfg: Config)
    requires cfg.Ok()
  {
    && (forall o :: o in os ==>
          && o / cfg.pageSize in h.pagemap && h.pagemap[o / cfg.pageSize] in h.live
          && var sp := h.pagemap[o / cfg.pageSize];
             h.live[sp].c < |cfg.classes| && o in cfg.ObjectsOf(sp, h.live[sp].c))
    && (forall sp, o :: sp in h.live && h.live[sp].c < |cfg.classes| && o in cfg.ObjectsOf(sp, h.live[sp].c) ==>
          o in os && h.pagemap[o / cfg.pageSize] == sp)
  }

  /** The page map leads from the pages of a live span to it, and from no other page. */
  ghost predicate SpanPagesOk(h: PageHeap, sp: Span, cfg: Config)
    requires sp in h.live
  {
    && sp > 0 && h.live[sp].c < |cfg.classes|
    && forall p: nat :: sp <= p < sp + cfg.classes[h.live[sp].c].pages ==> p in h.pagemap && h.pagemap[p] == sp
  }

  ghost predicate PageOk(h: PageHeap, p: nat, cfg: Config)
    requires p in h.pagemap
  {
    var sp := h.pagemap[p];
    sp in h.live && h.live[sp].c < |cfg.classes| && sp <= p < sp + cfg.classes[h.live[sp].c].pages
  }

  ghost predicate PagesOk(h: PageHeap, cfg: Config) {
    && (forall sp {:trigger SpanPagesOk(h, sp, cfg)} :: sp in h.live ==> SpanPagesOk(h, sp, cfg))
    && (forall p {:trigger PageOk(h, p, cfg)} :: p in h.pagemap ==> PageOk(h, p, cfg))
  }

  /** The objects on a span's free list are its own. */
  ghost predicate HomesOk(pagemap: map<nat, Span>, loc: map<Ptr, Place>, cfg: Config)
    requires cfg.Ok()
  {
    forall o :: o in loc && loc[o].InSpan? ==> o / cfg.pageSize in pagemap && pagemap[o / cfg.pageSize] == loc[o].sp
  }

  /** The span in a thread's hands, being carved or deleted, with all its objects. */
  ghost function HandSpan(pc: Pc): Option<(Span, nat, seq<Ptr>)> {
    match pc
    case DelWant(k, _, _, sp, dead) => Some((sp, k, dead))
    case DelHeld(k, _, _, sp, dead) => Some((sp, k, dead))
    case CarveWant(c, _, sp, objs) => if sp.Some? then Some((sp.value, c, objs)) else None
    case CarveHeld(c, _, sp, objs) => if sp.Some? then Some((sp.value, c, objs)) else None
    case _ => None
  }

  /** A live span is on the list of its class, or in the hands of one thread. */
  ghost predicate SpanOk(s: State, sp: Span) {
    if sp in s.heap.live then
      && s.heap.live[sp].c < |s.lists|
      && (forall c :: 0 <= c < |s.lists| && sp in s.lists[c].spans ==> c == s.heap.live[sp].c && s.heap.live[sp].at.Listed?)
      && match s.heap.live[sp].at
         case Listed => sp in s.lists[s.heap.live[sp].c].spans
         case Held(t) => HandSpan(PcOf(s, t)).Some? && HandSpan(PcOf(s, t)).value.0 == sp
    else forall c :: 0 <= c < |s.lists| ==> sp !in s.lists[c].spans
  }

  ghost predicate AllOfClass(h: PageHeap, os: seq<Ptr>, c: nat, cfg: Config)
    requires cfg.pageSize > 0
  {
    forall o :: o in os ==> OfClass(h, o, c, cfg)
  }

  ghost predicate TaskOk(h: PageHeap, task: Task, cfg: Config)
    requires cfg.pageSize > 0
  {
    task.EvictionFor? ==> task.c < |cfg.classes| && |task.chain| == cfg.classes[task.c].move && AllOfClass(h, task.chain, task.c, cfg)
  }

  /** A thread handles objects of the right classes, and a span in its hands is wholly there. */
  ghost predicate PcOk(h: PageHeap, pc: Pc, t: nat, cfg: Config)
    requires cfg.Ok()
  {
    var k := |cfg.classes|;
    && (HandSpan(pc).Some? ==>
          var (sp, c, objs) := HandSpan(pc).value;
          c < k && sp in h.live && h.live[sp] == LiveSpan(c, Held(t)) && forall o :: o in objs <==> o in cfg.ObjectsOf(sp, c))
    && match pc
       case Idle => true
       case InsWant(c, chain) => c < k && AllOfClass(h, chain, c, cfg)
       case InsHeld(c, chain) => c < k && AllOfClass(h, chain, c, cfg)
       case Evict(c, chain, _) => c < k && |chain| == cfg.classes[c].move && AllOfClass(h, chain, c, cfg)
       case ShrinkWant(c, chain, _, v) => c < k && v < k && |chain| == cfg.classes[c].move && AllOfClass(h, chain, c, cfg)
       case ShrinkHeld(c, chain, _, v) => c < k && v < k && |chain| == cfg.classes[c].move && AllOfClass(h, chain, c, cfg)
       case BackWant(c, chain, _, _) => c < k && |chain| == cfg.classes[c].move && AllOfClass(h, chain, c, cfg)
       case BackHeld(c, chain, _, _) => c < k && |chain| == cfg.classes[c].move && AllOfClass(h, chain, c, cfg)
       case Freeing(j, rest, task) => j < k && AllOfClass(h, rest, j, cfg) && TaskOk(h, task, cfg)
       case DelWant(j, rest, task, _, _) => j < k && AllOfClass(h, rest, j, cfg) && TaskOk(h, task, cfg)
       case DelHeld(j, rest, task, _, _) => j < k && AllOfClass(h, rest, j, cfg) && TaskOk(h, task, cfg)
       case FreeWant(j, rest, task) => j < k && AllOfClass(h, rest, j, cfg) && TaskOk(h, task, cfg)
       case RemWant(c, n) => c < k && n > 0
       case RemHeld(c, n) => c < k && n > 0
       case Fetching(c, n, found, populated) => c < k && |found| <= n && n > 0 && AllOfClass(h, found, c, cfg)
       case NewWant(c, n) => c < k && n > 0
       case NewHeld(c, n) => c < k && n > 0
       case CarveWant(c, n, sp, objs) => c < k && n > 0 && (sp.None? ==> objs == []) && (sp.Some? ==> objs == cfg.ObjectsOf(sp.value, c))
       case CarveHeld(c, n, sp, objs) => c < k && n > 0 && (sp.None? ==> objs == []) && (sp.Some? ==> objs == cfg.ObjectsOf(sp.value, c))
  }

  /** Each lock has at most one holder, and a thread holds at most the lock of its position. */
  ghost predicate LockOk(owner: map<Lock, nat>, pc: Pc, t: nat) {
    forall l :: l in owner && owner[l] == t <==> l == Holds(pc) && l != NoLock
  }

  ghost predicate ListsOk(s: State, cfg: Config)
    requires cfg.Ok() && |cfg.classes| == |s.lists|
  {
    && (forall c {:trigger ListOk(s.lists[c], cfg.ClassOf(c))} :: 0 <= c < |s.lists| ==> ListOk(s.lists[c], cfg.ClassOf(c)))
    && (forall c, i :: 0 <= c < |s.lists| && 0 <= i < |s.lists[c].slots| ==> AllOfClass(s.heap, s.lists[c].slots[i], c, cfg))
  }

  ghost predicate Inv(s: State, cfg: Config)
    requires cfg.Ok()
  {
    && |cfg.classes| == |s.lists| && !s.failed
    && ListsOk(s, cfg) && PlacesOk(s) && ObjectsOk(s.heap, s.loc.Keys, cfg) && PagesOk(s.heap, cfg) && HomesOk(s.heap.pagemap, s.loc, cfg)
    && (forall sp {:trigger SpanOk(s, sp)} :: SpanOk(s, sp))
    && (forall t {:trigger PcOf(s, t)} :: PcOk(s.heap, PcOf(s, t), t, cfg))
    && (forall t {:trigger LockOk(s.owner, PcOf(s, t), t)} :: LockOk(s.owner, PcOf(s, t), t))
  }

  // ---------- moving objects ----------

  /** Objects move from one place to another; all other places stay as they are. */
  lemma Transfer(s: State, s': State, os: seq<Ptr>, p: Place, q: Place)
    requires PlacesOk(s) && p != q && s'.loc == Moved(s.loc, os, q)
    requires forall o :: o in os ==> o in s.loc && s.loc[o] == p
    requires forall r :: r != p && r != q ==> Members(s', r) == Members(s, r)
    requires p != Client ==> NoDup(Members(s', p)) && forall o :: o in Members(s', p) <==> o in Members(s, p) && o !in os
    requires q != Client ==> NoDup(Members(s', q)) && forall o :: o in Members(s', q) <==> o in Members(s, q) || o in os
    ensures PlacesOk(s') && s'.loc.Keys == s.loc.Keys
  {
    forall r ensures PlaceOk(s', r) {
      assert PlaceOk(s, r);
      if r != Client && r != p && r != q {
        assert Members(s', r) == Members(s, r);
      }
    }
  }

  lemma HomesMoved(pagemap: map<nat, Span>, loc: map<Ptr, Place>, os: seq<Ptr>, q: Place, cfg: Config)
    requires cfg.Ok() && HomesOk(pagemap, loc, cfg)
    requires q.InSpan? ==> forall o :: o in os ==> o / cfg.pageSize in pagemap && pagemap[o / cfg.pageSize] == q.sp
    ensures HomesOk(pagemap, Moved(loc, os, q), cfg)
  {
  }

  /** Nothing moves. */
  lemma Unmoved(s: State, s': State)
    requires PlacesOk(s) && s'.loc == s.loc && forall r :: Members(s', r) == Members(s, r)
    ensures PlacesOk(s')
  {
    forall r ensures PlaceOk(s', r) {
      assert PlaceOk(s, r);
      assert Members(s', r) == Members(s, r);
    }
  }

  // ---------- what a step of one thread leaves alone ----------

  /** Only thread t moves on. */
  ghost predicate OnlyThread(s: State, s': State, t: nat) {
    forall u: nat {:trigger PcOf(s', u)} :: u != t ==> PcOf(s', u) == PcOf(s, u)
  }

  /** How a step may change the lock table: not at all, or the lock of its thread. */
  ghost predicate LockStep(owner: map<Lock, nat>, owner': map<Lock, nat>, l: Lock, l': Lock, t: nat) {
    || (owner' == owner && l' == l)
    || (l != NoLock && owner' == owner - {l} && l' == NoLock)
    || (l == NoLock && l' != NoLock && l' !in owner && owner' == owner[l' := t])
  }

  lemma LockKept(owner: map<Lock, nat>, owner': map<Lock, nat>, pc: Pc, pc': Pc, t: nat, other: Pc, u: nat)
    requires LockOk(owner, pc, t) && LockStep(owner, owner', Holds(pc), Holds(pc'), t) && LockOk(owner, other, u)
    ensures LockOk(owner', pc', t) && (u != t ==> LockOk(owner', other, u))
  {
    forall l ensures l in owner' && owner'[l] == t <==> l == Holds(pc') && l != NoLock {
      assert l in owner && owner[l] == t <==> l == Holds(pc) && l != NoLock;
    }
    forall l | u != t ensures l in owner' && owner'[l] == u <==> l == Holds(other) && l != NoLock {
      assert l in owner && owner[l] == u <==> l == Holds(other) && l != NoLock;
      assert l in owner && owner[l] == t <==> l == Holds(pc) && l != NoLock;
    }
  }

  lemma LocksKept(s: State, s': State, t: nat)
    requires OnlyThread(s, s', t) && LockStep(s.owner, s'.owner, Holds(PcOf(s, t)), Holds(PcOf(s', t)), t)
    requires forall u {:trigger LockOk(s.owner, PcOf(s, u), u)} :: LockOk(s.owner, PcOf(s, u), u)
    ensures forall u {:trigger LockOk(s'.owner, PcOf(s', u), u)} :: LockOk(s'.owner, PcOf(s', u), u)
  {
    forall u: nat ensures LockOk(s'.owner, PcOf(s', u), u) {
      LockKept(s.owner, s'.owner, PcOf(s, t), PcOf(s', t), t, PcOf(s, u), u);
    }
  }

  /** The spans stay where they are. */
  lemma SpansKept(s: State, s': State, t: nat)
    requires OnlyThread(s, s', t) && HandSpan(PcOf(s', t)) == HandSpan(PcOf(s, t)) && s'.heap == s.heap
    requires |s'.lists| == |s.lists| && forall c :: 0 <= c < |s.lists| ==> s'.lists[c].spans.Keys == s.lists[c].spans.Keys
    requires forall sp {:trigger SpanOk(s, sp)} :: SpanOk(s, sp)
    ensures forall sp {:trigger SpanOk(s', sp)} :: SpanOk(s', sp)
  {
    hide HandSpan;
    forall sp ensures SpanOk(s', sp) {
      assert SpanOk(s, sp);
      forall c | 0 <= c < |s.lists| ensures sp in s'.lists[c].spans <==> sp in s.lists[c].spans {
        assert s'.lists[c].spans.Keys == s.lists[c].spans.Keys;
      }
    }
  }

  lemma ListsKept(s: State, s': State, k: nat, cfg: Config)
    requires cfg.Ok() && |cfg.classes| == |s.lists| == |s'.lists| && ListsOk(s, cfg) && s'.heap == s.heap
    requires forall c :: 0 <= c < |s.lists| && c != k ==> s'.lists[c] == s.lists[c]
    requires k < |s.lists| ==> ListOk(s'.lists[k], cfg.ClassOf(k))
    requires k < |s.lists| ==> forall i :: 0 <= i < |s'.lists[k].slots| ==> AllOfClass(s'.heap, s'.lists[k].slots[i], k, cfg)
    ensures ListsOk(s', cfg)
  {
    hide AllOfClass, ListOk;
    forall c | 0 <= c < |s.lists| ensures ListOk(s'.lists[c], cfg.ClassOf(c)) {
      assert ListOk(s.lists[c], cfg.ClassOf(c));
    }
  }

  /** A step that changes at most list k and the position of thread t, and moves objects. */
  lemma Local(s: State, s': State, t: nat, k: nat, cfg: Config)
    requires cfg.Ok() && Inv(s, cfg) && OnlyThread(s, s', t) && !s'.failed
    requires LockStep(s.owner, s'.owner, Holds(PcOf(s, t)), Holds(PcOf(s', t)), t)
    requires s'.heap == s.heap && s'.loc.Keys == s.loc.Keys && PlacesOk(s') && HomesOk(s.heap.pagemap, s'.loc, cfg)
    requires |s'.lists| == |s.lists| && forall c :: 0 <= c < |s.lists| && c != k ==> s'.lists[c] == s.lists[c]
    requires k < |s.lists| ==> ListOk(s'.lists[k], cfg.ClassOf(k)) && s'.lists[k].spans.Keys == s.lists[k].spans.Keys
    requires k < |s.lists| ==> forall i :: 0 <= i < |s'.lists[k].slots| ==> AllOfClass(s.heap, s'.lists[k].slots[i], k, cfg)
    requires PcOk(s.heap, PcOf(s', t), t, cfg) && HandSpan(PcOf(s', t)) == HandSpan(PcOf(s, t))
    ensures Inv(s', cfg)
  {
    hide AllOfClass, PcOk, ListOk, LockOk, PlacesOk, Holds, ObjectsOk, PagesOk, ListsOk, SpanOk, HandSpan, LockStep, HomesOk;
    LocksKept(s, s', t);
    SpansKept(s, s', t);
    ListsKept(s, s', k, cfg);
    forall u: nat ensures PcOk(s'.heap, PcOf(s', u), u, cfg) {
      assert PcOk(s.heap, PcOf(s, u), u, cfg);
    }
  }

  // ---------- parts of the invariant ----------

  lemma Parts(s: State, cfg: Config)
    requires cfg.Ok() && Inv(s, cfg)
    ensures |cfg.classes| == |s.lists| && !s.failed && PlacesOk(s) && HomesOk(s.heap.pagemap, s.loc, cfg) && ListsOk(s, cfg)
    ensures ObjectsOk(s.heap, s.loc.Keys, cfg) && PagesOk(s.heap, cfg)
  {
    hide PlacesOk, HomesOk, ListsOk, ObjectsOk, PagesOk, SpanOk, PcOk, LockOk;
  }

  lemma PlaceAt(s: State, p: Place, cfg: Config)
    requires cfg.Ok() && Inv(s, cfg)
    ensures PlaceOk(s, p)
  {
    hide Members, HomesOk, ListsOk, ObjectsOk, PagesOk, SpanOk, PcOk, LockOk;
  }

  lemma SpanAt(s: State, sp: Span, cfg: Config)
    requires cfg.Ok() && Inv(s, cfg)
    ensures SpanOk(s, sp)
  {
    hide PlacesOk, HomesOk, ListsOk, ObjectsOk, PagesOk, PcOk, LockOk;
    assert SpanOk(s, sp) by { hide SpanOk; }
  }

  /** The classes a thread works on exist. */
  lemma InRange(s: State, t: nat, cfg: Config)
    requires cfg.Ok() && Inv(s, cfg)
    ensures PcOk(s.heap, PcOf(s, t), t, cfg) && |cfg.classes| == |s.lists|
  {
    hide PlacesOk, HomesOk, ListsOk, ObjectsOk, PagesOk, SpanOk, LockOk;
    assert PcOk(s.heap, PcOf(s, t), t, cfg) by { hide PcOk; }
  }

  lemma ListAt(s: State, c: nat, cfg: Config)
    requires cfg.Ok() && Inv(s, cfg) && c < |s.lists|
    ensures |cfg.classes| == |s.lists| && ListOk(s.lists[c], cfg.ClassOf(c))
    ensures forall i :: 0 <= i < |s.lists[c].slots| ==> AllOfClass(s.heap, s.lists[c].slots[i], c, cfg)
  {
    hide PlacesOk, HomesOk, ObjectsOk, PagesOk, SpanOk, PcOk, LockOk, ListOk, AllOfClass;
    assert ListOk(s.lists[c], cfg.ClassOf(c));
  }

  // ---------- steps that move no span ----------

  /** Taking a lock changes nothing in a thread's hands. */
  lemma AcquiredOk(h: PageHeap, pc: Pc, t: nat, cfg: Config)
    requires cfg.Ok() && PcOk(h, pc, t, cfg) && Wants(pc) != NoLock
    ensures PcOk(h, Acquired(pc), t, cfg) && HandObjs(Acquired(pc)) == HandObjs(pc) && HandSpan(Acquired(pc)) == HandSpan(pc)
    ensures Holds(pc) == NoLock && Holds(Acquired(pc)) == Wants(pc)
  {
    hide AllOfClass, TaskOk, Config.ObjectsOf;
  }

  lemma AcquireKeeps(s: State, t: nat, cfg: Config)
    requires cfg.Ok() && Inv(s, cfg) && Wants(PcOf(s, t)) != NoLock && Wants(PcOf(s, t)) !in s.owner
    ensures Inv(Acquire(s, t), cfg)
  {
    hide Inv, PcOk, PlacesOk, HomesOk, ListsOk, ObjectsOk, PagesOk, HandObjs, HandSpan, Acquired, Holds, Wants;
    Parts(s, cfg);
    InRange(s, t, cfg);
    AcquiredOk(s.heap, PcOf(s, t), t, cfg);
    Unmoved(s, Acquire(s, t));
    Local(s, Acquire(s, t), t, |s.lists|, cfg);
  }

  lemma CallKeeps(s: State, t: nat, r: Request, cfg: Config)
    requires cfg.Ok() && Inv(s, cfg) && PcOf(s, t).Idle? && Legal(s, r, cfg)
    ensures Inv(Call(s, t, r), cfg)
  {
    hide Inv, PlacesOk, ListsOk, OfClass, ListOk, HomesOk, ObjectsOk, PagesOk, SpanOk, LockOk;
    Parts(s, cfg);
    var s' := Call(s, t, r);
    PlaceAt(s, Hand(t), cfg);
    if r.Insert? {
      Transfer(s, s', r.chain, Client, Hand(t));
      HomesMoved(s.heap.pagemap, s.loc, r.chain, Hand(t), cfg);
    } else {
      Unmoved(s, s');
    }
    assert PcOk(s.heap, PcOf(s', t), t, cfg);
    Local(s, s', t, |s.lists|, cfg);
  }

  /** Steps that only change the position of a thread, keeping what is in its hands. */
  lemma PcKeeps(s: State, s': State, t: nat, cfg: Config)
    requires cfg.Ok() && Inv(s, cfg) && !s'.failed && OnlyThread(s, s', t) && s' == s.(owner := s'.owner, threads := s'.threads)
    requires LockStep(s.owner, s'.owner, Holds(PcOf(s, t)), Holds(PcOf(s', t)), t)
    requires PcOk(s.heap, PcOf(s', t), t, cfg) && HandSpan(PcOf(s', t)) == HandSpan(PcOf(s, t)) && HandObjs(PcOf(s', t)) == HandObjs(PcOf(s, t))
    ensures Inv(s', cfg)
  {
    hide Inv, PlacesOk, ListsOk, AllOfClass, ListOk, HomesOk, ObjectsOk, PagesOk, SpanOk, PcOk, LockOk, LockStep, Holds, HandSpan, HandObjs;
    Parts(s, cfg);
    Unmoved(s, s');
    Local(s, s', t, |s.lists|, cfg);
  }

  /** The chain goes into the next slot of the list, which is `l` after the changes of this step. */
  lemma PutChainKeeps(s: State, t: nat, c: nat, chain: seq<Ptr>, l: FreeList, cfg: Config)
    requires cfg.Ok() && Inv(s, cfg) && c < |s.lists| && AllOfClass(s.heap, chain, c, cfg) && |chain| == cfg.classes[c].move
    requires Holds(PcOf(s, t)) == ClassLock(c) && HandObjs(PcOf(s, t)) == chain && HandSpan(PcOf(s, t)).None?
    requires l == s.lists[c].(cacheSize := l.cacheSize) && |l.slots| < l.cacheSize <= l.maxCache && ListOk(l, cfg.ClassOf(c))
    ensures Inv(PutChain(s, t, c, chain, l), cfg)
  {
    hide Inv, PlacesOk, ListsOk, AllOfClass, HomesOk, SpansOk, FreeTotal, HandObjs, HandSpan, Holds, PcOk;
    Parts(s, cfg);
    ListAt(s, c, cfg);
    IdleOk(s.heap, t, cfg);
    var s' := PutChain(s, t, c, chain, l);
    var q := InSlot(c, |l.slots|);
    PlaceAt(s, Hand(t), cfg);
    PlaceAt(s, q, cfg);
    Transfer(s, s', chain, Hand(t), q);
    HomesMoved(s.heap.pagemap, s.loc, chain, q, cfg);
    assert ListOk(s'.lists[c], cfg.ClassOf(c));
    Local(s, s', t, c, cfg);
  }

  lemma IdleOk(h: PageHeap, t: nat, cfg: Config)
    requires cfg.Ok()
    ensures PcOk(h, Idle, t, cfg) && HandObjs(Idle) == [] && HandSpan(Idle).None? && Holds(Idle) == NoLock
  {
  }

  lemma TryCacheKeeps(s: State, t: nat, c: nat, chain: seq<Ptr>, cfg: Config)
    requires cfg.Ok() && Inv(s, cfg) && PcOf(s, t) == InsHeld(c, chain) && c < |s.lists|
    ensures Inv(TryCache(s, t, c, chain, cfg), cfg)
  {
    hide Inv, PlacesOk, ListsOk, AllOfClass, HomesOk, ObjectsOk, PagesOk, SpanOk, SpansOk, FreeTotal, LockOk;
    Parts(s, cfg);
    var l, s' := s.lists[c], TryCache(s, t, c, chain, cfg);
    InRange(s, t, cfg);
    ListAt(s, c, cfg);
    if |chain| == cfg.classes[c].move && |l.slots| < l.cacheSize {
      PutChainKeeps(s, t, c, chain, l, cfg);
    } else {
      assert HandObjs(PcOf(s', t)) == chain;
      PcKeeps(s, s', t, cfg);
    }
  }

  lemma NotEvictedKeeps(s: State, t: nat, c: nat, chain: seq<Ptr>, force: bool, cfg: Config)
    requires cfg.Ok() && Inv(s, cfg) && (PcOf(s, t) == Evict(c, chain, force) || PcOf(s, t).BackHeld?)
    requires PcOf(s, t).BackHeld? ==> PcOf(s, t).c == c && PcOf(s, t).chain == chain
    ensures Inv(NotEvicted(s, t, c, chain, force), cfg)
  {
    hide Inv, PlacesOk, ListsOk, AllOfClass, HomesOk, ObjectsOk, PagesOk, SpanOk, ListOk, LockOk;
    Parts(s, cfg);
    var s' := NotEvicted(s, t, c, chain, force);
    InRange(s, t, cfg);
    assert HandObjs(PcOf(s', t)) == chain;
    PcKeeps(s, s', t, cfg);
  }

  lemma PickVictimKeeps(s: State, t: nat, c: nat, chain: seq<Ptr>, force: bool, v: nat, quit: bool, cfg: Config)
    requires cfg.Ok() && Inv(s, cfg) && PcOf(s, t) == Evict(c, chain, force) && v < |s.lists|
    ensures Inv(PickVictim(s, t, c, chain, force, v, quit), cfg)
  {
    hide Inv, PlacesOk, ListsOk, AllOfClass, HomesOk, ObjectsOk, PagesOk, SpanOk, ListOk, LockOk;
    Parts(s, cfg);
    if v == c || quit {
      NotEvictedKeeps(s, t, c, chain, force, cfg);
    } else {
      InRange(s, t, cfg);
      PcKeeps(s, PickVictim(s, t, c, chain, force, v, quit), t, cfg);
    }
  }

  lemma BackKeeps(s: State, t: nat, c: nat, chain: seq<Ptr>, force: bool, got: bool, cfg: Config)
    requires cfg.Ok() && Inv(s, cfg) && PcOf(s, t) == BackHeld(c, chain, force, got) && c < |s.lists|
    ensures Inv(Back(s, t, c, chain, force, got), cfg)
  {
    hide Inv, PlacesOk, ListsOk, AllOfClass, HomesOk, ObjectsOk, PagesOk, SpanOk, SpansOk, FreeTotal, LockOk;
    Parts(s, cfg);
    var l := s.lists[c];
    InRange(s, t, cfg);
    ListAt(s, c, cfg);
    if !got {
      NotEvictedKeeps(s, t, c, chain, force, cfg);
    } else if l.cacheSize < l.maxCache {
      PutChainKeeps(s, t, c, chain, Resized(l, 1), cfg);
    } else {
      var s' := Back(s, t, c, chain, force, got);
      assert HandObjs(PcOf(s', t)) == chain;
      PcKeeps(s, s', t, cfg);
    }
  }

  lemma ReleasedKeeps(s: State, t: nat, k: nat, task: Task, cfg: Config)
    requires cfg.Ok() && Inv(s, cfg) && PcOf(s, t) == Freeing(k, [], task)
    ensures Inv(Released(s, t, k, task), cfg)
  {
    hide Inv, PlacesOk, ListsOk, AllOfClass, HomesOk, ObjectsOk, PagesOk, SpanOk, ListOk, LockOk;
    Parts(s, cfg);
    InRange(s, t, cfg);
    PcKeeps(s, Released(s, t, k, task), t, cfg);
  }

  /** The last chain of a full cache passes to the evicting thread. */
  lemma EvictLastKeeps(s: State, t: nat, c: nat, chain: seq<Ptr>, force: bool, v: nat, cfg: Config)
    requires cfg.Ok() && Inv(s, cfg) && PcOf(s, t) == ShrinkHeld(c, chain, force, v) && v < |s.lists|
    requires force && |s.lists[v].slots| == s.lists[v].cacheSize > 0
    ensures Inv(Shrink(s, t, c, chain, force, v), cfg)
  {
    hide Inv, PlacesOk, ListsOk, AllOfClass, HomesOk, ObjectsOk, PagesOk, SpanOk, SpansOk, FreeTotal, LockOk, NoDup;
    Parts(s, cfg);
    var l, s' := s.lists[v], Shrink(s, t, c, chain, force, v);
    InRange(s, t, cfg);
    ListAt(s, v, cfg);
    var last, p := l.slots[|l.slots| - 1], InSlot(v, |l.slots| - 1);
    PlaceAt(s, Hand(t), cfg);
    PlaceAt(s, p, cfg);
    JoinNoDup(last, chain);
    EmptyNoDup<Ptr>();
    Transfer(s, s', last, p, Hand(t));
    HomesMoved(s.heap.pagemap, s.loc, last, Hand(t), cfg);
    Local(s, s', t, v, cfg);
  }

  /** A list whose cache gives up a slot. */
  lemma ShrinkKeeps(s: State, t: nat, c: nat, chain: seq<Ptr>, force: bool, v: nat, cfg: Config)
    requires cfg.Ok() && Inv(s, cfg) && PcOf(s, t) == ShrinkHeld(c, chain, force, v) && v < |s.lists|
    ensures Inv(Shrink(s, t, c, chain, force, v), cfg)
  {
    hide Inv, PlacesOk, ListsOk, AllOfClass, HomesOk, ObjectsOk, PagesOk, SpanOk, SpansOk, FreeTotal, LockOk, NoDup;
    Parts(s, cfg);
    var l, s' := s.lists[v], Shrink(s, t, c, chain, force, v);
    InRange(s, t, cfg);
    ListAt(s, v, cfg);
    if l.cacheSize == 0 || (|l.slots| == l.cacheSize && !force) {
      hide PlacesOk;
      PcKeeps(s, s', t, cfg);
    } else if |l.slots| == l.cacheSize {
      EvictLastKeeps(s, t, c, chain, force, v, cfg);
    } else {
      Unmoved(s, s');
      hide PlacesOk;
      Local(s, s', t, v, cfg);
    }
  }

  /** The last cached chain passes to the caller. */
  lemma TakeChainKeeps(s: State, t: nat, c: nat, n: nat, cfg: Config)
    requires cfg.Ok() && Inv(s, cfg) && PcOf(s, t) == RemHeld(c, n) && c < |s.lists| && c < |cfg.classes|
    requires n == cfg.classes[c].move && |s.lists[c].slots| > 0
    ensures Inv(TakeCached(s, t, c, n, cfg), cfg)
  {
    hide Inv, PlacesOk, ListsOk, AllOfClass, HomesOk, SpansOk, FreeTotal, NoDup, PcOk;
    Parts(s, cfg);
    IdleOk(s.heap, t, cfg);
    ListAt(s, c, cfg);
    var l, s' := s.lists[c], TakeCached(s, t, c, n, cfg);
    var last, p := l.slots[|l.slots| - 1], InSlot(c, |l.slots| - 1);
    PlaceAt(s, p, cfg);
    EmptyNoDup<Ptr>();
    Transfer(s, s', last, p, Client);
    HomesMoved(s.heap.pagemap, s.loc, last, Client, cfg);
    Local(s, s', t, c, cfg);
  }

  lemma TakeCachedKeeps(s: State, t: nat, c: nat, n: nat, cfg: Config)
    requires cfg.Ok() && Inv(s, cfg) && PcOf(s, t) == RemHeld(c, n) && c < |s.lists|
    ensures Inv(TakeCached(s, t, c, n, cfg), cfg)
  {
    hide Inv, PlacesOk, ListsOk, AllOfClass, HomesOk, Moved;
    InRange(s, t, cfg);
    if n == cfg.classes[c].move && |s.lists[c].slots| > 0 {
      TakeChainKeeps(s, t, c, n, cfg);
    } else {
      Parts(s, cfg);
      NoneOfClass(s.heap, c, cfg);
      PcKeeps(s, TakeCached(s, t, c, n, cfg), t, cfg);
    }
  }

  lemma NoneOfClass(h: PageHeap, c: nat, cfg: Config)
    requires cfg.pageSize > 0
    ensures AllOfClass(h, [], c, cfg)
  {
  }
}
