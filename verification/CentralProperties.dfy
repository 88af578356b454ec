/** What holds over whole runs of the central free lists. */
module CentralProperties {
  import opened CentralInvariant
  import opened CentralLists
  import opened CentralRuns
  import opened CentralThreads
  import opened Collections
  import opened Lists
  import opened Sums

  // ---------- runs ----------

  ghost predicate Initial(s: State, cfg: Config)
    requires cfg.Ok()
  {
    && |s.lists| == |cfg.classes| && (forall c :: 0 <= c < |s.lists| ==> s.lists[c] == InitialList(c, cfg))
    && s.owner == map[] && s.heap == PageHeap(map[], map[]) && s.loc == map[] && s.threads == map[] && !s.failed
  }

  lemma InitialInv(s: State, cfg: Config)
    requires cfg.Ok() && Initial(s, cfg)
    ensures Inv(s, cfg)
  {
    forall c | 0 <= c < |s.lists| ensures ListOk(s.lists[c], cfg.ClassOf(c)) {
      assert FreeCounts(s.lists[c].spans) == map[];
    }
    forall p ensures PlaceOk(s, p) {
      assert Members(s, p) == [];
    }
    forall t: nat ensures PcOk(s.heap, PcOf(s, t), t, cfg) {}
  }

  datatype Move = Move(t: nat, i: Input)

  ghost predicate IsRun(run: seq<State>, moves: seq<Move>, cfg: Config)
    requires cfg.Ok()
  {
    && |run| == |moves| + 1 && Initial(run[0], cfg)
    && forall j :: 0 <= j < |moves| ==>
         && |run[j].lists| == |cfg.classes|
         && Enabled(run[j], moves[j].t, moves[j].i, cfg) && run[j + 1] == Next(run[j], moves[j].t, moves[j].i, cfg)
  }

  /** Whatever the interleaving, the invariant holds all along. */
  lemma {:induction false} RunKeeps(run: seq<State>, moves: seq<Move>, n: nat, cfg: Config)
    requires cfg.Ok() && IsRun(run, moves, cfg) && n < |run|
    ensures Inv(run[n], cfg)
  {
    hide Inv, Enabled, Next, Initial;
    if n == 0 {
      InitialInv(run[0], cfg);
    } else {
      RunKeeps(run, moves, n - 1, cfg);
      NextKeeps(run[n - 1], moves[n - 1].t, moves[n - 1].i, cfg);
    }
  }

  // ---------- conservation ----------

  /** How often an object occurs in a sequence. */
  function Occurs(os: seq<Ptr>, o: Ptr): nat {
    if |os| == 0 then 0 else Occurs(os[1..], o) + if os[0] == o then 1 else 0
  }

  lemma {:induction false} OccursOnce(os: seq<Ptr>, o: Ptr)
    requires NoDup(os)
    ensures Occurs(os, o) == if o in os then 1 else 0
  {
    if |os| > 0 {
      assert os == [os[0]] + os[1..];
      assert os[0] !in os[1..];
      OccursOnce(os[1..], o);
    }
  }

  /** Every object of a live span is with the callers or at exactly one place, once: a span's
      free list, a cache slot or a thread's hands. And nothing else is anywhere. */
  lemma EachObjectOnce(s: State, o: Ptr, p: Place, cfg: Config)
    requires cfg.Ok() && Inv(s, cfg) && p != Client
    ensures Occurs(Members(s, p), o) == if o in s.loc && s.loc[o] == p then 1 else 0
    ensures o in s.loc <==> exists sp :: sp in s.heap.live && s.heap.live[sp].c < |cfg.classes| && o in cfg.ObjectsOf(sp, s.heap.live[sp].c)
  {
    assert PlaceOk(s, p);
    OccursOnce(Members(s, p), o);
  }

  /** On every list, at every step: used and free objects make up each span, a span is on
      `empty` exactly if it has no free object, and the counters are right. */
  lemma Accounts(s: State, c: nat, sp: Span, cfg: Config)
    requires cfg.Ok() && Inv(s, cfg) && c < |s.lists|
    ensures var l := s.lists[c];
            && l.counter == FreeTotal(l.spans) && l.numSpans == |l.nonempty| + |l.empty|
            && 0 <= |l.slots| <= l.cacheSize <= l.maxCache
            && (sp in l.spans ==>
                  && l.spans[sp].refcount + |l.spans[sp].objs| == cfg.SpanBytes(c) / cfg.classes[c].size
                  && (sp in l.empty <==> |l.spans[sp].objs| == 0) && (sp in l.nonempty <==> |l.spans[sp].objs| > 0))
  {
    assert ListOk(s.lists[c], cfg.ClassOf(c));
  }

  // ---------- locks ----------

  /** A thread never holds two locks, counting the page heap's. */
  lemma OneLock(s: State, t: nat, a: Lock, b: Lock, cfg: Config)
    requires cfg.Ok() && Inv(s, cfg) && a in s.owner && b in s.owner && s.owner[a] == t && s.owner[b] == t
    ensures a == b
  {
    assert LockOk(s.owner, PcOf(s, t), t);
  }

  /** As long as some thread is in a call, some such thread can take a step. */
  lemma Progress(s: State, t: nat, cfg: Config) returns (u: nat, i: Input)
    requires cfg.Ok() && Inv(s, cfg) && !PcOf(s, t).Idle?
    ensures !PcOf(s, u).Idle? && Enabled(s, u, i, cfg)
  {
    hide ListsOk, PlacesOk, ObjectsOk, PagesOk, HomesOk, SpanOk;
    i := Input(Remove(0, 1), 0, false, None);
    var w := Wants(PcOf(s, t));
    u := if w != NoLock && w in s.owner then s.owner[w] else t;
    assert LockOk(s.owner, PcOf(s, u), u) && PcOk(s.heap, PcOf(s, u), u, cfg);
  }

  // ---------- cache slots ----------

  function CacheTotal(lists: seq<FreeList>): int {
    if |lists| == 0 then 0 else CacheTotal(lists[..|lists| - 1]) + lists[|lists| - 1].cacheSize
  }

  lemma {:induction false} CacheTotalSet(lists: seq<FreeList>, c: nat, l: FreeList)
    requires c < |lists|
    ensures CacheTotal(lists[c := l]) == CacheTotal(lists) - lists[c].cacheSize + l.cacheSize
  {
    var last := |lists| - 1;
    if c < last {
      assert lists[c := l][..last] == lists[..last][c := l];
      CacheTotalSet(lists[..last], c, l);
    } else {
      assert lists[c := l][..last] == lists[..last];
    }
  }

  ghost function Tokens(threads: map<nat, Pc>): map<nat, int> {
    map t | t in threads :: Token(threads[t])
  }

  /** Cache slots of all classes, and those taken from one and not yet given to another. */
  ghost function Slots(s: State): int { CacheTotal(s.lists) + Sum(Tokens(s.threads)) }

  /** What a step that rewrites one list and one position does to the slots. */
  lemma SlotsChange(s: State, s': State, t: nat, c: nat)
    requires t in s'.threads && s'.threads == s.threads[t := s'.threads[t]]
    requires if c < |s.lists| then |s'.lists| == |s.lists| && s'.lists == s.lists[c := s'.lists[c]] else s'.lists == s.lists
    ensures Slots(s') == Slots(s) + (if c < |s.lists| then s'.lists[c].cacheSize - s.lists[c].cacheSize else 0)
                         + Token(PcOf(s', t)) - Token(PcOf(s, t))
  {
    hide Sum;
    SumUpdate(Tokens(s.threads), t, Token(s'.threads[t]));
    assert Tokens(s'.threads) == Tokens(s.threads)[t := Token(s'.threads[t])];
    if c < |s.lists| {
      CacheTotalSet(s.lists, c, s'.lists[c]);
    }
  }

  /** A step writes one position and at most list c, takes no slot from nowhere, and drops one
      only when the class it is for has reached its limit. */
  ghost predicate SlotStep(s: State, s': State, t: nat, c: nat) {
    && t in s'.threads && s'.threads == s.threads[t := s'.threads[t]]
    && (if c < |s.lists| then |s'.lists| == |s.lists| && s'.lists == s.lists[c := s'.lists[c]] else s'.lists == s.lists)
    && var d := (if c < |s.lists| then s'.lists[c].cacheSize - s.lists[c].cacheSize else 0) + Token(PcOf(s', t)) - Token(PcOf(s, t));
       d == 0 || (d == -1 && Full(s, t))
  }

  /** The class a stolen slot comes back to has reached its limit. */
  ghost predicate Full(s: State, t: nat) {
    var pc := PcOf(s, t);
    pc.BackHeld? && pc.got && pc.c < |s.lists| && s.lists[pc.c].cacheSize >= s.lists[pc.c].maxCache
  }

  lemma CallSlots(s: State, t: nat, r: Request)
    requires PcOf(s, t).Idle?
    ensures SlotStep(s, Call(s, t, r), t, |s.lists|)
  {
    hide Moved;
  }

  lemma TryCacheSlots(s: State, t: nat, c: nat, chain: seq<Ptr>, cfg: Config)
    requires c < |s.lists| && c < |cfg.classes| && PcOf(s, t) == InsHeld(c, chain)
    ensures SlotStep(s, TryCache(s, t, c, chain, cfg), t, c)
  {
    hide Moved;
  }

  lemma PickVictimSlots(s: State, t: nat, c: nat, chain: seq<Ptr>, force: bool, v: nat, quit: bool)
    requires PcOf(s, t) == Evict(c, chain, force)
    ensures SlotStep(s, PickVictim(s, t, c, chain, force, v, quit), t, |s.lists|)
  {
    hide Moved;
  }

  lemma ShrinkSlots(s: State, t: nat, c: nat, chain: seq<Ptr>, force: bool, v: nat)
    requires v < |s.lists| && PcOf(s, t) == ShrinkHeld(c, chain, force, v)
    ensures SlotStep(s, Shrink(s, t, c, chain, force, v), t, v)
  {
    hide Moved;
  }

  lemma BackSlots(s: State, t: nat, c: nat, chain: seq<Ptr>, force: bool, got: bool)
    requires c < |s.lists| && PcOf(s, t) == BackHeld(c, chain, force, got)
    ensures SlotStep(s, Back(s, t, c, chain, force, got), t, c)
  {
    hide Moved;
  }

  lemma ReleasedSlots(s: State, t: nat, k: nat, task: Task)
    requires PcOf(s, t) == Freeing(k, [], task)
    ensures SlotStep(s, Released(s, t, k, task), t, |s.lists|)
  {
    hide Moved;
  }

  lemma FreeOneSlots(s: State, t: nat, k: nat, rest: seq<Ptr>, task: Task, cfg: Config)
    requires k < |s.lists| && k < |cfg.classes| && |rest| > 0 && cfg.Ok() && PcOf(s, t) == Freeing(k, rest, task)
    ensures SlotStep(s, FreeOne(s, t, k, rest, task, cfg), t, k)
  {
    hide Moved, Release;
  }

  lemma DeleteSlots(s: State, t: nat, k: nat, rest: seq<Ptr>, task: Task, sp: Span, dead: seq<Ptr>)
    requires PcOf(s, t) == DelHeld(k, rest, task, sp, dead)
    ensures SlotStep(s, Delete(s, t, k, rest, task, sp, dead), t, |s.lists|)
  {
    hide Moved;
  }

  lemma TakeCachedSlots(s: State, t: nat, c: nat, n: nat, cfg: Config)
    requires c < |s.lists| && c < |cfg.classes| && PcOf(s, t) == RemHeld(c, n)
    ensures SlotStep(s, TakeCached(s, t, c, n, cfg), t, c)
  {
    hide Moved;
  }

  lemma FetchOneSlots(s: State, t: nat, c: nat, n: nat, found: seq<Ptr>, populated: bool)
    requires c < |s.lists| && PcOf(s, t) == Fetching(c, n, found, populated)
    ensures SlotStep(s, FetchOne(s, t, c, n, found, populated), t, c)
  {
    hide Moved, Fetch;
  }

  lemma NewSpanSlots(s: State, t: nat, c: nat, n: nat, page: Option<Span>, cfg: Config)
    requires c < |cfg.classes| && cfg.Ok() && PcOf(s, t) == NewHeld(c, n)
    ensures SlotStep(s, NewSpan(s, t, c, n, page, cfg), t, |s.lists|)
  {
    hide Moved, Config.ObjectsOf, PageEntries;
  }

  lemma AddSpanSlots(s: State, t: nat, c: nat, n: nat, sp: Option<Span>, objs: seq<Ptr>)
    requires c < |s.lists| && PcOf(s, t) == CarveHeld(c, n, sp, objs)
    ensures SlotStep(s, AddSpan(s, t, c, n, sp, objs), t, c)
  {
    hide Moved;
  }

  lemma AcquireSlots(s: State, t: nat)
    requires Wants(PcOf(s, t)) != NoLock
    ensures SlotStep(s, Acquire(s, t), t, |s.lists|)
  {
    hide Moved;
  }

  lemma StepSlots(s: State, t: nat, i: Input, cfg: Config) returns (c: nat)
    requires cfg.Ok() && |s.lists| == |cfg.classes| && PcOk(s.heap, PcOf(s, t), t, cfg)
    ensures SlotStep(s, Next(s, t, i, cfg), t, c) && (c < |s.lists| ==> Holds(PcOf(s, t)) == ClassLock(c))
  {
    hide SlotStep, OfClass, HandSpan, TaskOk;
    hide Acquire, Call, TryCache, PickVictim, Shrink, Back, Released, FreeOne, Delete, TakeCached, FetchOne, NewSpan, AddSpan;
    c := |s.lists|;
    if Wants(PcOf(s, t)) != NoLock {
      AcquireSlots(s, t);
    } else {
      match PcOf(s, t)
      case Idle => CallSlots(s, t, i.call);
      case InsHeld(d, chain) => c := d; TryCacheSlots(s, t, d, chain, cfg);
      case Evict(d, chain, force) => PickVictimSlots(s, t, d, chain, force, i.victim, i.quit);
      case ShrinkHeld(d, chain, force, v) => c := v; ShrinkSlots(s, t, d, chain, force, v);
      case BackHeld(d, chain, force, g) => c := d; BackSlots(s, t, d, chain, force, g);
      case Freeing(k, rest, task) =>
        if |rest| == 0 { ReleasedSlots(s, t, k, task); } else { c := k; FreeOneSlots(s, t, k, rest, task, cfg); }
      case DelHeld(k, rest, task, sp, dead) => DeleteSlots(s, t, k, rest, task, sp, dead);
      case RemHeld(d, n) => c := d; TakeCachedSlots(s, t, d, n, cfg);
      case Fetching(d, n, found, populated) => c := d; FetchOneSlots(s, t, d, n, found, populated);
      case NewHeld(d, n) => NewSpanSlots(s, t, d, n, i.page, cfg);
      case CarveHeld(d, n, sp, objs) => c := d; AddSpanSlots(s, t, d, n, sp, objs);
      case _ =>
    }
  }

  /** Cache sizes and stolen slots together never grow in a step; a slot is lost only when the
      class it was stolen for has reached its limit meanwhile. */
  lemma SlotsNeverGrow(s: State, t: nat, i: Input, cfg: Config)
    requires cfg.Ok() && Inv(s, cfg) && Enabled(s, t, i, cfg)
    ensures Slots(Next(s, t, i, cfg)) == Slots(s) || (Slots(Next(s, t, i, cfg)) == Slots(s) - 1 && Full(s, t))
  {
    InRange(s, t, cfg);
    Lengths(s, cfg);
    hide Inv, Next, Slots, Full, PcOk;
    var c := StepSlots(s, t, i, cfg);
    SlotsChange(s, Next(s, t, i, cfg), t, c);
  }

  /** Over a whole run the cache sizes and stolen slots never exceed the initial ones. */
  lemma {:induction false} SlotsBounded(run: seq<State>, moves: seq<Move>, n: nat, cfg: Config)
    requires cfg.Ok() && IsRun(run, moves, cfg) && n < |run|
    ensures Slots(run[n]) <= Slots(run[0])
  {
    hide Inv, Enabled, Next, Initial, Slots;
    if n > 0 {
      SlotsBounded(run, moves, n - 1, cfg);
      RunKeeps(run, moves, n - 1, cfg);
      SlotsNeverGrow(run[n - 1], moves[n - 1].t, moves[n - 1].i, cfg);
    }
  }

  // ---------- what a removal delivers ----------

  /** The step that ends a removal hands its caller distinct objects of the class, as many as
      asked for unless the list has none left: the last cached chain if a full transfer is asked
      for and there is one, otherwise what was fetched. It is none only after a visit to the page
      heap. */
  lemma RemovalDelivers(s: State, t: nat, i: Input, cfg: Config) returns (os: seq<Ptr>)
    requires cfg.Ok() && Inv(s, cfg) && Enabled(s, t, i, cfg) && |s.lists| == |cfg.classes|
    requires (PcOf(s, t).RemHeld? || PcOf(s, t).Fetching?) && PcOf(Next(s, t, i, cfg), t).Idle?
    ensures var pc := PcOf(s, t);
            && NoDup(os) && |os| <= pc.n && AllOfClass(s.heap, os, pc.c, cfg) && pc.c < |s.lists|
            && (|os| < pc.n ==> !CanFetch(s.lists[pc.c]))
            && (|os| == 0 ==> pc.Fetching? && pc.populated)
            && (pc.Fetching? ==> os == pc.found)
            && (pc.RemHeld? ==> pc.n == cfg.classes[pc.c].move && |s.lists[pc.c].slots| > 0 && os == s.lists[pc.c].slots[|s.lists[pc.c].slots| - 1])
            && Next(s, t, i, cfg).loc == Moved(s.loc, os, Client) && forall o :: o in os ==> o in s.loc && s.loc[o] != Client
  {
    hide Inv, ListOk, OfClass, NoDup, Moved, HandSpan, TaskOk, Call, TryCache, PickVictim, Shrink, Back, Released, FreeOne, Delete, NewSpan, AddSpan;
    InRange(s, t, cfg);
    match PcOf(s, t)
    case RemHeld(c, n) =>
      var j := |s.lists[c].slots| - 1;
      os := s.lists[c].slots[j];
      ListAt(s, c, cfg);
      PlaceAt(s, InSlot(c, j), cfg);
      CachedLength(s.lists[c], cfg.ClassOf(c), j);
    case Fetching(c, n, found, populated) =>
      os := found;
      PlaceAt(s, Hand(t), cfg);
  }

  lemma CachedLength(l: FreeList, k: Class, j: nat)
    requires ListOk(l, k) && j < |l.slots|
    ensures |l.slots[j]| == k.move
  {
  }
}
