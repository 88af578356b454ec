/** What the callers of a central free list hold: objects of its spans that are on no list. */
module CentralClients {
  import opened CentralChains
  import opened CentralLists
  import opened CentralReturns
  import opened CentralStores
  import opened CentralThreads
  import opened Collections
  import opened Lists

  ghost function Objects(os: seq<Ptr>): set<Ptr> { set o | o in os }

  /** An object of the list's spans that is on no list stays so, with its span and its word, unless
      it is in `taken`. */
  ghost predicate ClientsKept(cfg: Config, c: nat, s: Store, s': Store, taken: set<Ptr>)
    requires cfg.Ok() && c < |cfg.classes|
  {
    forall x {:trigger Owned(cfg, c, s'.pm, x)} {:trigger Owned(cfg, c, s.pm, x)} ::
      Owned(cfg, c, s.pm, x) && x !in s.home && x !in taken ==>
        && Owned(cfg, c, s'.pm, x) && x !in s'.home && OwnSpan(s'.pm, cfg.pageSize, x) == OwnSpan(s.pm, cfg.pageSize, x)
        && (x in s.words ==> x in s'.words && s'.words[x] == s.words[x])
  }

  lemma KeptSame(cfg: Config, c: nat, s: Store, taken: set<Ptr>)
    requires cfg.Ok() && c < |cfg.classes|
    ensures ClientsKept(cfg, c, s, s, taken)
  {
  }

  lemma KeptThen(cfg: Config, c: nat, s: Store, t: Store, u: Store, a: set<Ptr>, b: set<Ptr>)
    requires cfg.Ok() && c < |cfg.classes| && ClientsKept(cfg, c, s, t, a) && ClientsKept(cfg, c, t, u, b)
    requires forall x :: x in b && x !in a ==> x in s.home || x in t.home
    ensures ClientsKept(cfg, c, s, u, a)
  {
    hide Owned, OwnSpan;
  }

  /** A chain that a caller holds stays a chain. */
  lemma {:induction false} ClientChain(cfg: Config, c: nat, s: Store, s': Store, taken: set<Ptr>, p: Ptr, os: seq<Ptr>)
    requires cfg.Ok() && c < |cfg.classes| && ClientsKept(cfg, c, s, s', taken) && Chain(s.words, p, os)
    requires forall o :: o in os ==> Owned(cfg, c, s.pm, o) && o !in s.home && o !in taken
    ensures Chain(s'.words, p, os) && forall o :: o in os ==> Owned(cfg, c, s'.pm, o) && o !in s'.home
    decreases |os|
  {
    hide Owned, OwnSpan;
    if |os| > 0 {
      assert os == [os[0]] + os[1..];
      assert Owned(cfg, c, s.pm, os[0]) && Owned(cfg, c, s'.pm, os[0]);
      ClientChain(cfg, c, s, s', taken, s.words[p], os[1..]);
    }
  }

  /** Objects leave the lists, and nothing else changes. */
  lemma TakenKept(cfg: Config, c: nat, s: Store, s': Store)
    requires cfg.Ok() && c < |cfg.classes| && s'.words == s.words && s'.pm == s.pm && s'.home.Keys <= s.home.Keys
    ensures ClientsKept(cfg, c, s, s', {})
  {
  }

  lemma ReturnKept(cfg: Config, c: nat, s: Store, o: Ptr)
    requires Sound(cfg, c, s) && Owned(cfg, c, s.pm, o) && o !in s.home
    requires var sp := OwnSpan(s.pm, cfg.pageSize, o); sp in s.l.spans && s.l.spans[sp].refcount > 0 && sp in s.spans && s.spans[sp].refcount > 0
    ensures ClientsKept(cfg, c, s, AfterReturn(cfg, c, s, o), {o})
  {
    hide Sound, Owned, OwnSpan, Release, WithoutSpan, Rest, Config.Ok;
    ReturnSound(cfg, c, s, o);
  }

  lemma PutKept(cfg: Config, c: nat, s: Store, s': Store, os: seq<Ptr>, p: Place)
    requires cfg.Ok() && c < |cfg.classes| && s'.words == s.words && s'.pm == s.pm && s'.home == Housed(s.home, os, p)
    ensures ClientsKept(cfg, c, s, s', Objects(os))
  {
    hide Owned, OwnSpan;
  }

  lemma CarveKept(cfg: Config, c: nat, s: Store, sp: Span, words: Words, head: Ptr)
    requires Sound(cfg, c, s) && FreshPages(cfg, c, s.pm, sp) && Chain(words, head, cfg.ObjectsOf(sp, c))
    requires forall x :: x in s.words && x !in cfg.ObjectsOf(sp, c) ==> x in words && words[x] == s.words[x]
    ensures Sound(cfg, c, AfterAdd(cfg, c, s.(words := words), sp, head))
    ensures ClientsKept(cfg, c, s, AfterAdd(cfg, c, s.(words := words), sp, head), {})
    ensures forall o :: o in AfterAdd(cfg, c, s.(words := words), sp, head).home ==> o in s.home || !Owned(cfg, c, s.pm, o)
  {
    hide SpansRep, SlotsRep, Homes, OwnOk, ListOk, Chain, Config.ObjectsOf, PageEntries, FreshPages, Owned, OwnSpan;
    var objs := cfg.ObjectsOf(sp, c);
    AddOwn(cfg, c, s.pm, s.l, s.home, sp);
    RewriteSound(cfg, c, s, words, Objects(objs));
    AddSound(cfg, c, s.(words := words), sp, head);
    hide Sound;
  }

  /** An object is fetched, and its word written. */
  lemma FetchKept(cfg: Config, c: nat, s: Store, taken: set<Ptr>, before: Store, v: Ptr)
    requires cfg.Ok() && c < |cfg.classes| && ClientsKept(cfg, c, s, before, taken)
    requires Fetchable(before.l) && FetchSpan(before.l) in before.spans && Fetched(before.l) in before.words && Fetched(before.l) in before.home
    ensures var o, t := Fetched(before.l), AfterFetch(before); ClientsKept(cfg, c, s, t.(words := t.words[o := v]), taken)
  {
    hide Owned, OwnSpan, Fetch, Fetched;
  }

  lemma OneNoDup(os: seq<Ptr>)
    requires |os| == 1
    ensures NoDup(os)
  {
  }

  lemma SlotChain(words: Words, e: TCEntry, os: seq<Ptr>)
    requires SlotRep(words, e, os)
    ensures |os| > 0 && Chain(words, e.head, os) && e.tail == os[|os| - 1]
  {
  }

  lemma ChainSlot(words: Words, e: TCEntry, os: seq<Ptr>)
    requires |os| > 0 && Chain(words, e.head, os) && e.tail == os[|os| - 1]
    ensures SlotRep(words, e, os)
  {
  }

  /** The first object of a chain is back at its span; the others still wait. */
  lemma RestKept(cfg: Config, c: nat, s: Store, t: Store, u: Store, os: seq<Ptr>, rest: seq<Ptr>)
    requires cfg.Ok() && c < |cfg.classes| && |rest| > 0 && NoDup(rest)
    requires ClientsKept(cfg, c, s, t, Objects(os)) && ClientsKept(cfg, c, t, u, {rest[0]})
    requires Chain(t.words, rest[0], rest) && forall o :: o in rest ==> o in os && o !in t.home && Owned(cfg, c, t.pm, o)
    requires forall o :: o in rest ==> OwnSpan(t.pm, cfg.pageSize, o) == OwnSpan(s.pm, cfg.pageSize, o)
    ensures ClientsKept(cfg, c, s, u, Objects(os))
    ensures Chain(u.words, t.words[rest[0]], rest[1..]) && NoDup(rest[1..])
    ensures forall o :: o in rest[1..] ==> o in os && o !in u.home && Owned(cfg, c, u.pm, o)
    ensures forall o :: o in rest[1..] ==> OwnSpan(u.pm, cfg.pageSize, o) == OwnSpan(s.pm, cfg.pageSize, o)
  {
    KeptThen(cfg, c, s, t, u, Objects(os), {rest[0]});
    DropFirst(rest);
    ClientChain(cfg, c, t, u, {rest[0]}, t.words[rest[0]], rest[1..]);
    hide Owned, OwnSpan, Chain, NoDup;
  }
}
