/** Families of disjoint null-terminated lists through one set of nodes. Each node
    carries one next pointer; the book-keeping says which list it is on and at which
    height, and every condition speaks of single nodes. */
module Lists {
  type Ptr = nat
  const NULL: Ptr := 0

  function HeadIn<H>(head: map<H, Ptr>, h: H): Ptr {
    if h in head then head[h] else NULL
  }

  /** `head` names the first node of a list (absent means the list is empty), `home` the
      list of a node, and `pos` its height in the list, decreasing along `next`. */
  datatype Lists<H(!new, ==)> = Lists(next: map<Ptr, Ptr>, home: map<Ptr, H>, pos: map<Ptr, nat>, head: map<H, Ptr>) {

    function HeadOf(h: H): Ptr {
      HeadIn(head, h)
    }

    ghost predicate On(x: Ptr, h: H) {
      x in home && home[x] == h
    }

    /** `n` is the highest node of list `h` below height `p`, or null if there is none. */
    ghost predicate Below(n: Ptr, h: H, p: int)
      requires pos.Keys == home.Keys
    {
      if n == NULL then forall x :: On(x, h) ==> pos[x] >= p
      else On(n, h) && pos[n] < p && forall x :: On(x, h) ==> pos[x] <= pos[n] || pos[x] >= p
    }

    /** `n` is the highest node of list `h`, or null if the list is empty. */
    ghost predicate Top(n: Ptr, h: H)
      requires pos.Keys == home.Keys
    {
      if n == NULL then forall x :: !On(x, h)
      else On(n, h) && forall x :: On(x, h) ==> pos[x] <= pos[n]
    }

    /** The next pointer of a node leads to the node below it. */
    ghost predicate NodeOk(e: Ptr) {
      e in home ==> next.Keys == home.Keys == pos.Keys && Below(next[e], home[e], pos[e])
    }

    ghost predicate HeadOk(h: H) {
      pos.Keys == home.Keys && Top(HeadOf(h), h)
    }

    /** The triggers keep a proof from walking along a list on its own. */
    ghost predicate Valid() {
      && next.Keys == home.Keys == pos.Keys && NULL !in home
      && (forall e {:trigger NodeOk(e)} :: NodeOk(e))
      && (forall h {:trigger HeadOk(h)} :: HeadOk(h))
      && (forall x, y, h {:trigger On(x, h), On(y, h)} :: On(x, h) && On(y, h) && pos[x] == pos[y] ==> x == y)
    }

    /** Puts a new node at the front of a list. */
    ghost function Push(e: Ptr, h: H): Lists<H> {
      var height := if HeadOf(h) in pos then pos[HeadOf(h)] + 1 else 0;
      Lists(next[e := HeadOf(h)], home[e := h], pos[e := height], head[h := e])
    }

    /** Takes a node out, given the node that points to it (null for the list head). */
    ghost function Remove(prev: Ptr, e: Ptr): Lists<H>
      requires e in home && e in next
    {
      var n := next[e];
      Lists((if prev == NULL then next else next[prev := n]) - {e}, home - {e}, pos - {e},
            if prev == NULL then head[home[e] := n] else head)
    }

    /** `prev` is what points to `e`. */
    ghost predicate PointsTo(prev: Ptr, e: Ptr) {
      && e in home
      && if prev == NULL then HeadOf(home[e]) == e else On(prev, home[e]) && prev in next && next[prev] == e
    }

    /** The head of a list is on it. */
    lemma HeadOn(h: H)
      requires Valid() && HeadOf(h) != NULL
      ensures On(HeadOf(h), h)
    {
      assert HeadOk(h);
    }

    /** The next node is on the same list, further down. */
    lemma NextOn(e: Ptr)
      requires Valid() && e in home && next[e] != NULL
      ensures On(next[e], home[e]) && pos[next[e]] < pos[e]
    {
      assert NodeOk(e);
    }

    /** No node of a list is above its head. */
    lemma HeadAbove(h: H, t: Ptr)
      requires Valid() && On(t, h)
      ensures HeadOf(h) != NULL && On(HeadOf(h), h) && pos[t] <= pos[HeadOf(h)]
    {
      assert HeadOk(h);
    }

    /** Stepping down from a node does not pass a node below it. */
    lemma NextAbove(e: Ptr, t: Ptr)
      requires Valid() && e in home && On(t, home[e]) && t != e && pos[t] <= pos[e]
      ensures next[e] != NULL && On(next[e], home[e]) && pos[t] <= pos[next[e]]
    {
      assert NodeOk(e) && On(e, home[e]);
    }

    lemma PushBelow(e: Ptr, h: H, x: Ptr)
      requires next.Keys == home.Keys == pos.Keys && NULL !in home && Top(HeadOf(h), h)
      requires e !in home && x in home && Below(next[x], home[x], pos[x])
      ensures var l := Push(e, h); l.Below(l.next[x], l.home[x], l.pos[x])
    {
      var l, n, p := Push(e, h), next[x], pos[x];
      assert l.next[x] == n && l.home[x] == home[x] && l.pos[x] == p;
      assert On(x, home[x]);
      forall y | l.On(y, home[x]) ensures if n == NULL then l.pos[y] >= p else l.pos[y] <= l.pos[n] || l.pos[y] >= p {
        if y != e {
          assert On(y, home[x]);
        }
      }
    }

    lemma PushNew(e: Ptr, h: H)
      requires next.Keys == home.Keys == pos.Keys && NULL !in home && Top(HeadOf(h), h)
      requires e !in home
      ensures var l := Push(e, h); l.Below(l.next[e], l.home[e], l.pos[e])
    {
      var l, n := Push(e, h), HeadOf(h);
      forall y | l.On(y, h) ensures if n == NULL then l.pos[y] >= l.pos[e] else l.pos[y] <= l.pos[n] || l.pos[y] >= l.pos[e] {
        if y != e {
          assert On(y, h);
        }
      }
    }

    lemma PushTop(e: Ptr, h: H, g: H)
      requires next.Keys == home.Keys == pos.Keys && NULL !in home && e !in home && e != NULL
      requires Top(HeadOf(g), g) && Top(HeadOf(h), h)
      ensures var l := Push(e, h); l.Top(l.HeadOf(g), g)
    {
      var l := Push(e, h);
      if g == h {
        forall y | l.On(y, g) ensures l.pos[y] <= l.pos[e] {
          assert y != e ==> On(y, g);
        }
      } else {
        assert forall y :: l.On(y, g) <==> On(y, g);
      }
    }

    lemma PushValid(e: Ptr, h: H)
      requires Valid() && e !in home && e != NULL
      ensures Push(e, h).Valid()
    {
      var l := Push(e, h);
      assert HeadOk(h);
      forall x ensures l.NodeOk(x) {
        assert NodeOk(x);
        if x == e { PushNew(e, h); } else if x in home { PushBelow(e, h, x); }
      }
      forall g ensures l.HeadOk(g) {
        assert HeadOk(g);
        PushTop(e, h, g);
      }
      forall x, y, g | l.On(x, g) && l.On(y, g) && l.pos[x] == l.pos[y] ensures x == y {
        assert x != e ==> On(x, g);
        assert y != e ==> On(y, g);
      }
    }

    lemma RemoveBelow(prev: Ptr, e: Ptr, x: Ptr)
      requires next.Keys == home.Keys == pos.Keys && NULL !in home && PointsTo(prev, e) && x in home && x != e && x != prev
      requires Below(next[x], home[x], pos[x]) && next[x] != e
      ensures var l := Remove(prev, e); l.Below(l.next[x], l.home[x], l.pos[x])
    {
      var l, n, p := Remove(prev, e), next[x], pos[x];
      assert l.next[x] == n && l.home[x] == home[x] && l.pos[x] == p;
      forall y | l.On(y, home[x]) ensures if n == NULL then l.pos[y] >= p else l.pos[y] <= l.pos[n] || l.pos[y] >= p {
        assert On(y, home[x]);
      }
    }

    lemma RemovePrev(prev: Ptr, e: Ptr)
      requires next.Keys == home.Keys == pos.Keys && NULL !in home && PointsTo(prev, e) && prev != NULL && prev != e
      requires Below(e, home[e], pos[prev]) && Below(next[e], home[e], pos[e])
      requires forall y :: On(y, home[e]) && pos[y] == pos[e] ==> y == e
      ensures var l := Remove(prev, e); l.Below(l.next[prev], l.home[prev], l.pos[prev])
    {
      var l, n, p := Remove(prev, e), next[e], pos[prev];
      assert l.next[prev] == n && l.home[prev] == home[e] && l.pos[prev] == p;
      assert On(e, home[e]);
      forall y | l.On(y, home[e]) ensures if n == NULL then l.pos[y] >= p else l.pos[y] <= l.pos[n] || l.pos[y] >= p {
        assert On(y, home[e]) && y != e;
      }
    }

    /** Only the node that points to `e` has `e` as its next pointer. */
    lemma NextUnique(prev: Ptr, e: Ptr, x: Ptr)
      requires Valid() && PointsTo(prev, e) && x in home && x != prev
      ensures next[x] != e
    {
      assert NodeOk(x) && NodeOk(prev) && HeadOk(home[e]);
      assert On(e, home[e]) && On(x, home[x]);
      assert home[x] == home[e] ==> On(x, home[e]);
    }

    lemma RemoveTop(prev: Ptr, e: Ptr, g: H)
      requires Valid() && PointsTo(prev, e)
      ensures var l := Remove(prev, e); l.Top(l.HeadOf(g), g)
    {
      var l := Remove(prev, e);
      assert HeadOk(g) && NodeOk(e) && NodeOk(prev) && On(e, home[e]);
      forall y | l.On(y, g) ensures On(y, g) && y != e {
      }
      if g == home[e] && prev == NULL {
        var n := next[e];
        forall y | l.On(y, g) ensures n != NULL && l.pos[y] <= l.pos[n] {
          assert On(y, g);
        }
        assert n != NULL ==> l.On(n, g);
      } else if HeadOf(g) != NULL {
        assert On(HeadOf(g), g) && HeadOf(g) != e;
        assert l.On(HeadOf(g), g);
        forall y | l.On(y, g) ensures l.pos[y] <= l.pos[HeadOf(g)] {
          assert On(y, g);
        }
      }
    }

    lemma RemoveValid(prev: Ptr, e: Ptr)
      requires Valid() && PointsTo(prev, e)
      ensures Remove(prev, e).Valid()
    {
      var l := Remove(prev, e);
      assert NodeOk(e) && NodeOk(prev) && On(e, home[e]);
      forall x ensures l.NodeOk(x) {
        assert NodeOk(x);
        if x in l.home {
          if x == prev {
            RemovePrev(prev, e);
          } else {
            NextUnique(prev, e, x);
            RemoveBelow(prev, e, x);
          }
        }
      }
      forall g ensures l.HeadOk(g) { RemoveTop(prev, e, g); }
      forall x, y, g | l.On(x, g) && l.On(y, g) && l.pos[x] == l.pos[y] ensures x == y {
        assert On(x, g) && On(y, g);
      }
    }

    /** The nodes met by following next pointers from `p`. */
    ghost function Walk(p: Ptr): seq<Ptr>
      requires Valid() && (p != NULL ==> p in home)
      decreases if p == NULL then 0 else pos[p] + 1
    {
      if p == NULL then []
      else
        assert NodeOk(p);
        [p] + Walk(next[p])
    }

    lemma {:induction false} WalkBelow(p: Ptr)
      requires Valid() && p in home
      ensures forall x :: x in Walk(p) <==> On(x, home[p]) && pos[x] <= pos[p]
      ensures forall i, j :: 0 <= i < j < |Walk(p)| ==> Walk(p)[i] != Walk(p)[j]
      decreases pos[p]
    {
      assert NodeOk(p) && On(p, home[p]);
      var n := next[p];
      if n != NULL {
        WalkBelow(n);
      }
      forall x ensures x in Walk(p) <==> On(x, home[p]) && pos[x] <= pos[p] {
        assert x in Walk(p) <==> x == p || x in Walk(n);
      }
    }

    /** Every node is met exactly once from the head of its own list, and from no other head. */
    lemma WalkExact(h: H)
      requires Valid()
      ensures HeadOf(h) != NULL ==> HeadOf(h) in home
      ensures forall x :: x in Walk(HeadOf(h)) <==> On(x, h)
      ensures forall i, j :: 0 <= i < j < |Walk(HeadOf(h))| ==> Walk(HeadOf(h))[i] != Walk(HeadOf(h))[j]
    {
      assert HeadOk(h);
      if HeadOf(h) != NULL {
        WalkBelow(HeadOf(h));
      }
    }
  }
}
