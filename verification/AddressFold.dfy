/** Applying a callback to stored values one after another. The callback gets a key, the
    value and an accumulator, and gives the value to leave behind and the accumulator. */
module AddressFold {
  import opened AddressMemory
  import opened Collections

  type Callback<!V, !A> = (Number, V, A) -> (V, A)

  ghost function Fold<V, A>(order: seq<Number>, c: map<Number, V>, a: A, f: Callback<V, A>): (r: (map<Number, V>, A))
    requires forall k :: k in order ==> k in c
    ensures r.0.Keys == c.Keys
  {
    if |order| == 0 then (c, a)
    else
      var k := order[|order| - 1];
      var (c', a') := Fold(order[..|order| - 1], c, a, f);
      var (v, a'') := f(k, c'[k], a');
      (c'[k := v], a'')
  }

  /** One more application. */
  lemma FoldSnoc<V, A>(order: seq<Number>, k: Number, c: map<Number, V>, a: A, f: Callback<V, A>)
    requires k in c && forall q :: q in order ==> q in c
    ensures forall q :: q in order + [k] ==> q in c
    ensures var (c', a') := Fold(order, c, a, f); var (v, a'') := f(k, c'[k], a');
            Fold(order + [k], c, a, f) == (c'[k := v], a'')
  {
    assert (order + [k])[..|order|] == order;
  }

  /** Keys not visited keep their values; a callback whose new value does not depend on the
      accumulator is applied once to each visited one. */
  lemma {:induction false} FoldValues<V, A>(order: seq<Number>, c: map<Number, V>, a: A, f: Callback<V, A>, g: (Number, V) -> V)
    requires NoDup(order) && forall k :: k in order ==> k in c
    requires forall k, v, x :: f(k, v, x).0 == g(k, v)
    ensures forall k :: k in c ==> Fold(order, c, a, f).0[k] == if k in order then g(k, c[k]) else c[k]
  {
    if |order| > 0 {
      var rest, last := order[..|order| - 1], order[|order| - 1];
      FoldValues(rest, c, a, f, g);
      assert order == rest + [last] && last !in rest;
      FoldSnoc(rest, last, c, a, f);
      var (c', a') := Fold(rest, c, a, f);
      assert f(last, c'[last], a').0 == g(last, c[last]);
    }
  }

  /** A callback that only reads the values. */
  type Reader<!V, !A> = (Number, V, A) -> A

  function Reading<V, A>(f: Reader<V, A>): Callback<V, A> {
    (k: Number, v, x) => (v, f(k, v, x))
  }

  ghost function Gather<V, A>(order: seq<Number>, c: map<Number, V>, a: A, f: Reader<V, A>): A
    requires forall k :: k in order ==> k in c
  {
    if |order| == 0 then a
    else f(order[|order| - 1], c[order[|order| - 1]], Gather(order[..|order| - 1], c, a, f))
  }

  lemma {:induction false} GatherIs<V, A>(order: seq<Number>, c: map<Number, V>, a: A, f: Reader<V, A>)
    requires forall k :: k in order ==> k in c
    ensures Fold(order, c, a, Reading(f)) == (c, Gather(order, c, a, f))
  {
    if |order| > 0 {
      var rest, k := order[..|order| - 1], order[|order| - 1];
      GatherIs(rest, c, a, f);
      assert order == rest + [k];
      FoldSnoc(rest, k, c, a, Reading(f));
      assert c[k := c[k]] == c;
    }
  }
}
