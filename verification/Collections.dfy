/** Options, sequences without repetition, and picking from a set. */
module Collections {
  datatype Option<T> = None | Some(value: T)

  ghost predicate NoDup<T(!new)>(s: seq<T>) {
    forall i, j :: 0 <= i < j < |s| ==> s[i] != s[j]
  }

  lemma EmptyNoDup<T(!new)>()
    ensures NoDup<T>([])
  {
  }

  lemma PushNoDup<T(!new)>(x: T, s: seq<T>)
    requires NoDup(s) && x !in s
    ensures NoDup([x] + s)
  {
  }

  lemma DropFirst<T(!new)>(s: seq<T>)
    requires NoDup(s) && |s| > 0
    ensures NoDup(s[1..]) && NoDup([s[0]]) && forall x :: x in s[1..] <==> x in s && x != s[0]
  {
    assert s == [s[0]] + s[1..];
  }

  lemma JoinNoDup<T(!new)>(s: seq<T>, t: seq<T>)
    requires NoDup(s) && NoDup(t) && forall x :: x in s ==> x !in t
    ensures NoDup(s + t) && NoDup(t + s) && (forall x :: x in s + t <==> x in s || x in t) && (forall x :: x in t + s <==> x in s || x in t)
  {
    forall i, j | 0 <= i < j < |s + t| ensures (s + t)[i] != (s + t)[j] {
      if i < |s| <= j { assert s[i] in s && t[j - |s|] in t; }
    }
    forall i, j | 0 <= i < j < |t + s| ensures (t + s)[i] != (t + s)[j] {
      if i < |t| <= j { assert t[i] in t && s[j - |t|] in s; }
    }
  }

  lemma SplitNoDup<T(!new)>(s: seq<T>, t: seq<T>)
    requires NoDup(s + t)
    ensures NoDup(s) && NoDup(t) && (forall x :: x in t ==> x !in s) && forall x :: x in s + t <==> x in s || x in t
  {
    var a := s + t;
    forall i, j | 0 <= i < j < |s| ensures s[i] != s[j] { assert a[i] == s[i] && a[j] == s[j]; }
    forall i, j | 0 <= i < j < |t| ensures t[i] != t[j] { assert a[|s| + i] == t[i] && a[|s| + j] == t[j]; }
    forall i, j | 0 <= i < |s| && 0 <= j < |t| ensures s[i] != t[j] { assert a[i] == s[i] && a[|s| + j] == t[j]; }
  }

  /** Distinct members of a list, all of another, are no more; and equally many only if they
      are all of it. */
  lemma {:induction false} Fewer<T(!new)>(xs: seq<T>, ys: seq<T>)
    requires NoDup(xs) && forall x :: x in xs ==> x in ys
    ensures |xs| <= |ys| && (|xs| == |ys| && NoDup(ys) ==> forall y :: y in ys ==> y in xs)
    decreases |xs|
  {
    if |xs| > 0 {
      var x := xs[0];
      assert x in xs && x in ys;
      var j :| 0 <= j < |ys| && ys[j] == x;
      var ys' := ys[..j] + ys[j + 1..];
      DropFirst(xs);
      forall y | y in xs[1..] ensures y in ys' {
        var i :| 0 <= i < |ys| && ys[i] == y;
        assert i < j ==> ys'[i] == y;
        assert i > j ==> ys'[i - 1] == y;
      }
      Fewer(xs[1..], ys');
      if |xs| == |ys| && NoDup(ys) {
        assert NoDup(ys');
        forall y | y in ys ensures y in xs {
          if y != x {
            var i :| 0 <= i < |ys| && ys[i] == y;
            assert i < j ==> ys'[i] == y;
            assert i > j ==> ys'[i - 1] == y;
          }
        }
      }
    }
  }

  /** A sequence as long as its set of elements has no repetition. */
  lemma {:induction false} CountedNoDup<T(!new)>(s: seq<T>, xs: set<T>)
    requires |s| == |xs| && forall x :: x in s <==> x in xs
    ensures NoDup(s)
  {
    if |s| > 0 {
      var rest := s[1..];
      assert s == [s[0]] + rest && s[0] in xs;
      if s[0] in rest {
        AtMost(rest, xs);
      } else {
        assert |xs - {s[0]}| == |rest|;
        CountedNoDup(rest, xs - {s[0]});
      }
    }
  }

  /** A set is no larger than a sequence that contains all of it. */
  lemma {:induction false} AtMost<T>(s: seq<T>, xs: set<T>)
    requires forall x :: x in xs ==> x in s
    ensures |xs| <= |s|
  {
    if |s| == 0 {
      assert forall x :: x !in xs;
      assert xs == {};
    } else {
      assert s == [s[0]] + s[1..];
      AtMost(s[1..], xs - {s[0]});
      if s[0] in xs {
        assert xs == (xs - {s[0]}) + {s[0]};
      } else {
        assert xs == xs - {s[0]};
      }
    }
  }

  lemma Witness<T>(s: set<T>) returns (x: T)
    requires |s| > 0
    ensures x in s
  {
    x :| x in s;
  }
}
