/** The circular buffer of freed blocks. */
module FreeQueues {
  const QUEUE_SIZE := 1024

  /** The elements from one index round to another. */
  ghost function Window<T>(s: seq<T>, back: nat, front: nat): seq<T>
    requires back < |s| && front < |s|
  {
    if back <= front then s[back..front] else s[back..] + s[..front]
  }

  function NextIndex(i: nat): (n: nat)
    requires i < QUEUE_SIZE
    ensures n == if i == QUEUE_SIZE - 1 then 0 else i + 1
  {
    (i + 1) % QUEUE_SIZE
  }

  lemma WindowPush<T>(s: seq<T>, back: nat, front: nat, x: T)
    requires |s| == QUEUE_SIZE && back < QUEUE_SIZE && front < QUEUE_SIZE && NextIndex(front) != back
    ensures Window(s[front := x], back, NextIndex(front)) == Window(s, back, front) + [x]
  {
  }

  lemma WindowPop<T>(s: seq<T>, back: nat, front: nat)
    requires |s| == QUEUE_SIZE && back < QUEUE_SIZE && front < QUEUE_SIZE && back != front
    ensures [s[back]] + Window(s, NextIndex(back), front) == Window(s, back, front)
  {
  }

  class FreeQueue<T(0)> {
    const q: array<T>
    var front: nat                              // the next slot to fill
    var back: nat                               // the oldest element

    ghost predicate Valid()
      reads this
    {
      q.Length == QUEUE_SIZE && front < QUEUE_SIZE && back < QUEUE_SIZE
    }

    function Size(): (n: nat)
      requires Valid()
      reads this
      ensures n < QUEUE_SIZE
    {
      (front - back + QUEUE_SIZE) % QUEUE_SIZE
    }

    /** The elements, the oldest first. */
    ghost function Contents(): (s: seq<T>)
      requires Valid()
      reads this, q
      ensures |s| == Size()
    {
      Window(q[..], back, front)
    }

    constructor ()
      ensures Valid() && fresh(q) && Contents() == []
    {
      q := new T[QUEUE_SIZE];
      front, back := 0, 0;
    }

    /** One slot stays empty. */
    predicate Full()
      requires Valid()
      reads this, q
      ensures Full() <==> |Contents()| == QUEUE_SIZE - 1
    {
      NextIndex(front) == back
    }

    lemma NotEmpty()
      requires Valid()
      ensures Contents() != [] ==> front != back
    {
    }

    method Push(x: T)
      requires Valid() && !Full()
      modifies this`front, q
      ensures Valid() && Contents() == old(Contents()) + [x]
    {
      hide Window, NextIndex;
      ghost var s := q[..];
      WindowPush(s, back, front, x);
      q[front] := x;
      assert q[..] == s[front := x];
      front := NextIndex(front);
    }

    method Pop() returns (x: T)
      requires Valid() && Contents() != []
      modifies this`back
      ensures Valid() && [x] + Contents() == old(Contents())
    {
      NotEmpty();
      hide Window, NextIndex;
      WindowPop(q[..], back, front);
      x := q[back];
      back := NextIndex(back);
    }
  }
}
