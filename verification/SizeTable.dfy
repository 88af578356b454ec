/** Filling the size-class tables. */
module SizeTables {
  import opened Multiples
  import opened SizeMaps

  function NumMoveSize(size: nat): (n: nat)
    ensures size > 0 ==> 2 <= n <= 32 && (n > 2 ==> n * size <= 65536) && (n < 32 ==> (n + 1) * size > 65536)
  {
    if size == 0 then 0
    else
      var num := 65536 / size;
      if num < 2 then 2 else if num > 32 then 32 else num
  }

  /** A span of `span` bytes wastes at most an eighth on objects of this size and holds
      enough of them to move. */
  predicate Fits(span: nat, size: nat, blocks: nat)
    requires size > 0
  {
    span % size <= span / 8 && span / size >= blocks
  }

  function Pages(n: nat, pageSize: nat): nat {
    n * pageSize
  }

  lemma MorePages(n: nat, pageSize: nat)
    ensures Pages(n + 1, pageSize) == Pages(n, pageSize) + pageSize
  {
  }

  lemma Quotient(span: nat, size: nat, blocks: nat)
    requires size > 0 && span / size < blocks
    ensures span < size * blocks
  {
    var q := span / size;
    assert span < size * (q + 1);
    Distribute(size, blocks, q + 1);
    Times(size, blocks - (q + 1));
  }

  lemma Half(span: nat, size: nat)
    requires size > 0 && span % size <= span / 8 && span > 0
    ensures span / size >= 1
  {
  }

  /** The least number of pages whose span fits. */
  method SpanSearch(size: nat, blocks: nat, pageSize: nat) returns (psize: nat, ghost n: nat)
    requires size > 0 && pageSize > 0
    ensures n > 0 && psize == Pages(n, pageSize)
    ensures Fits(psize, size, blocks) && psize / size >= 1
    ensures forall k :: 0 < k < n ==> !Fits(Pages(k, pageSize), size, blocks)
  {
    hide Pages;
    psize, n := 0, 0;
    assert Pages(0, pageSize) == 0 by { NoPages(pageSize); }
    while true
      invariant psize == Pages(n, pageSize)
      invariant n == 0 ==> psize == 0
      invariant n > 0 ==> psize / size < blocks
      invariant forall k :: 0 < k <= n ==> !Fits(Pages(k, pageSize), size, blocks)
      decreases 8 * size + size * blocks - psize
    {
      ghost var before := psize;
      if n > 0 { Quotient(psize, size, blocks); }
      MorePages(n, pageSize);
      psize, n := psize + pageSize, n + 1;
      while psize % size > psize / 8
        invariant psize == Pages(n, pageSize) && n > 0 && psize > before
        invariant forall k :: 0 < k < n ==> !Fits(Pages(k, pageSize), size, blocks)
        decreases 8 * size - psize
      {
        MorePages(n, pageSize);
        psize, n := psize + pageSize, n + 1;
      }
      Half(psize, size);
      if !(psize / size < blocks) {
        break;
      }
    }
  }

  lemma NoPages(pageSize: nat)
    ensures Pages(0, pageSize) == 0
  {
  }

  /** The pages that the search gives a size. */
  ghost predicate OwnPages(n: nat, size: nat, pageSize: nat)
    requires size > 0 && pageSize > 0
  {
    && n > 0 && Fits(Pages(n, pageSize), size, NumMoveSize(size) / 4)
    && forall k :: 0 < k < n ==> !Fits(Pages(k, pageSize), size, NumMoveSize(size) / 4)
  }

  ghost predicate Increasing(sizes: seq<nat>) {
    forall c, d :: 0 <= c < d < |sizes| ==> sizes[c] < sizes[d]
  }

  /** Multiples of 8 up to 1024 and of 128 above. */
  predicate Aligned(size: nat) {
    size % 8 == 0 && (size > MAX_SMALL_SIZE ==> size % 128 == 0)
  }

  /** A table of class sizes; class 0 is for large objects. */
  ghost predicate TableOk(sizes: seq<nat>) {
    && |sizes| >= 2 && sizes[0] == 0 && Increasing(sizes) && sizes[|sizes| - 1] == MAX_SIZE
    && forall c :: 0 <= c < |sizes| ==> Aligned(sizes[c])
  }

  /** The class is the least that holds the size. */
  ghost predicate IsClassFor(sizes: seq<nat>, size: nat, c: nat) {
    1 <= c < |sizes| && sizes[c] >= size && forall d :: 1 <= d < c ==> sizes[d] < size
  }

  ghost predicate ClassFits(size: nat, pages: nat, pageSize: nat) {
    size > 0 && pages > 0 && Fits(Pages(pages, pageSize), size, NumMoveSize(size) / 4) && Pages(pages, pageSize) / size >= 1
  }

  /** Class `c` of the table serves the size `g` with its own number of pages and as many
      objects as it would have alone. */
  ghost predicate ServesAsAlone(sizes: seq<nat>, pages: seq<nat>, pageSize: nat, g: nat, c: nat)
    requires |pages| == |sizes| && pageSize > 0
  {
    && 0 < g && 1 <= c < |sizes| && sizes[c - 1] < g <= sizes[c] && OwnPages(pages[c], g, pageSize)
    && Pages(pages[c], pageSize) / sizes[c] == Pages(pages[c], pageSize) / g
  }

  ghost predicate Built(sizes: seq<nat>, pages: seq<nat>, pageSize: nat, grid: seq<nat>, classOf: seq<nat>)
    requires pageSize > 0
  {
    && |pages| == |sizes| >= 1 && sizes[0] == 0 && Increasing(sizes) && |classOf| == |grid|
    && (forall c :: 0 <= c < |sizes| ==> Aligned(sizes[c]))
    && (forall c :: 1 <= c < |sizes| ==> ClassFits(sizes[c], pages[c], pageSize))
    && (forall i :: 0 <= i < |grid| ==> ServesAsAlone(sizes, pages, pageSize, grid[i], classOf[i]))
  }

  /** Sizes with the same pages and as many objects share a class. */
  predicate Mergeable(n: nat, size: nat, m: nat, next: nat, pageSize: nat)
    requires size > 0 && next > 0
  {
    n == m && Pages(n, pageSize) / size == Pages(m, pageSize) / next
  }

  /** From one visited size to the next: it grows by its alignment, and joins the class of
      the one before exactly if the two are mergeable; otherwise that class ends there. */
  ghost predicate NextVisited(sizes: seq<nat>, pages: seq<nat>, pageSize: nat, grid: seq<nat>, classOf: seq<nat>, i: nat)
    requires pageSize > 0 && |pages| == |sizes| && i + 1 < |grid| == |classOf|
  {
    var g, h, c, d := grid[i], grid[i + 1], classOf[i], classOf[i + 1];
    && 0 < g && 0 < h && c < |sizes| && d < |sizes| && h == g + AlignmentForSize(g, pageSize)
    && if Mergeable(pages[c], g, pages[d], h, pageSize) then d == c else d == c + 1 && sizes[c] == g
  }

  /** The sizes are visited from the smallest on, and the last one visited ends the last class. */
  ghost predicate Visited(sizes: seq<nat>, pages: seq<nat>, pageSize: nat, grid: seq<nat>, classOf: seq<nat>)
    requires pageSize > 0
  {
    && |pages| == |sizes| >= 1 && |grid| == |classOf| && (|grid| == 0 <==> |sizes| == 1)
    && (|grid| > 0 ==> grid[0] == ALIGNMENT && classOf[0] == 1 && grid[|grid| - 1] == sizes[|sizes| - 1] && classOf[|grid| - 1] == |sizes| - 1)
    && forall i {:trigger NextVisited(sizes, pages, pageSize, grid, classOf, i)} :: 0 <= i < |grid| - 1 ==>
         NextVisited(sizes, pages, pageSize, grid, classOf, i)
  }

  lemma VisitedExtended(sizes: seq<nat>, pages: seq<nat>, pageSize: nat, grid: seq<nat>, classOf: seq<nat>, size: nat, n: nat)
    requires pageSize > 0 && Visited(sizes, pages, pageSize, grid, classOf) && size > 0
    requires if |grid| == 0 then size == ALIGNMENT
             else var g := grid[|grid| - 1];
                  g > 0 && size == g + AlignmentForSize(g, pageSize) && !Mergeable(pages[|sizes| - 1], g, n, size, pageSize)
    ensures Visited(sizes + [size], pages + [n], pageSize, grid + [size], classOf + [|sizes|])
  {
    hide Mergeable, AlignmentForSize;
    forall i | 0 <= i < |grid| ensures NextVisited(sizes + [size], pages + [n], pageSize, grid + [size], classOf + [|sizes|], i) {
      if i < |grid| - 1 {
        assert NextVisited(sizes, pages, pageSize, grid, classOf, i);
      }
    }
  }

  lemma VisitedMerged(sizes: seq<nat>, pages: seq<nat>, pageSize: nat, grid: seq<nat>, classOf: seq<nat>, size: nat)
    requires pageSize > 0 && Visited(sizes, pages, pageSize, grid, classOf) && size > 0 && |grid| > 0
    requires var g := grid[|grid| - 1];
             g > 0 && size == g + AlignmentForSize(g, pageSize) && Mergeable(pages[|sizes| - 1], g, pages[|sizes| - 1], size, pageSize)
    ensures Visited(sizes[|sizes| - 1 := size], pages, pageSize, grid + [size], classOf + [|sizes| - 1])
  {
    hide Mergeable, AlignmentForSize;
    var s', g', c' := sizes[|sizes| - 1 := size], grid + [size], classOf + [|sizes| - 1];
    forall i | 0 <= i < |grid| ensures NextVisited(s', pages, pageSize, g', c', i) {
      if i < |grid| - 1 {
        assert NextVisited(sizes, pages, pageSize, grid, classOf, i);
      }
    }
  }

  lemma Extended(sizes: seq<nat>, pages: seq<nat>, pageSize: nat, grid: seq<nat>, classOf: seq<nat>, size: nat, n: nat)
    requires pageSize > 0 && Built(sizes, pages, pageSize, grid, classOf)
    requires sizes[|sizes| - 1] < size && Aligned(size) && OwnPages(n, size, pageSize) && ClassFits(size, n, pageSize)
    ensures Built(sizes + [size], pages + [n], pageSize, grid + [size], classOf + [|sizes|])
  {
    hide Fits, Aligned, NumMoveSize;
    var s', p', g', c' := sizes + [size], pages + [n], grid + [size], classOf + [|sizes|];
    forall i | 0 <= i < |g'| ensures ServesAsAlone(s', p', pageSize, g'[i], c'[i]) {
      if i < |grid| {
        assert ServesAsAlone(sizes, pages, pageSize, grid[i], classOf[i]);
      }
    }
    forall c | 1 <= c < |s'| ensures ClassFits(s'[c], p'[c], pageSize) {
      if c < |sizes| { assert ClassFits(sizes[c], pages[c], pageSize); }
    }
  }

  lemma Merged(sizes: seq<nat>, pages: seq<nat>, pageSize: nat, grid: seq<nat>, classOf: seq<nat>, size: nat, n: nat)
    requires pageSize > 0 && Built(sizes, pages, pageSize, grid, classOf) && |sizes| >= 2
    requires sizes[|sizes| - 1] < size && Aligned(size) && OwnPages(n, size, pageSize) && ClassFits(size, n, pageSize)
    requires pages[|sizes| - 1] == n && Pages(n, pageSize) / size == Pages(n, pageSize) / sizes[|sizes| - 1]
    ensures Built(sizes[|sizes| - 1 := size], pages, pageSize, grid + [size], classOf + [|sizes| - 1])
  {
    hide Fits, Aligned, NumMoveSize;
    var last := |sizes| - 1;
    var s', g', c' := sizes[last := size], grid + [size], classOf + [last];
    forall i | 0 <= i < |g'| ensures ServesAsAlone(s', pages, pageSize, g'[i], c'[i]) {
      if i < |grid| {
        assert ServesAsAlone(sizes, pages, pageSize, grid[i], classOf[i]);
      }
    }
    forall c | 1 <= c < |s'| ensures ClassFits(s'[c], pages[c], pageSize) {
      if c < last { assert ClassFits(sizes[c], pages[c], pageSize); }
    }
  }

  /** The classes of all sizes, merging a size into the class before it when that costs
      no object, and only then. The ghost results list the sizes visited and the class of each. */
  method BuildClasses(pageSize: nat) returns (sizes: seq<nat>, pages: seq<nat>, ghost grid: seq<nat>, ghost classOf: seq<nat>)
    requires PageSizeOk(pageSize)
    ensures TableOk(sizes) && Built(sizes, pages, pageSize, grid, classOf) && Visited(sizes, pages, pageSize, grid, classOf)
  {
    hide Fits, NumMoveSize, OwnPages, AlignmentForSize, NextVisited, ServesAsAlone, ClassFits;
    sizes, pages, grid, classOf := [0], [0], [], [];
    var size := ALIGNMENT;
    SizesStart(pageSize);
    while size <= MAX_SIZE
      invariant ALIGNMENT <= size && Built(sizes, pages, pageSize, grid, classOf) && sizes[|sizes| - 1] < size
      invariant Visited(sizes, pages, pageSize, grid, classOf)
      invariant if |grid| == 0 then size == ALIGNMENT else size == sizes[|sizes| - 1] + AlignmentForSize(sizes[|sizes| - 1], pageSize)
      invariant size <= MAX_SIZE ==> size % AlignmentForSize(size, pageSize) == 0
      invariant size > MAX_SIZE ==> sizes[|sizes| - 1] == MAX_SIZE
      decreases MAX_SIZE - size
    {
      var alignment := AlignmentForSize(size, pageSize);
      NextSize(size, pageSize);
      var myPages := PagesForSize(size, pageSize);
      var last := |sizes| - 1;
      if last >= 1 && myPages == pages[last] && Pages(myPages, pageSize) / size == Pages(pages[last], pageSize) / sizes[last] {
        Merged(sizes, pages, pageSize, grid, classOf, size, myPages);
        VisitedMerged(sizes, pages, pageSize, grid, classOf, size);
        grid, classOf := grid + [size], classOf + [last];
        sizes := sizes[last := size];
      } else {
        Extended(sizes, pages, pageSize, grid, classOf, size, myPages);
        VisitedExtended(sizes, pages, pageSize, grid, classOf, size, myPages);
        grid, classOf := grid + [size], classOf + [|sizes|];
        sizes, pages := sizes + [size], pages + [myPages];
      }
      size := size + alignment;
    }
  }

  /** The least number of pages is one number. */
  lemma OwnPagesUnique(n: nat, m: nat, size: nat, pageSize: nat)
    requires size > 0 && pageSize > 0 && OwnPages(n, size, pageSize) && OwnPages(m, size, pageSize)
    ensures n == m
  {
    hide Fits, Pages, NumMoveSize;
  }

  /** A class that is not the last ends with a visited size, and the next one opens the next class. */
  lemma {:induction false} ClassEnd(sizes: seq<nat>, pages: seq<nat>, pageSize: nat, grid: seq<nat>, classOf: seq<nat>, c: nat, i: nat)
    returns (j: nat)
    requires pageSize > 0 && Visited(sizes, pages, pageSize, grid, classOf) && i < |grid| && 1 <= c < classOf[i]
    ensures j + 1 < |grid| && classOf[j] == c && classOf[j + 1] == c + 1
    decreases i
  {
    hide Mergeable, AlignmentForSize;
    assert i > 0;
    assert NextVisited(sizes, pages, pageSize, grid, classOf, i - 1);
    if c < classOf[i - 1] {
      j := ClassEnd(sizes, pages, pageSize, grid, classOf, c, i - 1);
    } else {
      j := i - 1;
    }
  }

  /** What is known of a visited size. */
  lemma VisitedAt(sizes: seq<nat>, pages: seq<nat>, pageSize: nat, grid: seq<nat>, classOf: seq<nat>, i: nat)
    requires pageSize > 0 && Built(sizes, pages, pageSize, grid, classOf) && Visited(sizes, pages, pageSize, grid, classOf) && i < |grid|
    ensures |classOf| == |grid| && |pages| == |sizes| && grid[i] > 0 && classOf[i] < |sizes| && OwnPages(pages[classOf[i]], grid[i], pageSize)
    ensures i == 0 ==> grid[0] == ALIGNMENT && classOf[0] == 1
    ensures i > 0 ==> NextVisited(sizes, pages, pageSize, grid, classOf, i - 1)
  {
    hide OwnPages, Pages, Mergeable, Aligned, ClassFits, AlignmentForSize, Increasing, NextVisited;
    assert ServesAsAlone(sizes, pages, pageSize, grid[i], classOf[i]);
  }

  /** Two visits of all sizes agree as far as both go. */
  lemma {:induction false} VisitsAgree(s: seq<nat>, p: seq<nat>, g: seq<nat>, c: seq<nat>, s': seq<nat>, p': seq<nat>, g': seq<nat>, c': seq<nat>,
                                       pageSize: nat, i: nat)
    requires pageSize > 0 && Built(s, p, pageSize, g, c) && Visited(s, p, pageSize, g, c)
    requires Built(s', p', pageSize, g', c') && Visited(s', p', pageSize, g', c') && i < |g| && i < |g'|
    ensures |c| == |g| && |c'| == |g'| && |p| == |s| && |p'| == |s'|
    ensures g[i] == g'[i] && c[i] == c'[i] && c[i] < |s| && c[i] < |s'| && p[c[i]] == p'[c[i]]
  {
    hide Built, Visited, OwnPages, Mergeable, AlignmentForSize;
    VisitedAt(s, p, pageSize, g, c, i);
    VisitedAt(s', p', pageSize, g', c', i);
    if i > 0 {
      VisitsAgree(s, p, g, c, s', p', g', c', pageSize, i - 1);
    }
    OwnPagesUnique(p[c[i]], p'[c'[i]], g[i], pageSize);
  }

  lemma NotLast(sizes: seq<nat>, pages: seq<nat>, pageSize: nat, grid: seq<nat>, classOf: seq<nat>, i: nat)
    requires pageSize > 0 && TableOk(sizes) && Built(sizes, pages, pageSize, grid, classOf) && Visited(sizes, pages, pageSize, grid, classOf)
    requires i + 1 < |grid|
    ensures grid[i] < MAX_SIZE
  {
    hide OwnPages, Pages, Mergeable, Aligned, ClassFits, AlignmentForSize;
    VisitedAt(sizes, pages, pageSize, grid, classOf, i + 1);
    assert ServesAsAlone(sizes, pages, pageSize, grid[i + 1], classOf[i + 1]);
    assert sizes[classOf[i + 1]] <= sizes[|sizes| - 1];
  }

  /** A complete visit is not longer than another one. */
  lemma VisitLength(s: seq<nat>, p: seq<nat>, g: seq<nat>, c: seq<nat>, s': seq<nat>, p': seq<nat>, g': seq<nat>, c': seq<nat>, pageSize: nat)
    requires pageSize > 0 && TableOk(s) && Built(s, p, pageSize, g, c) && Visited(s, p, pageSize, g, c)
    requires TableOk(s') && Built(s', p', pageSize, g', c') && Visited(s', p', pageSize, g', c')
    ensures |g| <= |g'|
  {
    hide Built, NextVisited;
    if |g| > |g'| {
      VisitsAgree(s, p, g, c, s', p', g', c', pageSize, |g'| - 1);
      NotLast(s, p, pageSize, g, c, |g'| - 1);
    }
  }

  /** The page size alone determines the class sizes and their pages. */
  lemma TableUnique(s: seq<nat>, p: seq<nat>, g: seq<nat>, c: seq<nat>, s': seq<nat>, p': seq<nat>, g': seq<nat>, c': seq<nat>, pageSize: nat)
    requires pageSize > 0 && TableOk(s) && Built(s, p, pageSize, g, c) && Visited(s, p, pageSize, g, c)
    requires TableOk(s') && Built(s', p', pageSize, g', c') && Visited(s', p', pageSize, g', c')
    ensures s == s' && p[1..] == p'[1..]
  {
    hide Built, NextVisited, Increasing, Aligned;
    VisitLength(s, p, g, c, s', p', g', c', pageSize);
    VisitLength(s', p', g', c', s, p, g, c, pageSize);
    var last := |g| - 1;
    VisitsAgree(s, p, g, c, s', p', g', c', pageSize, last);
    forall k | 1 <= k < |s| ensures s[k] == s'[k] && p[k] == p'[k] {
      if k < |s| - 1 {
        var j := ClassEnd(s, p, pageSize, g, c, k, last);
        VisitsAgree(s, p, g, c, s', p', g', c', pageSize, j);
        VisitsAgree(s, p, g, c, s', p', g', c', pageSize, j + 1);
        ClassEndSize(s, p, pageSize, g, c, j);
        ClassEndSize(s', p', pageSize, g', c', j);
      }
    }
  }

  lemma ClassEndSize(sizes: seq<nat>, pages: seq<nat>, pageSize: nat, grid: seq<nat>, classOf: seq<nat>, j: nat)
    requires pageSize > 0 && Visited(sizes, pages, pageSize, grid, classOf) && j + 1 < |grid| && classOf[j + 1] == classOf[j] + 1
    ensures classOf[j] < |sizes| && sizes[classOf[j]] == grid[j]
  {
    assert NextVisited(sizes, pages, pageSize, grid, classOf, j);
  }

  /** The table that visiting all sizes gives; by `ComputedOnce` there is one for each page size,
      up to the unused pages of class 0. */
  ghost predicate Computed(sizes: seq<nat>, pages: seq<nat>, pageSize: nat)
    requires pageSize > 0
  {
    TableOk(sizes) && exists grid, classOf :: Built(sizes, pages, pageSize, grid, classOf) && Visited(sizes, pages, pageSize, grid, classOf)
  }

  lemma ComputedOnce(s: seq<nat>, p: seq<nat>, s': seq<nat>, p': seq<nat>, pageSize: nat)
    requires pageSize > 0 && Computed(s, p, pageSize) && Computed(s', p', pageSize)
    ensures s == s' && p[1..] == p'[1..]
  {
    hide Built, Visited, TableOk;
    var g, c :| Built(s, p, pageSize, g, c) && Visited(s, p, pageSize, g, c);
    var g', c' :| Built(s', p', pageSize, g', c') && Visited(s', p', pageSize, g', c');
    TableUnique(s, p, g, c, s', p', g', c', pageSize);
  }

  lemma SizesStart(pageSize: nat)
    requires PageSizeOk(pageSize)
    ensures ALIGNMENT % AlignmentForSize(ALIGNMENT, pageSize) == 0
  {
  }

  method PagesForSize(size: nat, pageSize: nat) returns (n: nat)
    requires size > 0 && pageSize > 0
    ensures OwnPages(n, size, pageSize) && ClassFits(size, n, pageSize)
  {
    hide Fits, NumMoveSize, Pages;
    var psize;
    ghost var m;
    psize, m := SpanSearch(size, NumMoveSize(size) / 4, pageSize);
    n := psize / pageSize;
    PageCount(m, pageSize);
  }

  lemma PageCount(n: nat, pageSize: nat)
    requires pageSize > 0
    ensures Pages(n, pageSize) / pageSize == n
  {
    var q, r := Pages(n, pageSize) / pageSize, Pages(n, pageSize) % pageSize;
    assert pageSize * n == pageSize * q + r;
    Distribute(pageSize, n, q);
    Times(pageSize, n - q);
  }

  // ---------- the table from sizes to classes ----------

  function ClassIndex(s: nat): (i: nat)
    ensures s <= MAX_SIZE ==> i < CLASS_ARRAY_SIZE
  {
    if s > MAX_SMALL_SIZE then (s + 127 + 120 * 128) / 128 else (s + 7) / 8
  }

  /** The largest size with a given index. */
  ghost function Top(i: nat): nat {
    if i <= 128 then 8 * i else 128 * (i - 120)
  }

  /** A size is at most the top of its index, and no aligned size lies between. */
  lemma TopOf(s: nat, x: nat)
    requires Aligned(x) && x >= s
    ensures s <= Top(ClassIndex(s)) <= x
  {
  }

  lemma Rounded(i: nat)
    ensures (128 * i + 127) / 128 == i && (8 * i + 7) / 8 == i && (8 * i) % 8 == 0
  {
  }

  lemma IndexOfTop(i: nat)
    ensures ClassIndex(Top(i)) == i && Top(i) % 8 == 0
  {
    Rounded(i);
    if i > 128 {
      assert Top(i) + 127 + 120 * 128 == 128 * i + 127;
      Rounded(16 * i - 1920);
    }
  }

  /** One table entry serves all sizes with its index. */
  lemma SameClass(sizes: seq<nat>, s: nat, c: nat)
    requires TableOk(sizes) && s <= MAX_SIZE
    ensures IsClassFor(sizes, s, c) <==> IsClassFor(sizes, Top(ClassIndex(s)), c)
  {
    forall d | 1 <= d < |sizes| ensures sizes[d] >= s <==> sizes[d] >= Top(ClassIndex(s)) {
      if sizes[d] >= s { TopOf(s, sizes[d]); }
      TopOf(s, MAX_SIZE);
    }
  }

  /** The entries of all indices whose top is below `next` are right. */
  ghost predicate FilledTo(sizes: seq<nat>, a: seq<nat>, next: nat) {
    |a| == CLASS_ARRAY_SIZE && forall i :: 0 <= i < |a| && Top(i) < next ==> IsClassFor(sizes, Top(i), a[i])
  }

  lemma FillStep(sizes: seq<nat>, a: seq<nat>, s: nat, c: nat)
    requires TableOk(sizes) && FilledTo(sizes, a, s) && s % 8 == 0
    requires 1 <= c < |sizes| && s <= sizes[c] && (c == 1 || sizes[c - 1] < s)
    ensures s <= MAX_SIZE && ClassIndex(s) < |a| && FilledTo(sizes, a[ClassIndex(s) := c], s + 8)
  {
    assert sizes[c] <= sizes[|sizes| - 1];
    assert IsClassFor(sizes, s, c);
    SameClass(sizes, s, c);
    forall i | 0 <= i < |a| && Top(i) < s + 8 ensures IsClassFor(sizes, Top(i), a[ClassIndex(s) := c][i]) {
      IndexOfTop(i);
    }
  }

  lemma ClassSize(sizes: seq<nat>, c: nat)
    requires TableOk(sizes) && 1 <= c < |sizes|
    ensures sizes[c - 1] < sizes[c] && sizes[c] % 8 == 0
  {
    assert Aligned(sizes[c]);
  }

  lemma FillStart(sizes: seq<nat>, a: seq<nat>)
    requires |a| == CLASS_ARRAY_SIZE
    ensures FilledTo(sizes, a, 0)
  {
  }

  /** Fills the table class by class in steps of 8. */
  method Fill(sizes: seq<nat>, a: array<nat>)
    requires TableOk(sizes) && a.Length == CLASS_ARRAY_SIZE
    modifies a
    ensures forall s :: 0 <= s <= MAX_SIZE ==> IsClassFor(sizes, s, a[ClassIndex(s)])
  {
    hide IsClassFor, ClassIndex, Top, FilledTo, Aligned, Increasing;
    FillStart(sizes, a[..]);
    var nextSize := 0;
    for c: nat := 1 to |sizes|
      invariant FilledTo(sizes, a[..], nextSize) && nextSize % 8 == 0
      invariant if c == 1 then nextSize == 0 else nextSize == sizes[c - 1] + 8
    {
      var maxSize := sizes[c];
      ClassSize(sizes, c);
      var s := nextSize;
      while s <= maxSize
        invariant FilledTo(sizes, a[..], s) && s % 8 == 0 && nextSize <= s <= maxSize + 8
      {
        ghost var before: seq<nat> := a[..];
        FillStep(sizes, before, s, c);
        a[ClassIndex(s)] := c;
        assert a[..] == before[ClassIndex(s) := c];
        s := s + 8;
      }
      nextSize := maxSize + 8;
    }
    forall s | 0 <= s <= MAX_SIZE ensures IsClassFor(sizes, s, a[ClassIndex(s)]) {
      SizeFilled(sizes, a[..], s);
    }
  }

  lemma SizeFilled(sizes: seq<nat>, a: seq<nat>, s: nat)
    requires TableOk(sizes) && FilledTo(sizes, a, MAX_SIZE + 8) && s <= MAX_SIZE
    ensures IsClassFor(sizes, s, a[ClassIndex(s)])
  {
    TopOf(s, MAX_SIZE);
    SameClass(sizes, s, a[ClassIndex(s)]);
  }
}
