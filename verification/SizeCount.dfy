/** How many size classes there are: the visit of all sizes, followed step by step for the two
    page sizes. */
module SizeCounts {
  import opened Multiples
  import opened SizeMaps
  import opened SizeTables

  /** A finished visit of all sizes. */
  datatype Visit = Visit(sizes: seq<nat>, pages: seq<nat>, pageSize: nat, grid: seq<nat>, classOf: seq<nat>) {
    ghost predicate Ok() {
      PageSizeOk(pageSize) && TableOk(sizes) && Built(sizes, pages, pageSize, grid, classOf) && Visited(sizes, pages, pageSize, grid, classOf)
    }

    /** The i-th visited size, with its pages and its class. */
    ghost predicate At(i: nat, size: nat, n: nat, c: nat) {
      && |grid| == |classOf| && |pages| == |sizes| && i < |grid|
      && grid[i] == size > 0 && classOf[i] == c < |sizes| && pages[c] == n
    }
  }

  function Align(size: nat, pageSize: nat): nat {
    var a := if size < 16 then 8 else if size < 128 then 16 else Band(size) / 8;
    if a > pageSize then pageSize else a
  }

  lemma AlignIs(size: nat, pageSize: nat)
    requires PageSizeOk(pageSize) && ALIGNMENT <= size <= MAX_SIZE
    ensures AlignmentForSize(size, pageSize) == Align(size, pageSize)
  {
    if size >= 128 {
      InBand(size, pageSize);
    }
  }

  /** `m` is the first number of pages from `k` on whose span fits. */
  predicate FirstFit(size: nat, pageSize: nat, k: nat, m: nat)
    requires size > 0
    decreases if k < m then m - k else 0
  {
    var fits := Fits(k * pageSize, size, NumMoveSize(size) / 4);
    if k >= m then k == m && fits else !fits && FirstFit(size, pageSize, k + 1, m)
  }

  lemma {:induction false} NoneBefore(size: nat, pageSize: nat, k: nat, m: nat, j: nat)
    requires size > 0 && FirstFit(size, pageSize, k, m) && k <= j <= m
    ensures Fits(Pages(j, pageSize), size, NumMoveSize(size) / 4) <==> j == m
    decreases m - k
  {
    if k < j {
      NoneBefore(size, pageSize, k + 1, m, j);
    }
  }

  /** A span smaller than one object does not fit. */
  lemma TooSmall(size: nat, pageSize: nat, j: nat)
    requires size > 0 && 0 < Pages(j, pageSize) < size
    ensures !Fits(Pages(j, pageSize), size, NumMoveSize(size) / 4)
  {
    hide Pages, NumMoveSize;
  }

  lemma FirstIsOwn(size: nat, pageSize: nat, m: nat)
    requires size > 0 && pageSize > 0 && FirstFit(size, pageSize, (size + pageSize - 1) / pageSize, m) && m > 0
    ensures OwnPages(m, size, pageSize)
  {
    hide Fits, NumMoveSize;
    var k := (size + pageSize - 1) / pageSize;
    NoneBefore(size, pageSize, k, m, m);
    forall j | 0 < j < m ensures !Fits(Pages(j, pageSize), size, NumMoveSize(size) / 4) {
      if j < k {
        Below(size, pageSize, j);
        TooSmall(size, pageSize, j);
      } else {
        NoneBefore(size, pageSize, k, m, j);
      }
    }
  }

  lemma Below(size: nat, pageSize: nat, j: nat)
    requires pageSize > 0 && 0 < j < (size + pageSize - 1) / pageSize
    ensures 0 < Pages(j, pageSize) < size
  {
    var k := (size + pageSize - 1) / pageSize;
    assert size + pageSize - 1 == pageSize * k + (size + pageSize - 1) % pageSize;
    Distribute(pageSize, k, j);
    Times(pageSize, k - j);
    Times(pageSize, j);
  }

  /** The size after `size`, its pages, and whether it opens a class. */
  predicate Follows(ps: nat, size: nat, n: nat, c: nat, next: nat, m: nat, d: nat) {
    && ps > 0 && ALIGNMENT <= size < MAX_SIZE && m > 0
    && next == size + Align(size, ps) && FirstFit(next, ps, (next + ps - 1) / ps, m)
    && d == if n == m && n * ps / size == m * ps / next then c else c + 1
  }

  /** One step of the visit. */
  lemma VisitStep(v: Visit, ps: nat, i: nat, size: nat, n: nat, c: nat, next: nat, m: nat, d: nat)
    requires v.Ok() && v.pageSize == ps && v.At(i, size, n, c) && Follows(ps, size, n, c, next, m, d)
    ensures v.At(i + 1, next, m, d)
  {
    hide FirstFit, OwnPages, AlignmentForSize, Align, Built, TableOk;
    AlignIs(size, ps);
    FirstIsOwn(next, ps, m);
    LastIsLargest(v, i);
    VisitedAt(v.sizes, v.pages, v.pageSize, v.grid, v.classOf, i + 1);
    OwnPagesUnique(v.pages[v.classOf[i + 1]], m, next, ps);
  }

  /** What a visit has at a position: a size, its pages and its class. */
  datatype Stop = Stop(i: nat, size: nat, n: nat, c: nat)

  type Place = Stop -> bool

  ghost function PlaceOf(v: Visit): Place { (x: Stop) => v.At(x.i, x.size, x.n, x.c) }

  ghost predicate Closed(at: Place, ps: nat) {
    forall x: Stop, y: Stop {:trigger at(x), Follows(ps, x.size, x.n, x.c, y.size, y.n, y.c)} ::
      at(x) && y.i == x.i + 1 && Follows(ps, x.size, x.n, x.c, y.size, y.n, y.c) ==> at(y)
  }

  lemma VisitClosed(v: Visit)
    requires v.Ok()
    ensures Closed(PlaceOf(v), v.pageSize)
  {
    hide Visit.Ok, Visit.At, Follows;
    forall x: Stop, y: Stop | v.At(x.i, x.size, x.n, x.c) && y.i == x.i + 1 && Follows(v.pageSize, x.size, x.n, x.c, y.size, y.n, y.c)
      ensures v.At(y.i, y.size, y.n, y.c)
    {
      VisitStep(v, v.pageSize, x.i, x.size, x.n, x.c, y.size, y.n, y.c);
    }
  }

  lemma Step(at: Place, ps: nat, i: nat, size: nat, n: nat, c: nat, next: nat, m: nat, d: nat)
    requires Closed(at, ps) && at(Stop(i, size, n, c)) && Follows(ps, size, n, c, next, m, d)
    ensures at(Stop(i + 1, next, m, d))
  {
    var x, y := Stop(i, size, n, c), Stop(i + 1, next, m, d);
    assert at(x) && Follows(ps, x.size, x.n, x.c, y.size, y.n, y.c);
  }

  lemma LastIsLargest(v: Visit, i: nat)
    requires v.Ok() && i < |v.grid| && v.grid[i] < MAX_SIZE
    ensures i + 1 < |v.grid|
  {
    hide Built, NextVisited;
  }

  // ---------- pages of 8192 bytes: the visit, four sizes at a time ----------

  lemma Small64(at: Place)
    requires Closed(at, 8192) && at(Stop(0, 8, 1, 1))
    ensures at(Stop(4, 64, 1, 5))
  {
    hide Closed;
    Step(at, 8192, 0, 8, 1, 1, 16, 1, 2);
    Step(at, 8192, 1, 16, 1, 2, 32, 1, 3);
    Step(at, 8192, 2, 32, 1, 3, 48, 1, 4);
    Step(at, 8192, 3, 48, 1, 4, 64, 1, 5);
  }

  lemma Small128(at: Place)
    requires Closed(at, 8192) && at(Stop(4, 64, 1, 5))
    ensures at(Stop(8, 128, 1, 9))
  {
    hide Closed;
    Step(at, 8192, 4, 64, 1, 5, 80, 1, 6);
    Step(at, 8192, 5, 80, 1, 6, 96, 1, 7);
    Step(at, 8192, 6, 96, 1, 7, 112, 1, 8);
    Step(at, 8192, 7, 112, 1, 8, 128, 1, 9);
  }

  lemma Small192(at: Place)
    requires Closed(at, 8192) && at(Stop(8, 128, 1, 9))
    ensures at(Stop(12, 192, 1, 13))
  {
    hide Closed;
    Step(at, 8192, 8, 128, 1, 9, 144, 1, 10);
    Step(at, 8192, 9, 144, 1, 10, 160, 1, 11);
    Step(at, 8192, 10, 160, 1, 11, 176, 1, 12);
    Step(at, 8192, 11, 176, 1, 12, 192, 1, 13);
  }

  lemma Small256(at: Place)
    requires Closed(at, 8192) && at(Stop(12, 192, 1, 13))
    ensures at(Stop(16, 256, 1, 17))
  {
    hide Closed;
    Step(at, 8192, 12, 192, 1, 13, 208, 1, 14);
    Step(at, 8192, 13, 208, 1, 14, 224, 1, 15);
    Step(at, 8192, 14, 224, 1, 15, 240, 1, 16);
    Step(at, 8192, 15, 240, 1, 16, 256, 1, 17);
  }

  lemma Small384(at: Place)
    requires Closed(at, 8192) && at(Stop(16, 256, 1, 17))
    ensures at(Stop(20, 384, 1, 21))
  {
    hide Closed;
    Step(at, 8192, 16, 256, 1, 17, 288, 1, 18);
    Step(at, 8192, 17, 288, 1, 18, 320, 1, 19);
    Step(at, 8192, 18, 320, 1, 19, 352, 1, 20);
    Step(at, 8192, 19, 352, 1, 20, 384, 1, 21);
  }

  lemma Small512(at: Place)
    requires Closed(at, 8192) && at(Stop(20, 384, 1, 21))
    ensures at(Stop(24, 512, 1, 25))
  {
    hide Closed;
    Step(at, 8192, 20, 384, 1, 21, 416, 1, 22);
    Step(at, 8192, 21, 416, 1, 22, 448, 1, 23);
    Step(at, 8192, 22, 448, 1, 23, 480, 1, 24);
    Step(at, 8192, 23, 480, 1, 24, 512, 1, 25);
  }

  lemma Small768(at: Place)
    requires Closed(at, 8192) && at(Stop(24, 512, 1, 25))
    ensures at(Stop(28, 768, 1, 29))
  {
    hide Closed;
    Step(at, 8192, 24, 512, 1, 25, 576, 1, 26);
    Step(at, 8192, 25, 576, 1, 26, 640, 1, 27);
    Step(at, 8192, 26, 640, 1, 27, 704, 1, 28);
    Step(at, 8192, 27, 704, 1, 28, 768, 1, 29);
  }

  lemma Small1024(at: Place)
    requires Closed(at, 8192) && at(Stop(28, 768, 1, 29))
    ensures at(Stop(32, 1024, 1, 31))
  {
    hide Closed;
    Step(at, 8192, 28, 768, 1, 29, 832, 1, 30);
    Step(at, 8192, 29, 832, 1, 30, 896, 1, 30);
    Step(at, 8192, 30, 896, 1, 30, 960, 1, 31);
    Step(at, 8192, 31, 960, 1, 31, 1024, 1, 31);
  }

  lemma Small1536(at: Place)
    requires Closed(at, 8192) && at(Stop(32, 1024, 1, 31))
    ensures at(Stop(36, 1536, 2, 35))
  {
    hide Closed;
    Step(at, 8192, 32, 1024, 1, 31, 1152, 2, 32);
    Step(at, 8192, 33, 1152, 2, 32, 1280, 2, 33);
    Step(at, 8192, 34, 1280, 2, 33, 1408, 2, 34);
    Step(at, 8192, 35, 1408, 2, 34, 1536, 2, 35);
  }

  lemma Small2048(at: Place)
    requires Closed(at, 8192) && at(Stop(36, 1536, 2, 35))
    ensures at(Stop(40, 2048, 2, 37))
  {
    hide Closed;
    Step(at, 8192, 36, 1536, 2, 35, 1664, 2, 36);
    Step(at, 8192, 37, 1664, 2, 36, 1792, 2, 36);
    Step(at, 8192, 38, 1792, 2, 36, 1920, 2, 37);
    Step(at, 8192, 39, 1920, 2, 37, 2048, 2, 37);
  }

  lemma Small3072(at: Place)
    requires Closed(at, 8192) && at(Stop(40, 2048, 2, 37))
    ensures at(Stop(44, 3072, 2, 41))
  {
    hide Closed;
    Step(at, 8192, 40, 2048, 2, 37, 2304, 2, 38);
    Step(at, 8192, 41, 2304, 2, 38, 2560, 2, 39);
    Step(at, 8192, 42, 2560, 2, 39, 2816, 3, 40);
    Step(at, 8192, 43, 2816, 3, 40, 3072, 2, 41);
  }

  lemma Small4096(at: Place)
    requires Closed(at, 8192) && at(Stop(44, 3072, 2, 41))
    ensures at(Stop(48, 4096, 2, 43))
  {
    hide Closed;
    Step(at, 8192, 44, 3072, 2, 41, 3328, 3, 42);
    Step(at, 8192, 45, 3328, 3, 42, 3584, 2, 43);
    Step(at, 8192, 46, 3584, 2, 43, 3840, 2, 43);
    Step(at, 8192, 47, 3840, 2, 43, 4096, 2, 43);
  }

  lemma Small6144(at: Place)
    requires Closed(at, 8192) && at(Stop(48, 4096, 2, 43))
    ensures at(Stop(52, 6144, 3, 46))
  {
    hide Closed;
    Step(at, 8192, 48, 4096, 2, 43, 4608, 3, 44);
    Step(at, 8192, 49, 4608, 3, 44, 5120, 2, 45);
    Step(at, 8192, 50, 5120, 2, 45, 5632, 3, 46);
    Step(at, 8192, 51, 5632, 3, 46, 6144, 3, 46);
  }

  lemma Small8192(at: Place)
    requires Closed(at, 8192) && at(Stop(52, 6144, 3, 46))
    ensures at(Stop(56, 8192, 2, 48))
  {
    hide Closed;
    Step(at, 8192, 52, 6144, 3, 46, 6656, 5, 47);
    Step(at, 8192, 53, 6656, 5, 47, 7168, 2, 48);
    Step(at, 8192, 54, 7168, 2, 48, 7680, 2, 48);
    Step(at, 8192, 55, 7680, 2, 48, 8192, 2, 48);
  }

  lemma Small12288(at: Place)
    requires Closed(at, 8192) && at(Stop(56, 8192, 2, 48))
    ensures at(Stop(60, 12288, 3, 51))
  {
    hide Closed;
    Step(at, 8192, 56, 8192, 2, 48, 9216, 5, 49);
    Step(at, 8192, 57, 9216, 5, 49, 10240, 4, 50);
    Step(at, 8192, 58, 10240, 4, 50, 11264, 3, 51);
    Step(at, 8192, 59, 11264, 3, 51, 12288, 3, 51);
  }

  lemma Small16384(at: Place)
    requires Closed(at, 8192) && at(Stop(60, 12288, 3, 51))
    ensures at(Stop(64, 16384, 2, 53))
  {
    hide Closed;
    Step(at, 8192, 60, 12288, 3, 51, 13312, 5, 52);
    Step(at, 8192, 61, 13312, 5, 52, 14336, 2, 53);
    Step(at, 8192, 62, 14336, 2, 53, 15360, 2, 53);
    Step(at, 8192, 63, 15360, 2, 53, 16384, 2, 53);
  }

  lemma Small24576(at: Place)
    requires Closed(at, 8192) && at(Stop(64, 16384, 2, 53))
    ensures at(Stop(68, 24576, 3, 55))
  {
    hide Closed;
    Step(at, 8192, 64, 16384, 2, 53, 18432, 5, 54);
    Step(at, 8192, 65, 18432, 5, 54, 20480, 5, 54);
    Step(at, 8192, 66, 20480, 5, 54, 22528, 3, 55);
    Step(at, 8192, 67, 22528, 3, 55, 24576, 3, 55);
  }

  lemma Small32768(at: Place)
    requires Closed(at, 8192) && at(Stop(68, 24576, 3, 55))
    ensures at(Stop(72, 32768, 4, 57))
  {
    hide Closed;
    Step(at, 8192, 68, 24576, 3, 55, 26624, 7, 56);
    Step(at, 8192, 69, 26624, 7, 56, 28672, 4, 57);
    Step(at, 8192, 70, 28672, 4, 57, 30720, 4, 57);
    Step(at, 8192, 71, 30720, 4, 57, 32768, 4, 57);
  }

  lemma Small49152(at: Place)
    requires Closed(at, 8192) && at(Stop(72, 32768, 4, 57))
    ensures at(Stop(76, 49152, 6, 59))
  {
    hide Closed;
    Step(at, 8192, 72, 32768, 4, 57, 36864, 5, 58);
    Step(at, 8192, 73, 36864, 5, 58, 40960, 5, 58);
    Step(at, 8192, 74, 40960, 5, 58, 45056, 6, 59);
    Step(at, 8192, 75, 45056, 6, 59, 49152, 6, 59);
  }

  lemma Small65536(at: Place)
    requires Closed(at, 8192) && at(Stop(76, 49152, 6, 59))
    ensures at(Stop(80, 65536, 8, 61))
  {
    hide Closed;
    Step(at, 8192, 76, 49152, 6, 59, 53248, 7, 60);
    Step(at, 8192, 77, 53248, 7, 60, 57344, 7, 60);
    Step(at, 8192, 78, 57344, 7, 60, 61440, 8, 61);
    Step(at, 8192, 79, 61440, 8, 61, 65536, 8, 61);
  }

  lemma Small98304(at: Place)
    requires Closed(at, 8192) && at(Stop(80, 65536, 8, 61))
    ensures at(Stop(84, 98304, 12, 65))
  {
    hide Closed;
    Step(at, 8192, 80, 65536, 8, 61, 73728, 9, 62);
    Step(at, 8192, 81, 73728, 9, 62, 81920, 10, 63);
    Step(at, 8192, 82, 81920, 10, 63, 90112, 11, 64);
    Step(at, 8192, 83, 90112, 11, 64, 98304, 12, 65);
  }

  lemma Small131072(at: Place)
    requires Closed(at, 8192) && at(Stop(84, 98304, 12, 65))
    ensures at(Stop(88, 131072, 16, 69))
  {
    hide Closed;
    Step(at, 8192, 84, 98304, 12, 65, 106496, 13, 66);
    Step(at, 8192, 85, 106496, 13, 66, 114688, 14, 67);
    Step(at, 8192, 86, 114688, 14, 67, 122880, 15, 68);
    Step(at, 8192, 87, 122880, 15, 68, 131072, 16, 69);
  }

  lemma Small163840(at: Place)
    requires Closed(at, 8192) && at(Stop(88, 131072, 16, 69))
    ensures at(Stop(92, 163840, 20, 73))
  {
    hide Closed;
    Step(at, 8192, 88, 131072, 16, 69, 139264, 17, 70);
    Step(at, 8192, 89, 139264, 17, 70, 147456, 18, 71);
    Step(at, 8192, 90, 147456, 18, 71, 155648, 19, 72);
    Step(at, 8192, 91, 155648, 19, 72, 163840, 20, 73);
  }

  lemma Small196608(at: Place)
    requires Closed(at, 8192) && at(Stop(92, 163840, 20, 73))
    ensures at(Stop(96, 196608, 24, 77))
  {
    hide Closed;
    Step(at, 8192, 92, 163840, 20, 73, 172032, 21, 74);
    Step(at, 8192, 93, 172032, 21, 74, 180224, 22, 75);
    Step(at, 8192, 94, 180224, 22, 75, 188416, 23, 76);
    Step(at, 8192, 95, 188416, 23, 76, 196608, 24, 77);
  }

  lemma Small229376(at: Place)
    requires Closed(at, 8192) && at(Stop(96, 196608, 24, 77))
    ensures at(Stop(100, 229376, 28, 81))
  {
    hide Closed;
    Step(at, 8192, 96, 196608, 24, 77, 204800, 25, 78);
    Step(at, 8192, 97, 204800, 25, 78, 212992, 26, 79);
    Step(at, 8192, 98, 212992, 26, 79, 221184, 27, 80);
    Step(at, 8192, 99, 221184, 27, 80, 229376, 28, 81);
  }

  lemma Small262144(at: Place)
    requires Closed(at, 8192) && at(Stop(100, 229376, 28, 81))
    ensures at(Stop(104, 262144, 32, 85))
  {
    hide Closed;
    Step(at, 8192, 100, 229376, 28, 81, 237568, 29, 82);
    Step(at, 8192, 101, 237568, 29, 82, 245760, 30, 83);
    Step(at, 8192, 102, 245760, 30, 83, 253952, 31, 84);
    Step(at, 8192, 103, 253952, 31, 84, 262144, 32, 85);
  }

  lemma SmallVisit(at: Place)
    requires Closed(at, 8192) && at(Stop(0, 8, 1, 1))
    ensures at(Stop(104, 262144, 32, 85))
  {
    hide Closed;
    Small64(at);
    Small128(at);
    Small192(at);
    Small256(at);
    Small384(at);
    Small512(at);
    Small768(at);
    Small1024(at);
    Small1536(at);
    Small2048(at);
    Small3072(at);
    Small4096(at);
    Small6144(at);
    Small8192(at);
    Small12288(at);
    Small16384(at);
    Small24576(at);
    Small32768(at);
    Small49152(at);
    Small65536(at);
    Small98304(at);
    Small131072(at);
    Small163840(at);
    Small196608(at);
    Small229376(at);
    Small262144(at);
  }

  lemma SmallCount(v: Visit)
    requires v.Ok() && v.pageSize == 8192
    ensures |v.sizes| == 86
  {
    hide Visit.Ok, Closed;
    FirstVisited(v);
    VisitClosed(v);
    SmallVisit(PlaceOf(v));
    Ended(v, 104);
  }

  // ---------- pages of 32768 bytes: the visit, four sizes at a time ----------

  lemma Large64(at: Place)
    requires Closed(at, 32768) && at(Stop(0, 8, 1, 1))
    ensures at(Stop(4, 64, 1, 5))
  {
    hide Closed;
    Step(at, 32768, 0, 8, 1, 1, 16, 1, 2);
    Step(at, 32768, 1, 16, 1, 2, 32, 1, 3);
    Step(at, 32768, 2, 32, 1, 3, 48, 1, 4);
    Step(at, 32768, 3, 48, 1, 4, 64, 1, 5);
  }

  lemma Large128(at: Place)
    requires Closed(at, 32768) && at(Stop(4, 64, 1, 5))
    ensures at(Stop(8, 128, 1, 9))
  {
    hide Closed;
    Step(at, 32768, 4, 64, 1, 5, 80, 1, 6);
    Step(at, 32768, 5, 80, 1, 6, 96, 1, 7);
    Step(at, 32768, 6, 96, 1, 7, 112, 1, 8);
    Step(at, 32768, 7, 112, 1, 8, 128, 1, 9);
  }

  lemma Large192(at: Place)
    requires Closed(at, 32768) && at(Stop(8, 128, 1, 9))
    ensures at(Stop(12, 192, 1, 13))
  {
    hide Closed;
    Step(at, 32768, 8, 128, 1, 9, 144, 1, 10);
    Step(at, 32768, 9, 144, 1, 10, 160, 1, 11);
    Step(at, 32768, 10, 160, 1, 11, 176, 1, 12);
    Step(at, 32768, 11, 176, 1, 12, 192, 1, 13);
  }

  lemma Large256(at: Place)
    requires Closed(at, 32768) && at(Stop(12, 192, 1, 13))
    ensures at(Stop(16, 256, 1, 17))
  {
    hide Closed;
    Step(at, 32768, 12, 192, 1, 13, 208, 1, 14);
    Step(at, 32768, 13, 208, 1, 14, 224, 1, 15);
    Step(at, 32768, 14, 224, 1, 15, 240, 1, 16);
    Step(at, 32768, 15, 240, 1, 16, 256, 1, 17);
  }

  lemma Large384(at: Place)
    requires Closed(at, 32768) && at(Stop(16, 256, 1, 17))
    ensures at(Stop(20, 384, 1, 21))
  {
    hide Closed;
    Step(at, 32768, 16, 256, 1, 17, 288, 1, 18);
    Step(at, 32768, 17, 288, 1, 18, 320, 1, 19);
    Step(at, 32768, 18, 320, 1, 19, 352, 1, 20);
    Step(at, 32768, 19, 352, 1, 20, 384, 1, 21);
  }

  lemma Large512(at: Place)
    requires Closed(at, 32768) && at(Stop(20, 384, 1, 21))
    ensures at(Stop(24, 512, 1, 25))
  {
    hide Closed;
    Step(at, 32768, 20, 384, 1, 21, 416, 1, 22);
    Step(at, 32768, 21, 416, 1, 22, 448, 1, 23);
    Step(at, 32768, 22, 448, 1, 23, 480, 1, 24);
    Step(at, 32768, 23, 480, 1, 24, 512, 1, 25);
  }

  lemma Large768(at: Place)
    requires Closed(at, 32768) && at(Stop(24, 512, 1, 25))
    ensures at(Stop(28, 768, 1, 29))
  {
    hide Closed;
    Step(at, 32768, 24, 512, 1, 25, 576, 1, 26);
    Step(at, 32768, 25, 576, 1, 26, 640, 1, 27);
    Step(at, 32768, 26, 640, 1, 27, 704, 1, 28);
    Step(at, 32768, 27, 704, 1, 28, 768, 1, 29);
  }

  lemma Large1024(at: Place)
    requires Closed(at, 32768) && at(Stop(28, 768, 1, 29))
    ensures at(Stop(32, 1024, 1, 33))
  {
    hide Closed;
    Step(at, 32768, 28, 768, 1, 29, 832, 1, 30);
    Step(at, 32768, 29, 832, 1, 30, 896, 1, 31);
    Step(at, 32768, 30, 896, 1, 31, 960, 1, 32);
    Step(at, 32768, 31, 960, 1, 32, 1024, 1, 33);
  }

  lemma Large1536(at: Place)
    requires Closed(at, 32768) && at(Stop(32, 1024, 1, 33))
    ensures at(Stop(36, 1536, 1, 37))
  {
    hide Closed;
    Step(at, 32768, 32, 1024, 1, 33, 1152, 1, 34);
    Step(at, 32768, 33, 1152, 1, 34, 1280, 1, 35);
    Step(at, 32768, 34, 1280, 1, 35, 1408, 1, 36);
    Step(at, 32768, 35, 1408, 1, 36, 1536, 1, 37);
  }

  lemma Large2048(at: Place)
    requires Closed(at, 32768) && at(Stop(36, 1536, 1, 37))
    ensures at(Stop(40, 2048, 1, 41))
  {
    hide Closed;
    Step(at, 32768, 36, 1536, 1, 37, 1664, 1, 38);
    Step(at, 32768, 37, 1664, 1, 38, 1792, 1, 39);
    Step(at, 32768, 38, 1792, 1, 39, 1920, 1, 40);
    Step(at, 32768, 39, 1920, 1, 40, 2048, 1, 41);
  }

  lemma Large3072(at: Place)
    requires Closed(at, 32768) && at(Stop(40, 2048, 1, 41))
    ensures at(Stop(44, 3072, 1, 45))
  {
    hide Closed;
    Step(at, 32768, 40, 2048, 1, 41, 2304, 1, 42);
    Step(at, 32768, 41, 2304, 1, 42, 2560, 1, 43);
    Step(at, 32768, 42, 2560, 1, 43, 2816, 1, 44);
    Step(at, 32768, 43, 2816, 1, 44, 3072, 1, 45);
  }

  lemma Large4096(at: Place)
    requires Closed(at, 32768) && at(Stop(44, 3072, 1, 45))
    ensures at(Stop(48, 4096, 1, 47))
  {
    hide Closed;
    Step(at, 32768, 44, 3072, 1, 45, 3328, 1, 46);
    Step(at, 32768, 45, 3328, 1, 46, 3584, 1, 46);
    Step(at, 32768, 46, 3584, 1, 46, 3840, 1, 47);
    Step(at, 32768, 47, 3840, 1, 47, 4096, 1, 47);
  }

  lemma Large6144(at: Place)
    requires Closed(at, 32768) && at(Stop(48, 4096, 1, 47))
    ensures at(Stop(52, 6144, 1, 51))
  {
    hide Closed;
    Step(at, 32768, 48, 4096, 1, 47, 4608, 1, 48);
    Step(at, 32768, 49, 4608, 1, 48, 5120, 1, 49);
    Step(at, 32768, 50, 5120, 1, 49, 5632, 2, 50);
    Step(at, 32768, 51, 5632, 2, 50, 6144, 1, 51);
  }

  lemma Large8192(at: Place)
    requires Closed(at, 32768) && at(Stop(52, 6144, 1, 51))
    ensures at(Stop(56, 8192, 1, 53))
  {
    hide Closed;
    Step(at, 32768, 52, 6144, 1, 51, 6656, 2, 52);
    Step(at, 32768, 53, 6656, 2, 52, 7168, 1, 53);
    Step(at, 32768, 54, 7168, 1, 53, 7680, 1, 53);
    Step(at, 32768, 55, 7680, 1, 53, 8192, 1, 53);
  }

  lemma Large12288(at: Place)
    requires Closed(at, 32768) && at(Stop(56, 8192, 1, 53))
    ensures at(Stop(60, 12288, 2, 57))
  {
    hide Closed;
    Step(at, 32768, 56, 8192, 1, 53, 9216, 2, 54);
    Step(at, 32768, 57, 9216, 2, 54, 10240, 1, 55);
    Step(at, 32768, 58, 10240, 1, 55, 11264, 3, 56);
    Step(at, 32768, 59, 11264, 3, 56, 12288, 2, 57);
  }

  lemma Large16384(at: Place)
    requires Closed(at, 32768) && at(Stop(60, 12288, 2, 57))
    ensures at(Stop(64, 16384, 1, 59))
  {
    hide Closed;
    Step(at, 32768, 60, 12288, 2, 57, 13312, 3, 58);
    Step(at, 32768, 61, 13312, 3, 58, 14336, 1, 59);
    Step(at, 32768, 62, 14336, 1, 59, 15360, 1, 59);
    Step(at, 32768, 63, 15360, 1, 59, 16384, 1, 59);
  }

  lemma Large24576(at: Place)
    requires Closed(at, 32768) && at(Stop(64, 16384, 1, 59))
    ensures at(Stop(68, 24576, 3, 62))
  {
    hide Closed;
    Step(at, 32768, 64, 16384, 1, 59, 18432, 3, 60);
    Step(at, 32768, 65, 18432, 3, 60, 20480, 2, 61);
    Step(at, 32768, 66, 20480, 2, 61, 22528, 3, 62);
    Step(at, 32768, 67, 22528, 3, 62, 24576, 3, 62);
  }

  lemma Large32768(at: Place)
    requires Closed(at, 32768) && at(Stop(68, 24576, 3, 62))
    ensures at(Stop(72, 32768, 1, 64))
  {
    hide Closed;
    Step(at, 32768, 68, 24576, 3, 62, 26624, 5, 63);
    Step(at, 32768, 69, 26624, 5, 63, 28672, 1, 64);
    Step(at, 32768, 70, 28672, 1, 64, 30720, 1, 64);
    Step(at, 32768, 71, 30720, 1, 64, 32768, 1, 64);
  }

  lemma Large49152(at: Place)
    requires Closed(at, 32768) && at(Stop(72, 32768, 1, 64))
    ensures at(Stop(76, 49152, 3, 67))
  {
    hide Closed;
    Step(at, 32768, 72, 32768, 1, 64, 36864, 5, 65);
    Step(at, 32768, 73, 36864, 5, 65, 40960, 4, 66);
    Step(at, 32768, 74, 40960, 4, 66, 45056, 3, 67);
    Step(at, 32768, 75, 45056, 3, 67, 49152, 3, 67);
  }

  lemma Large65536(at: Place)
    requires Closed(at, 32768) && at(Stop(76, 49152, 3, 67))
    ensures at(Stop(80, 65536, 2, 69))
  {
    hide Closed;
    Step(at, 32768, 76, 49152, 3, 67, 53248, 5, 68);
    Step(at, 32768, 77, 53248, 5, 68, 57344, 2, 69);
    Step(at, 32768, 78, 57344, 2, 69, 61440, 2, 69);
    Step(at, 32768, 79, 61440, 2, 69, 65536, 2, 69);
  }

  lemma Large98304(at: Place)
    requires Closed(at, 32768) && at(Stop(80, 65536, 2, 69))
    ensures at(Stop(84, 98304, 3, 71))
  {
    hide Closed;
    Step(at, 32768, 80, 65536, 2, 69, 73728, 5, 70);
    Step(at, 32768, 81, 73728, 5, 70, 81920, 5, 70);
    Step(at, 32768, 82, 81920, 5, 70, 90112, 3, 71);
    Step(at, 32768, 83, 90112, 3, 71, 98304, 3, 71);
  }

  lemma Large131072(at: Place)
    requires Closed(at, 32768) && at(Stop(84, 98304, 3, 71))
    ensures at(Stop(88, 131072, 4, 73))
  {
    hide Closed;
    Step(at, 32768, 84, 98304, 3, 71, 106496, 7, 72);
    Step(at, 32768, 85, 106496, 7, 72, 114688, 4, 73);
    Step(at, 32768, 86, 114688, 4, 73, 122880, 4, 73);
    Step(at, 32768, 87, 122880, 4, 73, 131072, 4, 73);
  }

  lemma Large196608(at: Place)
    requires Closed(at, 32768) && at(Stop(88, 131072, 4, 73))
    ensures at(Stop(92, 196608, 6, 75))
  {
    hide Closed;
    Step(at, 32768, 88, 131072, 4, 73, 147456, 5, 74);
    Step(at, 32768, 89, 147456, 5, 74, 163840, 5, 74);
    Step(at, 32768, 90, 163840, 5, 74, 180224, 6, 75);
    Step(at, 32768, 91, 180224, 6, 75, 196608, 6, 75);
  }

  lemma Large262144(at: Place)
    requires Closed(at, 32768) && at(Stop(92, 196608, 6, 75))
    ensures at(Stop(96, 262144, 8, 77))
  {
    hide Closed;
    Step(at, 32768, 92, 196608, 6, 75, 212992, 7, 76);
    Step(at, 32768, 93, 212992, 7, 76, 229376, 7, 76);
    Step(at, 32768, 94, 229376, 7, 76, 245760, 8, 77);
    Step(at, 32768, 95, 245760, 8, 77, 262144, 8, 77);
  }

  lemma LargeVisit(at: Place)
    requires Closed(at, 32768) && at(Stop(0, 8, 1, 1))
    ensures at(Stop(96, 262144, 8, 77))
  {
    hide Closed;
    Large64(at);
    Large128(at);
    Large192(at);
    Large256(at);
    Large384(at);
    Large512(at);
    Large768(at);
    Large1024(at);
    Large1536(at);
    Large2048(at);
    Large3072(at);
    Large4096(at);
    Large6144(at);
    Large8192(at);
    Large12288(at);
    Large16384(at);
    Large24576(at);
    Large32768(at);
    Large49152(at);
    Large65536(at);
    Large98304(at);
    Large131072(at);
    Large196608(at);
    Large262144(at);
  }

  lemma LargeCount(v: Visit)
    requires v.Ok() && v.pageSize == 32768
    ensures |v.sizes| == 78
  {
    hide Visit.Ok, Closed;
    FirstVisited(v);
    VisitClosed(v);
    LargeVisit(PlaceOf(v));
    Ended(v, 96);
  }

  lemma FirstVisited(v: Visit)
    requires v.Ok()
    ensures v.At(0, 8, 1, 1)
  {
    hide OwnPages, Pages, AlignmentForSize, NextVisited;
    VisitedAt(v.sizes, v.pages, v.pageSize, v.grid, v.classOf, 0);
    FirstIsOwn(8, v.pageSize, 1);
    OwnPagesUnique(v.pages[1], 1, 8, v.pageSize);
  }

  /** The visit ends with the largest size, in the last class. */
  lemma Ended(v: Visit, i: nat)
    requires v.Ok() && i < |v.grid| && v.grid[i] == MAX_SIZE
    ensures v.classOf[i] + 1 == |v.sizes|
  {
    hide Built, NextVisited;
    if i + 1 < |v.grid| {
      NotLast(v.sizes, v.pages, v.pageSize, v.grid, v.classOf, i);
    }
  }

  /** The number of classes is the one the allocator is built with. */
  lemma ClassCount(sizes: seq<nat>, pages: seq<nat>, pageSize: nat)
    requires PageSizeOk(pageSize) && Computed(sizes, pages, pageSize)
    ensures |sizes| == NumClasses(pageSize)
  {
    hide Built, Visited, TableOk;
    var grid, classOf :| Built(sizes, pages, pageSize, grid, classOf) && Visited(sizes, pages, pageSize, grid, classOf);
    var v := Visit(sizes, pages, pageSize, grid, classOf);
    if pageSize == 8192 {
      SmallCount(v);
    } else {
      LargeCount(v);
    }
  }
}
