/** Size classes: alignments, the pages of a span, and the table from sizes to classes. */
module SizeMaps {
  import opened Multiples

  const MAX_SIZE := 262144
  const ALIGNMENT := 8
  const MAX_SMALL_SIZE := 1024
  const CLASS_ARRAY_SIZE := (MAX_SIZE + 127 + 120 * 128) / 128 + 1

  /** The two page sizes the allocator is built with, and their numbers of classes. */
  predicate PageSizeOk(pageSize: nat) {
    pageSize == 8192 || pageSize == 32768
  }

  function NumClasses(pageSize: nat): nat {
    if pageSize == 8192 then 86 else 78
  }

  // ---------- logarithms ----------

  function Pow2(k: nat): (p: nat)
    ensures p > 0
  {
    if k == 0 then 1 else 2 * Pow2(k - 1)
  }

  /** Shifting right by k bits, one at a time. */
  function Shr(n: nat, k: nat): nat {
    if k == 0 then n else Shr(n / 2, k - 1)
  }

  function Lg(n: nat): nat {
    if n < 2 then 0 else 1 + Lg(n / 2)
  }

  /** `Lg` is the exponent of the highest power of two up to a number. */
  lemma {:induction false} LgBounds(n: nat)
    requires n > 0
    ensures Pow2(Lg(n)) <= n < 2 * Pow2(Lg(n))
  {
    if n >= 2 {
      LgBounds(n / 2);
    }
  }

  lemma {:induction false} LgBelow(n: nat, k: nat)
    ensures n < Pow2(k) && n > 0 ==> Lg(n) < k
  {
    if k > 0 && n >= 2 {
      LgBelow(n / 2, k - 1);
    }
  }

  lemma {:induction false} LgShift(n: nat, k: nat)
    requires n > 0
    ensures Shr(n, k) != 0 ==> Lg(n) == k + Lg(Shr(n, k))
    ensures Shr(n, k) == 0 ==> Lg(n) < k
    decreases k
  {
    if k > 0 {
      if n / 2 > 0 {
        LgShift(n / 2, k - 1);
      } else {
        ZeroShift(k - 1);
      }
    }
  }

  lemma {:induction false} ZeroShift(k: nat)
    ensures Shr(0, k) == 0
  {
    if k > 0 {
      ZeroShift(k - 1);
    }
  }

  /** Binary search for the logarithm of a 32-bit number. */
  method LgFloor(n0: nat) returns (log: nat)
    requires 0 < n0 < Pow2(32)
    ensures log == Lg(n0) && Pow2(log) <= n0 < 2 * Pow2(log)
  {
    hide Lg, Shr;
    LgBounds(n0);
    LgBelow(n0, 32);
    var n := n0;
    log := 0;
    var i := 5;
    while i > 0
      invariant 0 <= i <= 5 && n > 0 && Lg(n) < Pow2(i) && Lg(n0) == log + Lg(n)
    {
      i := i - 1;
      var shift := Pow2(i);
      var x := Shr(n, shift);
      LgShift(n, shift);
      if x != 0 {
        n := x;
        log := log + shift;
      }
    }
  }

  // ---------- alignments ----------

  function AlignmentForSize(size: nat, pageSize: nat): (r: nat)
    requires pageSize > 0
    ensures r > 0
  {
    LgEighth(size);
    var a := if size > MAX_SIZE then pageSize
             else if size >= 128 then Pow2(Lg(size)) / 8
             else if size >= 16 then 16
             else ALIGNMENT;
    if a > pageSize then pageSize else a
  }

  lemma LgEighth(size: nat)
    ensures size >= 128 ==> Pow2(Lg(size)) / 8 > 0
  {
    if size >= 128 {
      LgBounds(size);
      Eighth(Lg(size));
    }
  }

  /** What the checks of the source ask of an alignment, and what it wastes at most. */
  lemma AlignmentProperties(size: nat, pageSize: nat) returns (k: nat)
    requires PageSizeOk(pageSize)
    ensures var a := AlignmentForSize(size, pageSize);
            && a == Pow2(k) && ALIGNMENT <= a <= pageSize && (size >= 16 ==> a >= 16) && (size >= 128 ==> 8 * a <= size)
            && (a > ALIGNMENT && size < 128 ==> size >= 16 == a) && (a < pageSize && size >= 128 ==> size < 16 * a && size <= MAX_SIZE)
  {
    hide Pow2, Lg;
    Powers();
    k := if pageSize == 8192 then 13 else 15;
    if size < 16 {
      k := 3;
    } else if size < 128 {
      k := 4;
    } else if size <= MAX_SIZE {
      LgBounds(size);
      Eighth(Lg(size));
      if Pow2(Lg(size)) / 8 <= pageSize {
        k := Lg(size) - 3;
      }
    }
  }

  lemma Powers()
    ensures Pow2(3) == 8 && Pow2(4) == 16 && Pow2(13) == 8192 && Pow2(15) == 32768
  {
    assert Pow2(8) == 256;
    assert Pow2(12) == 4096;
  }

  lemma Eighth(k: nat)
    ensures Pow2(k) > 64 ==> k >= 7 && Pow2(k) == 8 * Pow2(k - 3) && Pow2(k - 3) >= 16
  {
    if k >= 3 {
      assert Pow2(k) == 2 * Pow2(k - 1) && Pow2(k - 1) == 2 * Pow2(k - 2) && Pow2(k - 2) == 2 * Pow2(k - 3);
    }
    assert Pow2(6) == 64 && Pow2(7) == 128;
    if k < 7 {
      Pow2Monotone(k, 6);
    } else {
      Pow2Monotone(7, k);
    }
  }

  lemma {:induction false} Pow2Monotone(a: nat, b: nat)
    requires a <= b
    ensures Pow2(a) <= Pow2(b)
    decreases b
  {
    if a < b {
      Pow2Monotone(a, b - 1);
    }
  }

  lemma {:induction false} LgIs(n: nat, k: nat)
    requires Pow2(k) <= n < 2 * Pow2(k)
    ensures Lg(n) == k
  {
    if k > 0 {
      LgIs(n / 2, k - 1);
    }
  }

  /** The power of two below a size, band by band. */
  function Band(size: nat): nat {
    if size < 256 then 128 else if size < 512 then 256 else if size < 1024 then 512 else if size < 2048 then 1024
    else if size < 4096 then 2048 else if size < 8192 then 4096 else if size < 16384 then 8192 else if size < 32768 then 16384
    else if size < 65536 then 32768 else if size < 131072 then 65536 else if size < 262144 then 131072 else 262144
  }

  function BandLg(size: nat): nat {
    if size < 256 then 7 else if size < 512 then 8 else if size < 1024 then 9 else if size < 2048 then 10
    else if size < 4096 then 11 else if size < 8192 then 12 else if size < 16384 then 13 else if size < 32768 then 14
    else if size < 65536 then 15 else if size < 131072 then 16 else if size < 262144 then 17 else 18
  }

  lemma BandIs(size: nat)
    requires 128 <= size <= MAX_SIZE
    ensures Pow2(Lg(size)) == Band(size)
  {
    assert Pow2(7) == 128 && Pow2(8) == 256 && Pow2(9) == 512 && Pow2(10) == 1024;
    assert Pow2(11) == 2048 && Pow2(12) == 4096 && Pow2(13) == 8192 && Pow2(14) == 16384;
    assert Pow2(15) == 32768 && Pow2(16) == 65536 && Pow2(17) == 131072 && Pow2(18) == 262144;
    assert Pow2(BandLg(size)) == Band(size);
    LgIs(size, BandLg(size));
  }

  /** The alignment of a band divides the power of two below it and the one above. */
  lemma BandMultiples(b: nat, pageSize: nat)
    requires PageSizeOk(pageSize) && 128 <= b <= MAX_SIZE && b == Band(b)
    ensures var a := if b / 8 > pageSize then pageSize else b / 8;
            b % a == 0 && (2 * b) % a == 0 && a % 8 == 0 && (b >= 1024 ==> a % 128 == 0)
  {
    assert b == 128 || b == 256 || b == 512 || b == 1024 || b == 2048 || b == 4096 || b == 8192 || b == 16384
           || b == 32768 || b == 65536 || b == 131072 || b == 262144;
    assert b == b / 8 * 8 && 2 * b == b / 8 * 16;
    Multiple(b / 8, 8);
    Multiple(b / 8, 16);
  }

  lemma InBand(size: nat, pageSize: nat)
    requires PageSizeOk(pageSize) && 128 <= size <= MAX_SIZE
    ensures var b := Band(size);
            && b <= size < 2 * b && Band(b) == b && 128 <= b <= MAX_SIZE && (b < MAX_SIZE ==> 2 * b <= MAX_SIZE && Band(2 * b) == 2 * b)
            && (size >= 1024 ==> b >= 1024) && (b == MAX_SIZE ==> size == b)
            && AlignmentForSize(size, pageSize) == if b / 8 > pageSize then pageSize else b / 8
  {
    hide Pow2, Lg;
    BandIs(size);
  }

  lemma SameBand(size: nat, next: nat)
    requires 128 <= size && Band(size) <= next < 2 * Band(size) && Band(size) < MAX_SIZE
    ensures Band(next) == Band(size)
  {
  }

  lemma SmallStep(size: nat, pageSize: nat)
    requires PageSizeOk(pageSize) && ALIGNMENT <= size < 128 && size % AlignmentForSize(size, pageSize) == 0
    ensures var next := size + AlignmentForSize(size, pageSize);
            next <= 128 && next % AlignmentForSize(next, pageSize) == 0 && size % 8 == 0
  {
    hide Pow2, Lg;
    BandIs(128);
  }

  /** A size that its alignment divides is followed by another such size, and the sizes
      meet the largest one exactly. */
  lemma NextSize(size: nat, pageSize: nat)
    requires PageSizeOk(pageSize) && ALIGNMENT <= size <= MAX_SIZE && size % AlignmentForSize(size, pageSize) == 0
    ensures var next := size + AlignmentForSize(size, pageSize);
            && (size < MAX_SIZE ==> next <= MAX_SIZE && next % AlignmentForSize(next, pageSize) == 0)
            && size % 8 == 0 && (size > MAX_SMALL_SIZE ==> size % 128 == 0)
  {
    hide Pow2, Lg, AlignmentForSize, Band;
    if size < 128 {
      SmallStep(size, pageSize);
    } else {
      var b, a := Band(size), AlignmentForSize(size, pageSize);
      InBand(size, pageSize);
      BandMultiples(b, pageSize);
      DividesThrough(size, a);
      if size < MAX_SIZE {
        StepApart(a, size, 2 * b);
        InBand(size + a, pageSize);
        if size + a < 2 * b {
          SameBand(size, size + a);
        } else {
          BandMultiples(2 * b, pageSize);
        }
      }
    }
  }
}
