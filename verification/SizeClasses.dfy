/** The size-class tables of the allocator and their initialization. */
module SizeClasses {
  import opened SizeCounts
  import opened SizeMaps
  import opened SizeTables

  class SizeMap {
    const pageSize: nat
    const classArray: array<nat>
    var classToSize: seq<nat>
    var classToPages: seq<nat>
    var numObjectsToMove: seq<nat>

    constructor (pageSize: nat)
      ensures this.pageSize == pageSize && fresh(classArray) && classArray.Length == CLASS_ARRAY_SIZE
    {
      this.pageSize := pageSize;
      classArray := new nat[CLASS_ARRAY_SIZE];
      classToSize, classToPages, numObjectsToMove := [], [], [];
    }

    /** The tables work: every size up to the largest has the least class that holds it, and
        the spans of a class waste at most an eighth. */
    ghost predicate Ready()
      reads this, classArray
    {
      && PageSizeOk(pageSize) && classArray.Length == CLASS_ARRAY_SIZE && TableOk(classToSize)
      && |classToSize| == |classToPages| == |numObjectsToMove| == NumClasses(pageSize) && Computed(classToSize, classToPages, pageSize)
      && (forall s :: 0 <= s <= MAX_SIZE ==> IsClassFor(classToSize, s, classArray[ClassIndex(s)]))
      && (forall c :: 1 <= c < |classToSize| ==>
            && ClassFits(classToSize[c], classToPages[c], pageSize)
            && numObjectsToMove[c] == NumMoveSize(classToSize[c]) && 2 <= numObjectsToMove[c] <= 32)
    }

    /** The class of a size. */
    function SizeClass(s: nat): (c: nat)
      requires Ready() && s <= MAX_SIZE
      reads this, classArray
      ensures IsClassFor(classToSize, s, c)
    {
      classArray[ClassIndex(s)]
    }

    /** Fills the tables. `ok` is false where the source stops on a wrong number of classes,
        which does not happen. */
    method Init() returns (ok: bool)
      requires PageSizeOk(pageSize) && classArray.Length == CLASS_ARRAY_SIZE
      modifies this, classArray
      ensures ok && Ready()
    {
      hide IsClassFor, ClassIndex, ClassFits, OwnPages, ServesAsAlone, Increasing, Aligned, NextVisited, NumMoveSize;
      var sizes, pages;
      ghost var grid, classOf;
      sizes, pages, grid, classOf := BuildClasses(pageSize);
      classToSize, classToPages := sizes, pages;
      ClassCount(sizes, pages, pageSize);
      ok := |sizes| == NumClasses(pageSize);
      if !ok {
        return;
      }
      Fill(sizes, classArray);
      var moves := [0];
      for c: nat := 1 to |sizes|
        invariant |moves| == c && forall d :: 1 <= d < c ==> moves[d] == NumMoveSize(sizes[d]) && 2 <= moves[d] <= 32
        modifies {}
      {
        PositiveSize(sizes, pages, pageSize, grid, classOf, c);
        moves := moves + [NumMoveSize(sizes[c])];
      }
      numObjectsToMove := moves;
    }
  }

  lemma PositiveSize(sizes: seq<nat>, pages: seq<nat>, pageSize: nat, grid: seq<nat>, classOf: seq<nat>, c: nat)
    requires pageSize > 0 && Built(sizes, pages, pageSize, grid, classOf) && 1 <= c < |sizes|
    ensures sizes[c] > 0
  {
    assert ClassFits(sizes[c], pages[c], pageSize);
  }
}
