/** Index regions of N-dimensional images: a start index and a size per
    axis, as an image's buffered, requested or largest possible region. */
module ImageRegion {

  datatype Region = Region(index: seq<int>, size: seq<nat>) {
    predicate WellFormed() {
      |index| == |size| && |index| > 0
    }

    /** The same region with the last axis restricted to `[at, at + n)`. */
    function WithLastAxis(at: int, n: nat): (r: Region)
      requires WellFormed()
      ensures r.WellFormed()
      ensures |r.index| == |index|
      ensures r.index[|index| - 1] == at && r.size[|size| - 1] == n
      ensures forall a :: 0 <= a < |index| - 1 ==> r.index[a] == index[a] && r.size[a] == size[a]
    {
      Region(index[|index| - 1 := at], size[|size| - 1 := n])
    }
  }

  /** A region of a three-dimensional image (a volume, or a stack of 2D
      projections along axis 2). */
  type Region3 = r: Region | |r.index| == 3 && |r.size| == 3 witness Region([0, 0, 0], [0, 0, 0])
}
