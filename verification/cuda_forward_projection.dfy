/** The host-side set-up of the CUDA forward projector: for every requested
    projection it composes the detector-index to volume-index matrix, the
    source position in volume indices and the projection's slice in the flat
    projection buffers, and clips rays to the volume box. The ray-marching
    kernel it launches is not part of this model. */
module CudaForwardProjection {
  import opened Matrix4
  import opened ImageRegion

  /** The filter's own parameters: the ray-marching step and whether the
      volume is sampled through CUDA textures (corner pixel convention). */
  datatype Filter = Filter(stepSize: real, useCudaTexture: bool)

  /** A new filter steps one unit along the ray and uses textures. */
  function NewFilter(): (f: Filter)
    ensures f.stepSize == 1.0
    ensures f.useCudaTexture
  {
    Filter(1.0, true)
  }

  /** The acquisition geometry: per projection, the matrix from projection
      coordinates to the fixed system and the homogeneous source point. */
  datatype Geometry = Geometry(projectionToFixed: seq<Mat4>, sourcePosition: seq<Vec4>)

  /** What the set-up reads from its inputs and output. Input 0 is the
      projection stack, input 1 the volume. */
  datatype Inputs = Inputs(
    stackRequested: Region3,      // requested region of input 0; axis 2 selects the projections
    stackIndexToPhysical: Mat4,   // index-to-physical-point matrix of input 0
    outputRequested: Region3,
    outputBuffered: Region3,
    volumeBuffered: Region3,
    volumePhysicalToIndex: Mat4,  // physical-point-to-index matrix of input 1
    geometry: Geometry)

  function FirstProjection(inputs: Inputs): int {
    inputs.stackRequested.index[2]
  }

  function ProjectionCount(inputs: Inputs): nat {
    inputs.stackRequested.size[2]
  }

  /** Every projection the set-up visits has a geometry entry. */
  predicate GeometryCovers(inputs: Inputs) {
    && 0 <= FirstProjection(inputs)
    && FirstProjection(inputs) + ProjectionCount(inputs) <= |inputs.geometry.projectionToFixed|
    && FirstProjection(inputs) + ProjectionCount(inputs) <= |inputs.geometry.sourcePosition|
  }

  // ---------------------------------------------------------------- box

  /** The clipping box in volume-index space, per axis. */
  datatype Box = Box(lo: seq<real>, hi: seq<real>)

  /** The box of the buffered volume: on every axis it starts half a voxel
      past the buffered index and spans `size - 1` voxels. */
  function VolumeBox(volume: Region3): (b: Box)
    ensures |b.lo| == 3 && |b.hi| == 3
    ensures forall a :: 0 <= a < 3 ==>
      b.lo[a] == volume.index[a] as real + 0.5 && b.hi[a] - b.lo[a] == volume.size[a] as real - 1.0
  {
    var lo := seq(3, a requires 0 <= a < 3 => volume.index[a] as real + 0.5);
    Box(lo, seq(3, a requires 0 <= a < 3 => lo[a] + volume.size[a] as real - 1.0))
  }

  /** In the corner convention voxel `k` has its centre at `k + 0.5`: the box
      holds exactly the centres of the buffered voxels. */
  lemma BoxHoldsBufferedVoxelCentres(volume: Region3, a: nat, k: int)
    requires a < 3
    ensures VolumeBox(volume).lo[a] <= k as real + 0.5 <= VolumeBox(volume).hi[a]
        <==> volume.index[a] <= k < volume.index[a] + volume.size[a]
  {
  }

  // ---------------------------------------------------------------- matrices

  /** Moves a detector index of the requested output region to the index of
      the full projection image. */
  function ProjectionIndexTranslation(outputRequested: Region3): Mat4 {
    Translation(outputRequested.index[0] as real, outputRequested.index[1] as real, outputRequested.index[2] as real)
  }

  /** Moves a volume index to an index relative to the buffered region. */
  function VolumeIndexTranslation(volumeBuffered: Region3): Mat4 {
    Translation(-volumeBuffered.index[0] as real, -volumeBuffered.index[1] as real, -volumeBuffered.index[2] as real)
  }

  /** Adds half a voxel to the translation column when textures are used,
      moving from ITK's centred pixels to CUDA's corner pixels: exactly the
      three translation entries grow by 0.5, and with textures off nothing
      changes. The last row is kept, so an affine matrix stays affine. */
  function CornerShift(m: Mat4, useCudaTexture: bool): (s: Mat4)
    ensures forall r, c :: 0 <= r < 4 && 0 <= c < 4 ==>
      s[r][c] == if useCudaTexture && r < 3 && c == 3 then m[r][c] + 0.5 else m[r][c]
    ensures IsAffine(m) ==> IsAffine(s)
  {
    if useCudaTexture then
      [m[0][3 := m[0][3] + 0.5], m[1][3 := m[1][3] + 0.5], m[2][3 := m[2][3] + 0.5], m[3]]
    else
      m
  }

  /** The detector translation adds the requested output index to a
      detector point; the volume translation subtracts the buffered index,
      and is the inverse of a translation by that index. */
  lemma IndexTranslations(inputs: Inputs, p: Vec4)
    requires p[3] == 1.0
    ensures var q := Apply(ProjectionIndexTranslation(inputs.outputRequested), p);
      forall a :: 0 <= a < 3 ==> q[a] == p[a] + inputs.outputRequested.index[a] as real
    ensures var q := Apply(VolumeIndexTranslation(inputs.volumeBuffered), p);
      forall a :: 0 <= a < 3 ==> q[a] == p[a] - inputs.volumeBuffered.index[a] as real
    ensures var v := inputs.volumeBuffered.index;
      Mul(VolumeIndexTranslation(inputs.volumeBuffered), Translation(v[0] as real, v[1] as real, v[2] as real)) == Identity()
  {
    var o := inputs.outputRequested.index;
    var v := inputs.volumeBuffered.index;
    TranslationMoves(o[0] as real, o[1] as real, o[2] as real, p);
    TranslationMoves(-v[0] as real, -v[1] as real, -v[2] as real, p);
    TranslationCompose(-v[0] as real, -v[1] as real, -v[2] as real, v[0] as real, v[1] as real, v[2] as real);
  }

  /** On an affine matrix the corner shift is a half-voxel translation
      applied after the matrix. */
  lemma CornerShiftIsHalfVoxelTranslation(m: Mat4)
    requires IsAffine(m)
    ensures CornerShift(m, true) == Mul(Translation(0.5, 0.5, 0.5), m)
  {
    var s := CornerShift(m, true);
    var t := Mul(Translation(0.5, 0.5, 0.5), m);
    forall r | 0 <= r < 4
      ensures s[r] == t[r]
    {
      assert s[r][0] == t[r][0] && s[r][1] == t[r][1] && s[r][2] == t[r][2] && s[r][3] == t[r][3];
    }
  }

  /** The corner shift moves every mapped point by half a voxel times its
      homogeneous coordinate on each spatial axis. */
  lemma CornerShiftMovesPoints(m: Mat4, w: Vec4)
    ensures var on, off := Apply(CornerShift(m, true), w), Apply(m, w);
      on == [off[0] + 0.5 * w[3], off[1] + 0.5 * w[3], off[2] + 0.5 * w[3], off[3]]
    ensures Apply(CornerShift(m, false), w) == Apply(m, w)
  {
    var on, off := Apply(CornerShift(m, true), w), Apply(m, w);
    assert on[0] == off[0] + 0.5 * w[3];
    assert on[1] == off[1] + 0.5 * w[3];
    assert on[2] == off[2] + 0.5 * w[3];
  }

  /** The volume's physical-to-index matrix, projection `iProj`'s geometry
      matrix and the stack's index-to-physical matrix are all affine. */
  predicate AffineInputs(inputs: Inputs, iProj: nat)
    requires iProj < |inputs.geometry.projectionToFixed|
  {
    && IsAffine(inputs.volumePhysicalToIndex)
    && IsAffine(inputs.geometry.projectionToFixed[iProj])
    && IsAffine(inputs.stackIndexToPhysical)
  }

  /** The detector-index to volume-index matrix of projection `iProj`. The
      index translations are affine, so when the image and geometry matrices
      are, the composed matrix keeps every point's homogeneous coordinate. */
  function ProjectionMatrix(f: Filter, inputs: Inputs, iProj: nat): (m: Mat4)
    requires iProj < |inputs.geometry.projectionToFixed|
    ensures AffineInputs(inputs, iProj) ==> IsAffine(m)
  {
    Product([VolumeIndexTranslation(inputs.volumeBuffered),
             CornerShift(inputs.volumePhysicalToIndex, f.useCudaTexture),
             inputs.geometry.projectionToFixed[iProj],
             inputs.stackIndexToPhysical,
             ProjectionIndexTranslation(inputs.outputRequested)])
  }

  /** The composed matrix maps a detector index by, in this order: the
      requested-region translation, the stack's index-to-physical matrix,
      the geometry's projection-to-fixed matrix, the (corner shifted)
      volume physical-to-index matrix and the buffered-index translation. */
  lemma ProjectionMatrixOrder(f: Filter, inputs: Inputs, iProj: nat, p: Vec4)
    requires iProj < |inputs.geometry.projectionToFixed|
    ensures Apply(ProjectionMatrix(f, inputs, iProj), p)
         == Apply(VolumeIndexTranslation(inputs.volumeBuffered),
              Apply(CornerShift(inputs.volumePhysicalToIndex, f.useCudaTexture),
                Apply(inputs.geometry.projectionToFixed[iProj],
                  Apply(inputs.stackIndexToPhysical,
                    Apply(ProjectionIndexTranslation(inputs.outputRequested), p)))))
  {
    var t := VolumeIndexTranslation(inputs.volumeBuffered);
    var v := CornerShift(inputs.volumePhysicalToIndex, f.useCudaTexture);
    var g := inputs.geometry.projectionToFixed[iProj];
    var s := inputs.stackIndexToPhysical;
    var d := ProjectionIndexTranslation(inputs.outputRequested);
    ProductOfFive(t, v, g, s, d);
    ApplyMul(Mul(Mul(Mul(t, v), g), s), d, p);
    ApplyMul(Mul(Mul(t, v), g), s, Apply(d, p));
    ApplyMul(Mul(t, v), g, Apply(s, Apply(d, p)));
    ApplyMul(t, v, Apply(g, Apply(s, Apply(d, p))));
  }

  /** The buffered-index translation passes the corner shift's half voxel
      through unchanged on an affine matrix. */
  lemma TranslatedCornerShift(t: Mat4, m: Mat4, w: Vec4, v0: real, v1: real, v2: real)
    requires IsAffine(m)
    requires t == Translation(v0, v1, v2)
    ensures var on, off := Apply(t, Apply(CornerShift(m, true), w)), Apply(t, Apply(m, w));
      on == [off[0] + 0.5 * off[3], off[1] + 0.5 * off[3], off[2] + 0.5 * off[3], off[3]]
  {
    var x := Apply(m, w);
    CornerShiftMovesPoints(m, w);
    AffineKeepsW(m, w);
    TranslateHalfShifted(v0, v1, v2, x);
  }

  lemma TranslateHalfShifted(v0: real, v1: real, v2: real, x: Vec4)
    ensures var t := Translation(v0, v1, v2);
      var on, off := Apply(t, [x[0] + 0.5 * x[3], x[1] + 0.5 * x[3], x[2] + 0.5 * x[3], x[3]]), Apply(t, x);
      on == [off[0] + 0.5 * off[3], off[1] + 0.5 * off[3], off[2] + 0.5 * off[3], off[3]]
  {
    var y: Vec4 := [x[0] + 0.5 * x[3], x[1] + 0.5 * x[3], x[2] + 0.5 * x[3], x[3]];
    TranslationMoves(v0, v1, v2, y);
    TranslationMoves(v0, v1, v2, x);
    var on, off := Apply(Translation(v0, v1, v2), y), Apply(Translation(v0, v1, v2), x);
    assert on[0] == off[0] + 0.5 * off[3];
    assert on[1] == off[1] + 0.5 * off[3];
    assert on[2] == off[2] + 0.5 * off[3];
    assert on[3] == off[3];
  }

  lemma AffineKeepsW(m: Mat4, w: Vec4)
    requires IsAffine(m)
    ensures Apply(m, w)[3] == w[3]
  {
  }

  /** Switching textures on moves every mapped detector point by exactly half
      a voxel per volume axis (scaled by its homogeneous coordinate), when the
      volume's physical-to-index matrix is affine. */
  lemma CornerConventionOffset(f: Filter, inputs: Inputs, iProj: nat, p: Vec4)
    requires iProj < |inputs.geometry.projectionToFixed|
    requires IsAffine(inputs.volumePhysicalToIndex)
    ensures var on := Apply(ProjectionMatrix(f.(useCudaTexture := true), inputs, iProj), p);
      var off := Apply(ProjectionMatrix(f.(useCudaTexture := false), inputs, iProj), p);
      on == [off[0] + 0.5 * off[3], off[1] + 0.5 * off[3], off[2] + 0.5 * off[3], off[3]]
  {
    var vi := inputs.volumeBuffered.index;
    var w := Apply(inputs.geometry.projectionToFixed[iProj],
               Apply(inputs.stackIndexToPhysical,
                 Apply(ProjectionIndexTranslation(inputs.outputRequested), p)));
    ProjectionMatrixOrder(f.(useCudaTexture := true), inputs, iProj, p);
    ProjectionMatrixOrder(f.(useCudaTexture := false), inputs, iProj, p);
    TranslatedCornerShift(VolumeIndexTranslation(inputs.volumeBuffered), inputs.volumePhysicalToIndex, w,
                          -vi[0] as real, -vi[1] as real, -vi[2] as real);
  }

  /** The source in volume indices: the geometry's source point through the
      (corner shifted) physical-to-index matrix, without the buffered-index
      translation. */
  function SourcePosition(f: Filter, inputs: Inputs, iProj: nat): (p: Vec4)
    requires iProj < |inputs.geometry.sourcePosition|
    ensures IsAffine(inputs.volumePhysicalToIndex) ==> p[3] == inputs.geometry.sourcePosition[iProj][3]
  {
    Apply(CornerShift(inputs.volumePhysicalToIndex, f.useCudaTexture), inputs.geometry.sourcePosition[iProj])
  }

  /** Switching textures on moves a source with homogeneous coordinate 1 by
      exactly +0.5 per axis, and one with coordinate `w` by `0.5 * w`. */
  lemma SourceCornerOffset(f: Filter, inputs: Inputs, iProj: nat)
    requires iProj < |inputs.geometry.sourcePosition|
    ensures var s := inputs.geometry.sourcePosition[iProj];
      var on := SourcePosition(f.(useCudaTexture := true), inputs, iProj);
      var off := SourcePosition(f.(useCudaTexture := false), inputs, iProj);
      on == [off[0] + 0.5 * s[3], off[1] + 0.5 * s[3], off[2] + 0.5 * s[3], off[3]]
    ensures var s := inputs.geometry.sourcePosition[iProj];
      s[3] == 1.0 ==>
        SourcePosition(f.(useCudaTexture := true), inputs, iProj)[..3]
        == seq(3, a requires 0 <= a < 3 => SourcePosition(f.(useCudaTexture := false), inputs, iProj)[a] + 0.5)
  {
    CornerShiftMovesPoints(inputs.volumePhysicalToIndex, inputs.geometry.sourcePosition[iProj]);
  }

  // ---------------------------------------------------------------- buffers

  /** Pixels in one projection of the output buffer. */
  function PixelsPerProjection(outputBuffered: Region3): nat {
    outputBuffered.size[0] * outputBuffered.size[1]
  }

  /** Projections between the buffer's first projection and `iProj`. */
  function ProjectionOffset(outputBuffered: Region3, iProj: nat): int {
    iProj - outputBuffered.index[2]
  }

  /** The element offset of projection `iProj`'s slice in the flat input
      and output buffers. */
  function SliceStart(outputBuffered: Region3, iProj: nat): (r: int)
    ensures iProj == outputBuffered.index[2] ==> r == 0
    ensures iProj >= outputBuffered.index[2] ==> r >= 0
  {
    PixelsPerProjection(outputBuffered) * ProjectionOffset(outputBuffered, iProj)
  }

  /** Consecutive projections get adjacent slices. */
  lemma SlicesContiguous(outputBuffered: Region3, iProj: nat)
    ensures SliceStart(outputBuffered, iProj + 1) == SliceStart(outputBuffered, iProj) + PixelsPerProjection(outputBuffered)
  {
    var n := PixelsPerProjection(outputBuffered);
    var o := ProjectionOffset(outputBuffered, iProj);
    assert n * (o + 1) == n * o + n;
  }

  /** Distinct projections get disjoint slices: the earlier one ends where
      or before the later one starts. */
  lemma {:induction false} SlicesDisjoint(outputBuffered: Region3, i: nat, j: nat)
    requires i < j
    ensures SliceStart(outputBuffered, i) + PixelsPerProjection(outputBuffered) <= SliceStart(outputBuffered, j)
    decreases j - i
  {
    SlicesContiguous(outputBuffered, i);
    if i + 1 < j {
      SlicesDisjoint(outputBuffered, i + 1, j);
    }
  }

  const TwoTo32: nat := 0x1_0000_0000

  /** The slice offset as the source computes it: `nPixelsPerProj` is an
      `unsigned int`, `projectionOffset` an `int`, so their product and the
      pointer offset are taken modulo 2^32. */
  function SliceStartAsWritten(outputBuffered: Region3, iProj: nat): (r: nat)
    ensures r < TwoTo32
  {
    var pixels := PixelsPerProjection(outputBuffered) % TwoTo32;
    var offset := ProjectionOffset(outputBuffered, iProj) % TwoTo32;
    (pixels * offset) % TwoTo32
  }

  /** Below 2^32 elements the source's offset is the intended one. */
  lemma SliceStartAsWrittenAgrees(outputBuffered: Region3, iProj: nat)
    requires 0 <= SliceStart(outputBuffered, iProj) < TwoTo32
    requires PixelsPerProjection(outputBuffered) > 0
    ensures SliceStartAsWritten(outputBuffered, iProj) == SliceStart(outputBuffered, iProj)
  {
    var n := PixelsPerProjection(outputBuffered);
    var o := ProjectionOffset(outputBuffered, iProj);
    FactorsBelowProduct(n, o);
    if o == 0 {
      assert SliceStartAsWritten(outputBuffered, iProj) == ((n % TwoTo32) * 0) % TwoTo32 == 0;
    } else {
      SmallMod(n);
      SmallMod(o);
      SmallMod(n * o);
    }
  }

  /** A non-negative product with a positive factor has a non-negative
      other factor, and neither factor exceeds a positive product. */
  lemma FactorsBelowProduct(n: int, o: int)
    requires n > 0 && n * o >= 0
    ensures o >= 0
    ensures o > 0 ==> n <= n * o && o <= n * o
  {
  }

  lemma SmallMod(x: int)
    requires 0 <= x < TwoTo32
    ensures x % TwoTo32 == x
  {
  }

  /** A 2048 x 2048 detector: projection 1024 of a buffer starting at
      projection 0 begins 2^32 elements in, but the source's 32-bit offset
      wraps to 0, the slice of projection 0. */
  lemma SliceStartAsWrittenWraps()
    ensures var b: Region3 := Region([0, 0, 0], [2048, 2048, 2048]);
      && SliceStart(b, 1024) == TwoTo32
      && SliceStartAsWritten(b, 1024) == 0
      && SliceStartAsWritten(b, 0) == 0
  {
  }

  // ---------------------------------------------------------------- launches

  /** What one kernel launch receives for projection `projection`: the
      pointer offset the source adds to the buffers (`SliceStartAsWritten`,
      32-bit) and the slice the projection occupies (`SliceStart`). */
  datatype KernelCall = KernelCall(projection: nat, matrix: Mat4, sourcePosition: Vec4,
                                   pointerOffset: nat, sliceStart: int)

  function CallFor(f: Filter, inputs: Inputs, iProj: nat): (c: KernelCall)
    requires iProj < |inputs.geometry.projectionToFixed| && iProj < |inputs.geometry.sourcePosition|
    ensures c.projection == iProj
  {
    KernelCall(iProj, ProjectionMatrix(f, inputs, iProj), SourcePosition(f, inputs, iProj),
               SliceStartAsWritten(inputs.outputBuffered, iProj), SliceStart(inputs.outputBuffered, iProj))
  }

  /** The projections a sequence of kernel calls is made for. */
  function Visited(calls: seq<KernelCall>): set<nat> {
    set k | 0 <= k < |calls| :: calls[k].projection
  }

  /** The host loop: visits the requested projections in increasing order,
      each once, and prepares one kernel call per projection. */
  method GPUGenerateData(f: Filter, inputs: Inputs) returns (box: Box, calls: seq<KernelCall>)
    requires GeometryCovers(inputs)
    ensures box == VolumeBox(inputs.volumeBuffered)
    ensures |calls| == ProjectionCount(inputs)
    ensures forall k :: 0 <= k < |calls| ==> calls[k] == CallFor(f, inputs, FirstProjection(inputs) + k)
    ensures forall j, k :: 0 <= j < k < |calls| ==> calls[j].projection < calls[k].projection
    ensures forall p :: p in Visited(calls) <==> FirstProjection(inputs) <= p < FirstProjection(inputs) + ProjectionCount(inputs)
  {
    box := VolumeBox(inputs.volumeBuffered);
    var first: nat := FirstProjection(inputs);
    var iProj := first;
    calls := [];
    while iProj < first + ProjectionCount(inputs)
      invariant first <= iProj <= first + ProjectionCount(inputs)
      invariant |calls| == iProj - first
      invariant forall k :: 0 <= k < |calls| ==> calls[k] == CallFor(f, inputs, first + k)
    {
      calls := calls + [CallFor(f, inputs, iProj)];
      iProj := iProj + 1;
    }
    ConsecutiveProjections(calls, first);
  }

  /** Calls made for `first, first + 1, ...` visit those projections, each
      once and in increasing order. */
  lemma ConsecutiveProjections(calls: seq<KernelCall>, first: nat)
    requires forall k :: 0 <= k < |calls| ==> calls[k].projection == first + k
    ensures forall j, k :: 0 <= j < k < |calls| ==> calls[j].projection < calls[k].projection
    ensures forall p :: p in Visited(calls) <==> first <= p < first + |calls|
  {
    forall p | first <= p < first + |calls|
      ensures p in Visited(calls)
    {
      assert calls[p - first].projection == p;
    }
  }
}
