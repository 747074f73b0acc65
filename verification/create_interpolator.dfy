/** `CreateInterpolator`: the interpolator SimpleRTK builds for an
    interpolator enumeration value, an image's spacing (one entry per image
    dimension) and whether the image's pixel type is basic (scalar). A null
    pointer is `None`. */
module SrtkCreateInterpolator {
  import opened Results

  /** The interpolator enumeration; `UnknownInterpolator` stands for any
      other value the enum variable may hold. */
  datatype InterpolatorEnum =
    | NearestNeighbor | Linear | BSpline | Gaussian | LabelGaussian
    | HammingWindowedSinc | CosineWindowedSinc | WelchWindowedSinc
    | LanczosWindowedSinc | BlackmanWindowedSinc
    | UnknownInterpolator(raw: int)

  datatype WindowFunction = Hamming | Cosine | Welch | Lanczos | Blackman

  datatype BoundaryCondition = ZeroFluxNeumann

  const WindowingRadius: nat := 5

  datatype Interpolator =
    | NearestNeighborInterpolator
    | LinearInterpolator
    | BSplineInterpolator
    | GaussianInterpolator(sigma: seq<real>, alpha: real)
    | LabelGaussianInterpolator(sigma: seq<real>, alpha: real)
    | WindowedSincInterpolator(radius: nat, window: WindowFunction, boundary: BoundaryCondition)

  /** `ConditionalCreateInterpolator`: the interpolator for basic pixel
      types, null otherwise. */
  function ConditionalCreateInterpolator(isBasic: bool, i: Interpolator): (r: Option<Interpolator>)
    ensures r.Some? <==> isBasic
    ensures r.Some? ==> r.value == i
  {
    if isBasic then Some(i) else None
  }

  function WindowedSinc(window: WindowFunction): Interpolator {
    WindowedSincInterpolator(WindowingRadius, window, ZeroFluxNeumann)
  }

  function CreateInterpolator(spacing: seq<real>, isBasic: bool, itype: InterpolatorEnum): (r: Option<Interpolator>)
    ensures itype == NearestNeighbor ==> r == Some(NearestNeighborInterpolator)
    ensures itype == Linear ==> r == Some(LinearInterpolator)
    ensures itype == BSpline ==> r == (if isBasic then Some(BSplineInterpolator) else None)
    ensures itype == Gaussian ==>
      && r.Some? && r.value.GaussianInterpolator? && r.value.alpha == 4.0
      && |r.value.sigma| == |spacing|
      && forall d :: 0 <= d < |spacing| ==> r.value.sigma[d] == 0.8 * spacing[d]
    ensures itype == LabelGaussian ==>
      && r.Some? && r.value.LabelGaussianInterpolator? && r.value.alpha == 1.0
      && r.value.sigma == spacing
    ensures r.Some? && r.value.WindowedSincInterpolator? ==>
      r.value.radius == 5 && r.value.boundary == ZeroFluxNeumann
    ensures itype.UnknownInterpolator? ==> r.None?
  {
    match itype
    case NearestNeighbor => Some(NearestNeighborInterpolator)
    case Linear => Some(LinearInterpolator)
    case BSpline => ConditionalCreateInterpolator(isBasic, BSplineInterpolator)
    case Gaussian =>
      var sigma := seq(|spacing|, d requires 0 <= d < |spacing| => 0.8 * spacing[d]);
      Some(GaussianInterpolator(sigma, 4.0))
    case LabelGaussian =>
      var sigma := seq(|spacing|, d requires 0 <= d < |spacing| => spacing[d]);
      Some(LabelGaussianInterpolator(sigma, 1.0))
    case HammingWindowedSinc => ConditionalCreateInterpolator(isBasic, WindowedSinc(Hamming))
    case CosineWindowedSinc => ConditionalCreateInterpolator(isBasic, WindowedSinc(Cosine))
    case WelchWindowedSinc => ConditionalCreateInterpolator(isBasic, WindowedSinc(Welch))
    case LanczosWindowedSinc => ConditionalCreateInterpolator(isBasic, WindowedSinc(Lanczos))
    case BlackmanWindowedSinc => ConditionalCreateInterpolator(isBasic, WindowedSinc(Blackman))
    case UnknownInterpolator(_) => None
  }

  /** The enumeration value an interpolator stands for. */
  function KindOf(i: Interpolator): InterpolatorEnum {
    match i
    case NearestNeighborInterpolator => NearestNeighbor
    case LinearInterpolator => Linear
    case BSplineInterpolator => BSpline
    case GaussianInterpolator(_, _) => Gaussian
    case LabelGaussianInterpolator(_, _) => LabelGaussian
    case WindowedSincInterpolator(_, window, _) =>
      match window
      case Hamming => HammingWindowedSinc
      case Cosine => CosineWindowedSinc
      case Welch => WelchWindowedSinc
      case Lanczos => LanczosWindowedSinc
      case Blackman => BlackmanWindowedSinc
  }

  /** Requires a basic pixel type: the B-spline and the windowed-sinc
      interpolators. */
  predicate NeedsBasicPixels(itype: InterpolatorEnum) {
    itype == BSpline || itype == HammingWindowedSinc || itype == CosineWindowedSinc
    || itype == WelchWindowedSinc || itype == LanczosWindowedSinc || itype == BlackmanWindowedSinc
  }

  /** An interpolator is built exactly for a known enumeration value whose
      pixel-type condition holds, and it is of the kind asked for. */
  lemma CreateInterpolatorKind(spacing: seq<real>, isBasic: bool, itype: InterpolatorEnum)
    ensures CreateInterpolator(spacing, isBasic, itype).Some?
        <==> !itype.UnknownInterpolator? && (isBasic || !NeedsBasicPixels(itype))
    ensures CreateInterpolator(spacing, isBasic, itype).Some? ==>
      KindOf(CreateInterpolator(spacing, isBasic, itype).value) == itype
  {
  }

  /** How far a Gaussian-type interpolator's kernel reaches on each axis:
      its sigma times its alpha. */
  function Reach(i: Interpolator): (r: seq<real>)
    requires i.GaussianInterpolator? || i.LabelGaussianInterpolator?
    ensures |r| == |i.sigma|
  {
    seq(|i.sigma|, d requires 0 <= d < |i.sigma| => i.sigma[d] * i.alpha)
  }

  /** The Gaussian kernel is narrower than the label Gaussian one (sigma
      0.8 against 1 spacing) but reaches 3.2 spacings against 1, so it
      reaches 3.2 times as far on every axis. */
  lemma GaussianReachesFurther(spacing: seq<real>, isBasic: bool)
    ensures var g := CreateInterpolator(spacing, isBasic, Gaussian).value;
      var l := CreateInterpolator(spacing, isBasic, LabelGaussian).value;
      && |Reach(g)| == |Reach(l)| == |spacing|
      && (forall d :: 0 <= d < |spacing| ==> Reach(g)[d] == 3.2 * spacing[d])
      && (forall d :: 0 <= d < |spacing| ==> Reach(l)[d] == spacing[d])
      && (forall d :: 0 <= d < |spacing| ==> Reach(g)[d] == 3.2 * Reach(l)[d])
  {
  }
}
