/** The 4D phase scheduler of the warped back-projection: the order in
    which the projections of a stack are splatted into a volume series, the
    settings of each splat update and the hand-off of the volume series from
    one update to the next. MVF interpolation, warping and the splat itself
    are opaque steps here. */
module WarpProjectionStack {
  import opened ImageRegion
  import opened Sequences

  /** The volume series a splat update reads: the filter's own input, or the
      output of an earlier update, counted from 0. */
  datatype VolumeSeries = InputVolumeSeries | SplatOutput(update: nat)

  /** The settings of one splat update. */
  datatype SplatStep = SplatStep(
    projection: int,        // the projection number of this update
    input: VolumeSeries,    // the volume series it splats into
    extractRegion: Region,  // the region of the projection stack it extracts
    mvfFrame: int,          // the frame the MVF interpolator is set to
    splatProjection: int)   // the projection number given to the splat filter

  /** `GetSortingPermutation`'s promise: a permutation of the signal's
      indices listing them by non-decreasing phase. */
  ghost predicate IsSortingPermutation(signal: seq<real>, perm: seq<nat>) {
    && multiset(perm) == multiset(Iota(|signal|))
    && SortedByPhase(signal, perm)
  }

  ghost predicate SortedByPhase(signal: seq<real>, order: seq<nat>) {
    forall i, j :: 0 <= i < j < |order| && order[i] < |signal| && order[j] < |signal|
      ==> signal[order[i]] <= signal[order[j]]
  }

  predicate InStack(p: int, first: int, count: int) {
    first <= p < first + count
  }

  /** The projections of `order` that lie in the stack, in the same order:
      the ones the scheduler processes. */
  function InStackOrder(order: seq<nat>, first: int, count: int): (r: seq<nat>)
    ensures |r| <= |order|
    ensures forall p :: p in r ==> p in order && InStack(p, first, count)
  {
    if |order| == 0 then []
    else if InStack(order[0], first, count) then [order[0]] + InStackOrder(order[1..], first, count)
    else InStackOrder(order[1..], first, count)
  }

  lemma {:induction false} InStackOrderSnoc(order: seq<nat>, x: nat, first: int, count: int)
    ensures InStackOrder(order + [x], first, count)
         == InStackOrder(order, first, count) + (if InStack(x, first, count) then [x] else [])
  {
    if |order| > 0 {
      assert (order + [x])[1..] == order[1..] + [x];
      InStackOrderSnoc(order[1..], x, first, count);
    } else {
      assert (order + [x])[1..] == [];
    }
  }

  function Projections(steps: seq<SplatStep>): (r: seq<int>)
    ensures |r| == |steps|
    ensures forall k :: 0 <= k < |steps| ==> r[k] == steps[k].projection
  {
    seq(|steps|, k requires 0 <= k < |steps| => steps[k].projection)
  }

  /** The settings of update `k` when it splats projection `p`: it reads the
      filter's input if it is the first and the previous update's output
      otherwise, and extracts, warps to and splats projection `p`. */
  function UpdateFor(k: nat, p: int, stack: Region): SplatStep
    requires stack.WellFormed()
  {
    SplatStep(p, if k == 0 then InputVolumeSeries else SplatOutput(k - 1), stack.WithLastAxis(p, 1), p, p)
  }

  /** Every update of `steps` has the settings `UpdateFor` gives it. */
  ghost predicate Chained(steps: seq<SplatStep>, stack: Region)
    requires stack.WellFormed()
  {
    forall k :: 0 <= k < |steps| ==> steps[k] == UpdateFor(k, steps[k].projection, stack)
  }

  lemma ChainedSnoc(steps: seq<SplatStep>, stack: Region, p: int)
    requires stack.WellFormed() && Chained(steps, stack)
    ensures Chained(steps + [UpdateFor(|steps|, p, stack)], stack)
  {
    var s := steps + [UpdateFor(|steps|, p, stack)];
    assert forall k :: 0 <= k < |steps| ==> s[k] == steps[k];
  }

  /** Appending an update appends its projection. */
  lemma ProjectionsSnoc(steps: seq<SplatStep>, s: SplatStep)
    ensures Projections(steps + [s]) == Projections(steps) + [s.projection]
  {
    var a, b := Projections(steps + [s]), Projections(steps) + [s.projection];
    assert forall k :: 0 <= k < |a| ==> a[k] == b[k];
  }

  /** `GenerateData`: walks the permutation, skips projections outside the
      stack's largest possible region, and runs one splat update per
      remaining projection; the first reads the filter's input, every later
      one the previous update's output. The filter's projection-number field
      (`projectionNumber0` before the call) is assigned before the range test,
      so skipped entries set it too and it ends at the last permutation
      entry. */
  method GenerateData(signal: seq<real>, perm: seq<nat>, stack: Region, projectionNumber0: int)
    returns (steps: seq<SplatStep>, firstProjectionProcessed: bool, projectionNumber: int)
    requires stack.WellFormed()
    requires |perm| == |signal|
    ensures projectionNumber == if |signal| == 0 then projectionNumber0 else perm[|signal| - 1]
    ensures var last := |stack.index| - 1;
      Projections(steps) == InStackOrder(perm, stack.index[last], stack.size[last])
    ensures firstProjectionProcessed <==> |steps| > 0
    ensures forall k :: 0 <= k < |steps| ==>
      steps[k].input == if k == 0 then InputVolumeSeries else SplatOutput(k - 1)
    ensures forall k :: 0 <= k < |steps| ==>
      && steps[k].extractRegion == stack.WithLastAxis(steps[k].projection, 1)
      && steps[k].mvfFrame == steps[k].projection
      && steps[k].splatProjection == steps[k].projection
  {
    var last := |stack.index| - 1;
    var numberProjs := stack.size[last];
    var firstProj := stack.index[last];
    steps := [];
    firstProjectionProcessed := false;
    projectionNumber := projectionNumber0;
    var i := 0;
    while i < |signal|
      invariant 0 <= i <= |signal|
      invariant projectionNumber == if i == 0 then projectionNumber0 else perm[i - 1]
      invariant Projections(steps) == InStackOrder(perm[..i], firstProj, numberProjs)
      invariant firstProjectionProcessed <==> |steps| > 0
      invariant Chained(steps, stack)
    {
      projectionNumber := perm[i];
      assert perm[..i + 1] == perm[..i] + [projectionNumber];
      InStackOrderSnoc(perm[..i], projectionNumber, firstProj, numberProjs);
      if firstProj <= projectionNumber < firstProj + numberProjs {
        var input := if firstProjectionProcessed then SplatOutput(|steps| - 1) else InputVolumeSeries;
        var extractRegion := stack.WithLastAxis(projectionNumber, 1);
        var step := SplatStep(projectionNumber, input, extractRegion, projectionNumber, projectionNumber);
        assert step == UpdateFor(|steps|, projectionNumber, stack);
        ProjectionsSnoc(steps, step);
        ChainedSnoc(steps, stack, projectionNumber);
        steps := steps + [step];
        firstProjectionProcessed := true;
      }
      i := i + 1;
    }
    assert perm[..|signal|] == perm;
  }

  /** A projection occurs in the processing order as often as it occurs in
      the permutation if it lies in the stack, and never otherwise. */
  lemma {:induction false} InStackOrderCounts(order: seq<nat>, first: int, count: int, p: nat)
    ensures multiset(InStackOrder(order, first, count))[p]
         == if InStack(p, first, count) then multiset(order)[p] else 0
  {
    if |order| > 0 {
      assert order == [order[0]] + order[1..];
      InStackOrderCounts(order[1..], first, count, p);
    }
  }

  /** With a sorting permutation, every projection of the stack that has a
      signal value is processed exactly once, and no other. */
  lemma EveryStackProjectionOnce(signal: seq<real>, perm: seq<nat>, first: int, count: int, p: nat)
    requires IsSortingPermutation(signal, perm)
    ensures multiset(InStackOrder(perm, first, count))[p]
         == if InStack(p, first, count) && p < |signal| then 1 else 0
  {
    InStackOrderCounts(perm, first, count, p);
    IotaCounts(|signal|, p);
  }

  /** Processing in phase order splats the same projections as processing in
      index order: only the order of the updates differs. */
  lemma PermutationInvariance(signal: seq<real>, perm: seq<nat>, first: int, count: int)
    requires IsSortingPermutation(signal, perm)
    ensures multiset(InStackOrder(perm, first, count)) == multiset(InStackOrder(Iota(|signal|), first, count))
  {
    forall p: nat
      ensures multiset(InStackOrder(perm, first, count))[p] == multiset(InStackOrder(Iota(|signal|), first, count))[p]
    {
      InStackOrderCounts(perm, first, count, p);
      InStackOrderCounts(Iota(|signal|), first, count, p);
    }
    var a, b := multiset(InStackOrder(perm, first, count)), multiset(InStackOrder(Iota(|signal|), first, count));
    forall x | x in a || x in b
      ensures a[x] == b[x]
    {
    }
  }

  /** Skipping projections keeps the phase order of the rest. */
  lemma {:induction false} InStackOrderSorted(signal: seq<real>, order: seq<nat>, first: int, count: int)
    requires SortedByPhase(signal, order)
    ensures SortedByPhase(signal, InStackOrder(order, first, count))
  {
    if |order| > 0 {
      var tail := order[1..];
      assert SortedByPhase(signal, tail) by {
        forall i, j | 0 <= i < j < |tail| && tail[i] < |signal| && tail[j] < |signal|
          ensures signal[tail[i]] <= signal[tail[j]]
        {
          assert tail[i] == order[i + 1] && tail[j] == order[j + 1];
        }
      }
      InStackOrderSorted(signal, tail, first, count);
      if InStack(order[0], first, count) {
        var r := [order[0]] + InStackOrder(tail, first, count);
        forall j | 0 < j < |r| && order[0] < |signal| && r[j] < |signal|
          ensures signal[order[0]] <= signal[r[j]]
        {
          assert r[j] in tail;
          var m :| 0 <= m < |tail| && tail[m] == r[j];
          assert order[m + 1] == r[j];
        }
      }
    }
  }

  /** The processed projections come in non-decreasing phase. */
  lemma ProcessedInPhaseOrder(signal: seq<real>, perm: seq<nat>, first: int, count: int)
    requires IsSortingPermutation(signal, perm)
    ensures SortedByPhase(signal, InStackOrder(perm, first, count))
  {
    InStackOrderSorted(signal, perm, first, count);
  }

  /** Nothing is processed exactly when no entry of the permutation lies in
      the stack. */
  lemma {:induction false} NothingInStack(order: seq<nat>, first: int, count: int)
    ensures InStackOrder(order, first, count) == []
        <==> forall i :: 0 <= i < |order| ==> !InStack(order[i], first, count)
  {
    if |order| > 0 {
      NothingInStack(order[1..], first, count);
      if !InStack(order[0], first, count) {
        forall i | 0 <= i < |order[1..]|
          ensures order[1..][i] == order[i + 1]
        {
        }
      }
    }
  }
}
