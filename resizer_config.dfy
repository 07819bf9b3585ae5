/** Planning the intermediate sizes of a progressive resize (ResizerConfig.java).

    Each axis is planned on its own: the sizes strictly between the smaller
    and the larger of source and target that are the smaller size times a
    power of RESIZE_FACTOR, nearest-to-source first, with the step nearest to
    the larger size dropped when it lies within RESIZE_SKIP_THRESHOLD of it.
    The two axis plans are then left-padded to a common length with their
    own source value and zipped into Dimensions. */
module ResizerConfig {

  /** java.awt.Dimension: a width and a height. */
  datatype Dimension = Dimension(width: int, height: int)

  /** The multiplier between neighbouring intermediate sizes. */
  const RESIZE_FACTOR: int := 2
  /** A "few" pixels: a first step this close to the larger size is skipped. */
  const RESIZE_SKIP_THRESHOLD: int := 3

  /** Integer.MIN_VALUE and Integer.MAX_VALUE. */
  const INT_MIN: int := -0x8000_0000
  const INT_MAX: int := 0x7fff_ffff

  predicate IsInt(x: int) { INT_MIN <= x <= INT_MAX }

  predicate IsIntDimension(d: Dimension) { IsInt(d.width) && IsInt(d.height) }

  /** StrictMath.max on two ints. */
  function Max(a: int, b: int): (m: int) { if a < b then b else a }

  function Min(a: int, b: int): (m: int) { if a < b then a else b }

  function Pow2(k: nat): (p: int)
    ensures p >= 1
  {
    if k == 0 then 1 else RESIZE_FACTOR * Pow2(k - 1)
  }

  /** x is `smaller` times a power of RESIZE_FACTOR with a positive exponent. */
  ghost predicate IsScaledUp(smaller: int, x: int)
  {
    exists k: nat :: 1 <= k && x == smaller * Pow2(k)
  }

  /** Collections.reverse, as a value. */
  function Reversed(s: seq<int>): (r: seq<int>)
    ensures |r| == |s|
  {
    seq(|s|, i requires 0 <= i < |s| => s[|s| - 1 - i])
  }

  // ---------------------------------------------------------------------
  // Per-axis planning (getIntermediateTargetSizesForWidthOrHeight)
  // ---------------------------------------------------------------------

  /** What the doubling loop prepends when it starts at `c`: c, 2c, 4c, ...
      while below `larger`, in the order the list holds them (largest first). */
  function Candidates(c: int, larger: int): (r: seq<int>)
    requires c > 0
    decreases larger - c
  {
    if c < larger then Candidates(c * RESIZE_FACTOR, larger) + [c] else []
  }

  /** Drops the first candidate when it is within the skip threshold of `larger`. */
  function SkipFirstIfClose(candidates: seq<int>, larger: int): (r: seq<int>)
  {
    if candidates != [] && candidates[0] >= larger - RESIZE_SKIP_THRESHOLD then candidates[1..]
    else candidates
  }

  /** The plan of one axis, written as a reduction from `larger` to `smaller`. */
  function ReducingPlan(smaller: int, larger: int): (r: seq<int>)
    requires smaller > 0
  {
    SkipFirstIfClose(Candidates(smaller * RESIZE_FACTOR, larger), larger)
  }

  /** The plan of one axis from `sourceSize` to `targetSize`: an enlargement
      is planned as the reverse reduction, and its result reversed. */
  function AxisPlan(sourceSize: int, targetSize: int): (r: seq<int>)
    requires 0 < sourceSize && 0 < targetSize
  {
    if sourceSize < targetSize then Reversed(ReducingPlan(sourceSize, targetSize))
    else ReducingPlan(targetSize, sourceSize)
  }

  /** getIntermediateTargetSizesForWidthOrHeight, step by step: swap when
      enlarging, prepend the doubled sizes in a loop, remove the first one
      when it is too close, reverse when enlarging. */
  method GetIntermediateTargetSizesForWidthOrHeight(sourceSize: int, targetSize: int) returns (targets: seq<int>)
    requires 0 < sourceSize && 0 < targetSize
    ensures targets == AxisPlan(sourceSize, targetSize)
  {
    var source, target := sourceSize, targetSize;
    var enlarging := source < target;
    if enlarging {
      source, target := target, source;
    }
    targets := DoubledSizes(target, source);
    if targets != [] && targets[0] >= source - RESIZE_SKIP_THRESHOLD {
      targets := targets[1..];
    }
    if enlarging {
      targets := Reversed(targets);
    }
  }

  /** The loop of getIntermediateTargetSizesForWidthOrHeight: starting from
      twice `smaller`, keep doubling while below `larger`, inserting each
      size at the front of the list. */
  method DoubledSizes(smaller: int, larger: int) returns (targets: seq<int>)
    requires 0 < smaller
    ensures targets == Candidates(smaller * RESIZE_FACTOR, larger)
  {
    targets := [];
    var intermediateTarget := smaller * RESIZE_FACTOR;
    while intermediateTarget < larger
      invariant intermediateTarget > 0
      invariant Candidates(intermediateTarget, larger) + targets == Candidates(smaller * RESIZE_FACTOR, larger)
      decreases larger - intermediateTarget
    {
      ghost var rest := Candidates(intermediateTarget * RESIZE_FACTOR, larger);
      assert rest + ([intermediateTarget] + targets) == (rest + [intermediateTarget]) + targets;
      targets := [intermediateTarget] + targets;
      intermediateTarget := intermediateTarget * RESIZE_FACTOR;
    }
  }

  lemma {:induction false} CandidatesShape(c: int, larger: int)
    requires c > 0
    ensures var r := Candidates(c, larger);
      && (forall i :: 0 <= i < |r| ==> c <= r[i] < larger)
      && (forall i :: 0 <= i < |r| - 1 ==> r[i] == RESIZE_FACTOR * r[i + 1])
      && (r != [] ==> r[|r| - 1] == c && larger <= RESIZE_FACTOR * r[0])
    decreases larger - c
  {
    if c < larger {
      CandidatesShape(c * RESIZE_FACTOR, larger);
      var r' := Candidates(c * RESIZE_FACTOR, larger);
      assert Candidates(c, larger) == r' + [c];
    }
  }

  /** x is c times a power of RESIZE_FACTOR. */
  ghost predicate IsScaled(c: int, x: int)
  {
    exists k: nat :: x == c * Pow2(k)
  }

  lemma ScaleStep(c: int, k: nat)
    ensures (c * RESIZE_FACTOR) * Pow2(k) == c * Pow2(k + 1)
  {
    assert Pow2(k + 1) == RESIZE_FACTOR * Pow2(k);
  }

  lemma {:induction false} ScaleAtLeast(c: int, k: nat)
    requires c > 0
    ensures c * Pow2(k) >= c
    decreases k
  {
    if k > 0 {
      ScaleStep(c, k - 1);
      ScaleAtLeast(c * RESIZE_FACTOR, k - 1);
    }
  }

  lemma ScaledStep(c: int, x: int)
    requires c > 0
    ensures IsScaled(c, x) <==> x == c || IsScaled(c * RESIZE_FACTOR, x)
  {
    if IsScaled(c, x) && x != c {
      var k: nat :| x == c * Pow2(k);
      assert k != 0;
      ScaleStep(c, k - 1);
    }
    if IsScaled(c * RESIZE_FACTOR, x) {
      var k: nat :| x == (c * RESIZE_FACTOR) * Pow2(k);
      ScaleStep(c, k);
    }
    if x == c {
      assert x == c * Pow2(0);
    }
  }

  lemma {:induction false} CandidatesMembers(c: int, larger: int, x: int)
    requires c > 0
    ensures x in Candidates(c, larger) <==> x < larger && IsScaled(c, x)
    decreases larger - c
  {
    ScaledStep(c, x);
    if c < larger {
      var c' := c * RESIZE_FACTOR;
      CandidatesMembers(c', larger, x);
      assert Candidates(c, larger) == Candidates(c', larger) + [c];
    } else if IsScaled(c, x) {
      var k: nat :| x == c * Pow2(k);
      ScaleAtLeast(c, k);
    }
  }

  /** A list whose neighbours halve and whose entries are positive is strictly descending. */
  lemma {:induction false} HalvingIsDescending(r: seq<int>)
    requires forall i :: 0 <= i < |r| ==> r[i] > 0
    requires forall i :: 0 <= i < |r| - 1 ==> r[i] == RESIZE_FACTOR * r[i + 1]
    ensures forall i, j :: 0 <= i < j < |r| ==> r[i] > r[j]
  {
    if |r| > 1 {
      HalvingIsDescending(r[1..]);
      forall i, j | 0 <= i < j < |r| ensures r[i] > r[j] {
        if 0 < i {
          assert r[1..][i - 1] > r[1..][j - 1];
        } else if 1 < j {
          assert r[1..][0] > r[1..][j - 1];
        }
      }
    }
  }

  lemma ReducingPlanShape(smaller: int, larger: int)
    requires smaller > 0
    ensures var r := ReducingPlan(smaller, larger);
      && (forall i :: 0 <= i < |r| ==> smaller < r[i] < larger)
      && (forall i :: 0 <= i < |r| - 1 ==> r[i] == RESIZE_FACTOR * r[i + 1])
      && (r != [] ==> r[|r| - 1] == RESIZE_FACTOR * smaller)
      && (forall i, j :: 0 <= i < j < |r| ==> r[i] > r[j])
  {
    var f := Candidates(smaller * RESIZE_FACTOR, larger);
    CandidatesShape(smaller * RESIZE_FACTOR, larger);
    var r := ReducingPlan(smaller, larger);
    assert r == f || r == f[1..];
    HalvingIsDescending(r);
  }

  /** The skip rule: a candidate is left out exactly when it is the one
      nearest `larger` (its double reaches `larger`) and lies within the
      threshold of `larger`. */
  lemma ReducingPlanMembers(smaller: int, larger: int, x: int)
    requires smaller > 0
    ensures x in ReducingPlan(smaller, larger) <==>
      x in Candidates(smaller * RESIZE_FACTOR, larger)
      && !(x >= larger - RESIZE_SKIP_THRESHOLD && larger <= RESIZE_FACTOR * x)
  {
    var f := Candidates(smaller * RESIZE_FACTOR, larger);
    CandidatesShape(smaller * RESIZE_FACTOR, larger);
    HalvingIsDescending(f);
    if x in f {
      var i :| 0 <= i < |f| && f[i] == x;
      if 0 < i {
        assert f[i - 1] == RESIZE_FACTOR * f[i];
        assert f[1..][i - 1] == x;
      }
    }
  }

  /** The largest single step of a reduction: the first one, from `larger`
      to the first planned size (or straight to `smaller` when nothing is
      planned). It is at most a factor of RESIZE_FACTOR, plus up to
      RESIZE_SKIP_THRESHOLD pixels when the skip has fired. */
  lemma ReducingPlanFirstStep(smaller: int, larger: int)
    requires smaller > 0
    ensures var r := ReducingPlan(smaller, larger);
      && (r == [] ==> larger <= RESIZE_FACTOR * smaller + RESIZE_SKIP_THRESHOLD)
      && (r != [] ==> larger <= RESIZE_FACTOR * r[0] + RESIZE_SKIP_THRESHOLD)
      && (r == Candidates(smaller * RESIZE_FACTOR, larger) ==>
            larger <= RESIZE_FACTOR * (if r == [] then smaller else r[0]))
  {
    var f := Candidates(smaller * RESIZE_FACTOR, larger);
    CandidatesShape(smaller * RESIZE_FACTOR, larger);
    if |f| > 1 {
      assert f[0] == RESIZE_FACTOR * f[1];
    }
  }

  /** First steps larger than a factor of RESIZE_FACTOR: 5 -> 1 plans only
      2 (the candidate 4 is skipped), so its first step is 5 -> 2; 163 -> 80
      plans nothing (160 is skipped), so it is one step 163 -> 80. */
  lemma LargeFirstStepExamples()
    ensures AxisPlan(5, 1) == [2] && AxisPlan(163, 80) == []
  {
    assert Candidates(2, 5) == [4, 2];
    assert Candidates(160, 163) == [160];
  }

  lemma ScaledUpFromDouble(smaller: int, x: int)
    requires smaller > 0
    ensures IsScaled(smaller * RESIZE_FACTOR, x) <==> IsScaledUp(smaller, x)
  {
    if IsScaled(smaller * RESIZE_FACTOR, x) {
      var k: nat :| x == (smaller * RESIZE_FACTOR) * Pow2(k);
      ScaleStep(smaller, k);
    }
    if IsScaledUp(smaller, x) {
      var k: nat :| 1 <= k && x == smaller * Pow2(k);
      ScaleStep(smaller, k - 1);
    }
  }

  /** Per axis, equal source and target sizes need no intermediate size. */
  lemma AxisPlanSame(size: int)
    requires 0 < size
    ensures AxisPlan(size, size) == []
  {
  }

  lemma ReversedMembers(s: seq<int>, x: int)
    ensures x in Reversed(s) <==> x in s
  {
    var r := Reversed(s);
    if x in s {
      var i :| 0 <= i < |s| && s[i] == x;
      assert r[|s| - 1 - i] == x;
    }
  }

  /** Direction symmetry: planning an enlargement gives the reduction's plan backwards. */
  lemma AxisPlanSymmetric(a: int, b: int)
    requires 0 < a && 0 < b && a != b
    ensures AxisPlan(a, b) == Reversed(AxisPlan(b, a))
  {
    if b < a {
      var r := ReducingPlan(b, a);
      assert Reversed(Reversed(r)) == r;
    }
  }

  /** Exactly which sizes an axis plan contains: the smaller size scaled up
      by a power of RESIZE_FACTOR, strictly below the larger size, except
      the one skipped for being too close to the larger size. */
  lemma AxisPlanMembers(sourceSize: int, targetSize: int, x: int)
    requires 0 < sourceSize && 0 < targetSize
    ensures var smaller, larger := Min(sourceSize, targetSize), Max(sourceSize, targetSize);
      && (x in AxisPlan(sourceSize, targetSize) <==>
           IsScaledUp(smaller, x) && x < larger
           && !(x >= larger - RESIZE_SKIP_THRESHOLD && larger <= RESIZE_FACTOR * x))
      && (x in AxisPlan(sourceSize, targetSize) ==> smaller < x < larger)
  {
    var smaller, larger := Min(sourceSize, targetSize), Max(sourceSize, targetSize);
    var r := ReducingPlan(smaller, larger);
    if sourceSize < targetSize {
      ReversedMembers(r, x);
    }
    ReducingPlanMembers(smaller, larger, x);
    CandidatesMembers(smaller * RESIZE_FACTOR, larger, x);
    ScaledUpFromDouble(smaller, x);
    ReducingPlanShape(smaller, larger);
  }

  /** Ordering: a reduction is strictly descending, an enlargement strictly
      ascending; neighbours differ by exactly RESIZE_FACTOR, and the entry
      nearest the smaller size is twice the smaller size. */
  lemma AxisPlanOrder(sourceSize: int, targetSize: int)
    requires 0 < sourceSize && 0 < targetSize
    ensures var r := AxisPlan(sourceSize, targetSize);
      && (sourceSize == targetSize ==> r == [])
      && (targetSize < sourceSize ==>
           && (forall i :: 0 <= i < |r| - 1 ==> r[i] == RESIZE_FACTOR * r[i + 1])
           && (r != [] ==> r[|r| - 1] == RESIZE_FACTOR * targetSize)
           && (forall i, j :: 0 <= i < j < |r| ==> r[i] > r[j]))
      && (sourceSize < targetSize ==>
           && (forall i :: 0 <= i < |r| - 1 ==> r[i + 1] == RESIZE_FACTOR * r[i])
           && (r != [] ==> r[0] == RESIZE_FACTOR * sourceSize)
           && (forall i, j :: 0 <= i < j < |r| ==> r[i] < r[j]))
  {
    if sourceSize < targetSize {
      ReducingPlanShape(sourceSize, targetSize);
      var p := ReducingPlan(sourceSize, targetSize);
      var r := Reversed(p);
      forall i | 0 <= i < |r| - 1 ensures r[i + 1] == RESIZE_FACTOR * r[i] {
        assert r[i] == p[|p| - 1 - i] && r[i + 1] == p[|p| - 2 - i];
      }
    } else {
      ReducingPlanShape(targetSize, sourceSize);
    }
  }

  // ---------------------------------------------------------------------
  // Merging the two axes (getIntermediateTargets)
  // ---------------------------------------------------------------------

  /** xs with copies of v prepended until it has length n. */
  function LeftPad(xs: seq<int>, n: nat, v: int): (r: seq<int>)
    requires |xs| <= n
  {
    seq(n - |xs|, _ => v) + xs
  }

  function Zip(widths: seq<int>, heights: seq<int>): (r: seq<Dimension>)
    requires |widths| == |heights|
  {
    seq(|widths|, i requires 0 <= i < |widths| => Dimension(widths[i], heights[i]))
  }

  /** Pads the shorter of two axis plans with its own source size and zips them. */
  function Merge(widths: seq<int>, heights: seq<int>, sourceWidth: int, sourceHeight: int): (r: seq<Dimension>)
  {
    var n := Max(|widths|, |heights|);
    Zip(LeftPad(widths, n, sourceWidth), LeftPad(heights, n, sourceHeight))
  }

  /** The plan: both axis plans, the shorter left-padded with its own source size, zipped. */
  function IntermediateTargets(sourceWidth: int, sourceHeight: int, targetWidth: int, targetHeight: int): (r: seq<Dimension>)
    requires 0 < sourceWidth && 0 < sourceHeight && 0 < targetWidth && 0 < targetHeight
  {
    Merge(AxisPlan(sourceWidth, targetWidth), AxisPlan(sourceHeight, targetHeight), sourceWidth, sourceHeight)
  }

  /** getIntermediateTargets: plan each axis, then pad and zip. */
  method GetIntermediateTargets(sourceWidth: int, sourceHeight: int, targetWidth: int, targetHeight: int)
    returns (targets: seq<Dimension>)
    requires 0 < sourceWidth && 0 < sourceHeight && 0 < targetWidth && 0 < targetHeight
    ensures targets == IntermediateTargets(sourceWidth, sourceHeight, targetWidth, targetHeight)
  {
    var targetWidths := GetIntermediateTargetSizesForWidthOrHeight(sourceWidth, targetWidth);
    var targetHeights := GetIntermediateTargetSizesForWidthOrHeight(sourceHeight, targetHeight);
    targets := PadAndZip(targetWidths, targetHeights, sourceWidth, sourceHeight);
  }

  /** The second half of getIntermediateTargets: pad the heights when the
      widths are longer, then the widths when the heights are longer, then
      zip the two lists. */
  method PadAndZip(widths: seq<int>, heights: seq<int>, sourceWidth: int, sourceHeight: int)
    returns (targets: seq<Dimension>)
    ensures targets == Merge(widths, heights, sourceWidth, sourceHeight)
  {
    var targetHeights := InsertAtFront(heights, |widths| - |heights|, sourceHeight);
    var targetWidths := InsertAtFront(widths, |targetHeights| - |widths|, sourceWidth);
    targets := ZipLists(targetWidths, targetHeights);
  }

  /** One padding loop: insert `v` at the front of `xs`, `delta` times
      (no times when `delta` is not positive). */
  method InsertAtFront(xs: seq<int>, delta: int, v: int) returns (ys: seq<int>)
    ensures ys == LeftPad(xs, |xs| + Max(delta, 0), v)
  {
    ys := xs;
    var t := 0;
    while t < delta
      invariant 0 <= t && (t <= delta || t == 0)
      invariant ys == LeftPad(xs, |xs| + t, v)
    {
      PadOneMore(xs, |xs| + t, v);
      ys := [v] + ys;
      t := t + 1;
    }
  }

  /** The zipping loop: append one Dimension per index. */
  method ZipLists(widths: seq<int>, heights: seq<int>) returns (targets: seq<Dimension>)
    requires |widths| == |heights|
    ensures targets == Zip(widths, heights)
  {
    targets := [];
    for t := 0 to |widths|
      invariant targets == Zip(widths[..t], heights[..t])
    {
      ZipOneMore(widths, heights, t);
      targets := targets + [Dimension(widths[t], heights[t])];
    }
    assert widths[..|widths|] == widths && heights[..|heights|] == heights;
  }

  lemma PadOneMore(xs: seq<int>, n: nat, v: int)
    requires |xs| <= n
    ensures [v] + LeftPad(xs, n, v) == LeftPad(xs, n + 1, v)
  {
    assert [v] + seq(n - |xs|, _ => v) == seq(n + 1 - |xs|, _ => v);
  }

  lemma ZipOneMore(widths: seq<int>, heights: seq<int>, t: nat)
    requires |widths| == |heights| && t < |widths|
    ensures Zip(widths[..t + 1], heights[..t + 1])
      == Zip(widths[..t], heights[..t]) + [Dimension(widths[t], heights[t])]
  {
  }

  /** Merge padding and zip: the result is as long as the longer list,
      empty exactly when both are; each column holds its own list at the
      end, preceded by copies of that axis's source size. */
  lemma MergeShape(widths: seq<int>, heights: seq<int>, sourceWidth: int, sourceHeight: int)
    ensures var r := Merge(widths, heights, sourceWidth, sourceHeight);
      && |r| == Max(|widths|, |heights|)
      && (r == [] <==> widths == [] && heights == [])
      && (|widths| == |r| || |heights| == |r|)
      && (forall i :: 0 <= i < |r| - |widths| ==> r[i].width == sourceWidth)
      && (forall i :: 0 <= i < |widths| ==> r[|r| - |widths| + i].width == widths[i])
      && (forall i :: 0 <= i < |r| - |heights| ==> r[i].height == sourceHeight)
      && (forall i :: 0 <= i < |heights| ==> r[|r| - |heights| + i].height == heights[i])
  {
  }

  /** One padded column of the plan runs monotonically from the source size
      toward the target size and never leaves the range between them. */
  lemma PaddedAxisMonotone(sourceSize: int, targetSize: int, n: nat)
    requires 0 < sourceSize && 0 < targetSize && |AxisPlan(sourceSize, targetSize)| <= n
    ensures var p := LeftPad(AxisPlan(sourceSize, targetSize), n, sourceSize);
      && (forall i :: 0 <= i < |p| ==>
            p[i] == sourceSize || Min(sourceSize, targetSize) < p[i] < Max(sourceSize, targetSize))
      && (targetSize <= sourceSize ==> forall i, j :: 0 <= i < j < |p| ==> p[i] >= p[j])
      && (sourceSize <= targetSize ==> forall i, j :: 0 <= i < j < |p| ==> p[i] <= p[j])
  {
    var r := AxisPlan(sourceSize, targetSize);
    var p := LeftPad(r, n, sourceSize);
    var pad := n - |r|;
    AxisPlanOrder(sourceSize, targetSize);
    forall i | 0 <= i < |r| ensures Min(sourceSize, targetSize) < r[i] < Max(sourceSize, targetSize) {
      AxisPlanMembers(sourceSize, targetSize, r[i]);
    }
    assert forall i :: pad <= i < |p| ==> p[i] == r[i - pad];
  }

  /** Every plan entry is made of sizes between source and target, and the
      plan moves monotonically from the source toward the target on each axis. */
  lemma IntermediateTargetsMonotone(sourceWidth: int, sourceHeight: int, targetWidth: int, targetHeight: int)
    requires 0 < sourceWidth && 0 < sourceHeight && 0 < targetWidth && 0 < targetHeight
    ensures var r := IntermediateTargets(sourceWidth, sourceHeight, targetWidth, targetHeight);
      && (forall i :: 0 <= i < |r| ==>
            && Min(sourceWidth, targetWidth) <= r[i].width <= Max(sourceWidth, targetWidth)
            && Min(sourceHeight, targetHeight) <= r[i].height <= Max(sourceHeight, targetHeight))
      && (targetWidth <= sourceWidth ==> forall i, j :: 0 <= i < j < |r| ==> r[i].width >= r[j].width)
      && (sourceWidth <= targetWidth ==> forall i, j :: 0 <= i < j < |r| ==> r[i].width <= r[j].width)
      && (targetHeight <= sourceHeight ==> forall i, j :: 0 <= i < j < |r| ==> r[i].height >= r[j].height)
      && (sourceHeight <= targetHeight ==> forall i, j :: 0 <= i < j < |r| ==> r[i].height <= r[j].height)
  {
    var widths, heights := AxisPlan(sourceWidth, targetWidth), AxisPlan(sourceHeight, targetHeight);
    var n := Max(|widths|, |heights|);
    PaddedAxisMonotone(sourceWidth, targetWidth, n);
    PaddedAxisMonotone(sourceHeight, targetHeight, n);
  }

  /** Equal source and target sizes on both axes give an empty plan. */
  lemma IntermediateTargetsSame(width: int, height: int)
    requires 0 < width && 0 < height
    ensures IntermediateTargets(width, height, width, height) == []
  {
    AxisPlanSame(width);
    AxisPlanSame(height);
  }

  /** The skip boundary: 164x124 -> 80x60 keeps one step, 163x123 -> 80x60
      needs none, and likewise in the other direction. */
  lemma SkipBoundaryExamples()
    ensures IntermediateTargets(164, 124, 80, 60) == [Dimension(160, 120)]
    ensures IntermediateTargets(80, 60, 164, 124) == [Dimension(160, 120)]
    ensures IntermediateTargets(163, 123, 80, 60) == []
    ensures IntermediateTargets(80, 60, 163, 123) == []
  {
  }

  /** Two plans with their padding and zip written out. */
  lemma MergeExamples()
    ensures IntermediateTargets(80, 60, 4, 80)
      == [Dimension(64, 60), Dimension(32, 60), Dimension(16, 60), Dimension(8, 60)]
    ensures IntermediateTargets(1280, 960, 80, 60)
      == [Dimension(640, 480), Dimension(320, 240), Dimension(160, 120)]
  {
  }

  /** The reverse directions of the same tests: enlarging pads the shorter
      axis with its own source size (80 here, not the target's 60). */
  lemma MergeExamplesReversed()
    ensures IntermediateTargets(4, 80, 80, 60)
      == [Dimension(8, 80), Dimension(16, 80), Dimension(32, 80), Dimension(64, 80)]
    ensures IntermediateTargets(80, 60, 1280, 960)
      == [Dimension(160, 120), Dimension(320, 240), Dimension(640, 480)]
  {
  }

  // ---------------------------------------------------------------------
  // getMaxWidthAndHeight
  // ---------------------------------------------------------------------

  /** The largest width and the largest height of `targets`, taken
      independently, starting from Integer.MIN_VALUE. Every width and height
      of a java.awt.Dimension is an int, so each maximum is attained. */
  function MaxWidthAndHeight(targets: seq<Dimension>): (m: Dimension)
    ensures forall i :: 0 <= i < |targets| ==> targets[i].width <= m.width && targets[i].height <= m.height
    ensures targets != [] && (forall i :: 0 <= i < |targets| ==> IsIntDimension(targets[i])) ==>
      && (exists i :: 0 <= i < |targets| && m.width == targets[i].width)
      && (exists j :: 0 <= j < |targets| && m.height == targets[j].height)
    ensures targets == [] ==> m == Dimension(INT_MIN, INT_MIN)
  {
    if targets == [] then Dimension(INT_MIN, INT_MIN)
    else
      var init := targets[..|targets| - 1];
      var before := MaxWidthAndHeight(init);
      var last := targets[|targets| - 1];
      assert forall i :: 0 <= i < |init| ==> init[i] == targets[i];
      assert init != [] && (forall i :: 0 <= i < |targets| ==> IsIntDimension(targets[i])) ==>
        && (exists i :: 0 <= i < |targets| && before.width == targets[i].width)
        && (exists j :: 0 <= j < |targets| && before.height == targets[j].height);
      Dimension(Max(before.width, last.width), Max(before.height, last.height))
  }

  /** When every entry lies between `lo` and `hi` on both axes, so do the maxima. */
  lemma MaxWithinBounds(targets: seq<Dimension>, lo: Dimension, hi: Dimension)
    requires targets != [] && IsIntDimension(lo) && IsIntDimension(hi)
    requires forall i :: 0 <= i < |targets| ==>
      lo.width <= targets[i].width <= hi.width && lo.height <= targets[i].height <= hi.height
    ensures var m := MaxWidthAndHeight(targets);
      lo.width <= m.width <= hi.width && lo.height <= m.height <= hi.height
  {
    var m := MaxWidthAndHeight(targets);
    assert forall i :: 0 <= i < |targets| ==> IsIntDimension(targets[i]);
    var i :| 0 <= i < |targets| && m.width == targets[i].width;
    var j :| 0 <= j < |targets| && m.height == targets[j].height;
  }

  /** getMaxWidthAndHeight: one pass updating two running maxima. */
  method GetMaxWidthAndHeight(targets: seq<Dimension>) returns (d: Dimension)
    ensures d == MaxWidthAndHeight(targets)
  {
    var width, height := INT_MIN, INT_MIN;
    for i := 0 to |targets|
      invariant Dimension(width, height) == MaxWidthAndHeight(targets[..i])
    {
      assert targets[..i + 1][..i] == targets[..i];
      width := Max(width, targets[i].width);
      height := Max(height, targets[i].height);
    }
    assert targets[..|targets|] == targets;
    d := Dimension(width, height);
  }

  // ---------------------------------------------------------------------
  // The first candidate as the code computes it, in 32-bit int arithmetic
  // ---------------------------------------------------------------------

  /** Java's int arithmetic: x reduced to 32-bit two's complement. */
  function WrapInt(x: int): (r: int)
    ensures IsInt(r)
    ensures IsInt(x) ==> r == x
  {
    (x - INT_MIN) % 0x1_0000_0000 + INT_MIN
  }

  /** The loop's start value as ResizerConfig.java:163 evaluates it: the
      product is formed in int and only then widened to long. */
  function FirstCandidateAsWritten(targetSize: int): (r: int)
  {
    WrapInt(targetSize * RESIZE_FACTOR)
  }

  /** Below 2^30 the int product does not wrap, so the code agrees with the model. */
  lemma FirstCandidateAsWrittenAgrees(targetSize: int)
    requires 0 < targetSize < 0x4000_0000
    ensures FirstCandidateAsWritten(targetSize) == targetSize * RESIZE_FACTOR
  {
  }

  /** From 2^30 on, the int product wraps negative: the loop guard
      `intermediateTarget < sourceSize` then holds for every source size
      and a negative size, not between the two sizes, is prepended. What
      the loop does next depends on the start value -m: when m is a power
      of two the doubling reaches Long.MIN_VALUE and wraps to 0 for good
      (AsWrittenLoopNeverExits); otherwise it wraps to a large positive
      value and the loop exits with a list of wrong sizes
      (AsWrittenLoopExitsWithWrongSizes). */
  lemma FirstCandidateOverflows(sourceSize: int, targetSize: int)
    requires 0x4000_0000 <= targetSize < sourceSize <= INT_MAX
    ensures FirstCandidateAsWritten(targetSize) < 0 < targetSize < sourceSize
  {
    var p := targetSize * RESIZE_FACTOR;
    assert 0 <= p - INT_MIN - 0x1_0000_0000 < 0x1_0000_0000;
    assert (p - INT_MIN) % 0x1_0000_0000 == p - INT_MIN - 0x1_0000_0000;
  }

  /** Long.MIN_VALUE and Long.MAX_VALUE. */
  const LONG_MIN: int := -0x8000_0000_0000_0000
  const LONG_MAX: int := 0x7fff_ffff_ffff_ffff

  /** Java's long arithmetic: x reduced to 64-bit two's complement. */
  function WrapLong(x: int): (r: int)
    ensures LONG_MIN <= r <= LONG_MAX
    ensures LONG_MIN <= x <= LONG_MAX ==> r == x
  {
    (x - LONG_MIN) % 0x1_0000_0000_0000_0000 + LONG_MIN
  }

  /** Long.MIN_VALUE * 2 overflows to exactly 0. */
  lemma DoublingLongMinWrapsToZero()
    ensures WrapLong(LONG_MIN * RESIZE_FACTOR) == 0
  {
    var y := LONG_MIN * RESIZE_FACTOR - LONG_MIN;
    assert y == -0x8000_0000_0000_0000;
    assert y % 0x1_0000_0000_0000_0000 == 0x8000_0000_0000_0000;
  }

  /** `intermediateTarget` as written after k passes of the loop at
      ResizerConfig.java:165-173, each pass doubling it in long arithmetic. */
  function DoubledAsWritten(start: int, k: nat): (r: int)
    ensures LONG_MIN <= start <= LONG_MAX ==> LONG_MIN <= r <= LONG_MAX
  {
    if k == 0 then start else WrapLong(DoubledAsWritten(start, k - 1) * RESIZE_FACTOR)
  }

  lemma {:induction false} Pow2Add(a: nat, b: nat)
    ensures Pow2(a + b) == Pow2(a) * Pow2(b)
    decreases a
  {
    if a > 0 {
      Pow2Add(a - 1, b);
      assert Pow2(a + b) == RESIZE_FACTOR * Pow2(a - 1 + b);
    }
  }

  lemma Pow2Values()
    ensures Pow2(31) == 0x8000_0000 && Pow2(32) == 0x1_0000_0000 && Pow2(63) == 0x8000_0000_0000_0000
  {
    assert Pow2(1) == 2;
    Pow2Add(1, 1);
    assert Pow2(2) == 4;
    Pow2Add(2, 2);
    assert Pow2(4) == 0x10;
    Pow2Add(4, 4);
    assert Pow2(8) == 0x100;
    Pow2Add(8, 8);
    assert Pow2(16) == 0x1_0000;
    Pow2Add(16, 16);
    assert Pow2(32) == 0x1_0000_0000;
    assert Pow2(32) == RESIZE_FACTOR * Pow2(31);
    assert Pow2(31) == 0x8000_0000;
    Pow2Add(32, 31);
  }

  lemma {:induction false} Pow2AtMost63(j: nat)
    requires j <= 63
    ensures Pow2(j) <= -LONG_MIN
    decreases 63 - j
  {
    if j < 63 {
      Pow2AtMost63(j + 1);
      assert Pow2(j + 1) == RESIZE_FACTOR * Pow2(j);
    } else {
      Pow2Values();
    }
  }

  /** Starting from -2^31, the first 32 doublings stay in long range:
      after k of them the value is -2^(31+k). */
  lemma {:induction false} DoublingPowers(k: nat)
    requires k <= 32
    ensures DoubledAsWritten(-0x8000_0000, k) == -Pow2(31 + k)
  {
    if k == 0 {
      Pow2Values();
    } else {
      DoublingPowers(k - 1);
      Pow2AtMost63(31 + k);
      assert Pow2(31 + k) == RESIZE_FACTOR * Pow2(31 + k - 1);
    }
  }

  /** The 32nd doubling reaches Long.MIN_VALUE, and the 33rd wraps to 0. */
  lemma DoublingReachesZero()
    ensures DoubledAsWritten(-0x8000_0000, 33) == 0
  {
    DoublingPowers(32);
    Pow2Values();
    var last := DoubledAsWritten(-0x8000_0000, 32);
    assert last == LONG_MIN;
    assert DoubledAsWritten(-0x8000_0000, 33) == WrapLong(last * RESIZE_FACTOR);
    DoublingLongMinWrapsToZero();
  }

  /** Once the loop value is 0 it stays 0. */
  lemma {:induction false} ZeroStaysZero(start: int, i: nat, k: nat)
    requires i <= k && DoubledAsWritten(start, i) == 0
    ensures DoubledAsWritten(start, k) == 0
    decreases k - i
  {
    if i < k {
      assert DoubledAsWritten(start, i + 1) == WrapLong(0);
      ZeroStaysZero(start, i + 1, k);
    }
  }

  /** For targetSize = 2^30 the loop as written never exits: its start
      value wraps to -2^31, doubling in long arithmetic reaches -2^63 and
      then wraps to 0, and 0 doubles to 0, so `intermediateTarget <
      sourceSize` holds on every pass. */
  lemma AsWrittenLoopNeverExits(sourceSize: int, k: nat)
    requires 0x4000_0000 < sourceSize <= INT_MAX
    ensures DoubledAsWritten(FirstCandidateAsWritten(0x4000_0000), k) < sourceSize
    ensures 33 <= k ==> DoubledAsWritten(FirstCandidateAsWritten(0x4000_0000), k) == 0
  {
    assert FirstCandidateAsWritten(0x4000_0000) == -0x8000_0000;
    if k <= 32 {
      DoublingPowers(k);
    } else {
      DoublingReachesZero();
      ZeroStaysZero(-0x8000_0000, 33, k);
    }
  }

  lemma Pow2Monotone(a: nat, b: nat)
    requires a <= b
    ensures Pow2(a) <= Pow2(b)
  {
    Pow2Add(a, b - a);
    assert Pow2(b) == Pow2(a) * Pow2(b - a);
  }

  /** A start value -m doubles without wrapping for as long as m·2^k fits in a long. */
  lemma {:induction false} DoublingMultiples(m: int, k: nat)
    requires 0 < m && m * Pow2(k) <= -LONG_MIN
    ensures DoubledAsWritten(-m, k) == -(m * Pow2(k))
  {
    if k > 0 {
      assert Pow2(k) == RESIZE_FACTOR * Pow2(k - 1);
      assert m * Pow2(k) == RESIZE_FACTOR * (m * Pow2(k - 1));
      DoublingMultiples(m, k - 1);
    }
  }

  /** -(2^31 - 2)·2^33 = 2^34 - 2^64 wraps to 2^34. */
  lemma DoublingPastLongMinWraps()
    ensures WrapLong(-(0x7fff_fffe * 0x1_0000_0000) * RESIZE_FACTOR) == 0x4_0000_0000
  {
    var y := -(0x7fff_fffe * 0x1_0000_0000) * RESIZE_FACTOR - LONG_MIN;
    assert y == -0x7fff_fffc_0000_0000;
    assert y % 0x1_0000_0000_0000_0000 == 0x8000_0004_0000_0000;
  }

  /** For targetSize = 2^30 + 1 the start value wraps to -(2^31 - 2), which
      is not minus a power of two: the first 33 passes see negative values
      (each one prepended), and the 33rd doubling wraps to 2^34, which is
      above every int sourceSize, so the loop exits and the method returns
      sizes that are not between the two sizes. */
  lemma AsWrittenLoopExitsWithWrongSizes(k: nat)
    requires k <= 32
    ensures FirstCandidateAsWritten(0x4000_0001) == -0x7fff_fffe
    ensures DoubledAsWritten(FirstCandidateAsWritten(0x4000_0001), k) < 0
    ensures DoubledAsWritten(FirstCandidateAsWritten(0x4000_0001), 33) == 0x4_0000_0000 > INT_MAX
  {
    assert FirstCandidateAsWritten(0x4000_0001) == -0x7fff_fffe;
    Pow2Values();
    Pow2Monotone(k, 32);
    assert 0x7fff_fffe * Pow2(k) <= 0x7fff_fffe * Pow2(32);
    DoublingMultiples(0x7fff_fffe, k);
    DoublingMultiples(0x7fff_fffe, 32);
    assert DoubledAsWritten(-0x7fff_fffe, 33)
      == WrapLong(DoubledAsWritten(-0x7fff_fffe, 32) * RESIZE_FACTOR);
    DoublingPastLongMinWraps();
  }
}
