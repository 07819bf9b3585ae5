# Progressive bilinear resizing, modelled in Dafny

ThumbnailPlayground shrinks or enlarges an image in several bilinear steps
rather than in one, to reduce aliasing. Within one axis's own plan,
neighbouring sizes differ by exactly RESIZE_FACTOR (2). The step from the
larger size to the first planned size is at most a factor of 2, plus up to
RESIZE_SKIP_THRESHOLD (3) pixels when a close first step has been skipped.
So that step can exceed a factor of 2: 5→1 plans 5→2→1, and 163×123→80×60
is one direct draw. In the combined plan the axis with fewer steps is padded:
it stays at its source size until its own first step. For example,
80×60→4×80 holds the height at 60 for every step. The model covers two
classes:

- `ResizerConfig` (module `ResizerConfig`, `resizer_config.dfy`) plans the
  intermediate sizes:
  - Each axis is planned on its own. When enlarging, the plan is worked out
    as the reverse reduction and then reversed.
  - The planner keeps doubling the smaller size while it stays strictly below
    the larger size.
  - It then drops the step nearest the larger size when that step is within
    RESIZE_SKIP_THRESHOLD (3) pixels of it.
  - The two axis plans are left-padded to the same length, each with its own
    source size, and zipped into Dimensions.
  - `getMaxWidthAndHeight` sizes the one temporary image.
- `ProgressiveBilinearResizer` (module `ProgressiveBilinearResizer`,
  `progressive_bilinear_resizer.dfy`) carries out a plan:
  - It allocates one temporary image at the plan's largest width and height.
  - It draws the source into it at the first planned size, then draws the
    temporary image into itself for every later size.
  - It finishes with a draw into the target.
  - Each `drawImage` call is recorded in the `Renderer`'s ghost `trace` as a
    `Draw` (surface read, region read, surface written, region written). Each
    temporary image allocated is recorded in `temps`.

Each Java method that loops is a Dafny method with that loop and its
invariants. It is proved equal to a specification function: `AxisPlan`,
`Candidates`, `Merge`, `IntermediateTargets`, `MaxWidthAndHeight` or
`ResizeDraws`. Lemmas about those functions state the properties that the
program's javadoc and comments describe (ResizerConfig.java:74-87, 121-136,
163 and 169-170):
- membership;
- ordering and factor-2 neighbours;
- the skip rule;
- direction symmetry;
- padding;
- monotone progress from source toward target;
- the draw protocol;
- fitting in the temporary image.

Arithmetic is exact (unbounded integers); the one place the Java `int`
arithmetic differs is listed under Findings.

The javadoc of `getIntermediateTargetSizesForWidthOrHeight`
(ResizerConfig.java:134-136) says the first resize is skipped when it is
"less than" RESIZE_SKIP_THRESHOLD pixels. The code at lines 178-179 skips a
first step `x` when `x >= sourceSize - RESIZE_SKIP_THRESHOLD`, which is a gap
of 3 pixels or less. The model follows the code.

## Model

| member | source | states |
|---|---|---|
| ResizerConfig.GetIntermediateTargetSizesForWidthOrHeight | src/main/java/de/davelaw/thumbnail/ResizerConfig.java:143-190 | The swap, doubling loop, skip and reverse together compute exactly `AxisPlan(sourceSize, targetSize)` for all positive sizes |
| ResizerConfig.DoubledSizes | src/main/java/de/davelaw/thumbnail/ResizerConfig.java:161-173 | The prepend-while-doubling loop returns exactly `Candidates(2·smaller, larger)` |
| ResizerConfig.CandidatesShape | src/main/java/de/davelaw/thumbnail/ResizerConfig.java:163-173 | Every candidate lies in [start, larger). Each entry is twice the next. The last entry is the start value. The first entry's double reaches `larger` |
| ResizerConfig.CandidatesMembers | src/main/java/de/davelaw/thumbnail/ResizerConfig.java:163-173 | x is a candidate iff x < larger and x is the start value times a power of 2 |
| ResizerConfig.ReducingPlanShape | src/main/java/de/davelaw/thumbnail/ResizerConfig.java:161-181 | After the skip, every entry is strictly between smaller and larger. Neighbours halve. The last entry is 2·smaller. The list is strictly descending |
| ResizerConfig.ReducingPlanMembers | src/main/java/de/davelaw/thumbnail/ResizerConfig.java:178-181 | The skip removes a candidate iff it is the one whose double reaches `larger` and it is ≥ larger − RESIZE_SKIP_THRESHOLD |
| ResizerConfig.ReducingPlanFirstStep | src/main/java/de/davelaw/thumbnail/ResizerConfig.java:163-181 | The first step of a reduction goes from `larger` to the first planned size, or to `smaller` when the plan is empty. `larger` is at most twice that size plus RESIZE_SKIP_THRESHOLD, and at most twice it when nothing was skipped |
| ResizerConfig.LargeFirstStepExamples | src/main/java/de/davelaw/thumbnail/ResizerConfig.java:163-181 | 5→1 plans only 2, because 4 is skipped. 163→80 plans nothing, because 160 is skipped. Both first steps exceed a factor of 2 |
| ResizerConfig.AxisPlanMembers | src/main/java/de/davelaw/thumbnail/ResizerConfig.java:143-190 | x is in an axis plan iff x = smaller·2^k (k ≥ 1), x < larger, and x is not the skipped step. Every entry lies strictly between source and target |
| ResizerConfig.AxisPlanOrder | src/main/java/de/davelaw/thumbnail/ResizerConfig.java:143-190 | Equal sizes give an empty plan. A reduction is strictly descending and ends at 2·target. An enlargement is strictly ascending and starts at 2·source. Neighbours differ by a factor of 2 |
| ResizerConfig.AxisPlanSymmetric | src/main/java/de/davelaw/thumbnail/ResizerConfig.java:148-154 | For different sizes, planning a→b gives the plan of b→a reversed |
| ResizerConfig.AxisPlanSame | src/main/java/de/davelaw/thumbnail/ResizerConfig.java:165 | Equal source and target sizes give no intermediate size on that axis |
| ResizerConfig.GetIntermediateTargets | src/main/java/de/davelaw/thumbnail/ResizerConfig.java:96-119 | Returns exactly `IntermediateTargets`, the padded zip of the two axis plans |
| ResizerConfig.PadAndZip | src/main/java/de/davelaw/thumbnail/ResizerConfig.java:105-118 | The two padding loops and the zip loop compute `Merge(widths, heights, sourceWidth, sourceHeight)` |
| ResizerConfig.InsertAtFront | src/main/java/de/davelaw/thumbnail/ResizerConfig.java:105-106 | Inserting `v` at the front `delta` times gives `xs` left-padded with `v` to length \|xs\| + max(delta, 0) |
| ResizerConfig.ZipLists | src/main/java/de/davelaw/thumbnail/ResizerConfig.java:110-118 | The loop builds the list of `Dimension(widths[t], heights[t])` in index order |
| ResizerConfig.MergeShape | src/main/java/de/davelaw/thumbnail/ResizerConfig.java:105-118 | The merged list has the longer list's length and is empty iff both are. Each column is its axis list, preceded by copies of that axis's source size |
| ResizerConfig.PaddedAxisMonotone | src/main/java/de/davelaw/thumbnail/ResizerConfig.java:100-106 | A padded axis column holds the source size or values strictly between source and target. It is monotone toward the target |
| ResizerConfig.IntermediateTargetsMonotone | src/main/java/de/davelaw/thumbnail/ResizerConfig.java:96-119 | Every planned Dimension lies between source and target on both axes. Each axis moves monotonically from the source toward the target |
| ResizerConfig.IntermediateTargetsSame | src/main/java/de/davelaw/thumbnail/ResizerConfig.java:96-119 | Resizing to the same width and height needs no intermediate step |
| ResizerConfig.SkipBoundaryExamples | src/test/java/de/davelaw/thumbnail/ResizerConfigTest.java:48-49 | 164×124 ↔ 80×60 keeps one step (160×120). 163×123 ↔ 80×60 has an empty plan in both directions |
| ResizerConfig.MergeExamples | src/test/java/de/davelaw/thumbnail/ResizerConfigTest.java:40-44 | 80×60→4×80 plans (64,60),(32,60),(16,60),(8,60). 1280×960→80×60 plans (640,480),(320,240),(160,120) |
| ResizerConfig.MergeExamplesReversed | src/test/java/de/davelaw/thumbnail/ResizerConfigTest.java:53-57 | The reverse runs of test lines 40 and 44. 4×80→80×60 plans (8,80),(16,80),(32,80),(64,80): the height is padded with its source size 80. 80×60→1280×960 plans (160,120),(320,240),(640,480) |
| ResizerConfig.MaxWidthAndHeight | src/main/java/de/davelaw/thumbnail/ResizerConfig.java:62-72 | The result is ≥ every entry on each axis separately. For a nonempty list of int sizes, each maximum is some entry's value. An empty list gives (Integer.MIN_VALUE, Integer.MIN_VALUE) |
| ResizerConfig.GetMaxWidthAndHeight | src/main/java/de/davelaw/thumbnail/ResizerConfig.java:62-72 | The running-maximum loop returns `MaxWidthAndHeight(targets)` |
| ResizerConfig.MaxWithinBounds | src/main/java/de/davelaw/thumbnail/ResizerConfig.java:62-72 | If every entry lies within per-axis int bounds, so do both maxima |
| ResizerConfig.FirstCandidateAsWrittenAgrees | src/main/java/de/davelaw/thumbnail/ResizerConfig.java:163 | Below 2^30, the int product `targetSize * RESIZE_FACTOR` equals the exact product |
| ResizerConfig.FirstCandidateOverflows | src/main/java/de/davelaw/thumbnail/ResizerConfig.java:163-167 | For 2^30 ≤ targetSize < sourceSize ≤ Integer.MAX_VALUE, the first candidate as written is negative, so it passes the loop guard and is prepended |
| ResizerConfig.AsWrittenLoopNeverExits | src/main/java/de/davelaw/thumbnail/ResizerConfig.java:163-173 | With the int product at line 163 and long doubling at line 172: for targetSize = 2^30 and any larger int sourceSize, every value of `intermediateTarget` is below `sourceSize`. From the 33rd doubling on it is 0, so the loop never exits |
| ResizerConfig.AsWrittenLoopExitsWithWrongSizes | src/main/java/de/davelaw/thumbnail/ResizerConfig.java:163-173 | With the int product at line 163 and long doubling at line 172: for targetSize = 2^30 + 1 the start value is −(2^31 − 2). The values of the first 33 passes are negative, so each is prepended. The 33rd doubling wraps to 2^34, above every int sourceSize, so the loop exits and the method returns sizes that are not between the two sizes |
| ProgressiveBilinearResizer.ChainShape | src/main/java/de/davelaw/thumbnail/ProgressiveBilinearResizer.java:78-91 | A chain through n steps has n + 1 draws. It starts at the given surface and region and writes step i at draw i. Each draw reads what the previous one wrote. It ends on the target at the target size |
| ProgressiveBilinearResizer.ResizeDrawsProtocol | src/main/java/de/davelaw/thumbnail/ProgressiveBilinearResizer.java:47-93 | For any plan: the first draw reads the whole source, and later draws read the temporary image. The plan's sizes are written in order. Only the last draw writes the target, at the target size. The target is never read |
| ProgressiveBilinearResizer.ResizeDrawsDirect | src/main/java/de/davelaw/thumbnail/ProgressiveBilinearResizer.java:57-68 | When `getIntermediateTargets` returns an empty plan, the resize's draws are exactly one draw from the whole source to the whole target |
| ProgressiveBilinearResizer.ResizeDrawsFitTemp | src/main/java/de/davelaw/thumbnail/ProgressiveBilinearResizer.java:73-91 | Every region read from or written to the temporary image fits within the plan's maximum width and height |
| ProgressiveBilinearResizer.TempSizeIsImageSize | src/main/java/de/davelaw/thumbnail/ProgressiveBilinearResizer.java:73-74 | For a nonempty plan between int-sized images, the temporary image's width and height are positive ints |
| ProgressiveBilinearResizer.Renderer.Resize | src/main/java/de/davelaw/thumbnail/ProgressiveBilinearResizer.java:47-93 | The trace gains exactly `ResizeDraws(source, target)`. One temporary image of `MaxWidthAndHeight(plan)` is allocated iff the plan is nonempty |
| ProgressiveBilinearResizer.Renderer.DrawSteps | src/main/java/de/davelaw/thumbnail/ProgressiveBilinearResizer.java:78-91 | The step loop and the final draw append exactly `Chain(SRC, source, targets, target)` to the trace |
| ProgressiveBilinearResizer.Renderer.DrawImageToGraphics | src/main/java/de/davelaw/thumbnail/ProgressiveBilinearResizer.java:107-112 | Appends one draw of the sw×sh region of the image into the tw×th region |
| ProgressiveBilinearResizer.Renderer.DrawWholeImageToGraphics | src/main/java/de/davelaw/thumbnail/ProgressiveBilinearResizer.java:104-106 | Appends one draw that reads the image's full width and height |
| ProgressiveBilinearResizer.Renderer.NewTempImage | src/main/java/de/davelaw/thumbnail/ProgressiveBilinearResizer.java:74 | Allocates a fresh image of the requested size and records that size |

## Left out

- Pixels are not modelled: bilinear interpolation, the `AlphaComposite.Src` compositing, the rendering hints and the image type. A draw is recorded only by its surfaces and regions.
- `Graphics2D` creation and `dispose` are not modelled. They have no effect on the sizes or the order of draws.
- `System.out.println` logging and its action labels are left out, because they are I/O.
- `Collections.unmodifiableList` is left out. A Dafny `seq` is already immutable.
- The private constructor of `ResizerConfig` is left out, because it does nothing.
- ResizerConfig.GetIntermediateTargetSizesForWidthOrHeight: the model uses exact arithmetic, so it does not model the `int` overflow at line 163 or what follows it: a loop that never ends for some smaller sizes, and a list of wrong sizes for the others (see Findings). Callers pass positive sizes, and images are at most Integer.MAX_VALUE wide or high.
- ProgressiveBilinearResizer.Renderer.Resize: source and target images are distinct objects holding only their sizes. Aliasing between a source and a target image is not modelled.
- The test driver `ResizerConfigTest` is used only for its example sizes.

## Findings

| source | as written | input that shows it | evidently intended | confidence | as-written member | corrected member |
|---|---|---|---|---|---|---|
| src/main/java/de/davelaw/thumbnail/ResizerConfig.java:163 | `targetSize * RESIZE_FACTOR` is multiplied in `int` and only then widened to `long`, so it wraps negative for a smaller size of 2^30 or more | sourceSize = 2147483647, targetSize = 1073741824: the start value is −2^31. Doubling in `long` gives −2^32, …, −2^63, then wraps to 0 and stays 0. The guard `intermediateTarget < sourceSize` always holds, so the method never returns and the list grows without bound (entries −2^31, then 0s). Whether the loop ends depends on the smaller size: with start value −m, m = 2^32 − 2·targetSize, it loops forever when m is a power of two (2^31 − targetSize a power of two, e.g. targetSize = 2^30). Otherwise the doubling wraps to a positive value above every int, and the method returns a list of wrong sizes, e.g. for targetSize = 2^30 + 1 | The comment on that line says using `long` makes overflow handling unnecessary, so the product was meant to be exact: the loop ends, and every planned size lies strictly between the two sizes | not executed | ResizerConfig.AsWrittenLoopNeverExits, ResizerConfig.AsWrittenLoopExitsWithWrongSizes | ResizerConfig.AxisPlanMembers |
