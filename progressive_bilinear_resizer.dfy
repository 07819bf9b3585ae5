/** Driving a progressive resize (ProgressiveBilinearResizer.java).

    Every drawImage call is recorded as a Draw: which image is read, the
    top-left region read from it, which image is written and the top-left
    region written. Pixel values, interpolation and compositing are not
    modelled. At most one temporary image is allocated, sized to the
    largest intermediate width and height, and reused for every step. */
module ProgressiveBilinearResizer {
  import opened ResizerConfig

  /** The width or height of a BufferedImage: a positive int. */
  type ImageSize = n: int | 0 < n <= INT_MAX witness 1

  /** A BufferedImage, reduced to its fixed width and height. */
  class Image {
    const width: ImageSize
    const height: ImageSize

    constructor (width: ImageSize, height: ImageSize)
      ensures this.width == width && this.height == height
    {
      this.width := width;
      this.height := height;
    }
  }

  function SizeOf(image: Image): (d: Dimension)
  {
    Dimension(image.width, image.height)
  }

  /** The three images a resize touches: the source, the temporary image and the target. */
  datatype Surface = SRC | TMP | TGT

  /** One drawImage call: the top-left `src` region of `from`, scaled into
      the top-left `dst` region of `to`. */
  datatype Draw = Draw(from: Surface, src: Dimension, to: Surface, dst: Dimension)

  predicate Fits(region: Dimension, image: Dimension)
  {
    region.width <= image.width && region.height <= image.height
  }

  /** The draws that start from region `size` of `from`, pass through every
      size of `steps` on the temporary image and end on the target at `target`. */
  function Chain(from: Surface, size: Dimension, steps: seq<Dimension>, target: Dimension): (d: seq<Draw>)
    decreases |steps|
  {
    if steps == [] then [Draw(from, size, TGT, target)]
    else [Draw(from, size, TMP, steps[0])] + Chain(TMP, steps[0], steps[1..], target)
  }

  /** The draws of one resize from an image of size `source` to one of size `target`. */
  function ResizeDraws(source: Dimension, target: Dimension): (d: seq<Draw>)
    requires 0 < source.width && 0 < source.height && 0 < target.width && 0 < target.height
  {
    Chain(SRC, source, IntermediateTargets(source.width, source.height, target.width, target.height), target)
  }

  lemma {:induction false} ChainShape(from: Surface, size: Dimension, steps: seq<Dimension>, target: Dimension)
    ensures var d := Chain(from, size, steps, target);
      && |d| == |steps| + 1
      && d[0].from == from && d[0].src == size
      && d[|d| - 1].to == TGT && d[|d| - 1].dst == target
      && (forall i :: 0 <= i < |steps| ==> d[i].to == TMP && d[i].dst == steps[i])
      && (forall i :: 0 < i < |d| ==> d[i].from == d[i - 1].to && d[i].src == d[i - 1].dst)
    decreases |steps|
  {
    if steps != [] {
      var rest := Chain(TMP, steps[0], steps[1..], target);
      ChainShape(TMP, steps[0], steps[1..], target);
      var d := Chain(from, size, steps, target);
      assert d == [Draw(from, size, TMP, steps[0])] + rest;
      forall i | 0 <= i < |steps| ensures d[i].to == TMP && d[i].dst == steps[i] {
        if i > 0 {
          assert d[i] == rest[i - 1];
        }
      }
      forall i | 0 < i < |d| ensures d[i].from == d[i - 1].to && d[i].src == d[i - 1].dst {
        if i > 1 {
          assert d[i] == rest[i - 1] && d[i - 1] == rest[i - 2];
        }
      }
    }
  }

  /** The draws of a resize along any plan: one draw per plan entry plus
      one; the first reads the whole source, every later one reads exactly
      the region the draw before it wrote on the temporary image, the plan's
      entries are written in order, and only the last draw writes the
      target, at exactly the target size. The target is never read. */
  lemma ResizeDrawsProtocol(source: Dimension, plan: seq<Dimension>, target: Dimension)
    ensures var d := Chain(SRC, source, plan, target);
      && |d| == |plan| + 1
      && d[0].from == SRC && d[0].src == source
      && d[|d| - 1].to == TGT && d[|d| - 1].dst == target
      && (forall i :: 0 <= i < |plan| ==> d[i].to == TMP && d[i].dst == plan[i])
      && (forall i :: 0 < i < |d| ==> d[i].from == TMP && d[i].src == d[i - 1].dst)
      && (forall i :: 0 <= i < |d| ==> d[i].from != TGT && (d[i].to == TGT <==> i == |d| - 1))
  {
    ChainShape(SRC, source, plan, target);
    var d := Chain(SRC, source, plan, target);
    forall i | 0 < i < |d| ensures d[i].from == TMP {
      assert d[i].from == d[i - 1].to && d[i - 1].to == TMP;
    }
  }

  /** When the plan is empty, the resize is one direct draw from the whole
      source to the whole target. */
  lemma ResizeDrawsDirect(source: Dimension, target: Dimension)
    requires 0 < source.width && 0 < source.height && 0 < target.width && 0 < target.height
    requires IntermediateTargets(source.width, source.height, target.width, target.height) == []
    ensures ResizeDraws(source, target) == [Draw(SRC, source, TGT, target)]
  {
  }

  /** Every region read from or written to the temporary image fits in an
      image of the plan's largest width and height. */
  lemma ResizeDrawsFitTemp(source: Dimension, plan: seq<Dimension>, target: Dimension)
    ensures var d := Chain(SRC, source, plan, target);
      forall i :: 0 <= i < |d| ==>
        && (d[i].from == TMP ==> Fits(d[i].src, MaxWidthAndHeight(plan)))
        && (d[i].to == TMP ==> Fits(d[i].dst, MaxWidthAndHeight(plan)))
  {
    ChainShape(SRC, source, plan, target);
    var d := Chain(SRC, source, plan, target);
    forall i | 0 <= i < |d|
      ensures d[i].from == TMP ==> Fits(d[i].src, MaxWidthAndHeight(plan))
      ensures d[i].to == TMP ==> Fits(d[i].dst, MaxWidthAndHeight(plan))
    {
      if 0 < i {
        assert d[i].src == d[i - 1].dst == plan[i - 1];
      }
    }
  }

  /** The temporary image's size is a valid image size: the largest
      intermediate width and height lie between the source and target sizes. */
  lemma TempSizeIsImageSize(source: Dimension, target: Dimension)
    requires 0 < source.width <= INT_MAX && 0 < source.height <= INT_MAX
    requires 0 < target.width <= INT_MAX && 0 < target.height <= INT_MAX
    requires IntermediateTargets(source.width, source.height, target.width, target.height) != []
    ensures var m := MaxWidthAndHeight(IntermediateTargets(source.width, source.height, target.width, target.height));
      && 0 < m.width <= INT_MAX && 0 < m.height <= INT_MAX
  {
    var plan := IntermediateTargets(source.width, source.height, target.width, target.height);
    IntermediateTargetsMonotone(source.width, source.height, target.width, target.height);
    MaxWithinBounds(plan,
      Dimension(Min(source.width, target.width), Min(source.height, target.height)),
      Dimension(Max(source.width, target.width), Max(source.height, target.height)));
  }

  /** The drawing side of resizes: every drawImage call made so far and the
      size of every temporary image allocated. */
  class Renderer {
    ghost var trace: seq<Draw>
    ghost var temps: seq<Dimension>

    constructor ()
      ensures trace == [] && temps == []
    {
      trace := [];
      temps := [];
    }

    /** drawImageToGraphics with an explicit source region: draws the sw x sh
        region of `image` into the tw x th region of the image `into`. */
    method DrawImageToGraphics(image: Surface, into: Surface, sw: int, sh: int, tw: int, th: int)
      modifies this`trace
      ensures trace == old(trace) + [Draw(image, Dimension(sw, sh), into, Dimension(tw, th))]
    {
      trace := trace + [Draw(image, Dimension(sw, sh), into, Dimension(tw, th))];
    }

    /** drawImageToGraphics without a source region: reads the whole image. */
    method DrawWholeImageToGraphics(image: Image, surface: Surface, into: Surface, tw: int, th: int)
      modifies this`trace
      ensures trace == old(trace) + [Draw(surface, SizeOf(image), into, Dimension(tw, th))]
    {
      DrawImageToGraphics(surface, into, image.width, image.height, tw, th);
    }

    /** Allocates the temporary image. */
    method NewTempImage(width: ImageSize, height: ImageSize) returns (image: Image)
      modifies this`temps
      ensures fresh(image) && SizeOf(image) == Dimension(width, height)
      ensures temps == old(temps) + [Dimension(width, height)]
    {
      image := new Image(width, height);
      temps := temps + [Dimension(width, height)];
    }

    /** resize: a single direct draw when the plan is empty; otherwise one
        temporary image of the plan's largest width and height, a draw into
        it for each plan entry, and a final draw from it into the target. */
    method Resize(srcImage: Image, tgtImage: Image)
      modifies this
      ensures trace == old(trace) + ResizeDraws(SizeOf(srcImage), SizeOf(tgtImage))
      ensures var plan := IntermediateTargets(srcImage.width, srcImage.height, tgtImage.width, tgtImage.height);
        temps == old(temps) + (if plan == [] then [] else [MaxWidthAndHeight(plan)])
    {
      var srcWidth: int, srcHeight: int := srcImage.width, srcImage.height;
      var tgtWidth, tgtHeight := tgtImage.width, tgtImage.height;
      ghost var source, target := SizeOf(srcImage), SizeOf(tgtImage);

      var targets := GetIntermediateTargets(srcWidth, srcHeight, tgtWidth, tgtHeight);

      if targets == [] {
        DrawWholeImageToGraphics(srcImage, SRC, TGT, tgtWidth, tgtHeight);
        return;
      }

      var tmpImageSize := GetMaxWidthAndHeight(targets);
      TempSizeIsImageSize(source, target);
      var tmpImage := NewTempImage(tmpImageSize.width, tmpImageSize.height);

      DrawSteps(srcWidth, srcHeight, targets, tgtWidth, tgtHeight);
    }

    /** The second half of resize: a draw into the temporary image for each
        plan entry, reading the whole source first and then the region the
        previous draw wrote, and a final draw from the temporary image into
        the target. */
    method DrawSteps(sourceWidth: int, sourceHeight: int, targets: seq<Dimension>, tgtWidth: int, tgtHeight: int)
      requires targets != []
      modifies this`trace
      ensures trace == old(trace) + Chain(SRC, Dimension(sourceWidth, sourceHeight), targets, Dimension(tgtWidth, tgtHeight))
    {
      var srcWidth, srcHeight := sourceWidth, sourceHeight;
      ghost var target := Dimension(tgtWidth, tgtHeight);
      ghost var draws := Chain(SRC, Dimension(srcWidth, srcHeight), targets, target);
      ghost var from := SRC;
      for t := 0 to |targets|
        invariant from == (if t == 0 then SRC else TMP)
        invariant 0 < t ==> Dimension(srcWidth, srcHeight) == targets[t - 1]
        invariant trace + Chain(from, Dimension(srcWidth, srcHeight), targets[t..], target) == old(trace) + draws
      {
        var next := targets[t];
        var srcTMP := if t == 0 then SRC else TMP;
        ghost var rest := Chain(TMP, next, targets[t + 1..], target);
        assert targets[t..][1..] == targets[t + 1..];
        assert Chain(from, Dimension(srcWidth, srcHeight), targets[t..], target)
          == [Draw(srcTMP, Dimension(srcWidth, srcHeight), TMP, next)] + rest;
        DrawImageToGraphics(srcTMP, TMP, srcWidth, srcHeight, next.width, next.height);
        assert trace + rest == old(trace) + draws;
        srcWidth, srcHeight := next.width, next.height;
        from := TMP;
      }
      DrawImageToGraphics(TMP, TGT, srcWidth, srcHeight, tgtWidth, tgtHeight);
    }
  }
}
