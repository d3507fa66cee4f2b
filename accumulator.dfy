/**
 * The combine tool (class `Combine` of combine.cpp): the first image fixes the
 * geometry and the channel list, every later image of the same size is added
 * sample by sample, and writing divides every sample by the number of images
 * that were added.
 */
module Accumulator {
  import opened Results
  import opened Exr
  import opened Indexing

  /** A layer of a header's channel list: its name and the full names of its channels, in list order. */
  datatype Layer = Layer(name: string, channels: seq<string>)

  /**
   * A decoded input file: its display window, its layers in the order the
   * codec enumerates them, and the decoded samples of each channel, row by
   * row (sample `y*width + x` is pixel (x, y) relative to the window corner).
   */
  datatype SourceImage = SourceImage(window: Window, layers: seq<Layer>, planes: map<string, seq<real>>)
  {
    predicate Valid()
    {
      window.Valid() &&
      forall c :: c in planes ==> |planes[c]| == window.Width() * window.Height()
    }
  }

  /** The error `addImage` raises for an image whose size differs from the first one. */
  datatype CombineError = SizeMismatch

  /** The channel list the first image fixes: each layer's channels, layer after layer. */
  function ChannelNames(layers: seq<Layer>): seq<string>
  {
    if layers == [] then [] else ChannelNames(layers[..|layers| - 1]) + layers[|layers| - 1].channels
  }

  /** A channel is listed exactly when some layer holds it. */
  lemma {:induction false} ChannelNamesMembership(layers: seq<Layer>, c: string)
    ensures c in ChannelNames(layers) <==> exists l :: 0 <= l < |layers| && c in layers[l].channels
  {
    if layers != [] {
      var init := layers[..|layers| - 1];
      ChannelNamesMembership(init, c);
      if c in ChannelNames(layers) && c !in layers[|layers| - 1].channels {
        var l :| 0 <= l < |init| && c in init[l].channels;
        assert layers[l] == init[l];
      }
      if exists l :: 0 <= l < |layers| && c in layers[l].channels {
        var l :| 0 <= l < |layers| && c in layers[l].channels;
        if l < |init| {
          assert init[l] == layers[l];
        }
      }
    }
  }

  /**
   * What `readPixels` stores for channel `name` at pixel `p`: the decoded
   * sample, or the slice fill value 0 when the file has no such channel.
   */
  function Sample(img: SourceImage, name: string, p: int): real
  {
    if name in img.planes && 0 <= p < |img.planes[name]| then img.planes[name][p] else 0.0
  }

  /** `getFramebuffer`: channel `i` of pixel `p` sits at `p*C + i`, with `C` channels per pixel. */
  function FrameIndex(p: int, i: int, channelCount: int): (k: int)
    ensures 0 <= i < channelCount ==> k / channelCount == p && k % channelCount == i
  {
    if 0 <= i < channelCount then
      FlatInverse(p, i, channelCount);
      Flat(p, i, channelCount)
    else
      Flat(p, i, channelCount)
  }

  /** The indices of distinct channels of distinct pixels are distinct and inside the buffer. */
  lemma FrameIndexLayout(p: int, i: int, p': int, i': int, pixelCount: nat, channelCount: nat)
    requires 0 <= p < pixelCount && 0 <= i < channelCount
    requires 0 <= p' < pixelCount && 0 <= i' < channelCount
    ensures 0 <= FrameIndex(p, i, channelCount) < pixelCount * channelCount
    ensures FrameIndex(p, i, channelCount) == FrameIndex(p', i', channelCount) <==> p == p' && i == i'
  {
    FlatBounds(p, i, channelCount, pixelCount);
    if FrameIndex(p, i, channelCount) == FrameIndex(p', i', channelCount) {
      FlatInjective(p, i, p', i', channelCount);
    }
  }

  /**
   * The frame buffer keeps one slice per channel name, the one inserted
   * last: the slice of list entry `i` survives when no later entry has its
   * name. A name is listed twice when one layer name is a prefix of another
   * (layer `a` then also lists the channels of layer `a.b`).
   */
  predicate SliceKept(names: seq<string>, i: int)
    requires 0 <= i < |names|
  {
    forall j :: i < j < |names| ==> names[j] != names[i]
  }

  /**
   * The buffer `readPixels` fills through the frame buffer that
   * `getFramebuffer` builds. A slot whose slice was replaced is never
   * written; the source leaves it uninitialised, the model holds 0 there.
   */
  function Framebuffer(img: SourceImage, names: seq<string>, pixelCount: nat): (s: seq<real>)
    ensures |s| == pixelCount * |names|
  {
    if |names| == 0 then []
    else seq(pixelCount * |names|, k requires 0 <= k < pixelCount * |names| =>
               if SliceKept(names, k % |names|) then Sample(img, names[k % |names|], k / |names|) else 0.0)
  }

  /**
   * The slice of channel `i` starts at element `i` and advances by `C`
   * elements per pixel and by `C*width` elements per row; there it finds that
   * channel's sample of pixel (x, y), unless a later slice of the same name
   * replaced it, in which case the slot is not written.
   */
  lemma FramebufferAt(img: SourceImage, names: seq<string>, width: nat, height: nat, x: int, y: int, i: int)
    requires 0 <= x < width && 0 <= y < height && 0 <= i < |names|
    ensures var k := i + x * |names| + y * (|names| * width);
            0 <= k < |Framebuffer(img, names, width * height)| &&
            Framebuffer(img, names, width * height)[k] ==
              if SliceKept(names, i) then Sample(img, names[i], y * width + x) else 0.0
  {
    var c := |names|;
    var p := y * width + x;
    FlatBounds(y, x, width, height);
    assert height * width == width * height;
    FlatBounds(p, i, c, width * height);
    assert i + x * c + y * (c * width) == FrameIndex(p, i, c);
    FlatInverse(p, i, c);
  }

  /** With pairwise distinct channel names every slice is kept, so every slot holds its channel's sample. */
  lemma DistinctNamesKeepEverySlice(names: seq<string>, i: int)
    requires forall j, j' :: 0 <= j < j' < |names| ==> names[j] != names[j']
    requires 0 <= i < |names|
    ensures SliceKept(names, i)
  {
  }

  /**
   * Layers `a` (channels `a.R`, `a.b.R`) and `a.b` (channel `a.b.R`) list
   * `a.b.R` twice; of a one-pixel image only the second slot of that name is
   * filled.
   */
  lemma NestedLayersFillLastSlot(img: SourceImage)
    requires "a.b.R" in img.planes && |img.planes["a.b.R"]| == 1
    ensures var names := ChannelNames([Layer("a", ["a.R", "a.b.R"]), Layer("a.b", ["a.b.R"])]);
            |names| == 3 && Framebuffer(img, names, 1)[1] == 0.0 &&
            Framebuffer(img, names, 1)[2] == img.planes["a.b.R"][0]
  {
    var layers := [Layer("a", ["a.R", "a.b.R"]), Layer("a.b", ["a.b.R"])];
    var first := [Layer("a", ["a.R", "a.b.R"])];
    assert layers[..1] == first && first[..0] == [];
    assert ChannelNames(first) == ["a.R", "a.b.R"];
    var names := ChannelNames(layers);
    assert names == ["a.R", "a.b.R", "a.b.R"];
    assert !SliceKept(names, 1) by {
      assert names[2] == names[1];
    }
  }

  /** `pixelDst[i] += pixelSrc[i]` for every sample. */
  function AddSamples(a: seq<real>, b: seq<real>): (s: seq<real>)
    requires |a| == |b|
    ensures |s| == |a|
  {
    seq(|a|, i requires 0 <= i < |a| => a[i] + b[i])
  }

  /** `pixelDst[i] *= mult` for every sample. */
  function ScaleAll(a: seq<real>, mult: real): (s: seq<real>)
    ensures |s| == |a|
  {
    seq(|a|, i requires 0 <= i < |a| => a[i] * mult)
  }

  ghost predicate FramesOfLength(frames: seq<seq<real>>, n: nat)
  {
    forall f :: f in frames ==> |f| == n
  }

  /** The element-wise sum of the frames, built the way `addImage` builds it: one frame at a time. */
  ghost function SumFrames(frames: seq<seq<real>>, n: nat): (s: seq<real>)
    requires FramesOfLength(frames, n)
    ensures |s| == n
  {
    if frames == [] then seq(n, i => 0.0)
    else AddSamples(SumFrames(frames[..|frames| - 1], n), frames[|frames| - 1])
  }

  /** The sum over all frames of sample `i`. */
  ghost function ColumnSum(frames: seq<seq<real>>, i: nat): real
    requires forall f :: f in frames ==> i < |f|
  {
    if frames == [] then 0.0 else ColumnSum(frames[..|frames| - 1], i) + frames[|frames| - 1][i]
  }

  /** The sample-wise mean of the frames. */
  ghost function MeanFrames(frames: seq<seq<real>>, n: nat): seq<real>
    requires FramesOfLength(frames, n)
  {
    seq(n, i requires 0 <= i < n => if frames == [] then 0.0 else ColumnSum(frames, i) / |frames| as real)
  }

  /** Adding one frame to nothing gives that frame. */
  lemma SumOfOneFrame(f: seq<real>)
    ensures FramesOfLength([f], |f|) && SumFrames([f], |f|) == f
  {
  }

  /** Sample `i` of the running sum is the sum of sample `i` over the frames. */
  lemma {:induction false} SumFramesAt(frames: seq<seq<real>>, n: nat, i: nat)
    requires FramesOfLength(frames, n) && i < n
    ensures SumFrames(frames, n)[i] == ColumnSum(frames, i)
  {
    if frames != [] {
      var init := frames[..|frames| - 1];
      assert FramesOfLength(init, n) by {
        forall f | f in init ensures |f| == n {
          var j :| 0 <= j < |init| && init[j] == f;
          assert frames[j] == f;
        }
      }
      SumFramesAt(init, n, i);
    }
  }

  /** Scaling the sum of the frames by `1/imageCount` yields their mean. */
  lemma NormalisedSumIsMean(frames: seq<seq<real>>, n: nat)
    requires FramesOfLength(frames, n) && (frames == [] ==> n == 0)
    ensures ScaleAll(SumFrames(frames, n), Reciprocal(|frames|)) == MeanFrames(frames, n)
  {
    var scaled := ScaleAll(SumFrames(frames, n), Reciprocal(|frames|));
    forall i | 0 <= i < n ensures scaled[i] == MeanFrames(frames, n)[i] {
      SumFramesAt(frames, n, i);
    }
  }

  /** The mean of a single frame is that frame. */
  lemma MeanOfOneFrame(f: seq<real>)
    ensures MeanFrames([f], |f|) == f
  {
    forall i | 0 <= i < |f| ensures MeanFrames([f], |f|)[i] == f[i] {
      assert |[f][..0]| == 0;
      assert ColumnSum([f], i) == f[i];
    }
  }

  /** Two 2x2 single-channel images [1,2,3,4] and [3,2,1,0] combine to [2,2,2,2]. */
  lemma CombineTwoExample()
    ensures ScaleAll(SumFrames([[1.0, 2.0, 3.0, 4.0], [3.0, 2.0, 1.0, 0.0]], 4), Reciprocal(2)) == [2.0, 2.0, 2.0, 2.0]
  {
  }

  /**
   * Normalising twice divides twice: once two or more images were added,
   * every nonzero sample changes again on a second `writeImage`.
   */
  lemma NormaliseTwiceDiffers(s: seq<real>, imageCount: nat, i: nat)
    requires imageCount >= 2 && i < |s| && s[i] != 0.0
    ensures ScaleAll(ScaleAll(s, Reciprocal(imageCount)), Reciprocal(imageCount))[i] != ScaleAll(s, Reciprocal(imageCount))[i]
  {
  }

  /** The accumulating state of one combine run. */
  class Combine {
    var pixelDst: array<real>
    var pixelSrc: array<real>
    var subpixelCount: nat
    var imageCount: nat
    var width: int
    var height: int
    var channelNames: seq<string>
    /** The frame buffers of the accepted images, in the order they were added. */
    ghost var Frames: seq<seq<real>>

    ghost predicate Valid()
      reads this
    {
      pixelDst != pixelSrc &&
      pixelDst.Length == subpixelCount && pixelSrc.Length == subpixelCount &&
      imageCount == |Frames| &&
      FramesOfLength(Frames, subpixelCount) &&
      (imageCount == 0 ==> width == 0 && height == 0 && channelNames == [] && subpixelCount == 0) &&
      (imageCount > 0 ==> width >= 1 && height >= 1 && subpixelCount == width * height * |channelNames|)
    }

    /** The destination buffer holds the element-wise sum of the accepted frames. */
    ghost predicate HoldsSum()
      requires Valid()
      reads this, pixelDst
    {
      pixelDst[..] == SumFrames(Frames, subpixelCount)
    }

    /** A fresh run: no image, no geometry, empty buffers. */
    constructor ()
      ensures Valid() && HoldsSum()
      ensures fresh(pixelDst) && fresh(pixelSrc)
      ensures imageCount == 0 && subpixelCount == 0 && width == 0 && height == 0 && channelNames == []
    {
      pixelDst := new real[0];
      pixelSrc := new real[0];
      subpixelCount := 0;
      imageCount := 0;
      width := 0;
      height := 0;
      channelNames := [];
      Frames := [];
    }

    /**
     * `addImage`. The first image fixes width, height and the channel list
     * and is read into the destination buffer; a later image of another size
     * raises before anything changes; a later image of equal size is read
     * into the source buffer and added into the destination buffer.
     */
    method AddImage(img: SourceImage) returns (outcome: Outcome<CombineError>)
      requires Valid() && img.Valid()
      modifies this, pixelDst, pixelSrc
      ensures Valid()
      ensures old(imageCount) == 0 ==>
        outcome == Pass &&
        width == img.window.Width() && height == img.window.Height() &&
        channelNames == ChannelNames(img.layers) &&
        subpixelCount == width * height * |channelNames| &&
        fresh(pixelDst) && fresh(pixelSrc) &&
        pixelDst[..] == Framebuffer(img, channelNames, width * height) &&
        imageCount == 1 && Frames == [pixelDst[..]]
      ensures old(imageCount) > 0 && (img.window.Width() != old(width) || img.window.Height() != old(height)) ==>
        outcome == Fail(SizeMismatch) && unchanged(this) && unchanged(pixelDst) && unchanged(pixelSrc)
      ensures old(imageCount) > 0 && img.window.Width() == old(width) && img.window.Height() == old(height) ==>
        outcome == Pass &&
        pixelDst == old(pixelDst) && pixelSrc == old(pixelSrc) &&
        width == old(width) && height == old(height) &&
        channelNames == old(channelNames) && subpixelCount == old(subpixelCount) &&
        pixelSrc[..] == Framebuffer(img, channelNames, width * height) &&
        pixelDst[..] == AddSamples(old(pixelDst[..]), pixelSrc[..]) &&
        imageCount == old(imageCount) + 1 && Frames == old(Frames) + [pixelSrc[..]]
      ensures old(HoldsSum()) ==> HoldsSum()
    {
      var srcWidth := img.window.maxX - img.window.minX + 1;
      var srcHeight := img.window.maxY - img.window.minY + 1;

      if imageCount == 0 {
        AddFirstImage(img, srcWidth, srcHeight);
      } else {
        if srcWidth != width || srcHeight != height {
          return Fail(SizeMismatch);
        }
        AddLaterImage(img);
      }
      outcome := Pass;
    }

    /** The first branch of `addImage`: collect the channel list, size and allocate the buffers, read the image. */
    method AddFirstImage(img: SourceImage, srcWidth: int, srcHeight: int)
      requires Valid() && img.Valid() && imageCount == 0
      requires srcWidth == img.window.Width() && srcHeight == img.window.Height()
      modifies this
      ensures Valid() && HoldsSum()
      ensures width == srcWidth && height == srcHeight
      ensures channelNames == ChannelNames(img.layers)
      ensures subpixelCount == width * height * |channelNames|
      ensures fresh(pixelDst) && fresh(pixelSrc)
      ensures pixelDst[..] == Framebuffer(img, channelNames, width * height)
      ensures imageCount == 1 && Frames == [pixelDst[..]]
    {
      CollectChannelNames(img.layers);
      assert channelNames == ChannelNames(img.layers);

      AllocateBuffers(srcWidth, srcHeight);
      ReadPixels(pixelDst, Framebuffer(img, channelNames, width * height));
      Frames := [pixelDst[..]];
      imageCount := 1;
      SumOfOneFrame(pixelDst[..]);
    }

    /** The geometry and the two buffers of `width*height*|channelNames|` samples the first image fixes. */
    method AllocateBuffers(srcWidth: nat, srcHeight: nat)
      modifies this`width, this`height, this`subpixelCount, this`pixelDst, this`pixelSrc
      ensures width == srcWidth && height == srcHeight
      ensures subpixelCount == width * height * |channelNames|
      ensures fresh(pixelDst) && fresh(pixelSrc) && pixelDst != pixelSrc
      ensures pixelDst.Length == subpixelCount && pixelSrc.Length == subpixelCount
    {
      width := srcWidth;
      height := srcHeight;
      subpixelCount := width * height * |channelNames|;
      pixelDst := new real[subpixelCount];
      pixelSrc := new real[subpixelCount];
    }

    /** The layer loop of the first `addImage`: each layer's channel names are pushed onto `channelNames`. */
    method CollectChannelNames(layers: seq<Layer>)
      modifies this`channelNames
      ensures channelNames == old(channelNames) + ChannelNames(layers)
    {
      var i := 0;
      while i < |layers|
        invariant 0 <= i <= |layers|
        invariant channelNames == old(channelNames) + ChannelNames(layers[..i])
      {
        var layer := layers[i];
        var j := 0;
        while j < |layer.channels|
          invariant 0 <= j <= |layer.channels|
          invariant channelNames == old(channelNames) + ChannelNames(layers[..i]) + layer.channels[..j]
        {
          channelNames := channelNames + [layer.channels[j]];
          j := j + 1;
        }
        assert layers[..i + 1][..i] == layers[..i];
        assert layer.channels[..j] == layer.channels;
        i := i + 1;
      }
      assert layers[..|layers|] == layers;
    }

    /** The second branch of `addImage`, past the size check: read into the source buffer and add it in. */
    method AddLaterImage(img: SourceImage)
      requires Valid() && img.Valid() && imageCount > 0
      requires img.window.Width() == width && img.window.Height() == height
      modifies this`imageCount, this`Frames, pixelDst, pixelSrc
      ensures Valid()
      ensures pixelSrc[..] == Framebuffer(img, channelNames, width * height)
      ensures pixelDst[..] == AddSamples(old(pixelDst[..]), pixelSrc[..])
      ensures imageCount == old(imageCount) + 1 && Frames == old(Frames) + [pixelSrc[..]]
      ensures old(HoldsSum()) ==> HoldsSum()
    {
      ghost var before := pixelDst[..];
      ReadPixels(pixelSrc, Framebuffer(img, channelNames, width * height));

      var i := 0;
      while i < subpixelCount
        modifies pixelDst
        invariant 0 <= i <= subpixelCount
        invariant forall k :: 0 <= k < i ==> pixelDst[k] == before[k] + pixelSrc[k]
        invariant forall k :: i <= k < subpixelCount ==> pixelDst[k] == before[k]
      {
        pixelDst[i] := pixelDst[i] + pixelSrc[i];
        i := i + 1;
      }
      assert pixelDst[..] == AddSamples(before, pixelSrc[..]);
      Frames := Frames + [pixelSrc[..]];
      imageCount := imageCount + 1;
      assert Frames[..|Frames| - 1] == old(Frames);
    }

    /**
     * The normalising loop of `writeImage`: every sample of the destination
     * buffer is multiplied, in place, by `1/imageCount`. When the buffer held
     * the sum of the accepted images it now holds their mean. Writing the
     * file is not modelled.
     */
    method WriteImage()
      requires Valid()
      modifies pixelDst
      ensures Valid()
      ensures pixelDst[..] == ScaleAll(old(pixelDst[..]), Reciprocal(imageCount))
      ensures old(HoldsSum()) ==> pixelDst[..] == MeanFrames(Frames, subpixelCount)
    {
      var mult := Reciprocal(imageCount);
      for i := 0 to subpixelCount
        invariant forall k :: 0 <= k < i ==> pixelDst[k] == old(pixelDst[k]) * mult
        invariant forall k :: i <= k < subpixelCount ==> pixelDst[k] == old(pixelDst[k])
      {
        pixelDst[i] := pixelDst[i] * mult;
      }
      ghost var scaled := ScaleAll(old(pixelDst[..]), mult);
      assert forall k :: 0 <= k < subpixelCount ==> pixelDst[k] == scaled[k];
      if old(HoldsSum()) {
        NormalisedSumIsMean(Frames, subpixelCount);
      }
    }
  }

  /** The frames a combine run accepts: every image of `first`'s size, read through `first`'s channel list. */
  ghost function AcceptedFrames(images: seq<SourceImage>, first: SourceImage): (frames: seq<seq<real>>)
    requires first.Valid() && forall i :: 0 <= i < |images| ==> images[i].Valid()
    ensures FramesOfLength(frames, first.window.Width() * first.window.Height() * |ChannelNames(first.layers)|)
  {
    if images == [] then []
    else
      var last := images[|images| - 1];
      assert last.Valid();
      var w, h := first.window.Width(), first.window.Height();
      AcceptedFrames(images[..|images| - 1], first) +
      (if last.window.Width() == w && last.window.Height() == h
       then [Framebuffer(last, ChannelNames(first.layers), w * h)] else [])
  }

  /** One more input image adds its frame exactly when it has the first image's size. */
  lemma AcceptedFramesStep(images: seq<SourceImage>, i: int, first: SourceImage)
    requires first.Valid() && forall k :: 0 <= k < |images| ==> images[k].Valid()
    requires 0 <= i < |images|
    ensures images[i].Valid()
    ensures AcceptedFrames(images[..i + 1], first) ==
              AcceptedFrames(images[..i], first) +
              (if images[i].window.Width() == first.window.Width() && images[i].window.Height() == first.window.Height()
               then [Framebuffer(images[i], ChannelNames(first.layers), first.window.Width() * first.window.Height())]
               else [])
  {
    assert images[i].Valid();
    assert images[..i + 1][..i] == images[..i];
  }

  /**
   * The run of the combine tool's `main`: every input image is added, an
   * image of another size is reported and skipped, and the buffer is then
   * normalised. The result is the mean of the accepted frames. With no input
   * the tool stops before creating anything.
   */
  method CombineImages(images: seq<SourceImage>) returns (mean: seq<real>)
    requires forall i :: 0 <= i < |images| ==> images[i].Valid()
    ensures images == [] ==> mean == []
    ensures images != [] ==>
              images[0].Valid() &&
              var n := images[0].window.Width() * images[0].window.Height() * |ChannelNames(images[0].layers)|;
              |mean| == n && mean == MeanFrames(AcceptedFrames(images, images[0]), n)
  {
    if images == [] {
      return [];
    }
    var first := images[0];
    assert first.Valid();
    var comb := new Combine();
    var i := 0;
    while i < |images|
      invariant 0 <= i <= |images|
      invariant comb.Valid() && comb.HoldsSum()
      invariant fresh(comb.pixelDst) && fresh(comb.pixelSrc)
      invariant i == 0 ==> comb.imageCount == 0
      invariant i > 0 ==>
        comb.imageCount > 0 &&
        comb.width == first.window.Width() && comb.height == first.window.Height() &&
        comb.channelNames == ChannelNames(first.layers) &&
        comb.Frames == AcceptedFrames(images[..i], first)
    {
      assert images[i].Valid();
      AcceptedFramesStep(images, i, first);
      var outcome := comb.AddImage(images[i]);
      i := i + 1;
    }
    assert images[..i] == images;
    comb.WriteImage();
    mean := comb.pixelDst[..];
  }

  /** `readPixels` through a frame buffer whose slices all point into `dst`. */
  method ReadPixels(dst: array<real>, contents: seq<real>)
    requires dst.Length == |contents|
    modifies dst
    ensures dst[..] == contents
  {
    forall k | 0 <= k < dst.Length {
      dst[k] := contents[k];
    }
  }
}
