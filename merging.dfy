/**
 * The merge tool's pipeline (class `MergeImage` of main.cpp): input images
 * are collected with the union of their layer names, and `render` fills an
 * output buffer of one `Rgba` per pixel and layer with the mean over all
 * input images.
 */
module Merging {
  import opened Results
  import opened Exr
  import opened Indexing
  import opened Layered
  import opened Compositor

  /** The union of the images' layer names, as `addInputImage` accumulates it. */
  function LayerUnion(images: seq<RenderImage>): set<string>
  {
    if images == [] then {} else LayerUnion(images[..|images| - 1]) + images[|images| - 1].layerNames
  }

  predicate AllValid(images: seq<RenderImage>)
  {
    forall i :: 0 <= i < |images| ==> images[i].Valid()
  }

  /** Every image has at least `count` layers. */
  predicate HasLayers(images: seq<RenderImage>, count: nat)
  {
    forall i :: 0 <= i < |images| ==> images[i].layerCount >= count
  }

  /** What `render` gathers into `bufferImage`: every image's pixel (x, y) of layer `layer`. */
  function Column(images: seq<RenderImage>, x: int, y: int, layer: nat): (c: seq<Rgba>)
    requires AllValid(images) && HasLayers(images, layer + 1)
    ensures |c| == |images|
  {
    seq(|images|, i requires 0 <= i < |images| => images[i].PixelAt(x, y, layer))
  }

  /** The value `render` stores at output slot `k`: the mean of the column of the pixel and layer that `k` addresses. */
  function RenderedSlot(images: seq<RenderImage>, width: nat, layerCount: nat, k: nat): Rgba
    requires AllValid(images) && width > 0 && layerCount > 0 && HasLayers(images, k % layerCount + 1)
  {
    var p := k / layerCount;
    Mean(Column(images, p % width, p / width, k % layerCount))
  }

  /** The output buffer of `render` over `width*height*layerCount` slots. */
  function Rendered(images: seq<RenderImage>, width: nat, height: nat, layerCount: nat): (out: seq<Rgba>)
    requires AllValid(images) && (width == 0 || height == 0 || HasLayers(images, layerCount))
    ensures |out| == width * height * layerCount
  {
    var size := width * height * layerCount;
    seq(size, k requires 0 <= k < size =>
      assert size == layerCount * (width * height);
      FlatCovers(k, layerCount, width * height);
      RenderedSlot(images, width, layerCount, k))
  }

  /**
   * `render` writes slot `(ix + iy*width)*layerCount + layer` with the mean
   * over the images of their pixel (ix, iy) of that layer; distinct
   * (ix, iy, layer) have distinct slots below `width*height*layerCount`.
   */
  lemma {:induction false} RenderedAt(images: seq<RenderImage>, width: nat, height: nat, layerCount: nat,
                                      ix: int, iy: int, layer: int)
    requires AllValid(images) && HasLayers(images, layerCount)
    requires 0 <= ix < width && 0 <= iy < height && 0 <= layer < layerCount
    ensures var k := (ix + iy * width) * layerCount + layer;
            0 <= k < width * height * layerCount &&
            Rendered(images, width, height, layerCount)[k] == Mean(Column(images, ix, iy, layer))
  {
    var p := Flat(iy, ix, width);
    var k := Flat(p, layer, layerCount);
    SlotOf(ix, iy, layer, width, height, layerCount);
  }

  /** The slot of (ix, iy, layer) is inside the buffer and addresses that pixel and layer. */
  lemma SlotOf(ix: int, iy: int, layer: int, width: nat, height: nat, layerCount: nat)
    requires 0 <= ix < width && 0 <= iy < height && 0 <= layer < layerCount
    ensures var p := Flat(iy, ix, width);
            var k := Flat(p, layer, layerCount);
            k == (ix + iy * width) * layerCount + layer &&
            0 <= k < width * height * layerCount &&
            k % layerCount == layer && k / layerCount == p && p % width == ix && p / width == iy
  {
    var p := Flat(iy, ix, width);
    FlatBounds(iy, ix, width, height);
    FlatBounds(p, layer, layerCount, height * width);
    assert height * width * layerCount == width * height * layerCount;
    FlatInverse(p, layer, layerCount);
    FlatInverse(iy, ix, width);
  }

  /** Distinct pixels and layers are written to distinct slots. */
  lemma SlotsDistinct(ix: int, iy: int, layer: int, ix': int, iy': int, layer': int, width: nat, height: nat, layerCount: nat)
    requires 0 <= ix < width && 0 <= iy < height && 0 <= layer < layerCount
    requires 0 <= ix' < width && 0 <= iy' < height && 0 <= layer' < layerCount
    requires (ix + iy * width) * layerCount + layer == (ix' + iy' * width) * layerCount + layer'
    ensures ix == ix' && iy == iy' && layer == layer'
  {
    SlotOf(ix, iy, layer, width, height, layerCount);
    SlotOf(ix', iy', layer', width, height, layerCount);
  }

  /** Every image's layer names belong to the union. */
  lemma {:induction false} UnionContains(images: seq<RenderImage>, i: int)
    requires 0 <= i < |images|
    ensures images[i].layerNames <= LayerUnion(images)
  {
    if i < |images| - 1 {
      UnionContains(images[..|images| - 1], i);
    }
  }

  lemma {:induction false} SubsetSize<T>(a: set<T>, b: set<T>)
    requires a <= b
    ensures |a| <= |b|
    decreases a
  {
    if a != {} {
      var x :| x in a;
      SubsetSize(a - {x}, b - {x});
    }
  }

  /** A subset of the union is the whole union exactly when it is at least as large. */
  lemma SubsetIsAllIffAsLarge<T>(names: set<T>, u: set<T>)
    requires names <= u
    ensures |names| >= |u| <==> names == u
  {
    if names != u {
      assert !(u <= names);
      var x :| x in u && x !in names;
      SubsetSize(names, u - {x});
    }
  }

  /**
   * With the union's size as the layer count, every image has enough layers
   * exactly when every image carries every layer name of the union.
   */
  lemma AllLayersIffSameLayerNames(images: seq<RenderImage>)
    requires AllValid(images)
    ensures HasLayers(images, |LayerUnion(images)|) <==> forall i :: 0 <= i < |images| ==> images[i].layerNames == LayerUnion(images)
  {
    forall i | 0 <= i < |images|
      ensures images[i].layerCount >= |LayerUnion(images)| <==> images[i].layerNames == LayerUnion(images)
    {
      assert images[i].Valid();
      UnionContains(images, i);
      SubsetIsAllIffAsLarge(images[i].layerNames, LayerUnion(images));
    }
  }

  ghost predicate SlotsDone(out: array<Rgba>, images: seq<RenderImage>, width: nat, layerCount: nat, n: int)
    requires AllValid(images)
    reads out
  {
    forall k :: 0 <= k < n ==>
      width > 0 && layerCount > 0 && HasLayers(images, k % layerCount + 1) &&
      k < out.Length && out[k] == RenderedSlot(images, width, layerCount, k)
  }

  /** The state of the merge pipeline. */
  class MergeImage {
    var layerCount: nat
    var layerNames: set<string>
    var width: nat
    var height: nat
    var pixels: array<Rgba>
    var inputImages: seq<RenderImage>

    ghost predicate Valid()
      reads this
    {
      AllValid(inputImages) &&
      layerNames == LayerUnion(inputImages) && layerCount == |layerNames| &&
      (inputImages != [] ==> width >= 1 && height >= 1)
    }

    /** `MergeImage(width, height)`; the source leaves `layerCount` unset, the model starts it at 0. */
    constructor (width: nat, height: nat)
      ensures Valid()
      ensures this.width == width && this.height == height
      ensures inputImages == [] && layerNames == {} && layerCount == 0 && pixels.Length == 0
    {
      this.width := width;
      this.height := height;
      layerCount := 0;
      layerNames := {};
      inputImages := [];
      pixels := new Rgba[0];
    }

    /**
     * `addInputImage`: the size is taken from the image while width or
     * height is still 0; the image is appended and its layer names join the
     * union. No size check is made.
     */
    method AddInputImage(image: RenderImage)
      requires Valid() && image.Valid()
      modifies this
      ensures Valid()
      ensures inputImages == old(inputImages) + [image]
      ensures layerNames == old(layerNames) + image.layerNames && layerCount == |layerNames|
      ensures old(width == 0 || height == 0) ==> width == image.width && height == image.height
      ensures old(width != 0 && height != 0) ==> width == old(width) && height == old(height)
      ensures pixels == old(pixels)
    {
      if width == 0 || height == 0 {
        var size := image.GetSize();
        width, height := size.0, size.1;
      }
      inputImages := inputImages + [image];
      layerNames := layerNames + image.layerNames;
      layerCount := |layerNames|;
      assert inputImages[..|inputImages| - 1] == old(inputImages);
    }

    /**
     * `render`: a new buffer of `width*height*layerCount` pixels; for every
     * row, column and layer, the images' pixels there are merged into their
     * mean and stored at `(ix + iy*width)*layerCount + layer`. An image with
     * fewer layers than `layerCount` makes `getPixel` throw, which ends the
     * pass with an error.
     */
    method Render() returns (outcome: Outcome<LayerError>)
      requires Valid()
      modifies this
      ensures Valid()
      ensures width == old(width) && height == old(height) && layerCount == old(layerCount)
      ensures layerNames == old(layerNames) && inputImages == old(inputImages)
      ensures fresh(pixels) && pixels.Length == width * height * layerCount
      ensures outcome.Pass? <==> (width == 0 || height == 0 || HasLayers(inputImages, layerCount))
      ensures outcome.Pass? ==> pixels[..] == Rendered(inputImages, width, height, layerCount)
    {
      pixels := new Rgba[width * height * layerCount];
      var bufferLayer := new Rgba[layerCount];
      var bufferImage := new Rgba[|inputImages|];
      outcome := RenderRows(inputImages, width, height, layerCount, pixels, bufferLayer, bufferImage);
    }
  }

  /** The row and column loops of `render` over the freshly allocated output buffer. */
  method RenderRows(images: seq<RenderImage>, width: nat, height: nat, layerCount: nat,
                    out: array<Rgba>, bufferLayer: array<Rgba>, bufferImage: array<Rgba>)
    returns (outcome: Outcome<LayerError>)
    requires AllValid(images)
    requires out.Length == width * height * layerCount && bufferLayer.Length == layerCount && bufferImage.Length == |images|
    requires out != bufferLayer && out != bufferImage && bufferLayer != bufferImage
    modifies out, bufferLayer, bufferImage
    ensures outcome.Pass? <==> (width == 0 || height == 0 || HasLayers(images, layerCount))
    ensures outcome.Pass? ==> out[..] == Rendered(images, width, height, layerCount)
  {
    outcome := Pass;
    for iy := 0 to height
      invariant outcome.Pass?
      invariant iy > 0 && width > 0 ==> HasLayers(images, layerCount)
      invariant SlotsDone(out, images, width, layerCount, Flat(Flat(iy, 0, width), 0, layerCount))
    {
      outcome := RenderRow(images, width, height, layerCount, iy, out, bufferLayer, bufferImage);
      if outcome.Fail? {
        return;
      }
      FlatStep(iy, width);
    }
    AllSlotsDone(out, images, width, height, layerCount);
  }

  /** The column loop of `render` for row `iy`. */
  method RenderRow(images: seq<RenderImage>, width: nat, height: nat, layerCount: nat, iy: int,
                   out: array<Rgba>, bufferLayer: array<Rgba>, bufferImage: array<Rgba>)
    returns (outcome: Outcome<LayerError>)
    requires AllValid(images) && 0 <= iy < height
    requires out.Length == width * height * layerCount && bufferLayer.Length == layerCount && bufferImage.Length == |images|
    requires out != bufferLayer && out != bufferImage && bufferLayer != bufferImage
    requires SlotsDone(out, images, width, layerCount, Flat(Flat(iy, 0, width), 0, layerCount))
    modifies out, bufferLayer, bufferImage
    ensures outcome.Pass? <==> (width == 0 || HasLayers(images, layerCount))
    ensures outcome.Pass? ==> SlotsDone(out, images, width, layerCount, Flat(Flat(iy, width, width), 0, layerCount))
  {
    outcome := Pass;
    for ix := 0 to width
      invariant outcome.Pass?
      invariant ix > 0 ==> HasLayers(images, layerCount)
      invariant SlotsDone(out, images, width, layerCount, Flat(Flat(iy, ix, width), 0, layerCount))
    {
      outcome := RenderPixel(images, width, height, layerCount, ix, iy, out, bufferLayer, bufferImage);
      if outcome.Fail? {
        return;
      }
    }
  }

  /** Once every slot is done, the buffer is the rendered output. */
  lemma AllSlotsDone(out: array<Rgba>, images: seq<RenderImage>, width: nat, height: nat, layerCount: nat)
    requires AllValid(images) && out.Length == width * height * layerCount
    requires width == 0 || height == 0 || HasLayers(images, layerCount)
    requires SlotsDone(out, images, width, layerCount, Flat(Flat(height, 0, width), 0, layerCount))
    ensures out[..] == Rendered(images, width, height, layerCount)
  {
  }

  /**
   * One pixel of `render`: for every layer, the images' pixels are gathered
   * and their mean is stored in the layer's output slot.
   */
  method RenderPixel(images: seq<RenderImage>, width: nat, height: nat, layerCount: nat, ix: int, iy: int,
                     out: array<Rgba>, bufferLayer: array<Rgba>, bufferImage: array<Rgba>)
    returns (outcome: Outcome<LayerError>)
    requires AllValid(images) && 0 <= ix < width && 0 <= iy < height
    requires out.Length == width * height * layerCount && bufferLayer.Length == layerCount && bufferImage.Length == |images|
    requires out != bufferLayer && out != bufferImage && bufferLayer != bufferImage
    requires SlotsDone(out, images, width, layerCount, Flat(Flat(iy, ix, width), 0, layerCount))
    modifies out, bufferLayer, bufferImage
    ensures outcome.Pass? <==> HasLayers(images, layerCount)
    ensures outcome.Pass? ==> SlotsDone(out, images, width, layerCount, Flat(Flat(iy, ix + 1, width), 0, layerCount))
  {
    for layer := 0 to layerCount
      invariant HasLayers(images, layer)
      invariant SlotsDone(out, images, width, layerCount, Flat(Flat(iy, ix, width), layer, layerCount))
    {
      outcome := GatherColumn(images, ix, iy, layer, bufferImage);
      if outcome.Fail? {
        return;
      }
      var merged := MergeImages(bufferImage[..]);
      bufferLayer[layer] := merged;

      SlotOf(ix, iy, layer, width, height, layerCount);
      out[(ix + iy * width) * layerCount + layer] := bufferLayer[layer];
    }
    FlatStep(Flat(iy, ix, width), layerCount);
    outcome := Pass;
  }

  /** The image loop of `render`: `getPixel` of every image, failing on the first image without the layer. */
  method GatherColumn(images: seq<RenderImage>, ix: int, iy: int, layer: nat, bufferImage: array<Rgba>)
    returns (outcome: Outcome<LayerError>)
    requires AllValid(images) && HasLayers(images, layer) && bufferImage.Length == |images|
    modifies bufferImage
    ensures outcome.Pass? <==> HasLayers(images, layer + 1)
    ensures outcome.Pass? ==> bufferImage[..] == Column(images, ix, iy, layer)
  {
    for img := 0 to |images|
      invariant forall i :: 0 <= i < img ==> images[i].layerCount > layer
      invariant forall i :: 0 <= i < img ==> bufferImage[i] == images[i].PixelAt(ix, iy, layer)
    {
      var pixel := images[img].GetPixel(ix, iy, layer);
      if pixel.Err? {
        return Fail(pixel.error);
      }
      bufferImage[img] := pixel.value;
    }
    outcome := Pass;
  }
}
