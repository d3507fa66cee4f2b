# EXRCombine in Dafny

EXRCombine consists of two small command-line tools over OpenEXR images.

- **combine** (combine.cpp, class `Combine`) averages several images of
  equal size, channel by channel:
  - the first image fixes the geometry (width, height) and the channel list;
  - each later image of the same size is added sample by sample into a
    destination buffer;
  - an image of another size is rejected;
  - writing multiplies every sample by `1/imageCount`.
- **merge** (main.cpp, classes `RenderImage` and `MergeImage`) works on layered images:
  - each input image is loaded into a flat buffer with one `Rgba` per pixel
    and layer, at `(y*width + x)*layerCount + layer`;
  - `render` fills an output buffer of `width*height*layerCount` pixels;
  - each output pixel is the per-component mean over the input images of
    their pixel at the same position and layer index;
  - `composeLayers` is a second, unused, per-pixel fold: alpha-over.

The model keeps the tools' state and loops in imperative Dafny.
- `Combine` and `MergeImage` are classes. Their buffers are arrays, and their methods carry `modifies` clauses.
- `mergeImage`, `composeLayers` and the loops of `render` are methods with loop invariants.
- Each method is proved against a specification function: `SumFrames`/`MeanFrames`, `Mean`, `Compose` or `Rendered`. Lemmas state the tools' promises about those functions.
- Samples are exact `real`s standing for OpenEXR `half`.
- A decoded file is a given value: its display window, its layers and their channels, and the channels' samples row by row.

Modules:

| module | file | models |
|---|---|---|
| `Results` | results.dfy | the `Result` / `Outcome` error wrappers |
| `Indexing` | indexing.dfy | record-major addressing `q*n + r`: bounds, inverse, injectivity |
| `Exr` | exr.dfy | display window, `Rgba` and its four half slots, `1/count` |
| `Accumulator` | accumulator.dfy | class `Combine` of combine.cpp |
| `Layered` | layered.dfy | class `RenderImage` of main.cpp |
| `Compositor` | compositor.dfy | `mergeImage` and `composeLayers` of main.cpp |
| `Merging` | merging.dfy | class `MergeImage` of main.cpp |

Behaviour of the code that the model follows:
- combine checks only width and height against the first image. A later image
  with other channels is accepted:
  - a channel it lacks reads as 0 (the slice fill value);
  - a channel it has in addition is ignored.
- Writing with no image accepted has no zero-guard. The buffer is then empty,
  so the normalise loop runs no iteration. `Reciprocal(0)` is 0 in the
  model, where the tool's `half` division gives infinity; no sample is ever
  scaled by it.
- merge matches layers by their index, not by their name (`getLayerIndex` is a
  stub). A missing layer is not treated as transparent.
  - `render` asks every image for every layer index below the size of the union of layer names.
  - An image with fewer layers makes `getPixel` throw a `const char*`. The tool's `catch (const std::exception&)` does not catch it, so a run with such an image ends there.
  - The model returns `Fail(NoSuchLayer)` from `Render`.
  - `AllLayersIffSameLayerNames` shows that rendering succeeds exactly when every image carries every layer name.
  - The layer set is iterated in name order. So, once every image carries every name, layer index `l` names the same layer in every image (`LoadedLayerIndexNamesLayer`).
- combine can list a channel name twice: layer `a` also holds the channels of layer `a.b`. Only the last slice of a name is kept, so an earlier slot of that name is not written (`NestedLayersFillLastSlot`).
- merge performs no size check. Later images of another size are read with clamped coordinates.
- In a layer, the `j`-th channel goes to half slot `3 - j` of its `Rgba` (slot 0 = r, … 3 = a).
  - A layer of A, B, G, R channels lands in the namesake fields (`LoadAbgrLayer`).
  - A layer of three channels B, G, R lands one slot up, with a zero red (`LoadBgrLayer`).
- `composeLayers` divides by the running alpha without a check, so the first
  layer must have nonzero alpha (`ComposableIffBottomVisible`). It squares the
  layer colour (see Findings).

## Model

| member | source | states |
|---|---|---|
| Exr.Window.Width | main.cpp:41 | the window width `max.x - min.x + 1` is at least 1 |
| Exr.Window.Height | main.cpp:42 | the window height `max.y - min.y + 1` is at least 1 (combine.cpp:44 computes it the same way) |
| Exr.Reciprocal | combine.cpp:87 | `mult * imageCount == 1` whenever images were accepted |
| Accumulator.ChannelNamesMembership | combine.cpp:51-57 | a name is in the channel list exactly when some layer lists it |
| Accumulator.FrameIndex | combine.cpp:26-31 | channel `i` of pixel `p` sits at `p*C + i`, and the pixel and the channel are its quotient and remainder by `C` |
| Accumulator.Framebuffer | combine.cpp:22-34 | the buffer `readPixels` fills through `getFramebuffer`'s slices has `pixelCount*C` samples; their values are stated by `FramebufferAt` |
| Accumulator.FrameIndexLayout | combine.cpp:26-31 | channel `i` of pixel `p` at `p*C + i` is below `pixelCount*C`, and distinct (p, i) get distinct indices (both directions) |
| Accumulator.FramebufferAt | combine.cpp:26-31 | the slice of channel `i` with x-stride `C` and y-stride `C*width` finds that channel's sample of pixel (x, y); when a later entry has the same name its slice replaced this one and the slot is not written |
| Accumulator.DistinctNamesKeepEverySlice | combine.cpp:29-31 | with pairwise distinct channel names no slice is replaced |
| Accumulator.NestedLayersFillLastSlot | combine.cpp:51-57 | layers `a` and `a.b` both list `a.b.R`; only the second slot of that name is filled |
| Accumulator.SumFramesAt | combine.cpp:78-79 | the running element-wise sum holds, at each index, the sum of that sample over the frames |
| Accumulator.NormalisedSumIsMean | combine.cpp:87-89 | scaling the sum of the frames by `1/imageCount` gives their sample-wise mean |
| Accumulator.MeanOfOneFrame | combine.cpp:87-89 | with one image accepted, the normalised buffer equals that image |
| Accumulator.CombineTwoExample | combine.cpp:78-89 | two 2x2 images [1,2,3,4] and [3,2,1,0] combine to [2,2,2,2] |
| Accumulator.NormaliseTwiceDiffers | combine.cpp:87-89 | normalising in place is not idempotent: a second pass changes every nonzero sample once two or more images were added |
| Accumulator.Combine.constructor | combine.cpp:14-20 | a new run has no image, no geometry and empty, freshly allocated buffers, and holds the (empty) sum |
| Accumulator.Combine.AddImage | combine.cpp:37-83 | first image: geometry, channel list, `subpixelCount = w*h*C` and the buffer are set; later image of other size: `Fail(SizeMismatch)` and no state change; later image of equal size: `pixelDst[i] = old pixelDst[i] + pixelSrc[i]`, geometry kept, `imageCount` up by one; the destination buffer stays the sum of the accepted frames |
| Accumulator.Combine.AddFirstImage | combine.cpp:46-68 | the first image's geometry, channel list and buffer, with `imageCount == 1` |
| Accumulator.Combine.CollectChannelNames | combine.cpp:51-57 | the layer loop appends each layer's channels, layer after layer |
| Accumulator.Combine.AllocateBuffers | combine.cpp:60-64 | width and height taken from the image, two fresh distinct buffers of `width*height*C` samples |
| Accumulator.Combine.AddLaterImage | combine.cpp:74-82 | the source buffer holds the image and the destination buffer gains it sample by sample |
| Accumulator.Combine.WriteImage | combine.cpp:85-89 | every sample is multiplied by `1/imageCount` in place; a buffer holding the sum then holds the mean |
| Accumulator.CombineImages | combine.cpp:108-135 | `main`'s run over the input images: a new `Combine`, every image added with size errors reported and skipped, then normalised; the result is the mean of the accepted frames (every image of the first image's size), and nothing for no input |
| Accumulator.AcceptedFramesStep | combine.cpp:118-125 | one more input adds its frame exactly when it has the first image's size |
| Accumulator.ReadPixels | combine.cpp:67-68 | the buffer holds exactly the decoded frame |
| Layered.Clamp | main.cpp:13 | the result is within `[lo, hi]`; in-range values pass through; values below go to `lo`, above to `hi` |
| Layered.LayerPixel | main.cpp:64-76 | channel `j` of a layer lands in half slot `3 - j`; slots no channel reaches are 0 |
| Layered.NameBeforeAsymmetric | main.cpp:59 | in `std::string`'s order, by which the layer set is iterated, no two names come before each other |
| Layered.SetOrderDetermined | main.cpp:59 | two layer sequences in set order with the same name set have the same length and the same name at every index |
| Layered.LoadedLayerIndexNamesLayer | main.cpp:58-77 | two images loaded with the same layer names hold the same layer at every layer index |
| Layered.LayerNameSetSize | main.cpp:45-47 | `layerCount` is the number of layers when layer names are distinct |
| Layered.RenderImage.GetPixelPos | main.cpp:29-31 | `(y*width + x)*layerCount + l` is inside the buffer for an existing pixel and layer |
| Layered.RenderImage.PixelPosLayout | main.cpp:29-31 | distinct (x, y, layer) have distinct positions (both directions) |
| Layered.RenderImage.PixelPosCovers | main.cpp:50 | every buffer slot is the position of exactly the pixel and layer its quotient and remainder name |
| Layered.RenderImage.GetPixel | main.cpp:90-99 | an error exactly when the layer index is outside `[0, layerCount)`; otherwise the clamped pixel, and in-range coordinates read their own slot |
| Layered.RenderImage.PixelAt | main.cpp:92-96 | with an existing layer, the clamped read returns a pixel of the buffer, and inside the image the pixel's own |
| Layered.Truncate | main.cpp:114 | the `float` to `int` conversion truncates toward zero |
| Layered.ScaledIndex | main.cpp:114 | a fraction in [0, 1) of a size `n`, scaled and truncated, is an index below `n` |
| Layered.RenderImage.GetNearestNeighbour | main.cpp:113-115 | an error exactly when the layer does not exist; a point of [0, 1) x [0, 1) reads the in-range pixel under it |
| Layered.RenderImage.GetSize | main.cpp:108-111 | width and height are at least 1 and with the layer count span the pixel buffer |
| Layered.RenderImage.GetPixelClamps | main.cpp:92-93 | reading at any coordinates is reading at the clamped coordinates |
| Layered.Load | main.cpp:36-82 | for layers given in the set's iteration order, the loaded image is consistent: window size, the set of layer names, a layer count equal to the number of layers |
| Layered.LoadPixels | main.cpp:58-79 | layer `l` of pixel `p` sits at `p*layerCount + l` and holds that layer's channels in their slots |
| Layered.LoadPlacesChannels | main.cpp:66-74 | slot `3 - j` of layer `l` at (x, y) holds channel `j`'s sample of that pixel |
| Layered.LoadAbgrLayer | main.cpp:66-71 | for a layer iterated as A, B, G, R each channel lands in its namesake field |
| Layered.LoadBgrLayer | main.cpp:66-71 | for a three-channel layer the channels land in a, b, g and red stays 0 |
| Compositor.ScaledSumIsScaledTotal | main.cpp:172-177 | adding `sample*mult` over the images is the total scaled by `mult` |
| Compositor.ScaledSumIsMean | main.cpp:164-178 | with `mult = 1/imageCount` the accumulation is the per-component mean (transparent for no image) |
| Compositor.MergeImages | main.cpp:164-178 | `mergeImage` returns the per-component mean of its input pixels |
| Compositor.MeanOfOne | main.cpp:164-178 | for one image the merged pixel is the input pixel |
| Compositor.MeanOfCopies | main.cpp:164-178 | merging equal pixels gives that pixel |
| Compositor.Over | main.cpp:154-159 | the new alpha is `in.a + a_old*(1 - in.a)` |
| Compositor.Compose | main.cpp:148-161 | the folded alpha depends on the layer alphas only |
| Compositor.ComposeLayers | main.cpp:148-161 | `composeLayers` computes the alpha-over fold, bottom layer first |
| Compositor.ComposablePrefix | main.cpp:153-156 | a fold without zero division on all layers has none on any prefix |
| Compositor.ComposeAlphaIsOpacity | main.cpp:154-155 | the composed alpha is `1 - Π(1 - aᵢ)` |
| Compositor.TransmittanceBounds | main.cpp:154-155 | for alphas in [0, 1] the light passing all layers is in [0, 1] and at most `1 - a₀` |
| Compositor.ComposeAlphaInUnitRange | main.cpp:154-155 | alpha stays in [0, 1] when every layer's alpha does |
| Compositor.ComposableIffBottomVisible | main.cpp:155-156 | for alphas in [0, 1] no step divides by zero exactly when the bottom layer has nonzero alpha |
| Compositor.OpaqueTopCovers | main.cpp:154-159 | an opaque top layer hides everything below it, with its colour squared and alpha 1 |
| Compositor.TwoHalfLayers | main.cpp:150-155 | two layers of alpha 0.5 give alpha 0.75 |
| Compositor.RedUnderGreen | main.cpp:148-161 | red under green, both at alpha 0.5, give `(2/3, 4/3, 0, 0.75)` |
| Compositor.SquaredColourLeavesRange | main.cpp:157 | one red layer at alpha 0.5 composes to red 2, outside [0, 1] |
| Compositor.OverStraight | main.cpp:154-159 | the corrected step keeps the alpha update of the source |
| Compositor.ComposeStraight | main.cpp:148-161 | the corrected fold has the same alpha as the source's fold |
| Compositor.OverStraightInUnitRange | main.cpp:157-159 | one corrected step keeps all components in [0, 1] |
| Compositor.ComposeStraightInUnitRange | main.cpp:148-161 | the corrected fold keeps all components in [0, 1] for inputs in [0, 1] |
| Compositor.SingleLayerIsItself | main.cpp:148-161 | with the corrected step one visible layer composes to itself |
| Merging.RenderedAt | main.cpp:213 | slot `(ix + iy*width)*layerCount + layer` is inside the output and holds the mean of the images' pixel (ix, iy) of that layer |
| Merging.SlotOf | main.cpp:213 | the output slot of (ix, iy, layer) is in range and addresses exactly that pixel and layer |
| Merging.SlotsDistinct | main.cpp:213 | distinct (ix, iy, layer) are written to distinct slots, so each slot is written once |
| Merging.UnionContains | main.cpp:249-250 | every image's layer names are in the union |
| Merging.AllLayersIffSameLayerNames | main.cpp:249-251 | every image has `layerCount` layers exactly when every image carries all layer names of the union |
| Merging.MergeImage.constructor | main.cpp:231-235 | the requested size, no image, no layers, empty output |
| Merging.MergeImage.AddInputImage | main.cpp:244-252 | the size is adopted only while width or height is 0; the image is appended; the layer names become the union and `layerCount` its size; no geometry check |
| Merging.MergeImage.Render | main.cpp:185-228 | a fresh buffer of `width*height*layerCount` pixels; success exactly when the buffer is empty or every image has `layerCount` layers; then every slot holds the mean over the images |
| Merging.RenderRows | main.cpp:201-222 | the row loop fills every slot or reports the missing layer |
| Merging.RenderRow | main.cpp:203-221 | the column loop of one row fills that row's slots |
| Merging.RenderPixel | main.cpp:205-214 | the layer loop of one pixel fills its `layerCount` slots with the merged pixels |
| Merging.GatherColumn | main.cpp:207-210 | the image loop gathers every image's pixel, failing exactly when an image lacks the layer |
| Merging.AllSlotsDone | main.cpp:201-213 | once every slot is written, the output is the rendered buffer |

## Findings

| source | as written | input that shows it | evidently intended | confidence | as-written member | corrected member |
|---|---|---|---|---|---|---|
| main.cpp:157-159 | the layer colour is weighted by itself: `in.r*in.r + out.r*preMul` | one layer `Rgba(1, 0, 0, 0.5)` composes to red 2.0 | straight alpha-over, `in.r*in.a + out.r*preMul`, which keeps colours in [0, 1] and a single layer unchanged | medium, not executed | Compositor.SquaredColourLeavesRange | Compositor.ComposeStraightInUnitRange |

`Compositor.ComposeLayers` and `Compositor.Compose` model the code as
written. `Compositor.ComposeStraight` is the corrected fold. It is proved to
keep components in [0, 1] and to leave a single layer unchanged. The source never calls `composeLayers`: its call site in `render` is
commented out. So no other member depends on either fold.

## Left out

- The OpenEXR codec is left out: `InputFile`, `Header`, `FrameBuffer`/`Slice` construction, `readPixels`/`writePixels` and `OutputFile`. These are calls into a library the model cannot see. A decoded file is a given value, and `ReadPixels` stores it.
- `writeOutputImage` is left out: its `"Fur%i.X"` channel names in an 8-byte buffer and its output slices. It is writer glue.
- Pointer arithmetic in the slices is not modelled: the display-window offset in `RenderImage`'s constructor, and the output slices' strides with the A slice reusing the B offset. Every image is read as if its window started at (0, 0).
- `half` precision and rounding are not modelled. Samples are exact reals.
- `getBilinear` and `getBicubic` are left out: they only throw "not implemented", and nothing calls them.
- `getLayerIndex` is left out: it is a name lookup stub that returns 0, and nothing calls it.
- `getName` and `getLayerNames` are left out: they only return a field.
- Layered.RenderImage.GetNearestNeighbour: `float` rounding of `x * width` is not modelled; the product is exact. Its one call site in `render` is commented out.
- `print`, merge's `main`, argument handling and console output are left out. They are I/O. Of combine's `main`, the loop over the input images is modelled (`CombineImages`); the file names it passes become decoded images.
- `new`/`delete[]`, destructors and the exception types are left out. A throw becomes an error result.
- Layered.LayerPixel: requires at most four channels per layer. With more, the source's slot counter goes negative and its slices point outside the pixel.
- Layered.Load: requires the layers in set order, at most four channels per layer and full sample planes, as the codec delivers them. Slots no channel fills are 0, where the source leaves them uninitialised.
- Layered.Load: when one layer name is a prefix of another (`a` and `a.b`), the codec lists `a.b`'s channels in layer `a` too. The source's frame buffer then keeps only the last slice of each channel name, so layer `a`'s slot for `a.b.R` stays uninitialised. The model takes each decoded layer's channels as given and fills every slot they reach.
- Layered.Load: the `size_t` product `width*height*layerCount` is exact in the model; its wrap-around is not modelled.
- Layered.RenderImage.GetPixelPos: the position is computed in `size_t` and narrowed to the `int` result. Neither wrap-around nor the narrowing is modelled, so the position is exact.
- Merging.MergeImage.Render: the `size_t` product `width*height*layerCount` is exact in the model; its wrap-around is not modelled.
- Merging.MergeImage.constructor: starts `layerCount` at 0, where the source leaves it uninitialised until the first image.
- Accumulator.Combine.AddImage: assumes sizes fit the source's `int`/`size_t`. `width*height*C` overflow is not modelled.
- Accumulator.Combine.AddImage: a slot whose slice a later slice of the same name replaced is never written by `readPixels`. The source leaves it uninitialised; the model holds 0 there.
- Compositor.Compose: requires that no step divides by zero. The source divides by the running alpha unguarded.
- Layers are iterated in the codec's set order. In merge this is the order of the decoded layers, which `Load` requires to be sorted. In combine the given order of the header's layers is used.
- The destination buffer's history is a ghost sequence of frames. This states what the buffer holds, not how `half` accumulates across images.
