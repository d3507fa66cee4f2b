/**
 * The input image of the merge tool (class `RenderImage` of main.cpp): a flat
 * buffer of `Rgba` values, one per pixel and layer, loaded once when the file
 * is opened and only read afterwards.
 */
module Layered {
  import opened Results
  import opened Exr
  import opened Indexing

  /** A decoded channel: its component name (the part after the layer name) and its samples, row by row. */
  datatype Channel = Channel(component: string, samples: seq<real>)

  /** A decoded layer: its name and its channels in channel-list order. */
  datatype DecodedLayer = DecodedLayer(name: string, channels: seq<Channel>)

  /** The error `getPixel` throws for a layer index the image does not have. */
  datatype LayerError = NoSuchLayer

  /** The `CLAMP(x, min_x, max_x)` macro. */
  function Clamp(x: int, lo: int, hi: int): (c: int)
    ensures lo <= hi ==> lo <= c <= hi
    ensures lo <= x <= hi ==> c == x
    ensures x < lo ==> c == lo
    ensures lo <= hi < x ==> c == hi
  {
    if x < lo then lo else if x > hi then hi else x
  }

  /**
   * The `Rgba` of one layer at pixel `p` after `readPixels`: the `j`-th
   * channel of the layer is read into half slot `3 - j` (the counter `chan`
   * starts at 4 and drops by one per channel). Slots no channel reaches are
   * modelled as 0.
   */
  function LayerPixel(channels: seq<Channel>, p: nat): (px: Rgba)
    requires |channels| <= 4
    requires forall j :: 0 <= j < |channels| ==> p < |channels[j].samples|
    ensures forall j :: 0 <= j < |channels| ==> Slot(px, 3 - j) == channels[j].samples[p]
    ensures forall s: nat :: s < 4 - |channels| ==> Slot(px, s) == 0.0
  {
    if channels == [] then Transparent
    else
      var j := |channels| - 1;
      WithSlot(LayerPixel(channels[..j], p), 3 - j, channels[j].samples[p])
  }

  /** The conversion of a `float` to `int`: truncation toward zero. */
  function Truncate(r: real): (i: int)
    ensures 0.0 <= r ==> 0 <= i && i as real <= r < i as real + 1.0
    ensures r < 0.0 ==> i <= 0 && i as real - 1.0 < r <= i as real
  {
    if r >= 0.0 then r.Floor else -((-r).Floor)
  }

  /** `x * n` converted to `int`; a fraction in [0, 1) of a size `n` gives an index below `n`. */
  function ScaledIndex(x: real, n: nat): (i: int)
    ensures 0.0 <= x < 1.0 && n >= 1 ==> 0 <= i < n
  {
    if 0.0 <= x < 1.0 && n >= 1 then
      assert x * n as real < n as real by {
        assert (1.0 - x) * n as real > 0.0;
      }
      Truncate(x * n as real)
    else
      Truncate(x * n as real)
  }

  /** The set of layer names of a decoded file. */
  function LayerNameSet(layers: seq<DecodedLayer>): set<string>
  {
    set l | l in layers :: l.name
  }

  /**
   * `std::string`'s `operator<`, the order in which a `set<string>` is
   * iterated: lexicographic on the characters, a proper prefix first.
   */
  predicate NameBefore(a: string, b: string)
  {
    if a == [] then b != []
    else b != [] && (a[0] < b[0] || (a[0] == b[0] && NameBefore(a[1..], b[1..])))
  }

  /** No two names come before each other; in particular no name comes before itself. */
  lemma {:induction false} NameBeforeAsymmetric(a: string, b: string)
    ensures !(NameBefore(a, b) && NameBefore(b, a))
  {
    if a != [] && b != [] && a[0] == b[0] {
      NameBeforeAsymmetric(a[1..], b[1..]);
    }
  }

  /** The layers come in the iteration order of the set of their names. */
  predicate InSetOrder(layers: seq<DecodedLayer>)
  {
    forall l, l' :: 0 <= l < l' < |layers| ==> NameBefore(layers[l].name, layers[l'].name)
  }

  /** Layers in set order have pairwise distinct names. */
  lemma SetOrderDistinct(layers: seq<DecodedLayer>)
    requires InSetOrder(layers)
    ensures forall l, l' :: 0 <= l < l' < |layers| ==> layers[l].name != layers[l'].name
  {
    forall l, l' | 0 <= l < l' < |layers| ensures layers[l].name != layers[l'].name {
      NameBeforeAsymmetric(layers[l].name, layers[l'].name);
    }
  }

  /**
   * The layers in set order, each of at most four channels of `pixelCount`
   * samples.
   */
  predicate Loadable(layers: seq<DecodedLayer>, pixelCount: nat)
  {
    InSetOrder(layers) &&
    (forall l :: 0 <= l < |layers| ==> |layers[l].channels| <= 4) &&
    (forall l, j :: 0 <= l < |layers| && 0 <= j < |layers[l].channels| ==>
       |layers[l].channels[j].samples| == pixelCount)
  }

  /** Distinct layer names make as many set members as there are layers. */
  lemma {:induction false} LayerNameSetSize(layers: seq<DecodedLayer>)
    requires forall l, l' :: 0 <= l < l' < |layers| ==> layers[l].name != layers[l'].name
    ensures |LayerNameSet(layers)| == |layers|
  {
    if layers != [] {
      var init := layers[..|layers| - 1];
      var last := layers[|layers| - 1];
      LayerNameSetSize(init);
      assert LayerNameSet(layers) == LayerNameSet(init) + {last.name} by {
        assert forall l :: l in layers ==> l in init || l == last;
      }
      assert last.name !in LayerNameSet(init) by {
        forall l | l in init ensures l.name != last.name {
          var i :| 0 <= i < |init| && init[i] == l;
          assert layers[i] == l;
        }
      }
    }
  }

  /** Removing the first of the layers in set order removes exactly its name from the name set. */
  lemma SetOrderTail(layers: seq<DecodedLayer>)
    requires InSetOrder(layers) && layers != []
    ensures InSetOrder(layers[1..])
    ensures LayerNameSet(layers[1..]) == LayerNameSet(layers) - {layers[0].name}
  {
    SetOrderDistinct(layers);
    var tail := layers[1..];
    forall x | x in LayerNameSet(layers) - {layers[0].name} ensures x in LayerNameSet(tail) {
      var l :| l in layers && l.name == x;
      var i :| 0 <= i < |layers| && layers[i] == l;
      assert tail[i - 1] == l;
    }
    forall x | x in LayerNameSet(tail) ensures x in LayerNameSet(layers) - {layers[0].name} {
      var l :| l in tail && l.name == x;
      var i :| 0 <= i < |tail| && tail[i] == l;
      assert layers[i + 1] == l;
    }
  }

  /**
   * The set order is determined by the set: two layer sequences in set order
   * with the same names have the same name at every index.
   */
  lemma {:induction false} SetOrderDetermined(a: seq<DecodedLayer>, b: seq<DecodedLayer>)
    requires InSetOrder(a) && InSetOrder(b) && LayerNameSet(a) == LayerNameSet(b)
    ensures |a| == |b| && forall l :: 0 <= l < |a| ==> a[l].name == b[l].name
  {
    SetOrderDistinct(a);
    SetOrderDistinct(b);
    LayerNameSetSize(a);
    LayerNameSetSize(b);
    if a != [] {
      assert b[0].name in LayerNameSet(a);
      var la :| la in a && la.name == b[0].name;
      var i :| 0 <= i < |a| && a[i] == la;
      assert a[0].name in LayerNameSet(b);
      var lb :| lb in b && lb.name == a[0].name;
      var j :| 0 <= j < |b| && b[j] == lb;
      if i > 0 && j > 0 {
        NameBeforeAsymmetric(a[0].name, b[0].name);
      }
      assert a[0].name == b[0].name;
      SetOrderTail(a);
      SetOrderTail(b);
      SetOrderDetermined(a[1..], b[1..]);
      forall l | 0 <= l < |a| ensures a[l].name == b[l].name {
        if l > 0 {
          assert a[l] == a[1..][l - 1] && b[l] == b[1..][l - 1];
        }
      }
    }
  }

  /** A loaded input image of the merge tool. */
  datatype RenderImage = RenderImage(
    name: string,
    layerNames: set<string>,
    layerCount: nat,
    width: nat,
    height: nat,
    pixelArraySize: nat,
    pixels: seq<Rgba>)
  {
    predicate Valid()
    {
      layerCount == |layerNames| && width >= 1 && height >= 1 &&
      pixelArraySize == width * height * layerCount && |pixels| == pixelArraySize
    }

    /**
     * `getPixelPos`: layer `l` of pixel (x, y) sits at `(y*width + x)*layerCount + l`,
     * inside the buffer whenever the pixel and the layer exist.
     */
    function GetPixelPos(x: int, y: int, layerIndex: int): (pos: int)
      ensures Valid() && 0 <= x < width && 0 <= y < height && 0 <= layerIndex < layerCount ==>
                0 <= pos < pixelArraySize
    {
      var pos := Flat(Flat(y, x, width), layerIndex, layerCount);
      if Valid() && 0 <= x < width && 0 <= y < height && 0 <= layerIndex < layerCount then
        FlatBounds(y, x, width, height);
        assert height * width == width * height;
        FlatBounds(Flat(y, x, width), layerIndex, layerCount, width * height);
        pos
      else
        pos
    }

    /**
     * `getPixel` once the layer index is known to exist: the coordinates are
     * clamped into the image, so some pixel of the buffer is read, and inside
     * the image it is the pixel's own.
     */
    function PixelAt(x: int, y: int, layerIndex: nat): (px: Rgba)
      requires Valid() && layerIndex < layerCount
      ensures px in pixels
      ensures 0 <= x < width && 0 <= y < height ==>
                0 <= GetPixelPos(x, y, layerIndex) < |pixels| && px == pixels[GetPixelPos(x, y, layerIndex)]
    {
      pixels[GetPixelPos(Clamp(x, 0, width - 1), Clamp(y, 0, height - 1), layerIndex)]
    }

    /**
     * `getPixel`: reads the pixel at the clamped coordinates, or fails when
     * the layer index is outside `[0, layerCount)`.
     */
    function GetPixel(x: int, y: int, layerIndex: int): (r: Result<Rgba, LayerError>)
      requires Valid()
      ensures r.Ok? <==> 0 <= layerIndex < layerCount
      ensures r.Ok? && 0 <= x < width && 0 <= y < height ==>
                0 <= GetPixelPos(x, y, layerIndex) < |pixels| && r.value == pixels[GetPixelPos(x, y, layerIndex)]
    {
      if 0 <= layerIndex < layerCount then
        Ok(PixelAt(x, y, layerIndex))
      else
        Err(NoSuchLayer)
    }

    /**
     * `getNearestNeighbour`: coordinates relative to the image size are
     * scaled by width and height and converted to `int`; a point of
     * [0, 1) x [0, 1) reads the pixel under it.
     */
    function GetNearestNeighbour(x: real, y: real, layerIndex: nat): (r: Result<Rgba, LayerError>)
      requires Valid()
      ensures r.Ok? <==> layerIndex < layerCount
      ensures r.Ok? && 0.0 <= x < 1.0 && 0.0 <= y < 1.0 ==>
                var px, py := ScaledIndex(x, width), ScaledIndex(y, height);
                0 <= px < width && 0 <= py < height && r.value == pixels[GetPixelPos(px, py, layerIndex)]
    {
      GetPixel(ScaledIndex(x, width), ScaledIndex(y, height), layerIndex)
    }

    /** `getSize`: the width and height, which with the layer count span the pixel buffer. */
    function GetSize(): (size: (nat, nat))
      ensures Valid() ==> size.0 >= 1 && size.1 >= 1 && size.0 * size.1 * layerCount == |pixels|
    {
      (width, height)
    }

    /** Distinct (x, y, layer) triples inside the image have distinct positions. */
    lemma PixelPosLayout(x: int, y: int, l: int, x': int, y': int, l': int)
      requires Valid()
      requires 0 <= x < width && 0 <= y < height && 0 <= l < layerCount
      requires 0 <= x' < width && 0 <= y' < height && 0 <= l' < layerCount
      ensures GetPixelPos(x, y, l) == GetPixelPos(x', y', l') <==> x == x' && y == y' && l == l'
    {
      if GetPixelPos(x, y, l) == GetPixelPos(x', y', l') {
        FlatInjective(Flat(y, x, width), l, Flat(y', x', width), l', layerCount);
        FlatInjective(y, x, y', x', width);
      }
    }

    /** Every position of the buffer is the position of some pixel and layer. */
    lemma PixelPosCovers(k: int)
      requires Valid() && 0 <= k < pixelArraySize
      ensures var l, p := k % layerCount, k / layerCount;
              0 <= p % width < width && 0 <= p / width < height && 0 <= l < layerCount &&
              k == GetPixelPos(p % width, p / width, l)
    {
      assert width * height * layerCount == layerCount * (width * height);
      FlatCovers(k, layerCount, width * height);
      var p := k / layerCount;
      assert width * height == height * width;
      FlatCovers(p, width, height);
    }

    /** Outside the image `getPixel` reads the nearest edge pixel. */
    lemma GetPixelClamps(x: int, y: int, layerIndex: int)
      requires Valid()
      ensures GetPixel(x, y, layerIndex) == GetPixel(Clamp(x, 0, width - 1), Clamp(y, 0, height - 1), layerIndex)
    {
    }
  }

  /**
   * The constructor of `RenderImage` with the decoded contents of the file:
   * the size comes from the display window, the layers from the channel
   * list, and layer `l` of pixel `p` holds that layer's channels as
   * `LayerPixel` places them.
   */
  function Load(name: string, window: Window, layers: seq<DecodedLayer>): (img: RenderImage)
    requires window.Valid() && Loadable(layers, window.Width() * window.Height())
    ensures img.Valid()
    ensures img.name == name && img.layerNames == LayerNameSet(layers) && img.layerCount == |layers|
    ensures img.width == window.Width() && img.height == window.Height()
  {
    var w, h, n := window.Width(), window.Height(), |layers|;
    SetOrderDistinct(layers);
    LayerNameSetSize(layers);
    RenderImage(name, LayerNameSet(layers), n, w, h, w * h * n, LoadPixels(layers, w * h))
  }

  /** The pixel buffer `readPixels` fills: entry `p*layerCount + l` is layer `l` of pixel `p`. */
  function LoadPixels(layers: seq<DecodedLayer>, pixelCount: nat): (pixels: seq<Rgba>)
    requires Loadable(layers, pixelCount)
    ensures |pixels| == pixelCount * |layers|
    ensures forall p, l :: 0 <= p < pixelCount && 0 <= l < |layers| ==>
              0 <= Flat(p, l, |layers|) < |pixels| &&
              pixels[Flat(p, l, |layers|)] == LayerPixel(layers[l].channels, p)
  {
    var n := |layers|;
    var pixels :=
      if n == 0 then []
      else seq(pixelCount * n, k requires 0 <= k < pixelCount * n =>
             assert n * pixelCount == pixelCount * n;
             FlatCovers(k, n, pixelCount);
             LayerPixel(layers[k % n].channels, k / n));
    assert forall p, l :: 0 <= p < pixelCount && 0 <= l < n ==>
              0 <= Flat(p, l, n) < |pixels| &&
              pixels[Flat(p, l, n)] == LayerPixel(layers[l].channels, p) by {
      forall p, l | 0 <= p < pixelCount && 0 <= l < n
        ensures 0 <= Flat(p, l, n) < |pixels| && pixels[Flat(p, l, n)] == LayerPixel(layers[l].channels, p)
      {
        FlatBounds(p, l, n, pixelCount);
        FlatInverse(p, l, n);
      }
    }
    pixels
  }

  /**
   * Two images loaded with the same set of layer names hold the same layer
   * at every layer index.
   */
  lemma LoadedLayerIndexNamesLayer(name: string, window: Window, layers: seq<DecodedLayer>,
                                   name': string, window': Window, layers': seq<DecodedLayer>, l: int)
    requires window.Valid() && Loadable(layers, window.Width() * window.Height())
    requires window'.Valid() && Loadable(layers', window'.Width() * window'.Height())
    requires Load(name, window, layers).layerNames == Load(name', window', layers').layerNames
    requires 0 <= l < Load(name, window, layers).layerCount
    ensures l < Load(name', window', layers').layerCount && layers[l].name == layers'[l].name
  {
    SetOrderDetermined(layers, layers');
  }

  /**
   * After loading, half slot `3 - j` of layer `l` at (x, y) holds the
   * sample of the layer's `j`-th channel at (x, y).
   */
  lemma LoadPlacesChannels(name: string, window: Window, layers: seq<DecodedLayer>, x: int, y: int, l: int, j: int)
    requires window.Valid() && Loadable(layers, window.Width() * window.Height())
    requires 0 <= x < window.Width() && 0 <= y < window.Height() && 0 <= l < |layers|
    requires 0 <= j < |layers[l].channels|
    ensures var img := Load(name, window, layers);
            0 <= y * img.width + x < img.width * img.height &&
            0 <= img.GetPixelPos(x, y, l) < |img.pixels| &&
            Slot(img.pixels[img.GetPixelPos(x, y, l)], 3 - j) == layers[l].channels[j].samples[y * img.width + x]
  {
    var w, h := window.Width(), window.Height();
    var img := Load(name, window, layers);
    assert img.pixels == LoadPixels(layers, w * h);
    var p := Flat(y, x, w);
    FlatBounds(y, x, w, h);
    assert h * w == w * h;
    assert 0 <= p < w * h;
    assert img.GetPixelPos(x, y, l) == Flat(p, l, |layers|);
    var px := LayerPixel(layers[l].channels, p);
    assert img.pixels[Flat(p, l, |layers|)] == px;
    assert Slot(px, 3 - j) == layers[l].channels[j].samples[p];
  }

  /**
   * A layer whose channels are listed as A, B, G, R (the channel list is
   * sorted by name) has every channel in its namesake field.
   */
  lemma LoadAbgrLayer(name: string, window: Window, layers: seq<DecodedLayer>, x: int, y: int, l: int)
    requires window.Valid() && Loadable(layers, window.Width() * window.Height())
    requires 0 <= x < window.Width() && 0 <= y < window.Height() && 0 <= l < |layers|
    requires |layers[l].channels| == 4
    requires layers[l].channels[0].component == "A" && layers[l].channels[1].component == "B"
    requires layers[l].channels[2].component == "G" && layers[l].channels[3].component == "R"
    ensures var img := Load(name, window, layers);
            var p := y * img.width + x;
            0 <= p < img.width * img.height &&
            0 <= img.GetPixelPos(x, y, l) < |img.pixels| &&
            img.pixels[img.GetPixelPos(x, y, l)] ==
              Rgba(layers[l].channels[3].samples[p], layers[l].channels[2].samples[p],
                   layers[l].channels[1].samples[p], layers[l].channels[0].samples[p])
  {
    LoadPlacesChannels(name, window, layers, x, y, l, 0);
    LoadPlacesChannels(name, window, layers, x, y, l, 1);
    LoadPlacesChannels(name, window, layers, x, y, l, 2);
    LoadPlacesChannels(name, window, layers, x, y, l, 3);
  }

  /**
   * A layer of three channels listed as B, G, R (no alpha) is shifted by
   * one slot: R lands in `g`, G in `b` and B in `a`, and `r` is not written.
   */
  lemma LoadBgrLayer(name: string, window: Window, layers: seq<DecodedLayer>, x: int, y: int, l: int)
    requires window.Valid() && Loadable(layers, window.Width() * window.Height())
    requires 0 <= x < window.Width() && 0 <= y < window.Height() && 0 <= l < |layers|
    requires |layers[l].channels| == 3
    ensures var img := Load(name, window, layers);
            var p := y * img.width + x;
            0 <= p < img.width * img.height &&
            0 <= img.GetPixelPos(x, y, l) < |img.pixels| &&
            img.pixels[img.GetPixelPos(x, y, l)] ==
              Rgba(0.0, layers[l].channels[2].samples[p],
                   layers[l].channels[1].samples[p], layers[l].channels[0].samples[p])
  {
    var w, h := window.Width(), window.Height();
    var img := Load(name, window, layers);
    var p := Flat(y, x, w);
    FlatBounds(y, x, w, h);
    assert h * w == w * h;
    assert img.GetPixelPos(x, y, l) == Flat(p, l, |layers|);
    var chans := layers[l].channels;
    var px := LayerPixel(chans, p);
    assert img.pixels[Flat(p, l, |layers|)] == px;
    assert Slot(px, 0) == 0.0;
    assert Slot(px, 1) == chans[2].samples[p];
    assert Slot(px, 2) == chans[1].samples[p];
    assert Slot(px, 3) == chans[0].samples[p];
  }
}
