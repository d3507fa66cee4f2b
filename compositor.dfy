/**
 * The two per-pixel reductions of the merge tool (main.cpp): `mergeImage`,
 * the mean of one layer's pixel over all input images, and `composeLayers`,
 * an alpha-over fold of the layers of one pixel with a squared colour term.
 */
module Compositor {
  import opened Exr

  function Add(p: Rgba, q: Rgba): Rgba
  {
    Rgba(p.r + q.r, p.g + q.g, p.b + q.b, p.a + q.a)
  }

  function Scale(p: Rgba, m: real): Rgba
  {
    Rgba(p.r * m, p.g * m, p.b * m, p.a * m)
  }

  /** Component-wise sum of the pixels. */
  function Sum(px: seq<Rgba>): Rgba
  {
    if px == [] then Transparent else Add(Sum(px[..|px| - 1]), px[|px| - 1])
  }

  /** Component-wise arithmetic mean of the pixels; the zero pixel when there are none. */
  function Mean(px: seq<Rgba>): Rgba
  {
    if px == [] then Transparent
    else
      var n, s := |px| as real, Sum(px);
      Rgba(s.r / n, s.g / n, s.b / n, s.a / n)
  }

  /** What `mergeImage`'s loop has accumulated after the given images: the sum of `in * mult`. */
  function ScaledSum(px: seq<Rgba>, mult: real): Rgba
  {
    if px == [] then Transparent else Add(ScaledSum(px[..|px| - 1], mult), Scale(px[|px| - 1], mult))
  }

  /** Scaling every term scales the sum. */
  lemma {:induction false} ScaledSumIsScaledTotal(px: seq<Rgba>, mult: real)
    ensures ScaledSum(px, mult) == Scale(Sum(px), mult)
  {
    if px != [] {
      ScaledSumIsScaledTotal(px[..|px| - 1], mult);
    }
  }

  /** Adding up each image's share `in * (1/imageCount)` yields the mean. */
  lemma ScaledSumIsMean(px: seq<Rgba>)
    ensures ScaledSum(px, Reciprocal(|px|)) == Mean(px)
  {
    ScaledSumIsScaledTotal(px, Reciprocal(|px|));
    if px != [] {
      ScaleByReciprocal(Sum(px), |px|);
    }
  }

  lemma ScaleByReciprocal(p: Rgba, n: nat)
    requires n > 0
    ensures Scale(p, Reciprocal(n)) == Rgba(p.r / n as real, p.g / n as real, p.b / n as real, p.a / n as real)
  {
  }

  /**
   * `mergeImage`: starting from `{0, 0, 0, 0}`, add `in[img].c * mult` to
   * each of r, g, b and a for every image, with `mult = 1/imageCount`.
   */
  method MergeImages(inPixel: seq<Rgba>) returns (outPixel: Rgba)
    ensures outPixel == Mean(inPixel)
  {
    var mult := Reciprocal(|inPixel|);
    outPixel := Transparent;
    for img := 0 to |inPixel|
      invariant outPixel == ScaledSum(inPixel[..img], mult)
    {
      assert inPixel[..img + 1][..img] == inPixel[..img];
      outPixel := outPixel.(r := outPixel.r + inPixel[img].r * mult);
      outPixel := outPixel.(g := outPixel.g + inPixel[img].g * mult);
      outPixel := outPixel.(b := outPixel.b + inPixel[img].b * mult);
      outPixel := outPixel.(a := outPixel.a + inPixel[img].a * mult);
    }
    assert inPixel[..|inPixel|] == inPixel;
    ScaledSumIsMean(inPixel);
  }

  /** Merging a single image returns its pixel unchanged. */
  lemma MeanOfOne(p: Rgba)
    ensures Mean([p]) == p
  {
    assert [p][..0] == [];
    assert Sum([p]) == p;
  }

  /** The sum of `n` copies of one pixel. */
  lemma {:induction false} SumOfCopies(px: seq<Rgba>, p: Rgba)
    requires forall i :: 0 <= i < |px| ==> px[i] == p
    ensures Sum(px) == Scale(p, |px| as real)
  {
    if px != [] {
      SumOfCopies(px[..|px| - 1], p);
    }
  }

  /** Merging images that agree at a pixel returns that pixel. */
  lemma MeanOfCopies(px: seq<Rgba>, p: Rgba)
    requires |px| > 0 && forall i :: 0 <= i < |px| ==> px[i] == p
    ensures Mean(px) == p
  {
    SumOfCopies(px, p);
  }

  /** Alpha after placing a layer of alpha `inA` over an accumulated alpha `below`. */
  function OverAlpha(below: real, inA: real): real
  {
    inA + below * (1.0 - inA)
  }

  /**
   * One step of `composeLayers`:
   * `a := in.a + a*(1 - in.a)` and `c := (in.c*in.c + c*a_old*(1 - in.a)) / a`.
   * The source divides without a check, so the new alpha must not be zero.
   */
  function Over(acc: Rgba, layer: Rgba): (o: Rgba)
    requires OverAlpha(acc.a, layer.a) != 0.0
    ensures o.a == OverAlpha(acc.a, layer.a)
  {
    var preMul := acc.a * (1.0 - layer.a);
    var a := layer.a + preMul;
    Rgba((layer.r * layer.r + acc.r * preMul) / a,
         (layer.g * layer.g + acc.g * preMul) / a,
         (layer.b * layer.b + acc.b * preMul) / a,
         a)
  }

  /** The alpha `composeLayers` reaches after the given layers; it depends on the alphas only. */
  function ComposeAlpha(layers: seq<Rgba>): real
  {
    if layers == [] then 0.0 else OverAlpha(ComposeAlpha(layers[..|layers| - 1]), layers[|layers| - 1].a)
  }

  /** No step of the fold divides by zero. */
  predicate Composable(layers: seq<Rgba>)
  {
    forall k :: 0 < k <= |layers| ==> ComposeAlpha(layers[..k]) != 0.0
  }

  lemma ComposablePrefix(layers: seq<Rgba>, k: nat)
    requires Composable(layers) && k <= |layers|
    ensures Composable(layers[..k])
  {
    forall i | 0 < i <= k ensures ComposeAlpha(layers[..k][..i]) != 0.0 {
      assert layers[..k][..i] == layers[..i];
    }
  }

  /** The fold `composeLayers` computes, bottom layer first. */
  function Compose(layers: seq<Rgba>): (o: Rgba)
    requires Composable(layers)
    ensures o.a == ComposeAlpha(layers)
  {
    if layers == [] then Transparent
    else
      var n := |layers| - 1;
      ComposablePrefix(layers, n);
      assert layers[..n + 1] == layers;
      Over(Compose(layers[..n]), layers[n])
  }

  /** `composeLayers`, written as in the source with `preMul` and `div`. */
  method ComposeLayers(inPixel: seq<Rgba>) returns (outPixel: Rgba)
    requires Composable(inPixel)
    ensures outPixel == Compose(inPixel)
  {
    outPixel := Transparent;
    for layer := 0 to |inPixel|
      invariant Composable(inPixel[..layer])
      invariant outPixel == Compose(inPixel[..layer])
    {
      ComposablePrefix(inPixel, layer + 1);
      assert inPixel[..layer + 1][..layer] == inPixel[..layer];
      var preMul := outPixel.a * (1.0 - inPixel[layer].a);
      outPixel := outPixel.(a := inPixel[layer].a + preMul);
      var div := 1.0 / outPixel.a;
      outPixel := outPixel.(r := (inPixel[layer].r * inPixel[layer].r + outPixel.r * preMul) * div);
      outPixel := outPixel.(g := (inPixel[layer].g * inPixel[layer].g + outPixel.g * preMul) * div);
      outPixel := outPixel.(b := (inPixel[layer].b * inPixel[layer].b + outPixel.b * preMul) * div);
    }
    assert inPixel[..|inPixel|] == inPixel;
  }

  /** The light that passes all layers: the product of `1 - a` over the layers. */
  function Transmittance(layers: seq<Rgba>): real
  {
    if layers == [] then 1.0 else Transmittance(layers[..|layers| - 1]) * (1.0 - layers[|layers| - 1].a)
  }

  /** The composed alpha is one minus the transmittance: alpha-over is associative in alpha. */
  lemma {:induction false} ComposeAlphaIsOpacity(layers: seq<Rgba>)
    ensures ComposeAlpha(layers) == 1.0 - Transmittance(layers)
  {
    if layers != [] {
      var init, last := layers[..|layers| - 1], layers[|layers| - 1];
      ComposeAlphaIsOpacity(init);
      var t := Transmittance(init);
      calc {
        ComposeAlpha(layers);
        last.a + (1.0 - t) * (1.0 - last.a);
        1.0 - t * (1.0 - last.a);
      }
    }
  }

  ghost predicate AlphasInUnitRange(layers: seq<Rgba>)
  {
    forall i :: 0 <= i < |layers| ==> 0.0 <= layers[i].a <= 1.0
  }

  /** With alphas in [0, 1] the transmittance lies in [0, 1] and below one minus the bottom alpha. */
  lemma {:induction false} TransmittanceBounds(layers: seq<Rgba>)
    requires AlphasInUnitRange(layers)
    ensures 0.0 <= Transmittance(layers) <= 1.0
    ensures layers != [] ==> Transmittance(layers) <= 1.0 - layers[0].a
  {
    if layers != [] {
      var init, last := layers[..|layers| - 1], layers[|layers| - 1];
      assert AlphasInUnitRange(init) by {
        forall i | 0 <= i < |init| ensures 0.0 <= init[i].a <= 1.0 {
          assert init[i] == layers[i];
        }
      }
      TransmittanceBounds(init);
      var t := Transmittance(init);
      assert Transmittance(layers) == t * (1.0 - last.a);
      AttenuationBounds(t, 1.0 - last.a);
      if init == [] {
        assert last == layers[0];
      } else {
        assert init[0] == layers[0];
      }
    }
  }

  lemma AttenuationBounds(t: real, f: real)
    requires 0.0 <= t && 0.0 <= f <= 1.0
    ensures 0.0 <= t * f <= t
  {
  }

  /** Alpha stays in [0, 1] when every layer's alpha does. */
  lemma ComposeAlphaInUnitRange(layers: seq<Rgba>)
    requires AlphasInUnitRange(layers)
    ensures 0.0 <= ComposeAlpha(layers) <= 1.0
  {
    ComposeAlphaIsOpacity(layers);
    TransmittanceBounds(layers);
  }

  /**
   * With alphas in [0, 1], the fold never divides by zero exactly when the
   * bottom layer is not fully transparent (or there are no layers).
   */
  lemma ComposableIffBottomVisible(layers: seq<Rgba>)
    requires AlphasInUnitRange(layers)
    ensures Composable(layers) <==> layers == [] || layers[0].a > 0.0
  {
    if layers != [] {
      assert layers[..1][..0] == [];
      assert ComposeAlpha(layers[..1]) == layers[0].a;
      if layers[0].a > 0.0 {
        forall k | 0 < k <= |layers| ensures ComposeAlpha(layers[..k]) != 0.0 {
          var prefix := layers[..k];
          assert AlphasInUnitRange(prefix) by {
            forall i | 0 <= i < k ensures 0.0 <= prefix[i].a <= 1.0 {
              assert prefix[i] == layers[i];
            }
          }
          assert prefix[0] == layers[0];
          TransmittanceBounds(prefix);
          ComposeAlphaIsOpacity(prefix);
        }
      }
    }
  }

  /** A fully opaque top layer hides everything below it, with its colour squared. */
  lemma OpaqueTopCovers(below: seq<Rgba>, top: Rgba)
    requires top.a == 1.0 && Composable(below + [top])
    ensures Compose(below + [top]) == Rgba(top.r * top.r, top.g * top.g, top.b * top.b, 1.0)
  {
  }

  /** Two layers of alpha 0.5 give alpha 0.75. */
  lemma TwoHalfLayers(bottom: Rgba, top: Rgba)
    requires bottom.a == 0.5 && top.a == 0.5
    ensures ComposeAlpha([bottom, top]) == 0.75
  {
    assert [bottom, top][..1] == [bottom];
    assert [bottom][..0] == [];
    assert ComposeAlpha([bottom]) == 0.5;
  }

  /**
   * Red at alpha 0.5 under green at alpha 0.5: alpha 0.75; the squared
   * colour term and the division by the running alpha give r = 2/3 and g = 4/3.
   */
  lemma RedUnderGreen()
    ensures Composable([Rgba(1.0, 0.0, 0.0, 0.5), Rgba(0.0, 1.0, 0.0, 0.5)])
    ensures Compose([Rgba(1.0, 0.0, 0.0, 0.5), Rgba(0.0, 1.0, 0.0, 0.5)]) == Rgba(2.0 / 3.0, 4.0 / 3.0, 0.0, 0.75)
  {
  }

  /** A layer written as `composeLayers` squares its colour: one red layer at alpha 0.5 gives red 2. */
  lemma SquaredColourLeavesRange()
    ensures Composable([Rgba(1.0, 0.0, 0.0, 0.5)])
    ensures Compose([Rgba(1.0, 0.0, 0.0, 0.5)]).r == 2.0
  {
    var red := Rgba(1.0, 0.0, 0.0, 0.5);
    assert [red][..1] == [red];
    assert [red][..0] == [];
    assert ComposeAlpha([red]) == 0.5;
    assert Compose([red]) == Over(Transparent, red);
    assert (1.0 * 1.0 + 0.0 * 0.0) / 0.5 == 2.0;
  }

  /** Every component lies in [0, 1]. */
  ghost predicate UnitRgba(p: Rgba)
  {
    0.0 <= p.r <= 1.0 && 0.0 <= p.g <= 1.0 && 0.0 <= p.b <= 1.0 && 0.0 <= p.a <= 1.0
  }

  /**
   * The alpha-over step `composeLayers` evidently means: the new layer's
   * colour weighted by its alpha, `c := (in.c*in.a + c*a_old*(1 - in.a)) / a`.
   */
  function OverStraight(acc: Rgba, layer: Rgba): (o: Rgba)
    requires OverAlpha(acc.a, layer.a) != 0.0
    ensures o.a == OverAlpha(acc.a, layer.a)
  {
    Rgba(OverChannel(layer.r, acc.r, layer.a, acc.a),
         OverChannel(layer.g, acc.g, layer.a, acc.a),
         OverChannel(layer.b, acc.b, layer.a, acc.a),
         OverAlpha(acc.a, layer.a))
  }

  /** One colour component of the corrected step: `(c*inA + below*belowA*(1 - inA)) / a`. */
  function OverChannel(c: real, below: real, inA: real, belowA: real): real
    requires OverAlpha(belowA, inA) != 0.0
  {
    var preMul := belowA * (1.0 - inA);
    (c * inA + below * preMul) / (inA + preMul)
  }

  /** The corrected fold, bottom layer first. */
  function ComposeStraight(layers: seq<Rgba>): (o: Rgba)
    requires Composable(layers)
    ensures o.a == ComposeAlpha(layers)
  {
    if layers == [] then Transparent
    else
      var n := |layers| - 1;
      ComposablePrefix(layers, n);
      assert layers[..n + 1] == layers;
      OverStraight(ComposeStraight(layers[..n]), layers[n])
  }

  /** A weighted mean of two values in [0, 1] lies in [0, 1]. */
  lemma ConvexMix(x: real, y: real, u: real, v: real)
    requires 0.0 <= x <= 1.0 && 0.0 <= y <= 1.0 && 0.0 <= u && 0.0 <= v && u + v > 0.0
    ensures 0.0 <= (x * u + y * v) / (u + v) <= 1.0
  {
    WeightedSumWithin(x, y, u, v);
    QuotientInUnitRange(x * u + y * v, u + v);
  }

  lemma WeightedSumWithin(x: real, y: real, u: real, v: real)
    requires 0.0 <= x <= 1.0 && 0.0 <= y <= 1.0 && 0.0 <= u && 0.0 <= v
    ensures 0.0 <= x * u + y * v <= u + v
  {
    ProductNonnegative(x, u);
    ProductNonnegative(y, v);
    ProductNonnegative(1.0 - x, u);
    ProductNonnegative(1.0 - y, v);
    assert u - x * u == (1.0 - x) * u;
    assert v - y * v == (1.0 - y) * v;
  }

  lemma ProductNonnegative(a: real, b: real)
    requires 0.0 <= a && 0.0 <= b
    ensures 0.0 <= a * b
  {
  }

  /** A quotient of a nonnegative value by a value at least as large is in [0, 1]. */
  lemma QuotientInUnitRange(n: real, d: real)
    requires 0.0 <= n <= d && d > 0.0
    ensures 0.0 <= n / d <= 1.0
  {
  }

  /** One colour component of a corrected step stays in [0, 1]. */
  lemma OverChannelInUnitRange(c: real, below: real, inA: real, belowA: real)
    requires 0.0 <= c <= 1.0 && 0.0 <= below <= 1.0 && 0.0 <= inA <= 1.0 && 0.0 <= belowA <= 1.0
    requires OverAlpha(belowA, inA) != 0.0
    ensures 0.0 <= OverChannel(c, below, inA, belowA) <= 1.0
  {
    var preMul := belowA * (1.0 - inA);
    ProductNonnegative(belowA, 1.0 - inA);
    ConvexMix(c, below, inA, preMul);
    assert OverChannel(c, below, inA, belowA) == (c * inA + below * preMul) / (inA + preMul);
  }

  /** Alpha-over of alphas in [0, 1] stays in [0, 1]. */
  lemma OverAlphaInUnitRange(below: real, inA: real)
    requires 0.0 <= below <= 1.0 && 0.0 <= inA <= 1.0
    ensures 0.0 <= OverAlpha(below, inA) <= 1.0
  {
    WeightedSumWithin(1.0, below, inA, 1.0 - inA);
  }

  /** One corrected step keeps every component in [0, 1]. */
  lemma OverStraightInUnitRange(acc: Rgba, layer: Rgba)
    requires UnitRgba(acc) && UnitRgba(layer) && OverAlpha(acc.a, layer.a) != 0.0
    ensures UnitRgba(OverStraight(acc, layer))
  {
    OverChannelInUnitRange(layer.r, acc.r, layer.a, acc.a);
    OverChannelInUnitRange(layer.g, acc.g, layer.a, acc.a);
    OverChannelInUnitRange(layer.b, acc.b, layer.a, acc.a);
    OverAlphaInUnitRange(acc.a, layer.a);
  }

  /** With the corrected step, layers with components in [0, 1] compose to a pixel with components in [0, 1]. */
  lemma {:induction false} ComposeStraightInUnitRange(layers: seq<Rgba>)
    requires Composable(layers) && forall i :: 0 <= i < |layers| ==> UnitRgba(layers[i])
    ensures UnitRgba(ComposeStraight(layers))
  {
    if layers != [] {
      var n := |layers| - 1;
      ComposablePrefix(layers, n);
      ComposeStraightInUnitRange(layers[..n]);
      assert layers[..n + 1] == layers;
      OverStraightInUnitRange(ComposeStraight(layers[..n]), layers[n]);
    }
  }

  /** With the corrected step a single visible layer composes to itself. */
  lemma SingleLayerIsItself(p: Rgba)
    requires p.a != 0.0
    ensures Composable([p]) && ComposeStraight([p]) == p
  {
  }
}
