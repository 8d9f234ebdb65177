/**
 * The transfer-function knot lists of the attribution heatmap and of its colour
 * legend (`createHeatmapVolume` and `createColorScale` in index.js), with the
 * knot positions as exact reals. Each list is the sequence of points added to
 * the engine's transfer function, in the order they are added.
 */
module Heatmap {
  import opened Render
  import AttributionMax

  datatype ColorKnot = ColorKnot(value: real, color: Rgb)
  datatype OpacityKnot = OpacityKnot(value: real, opacity: real)

  /** The volume's colour and opacity transfer functions. */
  datatype TransferFunction = TransferFunction(colors: seq<ColorKnot>, opacities: seq<OpacityKnot>)

  /** The transfer functions `createHeatmapVolume(attr, maxAttr)` installs. */
  function HeatmapTransfer(maxAttr: real): (t: TransferFunction)
    ensures |t.colors| == 2 && |t.opacities| == 5
  {
    TransferFunction(
      [ColorKnot(0.0, Black), ColorKnot(maxAttr, Red)],
      [ OpacityKnot(0.0, 0.0),
        OpacityKnot(maxAttr * 0.1, 0.0),
        OpacityKnot(maxAttr * 0.25, 0.5),
        OpacityKnot(maxAttr * 0.3, 0.9),
        OpacityKnot(maxAttr, 1.0) ])
  }

  /** The lookup table `createColorScale(maxAttr)` builds and hands to the scalar bar. */
  function ColorScale(maxAttr: real): (lut: seq<ColorKnot>)
    ensures |lut| == 2
  {
    [ColorKnot(0.0, Black), ColorKnot(maxAttr, Red)]
  }

  predicate ValuesNonDecreasing(knots: seq<OpacityKnot>)
  {
    forall p, q :: 0 <= p < q < |knots| ==> knots[p].value <= knots[q].value
  }

  predicate OpacitiesNonDecreasing(knots: seq<OpacityKnot>)
  {
    forall p, q :: 0 <= p < q < |knots| ==> knots[p].opacity <= knots[q].opacity
  }

  /**
   * The opacity knots sit at 0, 10%, 25%, 30% and 100% of the maximum with
   * opacities 0, 0, 0.5, 0.9 and 1; their positions are in increasing order
   * exactly when the maximum is not negative, and their opacities always are.
   */
  lemma OpacityCurveShape(maxAttr: real)
    ensures var k := HeatmapTransfer(maxAttr).opacities;
      |k| == 5 &&
      k[0].value == 0.0 && k[1].value == maxAttr / 10.0 && k[2].value == maxAttr / 4.0 &&
      k[3].value == maxAttr * 3.0 / 10.0 && k[4].value == maxAttr &&
      k[0].opacity == 0.0 && k[1].opacity == 0.0 && k[2].opacity == 0.5 &&
      k[3].opacity == 0.9 && k[4].opacity == 1.0
    ensures ValuesNonDecreasing(HeatmapTransfer(maxAttr).opacities) <==> maxAttr >= 0.0
    ensures OpacitiesNonDecreasing(HeatmapTransfer(maxAttr).opacities)
  {
    var k := HeatmapTransfer(maxAttr).opacities;
    if maxAttr < 0.0 {
      assert k[0].value > k[1].value;
    }
  }

  /**
   * The legend explains the volume: its colour ramp is the volume's, with the
   * endpoints black at 0 and red at the maximum.
   */
  lemma LegendMatchesVolume(maxAttr: real)
    ensures ColorScale(maxAttr) == HeatmapTransfer(maxAttr).colors
    ensures HeatmapTransfer(maxAttr).colors[0] == ColorKnot(0.0, Black)
    ensures HeatmapTransfer(maxAttr).colors[|HeatmapTransfer(maxAttr).colors| - 1] == ColorKnot(maxAttr, Red)
  {
  }

  /**
   * With `maxAttr` taken as the maximum of non-empty attribution data, every
   * sample lies at or below the last colour and opacity knot.
   */
  lemma KnotsCoverAttribution(data: seq<real>)
    requires data != []
    ensures AttributionMax.MaxAttr(data).Finite?
    ensures var t := HeatmapTransfer(AttributionMax.MaxAttr(data).value);
      forall i :: 0 <= i < |data| ==> data[i] <= t.colors[1].value && data[i] <= t.opacities[4].value
  {
  }

  /** The worked case maxAttr = 7: opacity knots at 0, 0.7, 1.75, 2.1 and 7. */
  lemma OpacityCurveAtSeven()
    ensures seq(5, p requires 0 <= p < 5 => HeatmapTransfer(7.0).opacities[p].value) == [0.0, 0.7, 1.75, 2.1, 7.0]
  {
  }
}
