/** The gradient mapper of the scroll heat overlay: a numeric series becomes
    one vertical gradient stop per sample, coloured by a four-band
    blue -> cyan -> green -> yellow -> red ramp whose alpha fades with
    intensity; and the discrete palette lookup used by the legend. */
module HeatGradient {
  import opened JsMath
  import opened Optional

  /** A colour as the three integer channels of an `rgba(...)` string. */
  datatype Rgb = Rgb(r: int, g: int, b: int)

  /** A colour with its alpha, the fourth field of `rgba(...)`. */
  datatype Rgba = Rgba(r: int, g: int, b: int, a: real)

  /** One `addColorStop(position, color)` call. */
  datatype Stop = Stop(position: real, color: Rgba)

  predicate ChannelsInByteRange(c: Rgb) {
    0 <= c.r <= 255 && 0 <= c.g <= 255 && 0 <= c.b <= 255
  }

  // ---------------------------------------------------------------------
  // Normalisation bounds

  /** `Math.min(...s)` on a non-empty series. */
  function SeqMin(s: seq<real>): (m: real)
    requires |s| > 0
    ensures m in s
    ensures forall k :: 0 <= k < |s| ==> m <= s[k]
  {
    if |s| == 1 then s[0]
    else
      var rest := SeqMin(s[1..]);
      if s[0] <= rest then s[0] else rest
  }

  /** `Math.max(...s)` on a non-empty series. */
  function SeqMax(s: seq<real>): (m: real)
    requires |s| > 0
    ensures m in s
    ensures forall k :: 0 <= k < |s| ==> s[k] <= m
  {
    if |s| == 1 then s[0]
    else
      var rest := SeqMax(s[1..]);
      if s[0] >= rest then s[0] else rest
  }

  /** The series can be normalised without dividing by zero: it is not empty
      and not constant (which also means it has at least two samples, so
      `index / (length - 1)` is defined). */
  predicate Normalizable(values: seq<real>) {
    |values| > 0 && SeqMin(values) < SeqMax(values)
  }

  /** `(time - minTime) / (maxTime - minTime)` */
  function Intensity(v: real, lo: real, hi: real): real
    requires lo < hi
  {
    (v - lo) / (hi - lo)
  }

  /** The intensity of sample `i` relative to the whole series. */
  function SampleIntensity(values: seq<real>, i: nat): real
    requires Normalizable(values) && i < |values|
  {
    Intensity(values[i], SeqMin(values), SeqMax(values))
  }

  /** `index / (timeValues.length - 1)` */
  function Position(i: nat, n: nat): real
    requires n >= 2
  {
    i as real / (n - 1) as real
  }

  // ---------------------------------------------------------------------
  // The continuous colour ramp

  /** The colour of an intensity, branch for branch as the overlay computes
      it, with `t` the fraction of the way through the intensity's band. */
  function RampColor(x: real): Rgb {
    if x < 0.25 then
      var t := x * 4.0;
      Rgb(Round(0.0 * (1.0 - t) + 0.0 * t), Round(0.0 * (1.0 - t) + 255.0 * t), Round(255.0 * (1.0 - t) + 255.0 * t))
    else if x < 0.5 then
      var t := (x - 0.25) * 4.0;
      Rgb(0, Round(255.0), Round(255.0 * (1.0 - t) + 0.0 * t))
    else if x < 0.75 then
      var t := (x - 0.5) * 4.0;
      Rgb(Round(0.0 * (1.0 - t) + 255.0 * t), 255, 0)
    else
      var t := (x - 0.75) * 4.0;
      Rgb(255, Round(255.0 * (1.0 - t) + 0.0 * t), 0)
  }

  /** The five anchors of the ramp: blue, cyan, green, yellow, red. */
  const RampAnchors: seq<Rgb> :=
    [Rgb(0, 0, 255), Rgb(0, 255, 255), Rgb(0, 255, 0), Rgb(255, 255, 0), Rgb(255, 0, 0)]

  /** Which of the four 0.25-wide bands an intensity falls in. */
  function Band(x: real): (k: nat)
    ensures k < 4
  {
    if x < 0.25 then 0 else if x < 0.5 then 1 else if x < 0.75 then 2 else 3
  }

  /** How far through its band an intensity lies (0 at the band's start). */
  function BandFraction(x: real): real {
    (x - 0.25 * Band(x) as real) * 4.0
  }

  /** One channel linearly interpolated from `a` (t = 0) to `b` (t = 1). */
  function Lerp(a: int, b: int, t: real): int {
    Round(a as real * (1.0 - t) + b as real * t)
  }

  /** Reference definition of the ramp: every channel interpolated between
      anchor `k` and anchor `k + 1`. */
  function InterpolateAnchors(k: nat, t: real): Rgb
    requires k < 4
  {
    var lo := RampAnchors[k];
    var hi := RampAnchors[k + 1];
    Rgb(Lerp(lo.r, hi.r, t), Lerp(lo.g, hi.g, t), Lerp(lo.b, hi.b, t))
  }

  /** The overlay's four hand-written branches are exactly linear
      interpolation between consecutive anchors. */
  lemma RampIsAnchorInterpolation(x: real)
    ensures RampColor(x) == InterpolateAnchors(Band(x), BandFraction(x))
  {
    var t := BandFraction(x);
    assert 255.0 * (1.0 - t) + 255.0 * t == 255.0;
    RoundOfInt(0);
    RoundOfInt(255);
    if x < 0.25 {
      assert t == x * 4.0;
    } else if x < 0.5 {
      assert t == (x - 0.25) * 4.0;
    } else if x < 0.75 {
      assert t == (x - 0.5) * 4.0;
    } else {
      assert t == (x - 0.75) * 4.0;
    }
  }

  /** Each band ends on the anchor the next band starts from, so the ramp has
      no jump at 0.25, 0.5 and 0.75. */
  lemma RampContinuousAtBandEdges(k: nat)
    requires k < 3
    ensures InterpolateAnchors(k, 1.0) == RampAnchors[k + 1]
    ensures InterpolateAnchors(k + 1, 0.0) == RampAnchors[k + 1]
  {
    RoundOfInt(0);
    RoundOfInt(255);
  }

  /** The ramp passes through its anchors: blue at 0, cyan at 0.25, green at
      0.5, yellow at 0.75 and red at 1. */
  lemma RampHitsAnchors()
    ensures RampColor(0.0) == Rgb(0, 0, 255)
    ensures RampColor(0.25) == Rgb(0, 255, 255)
    ensures RampColor(0.5) == Rgb(0, 255, 0)
    ensures RampColor(0.75) == Rgb(255, 255, 0)
    ensures RampColor(1.0) == Rgb(255, 0, 0)
  {
    RoundOfInt(0);
    RoundOfInt(255);
  }

  /** Every channel of an intensity in [0, 1] is a valid byte. */
  lemma RampChannelsInRange(x: real)
    requires 0.0 <= x <= 1.0
    ensures ChannelsInByteRange(RampColor(x))
  {
    RoundOfInt(0);
    RoundOfInt(255);
    if x < 0.25 {
      RoundBetween(255.0 * (x * 4.0), 0, 255);
    } else if x < 0.5 {
      RoundBetween(255.0 * (1.0 - (x - 0.25) * 4.0), 0, 255);
    } else if x < 0.75 {
      RoundBetween(255.0 * ((x - 0.5) * 4.0), 0, 255);
    } else {
      RoundBetween(255.0 * (1.0 - (x - 0.75) * 4.0), 0, 255);
    }
  }

  /** Within one band exactly one channel moves, and it moves monotonically:
      green rises in band 0, blue falls in band 1, red rises in band 2 and
      green falls in band 3; the other two channels hold their anchor values. */
  lemma RampMonotoneWithinBand(x: real, y: real)
    requires x <= y && Band(x) == Band(y)
    ensures Band(x) == 0 ==> var cx, cy := RampColor(x), RampColor(y);
              cx.r == cy.r == 0 && cx.b == cy.b == 255 && cx.g <= cy.g
    ensures Band(x) == 1 ==> var cx, cy := RampColor(x), RampColor(y);
              cx.r == cy.r == 0 && cx.g == cy.g == 255 && cx.b >= cy.b
    ensures Band(x) == 2 ==> var cx, cy := RampColor(x), RampColor(y);
              cx.g == cy.g == 255 && cx.b == cy.b == 0 && cx.r <= cy.r
    ensures Band(x) == 3 ==> var cx, cy := RampColor(x), RampColor(y);
              cx.r == cy.r == 255 && cx.b == cy.b == 0 && cx.g >= cy.g
  {
    RoundOfInt(0);
    RoundOfInt(255);
    if Band(x) == 0 {
      RoundMonotone(255.0 * (x * 4.0), 255.0 * (y * 4.0));
    } else if Band(x) == 1 {
      RoundMonotone(255.0 * (1.0 - (y - 0.25) * 4.0), 255.0 * (1.0 - (x - 0.25) * 4.0));
    } else if Band(x) == 2 {
      RoundMonotone(255.0 * ((x - 0.5) * 4.0), 255.0 * ((y - 0.5) * 4.0));
    } else {
      RoundMonotone(255.0 * (1.0 - (y - 0.75) * 4.0), 255.0 * (1.0 - (x - 0.75) * 4.0));
    }
  }

  // ---------------------------------------------------------------------
  // Gradient stops

  /** The stop the overlay adds for sample `i`. */
  function StopAt(values: seq<real>, i: nat, opacity: real): Stop
    requires Normalizable(values) && i < |values|
  {
    var x := SampleIntensity(values, i);
    var c := RampColor(x);
    Stop(Position(i, |values|), Rgba(c.r, c.g, c.b, x * opacity))
  }

  /** The stops of the overlay's vertical gradient, in sample order. */
  function GradientStops(values: seq<real>, opacity: real): (stops: seq<Stop>)
    requires Normalizable(values)
    ensures |stops| == |values|
    ensures forall i :: 0 <= i < |values| ==> stops[i] == StopAt(values, i, opacity)
  {
    seq(|values|, i requires 0 <= i < |values| => StopAt(values, i, opacity))
  }

  /** A normalisable series has at least two samples. */
  lemma NormalizableHasTwoSamples(values: seq<real>)
    requires Normalizable(values)
    ensures |values| >= 2
  {
  }

  /** Facts about one normalised value: it lies in [0, 1] when the value lies
      between the bounds, is 0 at the lower bound, 1 at the upper bound, and
      grows with the value. */
  lemma IntensityFacts(v: real, w: real, lo: real, hi: real)
    requires lo < hi
    ensures lo <= v <= hi ==> 0.0 <= Intensity(v, lo, hi) <= 1.0
    ensures Intensity(lo, lo, hi) == 0.0 && Intensity(hi, lo, hi) == 1.0
    ensures v <= w ==> Intensity(v, lo, hi) <= Intensity(w, lo, hi)
  {
    if lo <= v <= hi {
      DivInUnitRange(v - lo, hi - lo);
    }
    if v <= w {
      DivMonotone(v - lo, w - lo, hi - lo);
    }
  }

  /** Where stop `k` sits and how opaque it is. */
  lemma StopFields(values: seq<real>, opacity: real)
    requires Normalizable(values)
    ensures var stops := GradientStops(values, opacity);
      forall k :: 0 <= k < |stops| ==>
        && stops[k].position == Position(k, |values|)
        && stops[k].color.a == SampleIntensity(values, k) * opacity
  {
  }

  /** The positions `k / (n - 1)` run from 0 to 1 and strictly increase. */
  lemma PositionsSpanAndIncrease(n: nat)
    requires n >= 2
    ensures Position(0, n) == 0.0 && Position(n - 1, n) == 1.0
    ensures forall i, j :: 0 <= i < j < n ==> Position(i, n) < Position(j, n)
  {
    var d := (n - 1) as real;
    assert d / d == 1.0;
    forall i, j | 0 <= i < j < n
      ensures Position(i, n) < Position(j, n)
    {
      DivStrictMonotone(i as real, j as real, d);
    }
  }

  /** The stops span the whole gradient: the first sits at 0, the last at 1,
      and positions strictly increase with the sample index. */
  lemma StopPositionsSpanAndIncrease(values: seq<real>, opacity: real)
    requires Normalizable(values)
    ensures var stops := GradientStops(values, opacity);
      && stops[0].position == 0.0
      && stops[|stops| - 1].position == 1.0
      && forall i, j :: 0 <= i < j < |stops| ==> stops[i].position < stops[j].position
  {
    NormalizableHasTwoSamples(values);
    StopFields(values, opacity);
    PositionsSpanAndIncrease(|values|);
  }

  /** Every intensity lies in [0, 1]; the smallest sample maps to 0 and the
      largest to 1. */
  lemma IntensitiesNormalized(values: seq<real>)
    requires Normalizable(values)
    ensures forall i :: 0 <= i < |values| ==> 0.0 <= SampleIntensity(values, i) <= 1.0
    ensures forall i :: 0 <= i < |values| && values[i] == SeqMin(values) ==> SampleIntensity(values, i) == 0.0
    ensures forall i :: 0 <= i < |values| && values[i] == SeqMax(values) ==> SampleIntensity(values, i) == 1.0
  {
    var lo, hi := SeqMin(values), SeqMax(values);
    forall i | 0 <= i < |values|
      ensures 0.0 <= SampleIntensity(values, i) <= 1.0
      ensures values[i] == lo ==> SampleIntensity(values, i) == 0.0
      ensures values[i] == hi ==> SampleIntensity(values, i) == 1.0
    {
      IntensityFacts(values[i], values[i], lo, hi);
    }
  }

  /** A larger sample never gets a smaller intensity. */
  lemma IntensityMonotone(values: seq<real>, i: nat, j: nat)
    requires Normalizable(values) && i < |values| && j < |values|
    requires values[i] <= values[j]
    ensures SampleIntensity(values, i) <= SampleIntensity(values, j)
  {
    IntensityFacts(values[i], values[j], SeqMin(values), SeqMax(values));
  }

  /** An alpha `x * opacity` for x in [0, 1] lies in [0, opacity], is 0 at
      x = 0 and the full opacity at x = 1. */
  lemma AlphaBounds(x: real, opacity: real)
    requires 0.0 <= x <= 1.0 && 0.0 <= opacity
    ensures 0.0 <= x * opacity <= opacity
    ensures x == 0.0 ==> x * opacity == 0.0
    ensures x == 1.0 ==> x * opacity == opacity
  {
    MulUnitBelow(x, opacity);
  }

  /** Every stop's alpha is its intensity times the opacity, hence within
      [0, opacity]; the smallest sample is fully transparent and the largest
      is drawn at the full opacity. */
  lemma StopAlphaFadesWithIntensity(values: seq<real>, opacity: real)
    requires Normalizable(values)
    requires 0.0 <= opacity
    ensures var stops := GradientStops(values, opacity);
      && (forall i :: 0 <= i < |stops| ==> stops[i].color.a == SampleIntensity(values, i) * opacity)
      && (forall i :: 0 <= i < |stops| ==> 0.0 <= stops[i].color.a <= opacity)
      && (forall i :: 0 <= i < |stops| && values[i] == SeqMin(values) ==> stops[i].color.a == 0.0)
      && (forall i :: 0 <= i < |stops| && values[i] == SeqMax(values) ==> stops[i].color.a == opacity)
  {
    IntensitiesNormalized(values);
    forall i | 0 <= i < |values| {
      StopAlphaAt(values, opacity, i);
    }
  }

  /** The alpha of stop `i`: its intensity times the opacity, within
      [0, opacity], 0 at intensity 0 and the full opacity at intensity 1. */
  lemma StopAlphaAt(values: seq<real>, opacity: real, i: nat)
    requires Normalizable(values) && 0.0 <= opacity && i < |values|
    ensures GradientStops(values, opacity)[i].color.a == SampleIntensity(values, i) * opacity
    ensures 0.0 <= GradientStops(values, opacity)[i].color.a <= opacity
    ensures SampleIntensity(values, i) == 0.0 ==> GradientStops(values, opacity)[i].color.a == 0.0
    ensures SampleIntensity(values, i) == 1.0 ==> GradientStops(values, opacity)[i].color.a == opacity
  {
    StopAlphaIs(values, opacity, i);
    SampleAlphaInRange(values, opacity, i);
  }

  /** Stop `i` carries its intensity times the opacity as its alpha. */
  lemma StopAlphaIs(values: seq<real>, opacity: real, i: nat)
    requires Normalizable(values) && i < |values|
    ensures GradientStops(values, opacity)[i].color.a == SampleIntensity(values, i) * opacity
  {
    StopFields(values, opacity);
  }

  /** A sample's intensity times a non-negative opacity lies in [0, opacity]. */
  lemma SampleAlphaInRange(values: seq<real>, opacity: real, i: nat)
    requires Normalizable(values) && 0.0 <= opacity && i < |values|
    ensures 0.0 <= SampleIntensity(values, i) * opacity <= opacity
  {
    IntensityFacts(values[i], values[i], SeqMin(values), SeqMax(values));
    AlphaBounds(SampleIntensity(values, i), opacity);
  }

  /** Every stop's colour is the ramp colour of its sample's intensity, so all
      of its channels are valid bytes. */
  lemma StopColorsInRange(values: seq<real>, opacity: real)
    requires Normalizable(values)
    ensures var stops := GradientStops(values, opacity);
      forall i :: 0 <= i < |stops| ==>
        var c := RampColor(SampleIntensity(values, i));
        && stops[i].color.r == c.r && stops[i].color.g == c.g && stops[i].color.b == c.b
        && ChannelsInByteRange(c)
  {
    IntensitiesNormalized(values);
    forall i | 0 <= i < |values|
      ensures ChannelsInByteRange(RampColor(SampleIntensity(values, i)))
    {
      RampChannelsInRange(SampleIntensity(values, i));
    }
  }

  /** The gradient of the series 100, 150, 200 at opacity 0.6. */
  const ScenarioStops: seq<Stop> :=
    [Stop(0.0, Rgba(0, 0, 255, 0.0)), Stop(0.5, Rgba(0, 255, 0, 0.3)), Stop(1.0, Rgba(255, 0, 0, 0.6))]

  /** A concrete three-sample series at opacity 0.6: stops at 0, 0.5 and 1,
      transparent blue, half-way green and red at the full opacity. */
  lemma ThreeSampleScenario()
    ensures Normalizable([100.0, 150.0, 200.0])
    ensures GradientStops([100.0, 150.0, 200.0], 0.6) == ScenarioStops
  {
    ScenarioBounds();
    var stops := GradientStops([100.0, 150.0, 200.0], 0.6);
    forall i | 0 <= i < 3 ensures stops[i] == ScenarioStops[i] {
      ScenarioStop(i);
    }
  }

  lemma ScenarioBounds()
    ensures SeqMin([100.0, 150.0, 200.0]) == 100.0 && SeqMax([100.0, 150.0, 200.0]) == 200.0
  {
    var s := [100.0, 150.0, 200.0];
    assert SeqMin(s) <= s[0];
    assert SeqMax(s) >= s[2];
  }

  /** Stop `i` of the three-sample series: position and intensity i / 2,
      the ramp colour there, alpha 0.6 times the intensity. */
  lemma ScenarioStop(i: nat)
    requires i < 3
    ensures Normalizable([100.0, 150.0, 200.0])
    ensures GradientStops([100.0, 150.0, 200.0], 0.6)[i] == ScenarioStops[i]
  {
    var s := [100.0, 150.0, 200.0];
    ScenarioBounds();
    RampHitsAnchors();
    var x := i as real / 2.0;
    assert SampleIntensity(s, i) == x by {
      assert s[i] == 100.0 + 50.0 * i as real;
      assert SampleIntensity(s, i) == (50.0 * i as real) / 100.0;
    }
    assert Position(i, 3) == x;
    assert StopAt(s, i, 0.6) == Stop(x, Rgba(RampColor(x).r, RampColor(x).g, RampColor(x).b, x * 0.6));
    if i == 0 {
      assert x == 0.0;
    } else if i == 1 {
      assert x == 0.5 && x * 0.6 == 0.3;
    } else {
      assert x == 1.0;
    }
  }

  // ---------------------------------------------------------------------
  // The discrete palette lookup of the legend

  /** The palette of the 'standard' scheme, as `rgba(` prefixes. */
  const StandardPalette: seq<Rgb> :=
    [Rgb(0, 0, 255), Rgb(0, 150, 255), Rgb(0, 255, 0), Rgb(255, 255, 0), Rgb(255, 0, 0)]

  /** `Math.min(Math.floor(intensity * (colors.length - 1)), colors.length - 1)` */
  function HeatColorIndex(intensity: real, len: nat): int {
    MinInt(Floor(intensity * (len as int - 1) as real), len as int - 1)
  }

  /** `colors[actualIndex]`, absent (`undefined`) when the index falls
      outside the palette. */
  function GetHeatColor(intensity: real, palette: seq<Rgb>): (r: Option<Rgb>)
    ensures r.Some? <==> 0 <= HeatColorIndex(intensity, |palette|)
    ensures r.Some? ==> r.value == palette[HeatColorIndex(intensity, |palette|)]
  {
    var k := HeatColorIndex(intensity, |palette|);
    if 0 <= k < |palette| then Some(palette[k]) else None
  }

  /** A non-negative intensity always selects an entry of a non-empty palette,
      and the cap keeps intensities above 1 on the last entry. */
  lemma HeatColorIndexInPalette(intensity: real, len: nat)
    requires len >= 1 && intensity >= 0.0
    ensures 0 <= HeatColorIndex(intensity, len) <= len - 1
    ensures intensity >= 1.0 ==> HeatColorIndex(intensity, len) == len - 1
  {
    var m := (len - 1) as real;
    MulNonNegative(intensity, m);
    FloorMonotone(0.0, intensity * m);
    if intensity >= 1.0 {
      MulAtLeastOne(intensity, m);
      FloorMonotone(m, intensity * m);
    }
  }

  /** With two or more colours the lookup fails exactly for negative
      intensities. */
  lemma GetHeatColorDefinedIff(intensity: real, palette: seq<Rgb>)
    requires |palette| >= 2
    ensures GetHeatColor(intensity, palette).Some? <==> intensity >= 0.0
  {
    var m := (|palette| - 1) as real;
    if intensity >= 0.0 {
      HeatColorIndexInPalette(intensity, |palette|);
    } else {
      MulNegativePositive(intensity, m);
    }
  }

  /** The legend's swatch for row `k` ("Very High", "High", "Medium", "Low"):
      the palette colour at intensity (3 - k) / 3 with alpha 0.8. */
  function LegendSwatch(k: nat): Option<Rgba>
    requires k < 4
  {
    match GetHeatColor((3 - k) as real / 3.0, StandardPalette)
    case Some(c) => Some(Rgba(c.r, c.g, c.b, 0.8))
    case None => None
  }

  /** The four legend rows pick palette entries 4, 2, 1 and 0. */
  lemma LegendPicksPaletteEntries()
    ensures LegendSwatch(0) == Some(Rgba(255, 0, 0, 0.8))
    ensures LegendSwatch(1) == Some(Rgba(0, 255, 0, 0.8))
    ensures LegendSwatch(2) == Some(Rgba(0, 150, 255, 0.8))
    ensures LegendSwatch(3) == Some(Rgba(0, 0, 255, 0.8))
  {
    assert HeatColorIndex(1.0, 5) == 4;
    assert Floor(2.0 / 3.0 * 4.0) == 2;
    assert Floor(1.0 / 3.0 * 4.0) == 1;
    assert HeatColorIndex(0.0, 5) == 0;
  }
}
