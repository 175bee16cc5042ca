/**
 * The chart decoder of the generated Java library, an earlier,
 * temperature-only form of the same decoder: a ModelUM object is built from
 * the pixels of one meteogram image, reads the temperature panel's scale and
 * its six series, optionally fills the gaps of the temperature curve and
 * reads the caption's timestamp. Its accessors answer an unknown kind with
 * ERR, no series and -1 instead of reporting a failure, and its kinds number
 * the maximum before the minimum.
 */
module JavaModel {
  import opened Options
  import opened Layout
  import opened Image
  import opened Calibration
  import opened Sampling
  import opened GapFill
  import opened Caption

  const TYPE_TEMPERATURE: int := 0
  const TYPE_TEMPERATURE_MAX: int := 1
  const TYPE_TEMPERATURE_MIN: int := 2
  const TYPE_TEMPERATURE_PERCEPTIBLE: int := 3
  const TYPE_TEMPERATURE_PERCEPTIBLE_MAX: int := 4
  const TYPE_TEMPERATURE_PERCEPTIBLE_MIN: int := 5

  /** A kind the decoder reads: one of the temperature panel's six. */
  predicate IsKnownType(t: int)
  {
    TYPE_TEMPERATURE <= t <= TYPE_TEMPERATURE_PERCEPTIBLE_MIN
  }

  class ModelUM {
    const useHeuristicForMissingData: bool

    /** How construction ended; the series are meaningful when it is Parsed. */
    var status: Status
    /** The client's timestamp of the chart's left edge; 0 until a time label is read. */
    var timestamp: int

    const temperature: array<real>
    const temperatureMax: array<real>
    const temperatureMin: array<real>
    const temperaturePerc: array<real>
    const temperaturePercMax: array<real>
    const temperaturePercMin: array<real>
    var temperaturePrecision: real
    var temperatureRow0: real

    /** Every series has one sample per chart column, and no two series share an array. */
    ghost predicate Valid()
      reads this
    {
      && temperature.Length == temperatureMin.Length == temperatureMax.Length == CHART_WIDTH
      && temperaturePerc.Length == temperaturePercMin.Length == temperaturePercMax.Length == CHART_WIDTH
      && temperature != temperatureMin && temperature != temperatureMax && temperature != temperaturePerc
      && temperature != temperaturePercMin && temperature != temperaturePercMax
      && temperatureMin != temperatureMax && temperatureMin != temperaturePerc
      && temperatureMin != temperaturePercMin && temperatureMin != temperaturePercMax
      && temperatureMax != temperaturePerc && temperatureMax != temperaturePercMin && temperatureMax != temperaturePercMax
      && temperaturePerc != temperaturePercMin && temperaturePerc != temperaturePercMax
      && temperaturePercMin != temperaturePercMax
    }

    /**
     * The state after decoding the (alpha-cleared) image: a degenerate
     * temperature scale stops decoding; otherwise the series are read.
     */
    ghost predicate Decoded(pixels: seq<int>, getTimestamp: (int, int, real) -> int, previous: int)
      requires |pixels| == PIXEL_COUNT && Valid()
      reads this, temperature, temperatureMin, temperatureMax, temperaturePerc, temperaturePercMin, temperaturePercMax
    {
      var ts := PanelScale(pixels, Calibration.Temperature);
      if ts.Degenerate? then status == DegenerateScale
      else SeriesDecoded(pixels, ts, getTimestamp, previous)
    }

    /**
     * The state after reading the series with the temperature scale ts:
     * every series holds the samples of the panel, the temperature curve
     * with its gaps filled when the heuristic is on (unless the gap filler
     * runs past an end of the series), and the timestamp comes from the
     * caption.
     */
    ghost predicate SeriesDecoded(pixels: seq<int>, ts: Scale, getTimestamp: (int, int, real) -> int, previous: int)
      requires |pixels| == PIXEL_COUNT && Valid() && ts.Linear?
      reads this, temperature, temperatureMin, temperatureMax, temperaturePerc, temperaturePercMin, temperaturePercMax
    {
      var t := SampledTemperatures(pixels, ts.row0, ts.precision);
      var fixedT := FixedTemperature(t);
      if useHeuristicForMissingData && fixedT.None? then status == IndexOverrun
      else
        && status == Parsed
        && temperaturePrecision == ts.precision && temperatureRow0 == ts.row0
        && TemperatureSampled(pixels, ts.row0, ts.precision, t, temperatureMax[..], temperatureMin[..],
             temperaturePerc[..], temperaturePercMax[..], temperaturePercMin[..], CHART_WIDTH)
        && temperature[..] == (if useHeuristicForMissingData then fixedT.value else t)
        && timestamp == TimestampOf(DateDigits(pixels), TimeDigits(pixels), getTimestamp, previous)
    }

    /**
     * Builds the model of one image. A buffer of the wrong size is refused;
     * otherwise its alpha bytes are cleared in place and the image decoded.
     */
    constructor(pixels: array<int>, getTimestamp: (int, int, real) -> int, useHeuristicForMissingData: bool)
      modifies pixels
      ensures Valid() && this.useHeuristicForMissingData == useHeuristicForMissingData
      ensures fresh(temperature) && fresh(temperatureMin) && fresh(temperatureMax)
      ensures fresh(temperaturePerc) && fresh(temperaturePercMin) && fresh(temperaturePercMax)
      ensures pixels.Length != PIXEL_COUNT ==> status == InvalidInput && pixels[..] == old(pixels[..])
      ensures pixels.Length == PIXEL_COUNT ==>
        && pixels[..] == Masked(old(pixels[..]))
        && Decoded(pixels[..], getTimestamp, 0)
    {
      this.useHeuristicForMissingData := useHeuristicForMissingData;
      temperature := new real[CHART_WIDTH](_ => 0.0);
      temperatureMax := new real[CHART_WIDTH](_ => 0.0);
      temperatureMin := new real[CHART_WIDTH](_ => 0.0);
      temperaturePerc := new real[CHART_WIDTH](_ => 0.0);
      temperaturePercMax := new real[CHART_WIDTH](_ => 0.0);
      temperaturePercMin := new real[CHART_WIDTH](_ => 0.0);
      timestamp := 0;
      status := Parsed;
      new;
      if pixels.Length != PIXEL_COUNT {
        status := InvalidInput;
        assert pixels[..] == old(pixels[..]);
        return;
      }
      MaskPixels(pixels);
      ghost var masked := pixels[..];
      ParsePixels(pixels, getTimestamp);
      assert pixels[..] == masked;
    }

    /**
     * The main parsing step: the temperature panel's scale and series, the
     * optional gap filling and the caption, in this order; a degenerate
     * scale or a gap filler overrun stops it.
     */
    method ParsePixels(pixels: array<int>, getTimestamp: (int, int, real) -> int)
      requires Valid() && pixels.Length == PIXEL_COUNT
      modifies this, temperature, temperatureMin, temperatureMax, temperaturePerc, temperaturePercMin, temperaturePercMax
      ensures Valid()
      ensures Decoded(pixels[..], getTimestamp, old(timestamp))
    {
      ghost var img := pixels[..];
      var top, bottom, ts := ReadScale(pixels, Calibration.Temperature);
      if ts.Degenerate? {
        status := DegenerateScale;
        return;
      }
      temperaturePrecision, temperatureRow0 := ts.precision, ts.row0;
      SampleTemperature(pixels, temperatureRow0, temperaturePrecision,
        temperature, temperatureMax, temperatureMin, temperaturePerc, temperaturePercMax, temperaturePercMin);
      assert pixels[..] == img;
      assert temperature[..] == SampledTemperatures(img, ts.row0, ts.precision);
      FinishParsing(pixels, getTimestamp, ts);
      assert pixels[..] == img;
    }

    /** After the panel is read: the optional gap filling, then the caption. */
    method FinishParsing(pixels: array<int>, getTimestamp: (int, int, real) -> int, ghost ts: Scale)
      requires Valid() && pixels.Length == PIXEL_COUNT && ts.Linear?
      requires temperaturePrecision == ts.precision && temperatureRow0 == ts.row0
      requires temperature[..] == SampledTemperatures(pixels[..], ts.row0, ts.precision)
      requires TemperatureSampled(pixels[..], ts.row0, ts.precision, temperature[..], temperatureMax[..], temperatureMin[..],
        temperaturePerc[..], temperaturePercMax[..], temperaturePercMin[..], CHART_WIDTH)
      modifies this, temperature
      ensures Valid()
      ensures SeriesDecoded(pixels[..], ts, getTimestamp, old(timestamp))
    {
      ghost var img := pixels[..];
      ghost var bands := [temperatureMax[..], temperatureMin[..], temperaturePerc[..], temperaturePercMax[..], temperaturePercMin[..]];
      if useHeuristicForMissingData {
        var ok := FixMissingTemperature(temperature);
        if !ok {
          status := IndexOverrun;
          return;
        }
      }
      assert bands == [temperatureMax[..], temperatureMin[..], temperaturePerc[..], temperaturePercMax[..], temperaturePercMin[..]];
      assert pixels[..] == img;
      timestamp := ReadDate(pixels, getTimestamp, timestamp);
      status := Parsed;
    }

    // -------------------------------------------------------------------
    // Accessors

    /** How many samples a series of the given kind holds; ERR for a kind that is not decoded. */
    function GetSampleNumber(kind: int): (r: int)
      ensures r == CHART_WIDTH || r == ERR
      ensures r == CHART_WIDTH <==> IsKnownType(kind)
    {
      if IsKnownType(kind) then CHART_WIDTH else ERR
    }

    /** The series of the given kind; none (null) for a kind that is not decoded. */
    function GetSamples(kind: int): (r: Option<array<real>>)
      ensures r.Some? <==> IsKnownType(kind)
    {
      if kind == TYPE_TEMPERATURE then Some(temperature)
      else if kind == TYPE_TEMPERATURE_MAX then Some(temperatureMax)
      else if kind == TYPE_TEMPERATURE_MIN then Some(temperatureMin)
      else if kind == TYPE_TEMPERATURE_PERCEPTIBLE then Some(temperaturePerc)
      else if kind == TYPE_TEMPERATURE_PERCEPTIBLE_MAX then Some(temperaturePercMax)
      else if kind == TYPE_TEMPERATURE_PERCEPTIBLE_MIN then Some(temperaturePercMin)
      else None
    }

    /** The value step of one pixel row of the series of the given kind; -1 for a kind that is not decoded. */
    function GetPrecision(kind: int): (r: real)
      reads this
      ensures IsKnownType(kind) ==> r == temperaturePrecision
      ensures !IsKnownType(kind) ==> r == -1.0
    {
      if IsKnownType(kind) then temperaturePrecision else -1.0
    }

    /**
     * The three accessors agree on which kinds exist, every series holds as
     * many samples as its count says, and each kind has its own array.
     */
    lemma AccessorsAgree(t1: int, t2: int)
      requires Valid()
      ensures GetSamples(t1).Some? <==> GetSampleNumber(t1) != ERR
      ensures GetSamples(t1).Some? ==> GetSamples(t1).value.Length == GetSampleNumber(t1)
      ensures GetSamples(t1).Some? && GetSamples(t2).Some? && t1 != t2 ==>
        GetSamples(t1).value != GetSamples(t2).value
    {
    }

    /** A successful decoding found the scale, stored it and sampled the temperature panel with it. */
    lemma ParsedSeries(pixels: seq<int>, getTimestamp: (int, int, real) -> int, previous: int)
      requires |pixels| == PIXEL_COUNT && Valid()
      requires Decoded(pixels, getTimestamp, previous) && status == Parsed
      ensures var ts := PanelScale(pixels, Calibration.Temperature);
        && ts.Linear?
        && temperaturePrecision == ts.precision && temperatureRow0 == ts.row0
        && GetPrecision(TYPE_TEMPERATURE) >= 0.0
        && TemperatureSampled(pixels, ts.row0, ts.precision, SampledTemperatures(pixels, ts.row0, ts.precision),
             temperatureMax[..], temperatureMin[..], temperaturePerc[..], temperaturePercMax[..], temperaturePercMin[..], CHART_WIDTH)
    {
      var ts := PanelScale(pixels, Calibration.Temperature);
      assert SeriesDecoded(pixels, ts, getTimestamp, previous);
    }

    /**
     * Once the temperature panel is sampled into the model (as a successful
     * decoding leaves it, see ParsedSeries), in every chart column the
     * minimum the accessors return for the temperature band is at most its
     * maximum, or the column has no band and the two hold their sentinels
     * NOVALUE and -NOVALUE; the same for the perceived temperature's band.
     */
    lemma SampledAccessorBands(pixels: seq<int>, row0: real, precision: real, x: int)
      requires |pixels| == PIXEL_COUNT && Valid() && 0 <= x < CHART_WIDTH
      requires TemperatureSampled(pixels, row0, precision, SampledTemperatures(pixels, row0, precision),
        temperatureMax[..], temperatureMin[..], temperaturePerc[..], temperaturePercMax[..], temperaturePercMin[..], CHART_WIDTH)
      ensures var min, max := GetSamples(TYPE_TEMPERATURE_MIN).value, GetSamples(TYPE_TEMPERATURE_MAX).value;
        min[x] <= max[x] || (min[x] == NOVALUE as real && max[x] == -NOVALUE as real)
      ensures var min, max := GetSamples(TYPE_TEMPERATURE_PERCEPTIBLE_MIN).value, GetSamples(TYPE_TEMPERATURE_PERCEPTIBLE_MAX).value;
        min[x] <= max[x] || (min[x] == NOVALUE as real && max[x] == -NOVALUE as real)
    {
      SampledBands(pixels, row0, precision, SampledTemperatures(pixels, row0, precision),
        temperatureMax[..], temperatureMin[..], temperaturePerc[..], temperaturePercMax[..], temperaturePercMin[..], x);
    }
  }
}
