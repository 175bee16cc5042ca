/**
 * The chart decoder of the .NET library: a ModelUM object is built from the
 * pixels of one meteogram image and then answers, for each kind of series,
 * how many samples it holds, the samples themselves and the value step of
 * one pixel row. Construction clears the alpha bytes of the client's buffer
 * in place, reads the temperature panel's scale and its six series, the
 * pressure panel's scale and its two series, optionally fills the gaps of
 * the temperature and pressure series, and reads the caption's timestamp.
 */
module DotNetModel {
  import opened Options
  import opened Layout
  import opened Image
  import opened Calibration
  import opened Sampling
  import opened GapFill
  import opened Caption

  // Series kinds the accessors answer for; the library names kinds 6 .. 15
  // as well but decodes none of them.
  const TYPE_TEMPERATURE: int := 0
  const TYPE_TEMPERATURE_MIN: int := 1
  const TYPE_TEMPERATURE_MAX: int := 2
  const TYPE_TEMPERATURE_PERCEPTIBLE: int := 3
  const TYPE_TEMPERATURE_PERCEPTIBLE_MIN: int := 4
  const TYPE_TEMPERATURE_PERCEPTIBLE_MAX: int := 5
  const TYPE_PRESSURE_HPA: int := 16
  const TYPE_PRESSURE_MMHG: int := 17

  /** The message the client's failure handler receives for a kind that is not decoded. */
  const NOT_IMPLEMENTED: string := "Type not yet implemented"

  /**
   * An accessor's answer: a value, or the failure reported to the client's
   * failure handler, which is expected to abort the call.
   */
  datatype Outcome<T> = Success(value: T) | Failure(description: string)

  /** A kind of the temperature panel. */
  predicate IsTemperatureType(t: int)
  {
    TYPE_TEMPERATURE <= t <= TYPE_TEMPERATURE_PERCEPTIBLE_MAX
  }

  /** A kind the decoder reads. */
  predicate IsKnownType(t: int)
  {
    IsTemperatureType(t) || t == TYPE_PRESSURE_HPA || t == TYPE_PRESSURE_MMHG
  }

  /** The pressure series of the whole panel: the column sample of every chart column. */
  function SampledPressure(pixels: seq<int>, row0: real, precision: real): (p: PressureSeries)
    requires |pixels| == PIXEL_COUNT
    ensures |p.hPa| == |p.mmHg| == CHART_WIDTH
  {
    PressureSeries(
      seq(CHART_WIDTH, x requires 0 <= x < CHART_WIDTH => PressureSampleOf(PressureColumn(pixels, x), row0, precision).hPa),
      seq(CHART_WIDTH, x requires 0 <= x < CHART_WIDTH => PressureSampleOf(PressureColumn(pixels, x), row0, precision).mmHg))
  }

  class ModelUM {
    const useHeuristicForMissingData: bool

    /** How construction ended; the series are meaningful when it is Parsed. */
    var status: Status
    /** The client's timestamp of the chart's left edge; 0 until a time label is read. */
    var timestamp: int

    const temperature: array<real>
    const temperatureMin: array<real>
    const temperatureMax: array<real>
    const temperaturePerc: array<real>
    const temperaturePercMin: array<real>
    const temperaturePercMax: array<real>
    var temperaturePrecision: real
    var temperatureRow0: real

    const pressurehPa: array<real>
    const pressuremmHg: array<real>
    var pressureRow0hPa: real
    var pressurePrecisionhPa: real

    /** Every series has one sample per chart column, and no two series share an array. */
    ghost predicate Valid()
      reads this
    {
      && temperature.Length == temperatureMin.Length == temperatureMax.Length == CHART_WIDTH
      && temperaturePerc.Length == temperaturePercMin.Length == temperaturePercMax.Length == CHART_WIDTH
      && pressurehPa.Length == pressuremmHg.Length == CHART_WIDTH
      && temperature != temperatureMin && temperature != temperatureMax && temperature != temperaturePerc
      && temperature != temperaturePercMin && temperature != temperaturePercMax
      && temperatureMin != temperatureMax && temperatureMin != temperaturePerc
      && temperatureMin != temperaturePercMin && temperatureMin != temperaturePercMax
      && temperatureMax != temperaturePerc && temperatureMax != temperaturePercMin && temperatureMax != temperaturePercMax
      && temperaturePerc != temperaturePercMin && temperaturePerc != temperaturePercMax
      && temperaturePercMin != temperaturePercMax
      && pressurehPa != pressuremmHg
      && pressurehPa != temperature && pressurehPa != temperatureMin && pressurehPa != temperatureMax
      && pressurehPa != temperaturePerc && pressurehPa != temperaturePercMin && pressurehPa != temperaturePercMax
      && pressuremmHg != temperature && pressuremmHg != temperatureMin && pressuremmHg != temperatureMax
      && pressuremmHg != temperaturePerc && pressuremmHg != temperaturePercMin && pressuremmHg != temperaturePercMax
    }

    /**
     * The state after decoding the (alpha-cleared) image: a degenerate
     * panel scale stops decoding; otherwise the series are read.
     */
    ghost predicate Decoded(pixels: seq<int>, getTimestamp: (int, int, real) -> int, previous: int)
      requires |pixels| == PIXEL_COUNT && Valid()
      reads this, temperature, temperatureMin, temperatureMax, temperaturePerc, temperaturePercMin, temperaturePercMax
      reads pressurehPa, pressuremmHg
    {
      var ts := PanelScale(pixels, Calibration.Temperature);
      var ps := PanelScale(pixels, Calibration.Pressure);
      if ts.Degenerate? || ps.Degenerate? then status == DegenerateScale
      else SeriesDecoded(pixels, ts, ps, getTimestamp, previous)
    }

    /**
     * The state after reading the series with the panels' scales ts and ps:
     * every series holds the samples of its panel, the temperature curve and
     * the pressure series with their gaps filled when the heuristic is on
     * (unless the gap filler runs past an end of a series), and the
     * timestamp comes from the caption.
     */
    ghost predicate SeriesDecoded(pixels: seq<int>, ts: Scale, ps: Scale, getTimestamp: (int, int, real) -> int, previous: int)
      requires |pixels| == PIXEL_COUNT && Valid() && ts.Linear? && ps.Linear?
      reads this, temperature, temperatureMin, temperatureMax, temperaturePerc, temperaturePercMin, temperaturePercMax
      reads pressurehPa, pressuremmHg
    {
      var t := SampledTemperatures(pixels, ts.row0, ts.precision);
      var p := SampledPressure(pixels, ps.row0, ps.precision);
      var fixedT := FixedTemperature(t);
      var fixedP := PressureHolesFrom(p, 0);
      if useHeuristicForMissingData && !(fixedT.Some? && fixedP.Some?) then status == IndexOverrun
      else
        && status == Parsed
        && temperaturePrecision == ts.precision && temperatureRow0 == ts.row0
        && pressurePrecisionhPa == ps.precision && pressureRow0hPa == ps.row0
        && TemperatureSampled(pixels, ts.row0, ts.precision, t, temperatureMax[..], temperatureMin[..],
             temperaturePerc[..], temperaturePercMax[..], temperaturePercMin[..], CHART_WIDTH)
        && temperature[..] == (if useHeuristicForMissingData then fixedT.value else t)
        && PressureSeries(pressurehPa[..], pressuremmHg[..]) == (if useHeuristicForMissingData then fixedP.value else p)
        && timestamp == TimestampOf(DateDigits(pixels), TimeDigits(pixels), getTimestamp, previous)
    }

    /**
     * Builds the model of one image. A buffer of the wrong size is refused;
     * otherwise its alpha bytes are cleared in place and the image decoded.
     */
    constructor(pixels: array<int>, getTimestamp: (int, int, real) -> int, useHeuristicForMissingData: bool)
      modifies pixels
      ensures Valid() && this.useHeuristicForMissingData == useHeuristicForMissingData
      ensures fresh(temperature) && fresh(temperatureMin) && fresh(temperatureMax)
      ensures fresh(temperaturePerc) && fresh(temperaturePercMin) && fresh(temperaturePercMax)
      ensures fresh(pressurehPa) && fresh(pressuremmHg)
      ensures pixels.Length != PIXEL_COUNT ==> status == InvalidInput && pixels[..] == old(pixels[..])
      ensures pixels.Length == PIXEL_COUNT ==>
        && pixels[..] == Masked(old(pixels[..]))
        && Decoded(pixels[..], getTimestamp, 0)
    {
      this.useHeuristicForMissingData := useHeuristicForMissingData;
      temperature := new real[CHART_WIDTH](_ => 0.0);
      temperatureMin := new real[CHART_WIDTH](_ => 0.0);
      temperatureMax := new real[CHART_WIDTH](_ => 0.0);
      temperaturePerc := new real[CHART_WIDTH](_ => 0.0);
      temperaturePercMin := new real[CHART_WIDTH](_ => 0.0);
      temperaturePercMax := new real[CHART_WIDTH](_ => 0.0);
      pressurehPa := new real[CHART_WIDTH](_ => 0.0);
      pressuremmHg := new real[CHART_WIDTH](_ => 0.0);
      timestamp := 0;
      status := Parsed;
      new;
      if pixels.Length != PIXEL_COUNT {
        status := InvalidInput;
        assert pixels[..] == old(pixels[..]);
        return;
      }
      MaskPixels(pixels);
      ghost var masked := pixels[..];
      ParsePixels(pixels, getTimestamp);
      assert pixels[..] == masked;
    }

    /** Reads the temperature panel: its scale, then its six series. */
    method ReadTemperature(pixels: array<int>) returns (s: Scale)
      requires Valid() && pixels.Length == PIXEL_COUNT
      modifies this, temperature, temperatureMin, temperatureMax, temperaturePerc, temperaturePercMin, temperaturePercMax
      ensures Valid() && unchanged(pressurehPa, pressuremmHg)
      ensures s == PanelScale(pixels[..], Calibration.Temperature)
      ensures status == old(status) && timestamp == old(timestamp)
      ensures pressurePrecisionhPa == old(pressurePrecisionhPa) && pressureRow0hPa == old(pressureRow0hPa)
      ensures s.Linear? ==>
        && temperaturePrecision == s.precision && temperatureRow0 == s.row0
        && TemperatureSampled(pixels[..], s.row0, s.precision, temperature[..], temperatureMax[..], temperatureMin[..],
             temperaturePerc[..], temperaturePercMax[..], temperaturePercMin[..], CHART_WIDTH)
    {
      var top, bottom;
      top, bottom, s := ReadScale(pixels, Calibration.Temperature);
      if s.Linear? {
        temperaturePrecision, temperatureRow0 := s.precision, s.row0;
        SampleTemperature(pixels, temperatureRow0, temperaturePrecision,
          temperature, temperatureMax, temperatureMin, temperaturePerc, temperaturePercMax, temperaturePercMin);
      }
    }

    /** Reads the pressure panel: its scale, then its two series. */
    method ReadPressure(pixels: array<int>) returns (s: Scale)
      requires Valid() && pixels.Length == PIXEL_COUNT
      modifies this, pressurehPa, pressuremmHg
      ensures Valid()
      ensures unchanged(temperature, temperatureMin, temperatureMax, temperaturePerc, temperaturePercMin, temperaturePercMax)
      ensures s == PanelScale(pixels[..], Calibration.Pressure)
      ensures status == old(status) && timestamp == old(timestamp)
      ensures temperaturePrecision == old(temperaturePrecision) && temperatureRow0 == old(temperatureRow0)
      ensures s.Linear? ==>
        && pressurePrecisionhPa == s.precision && pressureRow0hPa == s.row0
        && PressureSampled(pixels[..], s.row0, s.precision, pressurehPa[..], pressuremmHg[..], CHART_WIDTH)
    {
      var top, bottom;
      top, bottom, s := ReadScale(pixels, Calibration.Pressure);
      if s.Linear? {
        pressurePrecisionhPa, pressureRow0hPa := s.precision, s.row0;
        SamplePressure(pixels, pressureRow0hPa, pressurePrecisionhPa, pressurehPa, pressuremmHg);
      }
    }

    /** The sampled series, as arrays, are the whole-panel series. */
    lemma SampledSeries(pixels: seq<int>, ts: Scale, ps: Scale)
      requires |pixels| == PIXEL_COUNT && Valid() && ts.Linear? && ps.Linear?
      requires TemperatureSampled(pixels, ts.row0, ts.precision, temperature[..], temperatureMax[..], temperatureMin[..],
        temperaturePerc[..], temperaturePercMax[..], temperaturePercMin[..], CHART_WIDTH)
      requires PressureSampled(pixels, ps.row0, ps.precision, pressurehPa[..], pressuremmHg[..], CHART_WIDTH)
      ensures temperature[..] == SampledTemperatures(pixels, ts.row0, ts.precision)
      ensures PressureSeries(pressurehPa[..], pressuremmHg[..]) == SampledPressure(pixels, ps.row0, ps.precision)
      ensures TemperatureSampled(pixels, ts.row0, ts.precision, SampledTemperatures(pixels, ts.row0, ts.precision),
        temperatureMax[..], temperatureMin[..], temperaturePerc[..], temperaturePercMax[..], temperaturePercMin[..], CHART_WIDTH)
    {
      var p := SampledPressure(pixels, ps.row0, ps.precision);
      assert pressurehPa[..] == p.hPa;
      assert pressuremmHg[..] == p.mmHg;
    }

    /**
     * The main parsing step: the temperature panel, the pressure panel, the
     * optional gap filling and the caption, in this order; a degenerate
     * scale or a gap filler overrun stops it.
     */
    method ParsePixels(pixels: array<int>, getTimestamp: (int, int, real) -> int)
      requires Valid() && pixels.Length == PIXEL_COUNT
      modifies this, temperature, temperatureMin, temperatureMax, temperaturePerc, temperaturePercMin, temperaturePercMax
      modifies pressurehPa, pressuremmHg
      ensures Valid()
      ensures Decoded(pixels[..], getTimestamp, old(timestamp))
    {
      ghost var img := pixels[..];
      var ts := ReadTemperature(pixels);
      if ts.Degenerate? {
        status := DegenerateScale;
        assert pixels[..] == img;
        return;
      }
      var ps := ReadPressure(pixels);
      assert pixels[..] == img;
      if ps.Degenerate? {
        status := DegenerateScale;
        return;
      }
      SampledSeries(img, ts, ps);
      FinishParsing(pixels, getTimestamp, ts, ps);
      assert pixels[..] == img;
    }

    /** After both panels are read: the optional gap filling, then the caption. */
    method FinishParsing(pixels: array<int>, getTimestamp: (int, int, real) -> int, ghost ts: Scale, ghost ps: Scale)
      requires Valid() && pixels.Length == PIXEL_COUNT && ts.Linear? && ps.Linear?
      requires temperaturePrecision == ts.precision && temperatureRow0 == ts.row0
      requires pressurePrecisionhPa == ps.precision && pressureRow0hPa == ps.row0
      requires temperature[..] == SampledTemperatures(pixels[..], ts.row0, ts.precision)
      requires PressureSeries(pressurehPa[..], pressuremmHg[..]) == SampledPressure(pixels[..], ps.row0, ps.precision)
      requires TemperatureSampled(pixels[..], ts.row0, ts.precision, temperature[..], temperatureMax[..], temperatureMin[..],
        temperaturePerc[..], temperaturePercMax[..], temperaturePercMin[..], CHART_WIDTH)
      modifies this, temperature, pressurehPa, pressuremmHg
      ensures Valid()
      ensures SeriesDecoded(pixels[..], ts, ps, getTimestamp, old(timestamp))
    {
      ghost var img := pixels[..];
      ghost var bands := [temperatureMax[..], temperatureMin[..], temperaturePerc[..], temperaturePercMax[..], temperaturePercMin[..]];
      if useHeuristicForMissingData {
        var ok := FixMissingData(temperature, pressurehPa, pressuremmHg);
        if !ok {
          status := IndexOverrun;
          return;
        }
      }
      assert bands == [temperatureMax[..], temperatureMin[..], temperaturePerc[..], temperaturePercMax[..], temperaturePercMin[..]];
      assert pixels[..] == img;
      timestamp := ReadDate(pixels, getTimestamp, timestamp);
      status := Parsed;
    }

    // -------------------------------------------------------------------
    // Accessors

    /** How many samples a series of the given kind holds. */
    function GetSampleNumber(kind: int): (r: Outcome<int>)
      ensures r.Success? <==> IsKnownType(kind)
      ensures r.Success? ==> r.value == CHART_WIDTH
      ensures r.Failure? ==> r.description == NOT_IMPLEMENTED
    {
      if IsKnownType(kind) then Success(CHART_WIDTH) else Failure(NOT_IMPLEMENTED)
    }

    /** The series of the given kind. */
    function GetSamples(kind: int): (r: Outcome<array<real>>)
      ensures r.Success? <==> IsKnownType(kind)
      ensures r.Failure? ==> r.description == NOT_IMPLEMENTED
    {
      if kind == TYPE_TEMPERATURE then Success(temperature)
      else if kind == TYPE_TEMPERATURE_MAX then Success(temperatureMax)
      else if kind == TYPE_TEMPERATURE_MIN then Success(temperatureMin)
      else if kind == TYPE_TEMPERATURE_PERCEPTIBLE then Success(temperaturePerc)
      else if kind == TYPE_TEMPERATURE_PERCEPTIBLE_MAX then Success(temperaturePercMax)
      else if kind == TYPE_TEMPERATURE_PERCEPTIBLE_MIN then Success(temperaturePercMin)
      else if kind == TYPE_PRESSURE_HPA then Success(pressurehPa)
      else if kind == TYPE_PRESSURE_MMHG then Success(pressuremmHg)
      else Failure(NOT_IMPLEMENTED)
    }

    /** The value step of one pixel row of the series of the given kind. */
    function GetPrecision(kind: int): (r: Outcome<real>)
      reads this
      ensures r.Success? <==> IsKnownType(kind)
      ensures r.Failure? ==> r.description == NOT_IMPLEMENTED
    {
      if IsTemperatureType(kind) then Success(temperaturePrecision)
      else if kind == TYPE_PRESSURE_HPA then Success(pressurePrecisionhPa)
      else if kind == TYPE_PRESSURE_MMHG then Success(ToMmHg(pressurePrecisionhPa))
      else Failure(NOT_IMPLEMENTED)
    }

    /**
     * The three accessors agree on which kinds exist, every series holds as
     * many samples as its count says, and each kind has its own array.
     */
    lemma AccessorsAgree(t1: int, t2: int)
      requires Valid()
      ensures GetSampleNumber(t1).Success? == GetSamples(t1).Success? == GetPrecision(t1).Success?
      ensures GetSamples(t1).Success? ==> GetSamples(t1).value.Length == GetSampleNumber(t1).value
      ensures GetSamples(t1).Success? && GetSamples(t2).Success? && t1 != t2 ==>
        GetSamples(t1).value != GetSamples(t2).value
    {
    }

    /** A successful decoding found both scales, stored them and sampled the temperature panel with them. */
    lemma ParsedSeries(pixels: seq<int>, getTimestamp: (int, int, real) -> int, previous: int)
      requires |pixels| == PIXEL_COUNT && Valid()
      requires Decoded(pixels, getTimestamp, previous) && status == Parsed
      ensures var ts, ps := PanelScale(pixels, Calibration.Temperature), PanelScale(pixels, Calibration.Pressure);
        && ts.Linear? && ps.Linear?
        && temperaturePrecision == ts.precision && temperatureRow0 == ts.row0
        && pressurePrecisionhPa == ps.precision && pressureRow0hPa == ps.row0
        && TemperatureSampled(pixels, ts.row0, ts.precision, SampledTemperatures(pixels, ts.row0, ts.precision),
             temperatureMax[..], temperatureMin[..], temperaturePerc[..], temperaturePercMax[..], temperaturePercMin[..], CHART_WIDTH)
    {
      var ts := PanelScale(pixels, Calibration.Temperature);
      var ps := PanelScale(pixels, Calibration.Pressure);
      assert SeriesDecoded(pixels, ts, ps, getTimestamp, previous);
    }

    /**
     * After a successful decoding every precision is non-negative, the six
     * temperature kinds share one precision and the mmHg precision is the
     * hPa precision converted.
     */
    lemma PrecisionsOfDecoded(pixels: seq<int>, getTimestamp: (int, int, real) -> int, previous: int, t: int)
      requires |pixels| == PIXEL_COUNT && Valid() && Decoded(pixels, getTimestamp, previous) && status == Parsed
      requires IsKnownType(t)
      ensures GetPrecision(t).value >= 0.0
      ensures IsTemperatureType(t) ==> GetPrecision(t) == GetPrecision(TYPE_TEMPERATURE)
      ensures GetPrecision(TYPE_PRESSURE_MMHG).value == ToMmHg(GetPrecision(TYPE_PRESSURE_HPA).value)
    {
      ParsedSeries(pixels, getTimestamp, previous);
      if pressurePrecisionhPa > 0.0 {
        ToMmHgMonotone(0.0, pressurePrecisionhPa);
      }
    }

    /**
     * Once the temperature panel is sampled into the model (as a successful
     * decoding leaves it, see ParsedSeries), in every chart column the
     * minimum the accessors return for the temperature band is at most its
     * maximum, or the column has no band and the two hold their sentinels
     * NOVALUE and -NOVALUE; the same for the perceived temperature's band.
     */
    lemma SampledAccessorBands(pixels: seq<int>, row0: real, precision: real, x: int)
      requires |pixels| == PIXEL_COUNT && Valid() && 0 <= x < CHART_WIDTH
      requires TemperatureSampled(pixels, row0, precision, SampledTemperatures(pixels, row0, precision),
        temperatureMax[..], temperatureMin[..], temperaturePerc[..], temperaturePercMax[..], temperaturePercMin[..], CHART_WIDTH)
      ensures var min, max := GetSamples(TYPE_TEMPERATURE_MIN).value, GetSamples(TYPE_TEMPERATURE_MAX).value;
        min[x] <= max[x] || (min[x] == NOVALUE as real && max[x] == -NOVALUE as real)
      ensures var min, max := GetSamples(TYPE_TEMPERATURE_PERCEPTIBLE_MIN).value, GetSamples(TYPE_TEMPERATURE_PERCEPTIBLE_MAX).value;
        min[x] <= max[x] || (min[x] == NOVALUE as real && max[x] == -NOVALUE as real)
    {
      SampledBands(pixels, row0, precision, SampledTemperatures(pixels, row0, precision),
        temperatureMax[..], temperatureMin[..], temperaturePerc[..], temperaturePercMax[..], temperaturePercMin[..], x);
    }
  }
}
