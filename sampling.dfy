/**
 * Column samplers of the chart decoder: every one of the CHART_WIDTH chart
 * columns of the temperature panel is classified by colour into a curve
 * value and a band (minimum, maximum) for the temperature and for the
 * perceived temperature; every column of the pressure panel gives the value
 * of its first black row, in hPa and in mmHg.
 */
module Sampling {
  import opened Options
  import opened Layout

  /** The colours of rows 0 .. height - 1 of chart column x of the panel starting at rowStart. */
  function Column(pixels: seq<int>, x: int, rowStart: int, height: nat): (col: seq<int>)
    requires |pixels| == PIXEL_COUNT && 0 <= x < CHART_WIDTH
    requires 0 <= rowStart && rowStart + height <= HEIGHT
    ensures |col| == height
  {
    seq(height, y requires 0 <= y < height => pixels[Index(CHART_START_COL + x, rowStart + y)])
  }

  function Min(a: int, b: int): int
  {
    if a <= b then a else b
  }

  function Max(a: int, b: int): int
  {
    if a >= b then a else b
  }

  function RMin(a: real, b: real): real
  {
    if a <= b then a else b
  }

  function RMax(a: real, b: real): real
  {
    if a >= b then a else b
  }

  /** The value a scale (precision, row0) gives panel row y. */
  function RowValue(row0: real, precision: real, y: int): real
  {
    row0 - precision * y as real
  }

  // ---------------------------------------------------------------------
  // Curves

  /** The running minimum of the rows y < n of colour c, starting from NOVALUE. */
  function MinRow(col: seq<int>, c: int, n: nat): int
    requires n <= |col|
  {
    if n == 0 then NOVALUE
    else if col[n - 1] == c then Min(MinRow(col, c, n - 1), n - 1)
    else MinRow(col, c, n - 1)
  }

  /** The running maximum of the rows y < n of colour c, starting from -NOVALUE. */
  function MaxRow(col: seq<int>, c: int, n: nat): int
    requires n <= |col|
  {
    if n == 0 then -NOVALUE
    else if col[n - 1] == c then Max(MaxRow(col, c, n - 1), n - 1)
    else MaxRow(col, c, n - 1)
  }

  /**
   * The running minimum stays NOVALUE exactly when colour c does not occur
   * in rows y < n; otherwise it is the first row of colour c.
   */
  lemma {:induction false} MinRowMeaning(col: seq<int>, c: int, n: nat)
    requires n <= |col| && n <= NOVALUE
    ensures var lo := MinRow(col, c, n);
      && (lo == NOVALUE <==> forall y | 0 <= y < n :: col[y] != c)
      && (lo != NOVALUE ==> 0 <= lo < n && col[lo] == c && forall y | 0 <= y < lo :: col[y] != c)
  {
    if n > 0 {
      MinRowMeaning(col, c, n - 1);
    }
  }

  /**
   * The running maximum stays -NOVALUE exactly when colour c does not occur
   * in rows y < n; otherwise it is the last row of colour c.
   */
  lemma {:induction false} MaxRowMeaning(col: seq<int>, c: int, n: nat)
    requires n <= |col| && n <= NOVALUE
    ensures var hi := MaxRow(col, c, n);
      && (hi == -NOVALUE <==> forall y | 0 <= y < n :: col[y] != c)
      && (hi != -NOVALUE ==> 0 <= hi < n && col[hi] == c && forall y | hi < y < n :: col[y] != c)
  {
    if n > 0 {
      MaxRowMeaning(col, c, n - 1);
    }
  }

  /**
   * The value of a curve drawn in colour c across the column: the value at
   * the middle of its first and last row, or NOVALUE when the colour does
   * not occur.
   */
  function CurveValue(col: seq<int>, c: int, row0: real, precision: real): real
  {
    var lo := MinRow(col, c, |col|);
    if lo != NOVALUE then row0 - precision * (MaxRow(col, c, |col|) + lo) as real / 2.0
    else NOVALUE as real
  }

  /**
   * A curve's value is NOVALUE when its colour does not occur in the column;
   * otherwise it is the mean of the values of the curve's first and last
   * rows, which lie between those two values.
   */
  lemma CurveValueMeaning(col: seq<int>, c: int, row0: real, precision: real)
    requires |col| <= NOVALUE
    ensures (forall y | 0 <= y < |col| :: col[y] != c) ==> CurveValue(col, c, row0, precision) == NOVALUE as real
    ensures (exists y | 0 <= y < |col| :: col[y] == c) ==>
      var lo := MinRow(col, c, |col|);
      var hi := MaxRow(col, c, |col|);
      && 0 <= lo <= hi < |col| && col[lo] == c && col[hi] == c
      && (forall y | 0 <= y < |col| && col[y] == c :: lo <= y <= hi)
      && CurveValue(col, c, row0, precision) == (RowValue(row0, precision, lo) + RowValue(row0, precision, hi)) / 2.0
  {
    MinRowMeaning(col, c, |col|);
    MaxRowMeaning(col, c, |col|);
  }

  /**
   * With a non-negative precision a curve's value is NOVALUE, or it lies
   * between the value of the column's last row and row0.
   */
  lemma CurveValueBounds(col: seq<int>, c: int, row0: real, precision: real)
    requires 0 < |col| <= NOVALUE && precision >= 0.0
    ensures var v := CurveValue(col, c, row0, precision);
      v == NOVALUE as real || RowValue(row0, precision, |col| - 1) <= v <= row0
  {
    CurveValueMeaning(col, c, row0, precision);
    if exists y | 0 <= y < |col| :: col[y] == c {
      var lo, hi := MinRow(col, c, |col|), MaxRow(col, c, |col|);
      var mid := (hi + lo) as real / 2.0;
      var last := (|col| - 1) as real;
      assert 0.0 <= mid <= last;
      assert CurveValue(col, c, row0, precision) == row0 - precision * mid;
      assert precision * mid >= 0.0;
      assert precision * (last - mid) >= 0.0;
    }
  }

  // ---------------------------------------------------------------------
  // Bands

  /** The band colour test: either of the two colours. */
  predicate InBand(col: seq<int>, c1: int, c2: int, y: int)
    requires 0 <= y < |col|
  {
    col[y] == c1 || col[y] == c2
  }

  /** The running minimum of the values of band rows y < n, starting from NOVALUE. */
  function BandLow(col: seq<int>, c1: int, c2: int, row0: real, precision: real, n: nat): real
    requires n <= |col|
  {
    if n == 0 then NOVALUE as real
    else if InBand(col, c1, c2, n - 1) then RMin(BandLow(col, c1, c2, row0, precision, n - 1), RowValue(row0, precision, n - 1))
    else BandLow(col, c1, c2, row0, precision, n - 1)
  }

  /** The running maximum of the values of band rows y < n, starting from -NOVALUE. */
  function BandHigh(col: seq<int>, c1: int, c2: int, row0: real, precision: real, n: nat): real
    requires n <= |col|
  {
    if n == 0 then -NOVALUE as real
    else if InBand(col, c1, c2, n - 1) then RMax(BandHigh(col, c1, c2, row0, precision, n - 1), RowValue(row0, precision, n - 1))
    else BandHigh(col, c1, c2, row0, precision, n - 1)
  }

  /**
   * The band's low end is at most NOVALUE and at most the value of every
   * band row, and it is NOVALUE or the value of some band row; the high end
   * mirrors it with -NOVALUE. Without band rows both keep their start values.
   */
  lemma {:induction false} BandMeaning(col: seq<int>, c1: int, c2: int, row0: real, precision: real, n: nat)
    requires n <= |col|
    ensures var low := BandLow(col, c1, c2, row0, precision, n);
      var high := BandHigh(col, c1, c2, row0, precision, n);
      && low <= NOVALUE as real && high >= -NOVALUE as real
      && (forall y | 0 <= y < n && InBand(col, c1, c2, y) :: low <= RowValue(row0, precision, y) <= high)
      && (low == NOVALUE as real || exists y | 0 <= y < n && InBand(col, c1, c2, y) :: low == RowValue(row0, precision, y))
      && (high == -NOVALUE as real || exists y | 0 <= y < n && InBand(col, c1, c2, y) :: high == RowValue(row0, precision, y))
      && ((forall y | 0 <= y < n :: !InBand(col, c1, c2, y)) ==> low == NOVALUE as real && high == -NOVALUE as real)
  {
    if n > 0 {
      BandMeaning(col, c1, c2, row0, precision, n - 1);
    }
  }

  /** Once a band row has been seen, the band's low end is not above its high end. */
  lemma BandOrdered(col: seq<int>, c1: int, c2: int, row0: real, precision: real, y: int)
    requires 0 <= y < |col| && InBand(col, c1, c2, y)
    ensures BandLow(col, c1, c2, row0, precision, |col|) <= BandHigh(col, c1, c2, row0, precision, |col|)
  {
    BandMeaning(col, c1, c2, row0, precision, |col|);
  }

  // ---------------------------------------------------------------------
  // Temperature panel

  /** What one column of the temperature panel yields. */
  datatype TemperatureSample = TemperatureSample(
    temperature: real, max: real, min: real,
    perceived: real, perceivedMax: real, perceivedMin: real)

  /** The temperature-panel column sample of a column of TEMPERATURE_PANEL_HEIGHT colours. */
  function TemperatureSampleOf(col: seq<int>, row0: real, precision: real): TemperatureSample
  {
    TemperatureSample(
      CurveValue(col, COLOR_TEMPERATURE_RED, row0, precision),
      BandHigh(col, COLOR_TEMPERATURE_MINMAX_RED1, COLOR_TEMPERATURE_MINMAX_RED2, row0, precision, |col|),
      BandLow(col, COLOR_TEMPERATURE_MINMAX_RED1, COLOR_TEMPERATURE_MINMAX_RED2, row0, precision, |col|),
      CurveValue(col, COLOR_TEMPERATURE_PERC_BLUE, row0, precision),
      BandHigh(col, COLOR_TEMPERATURE_PERC_MINMAX_BLUE, COLOR_TEMPERATURE_PERC_MINMAX_BLUE, row0, precision, |col|),
      BandLow(col, COLOR_TEMPERATURE_PERC_MINMAX_BLUE, COLOR_TEMPERATURE_PERC_MINMAX_BLUE, row0, precision, |col|))
  }

  /** Chart column x of the temperature panel. */
  function TemperatureColumn(pixels: seq<int>, x: int): (col: seq<int>)
    requires |pixels| == PIXEL_COUNT && 0 <= x < CHART_WIDTH
    ensures |col| == TEMPERATURE_PANEL_HEIGHT
  {
    Column(pixels, x, TEMPERATURE_ROW_START, TEMPERATURE_PANEL_HEIGHT)
  }

  /** Classifies the rows of chart column x of the temperature panel, top to bottom. */
  method SampleTemperatureColumn(pixels: array<int>, x: int, row0: real, precision: real) returns (s: TemperatureSample)
    requires pixels.Length == PIXEL_COUNT && 0 <= x < CHART_WIDTH
    ensures s == TemperatureSampleOf(TemperatureColumn(pixels[..], x), row0, precision)
  {
    ghost var col := TemperatureColumn(pixels[..], x);
    var bandMin, bandMax := NOVALUE as real, -NOVALUE as real;
    var percMin, percMax := NOVALUE as real, -NOVALUE as real;
    var minT, maxT := NOVALUE, -NOVALUE;
    var minP, maxP := NOVALUE, -NOVALUE;
    for y := 0 to TEMPERATURE_PANEL_HEIGHT
      invariant minT == MinRow(col, COLOR_TEMPERATURE_RED, y) && maxT == MaxRow(col, COLOR_TEMPERATURE_RED, y)
      invariant minP == MinRow(col, COLOR_TEMPERATURE_PERC_BLUE, y) && maxP == MaxRow(col, COLOR_TEMPERATURE_PERC_BLUE, y)
      invariant bandMin == BandLow(col, COLOR_TEMPERATURE_MINMAX_RED1, COLOR_TEMPERATURE_MINMAX_RED2, row0, precision, y)
      invariant bandMax == BandHigh(col, COLOR_TEMPERATURE_MINMAX_RED1, COLOR_TEMPERATURE_MINMAX_RED2, row0, precision, y)
      invariant percMin == BandLow(col, COLOR_TEMPERATURE_PERC_MINMAX_BLUE, COLOR_TEMPERATURE_PERC_MINMAX_BLUE, row0, precision, y)
      invariant percMax == BandHigh(col, COLOR_TEMPERATURE_PERC_MINMAX_BLUE, COLOR_TEMPERATURE_PERC_MINMAX_BLUE, row0, precision, y)
    {
      var pixel := pixels[Index(CHART_START_COL + x, TEMPERATURE_ROW_START + y)];
      assert pixel == col[y];
      if pixel == COLOR_TEMPERATURE_RED {
        minT := Min(minT, y);
        maxT := Max(maxT, y);
      }
      if pixel == COLOR_TEMPERATURE_PERC_BLUE {
        minP := Min(minP, y);
        maxP := Max(maxP, y);
      }
      if pixel == COLOR_TEMPERATURE_MINMAX_RED1 || pixel == COLOR_TEMPERATURE_MINMAX_RED2 {
        bandMin := RMin(bandMin, row0 - precision * y as real);
        bandMax := RMax(bandMax, row0 - precision * y as real);
      }
      if pixel == COLOR_TEMPERATURE_PERC_MINMAX_BLUE {
        percMin := RMin(percMin, row0 - precision * y as real);
        percMax := RMax(percMax, row0 - precision * y as real);
      }
    }
    var temperature := NOVALUE as real;
    var perceived := NOVALUE as real;
    if minT != NOVALUE {
      temperature := row0 - precision * (maxT + minT) as real / 2.0;
    }
    if minP != NOVALUE {
      perceived := row0 - precision * (maxP + minP) as real / 2.0;
    }
    s := TemperatureSample(temperature, bandMax, bandMin, perceived, percMax, percMin);
  }

  /** The six temperature series hold the column samples of the temperature panel. */
  ghost predicate TemperatureSampled(pixels: seq<int>, row0: real, precision: real,
    temperature: seq<real>, max: seq<real>, min: seq<real>,
    perceived: seq<real>, perceivedMax: seq<real>, perceivedMin: seq<real>, n: int)
    requires |pixels| == PIXEL_COUNT && 0 <= n <= CHART_WIDTH
    requires |temperature| == |max| == |min| == |perceived| == |perceivedMax| == |perceivedMin| == CHART_WIDTH
  {
    forall x | 0 <= x < n ::
      var s := TemperatureSampleOf(TemperatureColumn(pixels, x), row0, precision);
      && temperature[x] == s.temperature && max[x] == s.max && min[x] == s.min
      && perceived[x] == s.perceived && perceivedMax[x] == s.perceivedMax && perceivedMin[x] == s.perceivedMin
  }

  /** The temperature curve of the whole panel: the curve value of every chart column. */
  function SampledTemperatures(pixels: seq<int>, row0: real, precision: real): (t: seq<real>)
    requires |pixels| == PIXEL_COUNT
    ensures |t| == CHART_WIDTH
  {
    seq(CHART_WIDTH, x requires 0 <= x < CHART_WIDTH => TemperatureSampleOf(TemperatureColumn(pixels, x), row0, precision).temperature)
  }

  /**
   * With a non-negative precision every sample of the panel's temperature
   * curve is NOVALUE, or a value between those of the panel's last row and
   * of its first row.
   */
  lemma SampledTemperatureBounds(pixels: seq<int>, row0: real, precision: real)
    requires |pixels| == PIXEL_COUNT && precision >= 0.0
    ensures var t := SampledTemperatures(pixels, row0, precision);
      forall x | 0 <= x < CHART_WIDTH ::
        t[x] == NOVALUE as real || RowValue(row0, precision, TEMPERATURE_PANEL_HEIGHT - 1) <= t[x] <= row0
  {
    forall x | 0 <= x < CHART_WIDTH
      ensures var t := SampledTemperatures(pixels, row0, precision);
        t[x] == NOVALUE as real || RowValue(row0, precision, TEMPERATURE_PANEL_HEIGHT - 1) <= t[x] <= row0
    {
      CurveValueBounds(TemperatureColumn(pixels, x), COLOR_TEMPERATURE_RED, row0, precision);
    }
  }

  /**
   * In every sampled column the minimum of the temperature band is at most
   * its maximum, or the column has no band and the two keep their sentinels
   * NOVALUE and -NOVALUE; the same holds for the perceived temperature's band.
   */
  lemma SampledBands(pixels: seq<int>, row0: real, precision: real,
    temperature: seq<real>, max: seq<real>, min: seq<real>,
    perceived: seq<real>, perceivedMax: seq<real>, perceivedMin: seq<real>, x: int)
    requires |pixels| == PIXEL_COUNT && 0 <= x < CHART_WIDTH
    requires |temperature| == |max| == |min| == |perceived| == |perceivedMax| == |perceivedMin| == CHART_WIDTH
    requires TemperatureSampled(pixels, row0, precision, temperature, max, min, perceived, perceivedMax, perceivedMin, CHART_WIDTH)
    ensures min[x] <= max[x] || (min[x] == NOVALUE as real && max[x] == -NOVALUE as real)
    ensures perceivedMin[x] <= perceivedMax[x] || (perceivedMin[x] == NOVALUE as real && perceivedMax[x] == -NOVALUE as real)
  {
    var col := TemperatureColumn(pixels, x);
    BandMeaning(col, COLOR_TEMPERATURE_MINMAX_RED1, COLOR_TEMPERATURE_MINMAX_RED2, row0, precision, |col|);
    BandMeaning(col, COLOR_TEMPERATURE_PERC_MINMAX_BLUE, COLOR_TEMPERATURE_PERC_MINMAX_BLUE, row0, precision, |col|);
  }

  /** Fills the six temperature series, column by column, from the temperature panel. */
  method SampleTemperature(pixels: array<int>, row0: real, precision: real,
    temperature: array<real>, max: array<real>, min: array<real>,
    perceived: array<real>, perceivedMax: array<real>, perceivedMin: array<real>)
    requires pixels.Length == PIXEL_COUNT
    requires temperature.Length == max.Length == min.Length == CHART_WIDTH
    requires perceived.Length == perceivedMax.Length == perceivedMin.Length == CHART_WIDTH
    requires temperature != max && temperature != min && temperature != perceived
    requires temperature != perceivedMax && temperature != perceivedMin
    requires max != min && max != perceived && max != perceivedMax && max != perceivedMin
    requires min != perceived && min != perceivedMax && min != perceivedMin
    requires perceived != perceivedMax && perceived != perceivedMin && perceivedMax != perceivedMin
    modifies temperature, max, min, perceived, perceivedMax, perceivedMin
    ensures TemperatureSampled(pixels[..], row0, precision,
      temperature[..], max[..], min[..], perceived[..], perceivedMax[..], perceivedMin[..], CHART_WIDTH)
  {
    for x := 0 to CHART_WIDTH
      invariant TemperatureSampled(pixels[..], row0, precision,
        temperature[..], max[..], min[..], perceived[..], perceivedMax[..], perceivedMin[..], x)
    {
      var s := SampleTemperatureColumn(pixels, x, row0, precision);
      temperature[x] := s.temperature;
      max[x] := s.max;
      min[x] := s.min;
      perceived[x] := s.perceived;
      perceivedMax[x] := s.perceivedMax;
      perceivedMin[x] := s.perceivedMin;
    }
  }

  // ---------------------------------------------------------------------
  // Pressure panel

  /** The hPa to mmHg factor of the chart decoder. */
  const MMHG_PER_HPA: real := 0.75006156130

  /** A pressure in hPa converted to mmHg. */
  function ToMmHg(hPa: real): real
  {
    hPa * MMHG_PER_HPA
  }

  /** The conversion is strictly increasing and fixes 0. */
  lemma ToMmHgMonotone(a: real, b: real)
    requires a < b
    ensures ToMmHg(a) < ToMmHg(b) && ToMmHg(0.0) == 0.0
  {
  }

  /** The first row y0 >= y of colour c, if any. */
  function FirstRow(col: seq<int>, c: int, y: nat): Option<nat>
    decreases |col| - y
  {
    if y >= |col| then None
    else if col[y] == c then Some(y)
    else FirstRow(col, c, y + 1)
  }

  /** The first row of colour c from y on: of that colour, with none of it in between; None when there is none. */
  lemma {:induction false} FirstRowMeaning(col: seq<int>, c: int, y: nat)
    ensures match FirstRow(col, c, y)
      case None => forall z | y <= z < |col| :: col[z] != c
      case Some(r) => y <= r < |col| && col[r] == c && forall z | y <= z < r :: col[z] != c
    decreases |col| - y
  {
    if y < |col| && col[y] != c {
      FirstRowMeaning(col, c, y + 1);
    }
  }

  /** What one column of the pressure panel yields. */
  datatype PressureSample = PressureSample(hPa: real, mmHg: real)

  const NO_PRESSURE: PressureSample := PressureSample(NOVALUE as real, NOVALUE as real)

  /**
   * The pressure of a column: the value of its first black row, in hPa and
   * mmHg, or NOVALUE twice when there is no black row or the first one is
   * the panel's top row (a dotted vertical line crossing the panel).
   */
  function PressureSampleOf(col: seq<int>, row0: real, precision: real): PressureSample
  {
    match FirstRow(col, COLOR_BLACK, 0)
    case None => NO_PRESSURE
    case Some(y) =>
      if y == 0 then NO_PRESSURE
      else
        var hPa := RowValue(row0, precision, y);
        PressureSample(hPa, ToMmHg(hPa))
  }

  /**
   * A column has no pressure when it has no black row or its top row is
   * black; otherwise its pressure is the value of its first black row, in
   * hPa and converted to mmHg.
   */
  lemma PressureSampleMeaning(col: seq<int>, row0: real, precision: real)
    ensures var s := PressureSampleOf(col, row0, precision);
      && ((forall y | 0 <= y < |col| :: col[y] != COLOR_BLACK) ==> s == NO_PRESSURE)
      && (|col| > 0 && col[0] == COLOR_BLACK ==> s == NO_PRESSURE)
      && (forall y | 1 <= y < |col| && col[y] == COLOR_BLACK && (forall z | 0 <= z < y :: col[z] != COLOR_BLACK) ::
            s == PressureSample(RowValue(row0, precision, y), ToMmHg(RowValue(row0, precision, y))))
  {
    FirstRowMeaning(col, COLOR_BLACK, 0);
    forall y | 1 <= y < |col| && col[y] == COLOR_BLACK && (forall z | 0 <= z < y :: col[z] != COLOR_BLACK)
      ensures FirstRow(col, COLOR_BLACK, 0) == Some(y)
    {
    }
  }

  /** Chart column x of the pressure panel. */
  function PressureColumn(pixels: seq<int>, x: int): (col: seq<int>)
    requires |pixels| == PIXEL_COUNT && 0 <= x < CHART_WIDTH
    ensures |col| == PRESSURE_PANEL_HEIGHT
  {
    Column(pixels, x, PRESSURE_ROW_START, PRESSURE_PANEL_HEIGHT)
  }

  /** Scans chart column x of the pressure panel down to its first black row. */
  method SamplePressureColumn(pixels: array<int>, x: int, row0: real, precision: real) returns (s: PressureSample)
    requires pixels.Length == PIXEL_COUNT && 0 <= x < CHART_WIDTH
    ensures s == PressureSampleOf(PressureColumn(pixels[..], x), row0, precision)
  {
    ghost var col := PressureColumn(pixels[..], x);
    s := NO_PRESSURE;
    for y := 0 to PRESSURE_PANEL_HEIGHT
      invariant FirstRow(col, COLOR_BLACK, y) == FirstRow(col, COLOR_BLACK, 0)
    {
      var pixel := pixels[Index(CHART_START_COL + x, PRESSURE_ROW_START + y)];
      assert pixel == col[y];
      if pixel == COLOR_BLACK {
        if y == 0 {
          return;
        }
        var hPa := row0 - precision * y as real;
        s := PressureSample(hPa, ToMmHg(hPa));
        return;
      }
    }
  }

  /** The two pressure series hold the column samples of the pressure panel. */
  ghost predicate PressureSampled(pixels: seq<int>, row0: real, precision: real,
    hPa: seq<real>, mmHg: seq<real>, n: int)
    requires |pixels| == PIXEL_COUNT && 0 <= n <= CHART_WIDTH
    requires |hPa| == |mmHg| == CHART_WIDTH
  {
    forall x | 0 <= x < n :: PressureSample(hPa[x], mmHg[x]) == PressureSampleOf(PressureColumn(pixels, x), row0, precision)
  }

  /** Fills the two pressure series, column by column, from the pressure panel. */
  method SamplePressure(pixels: array<int>, row0: real, precision: real, hPa: array<real>, mmHg: array<real>)
    requires pixels.Length == PIXEL_COUNT
    requires hPa.Length == mmHg.Length == CHART_WIDTH && hPa != mmHg
    modifies hPa, mmHg
    ensures PressureSampled(pixels[..], row0, precision, hPa[..], mmHg[..], CHART_WIDTH)
  {
    for x := 0 to CHART_WIDTH
      invariant PressureSampled(pixels[..], row0, precision, hPa[..], mmHg[..], x)
    {
      var s := SamplePressureColumn(pixels, x, row0, precision);
      hPa[x] := s.hPa;
      mmHg[x] := s.mmHg;
    }
  }
}
