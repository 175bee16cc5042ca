/**
 * Axis calibration of the chart decoder: the legible axis label nearest the
 * top of a panel and the one nearest its bottom are the two anchors of a
 * linear map from panel rows to values (precision per row, value of the
 * panel's first row).
 */
module Calibration {
  import opened Layout
  import opened Numbers

  /** The two panels whose vertical axis carries value labels. */
  datatype Panel = Temperature | Pressure

  /** First row of the panel: panel row 0 of its scale. */
  function RowStart(p: Panel): int
  {
    match p
    case Temperature => TEMPERATURE_ROW_START
    case Pressure => PRESSURE_ROW_START
  }

  /** First row scanned for a label: a label may start DIGIT_HEIGHT rows above the panel. */
  function ScanFirst(p: Panel): int
  {
    match p
    case Temperature => TEMPERATURE_ROW_START - DIGIT_HEIGHT
    case Pressure => PRESSURE_ROW_START - DIGIT_HEIGHT
  }

  /**
   * Number of rows a scan may try, ScanFirst .. the panel's last row; the
   * same 84 for both panels.
   */
  const SCAN_ROWS: int := 84

  lemma ScanRows()
    ensures TEMPERATURE_ROW_END - ScanFirst(Temperature) + 1 == SCAN_ROWS
    ensures PRESSURE_ROW_END - ScanFirst(Pressure) + 1 == SCAN_ROWS
  {
  }

  /** Every temperature label window of the scans lies inside the image. */
  lemma TemperatureLabelIn(pixels: seq<int>, i: int)
    requires |pixels| == PIXEL_COUNT && 50 <= i <= 133
    ensures NumberIn(pixels, TEMPERATURE_TEXT_COL, i, 3)
  {
    ImageWindow(pixels, TEMPERATURE_TEXT_COL, i, 9);
    ImageWindow(pixels, SlotCol(TEMPERATURE_TEXT_COL, 2), i, 9);
  }

  /** Every pressure label window of the scans lies inside the image. */
  lemma PressureLabelIn(pixels: seq<int>, i: int)
    requires |pixels| == PIXEL_COUNT && 222 <= i <= 305
    ensures NumberIn(pixels, PRESSURE_TEXT_COL, i, 4)
  {
    ImageWindow(pixels, PRESSURE_TEXT_COL, i, 9);
    ImageWindow(pixels, SlotCol(PRESSURE_TEXT_COL, 3), i, 9);
  }

  /**
   * The labels read at rows 50 .. 133 of the temperature axis, top to
   * bottom: up to three black digits at column TEMPERATURE_TEXT_COL.
   */
  ghost function TemperatureLabels(pixels: seq<int>): (ls: seq<int>)
    requires |pixels| == PIXEL_COUNT
    ensures |ls| == 84
  {
    seq(84, k requires 0 <= k < 84 =>
      TemperatureLabelIn(pixels, 50 + k); UpTo3DigitAt(pixels, TEMPERATURE_TEXT_COL, 50 + k, COLOR_BLACK))
  }

  /**
   * The labels read at rows 222 .. 305 of the pressure axis, top to bottom:
   * three or four black digits at column PRESSURE_TEXT_COL.
   */
  ghost function PressureLabels(pixels: seq<int>): (ls: seq<int>)
    requires |pixels| == PIXEL_COUNT
    ensures |ls| == 84
  {
    seq(84, k requires 0 <= k < 84 =>
      PressureLabelIn(pixels, 222 + k); ThreeOr4DigitAt(pixels, PRESSURE_TEXT_COL, 222 + k, COLOR_BLACK))
  }

  lemma TemperatureLabelAt(pixels: seq<int>, i: int)
    requires |pixels| == PIXEL_COUNT && 50 <= i <= 133
    ensures NumberIn(pixels, TEMPERATURE_TEXT_COL, i, 3)
    ensures TemperatureLabels(pixels)[i - 50] == UpTo3DigitAt(pixels, TEMPERATURE_TEXT_COL, i, COLOR_BLACK)
  {
    TemperatureLabelIn(pixels, i);
  }

  lemma PressureLabelAt(pixels: seq<int>, i: int)
    requires |pixels| == PIXEL_COUNT && 222 <= i <= 305
    ensures NumberIn(pixels, PRESSURE_TEXT_COL, i, 4)
    ensures PressureLabels(pixels)[i - 222] == ThreeOr4DigitAt(pixels, PRESSURE_TEXT_COL, i, COLOR_BLACK)
  {
    PressureLabelIn(pixels, i);
  }

  /** The labels a panel's scans read, from ScanFirst down to the panel's last row. */
  ghost function Labels(pixels: seq<int>, p: Panel): (ls: seq<int>)
    requires |pixels| == PIXEL_COUNT
    ensures |ls| == SCAN_ROWS
  {
    match p
    case Temperature => TemperatureLabels(pixels)
    case Pressure => PressureLabels(pixels)
  }

  /** Every label a scan reads is ERR or a value of at most four digits. */
  lemma LabelBounds(pixels: seq<int>, p: Panel, k: int)
    requires |pixels| == PIXEL_COUNT && 0 <= k < SCAN_ROWS
    ensures var v := Labels(pixels, p)[k]; v == ERR || -9999 <= v <= 9999
  {
    match p
    case Temperature =>
      TemperatureLabelAt(pixels, 50 + k);
      UpTo3DigitMeaning(pixels, TEMPERATURE_TEXT_COL, 50 + k, COLOR_BLACK);
    case Pressure =>
      PressureLabelAt(pixels, 222 + k);
      ThreeOr4DigitMeaning(pixels, PRESSURE_TEXT_COL, 222 + k, COLOR_BLACK);
  }

  /**
   * Reads the label with its top-left pixel at row i of the panel's text
   * column, which is entry i - ScanFirst of the panel's labels.
   */
  method ReadLabel(pixels: array<int>, p: Panel, i: int, ghost labels: seq<int>) returns (v: int)
    requires pixels.Length == PIXEL_COUNT && ScanFirst(p) <= i < ScanFirst(p) + SCAN_ROWS
    requires labels == Labels(pixels[..], p)
    ensures v == labels[i - ScanFirst(p)]
  {
    match p
    case Temperature =>
      TemperatureLabelAt(pixels[..], i);
      v := ReadUpTo3Digit(pixels, TEMPERATURE_TEXT_COL, i, COLOR_BLACK);
    case Pressure =>
      PressureLabelAt(pixels[..], i);
      v := Read3Or4Digit(pixels, PRESSURE_TEXT_COL, i, COLOR_BLACK);
  }

  // ---------------------------------------------------------------------
  // Anchors

  /**
   * A calibration anchor: the row of a label's middle (its top row + 4) and
   * the label's value. A scan that finds no label leaves both at 0.
   */
  datatype Anchor = Anchor(row: int, value: int)

  const NO_ANCHOR: Anchor := Anchor(0, 0)

  /**
   * The downward scan over labels read at rows first, first + 1, ...: the
   * first legible label from entry k on, the last entry excluded.
   */
  function TopScan(labels: seq<int>, first: int, k: nat): Anchor
    decreases |labels| - k
  {
    if k + 1 >= |labels| then NO_ANCHOR
    else if labels[k] != ERR then Anchor(first + k + 4, labels[k])
    else TopScan(labels, first, k + 1)
  }

  /** The upward scan: the first legible label from entry k back to entry 1. */
  function BottomScan(labels: seq<int>, first: int, k: int): Anchor
    requires k < |labels|
    decreases k
  {
    if k <= 0 then NO_ANCHOR
    else if labels[k] != ERR then Anchor(first + k + 4, labels[k])
    else BottomScan(labels, first, k - 1)
  }

  /**
   * The downward scan from entry k finds no anchor exactly when no entry
   * from k to the last but one is legible; otherwise its anchor is 4 rows
   * below the first legible entry and carries that entry's label.
   */
  lemma {:induction false} TopScanMeaning(labels: seq<int>, first: int, k: nat)
    requires first >= 0
    ensures var a := TopScan(labels, first, k);
      && (a == NO_ANCHOR <==> forall j | k <= j < |labels| - 1 :: labels[j] == ERR)
      && (a != NO_ANCHOR ==>
            && k <= a.row - 4 - first < |labels| - 1
            && a.value == labels[a.row - 4 - first] != ERR
            && forall j | k <= j < a.row - 4 - first :: labels[j] == ERR)
    decreases |labels| - k
  {
    if k + 1 < |labels| && labels[k] == ERR {
      TopScanMeaning(labels, first, k + 1);
    }
  }

  /**
   * The upward scan from entry k finds no anchor exactly when no entry from
   * k down to entry 1 is legible; otherwise its anchor is 4 rows below the
   * first legible entry met and carries that entry's label.
   */
  lemma {:induction false} BottomScanMeaning(labels: seq<int>, first: int, k: int)
    requires first >= 0 && k < |labels|
    ensures var a := BottomScan(labels, first, k);
      && (a == NO_ANCHOR <==> forall j | 0 < j <= k :: labels[j] == ERR)
      && (a != NO_ANCHOR ==>
            && 0 < a.row - 4 - first <= k
            && a.value == labels[a.row - 4 - first] != ERR
            && forall j | a.row - 4 - first < j <= k :: labels[j] == ERR)
    decreases k
  {
    if k > 0 && labels[k] == ERR {
      BottomScanMeaning(labels, first, k - 1);
    }
  }

  /**
   * When both scans over the same labels find one, the top anchor is not
   * below the bottom one: it is the upper-most legible row, the bottom
   * anchor the lower-most.
   */
  lemma AnchorsOrdered(labels: seq<int>, first: int)
    requires first >= 0 && |labels| > 0
    requires TopScan(labels, first, 0) != NO_ANCHOR && BottomScan(labels, first, |labels| - 1) != NO_ANCHOR
    ensures TopScan(labels, first, 0).row <= BottomScan(labels, first, |labels| - 1).row
  {
    TopScanMeaning(labels, first, 0);
    BottomScanMeaning(labels, first, |labels| - 1);
  }

  /** The top anchor: the first legible label from DIGIT_HEIGHT rows above the panel downwards. */
  ghost function TopAnchor(pixels: seq<int>, p: Panel): Anchor
    requires |pixels| == PIXEL_COUNT
  {
    TopScan(Labels(pixels, p), ScanFirst(p), 0)
  }

  /** The bottom anchor: the first legible label from the panel's last row upwards. */
  ghost function BottomAnchor(pixels: seq<int>, p: Panel): Anchor
    requires |pixels| == PIXEL_COUNT
  {
    BottomScan(Labels(pixels, p), ScanFirst(p), SCAN_ROWS - 1)
  }

  /** Scans down from DIGIT_HEIGHT rows above the panel to its last row but one for the first legible label. */
  method FindTopAnchor(pixels: array<int>, p: Panel) returns (a: Anchor)
    requires pixels.Length == PIXEL_COUNT
    ensures a == TopAnchor(pixels[..], p)
  {
    ghost var labels := Labels(pixels[..], p);
    var first := ScanFirst(p);
    for i := first to first + SCAN_ROWS - 1
      invariant TopScan(labels, first, i - first) == TopScan(labels, first, 0)
    {
      var v := ReadLabel(pixels, p, i, labels);
      if v != ERR {
        return Anchor(i + 4, v);
      }
    }
    return NO_ANCHOR;
  }

  /** Scans up from the panel's last row to the row after ScanFirst for the first legible label. */
  method FindBottomAnchor(pixels: array<int>, p: Panel) returns (a: Anchor)
    requires pixels.Length == PIXEL_COUNT
    ensures a == BottomAnchor(pixels[..], p)
  {
    ghost var labels := Labels(pixels[..], p);
    var first := ScanFirst(p);
    for i := first + SCAN_ROWS downto first + 1
      invariant BottomScan(labels, first, i - 1 - first) == BottomScan(labels, first, SCAN_ROWS - 1)
    {
      var v := ReadLabel(pixels, p, i, labels);
      if v != ERR {
        return Anchor(i + 4, v);
      }
    }
    return NO_ANCHOR;
  }

  // ---------------------------------------------------------------------
  // The linear scale

  function Abs(n: int): nat
  {
    if n < 0 then -n else n
  }

  /**
   * A panel's row-to-value map: the value at panel row y (0 at rowStart) is
   * row0 - precision * y. Degenerate stands for the division by a zero row
   * distance, which yields NaN or an infinity in floating point.
   */
  datatype Scale = Linear(precision: real, row0: real) | Degenerate

  /** The value the scale assigns to panel row y. */
  function ValueAt(s: Scale, y: int): real
    requires s.Linear?
  {
    s.row0 - s.precision * y as real
  }

  /** The value difference between the two labels. */
  function Span(a: int, b: int): nat
  {
    Abs(a - b)
  }

  /**
   * The value difference as the chart decoder computes it: the labels'
   * sum, not their difference, when their signs differ.
   */
  function SpanAsWritten(a: int, b: int): nat
  {
    if a * b < 0 then Abs(a + b) else Abs(a - b)
  }

  /** The scale through the two anchors of a panel whose first row is rowStart. */
  function ScaleOf(top: Anchor, bottom: Anchor, rowStart: int): (s: Scale)
    ensures s.Degenerate? <==> top.row == bottom.row
    ensures s.Linear? ==> s.precision >= 0.0
  {
    if top.row == bottom.row then Degenerate
    else
      var precision := Span(top.value, bottom.value) as real / Abs(top.row - bottom.row) as real;
      Linear(precision, top.value as real + precision * (top.row - rowStart) as real)
  }

  /** The temperature scale as the chart decoder computes it. */
  function ScaleAsWritten(top: Anchor, bottom: Anchor, rowStart: int): (s: Scale)
    ensures s.Degenerate? <==> top.row == bottom.row
    ensures s.Linear? ==> s.precision >= 0.0
  {
    if top.row == bottom.row then Degenerate
    else
      var precision := SpanAsWritten(top.value, bottom.value) as real / Abs(top.row - bottom.row) as real;
      Linear(precision, top.value as real + precision * (top.row - rowStart) as real)
  }

  /**
   * The pressure scale as the chart decoder computes it: the value of the
   * panel's first row is extrapolated with the temperature precision.
   */
  function PressureScaleAsWritten(top: Anchor, bottom: Anchor, temperaturePrecision: real): (s: Scale)
    ensures s.Degenerate? <==> top.row == bottom.row
  {
    if top.row == bottom.row then Degenerate
    else
      var precision := SpanAsWritten(top.value, bottom.value) as real / Abs(top.row - bottom.row) as real;
      Linear(precision, top.value as real + temperaturePrecision * (top.row - PRESSURE_ROW_START) as real)
  }

  /**
   * On an axis whose labels decrease downwards, the scale passes through
   * both anchors: the top anchor's row gets the top label, the bottom
   * anchor's row the bottom label.
   */
  lemma ScaleThroughAnchors(top: Anchor, bottom: Anchor, rowStart: int)
    requires top.row < bottom.row && top.value >= bottom.value
    ensures var s := ScaleOf(top, bottom, rowStart);
      && s.Linear?
      && ValueAt(s, top.row - rowStart) == top.value as real
      && ValueAt(s, bottom.row - rowStart) == bottom.value as real
  {
    var s := ScaleOf(top, bottom, rowStart);
    var p := s.precision;
    var t := (top.row - rowStart) as real;
    var d := (bottom.row - top.row) as real;
    assert s.row0 == top.value as real + p * t;
    assert ValueAt(s, top.row - rowStart) == s.row0 - p * t;
    assert p == (top.value - bottom.value) as real / d;
    assert p * d == (top.value - bottom.value) as real;
    assert p * (bottom.row - rowStart) as real == p * t + p * d;
  }

  /** The scale never increases downwards: a lower row never gets a larger value. */
  lemma ScaleNonIncreasing(top: Anchor, bottom: Anchor, rowStart: int, y1: int, y2: int)
    requires top.row != bottom.row && y1 <= y2
    ensures var s := ScaleOf(top, bottom, rowStart); ValueAt(s, y2) <= ValueAt(s, y1)
  {
    var s := ScaleOf(top, bottom, rowStart);
    assert s.precision * y1 as real <= s.precision * y2 as real;
  }

  /**
   * The decoder's span is wrong when the labels' signs differ: with 10 at
   * row 62 and -5 at row 122 of the temperature panel it maps row 122 to 5
   * instead of -5; the corrected scale maps it to -5.
   */
  lemma SpanSignChangeMisreads()
    ensures var top := Anchor(62, 10);
      var bottom := Anchor(122, -5);
      && ValueAt(ScaleAsWritten(top, bottom, TEMPERATURE_ROW_START), 122 - TEMPERATURE_ROW_START) == 5.0
      && ValueAt(ScaleOf(top, bottom, TEMPERATURE_ROW_START), 122 - TEMPERATURE_ROW_START) == -5.0
  {
    var top := Anchor(62, 10);
    var bottom := Anchor(122, -5);
    assert SpanAsWritten(10, -5) == 5;
    assert ScaleAsWritten(top, bottom, TEMPERATURE_ROW_START) == Linear(5.0 / 60.0, 10.0 + 5.0 / 60.0 * 4.0);
    ScaleThroughAnchors(top, bottom, TEMPERATURE_ROW_START);
  }

  /**
   * The decoder's pressure scale misses its own top anchor when the two
   * panels' precisions differ: labels 1020 at row 240 and 1000 at row 300
   * with a temperature precision of 0.5 map row 240 to 1020 + 5 - 10/3, while
   * the corrected scale maps it to 1020.
   */
  lemma PressureRow0Misreads()
    ensures var top := Anchor(240, 1020);
      var bottom := Anchor(300, 1000);
      && ValueAt(PressureScaleAsWritten(top, bottom, 0.5), 240 - PRESSURE_ROW_START) != 1020.0
      && ValueAt(ScaleOf(top, bottom, PRESSURE_ROW_START), 240 - PRESSURE_ROW_START) == 1020.0
  {
    var top := Anchor(240, 1020);
    var bottom := Anchor(300, 1000);
    assert SpanAsWritten(1020, 1000) == 20;
    assert PressureScaleAsWritten(top, bottom, 0.5) == Linear(20.0 / 60.0, 1020.0 + 0.5 * 10.0);
    ScaleThroughAnchors(top, bottom, PRESSURE_ROW_START);
  }

  /** Without a sign change the decoder's span is the corrected one, and so is its temperature scale. */
  lemma SpanAsWrittenAgrees(top: Anchor, bottom: Anchor, rowStart: int)
    requires top.value * bottom.value >= 0
    ensures ScaleAsWritten(top, bottom, rowStart) == ScaleOf(top, bottom, rowStart)
  {
  }

  /**
   * With labels of magnitude at most m and a top anchor at most h rows below
   * the panel's first row, the scale's first-row value is at most m + 2m * h:
   * the precision is at most the span 2m, the rows being whole and distinct.
   */
  lemma ScaleRow0Bound(top: Anchor, bottom: Anchor, rowStart: int, m: nat, h: nat)
    requires top.row != bottom.row
    requires -(m as int) <= top.value <= m && -(m as int) <= bottom.value <= m
    requires top.row - rowStart <= h
    ensures ScaleOf(top, bottom, rowStart).row0 <= (m + 2 * m * h) as real
  {
    var s := ScaleOf(top, bottom, rowStart);
    var span := Span(top.value, bottom.value) as real;
    var d := Abs(top.row - bottom.row) as real;
    assert span <= (2 * m) as real;
    PrecisionAtMostSpan(s.precision, d, span);
    ProductBound(s.precision, (top.row - rowStart) as real, (2 * m) as real, h as real);
    assert (m + 2 * m * h) as real == m as real + (2 * m) as real * h as real;
  }

  /** A precision span / d over a row distance d of at least 1 is at most the span. */
  lemma PrecisionAtMostSpan(p: real, d: real, span: real)
    requires d >= 1.0 && span >= 0.0 && p == span / d
    ensures 0.0 <= p <= span
  {
    assert p * d == span;
    assert p * (d - 1.0) >= 0.0;
  }

  /** A factor in [0, b] times one at most h (h >= 0) is at most b * h. */
  lemma ProductBound(p: real, t: real, b: real, h: real)
    requires 0.0 <= p <= b && t <= h && 0.0 <= h
    ensures p * t <= b * h
  {
    if t > 0.0 {
      assert (b - p) * t >= 0.0;
      assert b * (h - t) >= 0.0;
    } else {
      assert p * t <= 0.0;
      assert b * h >= 0.0;
    }
  }

  /** The temperature label read at scan entry k is ERR or has at most three digits. */
  lemma TemperatureLabelBound(pixels: seq<int>, k: int)
    requires |pixels| == PIXEL_COUNT && 0 <= k < SCAN_ROWS
    ensures var v := Labels(pixels, Temperature)[k]; v == ERR || -999 <= v <= 999
  {
    TemperatureLabelAt(pixels, 50 + k);
    UpTo3DigitMeaning(pixels, TEMPERATURE_TEXT_COL, 50 + k, COLOR_BLACK);
  }

  /**
   * The top temperature anchor is NO_ANCHOR or a label of at most three
   * digits whose middle row is at most 78 rows below the panel's first row.
   */
  lemma TopTemperatureAnchorBounds(pixels: seq<int>)
    requires |pixels| == PIXEL_COUNT
    ensures var a := TopAnchor(pixels, Temperature);
      -999 <= a.value <= 999 && a.row - TEMPERATURE_ROW_START <= 78
  {
    var labels := Labels(pixels, Temperature);
    var first := ScanFirst(Temperature);
    TopScanMeaning(labels, first, 0);
    var a := TopScan(labels, first, 0);
    if a != NO_ANCHOR {
      TemperatureLabelBound(pixels, a.row - 4 - first);
    }
  }

  /**
   * The bottom temperature anchor is NO_ANCHOR or a label of at most three
   * digits whose middle row is at most 79 rows below the panel's first row.
   */
  lemma BottomTemperatureAnchorBounds(pixels: seq<int>)
    requires |pixels| == PIXEL_COUNT
    ensures var a := BottomAnchor(pixels, Temperature);
      -999 <= a.value <= 999 && a.row - TEMPERATURE_ROW_START <= 79
  {
    var labels := Labels(pixels, Temperature);
    var first := ScanFirst(Temperature);
    BottomScanMeaning(labels, first, SCAN_ROWS - 1);
    var a := BottomScan(labels, first, SCAN_ROWS - 1);
    if a != NO_ANCHOR {
      TemperatureLabelBound(pixels, a.row - 4 - first);
    }
  }

  /**
   * The temperature panel's scale read from any image, when it is not
   * degenerate, has a non-negative precision and a first-row value of at
   * most 999 + 1998 * 78, far below NOVALUE: no row of the panel maps to
   * the missing-value marker or above it.
   */
  lemma TemperatureScaleBounds(pixels: seq<int>)
    requires |pixels| == PIXEL_COUNT
    ensures var s := PanelScale(pixels, Temperature);
      s.Linear? ==> s.precision >= 0.0 && s.row0 <= (999 + 1998 * 78) as real && s.row0 < NOVALUE as real
  {
    var top, bottom := TopAnchor(pixels, Temperature), BottomAnchor(pixels, Temperature);
    if top.row != bottom.row {
      TopTemperatureAnchorBounds(pixels);
      BottomTemperatureAnchorBounds(pixels);
      ScaleRow0Bound(top, bottom, TEMPERATURE_ROW_START, 999, 78);
    }
  }

  /** The scale of a panel as read from the image. */
  ghost function PanelScale(pixels: seq<int>, p: Panel): Scale
    requires |pixels| == PIXEL_COUNT
  {
    ScaleOf(TopAnchor(pixels, p), BottomAnchor(pixels, p), RowStart(p))
  }

  /** Reads the scale of a panel from its two anchors. */
  method ReadScale(pixels: array<int>, p: Panel) returns (top: Anchor, bottom: Anchor, s: Scale)
    requires pixels.Length == PIXEL_COUNT
    ensures top == TopAnchor(pixels[..], p) && bottom == BottomAnchor(pixels[..], p)
    ensures s == ScaleOf(top, bottom, RowStart(p))
  {
    top := FindTopAnchor(pixels, p);
    bottom := FindBottomAnchor(pixels, p);
    s := ScaleOf(top, bottom, RowStart(p));
  }
}
