/**
 * The date and time caption under the chart. The decoder looks along the
 * date row for the first column where four digits stand at offsets 0, 7,
 * 17 and 24 (day and month, two digits each), and along the time row for
 * the first column where two digits stand at offsets 0 and 7 (the hour).
 * The hour label sits to the right of the chart's left edge, so the hour
 * is moved back by the whole hours the chart covers up to the label's
 * right digit, at the chart's scale of three days over CHART_WIDTH columns.
 * The date, the corrected hour and the client's clock give the timestamp.
 */
module Caption {
  import opened Options
  import opened Layout
  import opened Glyphs

  /** Offsets, from the search column, of the day's, then the month's two digits. */
  const DAY_TENS: int := 0
  const DAY_UNITS: int := 7
  const MONTH_TENS: int := 17
  const MONTH_UNITS: int := 24
  /** Offsets of the hour's two digits. */
  const HOUR_TENS: int := 0
  const HOUR_UNITS: int := 7

  /** Seconds of chart time per chart column: three days over CHART_WIDTH columns, truncated. */
  const SEC_PER_PIXEL: int := 60 * 60 * 24 * 3 / CHART_WIDTH

  /** Number of glyph positions read along the date row and along the time row. */
  const DATE_COLUMNS: int := CHART_WIDTH + MONTH_UNITS
  const TIME_COLUMNS: int := CHART_WIDTH + HOUR_UNITS

  /**
   * What the digit reader finds at each column 64 + k, k < n, of a caption
   * row: a digit 0 .. 9, the minus sign -1 or ERR.
   */
  ghost function RowDigits(pixels: seq<int>, row: int, n: nat): (ds: seq<int>)
    requires |pixels| == PIXEL_COUNT
    requires 0 <= row && row + 9 <= HEIGHT && CHART_START_COL + n + DIGIT_WIDTH <= WIDTH
    ensures |ds| == n
  {
    seq(n, k requires 0 <= k < n => (ImageWindow(pixels, CHART_START_COL + k, row, 9); DigitAt(pixels, CHART_START_COL + k, row, COLOR_BLACK)))
  }

  /** Entry k of a caption row is what the digit reader finds at column 64 + k. */
  lemma RowDigitsAt(pixels: seq<int>, row: int, n: nat, k: int)
    requires |pixels| == PIXEL_COUNT
    requires 0 <= row && row + 9 <= HEIGHT && CHART_START_COL + n + DIGIT_WIDTH <= WIDTH && 0 <= k < n
    ensures WindowIn(pixels, CHART_START_COL + k, row, 9)
    ensures RowDigits(pixels, row, n)[k] == DigitAt(pixels, CHART_START_COL + k, row, COLOR_BLACK)
  {
    ImageWindow(pixels, CHART_START_COL + k, row, 9);
  }

  ghost function DateDigits(pixels: seq<int>): (ds: seq<int>)
    requires |pixels| == PIXEL_COUNT
    ensures |ds| == DATE_COLUMNS
  {
    RowDigits(pixels, TIMESTAMP_DATE_ROW, DATE_COLUMNS)
  }

  ghost function TimeDigits(pixels: seq<int>): (ds: seq<int>)
    requires |pixels| == PIXEL_COUNT
    ensures |ds| == TIME_COLUMNS
  {
    RowDigits(pixels, TIMESTAMP_TIME_ROW, TIME_COLUMNS)
  }

  predicate IsDecimal(d: int)
  {
    0 <= d <= 9
  }

  // ---------------------------------------------------------------------
  // Date

  /** A date label starts at chart column k of the date row. */
  predicate DateAt(ds: seq<int>, k: int)
    requires |ds| == DATE_COLUMNS && 0 <= k < CHART_WIDTH
  {
    IsDecimal(ds[k + DAY_TENS]) && IsDecimal(ds[k + DAY_UNITS]) && IsDecimal(ds[k + MONTH_TENS]) && IsDecimal(ds[k + MONTH_UNITS])
  }

  /** The first chart column k' >= k where a date label starts. */
  function FirstDate(ds: seq<int>, k: nat): (r: Option<nat>)
    requires |ds| == DATE_COLUMNS
    ensures r.Some? ==> k <= r.value < CHART_WIDTH && DateAt(ds, r.value)
    decreases CHART_WIDTH - k
  {
    if k >= CHART_WIDTH then None
    else if DateAt(ds, k) then Some(k)
    else FirstDate(ds, k + 1)
  }

  /** The first date label from k on has none before it, and None means there is none. */
  lemma {:induction false} FirstDateMeaning(ds: seq<int>, k: nat)
    requires |ds| == DATE_COLUMNS
    ensures match FirstDate(ds, k)
      case None => forall j | k <= j < CHART_WIDTH :: !DateAt(ds, j)
      case Some(r) => forall j | k <= j < r :: !DateAt(ds, j)
    decreases CHART_WIDTH - k
  {
    if k < CHART_WIDTH && !DateAt(ds, k) {
      FirstDateMeaning(ds, k + 1);
    }
  }

  datatype Date = Date(day: int, month: int)

  /** The day and month of the date label at column k, two decimal digits each. */
  function DateOf(ds: seq<int>, k: int): (d: Date)
    requires |ds| == DATE_COLUMNS && 0 <= k < CHART_WIDTH && DateAt(ds, k)
    ensures 0 <= d.day <= 99 && 0 <= d.month <= 99
    ensures d.day % 10 == ds[k + DAY_UNITS] && d.day / 10 == ds[k + DAY_TENS]
    ensures d.month % 10 == ds[k + MONTH_UNITS] && d.month / 10 == ds[k + MONTH_TENS]
  {
    Date(ds[k + DAY_TENS] * 10 + ds[k + DAY_UNITS], ds[k + MONTH_TENS] * 10 + ds[k + MONTH_UNITS])
  }

  /** The date the decoder reads: from the first date label, or day 0 of month 0 without one. */
  function ReadDateOf(ds: seq<int>): Date
    requires |ds| == DATE_COLUMNS
  {
    match FirstDate(ds, 0)
    case None => Date(0, 0)
    case Some(k) => DateOf(ds, k)
  }

  // ---------------------------------------------------------------------
  // Hour

  /** A time label starts at chart column k of the time row. */
  predicate TimeAt(ts: seq<int>, k: int)
    requires |ts| == TIME_COLUMNS && 0 <= k < CHART_WIDTH
  {
    IsDecimal(ts[k + HOUR_TENS]) && IsDecimal(ts[k + HOUR_UNITS])
  }

  /** The first chart column k' >= k where a time label starts. */
  function FirstTime(ts: seq<int>, k: nat): (r: Option<nat>)
    requires |ts| == TIME_COLUMNS
    ensures r.Some? ==> k <= r.value < CHART_WIDTH && TimeAt(ts, r.value)
    decreases CHART_WIDTH - k
  {
    if k >= CHART_WIDTH then None
    else if TimeAt(ts, k) then Some(k)
    else FirstTime(ts, k + 1)
  }

  /** The first time label from k on has none before it, and None means there is none. */
  lemma {:induction false} FirstTimeMeaning(ts: seq<int>, k: nat)
    requires |ts| == TIME_COLUMNS
    ensures match FirstTime(ts, k)
      case None => forall j | k <= j < CHART_WIDTH :: !TimeAt(ts, j)
      case Some(r) => forall j | k <= j < r :: !TimeAt(ts, j)
    decreases CHART_WIDTH - k
  {
    if k < CHART_WIDTH && !TimeAt(ts, k) {
      FirstTimeMeaning(ts, k + 1);
    }
  }

  /**
   * The whole hours of chart time between the chart's left edge and the
   * column after the hour's units digit of a time label at chart column k.
   */
  function HourCorrection(k: int): int
  {
    SEC_PER_PIXEL * (k + HOUR_UNITS) / 3600
  }

  /**
   * The correction is the number of whole hours in the k + 7 columns' worth
   * of seconds, it grows with the column, and along the chart it lies
   * between 1 and 73 hours.
   */
  lemma HourCorrectionMeaning(k1: int, k2: int)
    requires 0 <= k1 <= k2 < CHART_WIDTH
    ensures SEC_PER_PIXEL == 629
    ensures 3600 * HourCorrection(k1) <= SEC_PER_PIXEL * (k1 + HOUR_UNITS) < 3600 * (HourCorrection(k1) + 1)
    ensures HourCorrection(k1) <= HourCorrection(k2)
    ensures 1 <= HourCorrection(k1) && HourCorrection(k2) <= 73
  {
    assert SEC_PER_PIXEL == 629;
    assert 629 * (k1 + 7) <= 629 * (k2 + 7);
    assert 629 * (k2 + 7) <= 629 * 418 < 3600 * 74;
  }

  /** The hour of the time label at column k, moved back to the chart's left edge. */
  function HourOf(ts: seq<int>, k: int): real
    requires |ts| == TIME_COLUMNS && 0 <= k < CHART_WIDTH
  {
    (ts[k + HOUR_TENS] * 10 + ts[k + HOUR_UNITS]) as real - HourCorrection(k) as real
  }

  /**
   * The timestamp after reading the caption: the client's clock applied to
   * the date read and the hour of the first time label; without a time
   * label the timestamp keeps its previous value.
   */
  function TimestampOf(ds: seq<int>, ts: seq<int>, getTimestamp: (int, int, real) -> int, previous: int): int
    requires |ds| == DATE_COLUMNS && |ts| == TIME_COLUMNS
  {
    match FirstTime(ts, 0)
    case None => previous
    case Some(k) => getTimestamp(ReadDateOf(ds).month, ReadDateOf(ds).day, HourOf(ts, k))
  }

  /**
   * The timestamp is the previous one exactly when no column has a time
   * label; otherwise the clock gets the date of the first date label (or
   * 0, 0), and an hour between -73 and 98 from the first time label.
   */
  lemma TimestampMeaning(ds: seq<int>, ts: seq<int>, getTimestamp: (int, int, real) -> int, previous: int)
    requires |ds| == DATE_COLUMNS && |ts| == TIME_COLUMNS
    ensures (forall k | 0 <= k < CHART_WIDTH :: !TimeAt(ts, k)) ==> TimestampOf(ds, ts, getTimestamp, previous) == previous
    ensures forall k | 0 <= k < CHART_WIDTH && TimeAt(ts, k) && (forall j | 0 <= j < k :: !TimeAt(ts, j)) ::
      && -73.0 <= HourOf(ts, k) <= 98.0
      && TimestampOf(ds, ts, getTimestamp, previous) == getTimestamp(ReadDateOf(ds).month, ReadDateOf(ds).day, HourOf(ts, k))
    ensures (forall k | 0 <= k < CHART_WIDTH :: !DateAt(ds, k)) ==> ReadDateOf(ds) == Date(0, 0)
  {
    FirstTimeMeaning(ts, 0);
    FirstDateMeaning(ds, 0);
    forall k | 0 <= k < CHART_WIDTH && TimeAt(ts, k) && (forall j | 0 <= j < k :: !TimeAt(ts, j))
      ensures -73.0 <= HourOf(ts, k) <= 98.0
      ensures FirstTime(ts, 0) == Some(k)
    {
      HourCorrectionMeaning(k, k);
      HourCorrectionMeaning(0, k);
    }
  }

  // ---------------------------------------------------------------------
  // The caption reader

  /** Whether a digit 0 .. 9 stands at chart column k of a caption row. */
  method IsDigitIn(pixels: array<int>, row: int, n: nat, k: int, ghost ds: seq<int>) returns (b: bool)
    requires pixels.Length == PIXEL_COUNT
    requires 0 <= row && row + 9 <= HEIGHT && CHART_START_COL + n + DIGIT_WIDTH <= WIDTH
    requires ds == RowDigits(pixels[..], row, n) && 0 <= k < n
    ensures b <==> IsDecimal(ds[k])
  {
    RowDigitsAt(pixels[..], row, n, k);
    b := IsDigit(pixels, CHART_START_COL + k, row, COLOR_BLACK);
  }

  /** The digit read at chart column k of a caption row. */
  method ReadDigitIn(pixels: array<int>, row: int, n: nat, k: int, ghost ds: seq<int>) returns (d: int)
    requires pixels.Length == PIXEL_COUNT
    requires 0 <= row && row + 9 <= HEIGHT && CHART_START_COL + n + DIGIT_WIDTH <= WIDTH
    requires ds == RowDigits(pixels[..], row, n) && 0 <= k < n
    ensures d == ds[k]
  {
    RowDigitsAt(pixels[..], row, n, k);
    d := ReadDigit(pixels, CHART_START_COL + k, row, COLOR_BLACK);
  }

  /** Whether a date label starts at chart column k: the four digits, tested in order. */
  method DateLabelAt(pixels: array<int>, k: int, ghost ds: seq<int>) returns (found: bool)
    requires pixels.Length == PIXEL_COUNT
    requires ds == DateDigits(pixels[..]) && 0 <= k < CHART_WIDTH
    ensures found <==> DateAt(ds, k)
  {
    found := IsDigitIn(pixels, TIMESTAMP_DATE_ROW, DATE_COLUMNS, k + DAY_TENS, ds);
    if found {
      found := IsDigitIn(pixels, TIMESTAMP_DATE_ROW, DATE_COLUMNS, k + DAY_UNITS, ds);
    }
    if found {
      found := IsDigitIn(pixels, TIMESTAMP_DATE_ROW, DATE_COLUMNS, k + MONTH_TENS, ds);
    }
    if found {
      found := IsDigitIn(pixels, TIMESTAMP_DATE_ROW, DATE_COLUMNS, k + MONTH_UNITS, ds);
    }
  }

  /** Reads the day and month of the date label at chart column k. */
  method ReadDateLabel(pixels: array<int>, k: int, ghost ds: seq<int>) returns (date: Date)
    requires pixels.Length == PIXEL_COUNT
    requires ds == DateDigits(pixels[..]) && 0 <= k < CHART_WIDTH && DateAt(ds, k)
    ensures date == DateOf(ds, k)
  {
    var d0 := ReadDigitIn(pixels, TIMESTAMP_DATE_ROW, DATE_COLUMNS, k + DAY_TENS, ds);
    var d1 := ReadDigitIn(pixels, TIMESTAMP_DATE_ROW, DATE_COLUMNS, k + DAY_UNITS, ds);
    var m0 := ReadDigitIn(pixels, TIMESTAMP_DATE_ROW, DATE_COLUMNS, k + MONTH_TENS, ds);
    var m1 := ReadDigitIn(pixels, TIMESTAMP_DATE_ROW, DATE_COLUMNS, k + MONTH_UNITS, ds);
    date := Date(d0 * 10 + d1, m0 * 10 + m1);
  }

  /** Searches the date row for the first date label and reads it; day 0 of month 0 without one. */
  method ReadDayMonth(pixels: array<int>) returns (date: Date)
    requires pixels.Length == PIXEL_COUNT
    ensures date == ReadDateOf(DateDigits(pixels[..]))
  {
    ghost var ds := DateDigits(pixels[..]);
    for x := CHART_START_COL to CHART_START_COL + CHART_WIDTH
      invariant FirstDate(ds, x - CHART_START_COL) == FirstDate(ds, 0)
    {
      var k := x - CHART_START_COL;
      var found := DateLabelAt(pixels, k, ds);
      if found {
        assert FirstDate(ds, k) == Some(k);
        date := ReadDateLabel(pixels, k, ds);
        return;
      }
    }
    return Date(0, 0);
  }

  /** Whether a time label starts at chart column k: the hour's two digits, tested in order. */
  method TimeLabelAt(pixels: array<int>, k: int, ghost ts: seq<int>) returns (found: bool)
    requires pixels.Length == PIXEL_COUNT
    requires ts == TimeDigits(pixels[..]) && 0 <= k < CHART_WIDTH
    ensures found <==> TimeAt(ts, k)
  {
    found := IsDigitIn(pixels, TIMESTAMP_TIME_ROW, TIME_COLUMNS, k + HOUR_TENS, ts);
    if found {
      found := IsDigitIn(pixels, TIMESTAMP_TIME_ROW, TIME_COLUMNS, k + HOUR_UNITS, ts);
    }
  }

  /**
   * Reads the hour of the time label at chart column k and moves it back by
   * the whole hours of chart time up to the label's units digit.
   */
  method ReadHour(pixels: array<int>, k: int, ghost ts: seq<int>) returns (hour: real)
    requires pixels.Length == PIXEL_COUNT
    requires ts == TimeDigits(pixels[..]) && 0 <= k < CHART_WIDTH
    ensures hour == HourOf(ts, k)
  {
    var h0 := ReadDigitIn(pixels, TIMESTAMP_TIME_ROW, TIME_COLUMNS, k + HOUR_TENS, ts);
    var h1 := ReadDigitIn(pixels, TIMESTAMP_TIME_ROW, TIME_COLUMNS, k + HOUR_UNITS, ts);
    hour := (h0 * 10 + h1) as real;
    var secPerPixel := 60 * 60 * 24 * 3 / CHART_WIDTH;
    var pxs := k + 7;
    hour := hour - (secPerPixel * pxs / 3600) as real;
  }

  /**
   * Reads the caption: the date, then the first time label, whose corrected
   * hour and the date go to the client's clock. Without a time label the
   * timestamp keeps its previous value.
   */
  method ReadDate(pixels: array<int>, getTimestamp: (int, int, real) -> int, previous: int) returns (timestamp: int)
    requires pixels.Length == PIXEL_COUNT
    ensures timestamp == TimestampOf(DateDigits(pixels[..]), TimeDigits(pixels[..]), getTimestamp, previous)
  {
    var date := ReadDayMonth(pixels);
    ghost var ts := TimeDigits(pixels[..]);
    timestamp := previous;
    for x := CHART_START_COL to CHART_START_COL + CHART_WIDTH
      invariant FirstTime(ts, x - CHART_START_COL) == FirstTime(ts, 0)
    {
      var k := x - CHART_START_COL;
      var found := TimeLabelAt(pixels, k, ts);
      if found {
        assert FirstTime(ts, k) == Some(k);
        var hour := ReadHour(pixels, k, ts);
        timestamp := getTimestamp(date.month, date.day, hour);
        return;
      }
    }
  }
}
