/**
 * Fixed geometry of the meteogram chart decoded by ModelUM: the image size,
 * the glyph cell, the panels' rows and columns, the colours the samplers look
 * for and the two sentinel values. Pixels are stored row-major in one flat
 * buffer, and a pixel is addressed by `x + y * WIDTH` without any check that
 * `x` stays inside its row, exactly as the chart decoder does.
 */
module Layout {

  const WIDTH: int := 540
  const HEIGHT: int := 660

  const DIGIT_WIDTH: int := 5
  const DIGIT_HEIGHT: int := 8
  const DIGIT_SEPARATOR: int := 1
  /** Horizontal distance between two consecutive glyph slots of a number. */
  const SLOT: int := DIGIT_WIDTH + DIGIT_SEPARATOR

  const TIMESTAMP_DATE_ROW: int := 619
  const TIMESTAMP_TIME_ROW: int := 607
  const CHART_START_COL: int := 64
  const CHART_WIDTH: int := 412

  const TEMPERATURE_ROW_START: int := 58
  const TEMPERATURE_ROW_END: int := 133
  const TEMPERATURE_TEXT_COL: int := 39
  const TEMPERATURE_PANEL_HEIGHT: int := TEMPERATURE_ROW_END - TEMPERATURE_ROW_START + 1

  const PRESSURE_TEXT_COL: int := 33
  const PRESSURE_ROW_START: int := 230
  const PRESSURE_ROW_END: int := 305
  const PRESSURE_PANEL_HEIGHT: int := PRESSURE_ROW_END - PRESSURE_ROW_START + 1

  const COLOR_BLACK: int := 0x000000
  const COLOR_TEMPERATURE_RED: int := 0xff0000
  const COLOR_TEMPERATURE_MINMAX_RED1: int := 0xf5d2d2
  const COLOR_TEMPERATURE_MINMAX_RED2: int := 0xfadcdc
  const COLOR_TEMPERATURE_PERC_BLUE: int := 0x0000ff
  const COLOR_TEMPERATURE_PERC_MINMAX_BLUE: int := 0xb9dcff

  /** Sentinel returned by the digit and number readers when nothing legible is found. */
  const ERR: int := -1000000
  /** Sentinel stored in a series for a column that holds no sample (2^20). */
  const NOVALUE: int := 1048576

  /** Number of pixels of a valid chart image. */
  const PIXEL_COUNT: int := WIDTH * HEIGHT

  /**
   * Flat index of pixel (x, y) in a row-major buffer of rows WIDTH pixels
   * long. The multiplier is written as the literal 540 (== WIDTH) so that the
   * index stays linear arithmetic for the verifier.
   */
  function Index(x: int, y: int): int
  {
    x + y * 540
  }

  /**
   * Left column of slot i of a number whose first slot starts at x: slots are
   * SLOT (== 6, the literal used here for the same reason) columns apart.
   */
  function SlotCol(x: int, i: int): int
  {
    x + i * 6
  }

  predicate InBuffer(pixels: seq<int>, x: int, y: int)
  {
    0 <= Index(x, y) < |pixels|
  }

  function Pixel(pixels: seq<int>, x: int, y: int): int
    requires InBuffer(pixels, x, y)
  {
    pixels[Index(x, y)]
  }

  /**
   * The DIGIT_WIDTH x h window whose top-left pixel is (x, y) lies inside the
   * buffer: its first and its last flat index are in range, so every index in
   * between is too.
   */
  predicate WindowIn(pixels: seq<int>, x: int, y: int, h: int)
  {
    0 <= Index(x, y) && Index(x + DIGIT_WIDTH - 1, y + h - 1) < |pixels|
  }

  /** Every pixel of a window that lies inside the buffer can be read. */
  lemma WindowCell(pixels: seq<int>, x: int, y: int, h: int, xi: int, yi: int)
    requires WindowIn(pixels, x, y, h)
    requires 0 <= xi < DIGIT_WIDTH && 0 <= yi < h
    ensures InBuffer(pixels, x + xi, y + yi)
  {
  }

  /**
   * A window that lies inside the visible image, column and row-wise, lies
   * inside a buffer of the image's size.
   */
  lemma ImageWindow(pixels: seq<int>, x: int, y: int, h: int)
    requires |pixels| == PIXEL_COUNT
    requires 0 <= x && x + DIGIT_WIDTH <= WIDTH
    requires 0 <= y && 1 <= h && y + h <= HEIGHT
    ensures WindowIn(pixels, x, y, h)
  {
  }
}
