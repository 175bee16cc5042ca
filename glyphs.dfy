/**
 * Glyph matcher of the chart decoder: the constant 5-column digit and minus
 * masks, the exact window match against one mask, and the digit reader that
 * tries the digits in a fixed order.
 */
module Glyphs {
  import opened Layout

  // The glyph tables, one flat row-major 0/1 mask per variant; every digit
  // has an 8-row and a 9-row variant, the minus sign only an 8-row one.


  const DIGITS0_8: seq<int> :=
    [0, 1, 1, 1, 0]
    + [1, 0, 0, 0, 1]
    + [1, 0, 0, 0, 1]
    + [1, 0, 0, 0, 1]
    + [1, 0, 0, 0, 1]
    + [1, 0, 0, 0, 1]
    + [1, 0, 0, 0, 1]
    + [0, 1, 1, 1, 0]

  const DIGITS0_9: seq<int> :=
    [0, 1, 1, 1, 0]
    + [1, 0, 0, 0, 1]
    + [1, 0, 0, 0, 1]
    + [1, 0, 0, 0, 1]
    + [1, 0, 0, 0, 1]
    + [1, 0, 0, 0, 1]
    + [1, 0, 0, 0, 1]
    + [1, 0, 0, 0, 1]
    + [0, 1, 1, 1, 0]

  const DIGITS1_8: seq<int> :=
    [0, 0, 1, 0, 0]
    + [0, 1, 1, 0, 0]
    + [0, 0, 1, 0, 0]
    + [0, 0, 1, 0, 0]
    + [0, 0, 1, 0, 0]
    + [0, 0, 1, 0, 0]
    + [0, 0, 1, 0, 0]
    + [0, 0, 1, 0, 0]

  const DIGITS1_9: seq<int> :=
    [0, 0, 1, 0, 0]
    + [1, 1, 1, 0, 0]
    + [0, 0, 1, 0, 0]
    + [0, 0, 1, 0, 0]
    + [0, 0, 1, 0, 0]
    + [0, 0, 1, 0, 0]
    + [0, 0, 1, 0, 0]
    + [0, 0, 1, 0, 0]
    + [0, 0, 1, 0, 0]

  const DIGITS2_8: seq<int> :=
    [0, 1, 1, 1, 0]
    + [1, 0, 0, 0, 1]
    + [0, 0, 0, 0, 1]
    + [0, 0, 0, 0, 1]
    + [0, 0, 1, 1, 0]
    + [0, 1, 0, 0, 0]
    + [1, 0, 0, 0, 0]
    + [1, 1, 1, 1, 1]

  const DIGITS2_9: seq<int> :=
    [0, 1, 1, 1, 0]
    + [1, 0, 0, 0, 1]
    + [0, 0, 0, 0, 1]
    + [0, 0, 0, 1, 0]
    + [0, 0, 1, 0, 0]
    + [0, 1, 0, 0, 0]
    + [1, 0, 0, 0, 0]
    + [1, 0, 0, 0, 0]
    + [1, 1, 1, 1, 1]

  const DIGITS8_8: seq<int> :=
    [0, 1, 1, 1, 0]
    + [1, 0, 0, 0, 1]
    + [1, 0, 0, 0, 1]
    + [0, 1, 1, 1, 0]
    + [1, 0, 0, 0, 1]
    + [1, 0, 0, 0, 1]
    + [1, 0, 0, 0, 1]
    + [0, 1, 1, 1, 0]

  const DIGITS8_9: seq<int> :=
    [0, 1, 1, 1, 0]
    + [1, 0, 0, 0, 1]
    + [1, 0, 0, 0, 1]
    + [1, 0, 0, 0, 1]
    + [0, 1, 1, 1, 0]
    + [1, 0, 0, 0, 1]
    + [1, 0, 0, 0, 1]
    + [1, 0, 0, 0, 1]
    + [0, 1, 1, 1, 0]

  const DIGITS4_8: seq<int> :=
    [0, 0, 0, 1, 0]
    + [0, 0, 1, 1, 0]
    + [0, 1, 0, 1, 0]
    + [0, 1, 0, 1, 0]
    + [1, 0, 0, 1, 0]
    + [1, 1, 1, 1, 1]
    + [0, 0, 0, 1, 0]
    + [0, 0, 0, 1, 0]

  const DIGITS4_9: seq<int> :=
    [0, 0, 0, 1, 0]
    + [0, 0, 1, 1, 0]
    + [0, 1, 0, 1, 0]
    + [0, 1, 0, 1, 0]
    + [1, 0, 0, 1, 0]
    + [0, 0, 0, 1, 0]
    + [1, 1, 1, 1, 1]
    + [0, 0, 0, 1, 0]
    + [0, 0, 0, 1, 0]

  const DIGITS5_8: seq<int> :=
    [0, 1, 1, 1, 1]
    + [0, 1, 0, 0, 0]
    + [0, 1, 0, 0, 0]
    + [0, 1, 1, 1, 0]
    + [0, 0, 0, 0, 1]
    + [0, 0, 0, 0, 1]
    + [1, 0, 0, 0, 1]
    + [0, 1, 1, 1, 0]

  const DIGITS5_9: seq<int> :=
    [1, 1, 1, 1, 1]
    + [1, 0, 0, 0, 0]
    + [1, 0, 0, 0, 0]
    + [1, 1, 1, 1, 0]
    + [0, 0, 0, 0, 1]
    + [0, 0, 0, 0, 1]
    + [1, 0, 0, 0, 1]
    + [1, 0, 0, 0, 1]
    + [0, 1, 1, 1, 0]

  const DIGITS6_8: seq<int> :=
    [0, 1, 1, 1, 0]
    + [1, 0, 0, 0, 1]
    + [1, 0, 0, 0, 0]
    + [1, 1, 1, 1, 0]
    + [1, 0, 0, 0, 1]
    + [1, 0, 0, 0, 1]
    + [1, 0, 0, 0, 1]
    + [0, 1, 1, 1, 0]

  const DIGITS6_9: seq<int> :=
    [0, 1, 1, 1, 0]
    + [1, 0, 0, 0, 1]
    + [1, 0, 0, 0, 0]
    + [1, 0, 0, 0, 0]
    + [1, 1, 1, 1, 0]
    + [1, 0, 0, 0, 1]
    + [1, 0, 0, 0, 1]
    + [1, 0, 0, 0, 1]
    + [0, 1, 1, 1, 0]

  const DIGITS7_8: seq<int> :=
    [1, 1, 1, 1, 1]
    + [0, 0, 0, 0, 1]
    + [0, 0, 0, 1, 0]
    + [0, 0, 1, 0, 0]
    + [0, 0, 1, 0, 0]
    + [0, 1, 0, 0, 0]
    + [0, 1, 0, 0, 0]
    + [0, 1, 0, 0, 0]

  const DIGITS7_9: seq<int> :=
    [1, 1, 1, 1, 1]
    + [0, 0, 0, 0, 1]
    + [0, 0, 0, 1, 0]
    + [0, 0, 0, 1, 0]
    + [0, 0, 1, 0, 0]
    + [0, 0, 1, 0, 0]
    + [0, 0, 1, 0, 0]
    + [0, 1, 0, 0, 0]
    + [0, 1, 0, 0, 0]

  const DIGITS3_8: seq<int> :=
    [0, 1, 1, 1, 0]
    + [1, 0, 0, 0, 1]
    + [0, 0, 0, 0, 1]
    + [0, 0, 1, 1, 0]
    + [0, 0, 0, 0, 1]
    + [0, 0, 0, 0, 1]
    + [1, 0, 0, 0, 1]
    + [0, 1, 1, 1, 0]

  const DIGITS3_9: seq<int> :=
    [0, 1, 1, 1, 0]
    + [1, 0, 0, 0, 1]
    + [0, 0, 0, 0, 1]
    + [0, 0, 1, 1, 0]
    + [0, 0, 0, 0, 1]
    + [0, 0, 0, 0, 1]
    + [1, 0, 0, 0, 1]
    + [1, 0, 0, 0, 1]
    + [0, 1, 1, 1, 0]

  const DIGITS9_8: seq<int> :=
    [0, 1, 1, 1, 0]
    + [1, 0, 0, 0, 1]
    + [1, 0, 0, 0, 1]
    + [1, 0, 0, 0, 1]
    + [0, 1, 1, 1, 1]
    + [0, 0, 0, 0, 1]
    + [1, 0, 0, 0, 1]
    + [0, 1, 1, 1, 0]

  const DIGITS9_9: seq<int> :=
    [0, 1, 1, 1, 0]
    + [1, 0, 0, 0, 1]
    + [1, 0, 0, 0, 1]
    + [1, 0, 0, 0, 1]
    + [0, 1, 1, 1, 1]
    + [0, 0, 0, 0, 1]
    + [0, 0, 0, 0, 1]
    + [1, 0, 0, 0, 1]
    + [0, 1, 1, 1, 0]

  const DIGITSMINUS_8: seq<int> :=
    [0, 0, 0, 0, 0]
    + [0, 0, 0, 0, 0]
    + [0, 0, 0, 0, 0]
    + [0, 0, 0, 0, 0]
    + [0, 0, 1, 1, 1]
    + [0, 0, 0, 0, 0]
    + [0, 0, 0, 0, 0]
    + [0, 0, 0, 0, 0]


  /** The 8-row variant of digit d. */
  function Glyph8(d: int): (mask: seq<int>)
    requires 0 <= d <= 9
    ensures |mask| == DIGIT_WIDTH * 8 && ProbesBinary(mask)
  {
    match d
    case 0 => DIGITS0_8
    case 1 => DIGITS1_8
    case 2 => DIGITS2_8
    case 3 => DIGITS3_8
    case 4 => DIGITS4_8
    case 5 => DIGITS5_8
    case 6 => DIGITS6_8
    case 7 => DIGITS7_8
    case 8 => DIGITS8_8
    case 9 => DIGITS9_8
  }

  /** The 9-row variant of digit d. */
  function Glyph9(d: int): (mask: seq<int>)
    requires 0 <= d <= 9
    ensures |mask| == DIGIT_WIDTH * 9 && ProbesBinary(mask)
  {
    match d
    case 0 => DIGITS0_9
    case 1 => DIGITS1_9
    case 2 => DIGITS2_9
    case 3 => DIGITS3_9
    case 4 => DIGITS4_9
    case 5 => DIGITS5_9
    case 6 => DIGITS6_9
    case 7 => DIGITS7_9
    case 8 => DIGITS8_9
    case 9 => DIGITS9_9
  }

  /** Symbol -1 is the minus sign, 0..9 are digits; the minus sign is 8 rows tall. */
  function GlyphHeight(symbol: int): int
  {
    if symbol == -1 then DIGIT_HEIGHT else DIGIT_HEIGHT + 1
  }

  /**
   * One cell of the window agrees with the mask: where the mask holds 1 the
   * pixel has exactly the colour, where it holds 0 the pixel has any other
   * colour (the matcher has no tolerance).
   */
  ghost predicate CellAgrees(pixels: seq<int>, x: int, y: int, color: int, mask: seq<int>, xi: int, yi: int)
    requires InBuffer(pixels, x + xi, y + yi)
    requires 0 <= xi + yi * 5 < |mask|
  {
    var px := Pixel(pixels, x + xi, y + yi);
    var m := mask[xi + yi * 5];
    (m == 1 ==> px == color) && (m == 0 ==> px != color)
  }

  /**
   * The cells of the DIGIT_WIDTH x h window at (x, y) numbered c and above
   * agree with the mask; cell c is column c % 5, row c / 5, the mask's own
   * row-major order.
   */
  ghost predicate CellsAgreeFrom(pixels: seq<int>, x: int, y: int, color: int, mask: seq<int>, h: int, c: nat)
    requires 0 <= h && |mask| == 5 * h && c <= 5 * h
    requires WindowIn(pixels, x, y, h)
    decreases 5 * h - c
  {
    c == 5 * h
    || (CellAgrees(pixels, x, y, color, mask, c % 5, c / 5) && CellsAgreeFrom(pixels, x, y, color, mask, h, c + 1))
  }

  /** The window at (x, y) shows the mask: every cell agrees (see MaskMatchesMeaning). */
  ghost predicate MaskMatches(pixels: seq<int>, x: int, y: int, color: int, mask: seq<int>, h: int)
    requires 0 <= h && |mask| == 5 * h
    requires WindowIn(pixels, x, y, h)
  {
    CellsAgreeFrom(pixels, x, y, color, mask, h, 0)
  }

  /** The cells numbered c and above agree exactly when each such cell (xi, yi) does. */
  lemma {:induction false} CellsAgreeFromMeaning(pixels: seq<int>, x: int, y: int, color: int, mask: seq<int>, h: int, c: nat)
    requires 0 <= h && |mask| == 5 * h && c <= 5 * h
    requires WindowIn(pixels, x, y, h)
    ensures CellsAgreeFrom(pixels, x, y, color, mask, h, c) <==>
      forall xi, yi | 0 <= xi < DIGIT_WIDTH && 0 <= yi < h && c <= xi + yi * 5 :: CellAgrees(pixels, x, y, color, mask, xi, yi)
    decreases 5 * h - c
  {
    if c < 5 * h {
      CellsAgreeFromMeaning(pixels, x, y, color, mask, h, c + 1);
      forall xi, yi | 0 <= xi < DIGIT_WIDTH && 0 <= yi < h && xi + yi * 5 == c
        ensures CellAgrees(pixels, x, y, color, mask, xi, yi) == CellAgrees(pixels, x, y, color, mask, c % 5, c / 5)
      {
        assert xi == c % 5 && yi == c / 5;
      }
    }
  }

  /** Every cell of the DIGIT_WIDTH x h window at (x, y) agrees with the mask. */
  lemma MaskMatchesMeaning(pixels: seq<int>, x: int, y: int, color: int, mask: seq<int>, h: int)
    requires 0 <= h && |mask| == 5 * h
    requires WindowIn(pixels, x, y, h)
    ensures MaskMatches(pixels, x, y, color, mask, h) <==>
      forall xi, yi | 0 <= xi < DIGIT_WIDTH && 0 <= yi < h :: CellAgrees(pixels, x, y, color, mask, xi, yi)
  {
    CellsAgreeFromMeaning(pixels, x, y, color, mask, h, 0);
  }

  /**
   * The symbol (a digit 0..9 or -1 for the minus sign) is drawn at (x, y):
   * one of its variants matches. Any other symbol number never matches.
   */
  ghost predicate SymbolMatches(pixels: seq<int>, x: int, y: int, color: int, symbol: int)
    requires -1 <= symbol <= 9 ==> WindowIn(pixels, x, y, GlyphHeight(symbol))
  {
    if symbol == -1 then
      MaskMatches(pixels, x, y, color, DIGITSMINUS_8, 8)
    else if 0 <= symbol <= 9 then
      MaskMatches(pixels, x, y, color, Glyph8(symbol), 8) || MaskMatches(pixels, x, y, color, Glyph9(symbol), 9)
    else
      false
  }

  /** Some digit 0..9 is drawn at (x, y). */
  ghost predicate AnyDigitMatches(pixels: seq<int>, x: int, y: int, color: int)
    requires WindowIn(pixels, x, y, 9)
  {
    || SymbolMatches(pixels, x, y, color, 0) || SymbolMatches(pixels, x, y, color, 1)
    || SymbolMatches(pixels, x, y, color, 2) || SymbolMatches(pixels, x, y, color, 3)
    || SymbolMatches(pixels, x, y, color, 4) || SymbolMatches(pixels, x, y, color, 5)
    || SymbolMatches(pixels, x, y, color, 6) || SymbolMatches(pixels, x, y, color, 7)
    || SymbolMatches(pixels, x, y, color, 8) || SymbolMatches(pixels, x, y, color, 9)
  }

  /** Number of symbols the digit reader tries. */
  const TRIES: int := 11

  /**
   * The k-th symbol the digit reader tries: the digits with 8 before 3,
   * then the minus sign.
   */
  function TriedSymbol(k: int): (s: int)
    ensures -1 <= s <= 9
  {
    match k
    case 0 => 0
    case 1 => 1
    case 2 => 2
    case 3 => 8
    case 4 => 4
    case 5 => 5
    case 6 => 6
    case 7 => 7
    case 8 => 3
    case 9 => 9
    case _ => -1
  }

  /** The first of the symbols tried from the k-th on that is drawn at (x, y), or ERR when none is. */
  ghost function FirstMatch(pixels: seq<int>, x: int, y: int, color: int, k: nat): (d: int)
    requires WindowIn(pixels, x, y, 9) && k <= TRIES
    ensures d == ERR || -1 <= d <= 9
    decreases TRIES - k
  {
    if k == TRIES then ERR
    else if SymbolMatches(pixels, x, y, color, TriedSymbol(k)) then TriedSymbol(k)
    else FirstMatch(pixels, x, y, color, k + 1)
  }

  /**
   * The symbol read at (x, y): the first digit that matches in the order
   * 0, 1, 2, 8, 4, 5, 6, 7, 3, 9, else -1 when the minus sign matches, else ERR.
   */
  ghost function DigitAt(pixels: seq<int>, x: int, y: int, color: int): (d: int)
    requires WindowIn(pixels, x, y, 9)
    ensures d == ERR || -1 <= d <= 9
  {
    FirstMatch(pixels, x, y, color, 0)
  }

  /** One try: the k-th symbol if it is drawn, else the tries after it. */
  lemma FirstMatchStep(pixels: seq<int>, x: int, y: int, color: int, k: nat)
    requires WindowIn(pixels, x, y, 9) && k < TRIES
    ensures FirstMatch(pixels, x, y, color, k) ==
      if SymbolMatches(pixels, x, y, color, TriedSymbol(k)) then TriedSymbol(k) else FirstMatch(pixels, x, y, color, k + 1)
  {
  }

  /** DigitAt spelled out: the symbols tried one after the other. */
  lemma DigitAtChain(pixels: seq<int>, x: int, y: int, color: int)
    requires WindowIn(pixels, x, y, 9)
    ensures DigitAt(pixels, x, y, color) ==
      if SymbolMatches(pixels, x, y, color, 0) then 0
      else if SymbolMatches(pixels, x, y, color, 1) then 1
      else if SymbolMatches(pixels, x, y, color, 2) then 2
      else if SymbolMatches(pixels, x, y, color, 8) then 8
      else if SymbolMatches(pixels, x, y, color, 4) then 4
      else if SymbolMatches(pixels, x, y, color, 5) then 5
      else if SymbolMatches(pixels, x, y, color, 6) then 6
      else if SymbolMatches(pixels, x, y, color, 7) then 7
      else if SymbolMatches(pixels, x, y, color, 3) then 3
      else if SymbolMatches(pixels, x, y, color, 9) then 9
      else if SymbolMatches(pixels, x, y, color, -1) then -1
      else ERR
  {
    FirstMatchStep(pixels, x, y, color, 0);
    FirstMatchStep(pixels, x, y, color, 1);
    FirstMatchStep(pixels, x, y, color, 2);
    FirstMatchStep(pixels, x, y, color, 3);
    FirstMatchStep(pixels, x, y, color, 4);
    FirstMatchStep(pixels, x, y, color, 5);
    FirstMatchStep(pixels, x, y, color, 6);
    FirstMatchStep(pixels, x, y, color, 7);
    FirstMatchStep(pixels, x, y, color, 8);
    FirstMatchStep(pixels, x, y, color, 9);
    FirstMatchStep(pixels, x, y, color, 10);
  }

  /**
   * What the digit reader reports: a digit exactly when some digit is drawn
   * (and then a drawn one), -1 exactly when only the minus sign is, ERR
   * exactly when nothing is.
   */
  lemma DigitAtMeaning(pixels: seq<int>, x: int, y: int, color: int)
    requires WindowIn(pixels, x, y, 9)
    ensures var d := DigitAt(pixels, x, y, color);
      && (0 <= d <= 9 ==> SymbolMatches(pixels, x, y, color, d))
      && (0 <= d <= 9 <==> AnyDigitMatches(pixels, x, y, color))
      && (d == -1 <==> !AnyDigitMatches(pixels, x, y, color) && SymbolMatches(pixels, x, y, color, -1))
      && (d == ERR <==> !AnyDigitMatches(pixels, x, y, color) && !SymbolMatches(pixels, x, y, color, -1))
  {
    DigitAtChain(pixels, x, y, color);
  }

  // Exclusivity of the glyph tables. Five probe cells, (0,0), (4,2), (3,3),
  // (4,4) and (0,5), lie in the first eight rows of every mask and tell every
  // symbol from every other one, so no window matches two different symbols
  // and the order in which the reader tries the digits never changes its result.

  /** The mask's values at the five probe cells, read as a 5-bit number. */
  function ProbeCode(mask: seq<int>): int
    requires |mask| >= DIGIT_WIDTH * 8
  {
    16 * mask[0] + 8 * mask[14] + 4 * mask[18] + 2 * mask[24] + mask[25]
  }

  /** The mask holds 0 or 1 at every probe cell. */
  predicate ProbesBinary(mask: seq<int>)
    requires |mask| >= DIGIT_WIDTH * 8
  {
    && (mask[0] == 0 || mask[0] == 1) && (mask[14] == 0 || mask[14] == 1)
    && (mask[18] == 0 || mask[18] == 1) && (mask[24] == 0 || mask[24] == 1)
    && (mask[25] == 0 || mask[25] == 1)
  }

  /** 1 where the window's pixel has the colour, 0 where it has not. */
  ghost function Seen(pixels: seq<int>, x: int, y: int, color: int, xi: int, yi: int): int
    requires InBuffer(pixels, x + xi, y + yi)
  {
    if Pixel(pixels, x + xi, y + yi) == color then 1 else 0
  }

  /** What the window at (x, y) shows at the five probe cells, as a 5-bit number. */
  ghost function ProbeSeen(pixels: seq<int>, x: int, y: int, color: int): int
    requires WindowIn(pixels, x, y, 8)
  {
    16 * Seen(pixels, x, y, color, 0, 0) + 8 * Seen(pixels, x, y, color, 4, 2) + 4 * Seen(pixels, x, y, color, 3, 3)
    + 2 * Seen(pixels, x, y, color, 4, 4) + Seen(pixels, x, y, color, 0, 5)
  }

  /** The symbol whose variants have the given probe code, or ERR for a code no variant has. */
  function SymbolOfProbes(code: int): int
  {
    match code
    case 11 => 0
    case 0 => 1
    case 8 | 12 => 2
    case 14 => 3
    case 4 | 5 => 4
    case 6 | 22 => 5
    case 1 | 7 => 6
    case 16 | 20 => 7
    case 9 | 15 => 8
    case 10 => 9
    case 2 => -1
    case _ => ERR
  }

  /** The 8-row variant of every symbol has a probe code that names that symbol. */
  lemma ProbesIdentify8(symbol: int)
    requires -1 <= symbol <= 9
    ensures symbol == -1 ==> ProbesBinary(DIGITSMINUS_8) && SymbolOfProbes(ProbeCode(DIGITSMINUS_8)) == -1
    ensures 0 <= symbol <= 9 ==> SymbolOfProbes(ProbeCode(Glyph8(symbol))) == symbol
  {
  }

  /** The 9-row variant of every digit has a probe code that names that digit. */
  lemma ProbesIdentify9(symbol: int)
    requires 0 <= symbol <= 9
    ensures SymbolOfProbes(ProbeCode(Glyph9(symbol))) == symbol
  {
  }

  /** A matching mask that is 0/1 at the probe cells is seen exactly there. */
  lemma MatchShowsProbes(pixels: seq<int>, x: int, y: int, color: int, mask: seq<int>, h: int)
    requires 8 <= h && |mask| == 5 * h && ProbesBinary(mask)
    requires WindowIn(pixels, x, y, h)
    requires MaskMatches(pixels, x, y, color, mask, h)
    ensures ProbeSeen(pixels, x, y, color) == ProbeCode(mask)
  {
    MaskMatchesMeaning(pixels, x, y, color, mask, h);
    assert CellAgrees(pixels, x, y, color, mask, 0, 0);
    assert CellAgrees(pixels, x, y, color, mask, 4, 2);
    assert CellAgrees(pixels, x, y, color, mask, 3, 3);
    assert CellAgrees(pixels, x, y, color, mask, 4, 4);
    assert CellAgrees(pixels, x, y, color, mask, 0, 5);
  }

  /** A window in which a symbol is drawn shows that symbol's probe code. */
  lemma SymbolShowsProbes(pixels: seq<int>, x: int, y: int, color: int, symbol: int)
    requires -1 <= symbol <= 9 && WindowIn(pixels, x, y, 9)
    requires SymbolMatches(pixels, x, y, color, symbol)
    ensures SymbolOfProbes(ProbeSeen(pixels, x, y, color)) == symbol
  {
    ProbesIdentify8(symbol);
    if symbol == -1 {
      MatchShowsProbes(pixels, x, y, color, DIGITSMINUS_8, 8);
    } else if MaskMatches(pixels, x, y, color, Glyph8(symbol), 8) {
      MatchShowsProbes(pixels, x, y, color, Glyph8(symbol), 8);
    } else {
      ProbesIdentify9(symbol);
      MatchShowsProbes(pixels, x, y, color, Glyph9(symbol), 9);
    }
  }

  /**
   * No window matches two different symbols: the glyph tables are mutually
   * exclusive under the exact match, so the digit reader's result does not
   * depend on the order in which it tries the digits.
   */
  lemma GlyphsExclusive(pixels: seq<int>, x: int, y: int, color: int, s1: int, s2: int)
    requires -1 <= s1 <= 9 && -1 <= s2 <= 9 && WindowIn(pixels, x, y, 9)
    requires SymbolMatches(pixels, x, y, color, s1) && SymbolMatches(pixels, x, y, color, s2)
    ensures s1 == s2
  {
    SymbolShowsProbes(pixels, x, y, color, s1);
    SymbolShowsProbes(pixels, x, y, color, s2);
  }

  /** A symbol drawn at (x, y) is a digit or the minus sign. */
  lemma DrawnSymbolKind(pixels: seq<int>, x: int, y: int, color: int, symbol: int)
    requires -1 <= symbol <= 9 && WindowIn(pixels, x, y, 9)
    requires SymbolMatches(pixels, x, y, color, symbol)
    ensures AnyDigitMatches(pixels, x, y, color) || SymbolMatches(pixels, x, y, color, -1)
  {
    assert symbol in {-1, 0, 1, 2, 3, 4, 5, 6, 7, 8, 9};
  }

  /** The digit reader returns the one symbol drawn at (x, y), whatever its place in the reader's order. */
  lemma DigitAtIsDrawnSymbol(pixels: seq<int>, x: int, y: int, color: int, symbol: int)
    requires -1 <= symbol <= 9 && WindowIn(pixels, x, y, 9)
    requires SymbolMatches(pixels, x, y, color, symbol)
    ensures DigitAt(pixels, x, y, color) == symbol
  {
    DigitAtMeaning(pixels, x, y, color);
    DrawnSymbolKind(pixels, x, y, color, symbol);
    SymbolShowsProbes(pixels, x, y, color, symbol);
    SymbolShowsProbes(pixels, x, y, color, DigitAt(pixels, x, y, color));
  }

  // The matcher as the decoder runs it: loops over the window that return at
  // the first disagreeing cell.

  /** Matches one mask of height h against the window at (x, y). */
  method MatchMask(pixels: array<int>, x: int, y: int, color: int, mask: seq<int>, h: int) returns (r: bool)
    requires 0 <= h && |mask| == 5 * h
    requires WindowIn(pixels[..], x, y, h)
    ensures r == MaskMatches(pixels[..], x, y, color, mask, h)
  {
    var xi := 0;
    while xi < DIGIT_WIDTH
      invariant 0 <= xi <= DIGIT_WIDTH
      invariant forall a, b | 0 <= a < xi && 0 <= b < h :: CellAgrees(pixels[..], x, y, color, mask, a, b)
    {
      var yi := 0;
      while yi < h
        invariant 0 <= yi <= h
        invariant forall a, b | 0 <= a < xi && 0 <= b < h :: CellAgrees(pixels[..], x, y, color, mask, a, b)
        invariant forall b | 0 <= b < yi :: CellAgrees(pixels[..], x, y, color, mask, xi, b)
      {
        var px := pixels[Index(x + xi, y + yi)];
        var m := mask[xi + yi * 5];
        if (m == 1 && px != color) || (m == 0 && px == color) {
          assert !CellAgrees(pixels[..], x, y, color, mask, xi, yi);
          MaskMatchesMeaning(pixels[..], x, y, color, mask, h);
          return false;
        }
        yi := yi + 1;
      }
      xi := xi + 1;
    }
    MaskMatchesMeaning(pixels[..], x, y, color, mask, h);
    return true;
  }

  /** Tests whether the symbol (a digit, or -1 for minus) is drawn at (x, y). */
  method DigitMatch(pixels: array<int>, x: int, y: int, color: int, symbol: int) returns (r: bool)
    requires -1 <= symbol <= 9 ==> WindowIn(pixels[..], x, y, GlyphHeight(symbol))
    ensures r == SymbolMatches(pixels[..], x, y, color, symbol)
  {
    if symbol == -1 {
      r := MatchMask(pixels, x, y, color, DIGITSMINUS_8, 8);
    } else if 0 <= symbol <= 9 {
      r := MatchMask(pixels, x, y, color, Glyph8(symbol), 8);
      if !r {
        r := MatchMask(pixels, x, y, color, Glyph9(symbol), 9);
      }
    } else {
      r := false;
    }
  }

  /**
   * Reads the symbol at (x, y): tries the digits in the order 0, 1, 2, 8,
   * 4, 5, 6, 7, 3, 9, then the minus sign (-1), and gives ERR when nothing
   * matches.
   */
  method ReadDigit(pixels: array<int>, x: int, y: int, color: int) returns (d: int)
    requires WindowIn(pixels[..], x, y, 9)
    ensures d == DigitAt(pixels[..], x, y, color)
  {
    DigitAtChain(pixels[..], x, y, color);
    var m: bool;
    m := DigitMatch(pixels, x, y, color, 0);
    if m { return 0; }
    m := DigitMatch(pixels, x, y, color, 1);
    if m { return 1; }
    m := DigitMatch(pixels, x, y, color, 2);
    if m { return 2; }
    m := DigitMatch(pixels, x, y, color, 8);
    if m { return 8; }
    m := DigitMatch(pixels, x, y, color, 4);
    if m { return 4; }
    m := DigitMatch(pixels, x, y, color, 5);
    if m { return 5; }
    m := DigitMatch(pixels, x, y, color, 6);
    if m { return 6; }
    m := DigitMatch(pixels, x, y, color, 7);
    if m { return 7; }
    m := DigitMatch(pixels, x, y, color, 3);
    if m { return 3; }
    m := DigitMatch(pixels, x, y, color, 9);
    if m { return 9; }
    m := DigitMatch(pixels, x, y, color, -1);
    if m { return -1; }
    return ERR;
  }

  /** Tests whether some digit 0..9 is drawn at (x, y), trying them in the reader's order. */
  method IsDigit(pixels: array<int>, x: int, y: int, color: int) returns (b: bool)
    requires WindowIn(pixels[..], x, y, 9)
    ensures b == AnyDigitMatches(pixels[..], x, y, color)
    ensures b <==> 0 <= DigitAt(pixels[..], x, y, color) <= 9
  {
    DigitAtMeaning(pixels[..], x, y, color);
    b := DigitMatch(pixels, x, y, color, 0);
    if b { return true; }
    b := DigitMatch(pixels, x, y, color, 1);
    if b { return true; }
    b := DigitMatch(pixels, x, y, color, 2);
    if b { return true; }
    b := DigitMatch(pixels, x, y, color, 8);
    if b { return true; }
    b := DigitMatch(pixels, x, y, color, 4);
    if b { return true; }
    b := DigitMatch(pixels, x, y, color, 5);
    if b { return true; }
    b := DigitMatch(pixels, x, y, color, 6);
    if b { return true; }
    b := DigitMatch(pixels, x, y, color, 7);
    if b { return true; }
    b := DigitMatch(pixels, x, y, color, 3);
    if b { return true; }
    b := DigitMatch(pixels, x, y, color, 9);
    if b { return true; }
    return false;
  }

  /** Tests whether the minus sign is drawn at (x, y). */
  method IsMinus(pixels: array<int>, x: int, y: int, color: int) returns (b: bool)
    requires WindowIn(pixels[..], x, y, 8)
    ensures b == SymbolMatches(pixels[..], x, y, color, -1)
  {
    b := DigitMatch(pixels, x, y, color, -1);
  }
}
