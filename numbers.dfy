/**
 * Number reader of the chart decoder: a signed integer drawn as a run of
 * glyph slots, SLOT columns apart, with an optional minus sign in the first
 * slot; and the two composite readers that try shorter runs further right
 * when a longer one is not legible.
 *
 * The arithmetic is stated on the sequence of symbols the digit reader
 * reports for the slots (a digit 0..9, -1 for the minus sign, ERR for an
 * illegible slot); the pixel level only says which symbols those are.
 */
module Numbers {
  import opened Options
  import opened Layout
  import opened Glyphs

  function Pow10(n: nat): (p: nat)
    ensures p >= 1
  {
    if n == 0 then 1 else 10 * Pow10(n - 1)
  }

  lemma {:induction false} PowMonotone(m: nat, n: nat)
    requires m <= n
    ensures Pow10(m) <= Pow10(n)
  {
    if m < n {
      PowMonotone(m, n - 1);
    }
  }

  /** A value the digit reader can report. */
  predicate IsSymbol(d: int)
  {
    d == ERR || -1 <= d <= 9
  }

  predicate AllSymbols(syms: seq<int>)
  {
    forall i :: 0 <= i < |syms| ==> IsSymbol(syms[i])
  }

  // ---------------------------------------------------------------------
  // Symbol level

  /**
   * What the reading loop accumulates over the slot symbols, left to right:
   * None as soon as a slot is ERR; a digit is appended to the value; the
   * minus sign (any other negative symbol) is skipped.
   */
  function Accumulate(syms: seq<int>): Option<int>
  {
    if syms == [] then Some(0)
    else
      match Accumulate(syms[..|syms| - 1])
      case None => None
      case Some(v) =>
        var d := syms[|syms| - 1];
        if d == ERR then None else if d >= 0 then Some(10 * v + d) else Some(v)
  }

  /** The number read from the slot symbols, negated when a minus sign was seen in the first slot. */
  function NumberOf(syms: seq<int>, negative: bool): int
  {
    match Accumulate(syms)
    case None => ERR
    case Some(v) => if negative then -v else v
  }

  /** The digits 0..9 among the symbols, in order. */
  function Digits(syms: seq<int>): (ds: seq<int>)
    ensures |ds| <= |syms|
    ensures forall i :: 0 <= i < |ds| ==> 0 <= ds[i] <= 9
  {
    if syms == [] then []
    else
      var d := syms[|syms| - 1];
      Digits(syms[..|syms| - 1]) + (if 0 <= d <= 9 then [d] else [])
  }

  /** Base-10 value of a digit string, most significant digit first. */
  function Base10(ds: seq<int>): int
  {
    if ds == [] then 0 else 10 * Base10(ds[..|ds| - 1]) + ds[|ds| - 1]
  }

  /** A string of k decimal digits has a value in [0, 10^k). */
  lemma {:induction false} Base10Bounds(ds: seq<int>)
    requires forall i :: 0 <= i < |ds| ==> 0 <= ds[i] <= 9
    ensures 0 <= Base10(ds) < Pow10(|ds|)
  {
    if ds != [] {
      var init := ds[..|ds| - 1];
      assert forall i :: 0 <= i < |init| ==> init[i] == ds[i];
      Base10Bounds(init);
    }
  }

  /**
   * The accumulation fails exactly when some slot is ERR, and otherwise
   * yields the base-10 value of the digits read; the minus signs add nothing.
   */
  lemma {:induction false} AccumulateMeaning(syms: seq<int>)
    requires AllSymbols(syms)
    ensures Accumulate(syms).None? <==> ERR in syms
    ensures Accumulate(syms).Some? ==> Accumulate(syms).value == Base10(Digits(syms))
  {
    if syms != [] {
      var init := syms[..|syms| - 1];
      var d := syms[|syms| - 1];
      assert syms == init + [d];
      assert forall i :: 0 <= i < |init| ==> init[i] == syms[i];
      AccumulateMeaning(init);
      if 0 <= d <= 9 {
        var ds := Digits(init) + [d];
        assert Digits(syms) == ds;
        assert ds[..|ds| - 1] == Digits(init);
        assert Base10(ds) == 10 * Base10(Digits(init)) + d;
      } else {
        assert Digits(syms) == Digits(init);
      }
    }
  }

  /** Once a prefix of the slots fails, the whole run fails. */
  lemma {:induction false} AccumulatePrefixFails(syms: seq<int>, k: nat)
    requires k <= |syms| && Accumulate(syms[..k]).None?
    ensures Accumulate(syms).None?
  {
    if k < |syms| {
      var init := syms[..|syms| - 1];
      assert init[..k] == syms[..k];
      AccumulatePrefixFails(init, k);
    } else {
      assert syms[..k] == syms;
    }
  }

  /** Reading slot i extends the run over the slots before it by that slot's symbol. */
  lemma AccumulateNext(syms: seq<int>, i: nat, v: int)
    requires i < |syms| && Accumulate(syms[..i]) == Some(v)
    ensures Accumulate(syms[..i + 1]) ==
      if syms[i] == ERR then None else if syms[i] >= 0 then Some(10 * v + syms[i]) else Some(v)
  {
    assert syms[..i + 1][..i] == syms[..i];
  }

  /**
   * The number read from n <= 6 slots is ERR exactly when some slot is ERR;
   * otherwise its magnitude is the base-10 value of the digits read, below
   * 10^n, and it is negative only when the minus flag is set.
   */
  lemma NumberOfMeaning(syms: seq<int>, negative: bool)
    requires AllSymbols(syms) && |syms| <= 6
    ensures NumberOf(syms, negative) == ERR <==> ERR in syms
    ensures ERR !in syms ==>
      var v := Base10(Digits(syms));
      && 0 <= v < Pow10(|syms|)
      && NumberOf(syms, negative) == (if negative then -v else v)
  {
    AccumulateMeaning(syms);
    if ERR !in syms {
      Base10Bounds(Digits(syms));
      PowMonotone(|Digits(syms)|, |syms|);
      PowMonotone(|syms|, 6);
      assert Pow10(6) == 1000000;
    }
  }

  // ---------------------------------------------------------------------
  // Pixel level

  /**
   * All n slots of the number at (x, y) can be read; the minus sign in the
   * first slot is tested even when n is 0.
   */
  predicate NumberIn(pixels: seq<int>, x: int, y: int, n: int)
  {
    && 0 <= n
    && WindowIn(pixels, x, y, DIGIT_HEIGHT)
    && (n > 0 ==> WindowIn(pixels, x, y, 9) && WindowIn(pixels, SlotCol(x, n - 1), y, 9))
  }

  lemma SlotIn(pixels: seq<int>, x: int, y: int, n: int, i: int)
    requires NumberIn(pixels, x, y, n) && 0 <= i < n
    ensures WindowIn(pixels, SlotCol(x, i), y, 9)
  {
  }

  /** The symbols the digit reader reports for the n slots of the number at (x, y), left to right. */
  ghost function SlotSymbols(pixels: seq<int>, x: int, y: int, color: int, n: nat): (s: seq<int>)
    requires NumberIn(pixels, x, y, n)
    ensures |s| == n && AllSymbols(s)
  {
    seq(n, i requires 0 <= i < n => SlotIn(pixels, x, y, n, i); DigitAt(pixels, SlotCol(x, i), y, color))
  }

  /** Slot i of the symbols is what the digit reader reports for the window of slot i. */
  lemma SlotSymbolAt(pixels: seq<int>, x: int, y: int, color: int, n: nat, i: nat)
    requires NumberIn(pixels, x, y, n) && i < n
    ensures SlotSymbols(pixels, x, y, color, n)[i] == DigitAt(pixels, SlotCol(x, i), y, color)
  {
  }

  /**
   * Slots k and after of `slots` hold what the digit reader reports for the
   * windows of those slots, one slot at a time.
   */
  ghost predicate SlotsFrom(pixels: seq<int>, x: int, y: int, color: int, n: nat, slots: seq<int>, k: nat)
    requires NumberIn(pixels, x, y, n) && |slots| == n
    decreases n - k, 1
  {
    k >= n || SlotAndAfter(pixels, x, y, color, n, slots, k)
  }

  /** Slot k holds what the digit reader reports for its window, and so do the slots after it. */
  ghost predicate SlotAndAfter(pixels: seq<int>, x: int, y: int, color: int, n: nat, slots: seq<int>, k: nat)
    requires NumberIn(pixels, x, y, n) && |slots| == n && k < n
    decreases n - k, 0
  {
    SlotIn(pixels, x, y, n, k);
    slots[k] == DigitAt(pixels, SlotCol(x, k), y, color) && SlotsFrom(pixels, x, y, color, n, slots, k + 1)
  }

  /** The symbols of all slots hold slot by slot from any slot on. */
  lemma {:induction false} SlotSymbolsFrom(pixels: seq<int>, x: int, y: int, color: int, n: nat, k: nat)
    requires NumberIn(pixels, x, y, n) && k <= n
    ensures SlotsFrom(pixels, x, y, color, n, SlotSymbols(pixels, x, y, color, n), k)
    decreases n - k
  {
    if k < n {
      SlotSymbolAt(pixels, x, y, color, n, k);
      SlotSymbolsFrom(pixels, x, y, color, n, k + 1);
    }
  }

  /** Slots that hold slot by slot from k on hold at every slot from k on. */
  lemma {:induction false} SlotsFromAt(pixels: seq<int>, x: int, y: int, color: int, n: nat, slots: seq<int>, k: nat, i: nat)
    requires NumberIn(pixels, x, y, n) && |slots| == n
    requires SlotsFrom(pixels, x, y, color, n, slots, k) && k <= i < n
    ensures slots[i] == DigitAt(pixels, SlotCol(x, i), y, color)
    decreases i - k
  {
    SlotIn(pixels, x, y, n, i);
    if k < i {
      SlotsFromAt(pixels, x, y, color, n, slots, k + 1, i);
    }
  }

  /** The number read with n slots at (x, y). */
  ghost function NumberAt(pixels: seq<int>, x: int, y: int, n: nat, color: int): int
    requires NumberIn(pixels, x, y, n)
  {
    NumberOf(SlotSymbols(pixels, x, y, color, n), SymbolMatches(pixels, x, y, color, -1))
  }

  /**
   * The number read with n <= 6 slots is ERR exactly when some slot holds
   * no glyph; otherwise it is the base-10 value of the digits drawn, below
   * 10^n, negated exactly when a minus sign is drawn at x.
   */
  lemma NumberAtMeaning(pixels: seq<int>, x: int, y: int, n: nat, color: int)
    requires NumberIn(pixels, x, y, n) && n <= 6
    ensures NumberAt(pixels, x, y, n, color) == ERR <==>
      exists i :: 0 <= i < n && DigitAt(pixels, SlotCol(x, i), y, color) == ERR
    ensures (forall i :: 0 <= i < n ==> DigitAt(pixels, SlotCol(x, i), y, color) != ERR) ==>
      var v := Base10(Digits(SlotSymbols(pixels, x, y, color, n)));
      && 0 <= v < Pow10(n)
      && NumberAt(pixels, x, y, n, color) == (if SymbolMatches(pixels, x, y, color, -1) then -v else v)
  {
    var s := SlotSymbols(pixels, x, y, color, n);
    NumberOfMeaning(s, SymbolMatches(pixels, x, y, color, -1));
    if ERR in s {
      var i :| 0 <= i < n && s[i] == ERR;
      SlotSymbolAt(pixels, x, y, color, n, i);
    } else {
      forall i | 0 <= i < n
        ensures DigitAt(pixels, SlotCol(x, i), y, color) != ERR
      {
        SlotSymbolAt(pixels, x, y, color, n, i);
      }
    }
  }

  /** A number read with n <= 6 slots is ERR or has at most n digits. */
  lemma NumberAtBound(pixels: seq<int>, x: int, y: int, n: nat, color: int)
    requires NumberIn(pixels, x, y, n) && n <= 6
    ensures var r := NumberAt(pixels, x, y, n, color);
      r == ERR || (r < Pow10(n) && -r < Pow10(n))
  {
    NumberOfMeaning(SlotSymbols(pixels, x, y, color, n), SymbolMatches(pixels, x, y, color, -1));
  }

  /** Reads slot i of the number at (x, y): the digit reader on that slot's window. */
  method ReadSlot(pixels: array<int>, x: int, y: int, n: nat, color: int, i: nat, ghost slots: seq<int>) returns (d: int)
    requires NumberIn(pixels[..], x, y, n) && i < n
    requires |slots| == n && SlotsFrom(pixels[..], x, y, color, n, slots, 0)
    ensures d == slots[i]
  {
    SlotIn(pixels[..], x, y, n, i);
    SlotsFromAt(pixels[..], x, y, color, n, slots, 0, i);
    d := ReadDigit(pixels, SlotCol(x, i), y, color);
  }

  /**
   * Reads the n slots of the number at (x, y) left to right, accumulating
   * the digits; stops at the first slot that holds no glyph.
   */
  method ReadSlots(pixels: array<int>, x: int, y: int, n: nat, color: int, ghost slots: seq<int>) returns (ok: bool, ret: int)
    requires NumberIn(pixels[..], x, y, n)
    requires |slots| == n && SlotsFrom(pixels[..], x, y, color, n, slots, 0)
    ensures Accumulate(slots) == if ok then Some(ret) else None
  {
    ret := 0;
    for i := 0 to n
      invariant Accumulate(slots[..i]) == Some(ret)
    {
      var d := ReadSlot(pixels, x, y, n, color, i, slots);
      AccumulateNext(slots, i, ret);
      if d == ERR {
        AccumulatePrefixFails(slots, i + 1);
        return false, ret;
      }
      if d >= 0 {
        ret := 10 * ret + d;
      }
    }
    assert slots[..n] == slots;
    return true, ret;
  }

  /** Reads a number of n slots at (x, y), the digits' windows SLOT columns apart. */
  method ReadXDigit(pixels: array<int>, x: int, y: int, n: nat, color: int) returns (r: int)
    requires NumberIn(pixels[..], x, y, n)
    ensures r == NumberAt(pixels[..], x, y, n, color)
  {
    var negative := IsMinus(pixels, x, y, color);
    ghost var slots := SlotSymbols(pixels[..], x, y, color, n);
    SlotSymbolsFrom(pixels[..], x, y, color, n, 0);
    var ok, ret := ReadSlots(pixels, x, y, n, color, slots);
    if !ok {
      return ERR;
    }
    if negative {
      ret := ret * -1;
    }
    return ret;
  }

  // ---------------------------------------------------------------------
  // Composite readers

  /** Room for n >= 2 slots at x leaves room for n - 1 slots one SLOT further right. */
  lemma ShiftIn(pixels: seq<int>, x: int, y: int, n: nat)
    requires NumberIn(pixels, x, y, n) && n >= 2
    ensures NumberIn(pixels, x + SLOT, y, n - 1)
  {
  }

  /**
   * The first legible number when n, n - 1, ..., least slots are tried in
   * turn, each run starting one SLOT further right than the one before, so
   * that all runs end at the same column; ERR when none is legible.
   */
  ghost function FirstLegible(pixels: seq<int>, x: int, y: int, n: nat, least: nat, color: int): int
    requires NumberIn(pixels, x, y, n) && 1 <= least
    decreases n
  {
    if n < least then ERR
    else
      var r := NumberAt(pixels, x, y, n, color);
      if r != ERR then r
      else if n == least then ERR
      else (ShiftIn(pixels, x, y, n); FirstLegible(pixels, x + SLOT, y, n - 1, least, color))
  }

  /**
   * A number of up to three digits whose first glyph may sit at x, x + SLOT
   * or x + 2 * SLOT: three slots at x are tried first, then two at x + SLOT,
   * then one at x + 2 * SLOT.
   */
  ghost function UpTo3DigitAt(pixels: seq<int>, x: int, y: int, color: int): int
    requires NumberIn(pixels, x, y, 3)
  {
    FirstLegible(pixels, x, y, 3, 1, color)
  }

  /**
   * The up-to-3-digit reader gives ERR exactly when none of the three runs
   * is legible, and otherwise a value of at most three digits; the first
   * legible run, in the order three, two, one slots, decides.
   */
  lemma UpTo3DigitMeaning(pixels: seq<int>, x: int, y: int, color: int)
    requires NumberIn(pixels, x, y, 3)
    ensures var r := UpTo3DigitAt(pixels, x, y, color);
      && (r == ERR <==>
          NumberAt(pixels, x, y, 3, color) == ERR
          && NumberAt(pixels, x + SLOT, y, 2, color) == ERR
          && NumberAt(pixels, x + 2 * SLOT, y, 1, color) == ERR)
      && (r != ERR ==> -999 <= r <= 999)
      && (NumberAt(pixels, x, y, 3, color) != ERR ==> r == NumberAt(pixels, x, y, 3, color))
      && (NumberAt(pixels, x, y, 3, color) == ERR && NumberAt(pixels, x + SLOT, y, 2, color) != ERR ==>
          r == NumberAt(pixels, x + SLOT, y, 2, color))
      && (NumberAt(pixels, x, y, 3, color) == ERR && NumberAt(pixels, x + SLOT, y, 2, color) == ERR ==>
          r == NumberAt(pixels, x + 2 * SLOT, y, 1, color))
  {
    ShiftIn(pixels, x, y, 3);
    ShiftIn(pixels, x + SLOT, y, 2);
    NumberAtBound(pixels, x, y, 3, color);
    NumberAtBound(pixels, x + SLOT, y, 2, color);
    NumberAtBound(pixels, x + 2 * SLOT, y, 1, color);
    assert Pow10(3) == 1000;
  }

  /** Reads a number of up to three digits whose first glyph may sit at x, x + SLOT or x + 2 * SLOT. */
  method ReadUpTo3Digit(pixels: array<int>, x: int, y: int, color: int) returns (r: int)
    requires NumberIn(pixels[..], x, y, 3)
    ensures r == UpTo3DigitAt(pixels[..], x, y, color)
  {
    ShiftIn(pixels[..], x, y, 3);
    ShiftIn(pixels[..], x + SLOT, y, 2);
    var x := x;
    r := ReadXDigit(pixels, x, y, 3, color);
    if r != ERR {
      return r;
    }
    x := x + SLOT;
    r := ReadXDigit(pixels, x, y, 2, color);
    if r != ERR {
      return r;
    }
    x := x + SLOT;
    r := ReadXDigit(pixels, x, y, 1, color);
    if r != ERR {
      return r;
    }
    return ERR;
  }

  /** A number of three or four digits: four slots at x, else three slots at x + SLOT. */
  ghost function ThreeOr4DigitAt(pixels: seq<int>, x: int, y: int, color: int): int
    requires NumberIn(pixels, x, y, 4)
  {
    FirstLegible(pixels, x, y, 4, 3, color)
  }

  /**
   * The 3-or-4-digit reader gives ERR exactly when neither run is legible,
   * and otherwise a value of at most four digits; a legible four-slot run
   * wins, else the three-slot run one slot to the right decides.
   */
  lemma ThreeOr4DigitMeaning(pixels: seq<int>, x: int, y: int, color: int)
    requires NumberIn(pixels, x, y, 4)
    ensures var r := ThreeOr4DigitAt(pixels, x, y, color);
      && (r == ERR <==>
          NumberAt(pixels, x, y, 4, color) == ERR && NumberAt(pixels, x + SLOT, y, 3, color) == ERR)
      && (r != ERR ==> -9999 <= r <= 9999)
      && (NumberAt(pixels, x, y, 4, color) != ERR ==> r == NumberAt(pixels, x, y, 4, color))
      && (NumberAt(pixels, x, y, 4, color) == ERR ==> r == NumberAt(pixels, x + SLOT, y, 3, color))
  {
    ShiftIn(pixels, x, y, 4);
    NumberAtBound(pixels, x, y, 4, color);
    NumberAtBound(pixels, x + SLOT, y, 3, color);
    assert Pow10(3) == 1000;
    assert Pow10(4) == 10000;
  }

  /** Reads a number of four digits at x, or of three digits at x + SLOT. */
  method Read3Or4Digit(pixels: array<int>, x: int, y: int, color: int) returns (r: int)
    requires NumberIn(pixels[..], x, y, 4)
    ensures r == ThreeOr4DigitAt(pixels[..], x, y, color)
  {
    ShiftIn(pixels[..], x, y, 4);
    var x := x;
    r := ReadXDigit(pixels, x, y, 4, color);
    if r != ERR {
      return r;
    }
    x := x + SLOT;
    r := ReadXDigit(pixels, x, y, 3, color);
    if r != ERR {
      return r;
    }
    return ERR;
  }
}
