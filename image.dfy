/**
 * The decoder's input and the outcome of decoding it. The client hands over
 * a buffer of ARGB pixels; before anything is read, the alpha byte of every
 * pixel is cleared in place, so that pixels compare equal to the 24-bit
 * colour constants of the chart.
 */
module Image {

  /** 2^24, the number of 24-bit RGB colours. */
  const COLORS: int := 0x1000000

  /**
   * A pixel with its alpha byte cleared. A 32-bit pixel whose alpha is 0x80
   * or more is negative; its low 24 bits are still its remainder modulo
   * 2^24, so the mask is that remainder for every pixel.
   */
  function MaskAlpha(p: int): (q: int)
    ensures 0 <= q < COLORS
    ensures (p - q) % COLORS == 0
  {
    p % COLORS
  }

  /**
   * Clearing the alpha byte of a pixel with any alpha, written as the
   * signed multiple of 2^24 that a 32-bit pixel carries, leaves its RGB
   * colour; a pixel that already is a colour is left as it is.
   */
  lemma MaskAlphaKeepsColour(alpha: int, rgb: int)
    requires 0 <= rgb < COLORS
    ensures MaskAlpha(alpha * COLORS + rgb) == rgb
    ensures MaskAlpha(rgb) == rgb
  {
    var q := MaskAlpha(alpha * COLORS + rgb);
    assert (alpha * COLORS + rgb - q) % COLORS == 0;
    assert (alpha * COLORS + rgb - q) == alpha * COLORS + (rgb - q);
    assert -COLORS < rgb - q < COLORS;
  }

  /** A buffer with the alpha byte of every pixel cleared. */
  function Masked(pixels: seq<int>): (rgb: seq<int>)
    ensures |rgb| == |pixels|
    ensures forall i | 0 <= i < |pixels| :: rgb[i] == MaskAlpha(pixels[i])
  {
    seq(|pixels|, i requires 0 <= i < |pixels| => MaskAlpha(pixels[i]))
  }

  /** After masking every pixel is a 24-bit colour, and masking again changes nothing. */
  lemma MaskedIdempotent(pixels: seq<int>)
    ensures forall i | 0 <= i < |pixels| :: 0 <= Masked(pixels)[i] < COLORS
    ensures Masked(Masked(pixels)) == Masked(pixels)
  {
    var m := Masked(pixels);
    forall i | 0 <= i < |pixels|
      ensures Masked(m)[i] == m[i]
    {
      MaskAlphaKeepsColour(0, m[i]);
    }
  }

  /** Clears the alpha byte of every pixel of the client's buffer, in place. */
  method MaskPixels(pixels: array<int>)
    modifies pixels
    ensures pixels[..] == Masked(old(pixels[..]))
  {
    for i := 0 to pixels.Length
      invariant forall j | 0 <= j < i :: pixels[j] == MaskAlpha(old(pixels[j]))
      invariant forall j | i <= j < pixels.Length :: pixels[j] == old(pixels[j])
    {
      pixels[i] := MaskAlpha(pixels[i]);
    }
  }

  /**
   * How decoding ended. Parsed: every series was read. InvalidInput: the
   * buffer does not hold WIDTH * HEIGHT pixels and the client's failure
   * handler was called. DegenerateScale: both labels of a panel's axis were
   * found on the same row (or none was found), so the scale divides by a
   * zero row distance. IndexOverrun: the gap filler indexed past either end
   * of a series.
   */
  datatype Status = Parsed | InvalidInput | DegenerateScale | IndexOverrun
}
