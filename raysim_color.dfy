/**
  Colour helpers of raysim: the visible-spectrum approximation that turns a
  wavelength (in nm) into an 8-bit RGB triple, the conversion to matplotlib's
  unit-range triples, and the `#rrggbb[aa]` hex encoding.
 */
module RaysimColor {
  import opened Wrappers
  import opened RealFacts
  import opened PyNumbers

  /** An RGB triple of Python ints. */
  datatype Rgb = Rgb(r: int, g: int, b: int)

  /** A triple of reals, used for unscaled colours and matplotlib colours. */
  datatype RealRgb = RealRgb(r: real, g: real, b: real)

  predicate IsByte(c: int) {
    0 <= c <= 255
  }

  predicate IsByteRgb(c: Rgb) {
    IsByte(c.r) && IsByte(c.g) && IsByte(c.b)
  }

  predicate IsUnit(x: real) {
    0.0 <= x <= 1.0
  }

  predicate IsUnitRgb(c: RealRgb) {
    IsUnit(c.r) && IsUnit(c.g) && IsUnit(c.b)
  }

  /** The hue of a wavelength before the brightness factor, one band per branch. */
  function Hue(w: real): (c: RealRgb)
    ensures IsUnitRgb(c)
    ensures (w < 380.0 || 781.0 <= w) ==> c == RealRgb(0.0, 0.0, 0.0)
  {
    if 380.0 <= w < 440.0 then RealRgb(-(w - 440.0) / (440.0 - 380.0), 0.0, 1.0)
    else if 440.0 <= w < 490.0 then RealRgb(0.0, (w - 440.0) / (490.0 - 440.0), 1.0)
    else if 490.0 <= w < 510.0 then RealRgb(0.0, 1.0, -(w - 510.0) / (510.0 - 490.0))
    else if 510.0 <= w < 580.0 then RealRgb((w - 510.0) / (580.0 - 510.0), 1.0, 0.0)
    else if 580.0 <= w < 645.0 then RealRgb(1.0, -(w - 645.0) / (645.0 - 580.0), 0.0)
    else if 645.0 <= w < 781.0 then RealRgb(1.0, 0.0, 0.0)
    else RealRgb(0.0, 0.0, 0.0)
  }

  /** The brightness factor, which fades the colour near both ends of the visible range. */
  function Brightness(w: real): (f: real)
    ensures IsUnit(f)
    ensures 420.0 <= w < 701.0 <==> f == 1.0
    ensures (w < 380.0 || 781.0 <= w) ==> f == 0.0
  {
    if 380.0 <= w < 420.0 then 0.3 + 0.7 * (w - 380.0) / (420.0 - 380.0)
    else if 420.0 <= w < 701.0 then 1.0
    else if 701.0 <= w < 781.0 then 0.3 + 0.7 * (780.0 - w) / (780.0 - 700.0)
    else 0.0
  }

  /** `int(255 * x * factor)` for one channel. */
  function Channel(x: real, f: real): (c: int)
    requires IsUnit(x) && IsUnit(f)
    ensures IsByte(c)
    ensures x == 1.0 && f == 1.0 ==> c == 255
    ensures x == 0.0 || f == 0.0 ==> c == 0
  {
    UnitProduct(x, f);
    assert 255.0 * x * f == 255.0 * (x * f);
    Trunc(255.0 * x * f)
  }

  /**
    `wavelength_to_color`: every channel is a byte, and wavelengths outside
    [380, 781) are black.
   */
  function WavelengthToColor(w: real): (c: Rgb)
    ensures IsByteRgb(c)
    ensures (w < 380.0 || 781.0 <= w) ==> c == Rgb(0, 0, 0)
  {
    var h := Hue(w);
    var f := Brightness(w);
    Rgb(Channel(h.r, f), Channel(h.g, f), Channel(h.b, f))
  }

  /** Deep red: every wavelength in [645, 701) gives exactly (255, 0, 0). */
  lemma DeepRedBand(w: real)
    requires 645.0 <= w < 701.0
    ensures WavelengthToColor(w) == Rgb(255, 0, 0)
  {}

  /**
    Between 420 and 701 nm the brightness factor is 1, so the channel that
    dominates each band is saturated at 255.
   */
  lemma FullBrightnessBands(w: real)
    ensures 420.0 <= w < 490.0 ==> WavelengthToColor(w).b == 255
    ensures 490.0 <= w < 580.0 ==> WavelengthToColor(w).g == 255
    ensures 580.0 <= w < 701.0 ==> WavelengthToColor(w).r == 255
  {}

  /** `rgb_to_matplotlib`: each channel divided by 255. */
  function RgbToMatplotlib(c: Rgb): (m: RealRgb)
    ensures IsByteRgb(c) ==> IsUnitRgb(m)
    ensures m.r * 255.0 == c.r as real && m.g * 255.0 == c.g as real && m.b * 255.0 == c.b as real
  {
    RealRgb(c.r as real / 255.0, c.g as real / 255.0, c.b as real / 255.0)
  }

  /** The lowercase hexadecimal digit for 0 <= k < 16. */
  function HexDigit(k: int): (ch: char)
    requires 0 <= k < 16
    ensures IsHexDigit(ch)
  {
    if k < 10 then ('0' as int + k) as char else ('a' as int + k - 10) as char
  }

  predicate IsHexDigit(ch: char) {
    '0' <= ch <= '9' || 'a' <= ch <= 'f'
  }

  /** The value of a lowercase hexadecimal digit. */
  function DigitValue(ch: char): (k: int)
    requires IsHexDigit(ch)
    ensures 0 <= k < 16
    ensures HexDigit(k) == ch
  {
    if ch <= '9' then ch as int - '0' as int else ch as int - 'a' as int + 10
  }

  /** The digits of n in base 16, most significant first, with no leading zero. */
  function HexDigits(n: nat): (s: string)
    ensures 1 <= |s|
    ensures forall i :: 0 <= i < |s| ==> IsHexDigit(s[i])
    ensures n < 16 <==> |s| == 1
    ensures 16 <= n < 256 ==> |s| == 2
  {
    if n < 16 then [HexDigit(n)] else HexDigits(n / 16) + [HexDigit(n % 16)]
  }

  /** The value of a string of hexadecimal digits read in base 16. */
  function ParseHex(s: string): int
    requires forall i :: 0 <= i < |s| ==> IsHexDigit(s[i])
  {
    if |s| == 0 then 0 else ParseHex(s[..|s| - 1]) * 16 + DigitValue(s[|s| - 1])
  }

  /**
    Python's `'%02x' % c`: lowercase hex, padded with zeros to width 2; a
    negative value keeps its minus sign, which counts towards the width.
   */
  function Format02x(c: int): (s: string)
    ensures 2 <= |s|
    ensures IsByte(c) ==> |s| == 2 && IsHexDigit(s[0]) && IsHexDigit(s[1])
  {
    if c < 0 then "-" + HexDigits(-c)
    else if c < 16 then "0" + HexDigits(c)
    else HexDigits(c)
  }

  /** Reading the two digits that `'%02x'` emits for a byte back in base 16 gives the byte. */
  lemma {:induction false} Format02xRoundTrip(c: int)
    requires IsByte(c)
    ensures ParseHex(Format02x(c)) == c
  {
    var s := Format02x(c);
    assert s == [HexDigit(c / 16), HexDigit(c % 16)] by {
      if c < 16 {
        assert HexDigits(c) == [HexDigit(c)];
      } else {
        assert HexDigits(c / 16) == [HexDigit(c / 16)];
      }
    }
    assert s[..1] == [HexDigit(c / 16)];
    assert ParseHex(s[..1][..0]) == 0;
  }

  /**
    `rbg_to_hex`: '#', two digits per channel and, when alpha is given, two
    for `int(alpha * 255)`. What the code means for byte channels (its
    length and the value each pair of digits reads back as) is
    `HexCodeShape`.
   */
  function RbgToHex(c: Rgb, alpha: Option<real>): (s: string)
    ensures 7 <= |s| && s[0] == '#'
    ensures s[1..] == Format02x(c.r) + Format02x(c.g) + Format02x(c.b) + AlphaDigits(alpha)
  {
    "#" + Format02x(c.r) + Format02x(c.g) + Format02x(c.b) + AlphaDigits(alpha)
  }

  function AlphaDigits(alpha: Option<real>): string {
    match alpha
    case None => ""
    case Some(a) => Format02x(Trunc(a * 255.0))
  }

  /**
    For byte channels the hex code has length 7 without alpha and 9 with an
    alpha in [0, 1], and each pair of digits reads back as its channel.
   */
  lemma {:induction false} HexCodeShape(c: Rgb, alpha: Option<real>)
    requires IsByteRgb(c)
    requires alpha.Some? ==> IsUnit(alpha.value)
    ensures alpha.None? ==> |RbgToHex(c, alpha)| == 7
    ensures alpha.Some? ==> |RbgToHex(c, alpha)| == 9
    ensures forall i :: 1 <= i < |RbgToHex(c, alpha)| ==> IsHexDigit(RbgToHex(c, alpha)[i])
    ensures ParseHex(RbgToHex(c, alpha)[1..3]) == c.r
    ensures ParseHex(RbgToHex(c, alpha)[3..5]) == c.g
    ensures ParseHex(RbgToHex(c, alpha)[5..7]) == c.b
    ensures alpha.Some? ==> ParseHex(RbgToHex(c, alpha)[7..9]) == Trunc(alpha.value * 255.0)
  {
    var s := RbgToHex(c, alpha);
    var fr, fg, fb := Format02x(c.r), Format02x(c.g), Format02x(c.b);
    var fa := AlphaDigits(alpha);
    if alpha.Some? {
      assert 0 <= Trunc(alpha.value * 255.0) <= 255;
    }
    assert s == "#" + fr + fg + fb + fa;
    assert s[1..3] == fr && s[3..5] == fg && s[5..7] == fb;
    Format02xRoundTrip(c.r);
    Format02xRoundTrip(c.g);
    Format02xRoundTrip(c.b);
    if alpha.Some? {
      assert s[7..9] == fa;
      Format02xRoundTrip(Trunc(alpha.value * 255.0));
    }
  }
}
