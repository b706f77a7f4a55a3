/** Stroke and fill colours as the editor keeps them: OpenGL components in
    [0, 1], normalised from what the colour chooser returns
    (`choose_color` and `choose_background_color` in Splines/test.py). */
module Colors {

  /** A stroke colour, `current_color`. */
  datatype Rgb = Rgb(r: real, g: real, b: real)

  /** A fill colour, `background_color`; an alpha of 0 means "no fill". */
  datatype Rgba = Rgba(r: real, g: real, b: real, a: real)

  /** The initial stroke colour, red. */
  const DefaultStroke := Rgb(1.0, 0.0, 0.0)

  /** The initial fill colour and the one a finalize resets to: transparent black. */
  const NoFill := Rgba(0.0, 0.0, 0.0, 0.0)

  predicate InUnit(v: real)
  {
    0.0 <= v <= 1.0
  }

  predicate IsByte(v: int)
  {
    0 <= v <= 255
  }

  /** `[c / 255.0 for c in color]` applied to the chooser's (r, g, b) triple. */
  function NormalizeRgb(r: int, g: int, b: int): (c: Rgb)
    requires IsByte(r) && IsByte(g) && IsByte(b)
    ensures InUnit(c.r) && InUnit(c.g) && InUnit(c.b)
    ensures c.r * 255.0 == r as real && c.g * 255.0 == g as real && c.b * 255.0 == b as real
  {
    Rgb(r as real / 255.0, g as real / 255.0, b as real / 255.0)
  }

  // ---------------------------------------------------------------------
  // '#rrggbb' strings

  predicate IsHexDigit(c: char)
  {
    '0' <= c <= '9' || 'a' <= c <= 'f' || 'A' <= c <= 'F'
  }

  /** The value of one digit as `int(_, 16)` reads it, in either case. */
  function HexDigitValue(c: char): (v: nat)
    requires IsHexDigit(c)
    ensures v < 16
  {
    if '0' <= c <= '9' then c as int - '0' as int
    else if 'a' <= c <= 'f' then c as int - 'a' as int + 10
    else c as int - 'A' as int + 10
  }

  /** The shape of the chooser's second result: '#' and six hex digits. */
  predicate IsHexColor(s: string)
  {
    |s| == 7 && s[0] == '#' && forall i :: 1 <= i < 7 ==> IsHexDigit(s[i])
  }

  /** `int(color[i:i+2], 16)`. */
  function HexByte(s: string, i: nat): (v: nat)
    requires i + 1 < |s| && IsHexDigit(s[i]) && IsHexDigit(s[i + 1])
    ensures IsByte(v)
  {
    16 * HexDigitValue(s[i]) + HexDigitValue(s[i + 1])
  }

  /** The fill colour `choose_background_color` installs: the three bytes of
      the string and an alpha byte of 255, each divided by 255. */
  function ParseFill(s: string): (c: Rgba)
    requires IsHexColor(s)
    ensures InUnit(c.r) && InUnit(c.g) && InUnit(c.b)
    ensures c.a == 1.0
  {
    Rgba(HexByte(s, 1) as real / 255.0, HexByte(s, 3) as real / 255.0, HexByte(s, 5) as real / 255.0,
         255.0 / 255.0)
  }

  const LowerDigits := "0123456789abcdef"

  /** A byte has two hex digits: v / 16 and v % 16. */
  lemma DigitBounds(v: int)
    requires IsByte(v)
    ensures 0 <= v / 16 < 16 && 0 <= v % 16 < 16
  {
  }

  /** Tk's spelling of a colour, '#%02x%02x%02x'. */
  function HexColor(r: int, g: int, b: int): (s: string)
    requires IsByte(r) && IsByte(g) && IsByte(b)
    ensures IsHexColor(s)
  {
    DigitBounds(r);
    DigitBounds(g);
    DigitBounds(b);
    DigitRoundTrip(r / 16); DigitRoundTrip(r % 16);
    DigitRoundTrip(g / 16); DigitRoundTrip(g % 16);
    DigitRoundTrip(b / 16); DigitRoundTrip(b % 16);
    ['#', LowerDigits[r / 16], LowerDigits[r % 16], LowerDigits[g / 16], LowerDigits[g % 16],
     LowerDigits[b / 16], LowerDigits[b % 16]]
  }

  lemma DigitRoundTrip(d: nat)
    requires d < 16
    ensures IsHexDigit(LowerDigits[d]) && HexDigitValue(LowerDigits[d]) == d
  {
    if d < 10 {
      assert LowerDigits[d] as int == '0' as int + d;
    } else {
      assert LowerDigits[d] as int == 'a' as int + d - 10;
    }
  }

  lemma ByteRoundTrip(s: string, i: nat, v: int)
    requires IsByte(v) && i + 1 < |s| && s[i] == LowerDigits[v / 16] && s[i + 1] == LowerDigits[v % 16]
    ensures IsHexDigit(s[i]) && IsHexDigit(s[i + 1]) && HexByte(s, i) == v
  {
    DigitRoundTrip(v / 16);
    DigitRoundTrip(v % 16);
  }

  /** Reading back the string the chooser reports for (r, g, b) gives that
      same colour, normalised, and fully opaque. */
  lemma FillRoundTrip(r: int, g: int, b: int)
    requires IsByte(r) && IsByte(g) && IsByte(b)
    ensures ParseFill(HexColor(r, g, b))
         == Rgba(NormalizeRgb(r, g, b).r, NormalizeRgb(r, g, b).g, NormalizeRgb(r, g, b).b, 1.0)
  {
    var s := HexColor(r, g, b);
    ByteRoundTrip(s, 1, r);
    ByteRoundTrip(s, 3, g);
    ByteRoundTrip(s, 5, b);
  }
}
