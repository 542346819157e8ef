/**
 * Colour themes: the theme registry with its default fallback and in-memory custom themes,
 * the stepped colour scale, and the hex-colour conversions (to `rgba(...)`, to a contrasting
 * text colour, and linear interpolation back to hex).
 */
module Themes {
  import opened Wrappers
  import opened Numerics
  import opened Strings

  /** The five colour roles of a theme, each a hex colour string. */
  datatype Palette = Palette(background: string, primary: string, secondary: string, accent: string,
                             grid: string)

  /** The themes the configuration ships with. */
  const THEME_COLORS: map<string, Palette> := map[
    "deep_space" := Palette("#000814", "#4CC9F0", "#F72585", "#7209B7", "#1B263B"),
    "cyberpunk" := Palette("#0A0E27", "#00F0FF", "#FF006E", "#FFBE0B", "#3A0CA3"),
    "quantum_lab" := Palette("#F8F9FA", "#0077B6", "#00B4D8", "#90E0EF", "#CAF0F8"),
    "matrix" := Palette("#000000", "#00FF41", "#008F11", "#00FF41", "#003B00"),
    "vectrex" := Palette("#000000", "#00FF00", "#00DD00", "#00BB00", "#003300")]

  const DEFAULT_THEME: string := "deep_space"

  /** One stop of a Plotly colour scale: its position and its colour. */
  datatype Stop = Stop(ratio: real, color: string)

  /** The position of stop i of n: i/(n−1), or 0 when there is a single stop. */
  function StopRatio(i: int, numColors: int): real {
    if numColors > 1 then i as real / (numColors - 1) as real else 0.0
  }

  /** The stops run from 0 to 1, strictly increasing. */
  lemma StopRatios(numColors: int)
    ensures numColors >= 1 ==> StopRatio(0, numColors) == 0.0
    ensures numColors >= 2 ==> StopRatio(numColors - 1, numColors) == 1.0
    ensures forall i :: 0 <= i < numColors ==> 0.0 <= StopRatio(i, numColors) <= 1.0
    ensures forall i, j :: 0 <= i < j < numColors ==> StopRatio(i, numColors) < StopRatio(j, numColors)
  {
    if numColors > 1 {
      QuotientOrder(0.0, 0.0, (numColors - 1) as real);
    }
    forall i | 0 <= i < numColors
      ensures 0.0 <= StopRatio(i, numColors) <= 1.0
    {
      StopRatioOrder(0, i, numColors);
      StopRatioOrder(i, numColors - 1, numColors);
    }
    forall i, j | 0 <= i < j < numColors
      ensures StopRatio(i, numColors) < StopRatio(j, numColors)
    {
      StopRatioOrder(i, j, numColors);
    }
  }

  lemma StopRatioOrder(i: int, j: int, numColors: int)
    requires 0 <= i <= j < numColors
    ensures StopRatio(0, numColors) == 0.0
    ensures numColors > 1 ==> StopRatio(numColors - 1, numColors) == 1.0
    ensures StopRatio(i, numColors) <= StopRatio(j, numColors)
    ensures i < j ==> StopRatio(i, numColors) < StopRatio(j, numColors)
  {
    if numColors > 1 {
      var d := (numColors - 1) as real;
      QuotientOrder(i as real, j as real, d);
      QuotientOrder(0.0, 0.0, d);
    }
  }

  /** Dividing by a positive number keeps order. */
  lemma QuotientOrder(x: real, y: real, d: real)
    requires d > 0.0
    ensures x <= y ==> x / d <= y / d
    ensures x < y ==> x / d < y / d
    ensures 0.0 / d == 0.0 && d / d == 1.0
  {
    assert y / d - x / d == (y - x) / d;
  }

  /** The colour of a stop: primary below 0.25, secondary below 0.75, accent from there on. */
  function StopColor(p: Palette, ratio: real): (c: string)
    ensures ratio < 0.25 ==> c == p.primary
    ensures 0.25 <= ratio < 0.75 ==> c == p.secondary
    ensures 0.75 <= ratio ==> c == p.accent
  {
    if ratio < 0.5 then
      if ratio < 0.25 then p.primary else p.secondary
    else
      if ratio < 0.75 then p.secondary else p.accent
  }

  /** The descriptions of the shipped themes. */
  const DESCRIPTIONS: map<string, string> := map[
    "deep_space" := "Deep Space - Dark cosmic theme with blue/purple accents",
    "cyberpunk" := "Cyberpunk - Neon electric blues and hot pinks",
    "quantum_lab" := "Quantum Lab - Clean scientific white background",
    "matrix" := "Matrix - Classic green phosphor terminal aesthetic",
    "vectrex" := "Vectrex - Retro vector graphics with glowing green lines"]

  /** `descriptions.get(theme_name, 'Custom theme')`: a custom theme added to the registry
      still reads as 'Custom theme'. */
  function GetThemeDescription(name: string): (d: string)
    ensures name in DESCRIPTIONS ==> d == DESCRIPTIONS[name]
    ensures name !in DESCRIPTIONS ==> d == "Custom theme"
  {
    if name in DESCRIPTIONS then DESCRIPTIONS[name] else "Custom theme"
  }

  /** Every shipped theme has its own description, none of them the custom fallback. */
  lemma DescriptionsCoverShippedThemes()
    ensures DESCRIPTIONS.Keys == THEME_COLORS.Keys
    ensures forall name :: name in DESCRIPTIONS ==> DESCRIPTIONS[name] != "Custom theme"
  {
  }

  /** The theme registry: the configuration's colour table, which custom themes extend in
      memory. */
  class ThemeRegistry {
    var themes: map<string, Palette>

    ghost predicate Valid()
      reads this
    {
      DEFAULT_THEME in themes
    }

    constructor()
      ensures Valid()
      ensures themes == THEME_COLORS
    {
      themes := THEME_COLORS;
    }

    /** `get_theme_colors`: the named theme, or the default one for an unknown name. The
        result is a value, so changing it cannot reach the registry. */
    function GetThemeColors(name: string): (p: Palette)
      requires Valid()
      reads this
      ensures name in themes ==> p == themes[name]
      ensures name !in themes ==> p == themes[DEFAULT_THEME]
    {
      themes[if name in themes then name else DEFAULT_THEME]
    }

    /** `create_custom_theme`: stores the palette under its name, replacing any theme of that
        name; the other themes stay as they were. */
    method CreateCustomTheme(name: string, background: string, primary: string, secondary: string,
                             accent: string, grid: string) returns (custom: Palette)
      requires Valid()
      modifies this
      ensures Valid()
      ensures custom == Palette(background, primary, secondary, accent, grid)
      ensures themes == old(themes)[name := custom]
      ensures GetThemeColors(name) == custom
    {
      custom := Palette(background, primary, secondary, accent, grid);
      themes := themes[name := custom];
    }

    /** `get_colorscale`: `num_colors` stops, each coloured by its band of the theme. */
    method GetColorscale(name: string, numColors: int) returns (scale: seq<Stop>)
      requires Valid()
      ensures |scale| == if numColors <= 0 then 0 else numColors
      ensures forall i :: 0 <= i < |scale| ==>
        scale[i] == Stop(StopRatio(i, numColors), StopColor(GetThemeColors(name), StopRatio(i, numColors)))
    {
      var colors := GetThemeColors(name);
      scale := [];
      var i := 0;
      while i < numColors
        invariant 0 <= i && |scale| == i
        invariant i <= if numColors <= 0 then 0 else numColors
        invariant forall k :: 0 <= k < i ==>
          scale[k] == Stop(StopRatio(k, numColors), StopColor(colors, StopRatio(k, numColors)))
      {
        var ratio := if numColors > 1 then i as real / (numColors - 1) as real else 0.0;
        var color;
        if ratio < 0.5 {
          color := if ratio < 0.25 then colors.primary else colors.secondary;
        } else {
          color := if ratio < 0.75 then colors.secondary else colors.accent;
        }
        scale := scale + [Stop(ratio, color)];
        i := i + 1;
      }
    }

    /** `get_gradient_color`: primary below 0.33, secondary below 0.67, accent from there on. */
    function GetGradientColor(name: string, ratio: real): (c: string)
      requires Valid()
      reads this
      ensures ratio < 0.33 ==> c == GetThemeColors(name).primary
      ensures 0.33 <= ratio < 0.67 ==> c == GetThemeColors(name).secondary
      ensures 0.67 <= ratio ==> c == GetThemeColors(name).accent
    {
      var colors := GetThemeColors(name);
      if ratio < 0.33 then colors.primary
      else if ratio < 0.67 then colors.secondary
      else colors.accent
    }
  }

  // ---------------------------------------------------------------------------------------
  // Hex colours
  // ---------------------------------------------------------------------------------------

  /** `s.lstrip('#')`: drops every leading '#'. */
  function StripHashes(s: string): (r: string)
    ensures |r| <= |s| && r == s[|s| - |r|..]
    ensures forall i :: 0 <= i < |s| - |r| ==> s[i] == '#'
    ensures r == [] || r[0] != '#'
    decreases |s|
  {
    if s != [] && s[0] == '#' then StripHashes(s[1..]) else s
  }

  predicate IsHexDigit(c: char) {
    '0' <= c <= '9' || 'a' <= c <= 'f' || 'A' <= c <= 'F'
  }

  function HexDigitValue(c: char): (v: nat)
    requires IsHexDigit(c)
    ensures v < 16
  {
    if '0' <= c <= '9' then (c - '0') as nat
    else if 'a' <= c <= 'f' then (c - 'a') as nat + 10
    else (c - 'A') as nat + 10
  }

  /** The lower-case digit `format` writes for a value below 16. */
  function HexChar(d: nat): (c: char)
    requires d < 16
    ensures IsHexDigit(c) && HexDigitValue(c) == d
    ensures '0' <= c <= '9' || 'a' <= c <= 'f'
  {
    if d < 10 then '0' + d as char else 'a' + (d - 10) as char
  }

  /** Python's slice `s[a:b]` for 0 <= a <= b: clipped to the string. */
  function Slice(s: string, a: nat, b: nat): (t: string)
    requires a <= b
    ensures |t| <= b - a
  {
    var lo := if a <= |s| then a else |s|;
    var hi := if b <= |s| then b else |s|;
    s[lo..hi]
  }

  datatype ColorError = BadHexChannel(text: string)

  /** `int(t, 16)` on a slice of at most two characters. */
  function ParseChannel(t: string): (res: Result<int, ColorError>)
    requires |t| <= 2
    ensures res.Ok? <==> t != [] && forall i :: 0 <= i < |t| ==> IsHexDigit(t[i])
    ensures res.Ok? ==> 0 <= res.value <= 255
    ensures res.Err? ==> res.error == BadHexChannel(t)
  {
    if t == [] || !IsHexDigit(t[0]) then Err(BadHexChannel(t))
    else if |t| == 1 then Ok(HexDigitValue(t[0]))
    else if !IsHexDigit(t[1]) then Err(BadHexChannel(t))
    else Ok(16 * HexDigitValue(t[0]) + HexDigitValue(t[1]))
  }

  datatype Rgb = Rgb(r: int, g: int, b: int)

  predicate InByteRange(c: Rgb) {
    0 <= c.r <= 255 && 0 <= c.g <= 255 && 0 <= c.b <= 255
  }

  /** The first failing channel's error, or the colour. */
  function Combine(r: Result<int, ColorError>, g: Result<int, ColorError>, b: Result<int, ColorError>)
    : Result<Rgb, ColorError>
  {
    if r.Err? then Err(r.error)
    else if g.Err? then Err(g.error)
    else if b.Err? then Err(b.error)
    else Ok(Rgb(r.value, g.value, b.value))
  }

  /** The three channels read from `[0:2]`, `[2:4]` and `[4:6]` after stripping '#'. */
  function ParseColor(color: string): (res: Result<Rgb, ColorError>)
    ensures res.Ok? ==> InByteRange(res.value)
  {
    var s := StripHashes(color);
    Combine(ParseChannel(Slice(s, 0, 2)), ParseChannel(Slice(s, 2, 4)), ParseChannel(Slice(s, 4, 6)))
  }

  /** `hex_to_rgba`: the channels as decimals; `alpha` arrives already formatted. */
  function HexToRgba(hexColor: string, alpha: string): (res: Result<string, ColorError>)
    ensures res.Ok? <==> ParseColor(hexColor).Ok?
    ensures res.Ok? ==>
      var c := ParseColor(hexColor).value;
      InByteRange(c) && res.value == "rgba(" + IntToString(c.r) + ", " + IntToString(c.g) + ", "
                                     + IntToString(c.b) + ", " + alpha + ")"
  {
    var c := ParseColor(hexColor);
    if c.Err? then Err(c.error)
    else Ok("rgba(" + IntToString(c.value.r) + ", " + IntToString(c.value.g) + ", "
            + IntToString(c.value.b) + ", " + alpha + ")")
  }

  /** A leading '#' is dropped before the channels are read. */
  lemma ParseAfterHash(s: string)
    requires |s| > 0 && s[0] == '#'
    ensures ParseColor(s) == ParseColor(s[1..])
  {
  }

  lemma RedParses()
    ensures ParseColor("#FF0000") == Ok(Rgb(255, 0, 0))
  {
    ParseHashSix("FF", "00", "00");
    assert "#" + "FF" + "00" + "00" == "#FF0000";
    assert ParseChannel("FF") == Ok(255);
    assert ParseChannel("00") == Ok(0);
  }

  lemma GreenParses()
    ensures ParseColor("#00FF00") == Ok(Rgb(0, 255, 0))
  {
    ParseHashSix("00", "FF", "00");
    assert "#" + "00" + "FF" + "00" == "#00FF00";
    assert ParseChannel("00") == Ok(0);
    assert ParseChannel("FF") == Ok(255);
  }

  lemma Byte255()
    ensures IntToString(255) == "255" && IntToString(0) == "0"
  {
    assert NatToString(25) == "25";
  }

  /** The rgba text of a parsed colour. */
  lemma HexToRgbaOf(hexColor: string, alpha: string, c: Rgb)
    requires ParseColor(hexColor) == Ok(c)
    ensures HexToRgba(hexColor, alpha)
      == Ok("rgba(" + IntToString(c.r) + ", " + IntToString(c.g) + ", " + IntToString(c.b) + ", " + alpha + ")")
  {
  }

  lemma HexToRgbaRed()
    ensures HexToRgba("#FF0000", "0.5") == Ok("rgba(255, 0, 0, 0.5)")
  {
    RedParses();
    HexToRgbaOf("#FF0000", "0.5", Rgb(255, 0, 0));
    RedRgbaText();
  }

  lemma HexToRgbaGreen()
    ensures HexToRgba("#00FF00", "1.0") == Ok("rgba(0, 255, 0, 1.0)")
  {
    GreenParses();
    HexToRgbaOf("#00FF00", "1.0", Rgb(0, 255, 0));
    GreenRgbaText();
  }

  /** The rgba text of pure red at half opacity. */
  lemma RedRgbaText()
    ensures "rgba(" + IntToString(255) + ", " + IntToString(0) + ", " + IntToString(0) + ", " + "0.5" + ")"
      == "rgba(255, 0, 0, 0.5)"
  {
    Byte255();
    assert "rgba(" + "255" + ", " + "0" + ", " + "0" + ", " + "0.5" + ")" == "rgba(255, 0, 0, 0.5)";
  }

  /** The rgba text of pure green, opaque. */
  lemma GreenRgbaText()
    ensures "rgba(" + IntToString(0) + ", " + IntToString(255) + ", " + IntToString(0) + ", " + "1.0" + ")"
      == "rgba(0, 255, 0, 1.0)"
  {
    Byte255();
    assert "rgba(" + "0" + ", " + "255" + ", " + "0" + ", " + "1.0" + ")" == "rgba(0, 255, 0, 1.0)";
  }

  /** The relative luminance the contrast test uses, in [0, 1] for byte channels. */
  function Luminance(c: Rgb): (y: real)
    ensures InByteRange(c) ==> 0.0 <= y <= 1.0
  {
    (0.299 * c.r as real + 0.587 * c.g as real + 0.114 * c.b as real) / 255.0
  }

  const WHITE: string := "#FFFFFF"
  const BLACK: string := "#000000"

  /** `get_contrast_color`: white text on a dark background, black on a light one. */
  function GetContrastColor(background: string): (res: Result<string, ColorError>)
    ensures res.Ok? <==> ParseColor(background).Ok?
    ensures res.Ok? ==> (res.value == WHITE <==> Luminance(ParseColor(background).value) < 0.5)
    ensures res.Ok? ==> (res.value == BLACK <==> Luminance(ParseColor(background).value) >= 0.5)
  {
    var c := ParseColor(background);
    if c.Err? then Err(c.error)
    else if Luminance(c.value) < 0.5 then Ok(WHITE) else Ok(BLACK)
  }

  /** Darkening a background that takes white text keeps white text. */
  lemma ContrastMonotone(dark: Rgb, light: Rgb)
    requires dark.r <= light.r && dark.g <= light.g && dark.b <= light.b
    ensures Luminance(light) < 0.5 ==> Luminance(dark) < 0.5
  {
  }

  lemma DeepSpaceParses()
    ensures ParseColor("#000814") == Ok(Rgb(0, 8, 20))
  {
    ParseHashSix("00", "08", "14");
    assert "#" + "00" + "08" + "14" == "#000814";
    assert ParseChannel("00") == Ok(0);
    assert ParseChannel("08") == Ok(8);
    assert ParseChannel("14") == Ok(20);
  }

  lemma QuantumLabParses()
    ensures ParseColor("#F8F9FA") == Ok(Rgb(248, 249, 250))
  {
    ParseHashSix("F8", "F9", "FA");
    assert "#" + "F8" + "F9" + "FA" == "#F8F9FA";
    assert ParseChannel("F8") == Ok(248);
    assert ParseChannel("F9") == Ok(249);
    assert ParseChannel("FA") == Ok(250);
  }

  /** The deep-space background is dark and takes white text. */
  lemma DeepSpaceContrast()
    ensures GetContrastColor(THEME_COLORS["deep_space"].background) == Ok(WHITE)
  {
    assert THEME_COLORS["deep_space"].background == "#000814";
    DeepSpaceParses();
  }

  /** The laboratory background is light and takes black text. */
  lemma QuantumLabContrast()
    ensures GetContrastColor(THEME_COLORS["quantum_lab"].background) == Ok(BLACK)
  {
    assert THEME_COLORS["quantum_lab"].background == "#F8F9FA";
    QuantumLabParses();
  }

  /** The digits of a natural number in lower-case hexadecimal. */
  function HexDigits(n: nat): (s: string)
    ensures s != []
    decreases n
  {
    if n < 16 then [HexChar(n)] else HexDigits(n / 16) + [HexChar(n % 16)]
  }

  /** `format(v, '02x')`: at least two characters, zero-filled after any sign. */
  function FormatHex02(v: int): string {
    if v < 0 then "-" + HexDigits(-v)
    else if v < 16 then "0" + HexDigits(v)
    else HexDigits(v)
  }

  /** A byte formats as exactly two lower-case digits, and reads back as itself. */
  lemma FormatByte(v: int)
    requires 0 <= v <= 255
    ensures FormatHex02(v) == [HexChar(v / 16), HexChar(v % 16)]
    ensures ParseChannel(FormatHex02(v)) == Ok(v)
  {
    if v >= 16 {
      assert HexDigits(v / 16) == [HexChar(v / 16)];
    }
  }

  /** `'#' + f'{r:02x}{g:02x}{b:02x}'`. */
  function FormatColor(c: Rgb): string {
    "#" + FormatHex02(c.r) + FormatHex02(c.g) + FormatHex02(c.b)
  }

  predicate IsLowerHex(c: char) {
    '0' <= c <= '9' || 'a' <= c <= 'f'
  }

  /** A byte colour prints as '#' and six lower-case digits, and parses back to itself. */
  lemma FormatColorRoundTrip(c: Rgb)
    requires InByteRange(c)
    ensures |FormatColor(c)| == 7 && FormatColor(c)[0] == '#'
    ensures forall i :: 1 <= i < 7 ==> IsLowerHex(FormatColor(c)[i])
    ensures ParseColor(FormatColor(c)) == Ok(c)
  {
    FormatColorShape(c);
    FormatColorParses(c);
  }

  lemma FormatColorParses(c: Rgb)
    requires InByteRange(c)
    ensures ParseColor(FormatColor(c)) == Ok(c)
  {
    FormatByte(c.r);
    FormatByte(c.g);
    FormatByte(c.b);
    ParseHashSix(FormatHex02(c.r), FormatHex02(c.g), FormatHex02(c.b));
  }

  lemma FormatColorShape(c: Rgb)
    requires InByteRange(c)
    ensures |FormatColor(c)| == 7 && FormatColor(c)[0] == '#'
    ensures forall i :: 1 <= i < 7 ==> IsLowerHex(FormatColor(c)[i])
  {
    var x, y, z := FormatHex02(c.r), FormatHex02(c.g), FormatHex02(c.b);
    FormatByte(c.r);
    FormatByte(c.g);
    FormatByte(c.b);
    var s := FormatColor(c);
    assert s == "#" + x + y + z;
    forall i | 1 <= i < 7
      ensures IsLowerHex(s[i])
    {
      if i < 3 {
        assert s[i] == x[i - 1];
      } else if i < 5 {
        assert s[i] == y[i - 3];
      } else {
        assert s[i] == z[i - 5];
      }
    }
  }

  /** '#' and three two-character fields: each field is one channel. */
  lemma ParseHashSix(x: string, y: string, z: string)
    requires |x| == 2 && |y| == 2 && |z| == 2 && x[0] != '#'
    ensures var s := "#" + x + y + z;
      |s| == 7 && s[0] == '#' && s[1..3] == x && s[3..5] == y && s[5..7] == z
      && ParseColor(s) == Combine(ParseChannel(x), ParseChannel(y), ParseChannel(z))
  {
    var s := "#" + x + y + z;
    var t := x + y + z;
    assert s[1..] == t;
    ParseAfterHash(s);
    assert StripHashes(t) == t;
    assert t[0..2] == x && t[2..4] == y && t[4..6] == z;
    assert s[1..3] == x && s[3..5] == y && s[5..7] == z;
  }

  /** `int(c1 + (c2 - c1) * ratio)`. */
  function Blend(c1: int, c2: int, ratio: real): int {
    Trunc(c1 as real + Times((c2 - c1) as real, ratio))
  }

  function MinInt(a: int, b: int): int { if a <= b then a else b }
  function MaxInt(a: int, b: int): int { if a <= b then b else a }

  /** For a ratio in [0, 1] a blended byte channel lies between its endpoints; ratio 0 and 1
      give the endpoints themselves. */
  lemma BlendBetween(c1: int, c2: int, ratio: real)
    requires 0 <= c1 && 0 <= c2
    ensures ratio == 0.0 ==> Blend(c1, c2, ratio) == c1
    ensures ratio == 1.0 ==> Blend(c1, c2, ratio) == c2
    ensures 0.0 <= ratio <= 1.0 ==> MinInt(c1, c2) <= Blend(c1, c2, ratio) <= MaxInt(c1, c2)
  {
    var d := (c2 - c1) as real;
    if 0.0 <= ratio <= 1.0 {
      var x := c1 as real + Times(d, ratio);
      if d >= 0.0 {
        TimesMonotone(d, 0.0, ratio);
        TimesMonotone(d, ratio, 1.0);
      } else {
        TimesMonotone(-d, 0.0, ratio);
        TimesMonotone(-d, ratio, 1.0);
        assert Times(-d, ratio) == -Times(d, ratio);
      }
      assert MinInt(c1, c2) as real <= x <= MaxInt(c1, c2) as real;
    }
  }

  function BlendColor(a: Rgb, b: Rgb, ratio: real): Rgb {
    Rgb(Blend(a.r, b.r, ratio), Blend(a.g, b.g, ratio), Blend(a.b, b.b, ratio))
  }

  /** `interpolate_colors`. */
  function InterpolateColors(color1: string, color2: string, ratio: real): (res: Result<string, ColorError>)
    ensures res.Ok? <==> ParseColor(color1).Ok? && ParseColor(color2).Ok?
    ensures res.Ok? ==>
      res.value == FormatColor(BlendColor(ParseColor(color1).value, ParseColor(color2).value, ratio))
  {
    var a := ParseColor(color1);
    var b := ParseColor(color2);
    if a.Err? then Err(a.error)
    else if b.Err? then Err(b.error)
    else Ok(FormatColor(BlendColor(a.value, b.value, ratio)))
  }

  /** Channel by channel, a blend with a ratio in [0, 1] lies between its two colours and
      is the first or the second colour itself at ratio 0 or 1. */
  lemma BlendColorBetween(a: Rgb, b: Rgb, ratio: real)
    requires InByteRange(a) && InByteRange(b) && 0.0 <= ratio <= 1.0
    ensures var c := BlendColor(a, b, ratio);
      InByteRange(c)
      && MinInt(a.r, b.r) <= c.r <= MaxInt(a.r, b.r)
      && MinInt(a.g, b.g) <= c.g <= MaxInt(a.g, b.g)
      && MinInt(a.b, b.b) <= c.b <= MaxInt(a.b, b.b)
    ensures ratio == 0.0 ==> BlendColor(a, b, ratio) == a
    ensures ratio == 1.0 ==> BlendColor(a, b, ratio) == b
  {
    BlendBetween(a.r, b.r, ratio);
    BlendBetween(a.g, b.g, ratio);
    BlendBetween(a.b, b.b, ratio);
  }

  /** For a ratio in [0, 1] the result is '#' plus six lower-case digits whose channels lie
      between the inputs' channels; at 0 and 1 it reads back as the first and the second input. */
  lemma InterpolationBetween(color1: string, color2: string, ratio: real)
    requires InterpolateColors(color1, color2, ratio).Ok? && 0.0 <= ratio <= 1.0
    ensures var out := InterpolateColors(color1, color2, ratio).value;
      |out| == 7 && out[0] == '#' && (forall i :: 1 <= i < 7 ==> IsLowerHex(out[i]))
    ensures var out := InterpolateColors(color1, color2, ratio).value;
      var a, b := ParseColor(color1).value, ParseColor(color2).value;
      ParseColor(out).Ok?
      && MinInt(a.r, b.r) <= ParseColor(out).value.r <= MaxInt(a.r, b.r)
      && MinInt(a.g, b.g) <= ParseColor(out).value.g <= MaxInt(a.g, b.g)
      && MinInt(a.b, b.b) <= ParseColor(out).value.b <= MaxInt(a.b, b.b)
    ensures ratio == 0.0 ==>
      ParseColor(InterpolateColors(color1, color2, ratio).value) == ParseColor(color1)
    ensures ratio == 1.0 ==>
      ParseColor(InterpolateColors(color1, color2, ratio).value) == ParseColor(color2)
  {
    var a, b := ParseColor(color1).value, ParseColor(color2).value;
    var c := BlendColor(a, b, ratio);
    BlendColorBetween(a, b, ratio);
    FormatColorShape(c);
    FormatColorParses(c);
  }
}
