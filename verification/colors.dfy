/** Colour helpers of Util.cpp: the "#AARRGGBB"/"#RRGGBB" parser, the
    host-config colour selection and the hover colour. */
module Colors {
  import opened Numeric

  datatype Color = Color(a: uint8, r: uint8, g: uint8, b: uint8)

  /** What a colour string in no recognised format yields. */
  const Transparent: Color := Color(0, 0, 0, 0)

  /** `[0-9a-f]` under `icase`. */
  predicate IsHexDigit(c: char) {
    '0' <= c <= '9' || 'a' <= c <= 'f' || 'A' <= c <= 'F'
  }

  function HexDigitValue(c: char): (v: nat)
    requires IsHexDigit(c)
    ensures v < 16
  {
    if '0' <= c <= '9' then c as int - '0' as int
    else if 'a' <= c <= 'f' then c as int - 'a' as int + 10
    else c as int - 'A' as int + 10
  }

  predicate AllHex(s: string) {
    forall i :: 0 <= i < |s| ==> IsHexDigit(s[i])
  }

  /** `strtol(s.substr(i, 2), nullptr, 16)` on two hex digits. */
  function HexByte(s: string, i: nat): uint8
    requires i + 2 <= |s| && IsHexDigit(s[i]) && IsHexDigit(s[i + 1])
  {
    HexDigitValue(s[i]) * 16 + HexDigitValue(s[i + 1])
  }

  /** A '#' followed by exactly `digits` hex digits. */
  predicate HashHex(s: string, digits: nat) {
    |s| == digits + 1 && s[0] == '#' && AllHex(s[1..])
  }

  /** `GetColorFromString`: "#AARRGGBB" gives all four channels,
      "#RRGGBB" gives the three colour channels with full opacity, and any
      other string gives a colour whose four channels are all 0. */
  function GetColorFromString(s: string): (c: Color)
    ensures HashHex(s, 8) ==> c == Color(HexByte(s, 1), HexByte(s, 3), HexByte(s, 5), HexByte(s, 7))
    ensures HashHex(s, 6) ==> c == Color(255, HexByte(s, 1), HexByte(s, 3), HexByte(s, 5))
    ensures !HashHex(s, 8) && !HashHex(s, 6) ==> c == Transparent
  {
    if |s| > 0 && s[0] == '#' then
      var hex := s[1..];
      // With eight hex digits the first pair is alpha and the rest is RRGGBB;
      // otherwise alpha is 0xFF and the whole string must be RRGGBB.
      var alpha: uint8 := if |hex| == 8 && AllHex(hex) then HexByte(hex, 0) else 255;
      var rgb := if |hex| == 8 && AllHex(hex) then hex[2..] else hex;
      if |rgb| == 6 && AllHex(rgb) then
        Color(alpha, HexByte(rgb, 0), HexByte(rgb, 2), HexByte(rgb, 4))
      else Transparent
    else Transparent
  }

  /** The upper-case hex digit of `v`. */
  function HexDigitChar(v: nat): (c: char)
    requires v < 16
    ensures IsHexDigit(c) && HexDigitValue(c) == v
  {
    if v < 10 then ('0' as int + v) as char else ('A' as int + v - 10) as char
  }

  /** Two hex digits for a byte. */
  function HexPair(v: uint8): (s: string)
    ensures |s| == 2 && AllHex(s) && HexByte(s, 0) == v
  {
    [HexDigitChar(v / 16), HexDigitChar(v % 16)]
  }

  /** "#AARRGGBB" for a colour. */
  function ArgbString(c: Color): string {
    "#" + HexPair(c.a) + HexPair(c.r) + HexPair(c.g) + HexPair(c.b)
  }

  /** "#RRGGBB" for a colour. */
  function RgbString(c: Color): string {
    "#" + HexPair(c.r) + HexPair(c.g) + HexPair(c.b)
  }

  /** Parsing "#AARRGGBB" gives back the same colour. */
  lemma ArgbRoundTrip(c: Color)
    ensures GetColorFromString(ArgbString(c)) == c
  {
    var s := ArgbString(c);
    var A, R, G, B := HexPair(c.a), HexPair(c.r), HexPair(c.g), HexPair(c.b);
    assert s == "#" + A + R + G + B;
    assert s[1..] == A + R + G + B;
    assert HashHex(s, 8);
    assert s[1..3] == A && s[3..5] == R && s[5..7] == G && s[7..9] == B;
  }

  /** Parsing "#RRGGBB" gives back the colour channels, fully opaque. */
  lemma RgbRoundTrip(c: Color)
    ensures GetColorFromString(RgbString(c)) == c.(a := 255)
  {
    var s := RgbString(c);
    var R, G, B := HexPair(c.r), HexPair(c.g), HexPair(c.b);
    assert s == "#" + R + G + B;
    assert s[1..] == R + G + B;
    assert HashHex(s, 6);
    assert s[1..3] == R && s[3..5] == G && s[5..7] == B;
  }

  /** Upper- and lower-case hex digits denote the same colour. */
  lemma ParseIgnoresCase(s: string, t: string)
    requires |t| > 0 && |s| == |t| && HashHex(s, |s| - 1) && t[0] == '#'
    requires forall i :: 1 <= i < |s| ==> IsHexDigit(t[i]) && HexDigitValue(t[i]) == HexDigitValue(s[i])
    ensures GetColorFromString(s) == GetColorFromString(t)
  {
    assert HashHex(t, |t| - 1) by {
      forall i | 0 <= i < |t[1..]| ensures IsHexDigit(t[1..][i]) {
        assert t[1..][i] == t[i + 1];
      }
    }
  }

  // ---------------------------------------------------------------------
  // Colours chosen from the host configuration.

  datatype ForegroundColor = Default | Accent | Dark | Light | Good | Warning | Attention
  datatype ContainerStyle = Default | Emphasis | Good | Attention | Warning | Accent

  datatype HighlightColorConfig = HighlightColorConfig(default: Color, subtle: Color)
  datatype ColorConfig = ColorConfig(default: Color, subtle: Color, highlightColors: HighlightColorConfig)
  datatype ColorsConfig = ColorsConfig(
    default: ColorConfig, accent: ColorConfig, dark: ColorConfig, light: ColorConfig,
    good: ColorConfig, warning: ColorConfig, attention: ColorConfig)
  datatype ContainerStyleDefinition = ContainerStyleDefinition(
    backgroundColor: Color, borderColor: Color, foregroundColors: ColorsConfig)
  datatype ContainerStylesConfig = ContainerStylesConfig(
    default: ContainerStyleDefinition, emphasis: ContainerStyleDefinition, good: ContainerStyleDefinition,
    attention: ContainerStyleDefinition, warning: ContainerStyleDefinition, accent: ContainerStyleDefinition)

  /** `GetContainerStyleDefinition`. */
  function StyleDefinition(styles: ContainerStylesConfig, style: ContainerStyle): (d: ContainerStyleDefinition)
    ensures d in {styles.default, styles.emphasis, styles.good, styles.attention, styles.warning, styles.accent}
    ensures style == ContainerStyle.Default ==> d == styles.default
    ensures style == Emphasis ==> d == styles.emphasis
    ensures style == ContainerStyle.Good ==> d == styles.good
    ensures style == ContainerStyle.Attention ==> d == styles.attention
    ensures style == ContainerStyle.Warning ==> d == styles.warning
    ensures style == ContainerStyle.Accent ==> d == styles.accent
  {
    match style
    case Accent => styles.accent
    case Attention => styles.attention
    case Emphasis => styles.emphasis
    case Good => styles.good
    case Warning => styles.warning
    case Default => styles.default
  }

  /** The colour entry for one foreground colour. */
  function ColorEntry(colors: ColorsConfig, color: ForegroundColor): ColorConfig {
    match color
    case Accent => colors.accent
    case Dark => colors.dark
    case Light => colors.light
    case Good => colors.good
    case Warning => colors.warning
    case Attention => colors.attention
    case Default => colors.default
  }

  /** The entry `GetColorFromAdaptiveColor` reads for a colour in a container style. */
  function EntryFor(styles: ContainerStylesConfig, color: ForegroundColor, style: ContainerStyle): ColorConfig {
    ColorEntry(StyleDefinition(styles, style).foregroundColors, color)
  }

  /** `GetColorFromAdaptiveColor`: the highlight flag picks the highlight
      pair, the subtle flag picks the subtle colour of the pair. */
  function GetColorFromAdaptiveColor(styles: ContainerStylesConfig, color: ForegroundColor, style: ContainerStyle,
                                     isSubtle: bool, highlight: bool): (c: Color)
    ensures var e := EntryFor(styles, color, style);
      if highlight then c in {e.highlightColors.default, e.highlightColors.subtle} else c in {e.default, e.subtle}
    ensures var e := EntryFor(styles, color, style);
      && (highlight && isSubtle ==> c == e.highlightColors.subtle)
      && (highlight && !isSubtle ==> c == e.highlightColors.default)
      && (!highlight && isSubtle ==> c == e.subtle)
      && (!highlight && !isSubtle ==> c == e.default)
  {
    var colorConfig := ColorEntry(StyleDefinition(styles, style).foregroundColors, color);
    if highlight then
      (if isSubtle then colorConfig.highlightColors.subtle else colorConfig.highlightColors.default)
    else
      (if isSubtle then colorConfig.subtle else colorConfig.default)
  }

  /** Only the entry for the requested colour in the requested container
      style matters: host configs that agree on it give the same colour. */
  lemma AdaptiveColorIsLocal(s1: ContainerStylesConfig, s2: ContainerStylesConfig, color: ForegroundColor,
                             style: ContainerStyle, isSubtle: bool, highlight: bool)
    requires EntryFor(s1, color, style) == EntryFor(s2, color, style)
    ensures GetColorFromAdaptiveColor(s1, color, style, isSubtle, highlight)
         == GetColorFromAdaptiveColor(s2, color, style, isSubtle, highlight)
  {
  }

  // ---------------------------------------------------------------------
  // Hover colour.

  /** `GenerateLHoverColor`: each colour channel loses a quarter of itself,
      the quarter truncated to a whole byte (`c * 0.25` is exact in double);
      alpha is kept. */
  function HoverColor(c: Color): (h: Color)
    ensures h.a == c.a
    ensures 3 * c.r <= 4 * h.r <= 3 * c.r + 3
    ensures 3 * c.g <= 4 * h.g <= 3 * c.g + 3
    ensures 3 * c.b <= 4 * h.b <= 3 * c.b + 3
    ensures h.r <= c.r && h.g <= c.g && h.b <= c.b
  {
    Color(c.a, c.r - c.r / 4, c.g - c.g / 4, c.b - c.b / 4)
  }
}
