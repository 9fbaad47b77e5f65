/** The decisions `AdaptiveTextBlockRenderer::Render` makes before handing
    the text to the XAML inline builders: rejecting empty text, resolving the
    effective text style, choosing how inlines are styled, and the heading
    level announced to assistive technology. */
module TextBlock {
  import opened Wrappers
  import opened Numeric
  import Fonts
  import Colors

  datatype TextStyle = Default | Heading | ColumnHeader

  /** A host-config text style (the heading and column-header styles). */
  datatype TextStyleConfig = TextStyleConfig(
    weight: Fonts.TextWeight,
    size: Fonts.TextSize,
    isSubtle: bool,
    color: Colors.ForegroundColor,
    fontType: Fonts.FontType)

  datatype TextStylesConfig = TextStylesConfig(heading: TextStyleConfig, columnHeader: TextStyleConfig)

  /** How the text's inlines are built: from the element's own properties,
      or with a host-config text style applied. */
  datatype Inlines = PlainInlines | StyledInlines(config: TextStyleConfig)

  /** `AutomationHeadingLevel` Level1 .. Level9. */
  type HeadingLevel = l: int | 1 <= l <= 9 witness 1

  datatype TextBlockView = TextBlockView(inlines: Inlines, headingLevel: Option<HeadingLevel>)

  datatype Diagnostic = RequiredPropertyMissing(message: string)

  /** `GetHeadingLevelFromContext`: the configured heading level mapped onto
      the nine automation levels, case by case. */
  function GetHeadingLevel(configured: uint32): (level: HeadingLevel)
    ensures level == if configured < 1 then 1 else if configured > 9 then 9 else configured
  {
    match configured
    case 0 => 1
    case 1 => 1
    case 2 => 2
    case 3 => 3
    case 4 => 4
    case 5 => 5
    case 6 => 6
    case 7 => 7
    case 8 => 8
    case _ => 9
  }

  /** A higher configured level never gives a lower automation level. */
  lemma HeadingLevelMonotonic(a: uint32, b: uint32)
    requires a <= b
    ensures GetHeadingLevel(a) <= GetHeadingLevel(b)
  {
  }

  /** The element's style when it has one, else the context's, else Default. */
  function EffectiveTextStyle(elementStyle: Option<TextStyle>, contextStyle: Option<TextStyle>): (style: TextStyle)
    ensures elementStyle.Some? ==> style == elementStyle.value
    ensures elementStyle.None? && contextStyle.Some? ==> style == contextStyle.value
    ensures elementStyle.None? && contextStyle.None? ==> style == Default
  {
    var styleRef := if elementStyle.None? then contextStyle else elementStyle;
    styleRef.GetOr(Default)
  }

  /** A text block with a style of its own ignores the context's style. */
  lemma OwnStyleIgnoresContext(elementStyle: TextStyle, c1: Option<TextStyle>, c2: Option<TextStyle>)
    ensures EffectiveTextStyle(Some(elementStyle), c1) == EffectiveTextStyle(Some(elementStyle), c2) == elementStyle
  {
  }

  /** The text itself never shapes the view, only whether it is empty: any
      two non-empty texts render alike, and every empty one fails. An element
      with a style of its own renders the same under any context style. */
  lemma RenderDependsOnTextOnlyThroughEmptiness(t1: string, t2: string, elementStyle: Option<TextStyle>,
                                               c1: Option<TextStyle>, c2: Option<TextStyle>,
                                               styles: TextStylesConfig, level: uint32)
    ensures (t1 == "") == (t2 == "") ==> Render(t1, elementStyle, c1, styles, level) == Render(t2, elementStyle, c1, styles, level)
    ensures elementStyle.Some? ==> Render(t1, elementStyle, c1, styles, level) == Render(t1, elementStyle, c2, styles, level)
  {
  }

  /** `Render`: empty text is a missing required property and produces no
      element; otherwise heading and column-header styles use their host
      config, any other style uses plain inlines, and only a heading
      announces a heading level. */
  function Render(text: string, elementStyle: Option<TextStyle>, contextStyle: Option<TextStyle>,
                  styles: TextStylesConfig, configuredHeadingLevel: uint32): (r: Result<TextBlockView, Diagnostic>)
    ensures r.Failure? <==> text == ""
    ensures r.Failure? ==> r.error.RequiredPropertyMissing?
    ensures r.Success? ==> var style := EffectiveTextStyle(elementStyle, contextStyle);
      && (r.value.inlines.StyledInlines? <==> style != Default)
      && (style == Heading ==> r.value.inlines == StyledInlines(styles.heading))
      && (style == ColumnHeader ==> r.value.inlines == StyledInlines(styles.columnHeader))
      && (r.value.headingLevel.Some? <==> style == Heading)
      && (r.value.headingLevel.Some? ==> r.value.headingLevel.value == GetHeadingLevel(configuredHeadingLevel))
  {
    if text == "" then
      Failure(RequiredPropertyMissing("Required property, \"text\", is missing from TextBlock"))
    else
      var style := EffectiveTextStyle(elementStyle, contextStyle);
      var inlines :=
        if style == Heading then StyledInlines(styles.heading)
        else if style == ColumnHeader then StyledInlines(styles.columnHeader)
        else PlainInlines;
      var level := if style == Heading then Some(GetHeadingLevel(configuredHeadingLevel)) else None;
      Success(TextBlockView(inlines, level))
  }
}
