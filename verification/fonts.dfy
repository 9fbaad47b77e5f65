/** Font lookups of Util.cpp. Each lookup falls back through three tables:
    the requested font type's, the Default font type's, then the deprecated
    table at the top of the host config. An entry equal to the sentinel
    (`MAXUINT32` for sizes, `MAXUINT16` for weights) means "not set". When
    every table leaves it unset, a system constant applies. */
module Fonts {
  import opened Numeric

  datatype FontType = Default | Monospace
  datatype TextSize = Default | Small | Medium | Large | ExtraLarge
  datatype TextWeight = Default | Lighter | Bolder

  datatype FontSizesConfig = FontSizesConfig(small: uint32, medium: uint32, large: uint32, extraLarge: uint32, default: uint32)
  datatype FontWeightsConfig = FontWeightsConfig(lighter: uint16, bolder: uint16, default: uint16)
  datatype FontTypeDefinition = FontTypeDefinition(fontFamily: string, fontSizes: FontSizesConfig, fontWeights: FontWeightsConfig)
  datatype FontTypesConfig = FontTypesConfig(default: FontTypeDefinition, monospace: FontTypeDefinition)

  /** The font part of the host config; the last three fields are the
      deprecated top-level settings. */
  datatype FontConfig = FontConfig(
    fontTypes: FontTypesConfig,
    fontFamily: string,
    fontSizes: FontSizesConfig,
    fontWeights: FontWeightsConfig)

  /** `GetFontType`. */
  function GetFontType(cfg: FontConfig, fontType: FontType): (d: FontTypeDefinition)
    ensures fontType == Monospace ==> d == cfg.fontTypes.monospace
    ensures fontType == FontType.Default ==> d == cfg.fontTypes.default
  {
    match fontType
    case Monospace => cfg.fontTypes.monospace
    case Default => cfg.fontTypes.default
  }

  /** `GetFontSize`: one table lookup. */
  function GetFontSize(sizes: FontSizesConfig, size: TextSize): (r: uint32)
    ensures size == Small ==> r == sizes.small
    ensures size == Medium ==> r == sizes.medium
    ensures size == Large ==> r == sizes.large
    ensures size == ExtraLarge ==> r == sizes.extraLarge
    ensures size == TextSize.Default ==> r == sizes.default
  {
    match size
    case Small => sizes.small
    case Medium => sizes.medium
    case Large => sizes.large
    case ExtraLarge => sizes.extraLarge
    case Default => sizes.default
  }

  /** `GetFontWeight`: one table lookup. */
  function GetFontWeight(weights: FontWeightsConfig, weight: TextWeight): (r: uint16)
    ensures weight == Lighter ==> r == weights.lighter
    ensures weight == Bolder ==> r == weights.bolder
    ensures weight == TextWeight.Default ==> r == weights.default
  {
    match weight
    case Lighter => weights.lighter
    case Bolder => weights.bolder
    case Default => weights.default
  }

  /** The system font size used when no table sets one. */
  function SystemFontSize(size: TextSize): uint32 {
    match size
    case Small => 10
    case Medium => 14
    case Large => 17
    case ExtraLarge => 20
    case Default => 12
  }

  /** The system font weight used when no table sets one. */
  function SystemFontWeight(weight: TextWeight): uint16 {
    match weight
    case Lighter => 200
    case Bolder => 800
    case Default => 400
  }

  /** Reference definition of a fallback chain: the first candidate that is
      not the sentinel, or `fallback` when all of them are. */
  function FirstSet(candidates: seq<int>, sentinel: int, fallback: int): (r: int)
    ensures r == fallback || r in candidates
    ensures (forall i :: 0 <= i < |candidates| ==> candidates[i] == sentinel) ==> r == fallback
    ensures forall i :: (0 <= i < |candidates| && candidates[i] != sentinel
                         && (forall j :: 0 <= j < i ==> candidates[j] == sentinel)) ==> r == candidates[i]
  {
    if candidates == [] then fallback
    else if candidates[0] != sentinel then candidates[0]
    else FirstSet(candidates[1..], sentinel, fallback)
  }

  /** The three size tables in the order they are consulted. */
  function SizeChain(cfg: FontConfig, fontType: FontType, size: TextSize): seq<int> {
    [GetFontSize(GetFontType(cfg, fontType).fontSizes, size),
     GetFontSize(GetFontType(cfg, FontType.Default).fontSizes, size),
     GetFontSize(cfg.fontSizes, size)]
  }

  /** The three weight tables in the order they are consulted. */
  function WeightChain(cfg: FontConfig, fontType: FontType, weight: TextWeight): seq<int> {
    [GetFontWeight(GetFontType(cfg, fontType).fontWeights, weight),
     GetFontWeight(GetFontType(cfg, FontType.Default).fontWeights, weight),
     GetFontWeight(cfg.fontWeights, weight)]
  }

  /** `GetFontSizeFromFontType`: the first size the chain sets, else the
      system size; never the sentinel. */
  function GetFontSizeFromFontType(cfg: FontConfig, fontType: FontType, size: TextSize): (r: uint32)
    ensures r == FirstSet(SizeChain(cfg, fontType, size), MAXUINT32, SystemFontSize(size))
    ensures r != MAXUINT32
  {
    var result := GetFontSize(GetFontType(cfg, fontType).fontSizes, size);
    if result != MAXUINT32 then result
    else
      var fromDefault := GetFontSize(GetFontType(cfg, FontType.Default).fontSizes, size);
      if fromDefault != MAXUINT32 then fromDefault
      else
        var deprecated := GetFontSize(cfg.fontSizes, size);
        assert SizeChain(cfg, fontType, size)[2] == deprecated;
        if deprecated != MAXUINT32 then deprecated
        else SystemFontSize(size)
  }

  /** `GetFontWeightFromStyle`: the first weight the chain sets, else the
      system weight; never the sentinel. */
  function GetFontWeightFromStyle(cfg: FontConfig, fontType: FontType, weight: TextWeight): (r: uint16)
    ensures r == FirstSet(WeightChain(cfg, fontType, weight), MAXUINT16, SystemFontWeight(weight))
    ensures r != MAXUINT16
  {
    var result := GetFontWeight(GetFontType(cfg, fontType).fontWeights, weight);
    if result != MAXUINT16 then result
    else
      var fromDefault := GetFontWeight(GetFontType(cfg, FontType.Default).fontWeights, weight);
      if fromDefault != MAXUINT16 then fromDefault
      else
        var deprecated := GetFontWeight(cfg.fontWeights, weight);
        assert WeightChain(cfg, fontType, weight)[2] == deprecated;
        if deprecated != MAXUINT16 then deprecated
        else SystemFontWeight(weight)
  }

  /** Once the requested type's table sets a size, the other tables are
      never consulted: configs that differ only there give the same size. */
  lemma FontSizeFirstTableWins(cfg: FontConfig, other: FontConfig, fontType: FontType, size: TextSize)
    requires GetFontType(other, fontType) == GetFontType(cfg, fontType)
    requires GetFontSize(GetFontType(cfg, fontType).fontSizes, size) != MAXUINT32
    ensures GetFontSizeFromFontType(other, fontType, size) == GetFontSizeFromFontType(cfg, fontType, size)
            == GetFontSize(GetFontType(cfg, fontType).fontSizes, size)
  {
  }

  /** `GetFontFamilyFromFontType`: the type's own family when set;
      otherwise "Courier New" for Monospace (the deprecated family is not
      consulted), and the deprecated family or "Segoe UI" for any other
      type. The result is never empty. */
  function GetFontFamilyFromFontType(cfg: FontConfig, fontType: FontType): (r: string)
    ensures r != ""
    ensures GetFontType(cfg, fontType).fontFamily != "" ==> r == GetFontType(cfg, fontType).fontFamily
    ensures GetFontType(cfg, fontType).fontFamily == "" && fontType == Monospace ==> r == "Courier New"
    ensures GetFontType(cfg, fontType).fontFamily == "" && fontType != Monospace ==>
      r == (if cfg.fontFamily != "" then cfg.fontFamily else "Segoe UI")
  {
    var fontFamily := GetFontType(cfg, fontType).fontFamily;
    if fontFamily == "" then
      if fontType == Monospace then "Courier New"
      else
        var deprecated := cfg.fontFamily;
        if deprecated == "" then "Segoe UI" else deprecated
    else fontFamily
  }

  /** Monospace never falls back to the deprecated family. */
  lemma MonospaceIgnoresDeprecatedFamily(cfg: FontConfig, family: string)
    ensures GetFontFamilyFromFontType(cfg.(fontFamily := family), Monospace) == GetFontFamilyFromFontType(cfg, Monospace)
  {
  }
}
