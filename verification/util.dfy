/** The remaining host-config helpers of Util.cpp: spacing lookup, the
    feature-requirement check and the background-image check. */
module Util {
  import opened Numeric
  import Wrappers

  // ---------------------------------------------------------------------
  // Spacing.

  datatype Spacing = Default | None | Small | Medium | Large | ExtraLarge | Padding
  datatype SpacingConfig = SpacingConfig(
    default: uint32, small: uint32, medium: uint32, large: uint32, extraLarge: uint32, padding: uint32)

  /** `GetSpacingSizeFromSpacing`: None is always 0, whatever the config;
      every other spacing reads its own config field. */
  function GetSpacingSizeFromSpacing(cfg: SpacingConfig, spacing: Spacing): (r: uint32)
    ensures spacing == None ==> r == 0
    ensures spacing == Small ==> r == cfg.small
    ensures spacing == Medium ==> r == cfg.medium
    ensures spacing == Large ==> r == cfg.large
    ensures spacing == ExtraLarge ==> r == cfg.extraLarge
    ensures spacing == Padding ==> r == cfg.padding
    ensures spacing == Default ==> r == cfg.default
  {
    match spacing
    case None => 0
    case Small => cfg.small
    case Medium => cfg.medium
    case Large => cfg.large
    case ExtraLarge => cfg.extraLarge
    case Padding => cfg.padding
    case Default => cfg.default
  }

  /** The config with the field `spacing` reads set to `v`; None reads no
      field and leaves the config alone. */
  function WithSpacing(cfg: SpacingConfig, spacing: Spacing, v: uint32): SpacingConfig {
    match spacing
    case None => cfg
    case Small => cfg.(small := v)
    case Medium => cfg.(medium := v)
    case Large => cfg.(large := v)
    case ExtraLarge => cfg.(extraLarge := v)
    case Padding => cfg.(padding := v)
    case Default => cfg.(default := v)
  }

  /** Each spacing reads a field of its own: setting the field one spacing
      reads changes that spacing's size to the new value and no other
      spacing's size. */
  lemma SpacingReadsOwnField(cfg: SpacingConfig, spacing: Spacing, other: Spacing, v: uint32)
    ensures GetSpacingSizeFromSpacing(WithSpacing(cfg, spacing, v), spacing) == (if spacing == None then 0 else v)
    ensures other != spacing ==>
      GetSpacingSizeFromSpacing(WithSpacing(cfg, spacing, v), other) == GetSpacingSizeFromSpacing(cfg, other)
  {
  }

  // ---------------------------------------------------------------------
  // Feature requirements.

  /** A card element's requirement: a feature name and a minimum version,
      or "*" for any version. */
  datatype Requirement = Requirement(name: string, version: string)

  /** The host's feature registration: feature name to registered version. */
  type Registration = map<string, string>

  /** `AdaptiveFeatureRegistration::Get`: "" for an unregistered feature. */
  function RegisteredVersion(reg: Registration, name: string): string {
    if name in reg then reg[name] else ""
  }

  /** `older(a, b)` is the `SemanticVersion` comparison a < b. */
  type VersionOrder = (string, string) -> bool

  /** One requirement is met: the feature is registered with a non-empty
      version, and either any version is accepted or the registered one is
      not older than the required one. */
  predicate Satisfied(req: Requirement, reg: Registration, older: VersionOrder) {
    var registered := RegisteredVersion(reg, req.name);
    registered != "" && (req.version == "*" || !older(registered, req.version))
  }

  /** `MeetsRequirements`: a flag starting true and cleared by every
      requirement that is not met. */
  method MeetsRequirements(requirements: seq<Requirement>, reg: Registration, older: VersionOrder) returns (meets: bool)
    ensures meets <==> forall i :: 0 <= i < |requirements| ==> Satisfied(requirements[i], reg, older)
    ensures requirements == [] ==> meets
  {
    meets := true;
    var k := 0;
    while k < |requirements|
      invariant 0 <= k <= |requirements|
      invariant meets <==> forall i :: 0 <= i < k ==> Satisfied(requirements[i], reg, older)
    {
      var req := requirements[k];
      var registrationVersion := RegisteredVersion(reg, req.name);
      if registrationVersion == "" {
        meets := false;
      } else if req.version != "*" {
        if older(registrationVersion, req.version) {
          meets := false;
        }
      }
      k := k + 1;
    }
  }

  /** Functional reference for the requirement check. */
  function AllSatisfied(requirements: seq<Requirement>, reg: Registration, older: VersionOrder): (r: bool)
    ensures r <==> forall i :: 0 <= i < |requirements| ==> Satisfied(requirements[i], reg, older)
  {
    if requirements == [] then true
    else Satisfied(requirements[0], reg, older) && AllSatisfied(requirements[1..], reg, older)
  }

  /** The check does not depend on the order (or repetition count) of the
      requirements: two lists with the same elements agree. */
  lemma RequirementsOrderFree(a: seq<Requirement>, b: seq<Requirement>, reg: Registration, older: VersionOrder)
    requires forall x :: x in a <==> x in b
    ensures AllSatisfied(a, reg, older) == AllSatisfied(b, reg, older)
  {
    if AllSatisfied(a, reg, older) {
      forall j | 0 <= j < |b| ensures Satisfied(b[j], reg, older) {
        assert b[j] in a;
      }
    }
    if AllSatisfied(b, reg, older) {
      forall j | 0 <= j < |a| ensures Satisfied(a[j], reg, older) {
        assert a[j] in b;
      }
    }
  }

  // ---------------------------------------------------------------------
  // Background image.

  datatype BackgroundImage = BackgroundImage(url: string)

  /** `IsBackgroundImageValid`: an image is present and has a URL. */
  function IsBackgroundImageValid(image: Wrappers.Option<BackgroundImage>): (ok: bool)
    ensures ok ==> image.Some?
    ensures image.Some? ==> (ok <==> image.value.url != "")
  {
    if image.Some? then image.value.url != "" else false
  }
}
