/** `XamlBuilder::BuildImage` (AdaptiveImageRenderer.cpp) as a pure function
    from an image element and its rendering context to the layout decisions
    made for the resulting element, including its load plan. Resolving the
    URL string against the host's base URL is a platform call; its outcome is
    an input here. */
module ImageRenderer {
  import opened Wrappers
  import opened Numeric
  import Colors
  import opened ImageLoading

  datatype ImageSize = None | Auto | Stretch | Small | Medium | Large
  datatype ImageStyle = Default | Person
  datatype HAlignment = Left | Center | Right

  /** A resolved absolute URI; only its scheme matters to the renderer. */
  datatype Uri = Uri(scheme: string)

  datatype ImageElement = ImageElement(
    url: string,
    pixelWidth: uint32,
    pixelHeight: uint32,
    size: ImageSize,
    style: ImageStyle,
    backgroundColor: string,
    horizontalAlignment: Option<HAlignment>)

  datatype ImageSizesConfig = ImageSizesConfig(small: uint32, medium: uint32, large: uint32)

  /** What the render context and host config contribute. `resolverSchemes`
      is empty when the card has no resolvers. */
  datatype ImageContext = ImageContext(
    defaultSize: ImageSize,
    sizes: ImageSizesConfig,
    horizontalContentAlignment: Option<HAlignment>,
    resolverSchemes: set<string>,
    parentPresent: bool)

  /** The builder's own settings: the XAML image handling flag and how many
      listeners wait for the images of this card. */
  datatype Builder = Builder(enableXamlImageHandling: bool, listenerCount: nat)

  /** The element tree built for an image: a person image is an ellipse, on a
      background ellipse when a background colour is given; any other image
      is an image control, inside a coloured border when a background colour
      is given. */
  datatype Shape =
    | PlainImage
    | ImageInBorder(background: Colors.Color)
    | Ellipse
    | EllipseOnBackground(background: Colors.Color)

  datatype Layout = Layout(
    shape: Shape,
    isSvg: bool,
    /** Stretch of a plain image control; None leaves the control's default. */
    imageStretch: Option<Stretch>,
    /** Stretch of a person image's ellipses. */
    ellipseStretch: Option<Stretch>,
    width: Option<uint32>,
    height: Option<uint32>,
    maxWidth: Option<uint32>,
    maxHeight: Option<uint32>,
    horizontalAlignment: HAlignment,
    loadPlan: seq<LoadStep>)

  datatype Diagnostic = AssetLoadFailed(message: string)

  /** Explicit pixel measurements were given. */
  predicate HasExplicitMeasurements(img: ImageElement) {
    img.pixelWidth != 0 || img.pixelHeight != 0
  }

  /** Both pixel dimensions were given, so the image is stretched to them. */
  predicate IsAspectRatioNeeded(img: ImageElement) {
    img.pixelWidth != 0 && img.pixelHeight != 0
  }

  /** The image size used for layout: None with explicit measurements,
      otherwise the element's size, or the host default when that is None. */
  function EffectiveSize(img: ImageElement, hostDefault: ImageSize): (size: ImageSize)
    ensures HasExplicitMeasurements(img) ==> size == ImageSize.None
    ensures !HasExplicitMeasurements(img) && img.size != ImageSize.None ==> size == img.size
    ensures !HasExplicitMeasurements(img) && img.size == ImageSize.None ==> size == hostDefault
  {
    var size := if !HasExplicitMeasurements(img) then img.size else ImageSize.None;
    if size == ImageSize.None && !HasExplicitMeasurements(img) then hostDefault else size
  }

  /** Resolving the size is idempotent: an element that already carries its
      effective size resolves to that size again. */
  lemma EffectiveSizeIdempotent(img: ImageElement, hostDefault: ImageSize)
    ensures EffectiveSize(img.(size := EffectiveSize(img, hostDefault)), hostDefault) == EffectiveSize(img, hostDefault)
  {
  }

  /** The stretch a person image's brush gets. */
  function PersonStretch(img: ImageElement): Stretch {
    if IsAspectRatioNeeded(img) then Fill else UniformToFill
  }

  /** The host size-table entry for Small, Medium and Large. */
  function TableSize(sizes: ImageSizesConfig, size: ImageSize): Option<uint32> {
    match size
    case Small => Some(sizes.small)
    case Medium => Some(sizes.medium)
    case Large => Some(sizes.large)
    case _ => Option.None
  }

  function NonZero(v: uint32): Option<uint32> {
    if v != 0 then Some(v) else Option.None
  }

  /** `BuildImage`. */
  function BuildImage(img: ImageElement, resolved: Option<Uri>, ctx: ImageContext, builder: Builder): (r: Result<Layout, Diagnostic>)
    ensures resolved.None? <==> r.Failure?
    ensures r.Failure? ==> r.error.AssetLoadFailed?
    ensures r.Success? ==> var l := r.value; var size := EffectiveSize(img, ctx.defaultSize);
      // Element tree.
      && (l.shape.Ellipse? || l.shape.EllipseOnBackground?) == (img.style == Person)
      && (l.shape.PlainImage? || l.shape.Ellipse?) == (img.backgroundColor == "")
      && (l.shape.ImageInBorder? || l.shape.EllipseOnBackground? ==>
            l.shape.background == Colors.GetColorFromString(img.backgroundColor))
      && l.isSvg == IsSvgImage(img.url)
      // Stretch.
      && (img.style == Person ==> l.imageStretch.None? && l.ellipseStretch.Some?)
      && (img.style == Person && (size in {ImageSize.None, ImageSize.Stretch, Auto} || HasExplicitMeasurements(img)) ==>
            l.ellipseStretch == Some(PersonStretch(img)))
      && (img.style == Person && !(size in {ImageSize.None, ImageSize.Stretch, Auto} || HasExplicitMeasurements(img)) ==>
            l.ellipseStretch == Some(UniformToFill))
      && (img.style != Person ==> l.ellipseStretch.None? && (l.imageStretch == Some(Fill) <==> IsAspectRatioNeeded(img))
                                  && (l.imageStretch.None? <==> !IsAspectRatioNeeded(img)))
      // Dimensions: exact for a person image, maxima otherwise; only non-zero pixels apply.
      && (HasExplicitMeasurements(img) && img.style == Person ==>
            l.width == NonZero(img.pixelWidth) && l.height == NonZero(img.pixelHeight)
            && l.maxWidth.None? && l.maxHeight.None?)
      && (HasExplicitMeasurements(img) && img.style != Person ==>
            l.maxWidth == NonZero(img.pixelWidth) && l.maxHeight == NonZero(img.pixelHeight)
            && l.width.None? && l.height.None?)
      && (!HasExplicitMeasurements(img) ==>
            l.width.None? && l.height.None? && l.maxWidth == TableSize(ctx.sizes, size)
            && l.maxHeight == (if img.style == Person then Option.None else TableSize(ctx.sizes, size)))
      // Alignment.
      && l.horizontalAlignment == img.horizontalAlignment.GetOr(ctx.horizontalContentAlignment.GetOr(Left))
      // Loading.
      && l.loadPlan == PlanImageLoad(Dispatch(resolved.value.scheme, resolved.value.scheme in ctx.resolverSchemes,
                                              builder.enableXamlImageHandling, builder.listenerCount,
                                              size == Auto, ctx.parentPresent,
                                              if img.style == Person then PersonStretch(img) else DefaultStretch))
  {
    if resolved.None? then Failure(AssetLoadFailed("Image not found"))
    else
      var uri := resolved.value;
      var explicit := HasExplicitMeasurements(img);
      var size := EffectiveSize(img, ctx.defaultSize);
      var isAutoSize := size == Auto;
      var background := Colors.GetColorFromString(img.backgroundColor);
      var person := img.style == Person;
      var stretch := if person then PersonStretch(img) else DefaultStretch;
      var plan := PlanImageLoad(Dispatch(uri.scheme, uri.scheme in ctx.resolverSchemes,
                                         builder.enableXamlImageHandling, builder.listenerCount,
                                         isAutoSize, ctx.parentPresent, stretch));
      var shape :=
        if person then (if img.backgroundColor != "" then EllipseOnBackground(background) else Ellipse)
        else (if img.backgroundColor != "" then ImageInBorder(background) else PlainImage);
      var ellipseStretch :=
        if !person then Option.None
        else if size == ImageSize.None || size == ImageSize.Stretch || size == Auto || explicit then Some(stretch)
        else Some(UniformToFill);
      var imageStretch := if !person && IsAspectRatioNeeded(img) then Some(Fill) else Option.None;
      var width := if explicit && person then NonZero(img.pixelWidth) else Option.None;
      var height := if explicit && person then NonZero(img.pixelHeight) else Option.None;
      var tableSize := TableSize(ctx.sizes, size);
      var maxWidth :=
        if explicit then (if person then Option.None else NonZero(img.pixelWidth))
        else tableSize;
      var maxHeight :=
        if explicit then (if person then Option.None else NonZero(img.pixelHeight))
        else if person then Option.None else tableSize;
      var alignmentRef := if img.horizontalAlignment.None? then ctx.horizontalContentAlignment else img.horizontalAlignment;
      Success(Layout(shape, IsSvgImage(img.url), imageStretch, ellipseStretch,
                     width, height, maxWidth, maxHeight, alignmentRef.GetOr(Left), plan))
  }

  /** A person image never gets a maximum height, and a plain image never
      gets an exact size. */
  lemma BuildImageSizeKinds(img: ImageElement, resolved: Option<Uri>, ctx: ImageContext, builder: Builder)
    requires BuildImage(img, resolved, ctx, builder).Success?
    ensures var l := BuildImage(img, resolved, ctx, builder).value;
      && (img.style == Person ==> l.maxHeight.None?)
      && (img.style != Person ==> l.width.None? && l.height.None?)
      && !(l.width.Some? && l.maxWidth.Some?)
  {
  }
}
