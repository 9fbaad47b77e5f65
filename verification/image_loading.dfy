/** How `XamlBuilder::SetImageOnUIElement` (AdaptiveImageRenderer.cpp)
    dispatches the loading of one image, as a plan of abstract steps. The
    asynchronous completions, the load tracker's bookkeeping and the actual
    stream I/O are not part of the plan; each step only says whether it is
    registered with the load tracker. */
module ImageLoading {
  import Strings

  /** `XamlBuilder::m_enableXamlImageHandling` starts out false. */
  const DefaultEnableXamlImageHandling: bool := false

  datatype Stretch = NoStretch | Fill | Uniform | UniformToFill

  /** The stretch `SetImageOnUIElement` uses when its caller passes none. */
  const DefaultStretch: Stretch := UniformToFill

  /** `IsSvgImage`: the URL contains "svg" anywhere. */
  function IsSvgImage(url: string): (r: bool)
    ensures r <==> exists i :: Strings.OccursAt(url, "svg", i)
  {
    Strings.ContainsFrom(url, "svg", 0)
  }

  /** What `SetAutoSize` does: nothing unless the image has a parent and XAML
      handles image loading; then either it sizes now, or (when the image
      will fire an "opened" event) it hides the element until that event. */
  datatype AutoSize = NoAutoSize | SizeNow | HideUntilOpened

  function SetAutoSize(parentPresent: bool, enableXamlImageHandling: bool, imageFiresOpenEvent: bool): (r: AutoSize)
    ensures r != NoAutoSize <==> parentPresent && enableXamlImageHandling
    ensures r == HideUntilOpened <==> parentPresent && enableXamlImageHandling && imageFiresOpenEvent
  {
    if parentPresent && enableXamlImageHandling then
      (if imageFiresOpenEvent then HideUntilOpened else SizeNow)
    else NoAutoSize
  }

  /** One dispatched operation. */
  datatype LoadStep =
      /** The scheme's resolver is asked for the image stream. */
    | CallResolver(tracked: bool)
      /** A data URI is decoded and written into an in-memory stream. */
    | DecodeDataUri
      /** XAML loads the URI itself; the image source is set now. */
    | SetUriSource(stretch: Stretch, autoSize: AutoSize)
      /** The image is fetched over HTTP and copied into a stream. */
    | FetchOverHttp

  /** Whether the step registers the image with the load tracker. */
  function Tracked(step: LoadStep): bool {
    match step
    case CallResolver(tracked) => tracked
    case DecodeDataUri => true
    case SetUriSource(_, _) => false
    case FetchOverHttp => true
  }

  /** Everything the dispatch depends on. `hasResolver` means a resolver is
      registered for the URI's scheme. */
  datatype Dispatch = Dispatch(
    scheme: string,
    hasResolver: bool,
    enableXamlImageHandling: bool,
    listenerCount: nat,
    isAutoSize: bool,
    parentPresent: bool,
    stretch: Stretch)

  /** Whether the builder lets XAML load images without tracking them. */
  predicate XamlLoads(d: Dispatch) {
    d.enableXamlImageHandling || d.listenerCount == 0
  }

  /** The final step of a dispatch: data URIs are decoded; otherwise XAML
      loads the URI or the image is fetched over HTTP. */
  function FinalStep(d: Dispatch): LoadStep {
    if d.scheme == "data" then DecodeDataUri
    else if XamlLoads(d) then
      SetUriSource(d.stretch, if d.isAutoSize then SetAutoSize(d.parentPresent, d.enableXamlImageHandling, true) else NoAutoSize)
    else FetchOverHttp
  }

  /** `SetImageOnUIElement` as a plan. A resolver does not end the dispatch:
      the scheme is examined after it as well. */
  function PlanImageLoad(d: Dispatch): (plan: seq<LoadStep>)
    ensures |plan| == (if d.hasResolver then 2 else 1)
    ensures plan[0].CallResolver? <==> d.hasResolver
    ensures d.hasResolver ==> Tracked(plan[0]) == (!d.enableXamlImageHandling && d.listenerCount != 0)
    ensures forall i :: 0 <= i < |plan| - 1 ==> plan[i].CallResolver?
    ensures !plan[|plan| - 1].CallResolver?
    ensures plan[|plan| - 1].DecodeDataUri? <==> d.scheme == "data"
    ensures plan[|plan| - 1].SetUriSource? <==> d.scheme != "data" && XamlLoads(d)
    ensures plan[|plan| - 1].FetchOverHttp? <==> d.scheme != "data" && !XamlLoads(d)
    ensures plan[|plan| - 1].SetUriSource? ==>
      plan[|plan| - 1].stretch == d.stretch
      && (plan[|plan| - 1].autoSize != NoAutoSize <==> d.isAutoSize && d.parentPresent && d.enableXamlImageHandling)
      // The image fires its "opened" event, so an auto-sized one waits hidden for it.
      && plan[|plan| - 1].autoSize in {NoAutoSize, HideUntilOpened}
  {
    var resolverStep := if d.hasResolver then [CallResolver(!d.enableXamlImageHandling && d.listenerCount != 0)] else [];
    resolverStep + [FinalStep(d)]
  }

  /** Steps of the plan that the load tracker hears about. */
  function TrackedSteps(plan: seq<LoadStep>): nat {
    if plan == [] then 0 else (if Tracked(plan[0]) then 1 else 0) + TrackedSteps(plan[1..])
  }

  /** When XAML loads images (the flag is set, or nobody listens), the only
      tracked step is the decoding of a data URI; otherwise every step is tracked. */
  lemma TrackingFollowsListeners(d: Dispatch)
    ensures XamlLoads(d) ==> TrackedSteps(PlanImageLoad(d)) == (if d.scheme == "data" then 1 else 0)
    ensures !XamlLoads(d) ==> TrackedSteps(PlanImageLoad(d)) == |PlanImageLoad(d)|
  {
    var plan := PlanImageLoad(d);
    var last := plan[|plan| - 1];
    if d.hasResolver {
      assert plan == [plan[0], last];
      assert plan[1..] == [last];
      assert plan[1..][1..] == [];
    } else {
      assert plan == [last];
      assert plan[1..] == [];
    }
  }

  /** With the builder's default flag, an auto-sized image whose URI XAML
      loads is never auto-sized: `SetAutoSize` needs XAML image handling. */
  lemma DefaultFlagNeverAutoSizesUri(d: Dispatch)
    requires d.enableXamlImageHandling == DefaultEnableXamlImageHandling
    ensures var last := PlanImageLoad(d)[|PlanImageLoad(d)| - 1];
      last.SetUriSource? ==> last.autoSize == NoAutoSize
  {
  }
}
