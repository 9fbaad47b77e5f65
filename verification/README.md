# Adaptive Cards UWP renderer: decision logic in Dafny

This project models the deterministic decision logic of the Adaptive Cards
UWP renderer: the parts that decide something rather than build XAML
elements. Every UI control is replaced by a plain, immutable snapshot of its
state, and every operation is a pure function (one loop is a method). The
modelled parts are:

- **Input validation** (`InputValue.cpp`). These are the per-kind current
  value and validity rules for text/password, number, date, time, toggle,
  compact, expanded and filtered choice sets. They include the shared
  "required means non-empty" rule, and the validation feedback that
  `Validate` applies: border thickness, error visibility, and the
  `DescribedBy` list with `IsDataValidForForm`.
- **Host-config helpers** (`Util.cpp`). These are the colour-string parser,
  the colour selected from the host config, the hover colour, the three-level
  font size/weight/family fallback chains, the spacing lookup, the
  feature-requirement check and the background-image check.
- **Image rendering** (`AdaptiveImageRenderer.cpp`). `BuildImage` is a pure
  function from the image element, its context and the builder's settings to
  a layout record: element tree, stretch, exact or maximum size, alignment
  and load plan. `SetImageOnUIElement` is a planner that returns the load
  steps, each tagged as tracked or untracked by the image load tracker.
- **Text blocks** (`AdaptiveTextBlockRenderer.cpp`). This covers rejecting
  empty text, resolving the effective text style, choosing the styled or
  plain inlines, and mapping the heading level.

Modules: `Wrappers` (Option/Result), `Numeric` (fixed-width integer types),
`Strings` (lower-casing, substring search, join, two-digit padding),
`Validation`, `Choices`, `TimeInput`, `NumberInput`, `Inputs`, `Colors`,
`Fonts`, `Util`, `ImageLoading`, `ImageRenderer`, `TextBlock`.

Platform services the source calls are parameters of the functions that use
them:

- the regex engine (`std::regex_match` over the whole value);
- `std::stod`, a parser returning `Option<real>`, where None means it threw;
- `TryParseSimpleTime`;
- the `SemanticVersion` "older than" comparison.

The URL resolution of `GetUrlFromString` is an input: the resolved URI, or
nothing. `ParseUtil::ToLowercase` is modelled as lower-casing ASCII A-Z.

Noteworthy behaviours of the code, modelled as written:

- A number input with `min` = 0, `max` = 10 and value "11" is valid. The
  `min` check overwrites the `max` result.
- Filtered choice text is valid when it matches *any* choice title up to
  ASCII case. The last match is the one selected; the text does not have to
  match exactly one title.
- The time `min` bound is scaled by 1000000·60 ticks per minute, not by the
  true 10000000·60.

The input model (`Inputs.IsValueValid`) reproduces these behaviours as
written. The corrected definitions stand beside them under "Findings".

## Model

| member | source | states |
|---|---|---|
| Validation.RequiredRule | source/uwp/Renderer/lib/InputValue.cpp:75-88 | a required input is acceptable exactly when its current value is non-empty; an optional one always is |
| Validation.UpdateDescribers | source/uwp/Renderer/lib/InputValue.cpp:59-70 | invalid and absent: the error message is appended at the end; valid and present: its first occurrence is removed, the rest keeping their order; otherwise the list is unchanged; every other describer keeps its count |
| Validation.SetAccessibilityProperties | source/uwp/Renderer/lib/InputValue.cpp:49-73 | `IsDataValidForForm` becomes the validity, the describers list is updated, nothing else changes |
| Validation.SetValidation | source/uwp/Renderer/lib/InputValue.cpp:90-119 | an existing border gets thickness 0 when valid and 1 when invalid; an existing error message is visible exactly when invalid; without an error message the accessibility state is untouched |
| Validation.SetValidationShows | source/uwp/Renderer/lib/InputValue.cpp:90-119 | after `SetValidation(v)`, border, error visibility, form-validity flag and describers all agree with v, and the error message is listed at most once |
| Validation.SetValidationIdempotent | source/uwp/Renderer/lib/InputValue.cpp:49-119 | repeating `SetValidation` with the same validity changes nothing |
| Validation.UpdateDescribersIdempotent | source/uwp/Renderer/lib/InputValue.cpp:59-70 | when the error message is listed at most once, repeating the update with the same validity gives the same list |
| Choices.GetChoiceValue | source/uwp/Renderer/lib/InputValue.cpp:361-373 | index -1 gives ""; an index inside the choices gives that choice's value; any other index fails (the collection lookup throws) |
| Choices.FirstChecked | source/uwp/Renderer/lib/InputValue.cpp:429-439 | the result is the first checked child, or -1 exactly when no child is checked |
| Choices.ExpandedSingleValue | source/uwp/Renderer/lib/InputValue.cpp:427-443 | "" when no child is checked; fails only for a checked child without a choice |
| Choices.ExpandedSingleValueSpec | source/uwp/Renderer/lib/InputValue.cpp:427-443 | single-select reads the value of the first checked child, and fails when that child has no choice |
| Choices.Accumulate | source/uwp/Renderer/lib/InputValue.cpp:408-419 | the loop only appends to what it was given, and fails only at a checked child without a choice |
| Choices.AccumulateSpec | source/uwp/Renderer/lib/InputValue.cpp:408-419 | the multi-select loop appends "value," for each checked child in order, and fails exactly when a checked child lies beyond the choices |
| Choices.DropTrailingComma | source/uwp/Renderer/lib/InputValue.cpp:421-424 | dropping the last character of the comma-terminated values gives the values joined by commas; the accumulation is empty exactly when nothing is checked |
| Choices.ExpandedMultiValue | source/uwp/Renderer/lib/InputValue.cpp:408-425 | fails exactly when some checked child has no choice |
| Choices.ExpandedMultiValueSpec | source/uwp/Renderer/lib/InputValue.cpp:401-426 | multi-select value = values of the checked children joined by "," in child order ("" if none), failing exactly when a checked child has no choice |
| Choices.SelectFrom | source/uwp/Renderer/lib/InputValue.cpp:510-522 | the scan keeps the last choice whose lower-cased title equals the lower-cased text |
| Choices.SelectedChoice | source/uwp/Renderer/lib/InputValue.cpp:504-525 | the selected choice matches the text up to case and no later choice does; none is selected exactly when no title matches |
| Choices.FilteredValue | source/uwp/Renderer/lib/InputValue.cpp:467-479 | with no matching title the value is "" |
| Choices.FilteredValid | source/uwp/Renderer/lib/InputValue.cpp:481-502 | empty text is valid exactly when not required; other text is valid exactly when some title matches it up to case |
| Choices.FilteredValueOfTitle | source/uwp/Renderer/lib/InputValue.cpp:504-525 | typing a choice's title in any case yields that choice's value when no later title matches |
| ChoiceExamples.MultiSelectExample | source/uwp/Renderer/lib/InputValue.cpp:408-425 | children [off, on, on] with values [A, B, C] read as "B,C" |
| ChoiceExamples.FilteredExample | source/uwp/Renderer/lib/InputValue.cpp:504-525 | "red" selects "Red" among {Red, Blue}; "Green" is invalid |
| TimeInput.MinutesIn | source/uwp/Renderer/lib/InputValue.cpp:266-270 | the whole minutes of a span: the span lies within that minute, truncating |
| TimeInput.CurrentValue | source/uwp/Renderer/lib/InputValue.cpp:258-278 | "" exactly when nothing is selected, otherwise five characters with ':' in the middle |
| TimeInput.CurrentValueReadsBack | source/uwp/Renderer/lib/InputValue.cpp:258-278 | the "HH:MM" value reads back as hours and minutes (< 60) naming the minute that contains the selection |
| TimeInput.TimeValid | source/uwp/Renderer/lib/InputValue.cpp:280-321 | without a selection: valid exactly when optional; with one: valid exactly when ticks ≥ minutes·60,000,000 for a parsed min and ticks ≤ minutes·600,000,000 for a parsed max, empty or unparsable bounds being no bound |
| TimeInput.TimeValidIntended | source/uwp/Renderer/lib/InputValue.cpp:296-317 | corrected: both bounds measured at 600,000,000 ticks per minute, otherwise the same rule |
| TimeInput.TimeValidAgreesUnlessBelowMin | source/uwp/Renderer/lib/InputValue.cpp:296-317 | as written and corrected differ exactly on selections meeting the max that lie between minutes·60,000,000 and minutes·600,000,000 of a parsed min; the corrected check never accepts what the as-written one rejects |
| TimeInput.TimeValidIntendedComparesMinutes | source/uwp/Renderer/lib/InputValue.cpp:296-317 | with both bounds scaled by the true ticks per minute, a whole-minute selection is valid exactly when min ≤ selected minutes ≤ max |
| TimeInput.MinBoundScaleCounterexample | source/uwp/Renderer/lib/InputValue.cpp:303 | with min "10:00" a 09:00 selection passes the as-written check but fails the corrected one |
| NumberInput.NumberValid | source/uwp/Renderer/lib/InputValue.cpp:182-223 | base rule; then empty ⇒ valid, unparsable ⇒ invalid; with `min` the verdict is exactly value ≥ min whatever `max` says; with only `max` it is value ≤ max |
| NumberInput.NumberValidIntended | source/uwp/Renderer/lib/InputValue.cpp:203-213 | corrected: a parsed value is valid exactly when it satisfies every bound present |
| NumberInput.NumberValidAgreesUnlessAboveMax | source/uwp/Renderer/lib/InputValue.cpp:203-213 | as written and corrected differ exactly on values that pass `min` but exceed `max` |
| NumberInput.MinOverwritesMaxCounterexample | source/uwp/Renderer/lib/InputValue.cpp:203-213 | min 0, max 10, "11": valid as written, invalid as intended |
| Inputs.CurrentValue | source/uwp/Renderer/lib/InputValue.cpp:233-479 | text and number read their text, date its formatted string, time "HH:MM" or "", a toggle its on/off value, a compact set its selected choice, an expanded set its single or multi-select value, a filtered set its matched value; only choice sets can fail |
| Inputs.IsValueValid | source/uwp/Renderer/lib/InputValue.cpp:75-502 | each kind is judged by its own rule: text by the text rule, number and time by their range rules, toggle by its box, date, compact and expanded sets by the base rule, filtered sets by the title match; only a required compact or expanded set whose value cannot be read fails to decide |
| Inputs.ToggleValidity | source/uwp/Renderer/lib/InputValue.cpp:345-359 | a toggle is valid exactly when optional or checked |
| Inputs.ToggleIgnoresBaseRule | source/uwp/Renderer/lib/InputValue.cpp:345-359 | a required toggle departs from the base rule exactly when checked with an empty "on" value or unchecked with a non-empty "off" value |
| Inputs.CompactAgreesWithExpanded | source/uwp/Renderer/lib/InputValue.cpp:361-443 | a compact set showing index k reads what an expanded single-select set whose first checked child is k reads |
| Inputs.TextValid | source/uwp/Renderer/lib/InputValue.cpp:130-156 | base rule first; the pattern applies only when both pattern and value are non-empty, and then decides by a whole-value match |
| Inputs.TextPatternOnlyForNonEmpty | source/uwp/Renderer/lib/InputValue.cpp:139-155 | with an empty value or an empty pattern, every regex engine gives the base rule's verdict |
| Inputs.BaseValid | source/uwp/Renderer/lib/InputValue.cpp:75-88 | optional ⇒ valid without reading the value; required ⇒ valid exactly when the value reads and is non-empty |
| Inputs.RequiredEmptyIsInvalid | source/uwp/Renderer/lib/InputValue.cpp:75-88 | every kind but toggle and filtered choice rejects a required input whose value is empty |
| Inputs.OptionalEmptyIsValid | source/uwp/Renderer/lib/InputValue.cpp:75-88 | every kind but filtered choice accepts an optional input whose value is empty |
| Inputs.Validate | source/uwp/Renderer/lib/InputValue.cpp:32-38 | returns exactly `IsValueValid`'s verdict and the input with its feedback passed through `SetValidation` of that verdict, everything else unchanged; the feedback then shows the verdict |
| Inputs.ValidateTwice | source/uwp/Renderer/lib/InputValue.cpp:32-38 | validating an unchanged input a second time changes nothing |
| Colors.GetColorFromString | source/uwp/Renderer/lib/Util.cpp:102-156 | "#"+8 hex digits gives A,R,G,B from consecutive pairs; "#"+6 hex digits gives R,G,B with A = 255; anything else gives all four channels 0 |
| Colors.ArgbRoundTrip | source/uwp/Renderer/lib/Util.cpp:110-148 | parsing "#AARRGGBB" printed from a colour gives that colour back |
| Colors.RgbRoundTrip | source/uwp/Renderer/lib/Util.cpp:130-148 | parsing "#RRGGBB" printed from a colour gives its colour channels back, fully opaque |
| Colors.ParseIgnoresCase | source/uwp/Renderer/lib/Util.cpp:110-131 | hex digits of either case denote the same colour |
| Colors.StyleDefinition | source/uwp/Renderer/lib/Util.cpp:158-178 | each container style reads its own definition, Default reading the default one |
| Colors.GetColorFromAdaptiveColor | source/uwp/Renderer/lib/Util.cpp:180-226 | the colour comes from the container style's entry for the foreground colour: the highlight pair when highlighting, else the plain pair, and within the pair the subtle colour exactly when subtle |
| Colors.AdaptiveColorIsLocal | source/uwp/Renderer/lib/Util.cpp:158-226 | host configs agreeing on that one entry give the same colour |
| Colors.HoverColor | source/uwp/Renderer/lib/Util.cpp:678-688 | alpha is kept; each colour channel becomes c minus a truncated quarter of c, that is 3c ≤ 4h ≤ 3c+3 |
| Fonts.GetFontType | source/uwp/Renderer/lib/Util.cpp:438-459 | Monospace reads the monospace definition, Default the default one |
| Fonts.GetFontSize | source/uwp/Renderer/lib/Util.cpp:461-490 | each text size reads the size-table field of its own name |
| Fonts.GetFontWeight | source/uwp/Renderer/lib/Util.cpp:492-517 | each text weight reads the weight-table field of its own name |
| Fonts.GetFontSizeFromFontType | source/uwp/Renderer/lib/Util.cpp:331-378 | the first size that is not `MAXUINT32` from the type's, Default type's and deprecated tables, else 10/14/17/20/12 by size; never `MAXUINT32` |
| Fonts.GetFontWeightFromStyle | source/uwp/Renderer/lib/Util.cpp:387-429 | the same chain with `MAXUINT16`, falling back to 200/800/400; never `MAXUINT16` |
| Fonts.FontSizeFirstTableWins | source/uwp/Renderer/lib/Util.cpp:335-340 | once the requested type's table sets a size, no other table matters |
| Fonts.GetFontFamilyFromFontType | source/uwp/Renderer/lib/Util.cpp:296-322 | the type's family if set; else "Courier New" for Monospace; else the deprecated family or "Segoe UI"; never empty |
| Fonts.MonospaceIgnoresDeprecatedFamily | source/uwp/Renderer/lib/Util.cpp:306-310 | the deprecated family never affects Monospace |
| Util.GetSpacingSizeFromSpacing | source/uwp/Renderer/lib/Util.cpp:255-277 | None is 0 whatever the config; every other spacing reads its own config field, Default reading the default |
| Util.SpacingReadsOwnField | source/uwp/Renderer/lib/Util.cpp:255-277 | setting the field one spacing reads changes that spacing's size to the new value and no other spacing's size; None stays 0 |
| Util.MeetsRequirements | source/uwp/Renderer/lib/Util.cpp:614-644 | true exactly when every requirement has a non-empty registered version that is "*"-accepted or not older than required; an empty list is met |
| Util.AllSatisfied | source/uwp/Renderer/lib/Util.cpp:619-641 | the conjunction over the requirements, one by one |
| Util.RequirementsOrderFree | source/uwp/Renderer/lib/Util.cpp:619-641 | lists with the same requirements, in any order, agree |
| Util.IsBackgroundImageValid | source/uwp/Renderer/lib/Util.cpp:646-655 | valid only with an image, and then exactly when its URL is non-empty |
| ImageLoading.IsSvgImage | source/uwp/Renderer/lib/AdaptiveImageRenderer.cpp:591-596 | true exactly when "svg" occurs somewhere in the URL |
| ImageLoading.SetAutoSize | source/uwp/Renderer/lib/AdaptiveImageRenderer.cpp:545-589 | sizing happens only with a parent and XAML image handling; it waits, hidden, for the "opened" event exactly when the image fires one |
| ImageLoading.PlanImageLoad | source/uwp/Renderer/lib/AdaptiveImageRenderer.cpp:285-433 | a resolver step first exactly when one is registered, tracked only without XAML handling and with listeners; then data URIs are decoded, else XAML loads the URI with the dispatch's stretch, auto-sized, hidden until opened, exactly when auto-size is asked with a parent and XAML handling, else an HTTP fetch |
| ImageLoading.TrackingFollowsListeners | source/uwp/Renderer/lib/AdaptiveImageRenderer.cpp:305-444 | when XAML loads images only a data URI is tracked; otherwise every step is tracked |
| ImageLoading.DefaultFlagNeverAutoSizesUri | source/uwp/Renderer/lib/XamlBuilder.h:59 | with the default flag, an image whose URI XAML loads is never auto-sized |
| ImageRenderer.EffectiveSize | source/uwp/Renderer/lib/AdaptiveImageRenderer.cpp:81-94 | explicit measurements give size None; otherwise the element's size, or the host default when that is None |
| ImageRenderer.EffectiveSizeIdempotent | source/uwp/Renderer/lib/AdaptiveImageRenderer.cpp:81-94 | an element already carrying its effective size resolves to that size again |
| ImageRenderer.BuildImage | source/uwp/Renderer/lib/AdaptiveImageRenderer.cpp:48-282 | no URI: an AssetLoadFailed warning and no element; otherwise the shape (ellipse exactly for a person, background exactly with a background colour, that colour parsed from the element's string), stretch, exact or maximum sizes, alignment and load plan as the branches decide |
| ImageRenderer.BuildImageSizeKinds | source/uwp/Renderer/lib/AdaptiveImageRenderer.cpp:181-245 | a person image never gets a max height, a plain image never an exact size, and no image gets both an exact and a max width |
| TextBlock.GetHeadingLevel | source/uwp/Renderer/lib/AdaptiveTextBlockRenderer.cpp:81-118 | the configured level clamped into 1..9 |
| TextBlock.HeadingLevelMonotonic | source/uwp/Renderer/lib/AdaptiveTextBlockRenderer.cpp:86-116 | a higher configured level never gives a lower automation level |
| TextBlock.EffectiveTextStyle | source/uwp/Renderer/lib/AdaptiveTextBlockRenderer.cpp:41-42 | the element's style, else the context's, else Default |
| TextBlock.OwnStyleIgnoresContext | source/uwp/Renderer/lib/AdaptiveTextBlockRenderer.cpp:41-42 | an element with a style of its own gets that style under any context style |
| TextBlock.RenderDependsOnTextOnlyThroughEmptiness | source/uwp/Renderer/lib/AdaptiveTextBlockRenderer.cpp:12-79 | two texts that are both empty or both non-empty render alike; with its own style, the context style does not matter |
| TextBlock.Render | source/uwp/Renderer/lib/AdaptiveTextBlockRenderer.cpp:12-79 | empty text: RequiredPropertyMissing and no element; Heading and ColumnHeader use their style config, other styles plain inlines; a heading level exactly for Heading |

## Left out

- Text, password and number current values are defined inline in `InputValue.h`, which is not part of this model; they are modelled as the box's text.
- Date input current value: `DateInputValue::CurrentValue` formats with the platform `DateTimeFormatter`, so the formatted string is an input of the snapshot. Its validity is the base rule and is modelled.
- Focus handling (`SetFocus`), brushes, highlighters, styles from resource dictionaries, automation peers, select actions, `LinkButton`, the submit action renderer and renderer registration are UI glue.
- Asynchronous completions of the resolver, data-stream and HTTP operations, their weak back-references, and failure marking in completions are left out. The plan records only what is dispatched synchronously, so the stretch and auto-size used inside completions are not modelled. The HTTP step never sets an image source; the model records this as a step with no source.
- `ImageLoadTracker` counting and notification and the listener add/remove operations are not part of this model. Only the listener count is an input.
- Base64 decoding, stream I/O and `XamlHelpers::SetAutoImageSize` measurement are left out. Only the `SetAutoSize` guard and its hide-until-opened choice are modelled.
- UTF-8/UTF-16 conversion, JSON conversion, `GetUrlFromString` and `GetDateTime` are foreign calls. Strings are sequences of characters, and URL resolution is an input.
- The regex engine, `std::stod`, `TryParseSimpleTime` and `SemanticVersion` ordering are parameters. The IEEE-double details of `stod` (NaN, infinities, prefix parsing) are therefore not modelled.
- Exception paths are left out: `catch` blocks returning 0/400/"", a malformed regex pattern throwing from `std::regex`, a malformed version throwing from `SemanticVersion`, and `GetFontType` failing. Two throwing paths are modelled: the out-of-range choice index, as a Failure, and a number `std::stod` cannot parse, as a parser returning None and an invalid input.
- TimeInput.CurrentValue: selections are limited to spans of 0 to 99:59 hours. Longer spans overflow the 6-byte `sprintf_s` buffer, and negative spans do not come from a time picker.
- `GetBackgroundColorFromStyle`, `GetBorderColorFromStyle`, `GetHighlighter` and `CopyTextElement` are thin lookups and copies outside the modelled helpers.
- IsBackgroundImageValid: a two-case check with no separate partner property; its contract states both directions of the presence-and-non-empty-URL rule.
- `AdaptiveRequirement` construction is a plain record constructor: the `Requirement` datatype.

## Findings

| source | as written | input that shows it | evidently intended | confidence | as-written member | corrected member |
|---|---|---|---|---|---|---|
| source/uwp/Renderer/lib/InputValue.cpp:203-213 | the `min` check assigns the verdict and discards the `max` result | min 0, max 10, value "11" is accepted | a value must satisfy both bounds | high (not executed) | NumberInput.NumberValid, NumberInput.MinOverwritesMaxCounterexample | NumberInput.NumberValidIntended |
| source/uwp/Renderer/lib/InputValue.cpp:303 | the minimum time is scaled by 1000000*60 ticks per minute, a tenth of a minute's 10000000*60 | min "10:00" accepts a 09:00 selection | the minimum compared in the same units as the maximum | high (not executed) | TimeInput.TimeValid, TimeInput.MinBoundScaleCounterexample | TimeInput.TimeValidIntended, TimeInput.TimeValidAgreesUnlessBelowMin |
