/** The input values of InputValue.cpp. Each rendered input is a snapshot of
    its control's state plus the validation feedback elements; the platform
    services the source calls (the regex engine, `std::stod`,
    `TryParseSimpleTime`) are parameters. */
module Inputs {
  import opened Wrappers
  import opened Numeric
  import opened Validation
  import opened Choices
  import TimeInput
  import NumberInput

  datatype Platform = Platform(
    /** `std::regex_match(value, std::regex(pattern))`: the whole value matches. */
    regexMatch: (string, string) -> bool,
    parseNumber: NumberInput.NumberParser,
    parseTime: TimeInput.TimeParser)

  /** The state of the control behind each input kind. Text and password
      inputs share `TextInputBase` and the same snapshot. A date picker's
      value is whatever the platform date formatter produced ("" with no
      date). */
  datatype Control =
    | TextBox(text: string, regex: string)
    | NumberBox(text: string, min: Option<real>, max: Option<real>)
    | DatePicker(formatted: string)
    | TimePicker(selected: Option<TimeInput.Ticks>, minTime: string, maxTime: string)
    | CheckBox(checked: bool, valueOn: string, valueOff: string)
    | ComboBox(choices: seq<Choice>, selectedIndex: int32)
    | ChoicePanel(choices: seq<Choice>, isMultiSelect: bool, checkedChildren: seq<bool>)
    | AutoSuggestBox(choices: seq<Choice>, typed: string)

  datatype InputValue = InputValue(isRequired: bool, control: Control, feedback: Feedback)

  /** `CurrentValue` of each kind. Only the choice sets can fail, when the
      selected index has no choice behind it. */
  function CurrentValue(c: Control): (r: Result<string, ChoiceError>)
    ensures r.Failure? ==> c.ComboBox? || c.ChoicePanel?
    ensures c.TextBox? || c.NumberBox? ==> r == Success(c.text)
    ensures c.DatePicker? ==> r == Success(c.formatted)
    ensures c.TimePicker? ==> r == Success(TimeInput.CurrentValue(c.selected))
    ensures c.CheckBox? ==> r == Success(if c.checked then c.valueOn else c.valueOff)
    ensures c.ComboBox? ==> r == GetChoiceValue(c.choices, c.selectedIndex as int)
    ensures c.ChoicePanel? && c.isMultiSelect ==> r == ExpandedMultiValue(c.choices, c.checkedChildren)
    ensures c.ChoicePanel? && !c.isMultiSelect ==> r == ExpandedSingleValue(c.choices, c.checkedChildren)
    ensures c.AutoSuggestBox? ==> r == Success(FilteredValue(c.choices, c.typed))
  {
    match c
    case TextBox(text, _) => Success(text)
    case NumberBox(text, _, _) => Success(text)
    case DatePicker(formatted) => Success(formatted)
    case TimePicker(selected, _, _) => Success(TimeInput.CurrentValue(selected))
    case CheckBox(checked, on, off) => Success(if checked then on else off)
    case ComboBox(choices, index) => GetChoiceValue(choices, index)
    case ChoicePanel(choices, multi, checked) =>
      if multi then ExpandedMultiValue(choices, checked) else ExpandedSingleValue(choices, checked)
    case AutoSuggestBox(choices, typed) => Success(FilteredValue(choices, typed))
  }

  /** `TextInputBase::IsValueValid`: the base rule, then the pattern, which
      applies only when both pattern and value are non-empty and must match
      the whole value. */
  function TextValid(regexMatch: (string, string) -> bool, isRequired: bool, text: string, regex: string): (ok: bool)
    ensures !RequiredRule(isRequired, text) ==> !ok
    ensures RequiredRule(isRequired, text) && (regex == "" || text == "") ==> ok
    ensures RequiredRule(isRequired, text) && regex != "" && text != "" ==> (ok <==> regexMatch(regex, text))
  {
    if !RequiredRule(isRequired, text) then false
    else if regex != "" && text != "" then regexMatch(regex, text)
    else true
  }

  /** The base rule where the source uses it unmodified (date, compact and
      expanded choice sets); the current value is only read when required. */
  function BaseValid(isRequired: bool, c: Control): (r: Result<bool, ChoiceError>)
    ensures !isRequired ==> r == Success(true)
    ensures isRequired ==> (r.Success? <==> CurrentValue(c).Success?)
    ensures isRequired && r.Success? ==> (r.value <==> CurrentValue(c).value != "")
  {
    if isRequired then
      var v :- CurrentValue(c);
      Success(v != "")
    else Success(true)
  }

  /** `IsValueValid` dispatched on the input kind. Every kind but the toggle
      and the filtered choice set applies the base rule first, and only a
      required choice set whose value cannot be read fails to decide. */
  function IsValueValid(p: Platform, x: InputValue): (r: Result<bool, ChoiceError>)
    ensures r.Failure? <==> x.isRequired && (x.control.ComboBox? || x.control.ChoicePanel?) && CurrentValue(x.control).Failure?
    ensures !x.control.CheckBox? && !x.control.AutoSuggestBox? && r == Success(true) ==>
      !x.isRequired || (CurrentValue(x.control).Success? && CurrentValue(x.control).value != "")
    // The rule each kind is routed to.
    ensures x.control.TextBox? ==> r == Success(TextValid(p.regexMatch, x.isRequired, x.control.text, x.control.regex))
    ensures x.control.NumberBox? ==>
      r == Success(NumberInput.NumberValid(p.parseNumber, x.isRequired, x.control.text, x.control.min, x.control.max))
    ensures x.control.TimePicker? ==>
      r == Success(TimeInput.TimeValid(p.parseTime, x.isRequired, x.control.selected, x.control.minTime, x.control.maxTime))
    ensures x.control.CheckBox? ==> r == Success(!x.isRequired || x.control.checked)
    ensures x.control.DatePicker? || x.control.ComboBox? || x.control.ChoicePanel? ==> r == BaseValid(x.isRequired, x.control)
    ensures x.control.AutoSuggestBox? ==> r == Success(FilteredValid(x.isRequired, x.control.choices, x.control.typed))
  {
    match x.control
    case TextBox(text, regex) => Success(TextValid(p.regexMatch, x.isRequired, text, regex))
    case NumberBox(text, min, max) => Success(NumberInput.NumberValid(p.parseNumber, x.isRequired, text, min, max))
    case DatePicker(_) => BaseValid(x.isRequired, x.control)
    case TimePicker(selected, min, max) => Success(TimeInput.TimeValid(p.parseTime, x.isRequired, selected, min, max))
    case CheckBox(checked, _, _) => Success(!x.isRequired || checked)
    case ComboBox(_, _) => BaseValid(x.isRequired, x.control)
    case ChoicePanel(_, _, _) => BaseValid(x.isRequired, x.control)
    case AutoSuggestBox(choices, typed) => Success(FilteredValid(x.isRequired, choices, typed))
  }

  /** `ToggleInputValue::IsValueValid`: a required toggle is valid exactly
      when checked, an optional one always. */
  lemma ToggleValidity(p: Platform, x: InputValue)
    requires x.control.CheckBox?
    ensures IsValueValid(p, x) == Success(!x.isRequired || x.control.checked)
  {
  }

  /** A toggle does not follow the base rule: its value is never judged, only
      its box. A required toggle departs from the base rule exactly when it
      is checked with an empty "on" value (valid, though the value is empty)
      or unchecked with a non-empty "off" value (invalid, though the value
      is not empty). */
  lemma ToggleIgnoresBaseRule(p: Platform, x: InputValue)
    requires x.control.CheckBox? && x.isRequired
    ensures IsValueValid(p, x) != BaseValid(x.isRequired, x.control) <==>
      (if x.control.checked then x.control.valueOn == "" else x.control.valueOff != "")
  {
  }

  /** The pattern engine is consulted only for a non-empty value under a
      non-empty pattern. Otherwise every engine gives the same verdict, the
      base rule's, so an empty optional text input is always valid. */
  lemma TextPatternOnlyForNonEmpty(p: Platform, q: Platform, x: InputValue)
    requires x.control.TextBox? && (x.control.text == "" || x.control.regex == "")
    ensures IsValueValid(p, x) == IsValueValid(q, x) == Success(RequiredRule(x.isRequired, x.control.text))
  {
  }

  /** The compact and the expanded single-select presentations agree: a
      compact set showing index k reads the same value, or fails the same
      way, as an expanded set whose first checked child is k. */
  lemma CompactAgreesWithExpanded(choices: seq<Choice>, checked: seq<bool>, k: int32)
    requires 0 <= k as int < |checked| && checked[k] && forall j :: 0 <= j < k as int ==> !checked[j]
    ensures CurrentValue(ComboBox(choices, k)) == CurrentValue(ChoicePanel(choices, false, checked))
  {
    ExpandedSingleValueSpec(choices, checked, k as nat);
  }

  /** Every kind except the toggle and the filtered choice set rejects a
      required input whose current value is empty, and only the choice sets
      can fail to decide. */
  lemma RequiredEmptyIsInvalid(p: Platform, x: InputValue)
    requires x.isRequired && CurrentValue(x.control) == Success("")
    requires !x.control.CheckBox? && !x.control.AutoSuggestBox?
    ensures IsValueValid(p, x) == Success(false)
  {
  }

  /** An optional input whose current value is empty is acceptable for every
      kind but the filtered choice set, whose empty value with non-empty text
      means the text named no choice. */
  lemma OptionalEmptyIsValid(p: Platform, x: InputValue)
    requires !x.isRequired && CurrentValue(x.control) == Success("")
    requires !x.control.AutoSuggestBox?
    ensures IsValueValid(p, x) == Success(true)
  {
    match x.control
    case TimePicker(selected, _, _) =>
      assert selected.None?;
    case _ =>
  }

  /** `Validate`: computes validity, then shows it with `SetValidation`. */
  function Validate(p: Platform, x: InputValue): (r: Result<(bool, InputValue), ChoiceError>)
    ensures r.Success? <==> IsValueValid(p, x).Success?
    ensures r.Success? ==> r.value.0 == IsValueValid(p, x).value
    ensures r.Success? ==> r.value.1.control == x.control && r.value.1.isRequired == x.isRequired
    ensures r.Success? && WellFormed(x.feedback) ==> Shows(r.value.1.feedback, r.value.0) && WellFormed(r.value.1.feedback)
    ensures r.Success? ==> r.value.1 == x.(feedback := SetValidation(x.feedback, r.value.0))
  {
    var isValid :- IsValueValid(p, x);
    assert WellFormed(x.feedback) ==> Shows(SetValidation(x.feedback, isValid), isValid)
                                      && WellFormed(SetValidation(x.feedback, isValid)) by {
      if WellFormed(x.feedback) {
        SetValidationShows(x.feedback, isValid);
      }
    }
    Success((isValid, x.(feedback := SetValidation(x.feedback, isValid))))
  }

  /** Validating again without touching the control changes nothing. */
  lemma ValidateTwice(p: Platform, x: InputValue)
    requires WellFormed(x.feedback) && Validate(p, x).Success?
    ensures Validate(p, Validate(p, x).value.1) == Validate(p, x)
  {
    var v := Validate(p, x).value.0;
    SetValidationIdempotent(x.feedback, v);
  }
}
