/** `NumberInputValue::IsValueValid` of InputValue.cpp. Numbers are reals:
    `std::stod` is a parser parameter (None when it throws) and the bounds
    are the input's optional `min` and `max`. */
module NumberInput {
  import opened Wrappers
  import Validation

  type NumberParser = string -> Option<real>

  /** As written: the base rule; an empty value passes; an unparsable one
      fails; then `max` sets the verdict and `min`, when present, overwrites it. */
  function NumberValid(parse: NumberParser, isRequired: bool, text: string, min: Option<real>, max: Option<real>): (ok: bool)
    ensures !Validation.RequiredRule(isRequired, text) ==> !ok
    ensures Validation.RequiredRule(isRequired, text) && text == "" ==> ok
    ensures text != "" && parse(text).None? ==> !ok
    ensures text != "" && parse(text).Some? && Validation.RequiredRule(isRequired, text) && min.Some? ==>
      (ok <==> parse(text).value >= min.value)
    ensures text != "" && parse(text).Some? && Validation.RequiredRule(isRequired, text) && min.None? && max.Some? ==>
      (ok <==> parse(text).value <= max.value)
    ensures text != "" && parse(text).Some? && min.None? && max.None? ==> ok
  {
    if !Validation.RequiredRule(isRequired, text) then false
    else if text == "" then true
    else match parse(text)
      case None => false
      case Some(v) =>
        var afterMax := if max.Some? then v <= max.value else true;
        if min.Some? then v >= min.value else afterMax
  }

  /** The corrected check: a parsed value must satisfy every bound present. */
  function NumberValidIntended(parse: NumberParser, isRequired: bool, text: string, min: Option<real>, max: Option<real>): (ok: bool)
    ensures text != "" && parse(text).Some? && Validation.RequiredRule(isRequired, text) ==>
      (ok <==> (min.Some? ==> min.value <= parse(text).value) && (max.Some? ==> parse(text).value <= max.value))
  {
    if !Validation.RequiredRule(isRequired, text) then false
    else if text == "" then true
    else match parse(text)
      case None => false
      case Some(v) =>
        var maxOk := if max.Some? then v <= max.value else true;
        var minOk := if min.Some? then v >= min.value else true;
        maxOk && minOk
  }

  /** The two checks agree except where a value passes `min` but exceeds `max`. */
  lemma NumberValidAgreesUnlessAboveMax(parse: NumberParser, isRequired: bool, text: string, min: Option<real>, max: Option<real>)
    ensures NumberValid(parse, isRequired, text, min, max) != NumberValidIntended(parse, isRequired, text, min, max) <==>
      && Validation.RequiredRule(isRequired, text) && text != "" && parse(text).Some?
      && min.Some? && max.Some? && parse(text).value >= min.value && parse(text).value > max.value
  {
  }

  /** With min 0 and max 10, "11" passes as written and fails as intended. */
  lemma MinOverwritesMaxCounterexample()
    ensures var parse: NumberParser := s => if s == "11" then Some(11.0) else None;
      && NumberValid(parse, false, "11", Some(0.0), Some(10.0))
      && !NumberValidIntended(parse, false, "11", Some(0.0), Some(10.0))
  {
  }
}
