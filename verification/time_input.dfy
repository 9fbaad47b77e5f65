/** `TimeInputValue` of InputValue.cpp: the value shown for a time picker
    selection and the min/max check against the configured bounds. */
module TimeInput {
  import opened Wrappers
  import opened Strings
  import opened Numeric
  import Validation

  /** A `TimeSpan` counts 100-nanosecond ticks. */
  const TicksPerSecond: int := 10_000_000
  const TicksPerMinute: int := 60 * TicksPerSecond

  /** The value is printed with `sprintf_s` into a 6-byte buffer, which holds
      "HH:MM" only for spans below 100 hours; a time picker selection is a
      time of day, far inside that range. */
  const SpanLimit: int := 100 * 60 * TicksPerMinute
  type Ticks = t: int | 0 <= t < SpanLimit

  /** Hours and minutes as `TryParseSimpleTime` returns them (two `unsigned int`s). */
  datatype HourMinute = HourMinute(hours: uint32, minutes: uint32)

  /** A time parser: None when the text is not a simple time. */
  type TimeParser = string -> Option<HourMinute>

  /** Whole minutes in a span, truncating. */
  function MinutesIn(t: Ticks): (m: nat)
    ensures m * TicksPerMinute <= t < (m + 1) * TicksPerMinute
    ensures m < 6000
  {
    var seconds := t / TicksPerSecond;
    var minutes := seconds / 60;
    assert seconds * TicksPerSecond <= t < (seconds + 1) * TicksPerSecond;
    assert minutes * 60 <= seconds < (minutes + 1) * 60;
    minutes
  }

  /** `TimeInputValue::CurrentValue`: "" without a selection, otherwise the
      selection as zero-padded "HH:MM". */
  function CurrentValue(selected: Option<Ticks>): (r: string)
    ensures selected.None? <==> r == ""
    ensures selected.Some? ==> |r| == 5 && r[2] == ':'
  {
    match selected
    case None => ""
    case Some(t) =>
      var totalMinutes := MinutesIn(t);
      var hours := totalMinutes / 60;
      var minutesPastTheHour := totalMinutes - hours * 60;
      Pad2(hours) + ":" + Pad2(minutesPastTheHour)
  }

  function DigitValue(c: char): int {
    c as int - '0' as int
  }

  predicate IsDigit(c: char) {
    '0' <= c <= '9'
  }

  /** Reads back an "HH:MM" string as (hours, minutes). */
  function ParseClock(s: string): Option<(nat, nat)> {
    if |s| == 5 && IsDigit(s[0]) && IsDigit(s[1]) && s[2] == ':' && IsDigit(s[3]) && IsDigit(s[4]) then
      Some((DigitValue(s[0]) * 10 + DigitValue(s[1]), DigitValue(s[3]) * 10 + DigitValue(s[4])))
    else None
  }

  /** The displayed value is the selection truncated to the minute: reading it
      back gives minutes below 60 and an hour:minute whose start is at or
      before the selection, less than a minute away. */
  lemma CurrentValueReadsBack(t: Ticks)
    ensures var r := ParseClock(CurrentValue(Some(t)));
      && r.Some?
      && r.value.1 < 60
      && (r.value.0 * 60 + r.value.1) * TicksPerMinute <= t < (r.value.0 * 60 + r.value.1 + 1) * TicksPerMinute
  {
    var total := MinutesIn(t);
    var h := total / 60;
    var m := total - h * 60;
    var s := CurrentValue(Some(t));
    assert s == Pad2(h) + ":" + Pad2(m);
    assert s[0] == Pad2(h)[0] && s[1] == Pad2(h)[1] && s[3] == Pad2(m)[0] && s[4] == Pad2(m)[1];
    assert ParseClock(s) == Some((h, m));
    assert h * 60 + m == total;
  }

  /** Minutes past midnight named by a parsed bound, in the source's 32-bit
      unsigned arithmetic. */
  function BoundMinutes(hm: HourMinute): uint32 {
    (hm.hours * 60 + hm.minutes) % 0x1_0000_0000
  }

  /** The minimum bound as the source builds it: minutes times 1000000*60. */
  function MinBoundTicks(hm: HourMinute): int {
    BoundMinutes(hm) * 1000000 * 60
  }

  /** The maximum bound as the source builds it: minutes times 10000000*60. */
  function MaxBoundTicks(hm: HourMinute): int {
    BoundMinutes(hm) * 10000000 * 60
  }

  /** One bound check: skipped when the bound text is empty or does not
      parse, otherwise `within(bound)`. */
  function CheckBound(parse: TimeParser, bound: string, within: HourMinute -> bool): bool {
    if bound == "" then true
    else match parse(bound)
      case None => true
      case Some(hm) => within(hm)
  }

  /** The source's scale for the minimum bound: 1000000*60 ticks per minute,
      a tenth of `TicksPerMinute`. */
  const MinBoundScale: int := 1000000 * 60

  /** A selection of `t` ticks is not before the bound text `min`, measured
      at `scale` ticks per minute; an empty or unparsable bound is no bound. */
  predicate NotBefore(parse: TimeParser, min: string, t: int, scale: int) {
    min == "" || parse(min).None? || t >= BoundMinutes(parse(min).value) * scale
  }

  /** A selection of `t` ticks is not after the bound text `max`, measured
      at `scale` ticks per minute; an empty or unparsable bound is no bound. */
  predicate NotAfter(parse: TimeParser, max: string, t: int, scale: int) {
    max == "" || parse(max).None? || t <= BoundMinutes(parse(max).value) * scale
  }

  /** `TimeInputValue::IsValueValid` as written: the base rule, then, with a
      selection, ticks >= minutes*60,000,000 for a parsed min and
      ticks <= minutes*600,000,000 for a parsed max. */
  function TimeValid(parse: TimeParser, isRequired: bool, selected: Option<Ticks>, min: string, max: string): (ok: bool)
    ensures !Validation.RequiredRule(isRequired, CurrentValue(selected)) ==> !ok
    ensures selected.None? ==> (ok <==> !isRequired)
    ensures selected.Some? && min != "" && parse(min).Some? && ok ==>
      selected.value >= BoundMinutes(parse(min).value) * 60_000_000
    ensures selected.Some? && max != "" && parse(max).Some? && ok ==>
      selected.value <= BoundMinutes(parse(max).value) * TicksPerMinute
    ensures selected.Some? && (min == "" || parse(min).None?) && (max == "" || parse(max).None?) ==> ok
    ensures selected.Some? ==>
      (ok <==> NotBefore(parse, min, selected.value, MinBoundScale) && NotAfter(parse, max, selected.value, TicksPerMinute))
  {
    if !Validation.RequiredRule(isRequired, CurrentValue(selected)) then false
    else match selected
      case None => true
      case Some(t) =>
        var minOk := CheckBound(parse, min, hm => t >= MinBoundTicks(hm));
        var maxOk := CheckBound(parse, max, hm => t <= MaxBoundTicks(hm));
        minOk && maxOk
  }

  /** The corrected check: both bounds scaled by the true number of ticks
      per minute. */
  function TimeValidIntended(parse: TimeParser, isRequired: bool, selected: Option<Ticks>, min: string, max: string): (ok: bool)
    ensures selected.None? ==> (ok <==> !isRequired)
    ensures selected.Some? ==>
      (ok <==> NotBefore(parse, min, selected.value, TicksPerMinute) && NotAfter(parse, max, selected.value, TicksPerMinute))
  {
    if !Validation.RequiredRule(isRequired, CurrentValue(selected)) then false
    else match selected
      case None => true
      case Some(t) =>
        var minOk := CheckBound(parse, min, hm => t >= BoundMinutes(hm) * TicksPerMinute);
        var maxOk := CheckBound(parse, max, hm => t <= BoundMinutes(hm) * TicksPerMinute);
        minOk && maxOk
  }

  /** For a whole-minute selection and parsed bounds, the corrected check
      compares minutes past midnight: the selection must lie between the
      two bounds. */
  lemma TimeValidIntendedComparesMinutes(parse: TimeParser, isRequired: bool, t: Ticks, min: string, max: string)
    requires t % TicksPerMinute == 0
    requires min != "" && parse(min).Some? && max != "" && parse(max).Some?
    ensures TimeValidIntended(parse, isRequired, Some(t), min, max) <==>
      BoundMinutes(parse(min).value) <= MinutesIn(t) <= BoundMinutes(parse(max).value)
  {
    var m := MinutesIn(t);
    assert t == m * TicksPerMinute;
    var lo := BoundMinutes(parse(min).value);
    var hi := BoundMinutes(parse(max).value);
    assert t >= lo * TicksPerMinute <==> m >= lo;
    assert t <= hi * TicksPerMinute <==> m <= hi;
  }

  /** The as-written and the corrected checks disagree exactly on a selection
      that meets the maximum and lies in the first tenth of the way up to
      the parsed minimum: at or above minutes*60,000,000 ticks, below
      minutes*600,000,000. There the as-written check accepts. */
  lemma TimeValidAgreesUnlessBelowMin(parse: TimeParser, isRequired: bool, selected: Option<Ticks>, min: string, max: string)
    ensures TimeValid(parse, isRequired, selected, min, max) != TimeValidIntended(parse, isRequired, selected, min, max) <==>
      selected.Some? && min != "" && parse(min).Some? && NotAfter(parse, max, selected.value, TicksPerMinute)
      && BoundMinutes(parse(min).value) * MinBoundScale <= selected.value < BoundMinutes(parse(min).value) * TicksPerMinute
    ensures TimeValidIntended(parse, isRequired, selected, min, max) ==> TimeValid(parse, isRequired, selected, min, max)
  {
    if selected.Some? && min != "" && parse(min).Some? {
      var lo := BoundMinutes(parse(min).value);
      assert lo * MinBoundScale <= lo * TicksPerMinute;
    }
  }

  /** The source's min bound is a tenth of the intended one: with min
      "10:00", a 09:00 selection passes as written but not as intended. */
  lemma MinBoundScaleCounterexample()
    ensures var parse: TimeParser := s => if s == "10:00" then Some(HourMinute(10, 0)) else None;
      var nine: Ticks := 9 * 60 * TicksPerMinute;
      && TimeValid(parse, false, Some(nine), "10:00", "")
      && !TimeValidIntended(parse, false, Some(nine), "10:00", "")
  {
    var parse: TimeParser := s => if s == "10:00" then Some(HourMinute(10, 0)) else None;
    var nine: Ticks := 9 * 60 * TicksPerMinute;
    assert CurrentValue(Some(nine)) != "";
    assert parse("10:00") == Some(HourMinute(10, 0));
    assert BoundMinutes(HourMinute(10, 0)) == 600;
  }
}
