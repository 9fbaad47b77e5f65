/** String helpers shared by the input and image models. Strings are
    sequences of characters; the UTF-8/UTF-16 conversions the source
    performs around these helpers are identities here. */
module Strings {

  /** `ParseUtil::ToLowercase`, modelled as lower-casing the ASCII letters
      A-Z and leaving every other character unchanged; its definition is not
      part of this model. */
  function ToLower(s: string): (r: string)
    ensures |r| == |s|
    ensures forall i :: 0 <= i < |s| ==> r[i] == LowerChar(s[i])
  {
    if s == [] then [] else [LowerChar(s[0])] + ToLower(s[1..])
  }

  function LowerChar(c: char): char {
    if 'A' <= c <= 'Z' then (c as int - 'A' as int + 'a' as int) as char else c
  }

  /** `needle` occurs in `s` starting at position `i`. */
  predicate OccursAt(s: string, needle: string, i: nat) {
    i + |needle| <= |s| && s[i..i + |needle|] == needle
  }

  /** `std::string::find(needle, from) != npos`: `needle` occurs somewhere at
      or after position `from`. */
  function ContainsFrom(s: string, needle: string, from: nat): (r: bool)
    decreases |s| - from
    ensures r <==> exists j :: from <= j && OccursAt(s, needle, j)
  {
    if from + |needle| > |s| then false
    else if s[from..from + |needle|] == needle then assert OccursAt(s, needle, from); true
    else ContainsFrom(s, needle, from + 1)
  }

  /** `xs` joined with `sep` between consecutive elements. */
  function Join(xs: seq<string>, sep: string): string {
    if |xs| == 0 then ""
    else if |xs| == 1 then xs[0]
    else xs[0] + sep + Join(xs[1..], sep)
  }

  /** Decimal digit character of `d`. */
  function DigitChar(d: nat): char
    requires d < 10
  {
    ('0' as int + d) as char
  }

  /** `%02llu` for a value below 100: exactly two decimal digits. */
  function Pad2(n: nat): (r: string)
    requires n < 100
    ensures |r| == 2
    ensures '0' <= r[0] <= '9' && '0' <= r[1] <= '9'
    ensures (r[0] as int - '0' as int) * 10 + (r[1] as int - '0' as int) == n
  {
    [DigitChar(n / 10), DigitChar(n % 10)]
  }
}
