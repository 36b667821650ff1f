/**
  The two answer validators of the wizard (`is_null`, `is_number`) and the
  integer conversion `int(token)` applied to replica counts and port tokens.
  Digits are the ASCII digits '0'..'9'.
 */
module Validators {
  import opened Results

  /** `is_null`: a string answer is accepted when it is truthy, that is,
      non-empty. Nothing is trimmed, so a lone space is accepted. */
  predicate IsNull(text: string) {
    text != ""
  }

  predicate IsDigit(c: char) {
    '0' <= c <= '9'
  }

  predicate AllDigits(s: string) {
    forall i :: 0 <= i < |s| ==> IsDigit(s[i])
  }

  /** `is_number`: `str.isdigit()`, which is false on the empty string. */
  predicate IsNumber(text: string) {
    |text| > 0 && AllDigits(text)
  }

  /** Ten to the power `n`. */
  function Pow10(n: nat): (p: nat)
    ensures p >= 1
  {
    if n == 0 then 1 else 10 * Pow10(n - 1)
  }

  /** The decimal value of a digit string, most significant digit first;
      leading zeros do not count. A string of n digits is worth less than
      ten to the n. */
  function DigitsValue(s: string): (v: nat)
    requires AllDigits(s)
    ensures v < Pow10(|s|)
    decreases |s|
  {
    if |s| == 0 then 0
    else DigitsValue(s[..|s| - 1]) * 10 + (s[|s| - 1] as int - '0' as int)
  }

  /** `int(token)` on a token of a space-separated answer: defined exactly on
      digit strings. */
  function ParseInt(token: string): (r: Option<nat>)
    ensures r.Some? <==> IsNumber(token)
    ensures r.Some? ==> r.value == DigitsValue(token)
  {
    if IsNumber(token) then Some(DigitsValue(token)) else None
  }

  /** Every token converts to an integer. */
  predicate AllNumeric(tokens: seq<string>) {
    forall i :: 0 <= i < |tokens| ==> IsNumber(tokens[i])
  }

  /** `list(map(int, tokens))`: the values of the tokens in order, or nothing
      as soon as one token does not convert. */
  function ParseInts(tokens: seq<string>): (r: Option<seq<nat>>)
    ensures r.Some? <==> AllNumeric(tokens)
    ensures r.Some? ==> |r.value| == |tokens|
    ensures r.Some? ==> forall i :: 0 <= i < |tokens| ==> r.value[i] == DigitsValue(tokens[i])
    decreases |tokens|
  {
    if |tokens| == 0 then Some([])
    else
      match ParseInt(tokens[0])
      case None => None
      case Some(n) =>
        match ParseInts(tokens[1..])
        case None => None
        case Some(ns) => Some([n] + ns)
  }

  /** `is_null` accepts exactly the non-empty answers, spaces included. */
  lemma IsNullAccepts(text: string)
    ensures IsNull(text) <==> |text| > 0
    ensures IsNull(" ")
    ensures !IsNull("") && IsNull("right")
  {
  }

  /** The examples the repository's tests pin down, and the value `int()`
      gives the accepted one. */
  lemma IsNumberExamples()
    ensures !IsNumber("e") && IsNumber("1994") && !IsNumber("")
    ensures !IsNumber(" 80") && !IsNumber("-1")
    ensures DigitsValue("1994") == 1994 && DigitsValue("0080") == 80
  {
    assert !IsDigit("e"[0]);
    assert !IsDigit(" 80"[0]);
    assert !IsDigit("-1"[0]);
    assert "1994"[..3] == "199" && "199"[..2] == "19" && "19"[..1] == "1" && "1"[..0] == "";
    assert "0080"[..3] == "008" && "008"[..2] == "00" && "00"[..1] == "0" && "0"[..0] == "";
  }
}
