/** The two pure helpers of pktimer/main.py: `coalesce`, which supplies the
    defaults of the timer's settings, and `int_or_inf`, the validator of the
    `--repeat` option. */
module Config {
  import opened Wrappers

  /** `coalesce(*values)`: the first value that is not `None`, or `None`. */
  function Coalesce<T>(values: seq<Option<T>>): (r: Option<T>)
    ensures r.Some? <==> exists i :: 0 <= i < |values| && values[i].Some?
    ensures r.Some? ==>
      exists i :: 0 <= i < |values| && values[i] == r &&
        forall j :: 0 <= j < i ==> values[j].None?
    ensures r.None? ==> forall i :: 0 <= i < |values| ==> values[i].None?
  {
    if |values| == 0 then None
    else if values[0].Some? then values[0]
    else
      var rest := Coalesce(values[1..]);
      assert forall i :: 0 <= i < |values| - 1 ==> values[1..][i] == values[i + 1];
      rest
  }

  /** The way the timer uses `coalesce`: a setting given explicitly wins,
      otherwise the default applies. */
  lemma CoalesceDefault<T>(given: Option<T>, default: T)
    ensures Coalesce([given, Some(default)]) == Some(given.GetOr(default))
  {
  }

  predicate IsDigit(ch: char) {
    '0' <= ch <= '9'
  }

  predicate AllDigits(s: string) {
    forall i :: 0 <= i < |s| ==> IsDigit(s[i])
  }

  function DigitValue(ch: char): (d: int)
    requires IsDigit(ch)
    ensures 0 <= d < 10
  {
    ch as int - '0' as int
  }

  function DigitChar(d: int): (ch: char)
    requires 0 <= d < 10
    ensures IsDigit(ch) && DigitValue(ch) == d
  {
    ('0' as int + d) as char
  }

  /** Python's `int(value)` on a string of decimal digits (leading zeros
      allowed); the empty string has value 0 here but is never converted. */
  function DecimalValue(s: string): (n: int)
    requires AllDigits(s)
    ensures n >= 0
    decreases |s|
  {
    if s == [] then 0
    else DecimalValue(s[..|s| - 1]) * 10 + DigitValue(s[|s| - 1])
  }

  /** `str(n)` for a natural number: its shortest decimal rendering. */
  function NatToDecimal(n: nat): (s: string)
    ensures |s| > 0 && AllDigits(s)
    ensures s[0] == '0' ==> n == 0
  {
    if n < 10 then [DigitChar(n)]
    else NatToDecimal(n / 10) + [DigitChar(n % 10)]
  }

  const RepeatError := "--repeat must be a positive integer or \"inf\""

  /** `int_or_inf(value)`: a non-empty string of digits is its decimal value,
      "inf" is the sentinel -1, and anything else raises `ValueError`. */
  function IntOrInf(value: string): (r: Result<int, string>)
    ensures r.Success? <==> (|value| > 0 && AllDigits(value)) || value == "inf"
    ensures |value| > 0 && AllDigits(value) ==> r == Success(DecimalValue(value))
    ensures r.Success? ==> r.value >= -1
    ensures (r.Success? && r.value == -1) <==> value == "inf"
    ensures r.Failure? ==> r.error == RepeatError
  {
    if |value| > 0 && AllDigits(value) && DecimalValue(value) >= 0 then
      Success(DecimalValue(value))
    else if value == "inf" then
      Success(-1)
    else
      Failure(RepeatError)
  }

  /** Appending a digit multiplies the value so far by ten and adds it. */
  lemma DecimalValueSnoc(s: string, ch: char)
    requires AllDigits(s) && IsDigit(ch)
    ensures AllDigits(s + [ch])
    ensures DecimalValue(s + [ch]) == DecimalValue(s) * 10 + DigitValue(ch)
  {
  }

  /** Reading back the decimal rendering of `n` gives `n`. */
  lemma {:induction false} DecimalRoundTrip(n: nat)
    ensures DecimalValue(NatToDecimal(n)) == n
  {
    if n >= 10 {
      DecimalRoundTrip(n / 10);
      DecimalValueSnoc(NatToDecimal(n / 10), DigitChar(n % 10));
    }
  }

  /** Every natural number written in decimal is accepted by `--repeat`
      with its own value. */
  lemma IntOrInfAcceptsDecimal(n: nat)
    ensures IntOrInf(NatToDecimal(n)) == Success(n)
  {
    DecimalRoundTrip(n);
  }

  /** Leading zeros do not change the value: "007" is read as 7. */
  lemma {:induction false} LeadingZeros(s: string)
    requires AllDigits(s)
    ensures AllDigits("0" + s) && DecimalValue("0" + s) == DecimalValue(s)
    decreases |s|
  {
    if s != [] {
      var init := s[..|s| - 1];
      LeadingZeros(init);
      assert "0" + s == ("0" + init) + [s[|s| - 1]];
      assert s == init + [s[|s| - 1]];
      DecimalValueSnoc("0" + init, s[|s| - 1]);
      DecimalValueSnoc(init, s[|s| - 1]);
    }
  }

  /** The inputs the option rejects: empty, signed, alphabetic or padded. */
  lemma IntOrInfRejects()
    ensures IntOrInf("").Failure?
    ensures IntOrInf("-3").Failure?
    ensures IntOrInf("abc").Failure?
    ensures IntOrInf(" 1").Failure?
    ensures IntOrInf("Inf").Failure?
  {
  }
}
