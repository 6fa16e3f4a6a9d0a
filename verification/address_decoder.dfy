/** `convert_string_to_int`: decodes the 1-4 digit address strings of the MAC layer into node
    numbers. The leading digit counts in units of 255 (unless it is 0); the remaining digits are
    read in decimal. */
module AddressDecoder {
  import opened Wrappers
  import opened Faults
  import opened Text

  /** The largest value the decoder can return: "9999" gives 9 * 255 + 999. */
  const MAX_ADDRESS: nat := 3294

  function Pow10(n: nat): (p: nat)
    ensures p >= 1
  {
    if n == 0 then 1 else 10 * Pow10(n - 1)
  }

  /** Python's `int(s)` on a non-empty string of ASCII digits. */
  function DecimalValue(s: string): nat
    requires AllDigits(s)
  {
    if |s| == 0 then 0 else 10 * DecimalValue(s[..|s| - 1]) + DigitValue(s[|s| - 1])
  }

  lemma {:induction false} DecimalValueBound(s: string)
    requires AllDigits(s)
    ensures DecimalValue(s) < Pow10(|s|)
  {
    if |s| > 0 {
      DecimalValueBound(s[..|s| - 1]);
    }
  }

  /** Reading the first digit separately: its place value is 10^(|s|-1). */
  lemma {:induction false} DecimalValueFront(s: string)
    requires |s| >= 1 && AllDigits(s)
    ensures DecimalValue(s) == DigitValue(s[0]) * Pow10(|s| - 1) + DecimalValue(s[1..])
  {
    if |s| > 1 {
      var init := s[..|s| - 1];
      DecimalValueFront(init);
      assert init[1..] == s[1..][..|s[1..]| - 1];
      assert init[0] == s[0];
    } else {
      assert s[1..] == "";
    }
  }

  /** The re-weighted value of a valid address string, and its bounds. */
  lemma DecodedRange(s: string)
    requires 1 <= |s| <= 4 && AllDigits(s)
    ensures DecimalValue(s) == DigitValue(s[0]) * Pow10(|s| - 1) + DecimalValue(s[1..])
    ensures DecimalValue(s[1..]) < Pow10(|s| - 1) <= 1000
    ensures DigitValue(s[0]) * 255 + DecimalValue(s[1..]) <= MAX_ADDRESS
  {
    DecimalValueFront(s);
    DecimalValueBound(s[1..]);
    assert Pow10(0) == 1 && Pow10(1) == 10 && Pow10(2) == 100 && Pow10(3) == 1000;
    var d := DigitValue(s[0]);
    assert d * 255 <= 9 * 255;
  }

  /** `convert_string_to_int(s)`. */
  function ConvertStringToInt(s: string): (r: Result<int, Fault>)
    ensures r.Ok? <==> 1 <= |s| <= 4 && AllDigits(s)
    ensures !(1 <= |s| <= 4) ==> r == Err(ValueError(AddressLength))
    ensures 1 <= |s| <= 4 && !AllDigits(s) ==> r == Err(ValueError(AddressNotDigits))
    ensures r.Ok? ==> 0 <= r.value <= MAX_ADDRESS
    // The decoded value is the decimal value with the leading place 10^(n-1) re-weighted to 255;
    // in particular a leading 0 (or a single digit) leaves the decimal value unchanged.
    ensures r.Ok? ==> r.value == DecimalValue(s)
                                 + (if |s| >= 2 then DigitValue(s[0]) * (255 - Pow10(|s| - 1)) else 0)
  {
    if |s| < 1 || |s| > 4 then Err(ValueError(AddressLength))
    else if !AllDigits(s) then Err(ValueError(AddressNotDigits))
    else
      DecodedRange(s);
      if s[0] == '0' then
        if |s| > 1 then Ok(DecimalValue(s[1..])) else Ok(0)
      else if |s| == 1 then Ok(DigitValue(s[0]))
      else Ok(DigitValue(s[0]) * 255 + DecimalValue(s[1..]))
  }

  /** The values the decoder's documentation gives, and the two inputs it must refuse. */
  lemma DecoderExamples()
    ensures ConvertStringToInt("0") == Ok(0)
    ensures ConvertStringToInt("05") == Ok(5)
    ensures ConvertStringToInt("7") == Ok(7)
    ensures ConvertStringToInt("100") == Ok(255)
    ensures ConvertStringToInt("999") == Ok(2394)
    ensures ConvertStringToInt("12a") == Err(ValueError(AddressNotDigits))
    ensures ConvertStringToInt("") == Err(ValueError(AddressLength))
    ensures ConvertStringToInt("12345") == Err(ValueError(AddressLength))
  {
  }

  /** Two different address strings decode to the same node number, so the encoding is not
      one-to-one: "0255" and "100" both give 255. */
  lemma DecoderNotInjective()
    ensures ConvertStringToInt("0255") == ConvertStringToInt("100") == Ok(255)
  {
    assert "0255"[1..] == "255" && "255"[..2] == "25" && "25"[..1] == "2";
    assert DecimalValue("255") == 255;
    assert "100"[1..] == "00" && "00"[..1] == "0";
    assert DecimalValue("00") == 0;
  }
}
