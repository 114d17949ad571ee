/**
 * The Bean Validation constraints that tacos/Taco.java and tacos/TacoOrder.java
 * use, as predicates over a possibly-null value. As in Hibernate Validator,
 * only @NotNull and @NotBlank reject null; @Size, @Pattern, @Digits and
 * @CreditCardNumber accept it.
 */
module Constraints {
  import opened Optional
  import opened Text
  import Luhn
  import Decimal

  predicate NotNull<T>(v: Option<T>) {
    v.Some?
  }

  /** @Size(min = m) on a String: null passes, otherwise length(), in UTF-16 code units, is at least m. */
  predicate MinLength(v: Option<string>, m: nat) {
    v.None? || Utf16Length(v.value) >= m
  }

  /** @Size(min = m) on a List: null passes, otherwise size() is at least m. */
  predicate MinCount<T>(v: Option<seq<T>>, m: nat) {
    v.None? || |v.value| >= m
  }

  /** @NotBlank: not null, and trim() leaves at least one character. */
  predicate NotBlank(v: Option<string>) {
    v.Some? && |Trim(v.value)| > 0
  }

  /** NotBlank in plain words: the value is present and holds a character above U+0020. */
  lemma NotBlankIff(v: Option<string>)
    ensures NotBlank(v) <==> v.Some? && exists i :: 0 <= i < |v.value| && v.value[i] > ' '
  {
    if v.Some? {
      TrimNonEmptyIff(v.value);
    }
  }

  /**
   * ^(0[1-9]|1[0-2])([\/])([2-9][0-9])$ matched against the whole string,
   * one character position at a time.
   */
  predicate ExpirationMatches(s: string) {
    && |s| == 5
    && ((s[0] == '0' && '1' <= s[1] <= '9') || (s[0] == '1' && '0' <= s[1] <= '2'))
    && s[2] == '/'
    && '2' <= s[3] <= '9'
    && IsDigit(s[4])
  }

  /** @Pattern on ccExpiration: null passes, otherwise the whole value must match. */
  predicate ExpirationValid(v: Option<string>) {
    v.None? || ExpirationMatches(v.value)
  }

  /** MM/YY read as numbers: two digits, a slash, two digits; month 1 to 12, year 20 to 99. */
  predicate IsMonthYear(s: string) {
    && |s| == 5
    && AllDigits(s[..2]) && s[2] == '/' && AllDigits(s[3..])
    && 1 <= DecimalValue(s[..2]) <= 12
    && 20 <= DecimalValue(s[3..]) <= 99
  }

  lemma TwoDigitValue(s: string)
    requires |s| == 2 && AllDigits(s)
    ensures DecimalValue(s) == 10 * DigitValue(s[0]) + DigitValue(s[1])
  {
    assert s[..|s| - 1] == [s[0]];
    assert [s[0]][..0] == [];
    assert DecimalValue([s[0]]) == DigitValue(s[0]);
  }

  /** The pattern accepts exactly the month/year strings, in both directions. */
  lemma ExpirationMatchesIffMonthYear(s: string)
    ensures ExpirationMatches(s) <==> IsMonthYear(s)
  {
    if |s| == 5 {
      var mm, yy := s[..2], s[3..];
      assert mm[0] == s[0] && mm[1] == s[1] && yy[0] == s[3] && yy[1] == s[4];
      if AllDigits(mm) && AllDigits(yy) {
        TwoDigitValue(mm);
        TwoDigitValue(yy);
      }
      if ExpirationMatches(s) {
        assert AllDigits(mm) && AllDigits(yy);
      }
    }
  }

  /** The boundary cases: month 13 and year 19 are refused, 12/20 and 01/99 accepted. */
  lemma ExpirationSamples()
    ensures !ExpirationMatches("13/25") && !ExpirationMatches("05/19") && !ExpirationMatches("00/25")
    ensures ExpirationMatches("12/20") && ExpirationMatches("01/99")
    ensures !ExpirationMatches("1/25") && !ExpirationMatches("12/205") && !ExpirationMatches("12-20")
  {
  }

  /** @CreditCardNumber: null passes, otherwise the Luhn check. */
  predicate CardNumberValid(v: Option<string>) {
    v.None? || Luhn.LuhnValid(v.value)
  }

  /** @Digits(integer = 3, fraction = 0). */
  predicate CvvValid(v: Option<string>) {
    Decimal.DigitsValid(v, 3, 0)
  }
}
