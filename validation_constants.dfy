/**
 * The two anchored input patterns shared by the HTTP boundary:
 * `TIME_HH_MM_PATTERN` (`^([01]\d|2[0-3]):([0-5]\d)$`) and
 * `PHONE_SPAIN_PATTERN` (`^(\+34|0034)?[6789]\d{8}$`), written as recognisers that
 * follow the structure of each regular expression.
 */
module ValidationConstants {
  import opened Text

  /** `([01]\d|2[0-3])`: an hour field. */
  predicate IsHourField(a: char, b: char) {
    ((a == '0' || a == '1') && IsDigit(b)) || (a == '2' && '0' <= b <= '3')
  }

  /** `([0-5]\d)`: a minute field. */
  predicate IsMinuteField(a: char, b: char) {
    '0' <= a <= '5' && IsDigit(b)
  }

  /** `TIME_HH_MM_PATTERN.test(s)`; both anchors make the whole string match. */
  predicate IsTimeHHMM(s: string) {
    |s| == 5 && IsHourField(s[0], s[1]) && s[2] == ':' && IsMinuteField(s[3], s[4])
  }

  function Hours(s: string): (h: nat)
    requires IsTimeHHMM(s)
  {
    10 * DigitValue(s[0]) + DigitValue(s[1])
  }

  function Minutes(s: string): (m: nat)
    requires IsTimeHHMM(s)
  {
    10 * DigitValue(s[3]) + DigitValue(s[4])
  }

  /**
   * The pattern accepts exactly five characters `HH:MM`, all four fields being digits,
   * with the hour at most 23 and the minute at most 59.
   */
  lemma TimePatternMeaning(s: string)
    ensures IsTimeHHMM(s) <==>
      && |s| == 5 && s[2] == ':'
      && IsDigit(s[0]) && IsDigit(s[1]) && IsDigit(s[3]) && IsDigit(s[4])
      && 10 * DigitValue(s[0]) + DigitValue(s[1]) <= 23
      && 10 * DigitValue(s[3]) + DigitValue(s[4]) <= 59
  {
  }

  lemma TimePatternExamples()
    ensures IsTimeHHMM("00:00") && IsTimeHHMM("13:30") && IsTimeHHMM("23:59")
    ensures !IsTimeHHMM("24:00") && !IsTimeHHMM("9:30") && !IsTimeHHMM("12:60")
    ensures !IsTimeHHMM(" 12:30") && !IsTimeHHMM("12:30 ")
  {
  }

  /** `[6789]\d{8}`: a nine-digit national number starting with 6, 7, 8 or 9. */
  predicate IsNationalNumber(s: string) {
    |s| == 9 && '6' <= s[0] <= '9' && forall i :: 1 <= i < 9 ==> IsDigit(s[i])
  }

  /** `PHONE_SPAIN_PATTERN.test(s)`: an optional `+34` or `0034` prefix, then the number. */
  predicate IsSpanishPhone(s: string) {
    || IsNationalNumber(s)
    || (|s| >= 3 && s[..3] == "+34" && IsNationalNumber(s[3..]))
    || (|s| >= 4 && s[..4] == "0034" && IsNationalNumber(s[4..]))
  }

  /** Only lengths 9, 12 and 13 are accepted. */
  lemma PhoneLengths(s: string)
    requires IsSpanishPhone(s)
    ensures |s| == 9 || |s| == 12 || |s| == 13
  {
  }

  /**
   * An accepted phone is all digits except for a leading `+`; in particular a space, a
   * dash or a bracket anywhere rejects it.
   */
  lemma PhoneCharacters(s: string)
    requires IsSpanishPhone(s)
    ensures forall i :: 0 <= i < |s| ==> IsDigit(s[i]) || (i == 0 && s[i] == '+')
  {
    if !IsNationalNumber(s) && |s| >= 3 && s[..3] == "+34" && IsNationalNumber(s[3..]) {
      forall i | 3 <= i < |s| ensures IsDigit(s[i]) {
        assert s[i] == s[3..][i - 3];
      }
      assert s[1] == s[..3][1] && s[2] == s[..3][2];
    } else if !IsNationalNumber(s) {
      forall i | 4 <= i < |s| ensures IsDigit(s[i]) {
        assert s[i] == s[4..][i - 4];
      }
      assert s[0] == s[..4][0] && s[1] == s[..4][1] && s[2] == s[..4][2] && s[3] == s[..4][3];
    }
  }

  lemma PhonePatternExamples()
    ensures IsSpanishPhone("612345678") && IsSpanishPhone("+34912345678")
    ensures IsSpanishPhone("0034712345678")
    ensures !IsSpanishPhone("512345678") && !IsSpanishPhone("+3461234567")
    ensures !IsSpanishPhone("612 345 678") && !IsSpanishPhone("+34-612345678")
  {
    assert "+34912345678"[..3] == "+34" && "+34912345678"[3..] == "912345678";
    assert "0034712345678"[..4] == "0034" && "0034712345678"[4..] == "712345678";
    assert !IsNationalNumber("+34-612345678"[3..]);
  }
}
