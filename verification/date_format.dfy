/**
  `formatDateTime`: a match date as "DD.MM HH:mm". The date's local-time getters
  are not modelled; their values (day of month, zero-based month, hours,
  minutes) are the inputs.
*/
module DateFormat {
  import opened Wrappers
  import opened Text

  /** `String(n).padStart(2, "0")`. */
  function Pad2(n: int): string {
    PadStart2(IntToString(n))
  }

  /** A value below 100 renders as exactly two digits that read back as the value. */
  lemma Pad2Digits(n: int)
    requires 0 <= n < 100
    ensures |Pad2(n)| == 2 && AllDigits(Pad2(n))
    ensures DigitsValue(Pad2(n)) == n
    ensures n < 10 ==> Pad2(n) == ['0', DigitChar(n)]
    ensures n >= 10 ==> Pad2(n) == IntToString(n)
  {
    DigitsValueOfNatToString(n);
    if n < 10 {
      assert Pad2(n) == ['0', DigitChar(n)];
      assert Pad2(n)[..1] == ['0'];
    } else {
      assert |NatToString(n / 10)| == 1;
    }
  }

  /** `${day}.${month + 1} ${hours}:${minutes}`, each part padded to two characters. */
  function FormatDateTime(day: int, month: int, hours: int, minutes: int): string {
    Pad2(day) + "." + Pad2(month + 1) + " " + Pad2(hours) + ":" + Pad2(minutes)
  }

  /** Reads "DD.MM HH:mm" back into day, zero-based month, hours and minutes; `None` for anything else. */
  function ParseDateTime(s: string): Option<(int, int, int, int)> {
    if |s| == 11 && s[2] == '.' && s[5] == ' ' && s[8] == ':'
       && AllDigits(s[0..2]) && AllDigits(s[3..5]) && AllDigits(s[6..8]) && AllDigits(s[9..11])
    then Some((DigitsValue(s[0..2]), DigitsValue(s[3..5]) - 1, DigitsValue(s[6..8]), DigitsValue(s[9..11])))
    else None
  }

  /** Parts that a date's getters can return. */
  predicate InRange(day: int, month: int, hours: int, minutes: int) {
    1 <= day <= 31 && 0 <= month <= 11 && 0 <= hours <= 23 && 0 <= minutes <= 59
  }

  /** Where the four two-character parts and the three separators sit in the result. */
  lemma Layout(a: string, b: string, c: string, d: string)
    requires |a| == 2 && |b| == 2 && |c| == 2 && |d| == 2
    ensures var s := a + "." + b + " " + c + ":" + d;
            && |s| == 11 && s[2] == '.' && s[5] == ' ' && s[8] == ':'
            && s[0..2] == a && s[3..5] == b && s[6..8] == c && s[9..11] == d
  {
  }

  /**
    For in-range parts the result has 11 characters, '.', ' ' and ':' at indices
    2, 5 and 8, and reads back as the parts (the month one-based in the text).
  */
  lemma FormatDateTimeRoundTrip(day: int, month: int, hours: int, minutes: int)
    requires InRange(day, month, hours, minutes)
    ensures var s := FormatDateTime(day, month, hours, minutes);
            |s| == 11 && s[2] == '.' && s[5] == ' ' && s[8] == ':'
    ensures ParseDateTime(FormatDateTime(day, month, hours, minutes)) == Some((day, month, hours, minutes))
  {
    Pad2Digits(day);
    Pad2Digits(month + 1);
    Pad2Digits(hours);
    Pad2Digits(minutes);
    Layout(Pad2(day), Pad2(month + 1), Pad2(hours), Pad2(minutes));
  }

  /** January (month 0) renders as "01". */
  lemma JanuaryRendersAsOne(day: int, hours: int, minutes: int)
    requires InRange(day, 0, hours, minutes)
    ensures FormatDateTime(day, 0, hours, minutes)[3..5] == "01"
  {
    Pad2Digits(day);
    Pad2Digits(1);
    Pad2Digits(hours);
    Pad2Digits(minutes);
    Layout(Pad2(day), Pad2(1), Pad2(hours), Pad2(minutes));
  }
}
