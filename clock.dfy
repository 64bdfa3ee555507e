/** Times of day as whole minutes after midnight, and their zero-padded `HH:MM` text
    (the `'HH:mm'` pattern of date-fns). */
module Clock {
  import opened Js

  const MinutesPerDay: nat := 1440

  /** Two-digit zero-padded text of a number below 100. */
  function Pad2(n: nat): (r: string)
    requires n < 100
    ensures |r| == 2 && IsDigit(r[0]) && IsDigit(r[1])
    ensures DigitValue(r[0]) * 10 + DigitValue(r[1]) == n
  {
    [DigitChar(n / 10), DigitChar(n % 10)]
  }

  /** `HH:MM` of a minute of the day. */
  function FormatHHMM(m: nat): (r: string)
    requires m < MinutesPerDay
    ensures |r| == 5 && r[2] == ':'
  {
    Pad2(m / 60) + ":" + Pad2(m % 60)
  }

  /** Five characters shaped `DD:DD`, whatever the digits. */
  predicate IsClockText(s: string) {
    |s| == 5 && IsDigit(s[0]) && IsDigit(s[1]) && s[2] == ':' && IsDigit(s[3]) && IsDigit(s[4])
  }

  function HoursField(s: string): nat
    requires IsClockText(s)
  {
    DigitValue(s[0]) * 10 + DigitValue(s[1])
  }

  function MinutesField(s: string): nat
    requires IsClockText(s)
  {
    DigitValue(s[3]) * 10 + DigitValue(s[4])
  }

  /** The minute of the day written by a valid `HH:MM`, or `None`. */
  function ParseHHMM(s: string): (r: Option<nat>)
    ensures r.Some? ==> r.value < MinutesPerDay
  {
    if IsClockText(s) && HoursField(s) < 24 && MinutesField(s) < 60
    then Some(HoursField(s) * 60 + MinutesField(s))
    else None
  }

  lemma FormatIsClockText(m: nat)
    requires m < MinutesPerDay
    ensures IsClockText(FormatHHMM(m))
    ensures HoursField(FormatHHMM(m)) == m / 60 && MinutesField(FormatHHMM(m)) == m % 60
  {
  }

  /** Reading back what `FormatHHMM` writes gives the same minute. */
  lemma ParseFormat(m: nat)
    requires m < MinutesPerDay
    ensures ParseHHMM(FormatHHMM(m)) == Some(m)
  {
    FormatIsClockText(m);
  }

  /** Every valid `HH:MM` is the text of the minute it denotes. */
  lemma FormatParse(s: string)
    requires ParseHHMM(s).Some?
    ensures FormatHHMM(ParseHHMM(s).value) == s
  {
    var m := ParseHHMM(s).value;
    assert m / 60 == HoursField(s) && m % 60 == MinutesField(s);
    var r := FormatHHMM(m);
    assert r[0] == s[0] && r[1] == s[1] && r[3] == s[3] && r[4] == s[4];
  }

  /** Different minutes have different texts, so comparing texts compares times. */
  lemma FormatInjective(a: nat, b: nat)
    requires a < MinutesPerDay && b < MinutesPerDay
    ensures FormatHHMM(a) == FormatHHMM(b) <==> a == b
  {
    if FormatHHMM(a) == FormatHHMM(b) {
      ParseFormat(a);
      ParseFormat(b);
    }
  }
}
