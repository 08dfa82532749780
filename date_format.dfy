/** Date keys: the `YYYY-MM-DD` strings that habits store in `completedDates`,
    written the way `formatDateLocal` writes them (`HabitCalendar.tsx`), and
    read back again. */
module DateFormat {
  import opened Wrappers
  import opened Dates

  predicate IsDigit(c: char) {
    '0' <= c <= '9'
  }

  predicate AllDigits(s: string) {
    forall i :: 0 <= i < |s| ==> IsDigit(s[i])
  }

  function DigitChar(d: int): (c: char)
    requires 0 <= d < 10
    ensures IsDigit(c) && c as int - '0' as int == d
  {
    ('0' as int + d) as char
  }

  /** The decimal digits of `n` without leading zeros, as `String(n)` writes them. */
  function Digits(n: nat): (s: string)
    ensures 1 <= |s| && AllDigits(s)
    ensures n < 10 <==> |s| == 1
  {
    if n < 10 then [DigitChar(n)] else Digits(n / 10) + [DigitChar(n % 10)]
  }

  /** The number a string of decimal digits denotes. */
  function DigitsValue(s: string): nat
    requires AllDigits(s)
  {
    if s == [] then 0 else DigitsValue(s[..|s| - 1]) * 10 + (s[|s| - 1] as int - '0' as int)
  }

  lemma {:induction false} DigitsRoundTrip(n: nat)
    ensures DigitsValue(Digits(n)) == n
  {
    if n >= 10 {
      var s := Digits(n);
      assert s[..|s| - 1] == Digits(n / 10);
      DigitsRoundTrip(n / 10);
    }
  }

  /** Years with four digits are written with exactly four characters. */
  lemma FourDigitYear(n: nat)
    requires 1000 <= n <= 9999
    ensures |Digits(n)| == 4
  {
    var hundreds := n / 10;
    var tens := hundreds / 10;
    assert |Digits(tens / 10)| == 1;
    assert |Digits(tens)| == 2;
    assert |Digits(hundreds)| == 3;
  }

  /** `String(i)` for an integer `i`: it reads back as `i`, negative numbers included. */
  function IntToString(i: int): (s: string)
    ensures 1 <= |s|
    ensures ParseInt(s) == Some(i)
  {
    if i < 0 then
      ParseNegative(-i);
      "-" + Digits(-i)
    else
      ParseNatural(i);
      Digits(i)
  }

  lemma ParseNatural(n: nat)
    ensures ParseInt(Digits(n)) == Some(n)
  {
    DigitsRoundTrip(n);
    assert IsDigit(Digits(n)[0]);
  }

  lemma ParseNegative(n: nat)
    ensures ParseInt("-" + Digits(n)) == Some(-(n as int))
  {
    var s := "-" + Digits(n);
    assert s[1..] == Digits(n);
    DigitsRoundTrip(n);
  }

  function ParseInt(s: string): Option<int> {
    if |s| >= 2 && s[0] == '-' && AllDigits(s[1..]) then Some(-(DigitsValue(s[1..]) as int))
    else if |s| >= 1 && AllDigits(s) then Some(DigitsValue(s))
    else None
  }

  /** `s.padStart(2, '0')`. */
  function PadStart2(s: string): (r: string)
    ensures |r| == if |s| < 2 then 2 else |s|
    ensures r[|r| - |s|..] == s
    ensures forall i :: 0 <= i < |r| - |s| ==> r[i] == '0'
  {
    if |s| < 2 then seq(2 - |s|, _ => '0') + s else s
  }

  /** A month or a day of the month, written as two digits. */
  lemma {:induction false} TwoDigits(k: nat)
    requires k < 100
    ensures |PadStart2(Digits(k))| == 2 && AllDigits(PadStart2(Digits(k)))
    ensures DigitsValue(PadStart2(Digits(k))) == k
  {
    var r := PadStart2(Digits(k));
    DigitsRoundTrip(k);
    if k < 10 {
      assert r == ['0', DigitChar(k)];
      assert r[..1] == ['0'];
    } else {
      assert |Digits(k / 10)| == 1;
    }
  }

  /** `formatDateLocal`: the year as `String` writes it, then the 1-based month
      and the day, each padded to two digits, joined by dashes. Parsing the
      result gives the date back. */
  function FormatDate(c: Civil): (s: string)
    requires ValidCivil(c)
    ensures ParseDate(s) == Some(c)
  {
    TwoDigits(c.month);
    TwoDigits(c.day);
    ParseJoin(IntToString(c.year), PadStart2(Digits(c.month)), PadStart2(Digits(c.day)));
    Join(IntToString(c.year), PadStart2(Digits(c.month)), PadStart2(Digits(c.day)))
  }

  function Join(year: string, month: string, day: string): string {
    year + "-" + month + "-" + day
  }

  /** Reads a date key back: the last six characters are `-MM-DD`, the rest is the year. */
  function ParseDate(s: string): Option<Civil> {
    if |s| < 7 || s[|s| - 6] != '-' || s[|s| - 3] != '-' then None
    else
      var year := ParseInt(s[..|s| - 6]);
      var mm := s[|s| - 5..|s| - 3];
      var dd := s[|s| - 2..];
      if year.None? || !AllDigits(mm) || !AllDigits(dd) then None
      else Some(Civil(year.value, DigitsValue(mm), DigitsValue(dd)))
  }

  /** Parsing a joined key gives back its three fields. */
  lemma ParseJoin(year: string, month: string, day: string)
    requires ParseInt(year).Some?
    requires |month| == 2 && AllDigits(month) && |day| == 2 && AllDigits(day)
    ensures ParseDate(Join(year, month, day))
      == Some(Civil(ParseInt(year).value, DigitsValue(month), DigitsValue(day)))
  {
    var s := Join(year, month, day);
    var n := |year|;
    assert |s| == n + 6;
    assert s[n] == '-' && s[n + 3] == '-';
    assert s[..n] == year;
    assert s[n + 1..n + 3] == month;
    assert s[n + 4..] == day;
    assert s[|s| - 6] == '-' && s[|s| - 3] == '-';
    assert s[..|s| - 6] == year;
    assert s[|s| - 5..|s| - 3] == month;
    assert s[|s| - 2..] == day;
    assert ParseInt(s[..|s| - 6]) == ParseInt(year);
  }

  /** `formatDateLocal` tells different dates apart, whatever the number of digits in the year. */
  lemma FormatDateInjective(a: Civil, b: Civil)
    requires ValidCivil(a) && ValidCivil(b) && FormatDate(a) == FormatDate(b)
    ensures a == b
  {
  }

  lemma JoinShape(year: string, month: string, day: string)
    requires |year| == 4 && |month| == 2 && |day| == 2
    requires AllDigits(year) && AllDigits(month) && AllDigits(day)
    ensures var s := Join(year, month, day);
      |s| == 10 && s[4] == '-' && s[7] == '-' &&
      forall i :: 0 <= i < 10 && i != 4 && i != 7 ==> IsDigit(s[i])
  {
    var s := Join(year, month, day);
    forall i | 0 <= i < 10 && i != 4 && i != 7
      ensures IsDigit(s[i])
    {
      if i < 4 { assert s[i] == year[i]; }
      else if i < 7 { assert s[i] == month[i - 5]; }
      else { assert s[i] == day[i - 8]; }
    }
  }

  /** For a four-digit year the key is exactly `YYYY-MM-DD`: ten characters,
      dashes at positions 4 and 7 and digits everywhere else. */
  lemma FormatDateShape(c: Civil)
    requires ValidCivil(c) && 1000 <= c.year <= 9999
    ensures |FormatDate(c)| == 10
    ensures FormatDate(c)[4] == '-' && FormatDate(c)[7] == '-'
    ensures forall i :: 0 <= i < 10 && i != 4 && i != 7 ==> IsDigit(FormatDate(c)[i])
  {
    FourDigitYear(c.year);
    TwoDigits(c.month);
    TwoDigits(c.day);
    JoinShape(IntToString(c.year), PadStart2(Digits(c.month)), PadStart2(Digits(c.day)));
  }

  /** The key of a day number: the day's date written as `formatDateLocal`
      writes it, which reads back as that date. */
  function Key(day: int): (k: string)
    ensures ParseDate(k) == Some(CivilOf(day))
  {
    FormatDate(CivilOf(day))
  }

  /** Different days have different keys. */
  lemma KeyInjective(a: int, b: int)
    requires Key(a) == Key(b)
    ensures a == b
  {
    FormatDateInjective(CivilOf(a), CivilOf(b));
  }

  /** The key of a calendar date is the key of its day number. */
  lemma KeyOfDate(c: Civil)
    requires ValidCivil(c)
    ensures Key(DayNumber(c)) == FormatDate(c)
  {
    CivilOfDayNumber(c);
  }
}
