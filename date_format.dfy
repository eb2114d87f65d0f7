/**
 * The date cell of a row: an epoch-millisecond timestamp turned into a
 * local calendar date and written "dd.mm.yyyy", as
 * `datetime.fromtimestamp(ms / 1e3).strftime("%d.%m.%Y")` does. The local
 * time zone is an explicit offset from UTC in seconds.
 */
module DateFormat {
  import opened Wrappers
  import opened CivilDate

  const MillisPerSecond := 1000
  const SecondsPerDay := 86400
  /** Ordinal of 1970-01-01, the first day of the Unix epoch. */
  const EpochOrdinal := 719163

  /** Whole days since 1970-01-01 in local time (floor division, also before 1970). */
  function LocalDay(ms: int, offset: int): int {
    (ms / MillisPerSecond + offset) / SecondsPerDay
  }

  function LocalDate(ms: int, offset: int): (d: Date)
    ensures ValidDate(d)
    ensures Ordinal(d) == LocalDay(ms, offset) + EpochOrdinal
  {
    FromOrdinal(LocalDay(ms, offset) + EpochOrdinal)
  }

  predicate IsDigit(c: char) {
    '0' <= c <= '9'
  }

  function Digit(n: int): (c: char)
    requires 0 <= n <= 9
    ensures IsDigit(c)
  {
    ('0' as int + n) as char
  }

  function DigitValue(c: char): int {
    c as int - '0' as int
  }

  /** `%d` and `%m`: two digits, zero-padded. */
  function Pad2(n: int): (s: string)
    requires 0 <= n <= 99
  {
    [Digit(n / 10), Digit(n % 10)]
  }

  /** `%Y` for a four-digit year. */
  function Pad4(n: int): (s: string)
    requires 1000 <= n <= 9999
  {
    [Digit(n / 1000), Digit(n / 100 % 10), Digit(n / 10 % 10), Digit(n % 10)]
  }

  predicate Printable(d: Date) {
    ValidDate(d) && 1000 <= d.year <= 9999
  }

  /** A string of the shape DD.MM.YYYY: ten characters, digits except the two dots. */
  predicate DateShaped(s: string) {
    |s| == 10 && s[2] == '.' && s[5] == '.' &&
    forall i :: 0 <= i < 10 && i != 2 && i != 5 ==> IsDigit(s[i])
  }

  function FormatDate(d: Date): (s: string)
    requires Printable(d)
    ensures DateShaped(s)
  {
    Pad2(d.day) + "." + Pad2(d.month) + "." + Pad4(d.year)
  }

  /** Reads back a DD.MM.YYYY string; None when it is not one or names no date. */
  function ParseDate(s: string): (r: Option<Date>)
    ensures r.Some? ==> Printable(r.value)
  {
    if !DateShaped(s) then None
    else
      var d := Date(
        1000 * DigitValue(s[6]) + 100 * DigitValue(s[7]) + 10 * DigitValue(s[8]) + DigitValue(s[9]),
        10 * DigitValue(s[3]) + DigitValue(s[4]),
        10 * DigitValue(s[0]) + DigitValue(s[1]));
      if Printable(d) then Some(d) else None
  }

  lemma DigitRoundTrip(n: int)
    requires 0 <= n <= 9
    ensures DigitValue(Digit(n)) == n
  {
  }

  lemma Pad2Value(n: int)
    requires 0 <= n <= 99
    ensures 10 * DigitValue(Pad2(n)[0]) + DigitValue(Pad2(n)[1]) == n
  {
    DigitRoundTrip(n / 10);
    DigitRoundTrip(n % 10);
  }

  lemma Pad4Value(n: int)
    requires 1000 <= n <= 9999
    ensures 1000 * DigitValue(Pad4(n)[0]) + 100 * DigitValue(Pad4(n)[1])
          + 10 * DigitValue(Pad4(n)[2]) + DigitValue(Pad4(n)[3]) == n
  {
    var s := Pad4(n);
    var a, b, c, d := n / 1000, n / 100 % 10, n / 10 % 10, n % 10;
    DigitRoundTrip(a);
    DigitRoundTrip(b);
    DigitRoundTrip(c);
    DigitRoundTrip(d);
    assert DigitValue(s[0]) == a && DigitValue(s[1]) == b;
    assert DigitValue(s[2]) == c && DigitValue(s[3]) == d;
    assert n / 100 == 10 * a + b;
    assert n / 10 == 10 * (n / 100) + c;
    assert n == 10 * (n / 10) + d;
  }

  lemma {:induction false} ParseFormat(d: Date)
    requires Printable(d)
    ensures ParseDate(FormatDate(d)) == Some(d)
  {
    var s := FormatDate(d);
    var dd, mm, yyyy := Pad2(d.day), Pad2(d.month), Pad4(d.year);
    assert s == dd + "." + mm + "." + yyyy;
    assert s[0] == dd[0] && s[1] == dd[1] && s[3] == mm[0] && s[4] == mm[1];
    assert s[6] == yyyy[0] && s[7] == yyyy[1] && s[8] == yyyy[2] && s[9] == yyyy[3];
    Pad2Value(d.day);
    Pad2Value(d.month);
    Pad4Value(d.year);
  }

  /**
   * The date cell for a timestamp: None where the local year falls outside
   * 1000..9999, where `%Y` would not give four digits.
   */
  function DateString(ms: int, offset: int): (r: Option<string>)
    ensures r.Some? <==> 1000 <= LocalDate(ms, offset).year <= 9999
    ensures r.Some? ==> DateShaped(r.value) && ParseDate(r.value) == Some(LocalDate(ms, offset))
    ensures r.Some? ==> r.value == FormatDate(LocalDate(ms, offset))
  {
    var d := LocalDate(ms, offset);
    if 1000 <= d.year <= 9999 then
      ParseFormat(d);
      Some(FormatDate(d))
    else None
  }

  /** Two timestamps get the same date cell exactly when they fall on the same local day. */
  lemma {:induction false} DateStringSameDay(ms1: int, ms2: int, offset: int)
    requires DateString(ms1, offset).Some? && DateString(ms2, offset).Some?
    ensures DateString(ms1, offset) == DateString(ms2, offset)
        <==> LocalDay(ms1, offset) == LocalDay(ms2, offset)
  {
    if DateString(ms1, offset) == DateString(ms2, offset) {
      FromOrdinalInjective(LocalDay(ms1, offset) + EpochOrdinal, LocalDay(ms2, offset) + EpochOrdinal);
    }
  }

  /** Local midnight starting date d, in epoch milliseconds. */
  function MidnightMillis(d: Date, offset: int): int
    requires ValidDate(d)
  {
    ((Ordinal(d) - EpochOrdinal) * SecondsPerDay - offset) * MillisPerSecond
  }

  lemma LocalDayOfMidnight(days: int, offset: int)
    ensures LocalDay((days * SecondsPerDay - offset) * MillisPerSecond, offset) == days
  {
    var secs := days * SecondsPerDay - offset;
    assert (secs * MillisPerSecond) / MillisPerSecond == secs;
    assert (days * SecondsPerDay) / SecondsPerDay == days;
  }

  /** Every printable date is the cell of some timestamp: its local midnight. */
  lemma {:induction false} EveryDateHasATimestamp(d: Date, offset: int)
    requires Printable(d)
    ensures DateString(MidnightMillis(d, offset), offset) == Some(FormatDate(d))
  {
    LocalDayOfMidnight(Ordinal(d) - EpochOrdinal, offset);
    FromOrdinalOfOrdinal(d);
    assert LocalDate(MidnightMillis(d, offset), offset) == d;
  }

  lemma FirstOfJanuary2000()
    ensures FromOrdinal(730120) == Date(2000, 1, 1)
  {
    assert DaysBeforeYear(2000) == 730119;
    FromOrdinalOfOrdinal(Date(2000, 1, 1));
  }

  /** 2000-01-01T00:00:00Z, in UTC. */
  lemma Millennium()
    ensures DateString(946684800000, 0) == Some("01.01.2000")
  {
    var d := Date(2000, 1, 1);
    assert LocalDay(946684800000, 0) == 10957;
    FirstOfJanuary2000();
    assert LocalDate(946684800000, 0) == d;
    assert Printable(d);
    assert FormatDate(d) == "01.01.2000";
    assert DateString(946684800000, 0) == Some(FormatDate(d));
  }
}
