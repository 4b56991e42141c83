/**
 * The chrono format specifiers the client uses, rendered over Civil's
 * dates and instants: `%s` (seconds since the Epoch), `%F` (`%Y-%m-%d`),
 * `%X` (`%H:%M:%S`), `%3f` (milliseconds, three digits) and `%z` (UTC
 * offset, `+0000` for Utc), together with the decimal numerals they are made of.
 */
module Format {
  import opened Civil

  predicate IsDigit(c: char) {
    '0' <= c <= '9'
  }

  predicate AllDigits(s: string) {
    forall i :: 0 <= i < |s| ==> IsDigit(s[i])
  }

  function DigitChar(n: int): (c: char)
    requires 0 <= n < 10
    ensures IsDigit(c) && c as int - '0' as int == n
  {
    ('0' as int + n) as char
  }

  /** Rust's `{}` rendering of a non-negative integer: decimal digits, no leading zero. */
  function NatToDecimal(n: nat): (s: string)
    ensures AllDigits(s)
    ensures |s| == 1 <==> n < 10
    ensures |s| >= 1 && (|s| > 1 ==> s[0] != '0')
  {
    if n < 10 then [DigitChar(n)] else NatToDecimal(n / 10) + [DigitChar(n % 10)]
  }

  /** Rust's `{}` rendering of a signed integer: a minus sign before negative values. */
  function IntToDecimal(i: int): (s: string)
    ensures |s| >= 1
    ensures s[0] == '-' <==> i < 0
    ensures i < 0 ==> s[1..] == NatToDecimal(-i)
    ensures i >= 0 ==> s == NatToDecimal(i)
  {
    if i < 0 then "-" + NatToDecimal(-i) else NatToDecimal(i)
  }

  /** The value of a string of decimal digits (the empty string is 0). */
  function DigitsValue(s: string): nat
    requires AllDigits(s)
  {
    if s == [] then 0 else DigitsValue(s[..|s| - 1]) * 10 + (s[|s| - 1] as int - '0' as int)
  }

  predicate IsNumeral(s: string) {
    (|s| >= 1 && AllDigits(s)) || (|s| >= 2 && s[0] == '-' && AllDigits(s[1..]))
  }

  /** The value of an optionally negative decimal numeral. */
  function NumeralValue(s: string): int
    requires IsNumeral(s)
  {
    if s[0] == '-' then 0 - DigitsValue(s[1..]) else DigitsValue(s)
  }

  function Zeros(k: nat): (z: string)
    ensures |z| == k && AllDigits(z)
    ensures forall i :: 0 <= i < k ==> z[i] == '0'
  {
    if k == 0 then "" else Zeros(k - 1) + "0"
  }

  /** Left-pads `s` with zeros to at least `width` characters (chrono's `Pad::Zero`). */
  function ZeroPad(s: string, width: nat): (r: string)
    ensures |r| == if |s| < width then width else |s|
    ensures r == Zeros(|r| - |s|) + s
  {
    if |s| < width then Zeros(width - |s|) + s else s
  }

  /** `%Y`: four zero-padded digits for years 0..9999, otherwise an explicit sign before them. */
  function FormatYear(y: int): string {
    if 0 <= y <= 9999 then ZeroPad(NatToDecimal(y), 4)
    else (if y < 0 then "-" else "+") + ZeroPad(NatToDecimal(if y < 0 then -y else y), 4)
  }

  /** `%m`, `%d`, `%H`, `%M`, `%S`: two zero-padded digits. */
  function TwoDigits(n: nat): string
    requires n < 100
  {
    ZeroPad(NatToDecimal(n), 2)
  }

  /** `%F`, that is `%Y-%m-%d`. */
  function FormatDate(d: Date): string {
    FormatYear(d.year) + "-" + TwoDigits(d.month) + "-" + TwoDigits(d.day)
  }

  /** `%X`, which chrono renders as `%H:%M:%S`. */
  function FormatTime(t: DateTime): string {
    TwoDigits(t.hour) + ":" + TwoDigits(t.minute) + ":" + TwoDigits(t.second)
  }

  /**
   * `%FT%X.%3f%z` for a UTC instant: the fraction is the milliseconds of
   * whole-second instants, `000`, and the offset of Utc is `+0000`.
   */
  function FormatIsoMillis(t: DateTime): string {
    FormatDate(t.date) + "T" + FormatTime(t) + "." + "000" + "+0000"
  }

  /** `%s000`: the seconds since the Epoch followed by three literal zeros. */
  function TimestampMillis(t: DateTime): string {
    IntToDecimal(EpochSeconds(t)) + "000"
  }

  /** Reads back the fields of a `%F` date with a four-digit year. */
  function ParseDate(s: string): YearMonthDay
    requires |s| == 10 && AllDigits(s[..4]) && AllDigits(s[5..7]) && AllDigits(s[8..])
  {
    YearMonthDay(DigitsValue(s[..4]), DigitsValue(s[5..7]), DigitsValue(s[8..]))
  }

  // ---------------------------------------------------------------- lemmas

  lemma DigitsValueSnoc(s: string, c: char)
    requires AllDigits(s) && IsDigit(c)
    ensures AllDigits(s + [c])
    ensures DigitsValue(s + [c]) == DigitsValue(s) * 10 + (c as int - '0' as int)
  {
    assert (s + [c])[..|s|] == s;
  }

  /** Reading a rendered numeral gives the number back. */
  lemma {:induction false} NatToDecimalRoundTrip(n: nat)
    ensures DigitsValue(NatToDecimal(n)) == n
  {
    if n >= 10 {
      NatToDecimalRoundTrip(n / 10);
      DigitsValueSnoc(NatToDecimal(n / 10), DigitChar(n % 10));
    }
  }

  lemma IntToDecimalRoundTrip(i: int)
    ensures IsNumeral(IntToDecimal(i))
    ensures NumeralValue(IntToDecimal(i)) == i
  {
    NatToDecimalRoundTrip(if i < 0 then -i else i);
    if i < 0 {
      var s := IntToDecimal(i);
      assert s[1..] == NatToDecimal(-i);
    }
  }

  /** Leading zeros do not change the value of a digit string. */
  lemma {:induction false} LeadingZerosValue(k: nat, s: string)
    requires AllDigits(s)
    ensures AllDigits(Zeros(k) + s)
    ensures DigitsValue(Zeros(k) + s) == DigitsValue(s)
    decreases |s|, k
  {
    if s == [] {
      assert Zeros(k) + s == Zeros(k);
      if k > 0 {
        LeadingZerosValue(k - 1, "");
        assert Zeros(k - 1) + "" == Zeros(k - 1);
        DigitsValueSnoc(Zeros(k - 1), '0');
      }
    } else {
      var init := s[..|s| - 1];
      var last := s[|s| - 1];
      assert s == init + [last];
      LeadingZerosValue(k, init);
      assert Zeros(k) + s == (Zeros(k) + init) + [last];
      DigitsValueSnoc(Zeros(k) + init, last);
      DigitsValueSnoc(init, last);
    }
  }

  /** Appending three zeros to a numeral multiplies its value by 1000. */
  lemma ThousandfoldValue(s: string)
    requires AllDigits(s)
    ensures AllDigits(s + "000")
    ensures DigitsValue(s + "000") == DigitsValue(s) * 1000
  {
    DigitsValueSnoc(s, '0');
    DigitsValueSnoc(s + "0", '0');
    DigitsValueSnoc(s + "0" + "0", '0');
    assert s + "0" + "0" + "0" == s + "000";
  }

  /** For n >= 1, the numeral of 10n is the numeral of n followed by one zero. */
  lemma TenfoldNumeral(n: nat)
    requires n >= 1
    ensures NatToDecimal(n * 10) == NatToDecimal(n) + "0"
  {
    assert (n * 10) / 10 == n && (n * 10) % 10 == 0;
  }

  /**
   * `%s000` is a decimal numeral whose value is the instant's epoch
   * seconds times 1000.
   */
  lemma TimestampMillisValue(t: DateTime)
    ensures IsNumeral(TimestampMillis(t))
    ensures NumeralValue(TimestampMillis(t)) == EpochSeconds(t) * 1000
  {
    var secs := EpochSeconds(t);
    var n: nat := if secs < 0 then -secs else secs;
    var digits := NatToDecimal(n);
    NatToDecimalRoundTrip(n);
    ThousandfoldValue(digits);
    var s := TimestampMillis(t);
    if secs < 0 {
      assert s == "-" + (digits + "000");
      assert s[1..] == digits + "000";
    } else {
      assert s == digits + "000";
    }
  }

  lemma ThousandfoldNumeral(n: nat)
    requires n >= 1
    ensures NatToDecimal(n * 1000) == NatToDecimal(n) + "000"
  {
    var ten := n * 10;
    var hundred := ten * 10;
    TenfoldNumeral(n);
    TenfoldNumeral(ten);
    TenfoldNumeral(hundred);
    assert hundred * 10 == n * 1000;
    assert NatToDecimal(n) + "0" + "0" + "0" == NatToDecimal(n) + "000";
  }

  /**
   * As strings, `%s000` and the numeral of seconds * 1000 coincide except at
   * the Epoch itself, where `%s000` reads `0000`.
   */
  lemma TimestampMillisNumeral(t: DateTime)
    ensures EpochSeconds(t) != 0 ==> TimestampMillis(t) == IntToDecimal(EpochSeconds(t) * 1000)
    ensures EpochSeconds(t) == 0 ==> TimestampMillis(t) == "0000"
  {
    var secs := EpochSeconds(t);
    if secs > 0 {
      ThousandfoldNumeral(secs);
    } else if secs < 0 {
      var n: nat := -secs;
      ThousandfoldNumeral(n);
      assert secs * 1000 == -(n * 1000);
      assert IntToDecimal(secs * 1000) == "-" + NatToDecimal(n * 1000);
      assert TimestampMillis(t) == "-" + NatToDecimal(n) + "000";
    }
  }

  lemma TwoDigitsShape(n: nat)
    requires n < 100
    ensures |TwoDigits(n)| == 2 && AllDigits(TwoDigits(n))
    ensures DigitsValue(TwoDigits(n)) == n
  {
    NatToDecimalRoundTrip(n);
    if n >= 10 {
      assert |NatToDecimal(n / 10)| == 1;
    }
    LeadingZerosValue(|TwoDigits(n)| - |NatToDecimal(n)|, NatToDecimal(n));
  }

  lemma FourDigitYearShape(y: int)
    requires 0 <= y <= 9999
    ensures |FormatYear(y)| == 4 && AllDigits(FormatYear(y))
    ensures DigitsValue(FormatYear(y)) == y
  {
    NatToDecimalRoundTrip(y);
    if y >= 10 {
      if y >= 100 {
        if y >= 1000 {
          assert |NatToDecimal(y / 1000)| == 1;
        }
        assert |NatToDecimal(y / 100)| <= 2;
      }
      assert |NatToDecimal(y / 10)| <= 3;
    }
    LeadingZerosValue(|FormatYear(y)| - |NatToDecimal(y)|, NatToDecimal(y));
  }

  /** A `%F` date with a four-digit year is ten characters and reads back as the same date. */
  lemma FormatDateRoundTrip(d: Date)
    requires 0 <= d.year <= 9999
    ensures |FormatDate(d)| == 10
    ensures FormatDate(d)[4] == '-' && FormatDate(d)[7] == '-'
    ensures AllDigits(FormatDate(d)[..4]) && AllDigits(FormatDate(d)[5..7]) && AllDigits(FormatDate(d)[8..])
    ensures ParseDate(FormatDate(d)) == d
  {
    var s := FormatDate(d);
    FourDigitYearShape(d.year);
    TwoDigitsShape(d.month);
    TwoDigitsShape(d.day);
    assert s[..4] == FormatYear(d.year);
    assert s[5..7] == TwoDigits(d.month);
    assert s[8..] == TwoDigits(d.day);
  }

  /** Years outside 0..9999 carry an explicit sign that matches the year's. */
  lemma FormatYearSign(y: int)
    requires y < 0 || y > 9999
    ensures FormatYear(y)[0] == (if y < 0 then '-' else '+')
    ensures |FormatYear(y)| >= 5 && AllDigits(FormatYear(y)[1..])
    ensures DigitsValue(FormatYear(y)[1..]) == if y < 0 then -y else y
  {
    var n: nat := if y < 0 then -y else y;
    var padded := ZeroPad(NatToDecimal(n), 4);
    PaddedValue(n, 4);
    var sign := if y < 0 then "-" else "+";
    assert FormatYear(y) == sign + padded;
    assert (sign + padded)[1..] == padded;
  }

  lemma PaddedValue(n: nat, width: nat)
    ensures |ZeroPad(NatToDecimal(n), width)| >= width
    ensures AllDigits(ZeroPad(NatToDecimal(n), width))
    ensures DigitsValue(ZeroPad(NatToDecimal(n), width)) == n
  {
    var digits := NatToDecimal(n);
    NatToDecimalRoundTrip(n);
    LeadingZerosValue(|ZeroPad(digits, width)| - |digits|, digits);
  }

  lemma TwoDigitsOfConstants()
    ensures TwoDigits(0) == "00" && TwoDigits(12) == "12"
  {
  }

  /** At noon UTC, `%FT%X.%3f%z` is the `%F` date followed by `T12:00:00.000+0000`. */
  lemma FormatIsoMillisAtNoon(d: Date)
    ensures FormatIsoMillis(AndHms(d, 12, 0, 0)) == FormatDate(d) + "T12:00:00.000+0000"
  {
    TwoDigitsOfConstants();
    assert FormatTime(AndHms(d, 12, 0, 0)) == "12:00:00";
    NoonSuffix(FormatDate(d), FormatTime(AndHms(d, 12, 0, 0)));
  }

  /** The pieces after the date, with the time at noon, spell `T12:00:00.000+0000`. */
  lemma NoonSuffix(date: string, time: string)
    requires time == "12:00:00"
    ensures date + "T" + time + "." + "000" + "+0000" == date + "T12:00:00.000+0000"
  {
    assert "T" + time + "." + "000" + "+0000" == "T12:00:00.000+0000";
  }
}
