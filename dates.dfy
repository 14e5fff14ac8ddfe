/**
 * Calendar dates as the sheet stores them: `strftime('%m/%d/%Y')` to write a
 * date, `strptime(value, '%m/%d/%Y')` to read one back, and `today + 3 days`
 * for the next follow-up.
 */
module Dates {
  import opened Text

  datatype Date = Date(year: int, month: int, day: int)

  predicate IsLeap(y: int) {
    (y % 4 == 0 && y % 100 != 0) || y % 400 == 0
  }

  function DaysInMonth(y: int, m: int): (n: int)
    requires 1 <= m <= 12
    ensures 28 <= n <= 31
    ensures n == 29 <==> m == 2 && IsLeap(y)
  {
    if m == 2 then (if IsLeap(y) then 29 else 28)
    else if m == 4 || m == 6 || m == 9 || m == 11 then 30
    else 31
  }

  /** A date of the proleptic Gregorian calendar (years from 1 on). */
  predicate Valid(d: Date) {
    1 <= d.year && 1 <= d.month <= 12 && 1 <= d.day <= DaysInMonth(d.year, d.month)
  }

  /** `a <= b` on dates: year, then month, then day. */
  predicate OnOrBefore(a: Date, b: Date) {
    a.year < b.year
    || (a.year == b.year && a.month < b.month)
    || (a.year == b.year && a.month == b.month && a.day <= b.day)
  }

  lemma OnOrBeforeTotal(a: Date, b: Date)
    ensures OnOrBefore(a, b) || OnOrBefore(b, a)
    ensures OnOrBefore(a, b) && OnOrBefore(b, a) ==> a == b
  {
  }

  lemma OnOrBeforeTransitive(a: Date, b: Date, c: Date)
    requires OnOrBefore(a, b) && OnOrBefore(b, c)
    ensures OnOrBefore(a, c)
  {
  }

  /** The calendar day after `d`. */
  function NextDay(d: Date): (r: Date)
    requires Valid(d)
    ensures Valid(r)
    ensures OnOrBefore(d, r) && r != d
  {
    if d.day < DaysInMonth(d.year, d.month) then Date(d.year, d.month, d.day + 1)
    else if d.month < 12 then Date(d.year, d.month + 1, 1)
    else Date(d.year + 1, 1, 1)
  }

  /** No valid date lies strictly between a date and the next day. */
  lemma NextDayLeast(d: Date, x: Date)
    requires Valid(d) && Valid(x) && OnOrBefore(d, x) && x != d
    ensures OnOrBefore(NextDay(d), x)
  {
  }

  /** `d + timedelta(days=n)`. */
  function AddDays(d: Date, n: nat): (r: Date)
    requires Valid(d)
    ensures Valid(r)
    decreases n
  {
    if n == 0 then d else AddDays(NextDay(d), n - 1)
  }

  /** Adding days never goes back, and adding at least one day moves on. */
  lemma {:induction false} AddDaysLater(d: Date, n: nat)
    requires Valid(d)
    ensures OnOrBefore(d, AddDays(d, n))
    ensures n > 0 ==> AddDays(d, n) != d
    decreases n
  {
    if n > 0 {
      AddDaysLater(NextDay(d), n - 1);
      OnOrBeforeTransitive(d, NextDay(d), AddDays(d, n));
      OnOrBeforeTotal(d, NextDay(d));
    }
  }

  /** Two ASCII digits, zero-padded (`%m`, `%d`). */
  function Pad2(n: nat): (s: string)
    requires n < 100
    ensures |s| == 2 && IsDigits(s) && DigitsValue(s) == n
  {
    var s := [DigitChar(n / 10), DigitChar(n % 10)];
    assert s[..1] == [s[0]] && s[..1][..0] == [];
    assert DigitsValue(s[..1]) == n / 10;
    s
  }

  /** The year as `%Y` writes it: at least four digits, zero-padded. */
  function PadYear(y: nat): (s: string)
    ensures |s| >= 4 && IsDigits(s)
    ensures y <= 9999 ==> |s| == 4
  {
    if y >= 10000 then PadYear(y / 10) + [DigitChar(y % 10)]
    else [DigitChar(y / 1000), DigitChar(y / 100 % 10), DigitChar(y / 10 % 10), DigitChar(y % 10)]
  }

  /** `d.strftime('%m/%d/%Y')`. */
  function FormatDate(d: Date): (s: string)
    requires Valid(d)
    ensures NoSpace(s)
  {
    var s := Pad2(d.month) + "/" + Pad2(d.day) + "/" + PadYear(d.year);
    assert forall i | 0 <= i < |s| :: IsAsciiDigit(s[i]) || s[i] == '/';
    s
  }

  /** `d.isoformat()`: `YYYY-MM-DD`, the key the trackers store the day under. */
  function IsoFormat(d: Date): (s: string)
    requires Valid(d)
    ensures d.year <= 9999 ==> |s| == 10 && s[4] == '-' && s[7] == '-'
  {
    PadYear(d.year) + "-" + Pad2(d.month) + "-" + Pad2(d.day)
  }

  /** Two days have the same ISO key exactly when they are the same day. */
  lemma IsoFormatInjective(a: Date, b: Date)
    requires Valid(a) && Valid(b) && a.year <= 9999 && b.year <= 9999
    ensures IsoFormat(a) == IsoFormat(b) <==> a == b
  {
    if IsoFormat(a) == IsoFormat(b) {
      var s := IsoFormat(a);
      assert s[..4] == PadYear(a.year) && s[..4] == PadYear(b.year);
      assert s[5..7] == Pad2(a.month) && s[5..7] == Pad2(b.month);
      assert s[8..] == Pad2(a.day) && s[8..] == Pad2(b.day);
      PadYearValue(a.year);
      PadYearValue(b.year);
    }
  }

  /** The `%m` field: `1[0-2]|0[1-9]|[1-9]`. */
  function MonthField(f: string): (r: Option<int>)
    ensures r.Some? ==> 1 <= r.value <= 12
  {
    if |f| == 1 && '1' <= f[0] <= '9' then Some(DigitValue(f[0]))
    else if |f| == 2 && f[0] == '0' && '1' <= f[1] <= '9' then Some(DigitValue(f[1]))
    else if |f| == 2 && f[0] == '1' && '0' <= f[1] <= '2' then Some(10 + DigitValue(f[1]))
    else None
  }

  /** The `%d` field: `3[01]|[12]\d|0[1-9]|[1-9]| [1-9]`. */
  function DayField(f: string): (r: Option<int>)
    ensures r.Some? ==> 1 <= r.value <= 31
  {
    if |f| == 1 && '1' <= f[0] <= '9' then Some(DigitValue(f[0]))
    else if |f| == 2 && (f[0] == '0' || f[0] == ' ') && '1' <= f[1] <= '9' then Some(DigitValue(f[1]))
    else if |f| == 2 && (f[0] == '1' || f[0] == '2') && IsAsciiDigit(f[1]) then
      Some(10 * DigitValue(f[0]) + DigitValue(f[1]))
    else if |f| == 2 && f[0] == '3' && (f[1] == '0' || f[1] == '1') then Some(30 + DigitValue(f[1]))
    else None
  }

  /**
   * `datetime.strptime(s, '%m/%d/%Y').date()`, with `None` for the ValueError:
   * the whole string must match (none of the fields can hold '/', so the
   * slashes split it), the year is exactly four digits, and the day must
   * exist in that month of that year.
   */
  function ParseDate(s: string): (r: Option<Date>)
    ensures r.Some? ==> Valid(r.value)
    ensures r.Some? ==> |s| <= 10 && CountChar(s, '/') > 0
  {
    var m := BeforeFirst(s, '/');
    if |m| == |s| then None
    else
      var rest := s[|m| + 1..];
      var dd := BeforeFirst(rest, '/');
      if |dd| == |rest| then None
      else
        var y := rest[|dd| + 1..];
        var month := MonthField(m);
        var day := DayField(dd);
        if |y| == 4 && IsDigits(y) && month.Some? && day.Some? && DigitsValue(y) >= 1 then
          var d := Date(DigitsValue(y), month.value, day.value);
          assert s[|m|] == '/';
          if Valid(d) then Some(d) else None
        else None
  }

  lemma {:induction false} Pad2Fields(n: nat)
    requires 1 <= n <= 12
    ensures MonthField(Pad2(n)) == Some(n)
  {
  }

  lemma {:induction false} Pad2Day(n: nat)
    requires 1 <= n <= 31
    ensures DayField(Pad2(n)) == Some(n)
  {
  }

  lemma {:induction false} PadYearValue(y: nat)
    requires 1 <= y <= 9999
    ensures DigitsValue(PadYear(y)) == y
  {
    var a, b, c, e := y / 1000, y / 100 % 10, y / 10 % 10, y % 10;
    FourDigitsValue(DigitChar(a), DigitChar(b), DigitChar(c), DigitChar(e));
    assert ((a * 10 + b) * 10 + c) * 10 + e == y by {
      assert a * 10 + b == y / 100;
      assert (y / 100) * 10 + c == y / 10;
    }
  }

  lemma FourDigitsValue(a: char, b: char, c: char, e: char)
    requires IsAsciiDigit(a) && IsAsciiDigit(b) && IsAsciiDigit(c) && IsAsciiDigit(e)
    ensures DigitsValue([a, b, c, e])
      == ((DigitValue(a) * 10 + DigitValue(b)) * 10 + DigitValue(c)) * 10 + DigitValue(e)
  {
    var s := [a, b, c, e];
    assert [a][..0] == [];
    assert DigitsValue([a]) == DigitValue(a);
    assert [a, b][..1] == [a];
    assert DigitsValue([a, b]) == DigitValue(a) * 10 + DigitValue(b);
    assert [a, b, c][..2] == [a, b];
    assert DigitsValue([a, b, c]) == (DigitValue(a) * 10 + DigitValue(b)) * 10 + DigitValue(c);
    assert s[..3] == [a, b, c];
  }

  /** A date written by `strftime('%m/%d/%Y')` reads back as the same date. */
  lemma FormatParseRoundTrip(d: Date)
    requires Valid(d) && d.year <= 9999
    ensures ParseDate(FormatDate(d)) == Some(d)
  {
    var mm, dd, yy := Pad2(d.month), Pad2(d.day), PadYear(d.year);
    var s := FormatDate(d);
    assert s == mm + "/" + dd + "/" + yy;
    assert BeforeFirst(s, '/') == mm by {
      assert s[..2] == mm && s[2] == '/';
      BeforeFirstAt(s, '/', 2);
    }
    var rest := s[3..];
    assert rest == dd + "/" + yy;
    assert BeforeFirst(rest, '/') == dd by {
      assert rest[..2] == dd && rest[2] == '/';
      BeforeFirstAt(rest, '/', 2);
    }
    assert rest[3..] == yy;
    Pad2Fields(d.month);
    Pad2Day(d.day);
    PadYearValue(d.year);
  }

  /** A formatted date has no surrounding whitespace to strip. */
  lemma FormatDateStripped(d: Date)
    requires Valid(d)
    ensures Strip(FormatDate(d)) == FormatDate(d)
  {
    StripNoSpace(FormatDate(d));
  }

  lemma {:induction false} BeforeFirstAt(s: string, sep: char, k: nat)
    requires k < |s| && s[k] == sep && sep !in s[..k]
    ensures BeforeFirst(s, sep) == s[..k]
  {
  }
}
