/** Calendar dates and date-times as Python's `datetime` module presents them:
    proleptic Gregorian dates between the years 1 and 9999, compared field by
    field, and the `strftime('%d/%m/%Y')` rendering used for chart labels. */
module Calendar {

  datatype Option<T> = None | Some(value: T)

  datatype Date = Date(year: int, month: int, day: int)

  /** A moment at minute resolution: the session forms are parsed with the
      format `%Y-%m-%dT%H:%M`, so no seconds are ever stored. */
  datatype DateTime = DateTime(date: Date, hour: int, minute: int)

  predicate IsLeap(year: int) {
    year % 4 == 0 && (year % 100 != 0 || year % 400 == 0)
  }

  function DaysInMonth(year: int, month: int): (n: int)
    requires 1 <= month <= 12
    ensures 28 <= n <= 31
    ensures n == 29 <==> month == 2 && IsLeap(year)
  {
    if month == 2 then (if IsLeap(year) then 29 else 28)
    else if month == 4 || month == 6 || month == 9 || month == 11 then 30
    else 31
  }

  /** The dates a Python `date` object can hold. */
  predicate ValidDate(d: Date) {
    && 1 <= d.year <= 9999
    && 1 <= d.month <= 12
    && 1 <= d.day <= DaysInMonth(d.year, d.month)
  }

  predicate ValidDateTime(t: DateTime) {
    ValidDate(t.date) && 0 <= t.hour < 24 && 0 <= t.minute < 60
  }

  /** `(m1, d1) < (m2, d2)` as Python compares tuples. */
  predicate MonthDayBefore(m1: int, d1: int, m2: int, d2: int) {
    m1 < m2 || (m1 == m2 && d1 < d2)
  }

  /** `a <= b` on dates: year first, then (month, day). */
  predicate DateLe(a: Date, b: Date) {
    a.year < b.year || (a.year == b.year && !MonthDayBefore(b.month, b.day, a.month, a.day))
  }

  /** `a <= b` on date-times: the date first, then the clock time. */
  predicate DateTimeLe(a: DateTime, b: DateTime) {
    if a.date == b.date then
      a.hour < b.hour || (a.hour == b.hour && a.minute <= b.minute)
    else
      DateLe(a.date, b.date)
  }

  lemma DateLeTotal(a: Date, b: Date)
    ensures DateLe(a, b) || DateLe(b, a)
    ensures DateLe(a, b) && DateLe(b, a) ==> a == b
  {
  }

  lemma DateLeTransitive(a: Date, b: Date, c: Date)
    requires DateLe(a, b) && DateLe(b, c)
    ensures DateLe(a, c)
  {
  }

  /** `DateTimeLe` is a total order: every two date-times are comparable,
      and it is transitive and antisymmetric. */
  lemma DateTimeLeTotal(a: DateTime, b: DateTime)
    ensures DateTimeLe(a, b) || DateTimeLe(b, a)
    ensures DateTimeLe(a, b) && DateTimeLe(b, a) ==> a == b
  {
    DateLeTotal(a.date, b.date);
  }

  lemma DateTimeLeTransitive(a: DateTime, b: DateTime, c: DateTime)
    requires DateTimeLe(a, b) && DateTimeLe(b, c)
    ensures DateTimeLe(a, c)
  {
    DateLeTotal(a.date, b.date);
    DateLeTotal(b.date, c.date);
    DateLeTotal(a.date, c.date);
    if a.date != b.date && b.date != c.date {
      DateLeTransitive(a.date, b.date, c.date);
    }
  }

  // ---- strftime('%d/%m/%Y') ----

  function DigitChar(n: int): (c: char)
    requires 0 <= n < 10
    ensures '0' <= c <= '9'
  {
    (48 + n) as char
  }

  function DigitValue(c: char): (n: int)
    requires '0' <= c <= '9'
    ensures 0 <= n < 10 && DigitChar(n) == c
  {
    c as int - 48
  }

  /** A number below 100 in two digits, zero-padded (`%d`, `%m`). */
  function Pad2(n: int): (s: string)
    requires 0 <= n < 100
    ensures |s| == 2 && forall i :: 0 <= i < 2 ==> '0' <= s[i] <= '9'
  {
    [DigitChar(n / 10), DigitChar(n % 10)]
  }

  /** A number below 10000 in four digits, zero-padded (`%Y`). */
  function Pad4(n: int): (s: string)
    requires 0 <= n < 10000
    ensures |s| == 4 && forall i :: 0 <= i < 4 ==> '0' <= s[i] <= '9'
  {
    [DigitChar(n / 1000), DigitChar(n / 100 % 10), DigitChar(n / 10 % 10), DigitChar(n % 10)]
  }

  /** `d.strftime('%d/%m/%Y')`. */
  function FormatDate(d: Date): (s: string)
    requires ValidDate(d)
    ensures |s| == 10 && s[2] == '/' && s[5] == '/'
  {
    Pad2(d.day) + "/" + Pad2(d.month) + "/" + Pad4(d.year)
  }

  predicate AllDigits(s: string) {
    forall i :: 0 <= i < |s| ==> '0' <= s[i] <= '9'
  }

  /** The decimal value of a string of digits. */
  function DecimalValue(s: string): (n: int)
    requires AllDigits(s)
    ensures n >= 0
  {
    if s == [] then 0 else DecimalValue(s[..|s| - 1]) * 10 + DigitValue(s[|s| - 1])
  }

  /** Reads a `dd/mm/YYYY` label back into a date; the inverse of `FormatDate`. */
  function ParseDate(s: string): (r: Option<Date>)
    ensures r.Some? ==> |s| == 10 && s[2] == '/' && s[5] == '/'
  {
    if |s| == 10 && s[2] == '/' && s[5] == '/'
       && AllDigits(s[..2]) && AllDigits(s[3..5]) && AllDigits(s[6..])
    then Some(Date(DecimalValue(s[6..]), DecimalValue(s[3..5]), DecimalValue(s[..2])))
    else None
  }

  lemma Pad2Value(n: int)
    requires 0 <= n < 100
    ensures AllDigits(Pad2(n)) && DecimalValue(Pad2(n)) == n
  {
    var s := Pad2(n);
    assert s[..1][..0] == [];
    assert DecimalValue(s[..1]) == n / 10;
    assert s[..2] == s;
  }

  lemma Pad4Value(n: int)
    requires 0 <= n < 10000
    ensures AllDigits(Pad4(n)) && DecimalValue(Pad4(n)) == n
  {
    var s := Pad4(n);
    assert s[..1][..0] == [];
    assert s[..2][..1] == s[..1];
    assert s[..3][..2] == s[..2];
    assert s[..4][..3] == s[..3];
    assert DecimalValue(s[..1]) == n / 1000;
    assert DecimalValue(s[..2]) == n / 1000 * 10 + n / 100 % 10;
    assert n / 1000 * 10 + n / 100 % 10 == n / 100;
    assert DecimalValue(s[..3]) == n / 100 * 10 + n / 10 % 10;
    assert n / 100 * 10 + n / 10 % 10 == n / 10;
    assert s[..4] == s;
  }

  /** Every label reads back as the date it was made from, so two different
      session dates never share a label. */
  lemma ParseFormatDate(d: Date)
    requires ValidDate(d)
    ensures ParseDate(FormatDate(d)) == Some(d)
  {
    var s := FormatDate(d);
    assert s[..2] == Pad2(d.day);
    assert s[3..5] == Pad2(d.month);
    assert s[6..] == Pad4(d.year);
    Pad2Value(d.day);
    Pad2Value(d.month);
    Pad4Value(d.year);
  }
}
