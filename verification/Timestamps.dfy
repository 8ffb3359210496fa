/** Stored timestamps: formatTimestamp and parseTimestamp of store.go, and the byte order in which
    SQLite compares the stored text. An instant is a number of nanoseconds since the start of year 0. */
module Timestamps {
  import opened Options

  type Instant = nat

  const SECOND: nat := 1_000_000_000

  // ---------- the proleptic Gregorian calendar ----------

  predicate IsLeap(y: nat) {
    y % 4 == 0 && (y % 100 != 0 || y % 400 == 0)
  }

  function DaysInMonth(y: nat, m: nat): nat {
    if m == 2 then (if IsLeap(y) then 29 else 28)
    else if m == 4 || m == 6 || m == 9 || m == 11 then 30
    else 31
  }

  /** Days of year y before month m, for 1 <= m <= 13. */
  function DaysBeforeMonth(y: nat, m: nat): nat {
    if m <= 1 then 0 else DaysBeforeMonth(y, m - 1) + DaysInMonth(y, m - 1)
  }

  function DaysInYear(y: nat): (d: nat)
    ensures d > 0
  {
    if IsLeap(y) then 366 else 365
  }

  function DaysBeforeYear(y: nat): nat {
    if y == 0 then 0 else DaysBeforeYear(y - 1) + DaysInYear(y - 1)
  }

  lemma MonthsFillYear(y: nat)
    ensures DaysBeforeMonth(y, 13) == DaysInYear(y)
  {
    var february := DaysInMonth(y, 2);
    assert DaysBeforeMonth(y, 3) == DaysBeforeMonth(y, 2) + february == 31 + february;
    assert DaysBeforeMonth(y, 5) == DaysBeforeMonth(y, 4) + 30 == DaysBeforeMonth(y, 3) + 61;
    assert DaysBeforeMonth(y, 7) == DaysBeforeMonth(y, 6) + 30 == DaysBeforeMonth(y, 5) + 61;
    assert DaysBeforeMonth(y, 9) == DaysBeforeMonth(y, 8) + 31 == DaysBeforeMonth(y, 7) + 62;
    assert DaysBeforeMonth(y, 11) == DaysBeforeMonth(y, 10) + 31 == DaysBeforeMonth(y, 9) + 61;
    assert DaysBeforeMonth(y, 13) == DaysBeforeMonth(y, 12) + 31 == DaysBeforeMonth(y, 11) + 61;
  }

  lemma {:induction false} YearsGrow(y: nat, z: nat)
    requires y < z
    ensures DaysBeforeYear(y) + DaysInYear(y) <= DaysBeforeYear(z)
  {
    if y < z - 1 {
      YearsGrow(y, z - 1);
    }
  }

  lemma {:induction false} MonthsGrow(y: nat, m: nat, n: nat)
    requires 1 <= m < n
    ensures DaysBeforeMonth(y, m) + DaysInMonth(y, m) <= DaysBeforeMonth(y, n)
  {
    if m + 1 < n {
      MonthsGrow(y, m, n - 1);
    }
  }

  datatype Civil = Civil(year: nat, month: nat, day: nat, hour: nat, minute: nat, second: nat)
  {
    predicate Valid() {
      1 <= month <= 12 && 1 <= day <= DaysInMonth(year, month) && hour < 24 && minute < 60 && second < 60
    }

    function Day(): nat
      requires Valid()
    {
      DaysBeforeYear(year) + DaysBeforeMonth(year, month) + day - 1
    }

    function ClockSeconds(): nat {
      hour * 3600 + minute * 60 + second
    }

    function Seconds(): nat
      requires Valid()
    {
      Day() * 86400 + ClockSeconds()
    }
  }

  function FindYear(day: nat, y: nat): (r: nat)
    requires DaysBeforeYear(y) <= day
    ensures DaysBeforeYear(r) <= day < DaysBeforeYear(r) + DaysInYear(r)
    decreases day - DaysBeforeYear(y)
  {
    if day < DaysBeforeYear(y) + DaysInYear(y) then y else FindYear(day, y + 1)
  }

  function FindMonth(y: nat, day: nat, m: nat): (r: nat)
    requires 1 <= m <= 12 && DaysBeforeMonth(y, m) <= day < DaysInYear(y)
    ensures 1 <= r <= 12 && DaysBeforeMonth(y, r) <= day < DaysBeforeMonth(y, r) + DaysInMonth(y, r)
    decreases 12 - m
  {
    MonthsFillYear(y);
    if day < DaysBeforeMonth(y, m) + DaysInMonth(y, m) then m else FindMonth(y, day, m + 1)
  }

  lemma ClockFields(clock: nat)
    requires clock < 86400
    ensures clock / 3600 < 24 && clock / 60 % 60 < 60 && clock % 60 < 60
    ensures clock / 3600 * 3600 + clock / 60 % 60 * 60 + clock % 60 == clock
  {
  }

  /** The calendar fields of a number of seconds: the inverse of Civil.Seconds. */
  function CivilOf(seconds: nat): (c: Civil)
    ensures c.Valid() && c.Seconds() == seconds
  {
    var day, clock := seconds / 86400, seconds % 86400;
    ClockFields(clock);
    var y := FindYear(day, 0);
    var m := FindMonth(y, day - DaysBeforeYear(y), 1);
    Civil(y, m, day - DaysBeforeYear(y) - DaysBeforeMonth(y, m) + 1, clock / 3600, clock / 60 % 60, clock % 60)
  }

  /** Field by field order, most significant field first. */
  predicate CivilBefore(a: Civil, b: Civil) {
    || a.year < b.year
    || (a.year == b.year && (
        || a.month < b.month
        || (a.month == b.month && (
            || a.day < b.day
            || (a.day == b.day && (
                || a.hour < b.hour
                || (a.hour == b.hour && (
                    || a.minute < b.minute
                    || (a.minute == b.minute && a.second < b.second)))))))))
  }

  lemma DayOrder(a: Civil, b: Civil)
    requires a.Valid() && b.Valid()
    requires a.year < b.year || (a.year == b.year && (a.month < b.month || (a.month == b.month && a.day < b.day)))
    ensures a.Day() < b.Day()
  {
    MonthsFillYear(a.year);
    if a.year < b.year {
      YearsGrow(a.year, b.year);
      MonthsGrow(a.year, a.month, 13);
    } else if a.month < b.month {
      MonthsGrow(a.year, a.month, b.month);
    }
  }

  lemma CivilOrder(a: Civil, b: Civil)
    requires a.Valid() && b.Valid() && CivilBefore(a, b)
    ensures a.Seconds() < b.Seconds()
  {
    if a.year == b.year && a.month == b.month && a.day == b.day {
      assert a.Day() == b.Day();
    } else {
      DayOrder(a, b);
    }
  }

  lemma CivilOfOrder(s: nat, t: nat)
    requires s < t
    ensures CivilBefore(CivilOf(s), CivilOf(t))
  {
    var a, b := CivilOf(s), CivilOf(t);
    if !CivilBefore(a, b) && a != b {
      CivilOrder(b, a);
    }
  }

  // ---------- decimal digits ----------

  function Pow10(n: nat): (p: nat)
    ensures p > 0
  {
    if n == 0 then 1 else 10 * Pow10(n - 1)
  }

  function DigitChar(d: nat): (c: char)
    requires d < 10
  {
    ('0' as int + d) as char
  }

  /** n in decimal, zero-padded to w characters. */
  function Digits(n: nat, w: nat): (s: string)
    ensures |s| == w
    ensures forall i :: 0 <= i < w ==> '0' <= s[i] <= '9'
  {
    if w == 0 then "" else Digits(n / 10, w - 1) + [DigitChar(n % 10)]
  }

  predicate AllDigits(s: string) {
    forall i :: 0 <= i < |s| ==> '0' <= s[i] <= '9'
  }

  function DigitsValue(s: string): nat
    requires AllDigits(s)
  {
    if s == "" then 0 else DigitsValue(s[..|s| - 1]) * 10 + (s[|s| - 1] as int - '0' as int)
  }

  lemma {:induction false} DigitsValueOfDigits(n: nat, w: nat)
    requires n < Pow10(w)
    ensures DigitsValue(Digits(n, w)) == n
  {
    hide Digits;
    hide DigitsValue;
    hide DigitChar;
    if w == 0 {
      NoDigits(n);
    } else {
      DigitsShrink(n, Pow10(w - 1));
      DigitsValueOfDigits(n / 10, w - 1);
      LastDigit(Digits(n / 10, w - 1), n % 10);
      DigitsSplit(n, w);
    }
  }

  lemma NoDigits(n: nat)
    ensures DigitsValue(Digits(n, 0)) == 0
  {
  }

  lemma DigitsSplit(n: nat, w: nat)
    requires w > 0
    ensures Digits(n, w) == Digits(n / 10, w - 1) + [DigitChar(n % 10)]
  {
  }

  lemma DigitsShrink(n: nat, p: nat)
    requires n < 10 * p
    ensures n / 10 < p && n == n / 10 * 10 + n % 10
  {
  }

  lemma LastDigit(s: string, d: nat)
    requires AllDigits(s) && d < 10
    ensures AllDigits(s + [DigitChar(d)]) && DigitsValue(s + [DigitChar(d)]) == DigitsValue(s) * 10 + d
  {
    assert (s + [DigitChar(d)])[..|s|] == s;
  }

  /** The text without its trailing zeros. */
  function TrimZeros(s: string): (r: string)
    ensures |r| <= |s| && r == s[..|r|]
    ensures r == "" || r[|r| - 1] != '0'
    ensures forall i :: |r| <= i < |s| ==> s[i] == '0'
  {
    if s != "" && s[|s| - 1] == '0' then TrimZeros(s[..|s| - 1]) else s
  }

  lemma ShiftedTimes(v: nat, p: nat, n: nat)
    requires v * p == n
    ensures v * (10 * p) == 10 * n
  {
  }

  lemma {:induction false} TrimZerosValue(s: string)
    requires AllDigits(s)
    ensures AllDigits(TrimZeros(s))
    ensures DigitsValue(TrimZeros(s)) * Pow10(|s| - |TrimZeros(s)|) == DigitsValue(s)
  {
    if s != "" && s[|s| - 1] == '0' {
      var t := s[..|s| - 1];
      TrimZerosValue(t);
      var k := |t| - |TrimZeros(t)|;
      ShiftedTimes(DigitsValue(TrimZeros(t)), Pow10(k), DigitsValue(t));
      assert Pow10(k + 1) == 10 * Pow10(k);
      assert DigitsValue(s) == 10 * DigitsValue(t);
      assert TrimZeros(s) == TrimZeros(t) && |s| - |TrimZeros(s)| == k + 1;
    } else {
      assert TrimZeros(s) == s && Pow10(0) == 1;
    }
  }

  lemma {:induction false} ZeroDigits(n: nat, w: nat)
    requires n < Pow10(w)
    ensures TrimZeros(Digits(n, w)) == "" <==> n == 0
  {
    DigitsValueOfDigits(n, w);
    TrimZerosValue(Digits(n, w));
    if n == 0 {
      AllZero(w);
      TrimZerosOfZeros(Digits(n, w));
    }
  }

  lemma {:induction false} TrimZerosOfZeros(s: string)
    requires forall i :: 0 <= i < |s| ==> s[i] == '0'
    ensures TrimZeros(s) == ""
  {
    if s != "" {
      TrimZerosOfZeros(s[..|s| - 1]);
    }
  }

  lemma {:induction false} AllZero(w: nat)
    ensures forall i :: 0 <= i < w ==> Digits(0, w)[i] == '0'
  {
    if w > 0 {
      AllZero(w - 1);
    }
  }

  // ---------- text order ----------

  /** SQLite's BINARY collation. */
  predicate TextLeq(a: string, b: string) {
    a == "" || (b != "" && (a[0] < b[0] || (a[0] == b[0] && TextLeq(a[1..], b[1..]))))
  }

  /** The texts part at position k, where a has the smaller character. */
  predicate PartsAt(a: string, b: string, k: nat) {
    k < |a| && k < |b| && a[..k] == b[..k] && a[k] < b[k]
  }

  ghost predicate Before(a: string, b: string) {
    exists k: nat :: PartsAt(a, b, k)
  }

  lemma {:induction false} PartsDecides(a: string, b: string, k: nat)
    requires PartsAt(a, b, k)
    ensures TextLeq(a, b) && !TextLeq(b, a)
  {
    if k > 0 {
      assert a[0] == a[..k][0] == b[..k][0] == b[0];
      assert a[1..][..k - 1] == a[..k][1..] == b[..k][1..] == b[1..][..k - 1];
      PartsDecides(a[1..], b[1..], k - 1);
    }
  }

  lemma BeforeDecides(a: string, b: string)
    requires Before(a, b)
    ensures TextLeq(a, b) && !TextLeq(b, a)
  {
    var k: nat :| PartsAt(a, b, k);
    PartsDecides(a, b, k);
  }

  lemma {:induction false} TextLeqReflexive(a: string)
    ensures TextLeq(a, a)
  {
    if a != "" {
      TextLeqReflexive(a[1..]);
    }
  }

  lemma BeforeExtends(u: string, v: string, x: string, y: string)
    requires Before(u, v)
    ensures Before(u + x, v + y)
  {
    var k: nat :| PartsAt(u, v, k);
    assert (u + x)[..k] == u[..k] && (v + y)[..k] == v[..k];
    assert PartsAt(u + x, v + y, k);
  }

  lemma BeforeAfterPrefix(p: string, x: string, y: string)
    requires Before(x, y)
    ensures Before(p + x, p + y)
  {
    var k: nat :| PartsAt(x, y, k);
    assert (p + x)[..|p| + k] == p + x[..k] && (p + y)[..|p| + k] == p + y[..k];
    assert PartsAt(p + x, p + y, |p| + k);
  }

  lemma {:induction false} DigitsBefore(m: nat, n: nat, w: nat)
    requires m < n < Pow10(w)
    ensures Before(Digits(m, w), Digits(n, w))
  {
    if m / 10 < n / 10 {
      DigitsBefore(m / 10, n / 10, w - 1);
      BeforeExtends(Digits(m / 10, w - 1), Digits(n / 10, w - 1), [DigitChar(m % 10)], [DigitChar(n % 10)]);
    } else {
      assert Digits(m, w)[..w - 1] == Digits(m / 10, w - 1) == Digits(n, w)[..w - 1];
      assert PartsAt(Digits(m, w), Digits(n, w), w - 1);
    }
  }

  /** One fixed-width field followed by the rest of the text. */
  lemma FieldBefore(m: nat, n: nat, w: nat, x: string, y: string)
    requires m < Pow10(w) && n < Pow10(w)
    requires m < n || (m == n && Before(x, y))
    ensures Before(Digits(m, w) + x, Digits(n, w) + y)
  {
    if m < n {
      DigitsBefore(m, n, w);
      BeforeExtends(Digits(m, w), Digits(n, w), x, y);
    } else {
      BeforeAfterPrefix(Digits(m, w), x, y);
    }
  }

  // ---------- time.RFC3339Nano in UTC ----------

  function SecondText(c: Civil): string { Digits(c.second, 2) }
  function MinuteText(c: Civil): string { Digits(c.minute, 2) + (":" + SecondText(c)) }
  function HourText(c: Civil): string { Digits(c.hour, 2) + (":" + MinuteText(c)) }
  function DayText(c: Civil): string { Digits(c.day, 2) + ("T" + HourText(c)) }
  function MonthText(c: Civil): string { Digits(c.month, 2) + ("-" + DayText(c)) }

  /** The fixed-width part, 2006-01-02T15:04:05. */
  function Stamp(c: Civil): (s: string)
    ensures |s| == 19
  {
    Digits(c.year, 4) + ("-" + MonthText(c))
  }

  /** The fraction with its trailing zeros removed, and no point when nothing is left. */
  function FractionDigits(nanos: nat): string {
    TrimZeros(Digits(nanos, 9))
  }

  function Fraction(nanos: nat): string {
    Pointed(FractionDigits(nanos))
  }

  /** The seconds of the years 0 to 9999. */
  const FOUR_DIGIT_YEARS: nat := 315_569_520_000

  /** Instants whose year has four digits, the years that RFC 3339 (section 5.6) can write. */
  predicate InRange(t: Instant) {
    t < FOUR_DIGIT_YEARS * SECOND
  }

  lemma StepsOfFour(z: nat)
    ensures (z + 4) / 4 == (z + 3) / 4 + if z % 4 == 0 then 1 else 0
  {
  }

  lemma StepsOfHundred(z: nat)
    ensures (z + 100) / 100 == (z + 99) / 100 + if z % 100 == 0 then 1 else 0
  {
  }

  lemma StepsOfFourHundred(z: nat)
    ensures (z + 400) / 400 == (z + 399) / 400 + if z % 400 == 0 then 1 else 0
  {
  }

  lemma LeapDays(z: nat)
    ensures DaysInYear(z) == 365 + (if z % 4 == 0 then 1 else 0) - (if z % 100 == 0 then 1 else 0)
                                 + (if z % 400 == 0 then 1 else 0)
  {
    assert z % 100 == 0 ==> z % 4 == 0;
    assert z % 400 == 0 ==> z % 100 == 0;
  }

  lemma {:induction false} DaysBeforeYearClosed(y: nat)
    ensures DaysBeforeYear(y) == 365 * y + (y + 3) / 4 - (y + 99) / 100 + (y + 399) / 400
  {
    if y > 0 {
      hide DaysInYear;
      DaysBeforeYearClosed(y - 1);
      StepsOfFour(y - 1);
      StepsOfHundred(y - 1);
      StepsOfFourHundred(y - 1);
      LeapDays(y - 1);
    }
  }

  lemma TenThousandYears(limit: nat)
    requires limit == 10000
    ensures DaysBeforeYear(limit) * 86400 == FOUR_DIGIT_YEARS
  {
    DaysBeforeYearClosed(limit);
  }

  /** A date comes before a year begins exactly when its day does. */
  lemma BeforeYear(c: Civil, limit: nat)
    requires c.Valid()
    ensures c.year < limit <==> c.Day() < DaysBeforeYear(limit)
  {
    MonthsFillYear(c.year);
    MonthsGrow(c.year, c.month, 13);
    if c.year < limit {
      YearsGrow(c.year, limit);
    } else if c.year > limit {
      YearsGrow(limit, c.year);
    }
  }

  lemma SecondsInDays(c: Civil, days: nat)
    requires c.Valid()
    ensures c.Seconds() < days * 86400 <==> c.Day() < days
  {
    hide DaysBeforeYear;
    hide DaysBeforeMonth;
  }

  lemma YearHasFourDigits(t: Instant)
    ensures InRange(t) <==> CivilOf(t / SECOND).year < 10000
  {
    var c := CivilOf(t / SECOND);
    var limit: nat := 10000;
    TenThousandYears(limit);
    BeforeYear(c, limit);
    SecondsInDays(c, DaysBeforeYear(limit));
    hide DaysBeforeYear;
    hide CivilOf;
  }

  /** formatTimestamp. */
  function Format(t: Instant): string {
    Stamp(CivilOf(t / SECOND)) + (Fraction(t % SECOND) + "Z")
  }

  lemma Pow10Values()
    ensures Pow10(1) == 10 && Pow10(2) == 100 && Pow10(4) == 10000 && Pow10(9) == SECOND
  {
    assert Pow10(1) == 10 * Pow10(0);
    assert Pow10(2) == 10 * Pow10(1);
    assert Pow10(4) == 10 * Pow10(3) == 100 * Pow10(2);
    assert Pow10(6) == 10 * Pow10(5) == 100 * Pow10(4);
    assert Pow10(9) == 10 * Pow10(8) == 100 * Pow10(7) == 1000 * Pow10(6);
  }

  /** The fixed-width parts compare as the calendar fields do. */
  lemma StampBefore(a: Civil, b: Civil)
    requires a.Valid() && b.Valid() && a.year < 10000 && b.year < 10000
    requires CivilBefore(a, b)
    ensures Before(Stamp(a), Stamp(b))
  {
    Pow10Values();
    if a.year == b.year {
      if a.month == b.month {
        if a.day == b.day {
          if a.hour == b.hour {
            if a.minute == b.minute {
              DigitsBefore(a.second, b.second, 2);
              BeforeAfterPrefix(":", SecondText(a), SecondText(b));
            }
            FieldBefore(a.minute, b.minute, 2, ":" + SecondText(a), ":" + SecondText(b));
            BeforeAfterPrefix(":", MinuteText(a), MinuteText(b));
          }
          FieldBefore(a.hour, b.hour, 2, ":" + MinuteText(a), ":" + MinuteText(b));
          BeforeAfterPrefix("T", HourText(a), HourText(b));
        }
        FieldBefore(a.day, b.day, 2, "T" + HourText(a), "T" + HourText(b));
        BeforeAfterPrefix("-", DayText(a), DayText(b));
      }
      FieldBefore(a.month, b.month, 2, "-" + DayText(a), "-" + DayText(b));
      BeforeAfterPrefix("-", MonthText(a), MonthText(b));
    }
    FieldBefore(a.year, b.year, 4, "-" + MonthText(a), "-" + MonthText(b));
  }

  /** a and b are u and v without their trailing zeros. */
  lemma TrimmedOrder(u: string, v: string, a: string, b: string, k: nat)
    requires |u| == |v| && AllDigits(u) && AllDigits(v) && PartsAt(u, v, k)
    requires |a| <= |u| && a == u[..|a|] && forall i :: |a| <= i < |u| ==> u[i] == '0'
    requires |b| <= |v| && b == v[..|b|] && forall i :: |b| <= i < |v| ==> v[i] == '0'
    ensures !(a <= b) ==> PartsAt(a, b, k)
    ensures a <= b ==> |a| < |b|
  {
    assert '0' <= u[k] < v[k];
    assert k < |b|;
    if k < |a| {
      assert a[..k] == u[..k] == v[..k] == b[..k];
      assert a[k] < b[k];
    } else {
      assert a == u[..k][..|a|] == v[..k][..|a|] == b[..|a|];
    }
  }

  /** Within a second the later instant reads as larger text exactly when the digits of the earlier
      fraction are not a prefix of the digits of the later one; otherwise the order is reversed,
      because 'Z' is larger than every digit and than the point. */
  lemma FractionOrder(m: nat, n: nat)
    requires m < n < SECOND
    ensures !(FractionDigits(m) <= FractionDigits(n)) ==> Before(Fraction(m) + "Z", Fraction(n) + "Z")
    ensures FractionDigits(m) <= FractionDigits(n) ==> Before(Fraction(n) + "Z", Fraction(m) + "Z")
  {
    Pow10Values();
    DigitsBefore(m, n, 9);
    var k: nat :| PartsAt(Digits(m, 9), Digits(n, 9), k);
    FractionTextOrder(Digits(m, 9), Digits(n, 9), FractionDigits(m), FractionDigits(n), k);
  }

  /** The digits with their point, if there are any. */
  function Pointed(digits: string): string {
    if digits == "" then "" else "." + digits
  }

  lemma FractionTextOrder(u: string, v: string, a: string, b: string, k: nat)
    requires |u| == |v| && AllDigits(u) && AllDigits(v) && PartsAt(u, v, k)
    requires |a| <= |u| && a == u[..|a|] && forall i :: |a| <= i < |u| ==> u[i] == '0'
    requires |b| <= |v| && b == v[..|b|] && forall i :: |b| <= i < |v| ==> v[i] == '0'
    ensures !(a <= b) ==> Before(Pointed(a) + "Z", Pointed(b) + "Z")
    ensures a <= b ==> Before(Pointed(b) + "Z", Pointed(a) + "Z")
  {
    TrimmedOrder(u, v, a, b, k);
    if a <= b {
      PrefixIsLater(a, b);
    } else {
      assert PartsAt(a, b, k);
      BeforeAfterPrefix(".", a, b);
      BeforeExtends("." + a, "." + b, "Z", "Z");
    }
  }

  lemma PrefixIsLater(a: string, b: string)
    requires a <= b && |a| < |b| && AllDigits(b)
    ensures Before(Pointed(b) + "Z", Pointed(a) + "Z")
  {
    var s, t := Pointed(a) + "Z", Pointed(b) + "Z";
    if a == "" {
      assert s == "Z" && t[0] == '.';
      assert PartsAt(t, s, 0);
    } else {
      assert s == "." + a + "Z" && t == "." + b + "Z";
      assert t[..|a| + 1] == "." + b[..|a|] == s[..|a| + 1];
      assert PartsAt(t, s, |a| + 1);
    }
  }

  /** Instants of different seconds compare as text exactly as they do in time. */
  lemma SecondsCompareAsText(a: Instant, b: Instant)
    requires InRange(a) && InRange(b) && a / SECOND < b / SECOND
    ensures TextLeq(Format(a), Format(b)) && !TextLeq(Format(b), Format(a))
  {
    YearHasFourDigits(a);
    YearHasFourDigits(b);
    CivilOfOrder(a / SECOND, b / SECOND);
    StampBefore(CivilOf(a / SECOND), CivilOf(b / SECOND));
    BeforeExtends(Stamp(CivilOf(a / SECOND)), Stamp(CivilOf(b / SECOND)), Fraction(a % SECOND) + "Z",
                  Fraction(b % SECOND) + "Z");
    BeforeDecides(Format(a), Format(b));
  }

  /** Exactly when the text order of two instants agrees with their order in time. */
  lemma TextOrderExact(a: Instant, b: Instant)
    requires InRange(a) && InRange(b) && a < b
    ensures TextLeq(Format(a), Format(b))
       <==> !(a / SECOND == b / SECOND && FractionDigits(a % SECOND) <= FractionDigits(b % SECOND))
    ensures TextLeq(Format(a), Format(b)) <==> !TextLeq(Format(b), Format(a))
  {
    if a / SECOND < b / SECOND {
      SecondsCompareAsText(a, b);
    } else {
      var p := Stamp(CivilOf(a / SECOND));
      var x, y := Fraction(a % SECOND) + "Z", Fraction(b % SECOND) + "Z";
      FractionOrder(a % SECOND, b % SECOND);
      if FractionDigits(a % SECOND) <= FractionDigits(b % SECOND) {
        BeforeAfterPrefix(p, y, x);
        BeforeDecides(Format(b), Format(a));
      } else {
        BeforeAfterPrefix(p, x, y);
        BeforeDecides(Format(a), Format(b));
      }
    }
  }

  /** What a text comparison says about time: the left side is less than a second late. */
  lemma TextLeqBound(a: Instant, b: Instant)
    requires InRange(a) && InRange(b)
    requires TextLeq(Format(a), Format(b))
    ensures a < b + SECOND
  {
    if a / SECOND > b / SECOND {
      SecondsCompareAsText(b, a);
    }
  }

  /** The other side: an instant of an earlier second always compares as earlier. */
  lemma EarlierSecondIsLeq(a: Instant, b: Instant)
    requires InRange(a) && InRange(b) && a + SECOND <= b
    ensures TextLeq(Format(a), Format(b))
  {
    SecondsCompareAsText(a, b);
  }

  /** Text order is not time order: every instant after a whole second, within that second, is stored
      as smaller text than the whole second itself. */
  lemma WholeSecondReadsLast(a: Instant, b: Instant)
    requires InRange(a) && a % SECOND == 0 && a < b < a + SECOND
    ensures TextLeq(Format(b), Format(a)) && !TextLeq(Format(a), Format(b))
  {
    assert a / SECOND == b / SECOND;
    Pow10Values();
    ZeroDigits(a % SECOND, 9);
    TextOrderExact(a, b);
  }

  // ---------- parsing ----------

  function ParseFraction(s: string): Option<nat> {
    if s == "" then Some(0)
    else if s[0] != '.' || !(2 <= |s| <= 10) || !AllDigits(s[1..]) then None
    else Some(DigitsValue(s[1..]) * Pow10(10 - |s|))
  }

  /** parseTimestamp on UTC text: the calendar fields must be in range, the fraction is optional. */
  function Parse(s: string): Option<Instant> {
    if |s| < 20 || s[|s| - 1] != 'Z' then None
    else if s[4] != '-' || s[7] != '-' || s[10] != 'T' || s[13] != ':' || s[16] != ':' then None
    else if !(AllDigits(s[..4]) && AllDigits(s[5..7]) && AllDigits(s[8..10]) && AllDigits(s[11..13])
              && AllDigits(s[14..16]) && AllDigits(s[17..19])) then None
    else
      var c := Civil(DigitsValue(s[..4]), DigitsValue(s[5..7]), DigitsValue(s[8..10]),
                     DigitsValue(s[11..13]), DigitsValue(s[14..16]), DigitsValue(s[17..19]));
      var f := ParseFraction(s[19..|s| - 1]);
      if !c.Valid() || f.None? then None else Some(c.Seconds() * SECOND + f.value)
  }

  lemma FractionRoundTrip(nanos: nat)
    requires nanos < SECOND
    ensures ParseFraction(Fraction(nanos)) == Some(nanos)
  {
    Pow10Values();
    DigitsValueOfDigits(nanos, 9);
    TrimZerosValue(Digits(nanos, 9));
    ZeroDigits(nanos, 9);
    var f := FractionDigits(nanos);
    if f != "" {
      assert Fraction(nanos)[1..] == f;
    }
  }

  lemma FieldSlices(p: string, sep: char, rest: string)
    ensures var s := p + ([sep] + rest); s[..|p|] == p && s[|p|] == sep && s[|p| + 1..] == rest
  {
  }

  lemma DateSlices(c: Civil)
    ensures var s := Stamp(c);
      && s[..4] == Digits(c.year, 4) && s[4] == '-' && s[5..7] == Digits(c.month, 2) && s[7] == '-'
      && s[8..10] == Digits(c.day, 2) && s[10] == 'T' && s[11..] == HourText(c)
  {
    FieldSlices(Digits(c.year, 4), '-', MonthText(c));
    FieldSlices(Digits(c.month, 2), '-', DayText(c));
    FieldSlices(Digits(c.day, 2), 'T', HourText(c));
    hide Digits;
    hide HourText;
    var s := Stamp(c);
    assert s[5..] == MonthText(c) && s[8..] == DayText(c);
  }

  lemma ClockSlices(c: Civil)
    ensures var s := HourText(c);
      && |s| == 8 && s[..2] == Digits(c.hour, 2) && s[2] == ':' && s[3..5] == Digits(c.minute, 2) && s[5] == ':'
      && s[6..8] == Digits(c.second, 2)
  {
    FieldSlices(Digits(c.hour, 2), ':', MinuteText(c));
    FieldSlices(Digits(c.minute, 2), ':', SecondText(c));
    hide Digits;
    var s := HourText(c);
    assert s[3..] == MinuteText(c) && s[6..] == SecondText(c);
  }

  lemma StampSlices(c: Civil, x: string)
    ensures var s := Stamp(c) + x;
      && s[..4] == Digits(c.year, 4) && s[4] == '-' && s[5..7] == Digits(c.month, 2) && s[7] == '-'
      && s[8..10] == Digits(c.day, 2) && s[10] == 'T' && s[11..13] == Digits(c.hour, 2) && s[13] == ':'
      && s[14..16] == Digits(c.minute, 2) && s[16] == ':' && s[17..19] == Digits(c.second, 2) && s[19..] == x
  {
    DateSlices(c);
    ClockSlices(c);
    var d, t := Stamp(c), HourText(c);
    hide Digits;
    hide Stamp;
    hide HourText;
    assert forall i :: 0 <= i < 8 ==> d[11 + i] == d[11..][i];
    assert d[11..13] == t[..2] && d[14..16] == t[3..5] && d[17..19] == t[6..8];
  }

  lemma StampRoundTrip(c: Civil, nanos: nat)
    requires c.Valid() && c.year < 10000 && nanos < SECOND
    ensures Parse(Stamp(c) + (Fraction(nanos) + "Z")) == Some(c.Seconds() * SECOND + nanos)
  {
    hide Fraction;
    hide Stamp;
    hide Digits;
    hide DigitsValue;
    hide ParseFraction;
    hide Parse;
    hide Civil.Seconds;
    var x := Fraction(nanos) + "Z";
    var s := Stamp(c) + x;
    StampSlices(c, x);
    assert s[19..|s| - 1] == Fraction(nanos) by {
      assert s[19..|s| - 1] == x[..|x| - 1];
    }
    assert s[|s| - 1] == x[|x| - 1] == 'Z';
    FieldValues(c);
    FractionRoundTrip(nanos);
    ParseFields(s, c, nanos);
  }

  lemma Recombined(t: Instant)
    ensures (t / SECOND) * SECOND + t % SECOND == t
  {
  }

  /** A stored timestamp reads back as the same instant. */
  lemma FormatRoundTrip(t: Instant)
    requires InRange(t)
    ensures Parse(Format(t)) == Some(t)
  {
    hide CivilOf;
    hide Format;
    hide Parse;
    hide Stamp;
    hide Fraction;
    hide Civil.Seconds;
    YearHasFourDigits(t);
    Recombined(t);
    FormatIs(t);
    StampRoundTrip(CivilOf(t / SECOND), t % SECOND);
  }

  lemma FormatIs(t: Instant)
    ensures Format(t) == Stamp(CivilOf(t / SECOND)) + (Fraction(t % SECOND) + "Z")
  {
    hide CivilOf;
    hide Stamp;
    hide Fraction;
  }

  lemma StampShape(c: Civil)
    ensures Stamp(c) == Digits(c.year, 4) + "-" + Digits(c.month, 2) + "-" + Digits(c.day, 2) + "T"
                        + Digits(c.hour, 2) + ":" + Digits(c.minute, 2) + ":" + Digits(c.second, 2)
  {
    hide Digits;
    var clock := Digits(c.hour, 2) + ":" + Digits(c.minute, 2) + ":" + Digits(c.second, 2);
    assert HourText(c) == clock;
    hide HourText;
    var date := Digits(c.year, 4) + "-" + Digits(c.month, 2) + "-" + Digits(c.day, 2) + "T";
    assert Stamp(c) == date + HourText(c);
    assert date + clock == date + Digits(c.hour, 2) + ":" + Digits(c.minute, 2) + ":" + Digits(c.second, 2);
  }

  lemma FractionShape(nanos: nat)
    ensures var f := Fraction(nanos);
      f == "" || (2 <= |f| <= 10 && f[0] == '.' && AllDigits(f[1..]) && f[|f| - 1] != '0')
  {
    hide Digits;
    hide TrimZeros;
  }

  /** The stored text has the shape of RFC 3339 (section 5.6) in UTC: the calendar fields with their signs, then
      Z, or a point, up to nine digits of which the last is not 0, and Z. */
  lemma FormatShape(t: Instant)
    ensures var c := CivilOf(t / SECOND);
      exists f ::
        && Format(t) == Digits(c.year, 4) + "-" + Digits(c.month, 2) + "-" + Digits(c.day, 2) + "T"
                        + Digits(c.hour, 2) + ":" + Digits(c.minute, 2) + ":" + Digits(c.second, 2) + f + "Z"
        && (f == "" || (2 <= |f| <= 10 && f[0] == '.' && AllDigits(f[1..]) && f[|f| - 1] != '0'))
  {
    FormatIs(t);
    var c := CivilOf(t / SECOND);
    StampShape(c);
    FractionShape(t % SECOND);
    hide CivilOf;
    hide Stamp;
    hide Digits;
    hide Fraction;
    hide AllDigits;
    hide Format;
    var f := Fraction(t % SECOND);
    assert Format(t) == Stamp(c) + f + "Z";
  }

  lemma ParseFields(s: string, c: Civil, nanos: nat)
    requires c.Valid() && |s| >= 20 && s[|s| - 1] == 'Z'
    requires s[4] == '-' && s[7] == '-' && s[10] == 'T' && s[13] == ':' && s[16] == ':'
    requires AllDigits(s[..4]) && AllDigits(s[5..7]) && AllDigits(s[8..10])
    requires AllDigits(s[11..13]) && AllDigits(s[14..16]) && AllDigits(s[17..19])
    requires DigitsValue(s[..4]) == c.year && DigitsValue(s[5..7]) == c.month && DigitsValue(s[8..10]) == c.day
    requires DigitsValue(s[11..13]) == c.hour && DigitsValue(s[14..16]) == c.minute
      && DigitsValue(s[17..19]) == c.second
    requires ParseFraction(s[19..|s| - 1]) == Some(nanos)
    ensures Parse(s) == Some(c.Seconds() * SECOND + nanos)
  {
  }

  lemma FieldValues(c: Civil)
    requires c.Valid() && c.year < 10000
    ensures DigitsValue(Digits(c.year, 4)) == c.year && DigitsValue(Digits(c.month, 2)) == c.month
    ensures DigitsValue(Digits(c.day, 2)) == c.day && DigitsValue(Digits(c.hour, 2)) == c.hour
    ensures DigitsValue(Digits(c.minute, 2)) == c.minute && DigitsValue(Digits(c.second, 2)) == c.second
  {
    Pow10Values();
    DigitsValueOfDigits(c.year, 4);
    DigitsValueOfDigits(c.month, 2);
    DigitsValueOfDigits(c.day, 2);
    DigitsValueOfDigits(c.hour, 2);
    DigitsValueOfDigits(c.minute, 2);
    DigitsValueOfDigits(c.second, 2);
  }

  /** Different instants are stored as different texts. */
  lemma FormatInjective(a: Instant, b: Instant)
    requires InRange(a) && InRange(b) && Format(a) == Format(b)
    ensures a == b
  {
    FormatRoundTrip(a);
    FormatRoundTrip(b);
  }
}
