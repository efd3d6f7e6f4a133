/** The time strings that SQL compares: UTC, nanoseconds, trailing zeros dropped. */
module TimeText {
  import opened Texts
  import opened Stamps

  /** A UTC instant by its calendar fields. */
  datatype Instant = Instant(year: nat, month: nat, day: nat, hour: nat, minute: nat, second: nat, nanos: nat)

  predicate Leap(y: nat) {
    y % 4 == 0 && (y % 100 != 0 || y % 400 == 0)
  }

  function DaysIn(y: nat, m: nat): nat {
    if m == 2 then (if Leap(y) then 29 else 28)
    else if m == 4 || m == 6 || m == 9 || m == 11 then 30
    else 31
  }

  predicate Valid(t: Instant) {
    && 1 <= t.year <= 9999 && 1 <= t.month <= 12 && 1 <= t.day <= DaysIn(t.year, t.month)
    && t.hour < 24 && t.minute < 60 && t.second < 60 && t.nanos < BILLION
  }

  // ---- the time line ----

  function DaysBeforeYear(y: nat): int {
    365 * (y - 1) + (y - 1) / 4 - (y - 1) / 100 + (y - 1) / 400
  }

  function DaysBeforeMonth(y: nat, m: nat): nat {
    if m <= 1 then 0 else DaysBeforeMonth(y, m - 1) + DaysIn(y, m - 1)
  }

  function Days(t: Instant): int {
    DaysBeforeYear(t.year) + DaysBeforeMonth(t.year, t.month) + t.day - 1
  }

  /** Whole seconds since the start of year one. */
  function Seconds(t: Instant): int {
    ((Days(t) * 24 + t.hour) * 60 + t.minute) * 60 + t.second
  }

  function Nanos(t: Instant): int {
    Seconds(t) * BILLION + t.nanos
  }

  lemma NextQuotient(x: nat, d: nat)
    requires x >= 1 && d >= 1
    ensures x / d == (x - 1) / d + (if x % d == 0 then 1 else 0)
  {
    var q, r := (x - 1) / d, (x - 1) % d;
    assert x == q * d + (r + 1);
    if r + 1 == d {
      assert x == (q + 1) * d + 0;
      Quotient(x, d, q + 1, 0);
    } else {
      Quotient(x, d, q, r + 1);
    }
  }

  lemma Quotient(x: nat, d: nat, q: nat, r: nat)
    requires d >= 1 && r < d && x == q * d + r
    ensures x / d == q && x % d == r
  {
    var s := x / d;
    assert s < q ==> (s + 1) * d <= q * d;
    assert s > q ==> (q + 1) * d <= s * d;
  }

  lemma YearLength(y: nat)
    requires y >= 1
    ensures DaysBeforeYear(y + 1) == DaysBeforeYear(y) + (if Leap(y) then 366 else 365)
  {
    NextQuotient(y, 4);
    NextQuotient(y, 100);
    NextQuotient(y, 400);
    Multiples(y);
  }

  lemma Multiples(y: nat)
    ensures y % 400 == 0 ==> y % 100 == 0
    ensures y % 100 == 0 ==> y % 4 == 0
  {
    if y % 400 == 0 { Quotient(y, 100, 4 * (y / 400), 0); }
    if y % 100 == 0 { Quotient(y, 4, 25 * (y / 100), 0); }
  }

  lemma {:induction false} YearsGrow(y: nat, z: nat)
    requires 1 <= y < z
    ensures DaysBeforeYear(y + 1) <= DaysBeforeYear(z)
    decreases z - y
  {
    if y + 1 < z {
      YearLength(y + 1);
      YearsGrow(y + 1, z);
    }
  }

  lemma {:induction false} MonthsGrow(y: nat, m: nat, n: nat)
    requires 1 <= m < n
    ensures DaysBeforeMonth(y, m) + DaysIn(y, m) <= DaysBeforeMonth(y, n)
  {
    if m < n - 1 { MonthsGrow(y, m, n - 1); }
  }

  lemma MonthsFitYear(y: nat, m: nat)
    requires 1 <= m <= 12
    ensures DaysBeforeMonth(y, m) + DaysIn(y, m) <= if Leap(y) then 366 else 365
  {
    assert DaysBeforeMonth(y, 2) == 31;
    assert DaysBeforeMonth(y, 4) == DaysBeforeMonth(y, 3) + 31 == DaysBeforeMonth(y, 2) + DaysIn(y, 2) + 31;
    assert DaysBeforeMonth(y, 6) == DaysBeforeMonth(y, 5) + 31 == DaysBeforeMonth(y, 4) + 61;
    assert DaysBeforeMonth(y, 8) == DaysBeforeMonth(y, 7) + 31 == DaysBeforeMonth(y, 6) + 61;
    assert DaysBeforeMonth(y, 10) == DaysBeforeMonth(y, 9) + 30 == DaysBeforeMonth(y, 8) + 61;
    assert DaysBeforeMonth(y, 12) == DaysBeforeMonth(y, 11) + 30 == DaysBeforeMonth(y, 10) + 61;
    if m < 12 { MonthsGrow(y, m, 12); }
  }

  /** Different dates lie on different days, in calendar order. */
  lemma DaysOrdered(a: Instant, b: Instant)
    requires Valid(a) && Valid(b)
    requires a.year < b.year || (a.year == b.year && (a.month < b.month || (a.month == b.month && a.day < b.day)))
    ensures Days(a) < Days(b)
  {
    hide Leap, DaysBeforeYear, DaysIn, DaysBeforeMonth;
    if a.year < b.year {
      MonthsFitYear(a.year, a.month);
      YearLength(a.year);
      YearsGrow(a.year, b.year);
    } else if a.month < b.month {
      MonthsGrow(a.year, a.month, b.month);
    }
  }

  // ---- the format ----

  /** The fraction digits that are printed. */
  function Fraction(t: Instant): string {
    FractionOf(t.nanos)
  }

  function Date(t: Instant): string {
    Digits(t.year, 4) + "-" + Digits(t.month, 2) + "-" + Digits(t.day, 2)
  }

  function TimeOfDay(t: Instant): string {
    Digits(t.hour, 2) + ":" + Digits(t.minute, 2) + ":" + Digits(t.second, 2)
  }

  function Clock(t: Instant): string {
    Date(t) + "T" + TimeOfDay(t)
  }

  function Tail(t: Instant): string {
    TailOf(t.nanos)
  }

  /** The zero time, which is the first instant of year one. */
  const ZERO: Instant := Instant(1, 1, 1, 0, 0, 0, 0)

  /** The text of a time; the zero time is empty. */
  function Text(t: Instant): string {
    if t == ZERO then "" else Clock(t) + Tail(t)
  }

  predicate SameSecond(a: Instant, b: Instant) {
    a == b.(nanos := a.nanos)
  }

  // ---- text order against time order ----

  predicate EarlierSecond(a: Instant, b: Instant) {
    || a.year < b.year
    || (a.year == b.year && (a.month < b.month
    || (a.month == b.month && (a.day < b.day
    || (a.day == b.day && (a.hour < b.hour
    || (a.hour == b.hour && (a.minute < b.minute
    || (a.minute == b.minute && a.second < b.second)))))))))
  }

  /** Whole seconds in calendar order are whole seconds in time order. */
  lemma SecondsOrdered(a: Instant, b: Instant)
    requires Valid(a) && Valid(b)
    ensures EarlierSecond(a, b) <==> Seconds(a) < Seconds(b)
    ensures SameSecond(a, b) <==> Seconds(a) == Seconds(b)
  {
    if a.year != b.year || a.month != b.month || a.day != b.day {
      if EarlierSecond(a, b) { DaysOrdered(a, b); } else { DaysOrdered(b, a); }
    }
    hide Days;
  }

  lemma Powers()
    ensures Ten(2) == 100 && Ten(4) == 10000
  {
    assert Ten(2) == 100;
    assert Ten(4) == 100 * Ten(2);
  }

  lemma DatesCompare(a: Instant, b: Instant, x: string, y: string)
    requires Valid(a) && Valid(b) && EarlierSecond(a, b)
    requires a.year != b.year || a.month != b.month || a.day != b.day
    ensures Less(Date(a) + x, Date(b) + y) && !Less(Date(b) + y, Date(a) + x)
  {
    hide Less, Digits, Ten;
    Powers();
    var c, d := Date(a) + x, Date(b) + y;
    var p, n, m, w := "", a.year, b.year, 4;
    if a.year != b.year {
    } else if a.month != b.month {
      p, n, m, w := Digits(a.year, 4) + "-", a.month, b.month, 2;
    } else {
      p, n, m, w := Digits(a.year, 4) + "-" + Digits(a.month, 2) + "-", a.day, b.day, 2;
    }
    var k := |p| + w;
    assert c == p + Digits(n, w) + c[k..];
    assert d == p + Digits(m, w) + d[k..];
    FieldLess(p, n, m, w, c[k..], d[k..]);
  }

  lemma TimesCompare(q: string, a: Instant, b: Instant, x: string, y: string)
    requires Valid(a) && Valid(b) && EarlierSecond(a, b)
    requires a.year == b.year && a.month == b.month && a.day == b.day
    ensures Less(q + TimeOfDay(a) + x, q + TimeOfDay(b) + y) && !Less(q + TimeOfDay(b) + y, q + TimeOfDay(a) + x)
  {
    hide Less, Digits, Ten;
    Powers();
    var c, d := q + TimeOfDay(a) + x, q + TimeOfDay(b) + y;
    var p, n, m := q, a.hour, b.hour;
    if a.hour != b.hour {
    } else if a.minute != b.minute {
      p, n, m := q + Digits(a.hour, 2) + ":", a.minute, b.minute;
    } else {
      p, n, m := q + Digits(a.hour, 2) + ":" + Digits(a.minute, 2) + ":", a.second, b.second;
    }
    var k := |p| + 2;
    assert c == p + Digits(n, 2) + c[k..];
    assert d == p + Digits(m, 2) + d[k..];
    FieldLess(p, n, m, 2, c[k..], d[k..]);
  }

  /** Texts of different whole seconds compare like the times. */
  lemma ClocksCompare(a: Instant, b: Instant, x: string, y: string)
    requires Valid(a) && Valid(b) && EarlierSecond(a, b)
    ensures Less(Clock(a) + x, Clock(b) + y) && !Less(Clock(b) + y, Clock(a) + x)
  {
    hide Less, Date, TimeOfDay;
    var u, v := "T" + TimeOfDay(a) + x, "T" + TimeOfDay(b) + y;
    if a.year != b.year || a.month != b.month || a.day != b.day {
      assert Clock(a) + x == Date(a) + u && Clock(b) + y == Date(b) + v;
      DatesCompare(a, b, u, v);
    } else {
      assert Date(a) == Date(b) by { SameDate(a, b); }
      assert Clock(a) + x == (Date(a) + "T") + TimeOfDay(a) + x && Clock(b) + y == (Date(a) + "T") + TimeOfDay(b) + y;
      TimesCompare(Date(a) + "T", a, b, x, y);
    }
  }

  lemma SameDate(a: Instant, b: Instant)
    requires a.year == b.year && a.month == b.month && a.day == b.day
    ensures Date(a) == Date(b)
  {
  }

  /** The one case in which text order inverts time order: both in one whole second, and the
      printed fraction of the earlier is cut short inside that of the later. */
  predicate Inverted(a: Instant, b: Instant) {
    a != ZERO && SameSecond(a, b) && IsPrefix(Fraction(a), Fraction(b))
  }

  lemma NotBeforeZero(t: Instant)
    requires Valid(t)
    ensures Nanos(t) >= 0
  {
  }

  lemma ZeroIsFirst(t: Instant)
    requires t == ZERO
    ensures Nanos(t) == 0
  {
    hide DaysBeforeYear, DaysBeforeMonth, Nanos, Seconds;
    FirstDay(t.year, t.month);
    assert Days(t) == 0;
    StartOfDayZero(t);
  }

  lemma StartOfDayZero(t: Instant)
    requires Days(t) == 0 && t.hour == 0 && t.minute == 0 && t.second == 0 && t.nanos == 0
    ensures Nanos(t) == 0
  {
    hide Days;
  }

  lemma FirstDay(y: nat, m: nat)
    requires y == 1 && m == 1
    ensures DaysBeforeYear(y) == 0 && DaysBeforeMonth(y, m) == 0
  {
  }

  lemma SameMoment(a: Instant, b: Instant)
    requires Valid(a) && Valid(b) && Nanos(a) == Nanos(b)
    ensures a == b
  {
    hide Days;
    SecondsOrdered(a, b);
  }

  /** Earlier times have smaller texts, except exactly when inverted; then they have larger ones. */
  lemma TextOrder(a: Instant, b: Instant)
    requires Valid(a) && Valid(b) && Nanos(a) < Nanos(b)
    ensures Less(Text(a), Text(b)) <==> !Inverted(a, b)
    ensures Less(Text(b), Text(a)) <==> Inverted(a, b)
  {
    hide Less, Clock, TailOf, Seconds, FractionOf;
    NotBeforeZero(a);
    if b == ZERO { ZeroIsFirst(b); }
    if a == ZERO {
      assert |Text(b)| > 0 by { ClockLength(b); }
      EmptyFirst(Text(b));
    } else {
      SecondsOrdered(a, b);
      if EarlierSecond(a, b) {
        ClocksCompare(a, b, Tail(a), Tail(b));
      } else {
        SecondsOrdered(b, a);
        assert Clock(a) == Clock(b) by { SameClock(a, b); }
        TailsCompare(Clock(a), a.nanos, b.nanos);
      }
    }
  }

  lemma SameClock(a: Instant, b: Instant)
    requires SameSecond(a, b)
    ensures Clock(a) == Clock(b)
  {
  }

  lemma ClockLength(t: Instant)
    ensures |Clock(t)| == 19
  {
  }

  predicate Close(a: Instant, b: Instant) {
    SameSecond(a, b) && Nanos(a) - Nanos(b) < BILLION && Nanos(b) - Nanos(a) < BILLION
  }

  /** A cutoff compared as text misjudges only times within one second of it, and never when
      the two lie in different whole seconds. */
  lemma CutoffError(t: Instant, cutoff: Instant)
    requires Valid(t) && Valid(cutoff)
    ensures Less(Text(t), Text(cutoff)) != (Nanos(t) < Nanos(cutoff)) ==> Close(t, cutoff)
    ensures Text(t) == Text(cutoff) <==> t == cutoff
  {
    hide Less, Text, Seconds, Fraction, Inverted;
    if Nanos(t) < Nanos(cutoff) {
      TextOrder(t, cutoff);
      if Inverted(t, cutoff) { InvertedIsClose(t, cutoff); }
    } else if Nanos(t) > Nanos(cutoff) {
      TextOrder(cutoff, t);
      if Inverted(cutoff, t) { InvertedIsClose(cutoff, t); }
    } else {
      SameMoment(t, cutoff);
    }
    IrreflexiveText(Text(t));
  }

  lemma InvertedIsClose(a: Instant, b: Instant)
    requires Valid(a) && Valid(b) && Inverted(a, b)
    ensures Close(a, b) && Close(b, a)
  {
    hide Fraction, Days;
    SecondsOrdered(a, b);
  }

  /** The order of stamps, which the statements of the store compare by, is the order of the
      texts of the instants. */
  lemma StampsAreTexts(a: Instant, b: Instant)
    requires Valid(a) && Valid(b) && a != ZERO && b != ZERO
    ensures Less(Text(a), Text(b)) <==> Sooner(Nanos(a), Nanos(b))
  {
    hide Less, Text, Seconds, Inverted, CutInside;
    IrreflexiveText(Text(a));
    if Nanos(a) < Nanos(b) {
      TextOrder(a, b);
      InvertedIsSwapped(a, b);
    } else if Nanos(b) < Nanos(a) {
      TextOrder(b, a);
      InvertedIsSwapped(b, a);
    } else {
      SameMoment(a, b);
    }
  }

  lemma InvertedIsSwapped(a: Instant, b: Instant)
    requires Valid(a) && Valid(b) && a != ZERO && Nanos(a) < Nanos(b)
    ensures Inverted(a, b) <==> Swapped(Nanos(a), Nanos(b))
    ensures Swapped(Nanos(a), Nanos(b)) <==> Swapped(Nanos(b), Nanos(a))
  {
    hide Seconds, FractionOf, IsPrefix;
    SecondsOrdered(a, b);
    SecondOf(Seconds(a), a.nanos);
    SecondOf(Seconds(b), b.nanos);
  }

  lemma SecondOf(seconds: int, nanos: nat)
    requires nanos < BILLION
    ensures (seconds * BILLION + nanos) / BILLION == seconds && (seconds * BILLION + nanos) % BILLION == nanos
  {
  }

  // ---- an example ----

  const LEAP_DAY: Instant := Instant(2024, 2, 29, 23, 5, 58, 500_000_000)

  lemma LastDigit(n: nat, w: nat)
    ensures Digits(n, w + 1) == Digits(n / 10, w) + [Digit(n % 10)] && Digits(n, 0) == ""
  {
  }

  lemma TwoDigits(n: nat)
    requires n < 100
    ensures Digits(n, 2) == [Digit(n / 10), Digit(n % 10)]
  {
    hide Digits;
    LastDigit(n, 1);
    LastDigit(n / 10, 0);
  }

  lemma FourDigits(n: nat)
    requires n < 10000
    ensures Digits(n, 4) == [Digit(n / 10 / 10 / 10), Digit(n / 10 / 10 % 10), Digit(n / 10 % 10), Digit(n % 10)]
  {
    hide Digits;
    LastDigit(n, 3);
    LastDigit(n / 10, 2);
    TwoDigits(n / 10 / 10);
  }

  lemma DateText()
    ensures Date(LEAP_DAY) == "2024-02-29"
  {
    hide Digits;
    FourDigits(2024);
    TwoDigits(2);
    TwoDigits(29);
    assert Digits(2024, 4) == "2024" && Digits(2, 2) == "02" && Digits(29, 2) == "29";
  }

  lemma TimeOfDayText()
    ensures TimeOfDay(LEAP_DAY) == "23:05:58"
  {
    hide Digits;
    TwoDigits(23);
    TwoDigits(5);
    TwoDigits(58);
    assert Digits(23, 2) == "23" && Digits(5, 2) == "05" && Digits(58, 2) == "58";
  }

  /** A time as it is stored, with and without a fraction. */
  lemma LeapDayText()
    ensures Text(LEAP_DAY) == "2024-02-29T23:05:58.5Z"
    ensures Text(LEAP_DAY.(nanos := 0)) == "2024-02-29T23:05:58Z"
  {
    hide Date, TimeOfDay, FractionOf;
    DateText();
    TimeOfDayText();
    WithNanos(LEAP_DAY, 0);
    HalfSecond();
  }

  lemma WithNanos(t: Instant, nanos: nat)
    ensures Date(t.(nanos := nanos)) == Date(t) && TimeOfDay(t.(nanos := nanos)) == TimeOfDay(t)
  {
    hide Digits;
  }

  /** The first of March begins where the leap day ends. */
  lemma LeapDayEnds()
    ensures Nanos(Instant(2024, 3, 1, 0, 0, 0, 0)) == Nanos(Instant(2024, 2, 29, 23, 59, 59, 999_999_999)) + 1
  {
    assert DaysBeforeMonth(2024, 3) == DaysBeforeMonth(2024, 2) + 29;
  }

  lemma HalfSecond()
    ensures FractionOf(500_000_000) == "5" && FractionOf(0) == ""
  {
    hide Digits, Trimmed;
    HalfDigits();
    NoDigits(9);
    ZerosTrimmed(Digits(0, 9), 0);
    ZerosTrimmed("500000000", 1);
  }

  lemma {:induction false} ZerosTrimmed(s: string, k: nat)
    requires k <= |s| && (k > 0 ==> s[k - 1] != '0') && forall i :: k <= i < |s| ==> s[i] == '0'
    ensures Trimmed(s) == s[..k]
  {
    if k < |s| {
      ZerosTrimmed(s[..|s| - 1], k);
      assert s[..|s| - 1][..k] == s[..k];
    }
  }

  lemma HalfDigits()
    ensures Digits(500_000_000, 9) == "500000000"
  {
    hide Digits;
    LastDigit(5, 0);
    LastDigit(50, 1);
    LastDigit(500, 2);
    LastDigit(5_000, 3);
    LastDigit(50_000, 4);
    LastDigit(500_000, 5);
    LastDigit(5_000_000, 6);
    LastDigit(50_000_000, 7);
    LastDigit(500_000_000, 8);
  }

  lemma {:induction false} NoDigits(w: nat)
    ensures forall i :: 0 <= i < w ==> Digits(0, w)[i] == '0'
  {
    if w > 0 { NoDigits(w - 1); }
  }
}
