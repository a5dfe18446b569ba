/**
 Timestamps as the agent writes them, `2006-01-02T15:04:05.999999`: the fraction loses its trailing
 zeros and disappears when it is zero. Manifests are compared as strings; this module proves what
 that comparison means in time.
 */
module Timestamps {
  import opened Text

  /** A civil time. Only whole microseconds are printed. */
  datatype Instant = Instant(year: int, month: int, day: int, hour: int, minute: int, second: int, nano: int)

  predicate LeapYear(year: int) {
    year % 4 == 0 && (year % 100 != 0 || year % 400 == 0)
  }

  function DaysIn(year: int, month: int): int {
    if month == 2 then (if LeapYear(year) then 29 else 28)
    else if month == 4 || month == 6 || month == 9 || month == 11 then 30
    else 31
  }

  /** A time of day on a day of the calendar, in a year of four digits. */
  predicate Valid(t: Instant) {
    && 0 <= t.year <= 9999 && 1 <= t.month <= 12 && 1 <= t.day <= DaysIn(t.year, t.month)
    && 0 <= t.hour < 24 && 0 <= t.minute < 60 && 0 <= t.second < 60 && 0 <= t.nano < 1_000_000_000
  }

  function Micro(t: Instant): int {
    t.nano / 1000
  }

  // ---- time as a number ----

  /** Days from the start of year 0 to the start of `year`. */
  function DaysBeforeYear(year: int): int {
    365 * year + (year + 3) / 4 - (year + 99) / 100 + (year + 399) / 400
  }

  function DaysBeforeMonth(year: int, month: int): int
    requires 1 <= month <= 12
    decreases month
  {
    if month == 1 then 0 else DaysBeforeMonth(year, month - 1) + DaysIn(year, month - 1)
  }

  function Days(t: Instant): int
    requires Valid(t)
  {
    DaysBeforeYear(t.year) + DaysBeforeMonth(t.year, t.month) + t.day - 1
  }

  /** Microseconds since the start of year 0. */
  function Micros(t: Instant): int
    requires Valid(t)
  {
    (((Days(t) * 24 + t.hour) * 60 + t.minute) * 60 + t.second) * 1_000_000 + Micro(t)
  }

  lemma Quarter(n: int)
    requires n >= 0
    ensures (n + 4) / 4 == (n + 3) / 4 + if n % 4 == 0 then 1 else 0
  {
    assert n == 4 * (n / 4) + n % 4;
  }

  lemma Hundredth(n: int)
    requires n >= 0
    ensures (n + 100) / 100 == (n + 99) / 100 + if n % 100 == 0 then 1 else 0
    ensures n % 100 == 0 ==> n % 4 == 0
  {
    var q := n / 100;
    assert n == 100 * q + n % 100;
    assert (n + 100) / 100 == q + 1;
    assert n % 100 == 0 ==> n == 4 * (25 * q);
  }

  lemma FourHundredth(n: int)
    requires n >= 0
    ensures (n + 400) / 400 == (n + 399) / 400 + if n % 400 == 0 then 1 else 0
    ensures n % 400 == 0 ==> n % 100 == 0
  {
    var q := n / 400;
    assert n == 400 * q + n % 400;
    assert (n + 400) / 400 == q + 1;
    assert n % 400 == 0 ==> n == 100 * (4 * q);
  }

  lemma YearLength(year: int)
    requires year >= 0
    ensures DaysBeforeYear(year + 1) == DaysBeforeYear(year) + (if LeapYear(year) then 366 else 365)
  {
    Quarter(year);
    Hundredth(year);
    FourHundredth(year);
  }

  lemma {:induction false} YearsOrdered(a: int, b: int)
    requires 0 <= a < b
    ensures DaysBeforeYear(a) + (if LeapYear(a) then 366 else 365) <= DaysBeforeYear(b)
    decreases b - a
  {
    YearLength(a);
    if a + 1 < b {
      YearsOrdered(a + 1, b);
    }
  }

  lemma {:induction false} MonthsOrdered(year: int, a: int, b: int)
    requires 1 <= a < b <= 12
    ensures DaysBeforeMonth(year, a) + DaysIn(year, a) <= DaysBeforeMonth(year, b)
    decreases b - a
  {
    if a + 1 < b {
      MonthsOrdered(year, a, b - 1);
    }
  }

  lemma WithinYear(t: Instant)
    requires Valid(t)
    ensures 0 <= DaysBeforeMonth(t.year, t.month) + t.day - 1 < if LeapYear(t.year) then 366 else 365
  {
    if t.month < 12 {
      MonthsOrdered(t.year, t.month, 12);
    }
    if t.month > 1 {
      MonthsOrdered(t.year, 1, t.month);
    }
    assert DaysBeforeMonth(t.year, 12) == if LeapYear(t.year) then 335 else 334 by {
      TwelveMonths(t.year);
    }
  }

  lemma TwelveMonths(year: int)
    ensures DaysBeforeMonth(year, 12) == if LeapYear(year) then 335 else 334
  {
    assert DaysBeforeMonth(year, 3) == 31 + DaysIn(year, 2);
    assert DaysBeforeMonth(year, 5) == DaysBeforeMonth(year, 3) + 61;
    assert DaysBeforeMonth(year, 7) == DaysBeforeMonth(year, 5) + 61;
    assert DaysBeforeMonth(year, 9) == DaysBeforeMonth(year, 7) + 62;
    assert DaysBeforeMonth(year, 11) == DaysBeforeMonth(year, 9) + 61;
  }

  /** The order of the fields, most significant first. */
  predicate Before(a: Instant, b: Instant) {
    || a.year < b.year
    || (a.year == b.year && (|| a.month < b.month
                             || (a.month == b.month && (|| a.day < b.day
                                                        || (a.day == b.day && TimeBefore(a, b))))))
  }

  predicate TimeBefore(a: Instant, b: Instant) {
    || a.hour < b.hour
    || (a.hour == b.hour && (|| a.minute < b.minute
                             || (a.minute == b.minute && (|| a.second < b.second
                                                          || (a.second == b.second && Micro(a) < Micro(b))))))
  }

  lemma DaysOrdered(a: Instant, b: Instant)
    requires Valid(a) && Valid(b)
    requires a.year < b.year || (a.year == b.year && (a.month < b.month || (a.month == b.month && a.day < b.day)))
    ensures Days(a) < Days(b)
  {
    WithinYear(a);
    WithinYear(b);
    if a.year < b.year {
      YearsOrdered(a.year, b.year);
    } else if a.month < b.month {
      MonthsOrdered(a.year, a.month, b.month);
    }
  }

  lemma BeforeIsEarlier(a: Instant, b: Instant)
    requires Valid(a) && Valid(b) && Before(a, b)
    ensures Micros(a) < Micros(b)
  {
    if !(a.year == b.year && a.month == b.month && a.day == b.day) {
      DaysOrdered(a, b);
    }
  }

  /** Comparing fields is comparing microseconds. */
  lemma BeforeIffEarlier(a: Instant, b: Instant)
    requires Valid(a) && Valid(b)
    ensures Before(a, b) <==> Micros(a) < Micros(b)
    ensures !Before(a, b) && !Before(b, a) <==> Micros(a) == Micros(b)
  {
    if Before(a, b) {
      BeforeIsEarlier(a, b);
    } else if Before(b, a) {
      BeforeIsEarlier(b, a);
    }
  }

  // ---- printing ----

  function DigitChar(d: int): char
    requires 0 <= d < 10
  {
    ('0' as int + d) as char
  }

  /** `n` in exactly `width` decimal digits. */
  function Digits(n: int, width: nat): (s: string)
    requires n >= 0
    ensures |s| == width
    ensures forall k :: 0 <= k < width ==> '0' <= s[k] <= '9'
  {
    if width == 0 then "" else Digits(n / 10, width - 1) + [DigitChar(n % 10)]
  }

  predicate AllZero(s: string) {
    forall k :: 0 <= k < |s| ==> s[k] == '0'
  }

  /** `s` without its trailing zeros. */
  function Trim(s: string): (r: string)
    ensures r == "" <==> AllZero(s)
  {
    if AllZero(s) then "" else [s[0]] + Trim(s[1..])
  }

  function Fraction(micro: int): string
    requires micro >= 0
  {
    if micro == 0 then "" else "." + Trim(Digits(micro, 6))
  }

  /** How the Python agent prints a fraction: six digits, or nothing. */
  function PythonFraction(micro: int): string
    requires micro >= 0
  {
    if micro == 0 then "" else "." + Digits(micro, 6)
  }

  function TimePart(t: Instant, fraction: string): string
    requires Valid(t)
  {
    Digits(t.hour, 2) + (":" + (Digits(t.minute, 2) + (":" + (Digits(t.second, 2) + fraction))))
  }

  function ToTheSecond(t: Instant, fraction: string): string
    requires Valid(t)
  {
    Digits(t.year, 4) + ("-" + (Digits(t.month, 2) + ("-" + (Digits(t.day, 2) + ("T" + TimePart(t, fraction))))))
  }

  function Format(t: Instant): string
    requires Valid(t)
  {
    ToTheSecond(t, Fraction(Micro(t)))
  }

  function PythonFormat(t: Instant): string
    requires Valid(t)
  {
    ToTheSecond(t, PythonFraction(Micro(t)))
  }

  lemma FieldFirst(field: string, c: char, rest: string)
    ensures var s := field + ([c] + rest);
            |s| == |field| + 1 + |rest| && s[..|field|] == field && s[|field|] == c && s[|field| + 1..] == rest
  {
  }

  /** The places of the fields of a time of day. */
  predicate TimePlaces(s: string, hour: string, minute: string, second: string, fraction: string) {
    && |s| == 8 + |fraction| && s[..2] == hour && s[3..5] == minute && s[6..8] == second && s[8..] == fraction
    && s[2] == ':' && s[5] == ':'
  }

  lemma TimeLayout(t: Instant, fraction: string)
    requires Valid(t)
    ensures TimePlaces(TimePart(t, fraction), Digits(t.hour, 2), Digits(t.minute, 2), Digits(t.second, 2), fraction)
  {
    var s, s1, s2 := TimePart(t, fraction), Digits(t.minute, 2) + (":" + (Digits(t.second, 2) + fraction)),
                     Digits(t.second, 2) + fraction;
    FieldFirst(Digits(t.hour, 2), ':', s1);
    FieldFirst(Digits(t.minute, 2), ':', s2);
    assert s2[..2] == Digits(t.second, 2) && s2[2..] == fraction;
    assert s1[3..5] == s2[..2] && s1[5..] == s2[2..];
    assert s[3..5] == s1[..2] && s[6..8] == s1[3..5] && s[8..] == s1[5..];
  }

  /** Where the fields of a printed time stand: a year of four digits, two for the others, and what separates them. */
  lemma Layout(t: Instant, fraction: string)
    requires Valid(t)
    ensures var s := ToTheSecond(t, fraction);
            && |s| == 19 + |fraction| && s[..4] == Digits(t.year, 4) && s[5..7] == Digits(t.month, 2)
            && s[8..10] == Digits(t.day, 2) && s[4] == '-' && s[7] == '-' && s[10] == 'T'
            && TimePlaces(s[11..], Digits(t.hour, 2), Digits(t.minute, 2), Digits(t.second, 2), fraction)
  {
    var time := TimePart(t, fraction);
    var s2 := Digits(t.day, 2) + ("T" + time);
    var s1 := Digits(t.month, 2) + ("-" + s2);
    var s := ToTheSecond(t, fraction);
    TimeLayout(t, fraction);
    FieldFirst(Digits(t.year, 4), '-', s1);
    FieldFirst(Digits(t.month, 2), '-', s2);
    FieldFirst(Digits(t.day, 2), 'T', time);
    assert s1[3..5] == s2[..2] && s1[5] == s2[2] && s1[6..] == s2[3..];
    assert s[5..7] == s1[..2] && s[7] == s1[2] && s[8..10] == s1[3..5] && s[10] == s1[5] && s[11..] == s1[6..];
  }

  // ---- comparing strings ----

  lemma LessAfter(c: char, x: string, y: string)
    ensures Less([c] + x, [c] + y) <==> Less(x, y)
  {
    assert ([c] + x)[1..] == x && ([c] + y)[1..] == y;
  }

  /** A field of fixed width decides, or leaves it to what follows. */
  lemma {:induction false} FieldLess(a: int, b: int, width: nat, x: string, y: string)
    requires a >= 0 && b >= 0 && Fits(a, width) && Fits(b, width)
    ensures Less(Digits(a, width) + x, Digits(b, width) + y) <==> a < b || (a == b && Less(x, y))
    decreases width
  {
    if width == 0 {
      assert "" + x == x && "" + y == y;
    } else {
      var x', y' := [DigitChar(a % 10)] + x, [DigitChar(b % 10)] + y;
      FieldLess(a / 10, b / 10, width - 1, x', y');
      assert Digits(a, width) + x == Digits(a / 10, width - 1) + x';
      assert Digits(b, width) + y == Digits(b / 10, width - 1) + y';
      assert x'[1..] == x && y'[1..] == y;
      assert Less(x', y') <==> a % 10 < b % 10 || (a % 10 == b % 10 && Less(x, y));
    }
  }

  /** `n` needs at most `width` digits. */
  predicate Fits(n: int, width: nat)
    decreases width
  {
    if width == 0 then n == 0 else Fits(n / 10, width - 1)
  }

  /** Trailing zeros do not matter between fractions printed alike. */
  lemma {:induction false} TrimKeepsOrder(u: string, v: string)
    requires |u| == |v| && (forall k :: 0 <= k < |u| ==> '0' <= u[k] <= '9' && '0' <= v[k] <= '9')
    ensures Less(Trim(u), Trim(v)) <==> Less(u, v)
  {
    if AllZero(u) {
      ZeroIsLeast(u, v);
    } else if AllZero(v) {
      ZeroIsLeast(v, u);
    } else {
      TrimKeepsOrder(u[1..], v[1..]);
      assert Trim(u)[1..] == Trim(u[1..]) && Trim(v)[1..] == Trim(v[1..]);
    }
  }

  lemma LessCons(c: char, x: string, d: char, y: string)
    ensures Less([c] + x, [d] + y) <==> c < d || (c == d && Less(x, y))
    ensures [c] + x == [d] + y <==> c == d && x == y
  {
    assert ([c] + x)[1..] == x && ([d] + y)[1..] == y;
  }

  /** Between a trimmed and a full fraction they matter only when the two are equal. */
  lemma {:induction false} TrimAgainstFull(u: string, v: string)
    requires |u| == |v| && (forall k :: 0 <= k < |u| ==> '0' <= u[k] <= '9' && '0' <= v[k] <= '9')
    ensures Less(Trim(u), v) <==> Less(u, v) || (u == v && Trim(u) != u)
    ensures Less(v, Trim(u)) <==> Less(v, u)
  {
    if AllZero(u) {
      ZeroIsLeast(u, v);
    } else {
      TrimAgainstFull(u[1..], v[1..]);
      var c, d, x, y, t := u[0], v[0], u[1..], v[1..], Trim(u[1..]);
      assert u == [c] + x && v == [d] + y && Trim(u) == [c] + t;
      LessCons(c, t, d, y);
      LessCons(d, y, c, t);
      LessCons(c, x, d, y);
      LessCons(d, y, c, x);
    }
  }

  lemma {:induction false} ZeroIsLeast(u: string, v: string)
    requires |u| == |v| && AllZero(u) && (forall k :: 0 <= k < |v| ==> '0' <= v[k] <= '9')
    ensures Less(u, v) <==> !AllZero(v)
    ensures !Less(v, u)
    ensures AllZero(v) ==> u == v
  {
    if u != "" {
      ZeroIsLeast(u[1..], v[1..]);
      assert AllZero(v) <==> v[0] == '0' && AllZero(v[1..]);
    }
  }

  lemma MicroFits(micro: int)
    requires 0 <= micro < 1_000_000
    ensures Fits(micro, 6)
  {
    assert Fits(micro, 6) == Fits(micro / 10 / 10 / 10, 3);
    assert Fits(micro / 10 / 10 / 10, 3) == Fits(micro / 10 / 10 / 10 / 10 / 10 / 10, 0);
  }

  lemma {:induction false} ZeroDigits(n: int, width: nat)
    requires n >= 0 && Fits(n, width)
    ensures AllZero(Digits(n, width)) <==> n == 0
    ensures width > 0 ==> (Trim(Digits(n, width)) != Digits(n, width) <==> n % 10 == 0)
    decreases width
  {
    if width > 0 {
      ZeroDigits(n / 10, width - 1);
      var s, rest := Digits(n, width), Digits(n / 10, width - 1);
      assert s[width - 1] == DigitChar(n % 10) && s[..width - 1] == rest;
      assert AllZero(s) <==> AllZero(rest) && s[width - 1] == '0' by {
        assert forall k :: 0 <= k < width - 1 ==> s[k] == rest[k];
      }
      TrimShortens(s);
    }
  }

  lemma {:induction false} TrimShortens(s: string)
    requires s != ""
    ensures Trim(s) != s <==> s[|s| - 1] == '0'
  {
    if !AllZero(s) {
      if |s| > 1 {
        TrimShortens(s[1..]);
        assert s == [s[0]] + s[1..];
      } else {
        assert s[1..] == "";
      }
    }
  }

  lemma FractionLess(a: int, b: int)
    requires 0 <= a < 1_000_000 && 0 <= b < 1_000_000
    ensures Less(Fraction(a), Fraction(b)) <==> a < b
    ensures Less(Fraction(a), PythonFraction(b)) <==> a < b || (a == b && a != 0 && a % 10 == 0)
    ensures Less(PythonFraction(b), Fraction(a)) <==> b < a
  {
    MicroFits(a);
    MicroFits(b);
    var u, v := Digits(a, 6), Digits(b, 6);
    assert u + "" == u && v + "" == v;
    FieldLess(a, b, 6, "", "");
    FieldLess(b, a, 6, "", "");
    TrimKeepsOrder(u, v);
    TrimAgainstFull(u, v);
    ZeroDigits(a, 6);
    ZeroDigits(b, 6);
    LessAfter('.', Trim(u), Trim(v));
    LessAfter('.', Trim(u), v);
    LessAfter('.', v, Trim(u));
  }

  lemma TimeLess(a: Instant, b: Instant, x: string, y: string)
    requires Valid(a) && Valid(b) && Micro(a) == Micro(b) == 0
    ensures Less(TimePart(a, x), TimePart(b, y)) <==>
              TimeBefore(a, b) || (a.hour == b.hour && a.minute == b.minute && a.second == b.second && Less(x, y))
  {
    var a2, b2 := Digits(a.second, 2) + x, Digits(b.second, 2) + y;
    var a1, b1 := Digits(a.minute, 2) + (":" + a2), Digits(b.minute, 2) + (":" + b2);
    FieldLess(a.second, b.second, 2, x, y);
    LessAfter(':', a2, b2);
    FieldLess(a.minute, b.minute, 2, ":" + a2, ":" + b2);
    LessAfter(':', a1, b1);
    FieldLess(a.hour, b.hour, 2, ":" + a1, ":" + b1);
  }

  lemma SecondsLess(a: Instant, b: Instant, x: string, y: string)
    requires Valid(a) && Valid(b) && Micro(a) == Micro(b) == 0
    ensures Less(ToTheSecond(a, x), ToTheSecond(b, y)) <==>
              Before(a, b) || (a.(nano := b.nano) == b && Less(x, y))
  {
    var a3, b3 := TimePart(a, x), TimePart(b, y);
    var a2, b2 := Digits(a.day, 2) + ("T" + a3), Digits(b.day, 2) + ("T" + b3);
    var a1, b1 := Digits(a.month, 2) + ("-" + a2), Digits(b.month, 2) + ("-" + b2);
    TimeLess(a, b, x, y);
    LessAfter('T', a3, b3);
    FieldLess(a.day, b.day, 2, "T" + a3, "T" + b3);
    LessAfter('-', a2, b2);
    FieldLess(a.month, b.month, 2, "-" + a2, "-" + b2);
    LessAfter('-', a1, b1);
    FieldLess(a.year, b.year, 4, "-" + a1, "-" + b1);
  }

  /** The second in which `t` lies. */
  function Second(t: Instant): Instant {
    t.(nano := 0)
  }

  /** Between times the agent itself printed, string order is time order. */
  lemma StringOrderIsTimeOrder(a: Instant, b: Instant)
    requires Valid(a) && Valid(b)
    ensures Less(Format(a), Format(b)) <==> Micros(a) < Micros(b)
  {
    SecondsLess(Second(a), Second(b), Fraction(Micro(a)), Fraction(Micro(b)));
    FractionLess(Micro(a), Micro(b));
    BeforeIffEarlier(a, b);
  }

  /** Against a time the Python agent printed, string order is time order except between equal
      times whose fraction ends in a zero, where the shorter string comes first. */
  lemma StringOrderAgainstPython(a: Instant, b: Instant)
    requires Valid(a) && Valid(b)
    ensures Less(Format(a), PythonFormat(b)) <==>
              Micros(a) < Micros(b) || (Micros(a) == Micros(b) && Micro(a) != 0 && Micro(a) % 10 == 0)
    ensures Less(PythonFormat(b), Format(a)) <==> Micros(b) < Micros(a)
  {
    SecondsLess(Second(a), Second(b), Fraction(Micro(a)), PythonFraction(Micro(b)));
    SecondsLess(Second(b), Second(a), PythonFraction(Micro(b)), Fraction(Micro(a)));
    FractionLess(Micro(a), Micro(b));
    BeforeIffEarlier(a, b);
    BeforeIffEarlier(b, a);
  }
}
