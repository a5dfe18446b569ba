/** The lock file line `STATUS|MACHINE|TIMESTAMP`, printed and parsed. */
module LockLine {
  import opened Text
  import opened Timestamps

  datatype LockInfo = LockInfo(status: string, machine: string, time: Instant)

  function Print(l: LockInfo): string
    requires Valid(l.time)
  {
    l.status + "|" + l.machine + "|" + Format(l.time)
  }

  // ---- reading numbers and times ----

  predicate IsDigit(c: char) {
    '0' <= c <= '9'
  }

  predicate AllDigits(s: string) {
    forall k :: 0 <= k < |s| ==> IsDigit(s[k])
  }

  function Value(s: string): (n: int)
    requires AllDigits(s)
    ensures n >= 0
  {
    if s == "" then 0 else Value(s[..|s| - 1]) * 10 + (s[|s| - 1] as int - '0' as int)
  }

  /** A number of exactly `width` digits between `lo` and `hi`, and what follows it. */
  function Number(s: string, width: nat, lo: int, hi: int): Option<(int, string)> {
    if |s| >= width && AllDigits(s[..width]) && lo <= Value(s[..width]) <= hi
    then Some((Value(s[..width]), s[width..]))
    else None
  }

  /** Hours may be written with one digit. */
  function HourNumber(s: string): Option<(int, string)> {
    if |s| >= 2 && IsDigit(s[0]) && !IsDigit(s[1]) then Number(s, 1, 0, 23)
    else if |s| == 1 then Number(s, 1, 0, 23)
    else Number(s, 2, 0, 23)
  }

  function After(s: string, c: char): Option<string> {
    if s != "" && s[0] == c then Some(s[1..]) else None
  }

  /** The leading digits of `s`. */
  function DigitRun(s: string): (r: string)
    ensures AllDigits(r) && r <= s
  {
    if s != "" && IsDigit(s[0]) then [s[0]] + DigitRun(s[1..]) else ""
  }

  function PowerOfTen(k: nat): int {
    if k == 0 then 1 else 10 * PowerOfTen(k - 1)
  }

  /** The first `places` digits of a fraction, as a count of the last place. */
  function Scaled(s: string, places: nat): int
    requires AllDigits(s)
  {
    if s == "" || places == 0 then 0
    else (s[0] as int - '0' as int) * PowerOfTen(places - 1) + Scaled(s[1..], places - 1)
  }

  /** An optional fraction of any number of digits, after a period or a comma, that ends the line. */
  function Nanos(s: string): Option<int> {
    if s == "" then Some(0)
    else if |s| >= 2 && (s[0] == '.' || s[0] == ',') && IsDigit(s[1]) && DigitRun(s[1..]) == s[1..]
    then Some(Scaled(s[1..], 9))
    else None
  }

  function ParseTimeOfDay(s: string): Option<(int, int, int, int)> {
    match HourNumber(s)
    case None => None
    case Some((hour, s1)) =>
      match After(s1, ':')
      case None => None
      case Some(s2) =>
        match Number(s2, 2, 0, 59)
        case None => None
        case Some((minute, s3)) =>
          match After(s3, ':')
          case None => None
          case Some(s4) =>
            match Number(s4, 2, 0, 59)
            case None => None
            case Some((second, s5)) =>
              match Nanos(s5)
              case None => None
              case Some(nano) => Some((hour, minute, second, nano))
  }

  function ParseTime(s: string): Option<Instant> {
    match Number(s, 4, 0, 9999)
    case None => None
    case Some((year, s1)) =>
      match After(s1, '-')
      case None => None
      case Some(s2) =>
        match Number(s2, 2, 1, 12)
        case None => None
        case Some((month, s3)) =>
          match After(s3, '-')
          case None => None
          case Some(s4) =>
            match Number(s4, 2, 1, DaysIn(year, month))
            case None => None
            case Some((day, s5)) =>
              match After(s5, 'T')
              case None => None
              case Some(s6) =>
                match ParseTimeOfDay(s6)
                case None => None
                case Some((hour, minute, second, nano)) => Some(Instant(year, month, day, hour, minute, second, nano))
  }

  // ---- reading the line ----

  /** What stands before the first bar, and after it. */
  function Cut(s: string): (r: Option<(string, string)>)
    ensures r.Some? ==> '|' !in r.value.0 && s == r.value.0 + "|" + r.value.1
  {
    if s == "" then None
    else if s[0] == '|' then Some(("", s[1..]))
    else
      match Cut(s[1..])
      case None => None
      case Some((head, tail)) => Some(([s[0]] + head, tail))
  }

  function Parse(data: string): Option<LockInfo> {
    match Cut(TrimSpace(data))
    case None => None
    case Some((status, rest)) =>
      match Cut(rest)
      case None => None
      case Some((machine, stamp)) =>
        match ParseTime(stamp)
        case None => None
        case Some(time) => Some(LockInfo(status, machine, time))
  }

  // ---- parsing undoes printing ----

  lemma {:induction false} ValueOfDigits(n: int, width: nat)
    requires n >= 0 && Fits(n, width)
    ensures Value(Digits(n, width)) == n
    decreases width
  {
    if width > 0 {
      ValueOfDigits(n / 10, width - 1);
      assert Digits(n, width)[..width - 1] == Digits(n / 10, width - 1);
    }
  }

  lemma NumberOfDigits(n: int, width: nat, lo: int, hi: int, rest: string)
    requires n >= 0 && Fits(n, width) && lo <= n <= hi
    ensures Number(Digits(n, width) + rest, width, lo, hi) == Some((n, rest))
  {
    var s := Digits(n, width) + rest;
    assert s[..width] == Digits(n, width) && s[width..] == rest;
    ValueOfDigits(n, width);
  }

  lemma AfterPrefix(c: char, rest: string)
    ensures After([c] + rest, c) == Some(rest)
  {
    assert ([c] + rest)[1..] == rest;
  }

  lemma Regroup(tens: int, ones: int, unit: int)
    ensures tens * (10 * unit) + ones * unit == (10 * tens + ones) * unit
  {
  }

  lemma {:induction false} ScaledDigits(n: int, width: nat, places: nat)
    requires n >= 0 && Fits(n, width) && width <= places
    ensures Scaled(Digits(n, width), places) == n * PowerOfTen(places - width)
    decreases width
  {
    if width > 0 {
      var front, last := Digits(n / 10, width - 1), [DigitChar(n % 10)];
      ScaledDigits(n / 10, width - 1, places);
      ScaledAppend(front, last, places);
      var unit := PowerOfTen(places - width);
      assert PowerOfTen(places - width + 1) == 10 * unit;
      assert last[1..] == "";
      assert Scaled(last, places - width + 1) == n % 10 * unit;
      Regroup(n / 10, n % 10, unit);
    }
  }

  lemma {:induction false} ScaledAppend(a: string, b: string, places: nat)
    requires AllDigits(a) && AllDigits(b) && |a| <= places
    ensures AllDigits(a + b) && Scaled(a + b, places) == Scaled(a, places) + Scaled(b, places - |a|)
  {
    if a == "" {
      assert a + b == b;
    } else {
      ScaledAppend(a[1..], b, places - 1);
      assert (a + b)[1..] == a[1..] + b;
    }
  }

  /** Trailing zeros add nothing to a fraction. */
  lemma {:induction false} ScaledTrim(s: string, places: nat)
    requires AllDigits(s)
    ensures AllDigits(Trim(s)) && Scaled(Trim(s), places) == Scaled(s, places)
  {
    if AllZero(s) {
      ScaledZeros(s, places);
    } else {
      var rest := Trim(s[1..]);
      ScaledTrim(s[1..], if places > 0 then places - 1 else 0);
      assert Trim(s) == [s[0]] + rest && Trim(s)[1..] == rest;
    }
  }

  lemma {:induction false} ScaledZeros(s: string, places: nat)
    requires AllZero(s)
    ensures AllDigits(s) && Scaled(s, places) == 0
  {
    if s != "" && places > 0 {
      ScaledZeros(s[1..], places - 1);
    }
  }

  lemma {:induction false} RunOfDigits(s: string)
    requires AllDigits(s)
    ensures DigitRun(s) == s
  {
    if s != "" {
      RunOfDigits(s[1..]);
      assert [s[0]] + s[1..] == s;
    }
  }

  lemma NanosOfFraction(micro: int)
    requires 0 <= micro < 1_000_000
    ensures Nanos(Fraction(micro)) == Some(micro * 1000)
  {
    if micro != 0 {
      MicroFits(micro);
      ZeroDigits(micro, 6);
      var s := Trim(Digits(micro, 6));
      assert Fraction(micro)[1..] == s;
      ScaledTrim(Digits(micro, 6), 9);
      ScaledDigits(micro, 6, 9);
      assert PowerOfTen(3) == 1000;
      RunOfDigits(s);
    }
  }

  lemma NanosOfPythonFraction(micro: int)
    requires 0 <= micro < 1_000_000
    ensures Nanos(PythonFraction(micro)) == Some(micro * 1000)
  {
    if micro != 0 {
      MicroFits(micro);
      var s := Digits(micro, 6);
      assert PythonFraction(micro)[1..] == s;
      ScaledDigits(micro, 6, 9);
      assert PowerOfTen(3) == 1000;
      RunOfDigits(s);
    }
  }

  lemma TimeOfDayRoundTrip(t: Instant, s5: string)
    requires Valid(t) && Nanos(s5) == Some(Micro(t) * 1000)
    ensures ParseTimeOfDay(TimePart(t, s5)) == Some((t.hour, t.minute, t.second, Micro(t) * 1000))
  {
    var s4 := Digits(t.second, 2) + s5;
    var s2 := Digits(t.minute, 2) + (":" + s4);
    NumberOfDigits(t.hour, 2, 0, 23, ":" + s2);
    AfterPrefix(':', s2);
    NumberOfDigits(t.minute, 2, 0, 59, ":" + s4);
    AfterPrefix(':', s4);
    NumberOfDigits(t.second, 2, 0, 59, s5);
  }

  /** A printed time reads back, cut to the microsecond, whichever agent printed it. */
  lemma TimeRoundTrip(t: Instant)
    requires Valid(t)
    ensures ParseTime(Format(t)) == ParseTime(PythonFormat(t)) == Some(t.(nano := Micro(t) * 1000))
  {
    NanosOfFraction(Micro(t));
    NanosOfPythonFraction(Micro(t));
    ToTheSecondRoundTrip(t, Fraction(Micro(t)));
    ToTheSecondRoundTrip(t, PythonFraction(Micro(t)));
  }

  lemma ToTheSecondRoundTrip(t: Instant, fraction: string)
    requires Valid(t) && Nanos(fraction) == Some(Micro(t) * 1000)
    ensures ParseTime(ToTheSecond(t, fraction)) == Some(t.(nano := Micro(t) * 1000))
  {
    var s6 := TimePart(t, fraction);
    var s4 := Digits(t.day, 2) + ("T" + s6);
    var s2 := Digits(t.month, 2) + ("-" + s4);
    NumberOfDigits(t.year, 4, 0, 9999, "-" + s2);
    AfterPrefix('-', s2);
    NumberOfDigits(t.month, 2, 1, 12, "-" + s4);
    AfterPrefix('-', s4);
    NumberOfDigits(t.day, 2, 1, DaysIn(t.year, t.month), "T" + s6);
    AfterPrefix('T', s6);
    TimeOfDayRoundTrip(t, fraction);
  }

  lemma {:induction false} CutAtBar(head: string, tail: string)
    requires '|' !in head
    ensures Cut(head + "|" + tail) == Some((head, tail))
  {
    var s := head + "|" + tail;
    if head == "" {
      assert s[1..] == tail;
    } else {
      assert s[1..] == head[1..] + "|" + tail;
      CutAtBar(head[1..], tail);
      assert [head[0]] + head[1..] == head;
    }
  }

  /** `line` carries these two names, and a time behind them. */
  predicate Carries(line: string, l: LockInfo, stamp: string) {
    line == l.status + "|" + (l.machine + "|" + stamp) && ParseTime(stamp) == Some(l.time)
  }

  lemma CarriedIsRead(data: string, l: LockInfo, stamp: string)
    requires '|' !in l.status && '|' !in l.machine && Carries(TrimSpace(data), l, stamp)
    ensures Parse(data) == Some(l)
  {
    CutAtBar(l.status, l.machine + "|" + stamp);
    CutAtBar(l.machine, stamp);
  }

  lemma ReadIsCarried(data: string, l: LockInfo) returns (stamp: string)
    requires Parse(data) == Some(l)
    ensures '|' !in l.status && '|' !in l.machine && Carries(TrimSpace(data), l, stamp)
  {
    var rest := Cut(TrimSpace(data)).value.1;
    stamp := Cut(rest).value.1;
  }

  /** A line is read exactly as the text before its first bar, the text between its first two, and the time
      after that, once outer spaces are gone. */
  lemma ParseIff(data: string, l: LockInfo)
    ensures Parse(data) == Some(l) <==>
              '|' !in l.status && '|' !in l.machine && exists stamp :: Carries(TrimSpace(data), l, stamp)
  {
    if Parse(data) == Some(l) {
      var stamp := ReadIsCarried(data, l);
    }
    if '|' !in l.status && '|' !in l.machine && exists stamp :: Carries(TrimSpace(data), l, stamp) {
      var stamp :| Carries(TrimSpace(data), l, stamp);
      CarriedIsRead(data, l, stamp);
    }
  }

  lemma BarsGroup(status: string, machine: string, stamp: string)
    ensures status + "|" + machine + "|" + stamp == status + "|" + (machine + "|" + stamp)
  {
  }

  lemma LineIsRead(data: string, l: LockInfo, stamp: string)
    requires '|' !in l.status && '|' !in l.machine && ParseTime(stamp) == Some(l.time)
    requires TrimSpace(data) == l.status + "|" + l.machine + "|" + stamp
    ensures Parse(data) == Some(l)
  {
    BarsGroup(l.status, l.machine, stamp);
    CarriedIsRead(data, l, stamp);
  }

  /** A line of the Python agent is read to the microsecond, also with a line break behind it. */
  lemma PythonLineIsRead(l: LockInfo, data: string)
    requires Valid(l.time) && '|' !in l.status && '|' !in l.machine
    requires TrimSpace(data) == l.status + "|" + l.machine + "|" + PythonFormat(l.time)
    ensures Parse(data) == Some(l.(time := l.time.(nano := Micro(l.time) * 1000)))
  {
    TimeRoundTrip(l.time);
    LineIsRead(data, l.(time := l.time.(nano := Micro(l.time) * 1000)), PythonFormat(l.time));
  }

  /** The line ends in a digit, so only its start can be trimmed. */
  lemma PrintEndsInDigit(l: LockInfo)
    requires Valid(l.time)
    ensures Print(l) != "" && IsDigit(Print(l)[|Print(l)| - 1])
  {
    var micro := Micro(l.time);
    var seconds := Digits(l.time.second, 2);
    if micro == 0 {
      assert Print(l)[|Print(l)| - 1] == seconds[1];
    } else {
      MicroFits(micro);
      ZeroDigits(micro, 6);
      ScaledTrim(Digits(micro, 6), 9);
      var f := Trim(Digits(micro, 6));
      assert Print(l)[|Print(l)| - 1] == f[|f| - 1];
    }
  }

  /** Trimming leaves a line alone exactly when it begins with no space; a printed one ends in a digit. */
  lemma TrimsToItself(l: LockInfo)
    requires Valid(l.time)
    ensures Print(l) != "" && (TrimSpace(Print(l)) == Print(l) <==> !IsSpace(Print(l)[0]))
  {
    PrintEndsInDigit(l);
  }

  /** A line reads back as it was, cut to the microsecond, exactly when neither name contains a
      bar and the status does not start with a space. */
  lemma RoundTripIff(l: LockInfo)
    requires Valid(l.time)
    ensures Parse(Print(l)) == Some(l.(time := l.time.(nano := Micro(l.time) * 1000))) <==>
              '|' !in l.status && '|' !in l.machine && (l.status == "" || !IsSpace(l.status[0]))
  {
    var line, read := Print(l), l.(time := l.time.(nano := Micro(l.time) * 1000));
    assert line[0] == if l.status == "" then '|' else l.status[0];
    TrimsToItself(l);
    if '|' !in l.status && '|' !in l.machine && (l.status == "" || !IsSpace(l.status[0])) {
      TimeRoundTrip(l.time);
      LineIsRead(line, read, Format(l.time));
    }
    if Parse(line) == Some(read) {
      var stamp := ReadIsCarried(line, read);
      assert l.status != "" ==> TrimSpace(line)[0] == l.status[0];
    }
  }
}
