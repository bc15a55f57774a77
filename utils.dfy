/** The KSP epoch, the UT clock and the mission-elapsed-time display of the console. */
module Utils {
  import opened Wrappers
  import opened Text

  // ------------------------------------------------------------- the clock

  /** Days from 0001-01-01 to January 1 of `year`, proleptic Gregorian calendar. */
  function DaysBeforeYear(year: int): int
    requires year >= 1
  {
    var y := year - 1;
    y * 365 + y / 4 - y / 100 + y / 400
  }

  /** A `datetime` to the second, as seconds since 0001-01-01T00:00:00. */
  type DateTime = int

  /** `epoch`: 1951-01-01T00:00:00, where UT 0 falls in the game. */
  const Epoch: DateTime := DaysBeforeYear(1951) * 86400

  /** `get_ut`: the epoch plus the UT seconds. */
  function GetUt(ut: int): DateTime
  {
    Epoch + ut
  }

  /** `(time - epoch).total_seconds()`: the UT seconds of a datetime. */
  function UtOf(time: DateTime): int
  {
    time - Epoch
  }

  /** The epoch lies 712222 days (1950 years) after 0001-01-01. */
  lemma EpochIsStartOf1951()
    ensures Epoch == 712222 * 86400
    ensures DaysBeforeYear(1951) - DaysBeforeYear(1950) == 365
  {
  }

  /** UT seconds and datetimes convert into each other without loss. */
  lemma UtRoundTrip(ut: int, time: DateTime)
    ensures UtOf(GetUt(ut)) == ut
    ensures GetUt(UtOf(time)) == time
    ensures ut <= UtOf(time) <==> GetUt(ut) <= time
  {
  }

  // ------------------------------------------------- mission elapsed time

  const SecondsInMinute: int := 60
  const SecondsInHour: int := 3600
  const SecondsInDay: int := 86400
  const SecondsInYear: int := 31536000

  /** Python's `int(x)` on a float: truncation toward zero. */
  function Truncate(x: real): (n: int)
    ensures x >= 0.0 ==> n as real <= x < n as real + 1.0
    ensures x < 0.0 ==> n as real - 1.0 < x <= n as real
  {
    if x >= 0.0 then x.Floor else -((-x).Floor)
  }

  datatype MetFields = MetFields(years: int, days: int, hours: int, minutes: int, seconds: int)

  function Recompose(f: MetFields): int
  {
    f.years * SecondsInYear + f.days * SecondsInDay + f.hours * SecondsInHour
    + f.minutes * SecondsInMinute + f.seconds
  }

  /**
   * The chained `divmod` of `MET.__str__`. Python's `divmod` floors; for these
   * positive divisors Dafny's `/` and `%` agree with it, negative totals included.
   */
  function Decompose(total: int): (f: MetFields)
    ensures Recompose(f) == total
    ensures 0 <= f.days < 365 && 0 <= f.hours < 24 && 0 <= f.minutes < 60 && 0 <= f.seconds < 60
    ensures total >= 0 <==> f.years >= 0
  {
    var years, r1 := total / SecondsInYear, total % SecondsInYear;
    var days, r2 := r1 / SecondsInDay, r1 % SecondsInDay;
    var hours, r3 := r2 / SecondsInHour, r2 % SecondsInHour;
    var minutes, seconds := r3 / SecondsInMinute, r3 % SecondsInMinute;
    assert r1 == days * SecondsInDay + r2 && days * SecondsInDay <= r1 < SecondsInYear;
    assert r2 == hours * SecondsInHour + r3 && hours * SecondsInHour <= r2 < SecondsInDay;
    assert r3 == minutes * SecondsInMinute + seconds && minutes * SecondsInMinute <= r3 < SecondsInHour;
    MetFields(years, days, hours, minutes, seconds)
  }

  /** The display `T+ {Y:01}Y, {D:03}D, {h:02}:{m:02}:{s:02}`. */
  function Render(f: MetFields): string
  {
    "T+ " + (ZeroPad(f.years, 1) + ("Y, " + (ZeroPad(f.days, 3) + ("D, "
    + (ZeroPad(f.hours, 2) + (":" + (ZeroPad(f.minutes, 2) + (":" + ZeroPad(f.seconds, 2)))))))))
  }

  /** `MET`: the mission elapsed time in whole seconds. */
  datatype Met = Met(seconds: int) {
    /** `MET.__str__`. */
    function ToString(): string
    {
      Render(Decompose(seconds))
    }
  }

  /** `MET(seconds)`: keeps `int(seconds)`, dropping any fraction toward zero. */
  function MetOf(seconds: real): (m: Met)
    ensures seconds >= 0.0 ==> 0 <= m.seconds && m.seconds as real <= seconds < m.seconds as real + 1.0
    ensures seconds < 0.0 ==> m.seconds <= 0 && seconds <= m.seconds as real < seconds + 1.0
  {
    Met(Truncate(seconds))
  }

  /** Reads the five numbers back out of a MET display and recombines them into seconds. */
  function ParseMet(s: string): Option<int>
  {
    if StartsWith(s, "T+ ") then ParseFromYears(s[3..]) else None
  }

  /** Splits `{a}{c}, {b}` at the first `c` into a and b. */
  function SplitField(s: string, c: char): Option<(string, string)>
  {
    if c !in s then None
    else
      var i := IndexOf(s, c);
      var after := s[i + 1..];
      if StartsWith(after, ", ") then Some((s[..i], after[2..])) else None
  }

  /** `{Y}Y, ` followed by the days part. */
  function ParseFromYears(s: string): Option<int>
  {
    match SplitField(s, 'Y')
    case Some((y, rest)) =>
      (match (ParseInt(y), ParseFromDays(rest))
       case (Some(years), Some(within)) => Some(years * SecondsInYear + within)
       case _ => None)
    case None => None
  }

  /** `{DDD}D, ` followed by the clock part. */
  function ParseFromDays(s: string): Option<int>
  {
    match SplitField(s, 'D')
    case Some((d, clock)) =>
      (match (ParseNat(d), ParseClock(clock))
       case (Some(days), Some(within)) => Some(days * SecondsInDay + within)
       case _ => None)
    case None => None
  }

  /** `{hh}:{mm}:{ss}`. */
  function ParseClock(s: string): Option<int>
  {
    var parts := Split(s, ':');
    if |parts| != 3 then None
    else
      match (ParseNat(parts[0]), ParseNat(parts[1]), ParseNat(parts[2]))
      case (Some(h), Some(m), Some(sec)) => Some(h * SecondsInHour + m * SecondsInMinute + sec)
      case _ => None
  }

  /** A numeral written by `ZeroPad` holds only digits and '-'. */
  lemma NumeralLacks(i: int, width: nat, c: char)
    requires !IsDigit(c) && c != '-'
    ensures c !in ZeroPad(i, width)
  {
    var r := ZeroPad(i, width);
    forall k | 0 <= k < |r| ensures r[k] != c {
      if i < 0 && k > 0 {
        assert r[k] == r[1..][k - 1];
      }
    }
  }

  lemma ParseClockOf(h: string, m: string, sec: string, hv: nat, mv: nat, sv: nat)
    requires ':' !in h && ':' !in m && ':' !in sec
    requires ParseNat(h) == Some(hv) && ParseNat(m) == Some(mv) && ParseNat(sec) == Some(sv)
    ensures ParseClock(h + (":" + (m + (":" + sec)))) == Some(hv * SecondsInHour + mv * SecondsInMinute + sv)
  {
    var parts := [h, m, sec];
    var s := h + (":" + (m + (":" + sec)));
    assert Join(parts, ':') == s by {
      assert Join([sec], ':') == sec;
      assert [m, sec][1..] == [sec];
      assert Join([m, sec], ':') == m + [':'] + sec;
      assert parts[1..] == [m, sec];
    }
    assert Split(s, ':') == parts by {
      SplitJoin(parts, ':');
    }
  }

  /** `a + c + ", " + b` splits at the first c into a and b. */
  lemma FieldSplit(a: string, c: char, b: string)
    requires c !in a
    ensures SplitField(a + ([c, ',', ' '] + b), c) == Some((a, b))
  {
    IndexOfAfter(a, c, ", " + b);
    var s := a + [c] + (", " + b);
    assert a + ([c, ',', ' '] + b) == s;
    assert s[..|a|] == a;
    assert s[|a| + 1..] == ", " + b;
  }

  lemma ParseFromDaysOf(d: string, clock: string, dv: nat, within: int)
    requires 'D' !in d && ParseNat(d) == Some(dv) && ParseClock(clock) == Some(within)
    ensures ParseFromDays(d + ("D, " + clock)) == Some(dv * SecondsInDay + within)
  {
    FieldSplit(d, 'D', clock);
    assert d + ("D, " + clock) == d + (['D', ',', ' '] + clock);
  }

  lemma ParseFromYearsSplit(s: string, y: string, dayPart: string, yv: int, within: int)
    requires SplitField(s, 'Y') == Some((y, dayPart))
    requires ParseInt(y) == Some(yv) && ParseFromDays(dayPart) == Some(within)
    ensures ParseFromYears(s) == Some(yv * SecondsInYear + within)
  {
  }

  lemma ParseFromYearsOf(y: string, dayPart: string, yv: int, within: int)
    requires 'Y' !in y && ParseInt(y) == Some(yv) && ParseFromDays(dayPart) == Some(within)
    ensures ParseFromYears(y + ("Y, " + dayPart)) == Some(yv * SecondsInYear + within)
  {
    var s := y + ("Y, " + dayPart);
    assert SplitField(s, 'Y') == Some((y, dayPart)) by {
      FieldSplit(y, 'Y', dayPart);
      assert s == y + (['Y', ',', ' '] + dayPart);
    }
    ParseFromYearsSplit(s, y, dayPart, yv, within);
  }

  lemma ParseMetOf(s: string, total: int)
    requires |s| >= 3 && s[..3] == "T+ " && ParseFromYears(s[3..]) == Some(total)
    ensures ParseMet(s) == Some(total)
  {
  }

  /** A display assembled from parseable fields reads back to their weighted sum. */
  lemma ParseDisplay(y: string, d: string, h: string, m: string, sec: string,
                     yv: int, dv: nat, hv: nat, mv: nat, sv: nat)
    requires 'Y' !in y && 'D' !in d && ':' !in h && ':' !in m && ':' !in sec
    requires ParseInt(y) == Some(yv) && ParseNat(d) == Some(dv)
    requires ParseNat(h) == Some(hv) && ParseNat(m) == Some(mv) && ParseNat(sec) == Some(sv)
    ensures ParseMet("T+ " + (y + ("Y, " + (d + ("D, " + (h + (":" + (m + (":" + sec)))))))))
         == Some(yv * SecondsInYear + dv * SecondsInDay + hv * SecondsInHour + mv * SecondsInMinute + sv)
  {
    var clock := h + (":" + (m + (":" + sec)));
    var within := hv * SecondsInHour + mv * SecondsInMinute + sv;
    var dayPart := d + ("D, " + clock);
    assert ParseFromDays(dayPart) == Some(dv * SecondsInDay + within) by {
      ParseClockOf(h, m, sec, hv, mv, sv);
      ParseFromDaysOf(d, clock, dv, within);
    }
    var rest := y + ("Y, " + dayPart);
    var total := yv * SecondsInYear + (dv * SecondsInDay + within);
    assert ParseFromYears(rest) == Some(total) by {
      ParseFromYearsOf(y, dayPart, yv, dv * SecondsInDay + within);
    }
    ParseMetOf("T+ " + rest, total);
  }

  /** Reading the fields back out of the display recovers the second count. */
  lemma ParseMetRoundTrip(total: int)
    ensures ParseMet(Met(total).ToString()) == Some(total)
  {
    var f := Decompose(total);
    NumeralLacks(f.years, 1, 'Y');
    NumeralLacks(f.days, 3, 'D');
    NumeralLacks(f.hours, 2, ':');
    NumeralLacks(f.minutes, 2, ':');
    NumeralLacks(f.seconds, 2, ':');
    ParseIntZeroPad(f.years, 1);
    ParseZeroPad(f.days, 3);
    ParseZeroPad(f.hours, 2);
    ParseZeroPad(f.minutes, 2);
    ParseZeroPad(f.seconds, 2);
    ParseDisplay(ZeroPad(f.years, 1), ZeroPad(f.days, 3), ZeroPad(f.hours, 2),
                 ZeroPad(f.minutes, 2), ZeroPad(f.seconds, 2),
                 f.years, f.days, f.hours, f.minutes, f.seconds);
  }
}
