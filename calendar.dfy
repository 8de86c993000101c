/**
 * Python `datetime` arithmetic as the replay tools use it: a datetime is an
 * instant counted in microseconds from 0001-01-01T00:00:00 (`datetime.min`),
 * on the proleptic Gregorian calendar, up to the end of year 9999
 * (`datetime.max`). The two text forms are the ones of the format
 * "%Y-%m-%dT%H:%M:%S.%fZ": `strptime` reads it, `strftime` prints it, and the
 * tools then cut the six microsecond digits down to three.
 */
module Calendar {
  import opened Wrappers
  import opened Text
  import opened StampPattern

  const UsPerSecond: int := 1_000_000
  const UsPerDay: int := 86_400_000_000

  predicate IsLeap(y: int) { y % 4 == 0 && (y % 100 != 0 || y % 400 == 0) }

  function DaysInYear(y: int): nat { if IsLeap(y) then 366 else 365 }

  function DaysInMonth(y: int, m: int): nat
    requires 1 <= m <= 12
  {
    if m == 2 then (if IsLeap(y) then 29 else 28)
    else if m == 4 || m == 6 || m == 9 || m == 11 then 30
    else 31
  }

  /** Days from 0001-01-01 to January 1st of year y (Python's `_days_before_year`). */
  function DaysBeforeYear(y: int): int
    requires y >= 1
  {
    var p := y - 1;
    365 * p + p / 4 - p / 100 + p / 400
  }

  /** Days from January 1st to the first day of month m (Python's `_days_before_month`). */
  function DaysBeforeMonth(y: int, m: int): nat
    requires 1 <= m <= 12
  {
    var common :=
      if m == 1 then 0 else if m == 2 then 31 else if m == 3 then 59 else if m == 4 then 90
      else if m == 5 then 120 else if m == 6 then 151 else if m == 7 then 181
      else if m == 8 then 212 else if m == 9 then 243 else if m == 10 then 273
      else if m == 11 then 304 else 334;
    if m > 2 && IsLeap(y) then common + 1 else common
  }

  /** Day number of the last day after year 9999 (`date.max.toordinal()`). */
  const EndDay: int := 3_652_059

  /** Day number of 1970-01-01, the epoch of `%s` and `fromtimestamp`. */
  const EpochDay: int := 719_162

  lemma DivStep(p: int, k: int)
    requires p >= 0 && (k == 4 || k == 100 || k == 400)
    ensures (p + 1) / k == p / k + (if (p + 1) % k == 0 then 1 else 0)
  {
    var q, r := p / k, p % k;
    assert p == q * k + r && 0 <= r < k;
    if r + 1 < k {
      assert p + 1 == q * k + (r + 1);
    } else {
      assert p + 1 == (q + 1) * k;
    }
  }

  lemma DaysBeforeYearStep(y: int)
    requires y >= 1
    ensures DaysBeforeYear(y + 1) == DaysBeforeYear(y) + DaysInYear(y)
  {
    var p := y - 1;
    DivStep(p, 4);
    DivStep(p, 100);
    DivStep(p, 400);
    LeapDivisors(y);
    var a, b, c := y / 4 - p / 4, y / 100 - p / 100, y / 400 - p / 400;
    assert DaysBeforeYear(y + 1) - DaysBeforeYear(y) == 365 + a - b + c;
    assert a == (if y % 4 == 0 then 1 else 0);
    assert b == (if y % 100 == 0 then 1 else 0);
    assert c == (if y % 400 == 0 then 1 else 0);
  }

  /** A multiple of 400 is one of 100, and a multiple of 100 is one of 4. */
  lemma LeapDivisors(y: int)
    ensures y % 400 == 0 ==> y % 100 == 0
    ensures y % 100 == 0 ==> y % 4 == 0
  {
    if y % 400 == 0 {
      MultipleMod(y, 4 * (y / 400), 100);
    }
    if y % 100 == 0 {
      MultipleMod(y, 25 * (y / 100), 4);
    }
  }

  lemma MultipleMod(y: int, q: int, k: int)
    requires (k == 4 || k == 100) && y == k * q
    ensures y % k == 0
  {
    if k == 4 {
      assert (4 * q) % 4 == 0;
    } else {
      assert (100 * q) % 100 == 0;
    }
  }

  lemma {:induction false} DaysBeforeYearMonotone(y1: int, y2: int)
    requires 1 <= y1 < y2
    ensures DaysBeforeYear(y1) + DaysInYear(y1) <= DaysBeforeYear(y2)
    decreases y2 - y1
  {
    DaysBeforeYearStep(y1);
    if y1 + 1 < y2 {
      DaysBeforeYearMonotone(y1 + 1, y2);
    }
  }

  lemma DaysBeforeMonthStep(y: int, m: int)
    requires 1 <= m < 12
    ensures DaysBeforeMonth(y, m + 1) == DaysBeforeMonth(y, m) + DaysInMonth(y, m)
  {
  }

  lemma DaysBeforeMonthLast(y: int)
    ensures DaysBeforeMonth(y, 12) + DaysInMonth(y, 12) == DaysInYear(y)
  {
  }

  lemma {:induction false} DaysBeforeMonthMonotone(y: int, m1: int, m2: int)
    requires 1 <= m1 < m2 <= 12
    ensures DaysBeforeMonth(y, m1) + DaysInMonth(y, m1) <= DaysBeforeMonth(y, m2)
  {
  }

  /**
   * The year in which day `n` counted from January 1st of year `y` falls, and
   * the day within that year.
   */
  function YearOf(n: nat, y: int): (r: (int, nat))
    requires y >= 1
    ensures r.0 >= y && r.1 < DaysInYear(r.0)
    ensures DaysBeforeYear(r.0) + r.1 == DaysBeforeYear(y) + n
    decreases n
  {
    if n < DaysInYear(y) then (y, n)
    else
      DaysBeforeYearStep(y);
      YearOf(n - DaysInYear(y), y + 1)
  }

  /** The month in which day `n` counted from the first of month `m` falls, and the day within it. */
  function MonthOf(y: int, n: nat, m: int): (r: (int, nat))
    requires 1 <= m <= 12 && DaysBeforeMonth(y, m) + n < DaysInYear(y)
    ensures m <= r.0 <= 12 && r.1 < DaysInMonth(y, r.0)
    ensures DaysBeforeMonth(y, r.0) + r.1 == DaysBeforeMonth(y, m) + n
    decreases 12 - m
  {
    if n < DaysInMonth(y, m) then (m, n)
    else if m == 12 then
      DaysBeforeMonthLast(y);
      assert false;
      (m, n)
    else
      DaysBeforeMonthStep(y, m);
      MonthOf(y, n - DaysInMonth(y, m), m + 1)
  }

  /** Year and day-within-year are determined by the day number. */
  lemma YearUnique(y1: int, r1: int, y2: int, r2: int)
    requires y1 >= 1 && y2 >= 1
    requires 0 <= r1 < DaysInYear(y1) && 0 <= r2 < DaysInYear(y2)
    requires DaysBeforeYear(y1) + r1 == DaysBeforeYear(y2) + r2
    ensures y1 == y2 && r1 == r2
  {
    if y1 < y2 {
      DaysBeforeYearMonotone(y1, y2);
    } else if y2 < y1 {
      DaysBeforeYearMonotone(y2, y1);
    }
  }

  lemma MonthUnique(y: int, m1: int, r1: int, m2: int, r2: int)
    requires 1 <= m1 <= 12 && 1 <= m2 <= 12
    requires 0 <= r1 < DaysInMonth(y, m1) && 0 <= r2 < DaysInMonth(y, m2)
    requires DaysBeforeMonth(y, m1) + r1 == DaysBeforeMonth(y, m2) + r2
    ensures m1 == m2 && r1 == r2
  {
    if m1 < m2 {
      DaysBeforeMonthMonotone(y, m1, m2);
    } else if m2 < m1 {
      DaysBeforeMonthMonotone(y, m2, m1);
    }
  }

  // ---------------------------------------------------------------- datetimes

  /** The fields of a Python `datetime` (naive, read as UTC). */
  datatype DateTime = DateTime(year: int, month: int, day: int,
                               hour: int, minute: int, second: int, micro: int)

  predicate ValidDate(y: int, m: int, d: int)
  {
    1 <= y <= 9999 && 1 <= m <= 12 && 1 <= d <= DaysInMonth(y, m)
  }

  /** The field ranges `datetime(...)` accepts. */
  predicate Valid(dt: DateTime)
  {
    && ValidDate(dt.year, dt.month, dt.day)
    && 0 <= dt.hour < 24 && 0 <= dt.minute < 60 && 0 <= dt.second < 60
    && 0 <= dt.micro < UsPerSecond
  }

  /** An instant `datetime` can represent. */
  predicate InRange(t: int) { 0 <= t < EndDay * UsPerDay }

  function DayIndex(y: int, m: int, d: int): int
    requires ValidDate(y, m, d)
  {
    DaysBeforeYear(y) + DaysBeforeMonth(y, m) + d - 1
  }

  lemma DayIndexBounds(y: int, m: int, d: int)
    requires ValidDate(y, m, d)
    ensures 0 <= DayIndex(y, m, d) < EndDay
  {
    if m < 12 {
      DaysBeforeMonthMonotone(y, m, 12);
    }
    DaysBeforeMonthLast(y);
    if y < 9999 {
      DaysBeforeYearMonotone(y, 9999);
    }
    DaysBeforeYearStep(9999);
  }

  /** The instant a valid datetime denotes. */
  function ToInstant(dt: DateTime): (t: int)
    requires Valid(dt)
    ensures InRange(t)
  {
    DayIndexBounds(dt.year, dt.month, dt.day);
    DayIndex(dt.year, dt.month, dt.day) * UsPerDay
      + ((dt.hour * 60 + dt.minute) * 60 + dt.second) * UsPerSecond + dt.micro
  }

  /** The datetime of an instant. */
  function FromInstant(t: int): (dt: DateTime)
    requires InRange(t)
    ensures Valid(dt) && ToInstant(dt) == t
  {
    var day := t / UsPerDay;
    var rem := t % UsPerDay;
    var (y, doy) := YearOf(day, 1);
    assert y <= 9999 by {
      if y > 9999 {
        DaysBeforeYearStep(9999);
        if y > 10000 {
          DaysBeforeYearMonotone(10000, y);
        }
      }
    }
    DaysBeforeMonthLast(y);
    var (m, dom) := MonthOf(y, doy, 1);
    var secs := rem / UsPerSecond;
    DateTime(y, m, dom + 1, secs / 3600, secs / 60 % 60, secs % 60, rem % UsPerSecond)
  }

  /** Distinct valid datetimes denote distinct instants. */
  lemma ToInstantInjective(a: DateTime, b: DateTime)
    requires Valid(a) && Valid(b) && ToInstant(a) == ToInstant(b)
    ensures a == b
  {
    var da := DayIndex(a.year, a.month, a.day);
    var db := DayIndex(b.year, b.month, b.day);
    var ra := ((a.hour * 60 + a.minute) * 60 + a.second) * UsPerSecond + a.micro;
    var rb := ((b.hour * 60 + b.minute) * 60 + b.second) * UsPerSecond + b.micro;
    ClockUnique(a.hour, a.minute, a.second, a.micro, b.hour, b.minute, b.second, b.micro);
    DaySplit(da, ra, db, rb);
    DateUnique(a.year, a.month, a.day, b.year, b.month, b.day);
  }

  /** An instant splits uniquely into a day and a time within the day. */
  lemma DaySplit(da: int, ra: int, db: int, rb: int)
    requires 0 <= ra < UsPerDay && 0 <= rb < UsPerDay
    requires da * UsPerDay + ra == db * UsPerDay + rb
    ensures da == db && ra == rb
  {
    if da < db {
      assert false;
    } else if db < da {
      assert false;
    }
  }

  /** The time of day of valid clock fields is within the day, and it determines the fields. */
  lemma ClockUnique(h1: int, m1: int, s1: int, u1: int, h2: int, m2: int, s2: int, u2: int)
    requires 0 <= h1 < 24 && 0 <= m1 < 60 && 0 <= s1 < 60 && 0 <= u1 < UsPerSecond
    requires 0 <= h2 < 24 && 0 <= m2 < 60 && 0 <= s2 < 60 && 0 <= u2 < UsPerSecond
    ensures var r1 := ((h1 * 60 + m1) * 60 + s1) * UsPerSecond + u1;
      var r2 := ((h2 * 60 + m2) * 60 + s2) * UsPerSecond + u2;
      && 0 <= r1 < UsPerDay && 0 <= r2 < UsPerDay
      && (r1 == r2 ==> h1 == h2 && m1 == m2 && s1 == s2 && u1 == u2)
  {
    var c1, c2 := (h1 * 60 + m1) * 60 + s1, (h2 * 60 + m2) * 60 + s2;
    assert 0 <= c1 < 86400 && 0 <= c2 < 86400;
    DaySplitSeconds(c1, u1, c2, u2);
  }

  lemma DaySplitSeconds(c1: int, u1: int, c2: int, u2: int)
    requires 0 <= c1 < 86400 && 0 <= c2 < 86400 && 0 <= u1 < UsPerSecond && 0 <= u2 < UsPerSecond
    ensures 0 <= c1 * UsPerSecond + u1 < UsPerDay
    ensures c1 * UsPerSecond + u1 == c2 * UsPerSecond + u2 ==> c1 == c2 && u1 == u2
  {
    assert c1 * UsPerSecond <= 86399 * UsPerSecond;
    if c1 < c2 {
      assert c1 * UsPerSecond + UsPerSecond <= c2 * UsPerSecond;
    } else if c2 < c1 {
      assert c2 * UsPerSecond + UsPerSecond <= c1 * UsPerSecond;
    }
  }

  /** A valid date is determined by its day index. */
  lemma DateUnique(y1: int, m1: int, d1: int, y2: int, m2: int, d2: int)
    requires ValidDate(y1, m1, d1) && ValidDate(y2, m2, d2)
    requires DayIndex(y1, m1, d1) == DayIndex(y2, m2, d2)
    ensures y1 == y2 && m1 == m2 && d1 == d2
  {
    if m1 < 12 {
      DaysBeforeMonthMonotone(y1, m1, 12);
    }
    DaysBeforeMonthLast(y1);
    if m2 < 12 {
      DaysBeforeMonthMonotone(y2, m2, 12);
    }
    DaysBeforeMonthLast(y2);
    YearUnique(y1, DaysBeforeMonth(y1, m1) + d1 - 1, y2, DaysBeforeMonth(y2, m2) + d2 - 1);
    MonthUnique(y1, m1, d1 - 1, m2, d2 - 1);
  }

  lemma FromToInstant(dt: DateTime)
    requires Valid(dt)
    ensures FromInstant(ToInstant(dt)) == dt
  {
    ToInstantInjective(FromInstant(ToInstant(dt)), dt);
  }

  // ---------------------------------------------------------------- text forms

  /** The layout shared by the two text forms, from its field texts. */
  function Assemble(y: string, mo: string, d: string, h: string, mi: string, se: string, frac: string): string
  {
    y + ("-" + (mo + ("-" + (d + ("T" + (h + (":" + (mi + (":" + (se + ("." + (frac + "Z"))))))))))))
  }

  lemma AssembleSlices(y: string, mo: string, d: string, h: string, mi: string, se: string, frac: string)
    requires |y| == 4 && |mo| == 2 && |d| == 2 && |h| == 2 && |mi| == 2 && |se| == 2
    ensures var s := Assemble(y, mo, d, h, mi, se, frac);
      && |s| == 21 + |frac|
      && s[0..4] == y && s[4] == '-' && s[5..7] == mo && s[7] == '-' && s[8..10] == d
      && s[10] == 'T' && s[11..13] == h && s[13] == ':' && s[14..16] == mi && s[16] == ':'
      && s[17..19] == se && s[19] == '.' && s[20..|s| - 1] == frac && s[|s| - 1] == 'Z'
  {
    var s := Assemble(y, mo, d, h, mi, se, frac);
    var t := y + "-" + mo + "-" + d + "T" + h + ":" + mi + ":" + se + ".";
    assert s == t + (frac + "Z");
    assert t[0..4] == y && t[5..7] == mo && t[8..10] == d;
    assert t[11..13] == h && t[14..16] == mi && t[17..19] == se;
  }

  /** A text in the shared layout is the assembly of its own slices. */
  lemma AssembleOfSlices(s: string)
    requires |s| >= 21 && s[4] == '-' && s[7] == '-' && s[10] == 'T' && s[13] == ':'
    requires s[16] == ':' && s[19] == '.' && s[|s| - 1] == 'Z'
    ensures s == Assemble(s[0..4], s[5..7], s[8..10], s[11..13], s[14..16], s[17..19], s[20..|s| - 1])
  {
    var r := Assemble(s[0..4], s[5..7], s[8..10], s[11..13], s[14..16], s[17..19], s[20..|s| - 1]);
    AssembleSlices(s[0..4], s[5..7], s[8..10], s[11..13], s[14..16], s[17..19], s[20..|s| - 1]);
    assert |r| == |s|;
    forall i | 0 <= i < |s|
      ensures r[i] == s[i]
    {
      if i < 4 {
        assert r[i] == r[0..4][i];
      } else if 4 < i < 7 {
        assert r[i] == r[5..7][i - 5];
      } else if 7 < i < 10 {
        assert r[i] == r[8..10][i - 8];
      } else if 10 < i < 13 {
        assert r[i] == r[11..13][i - 11];
      } else if 13 < i < 16 {
        assert r[i] == r[14..16][i - 14];
      } else if 16 < i < 19 {
        assert r[i] == r[17..19][i - 17];
      } else if 19 < i < |s| - 1 {
        assert r[i] == r[20..|s| - 1][i - 20];
      }
    }
  }

  /** `dt.strftime("%Y-%m-%dT%H:%M:%S.%fZ")`: every field zero-padded, six microsecond digits. */
  function StrfTime(dt: DateTime): (r: string)
    requires Valid(dt)
    ensures |r| == 27
  {
    Assemble(Padded(dt.year, 4), Padded(dt.month, 2), Padded(dt.day, 2),
             Padded(dt.hour, 2), Padded(dt.minute, 2), Padded(dt.second, 2), Padded(dt.micro, 6))
  }

  /** The millisecond text of a datetime: fields as `StrfTime`, three fraction digits. */
  function MilliText(dt: DateTime): string
    requires Valid(dt)
  {
    Assemble(Padded(dt.year, 4), Padded(dt.month, 2), Padded(dt.day, 2),
             Padded(dt.hour, 2), Padded(dt.minute, 2), Padded(dt.second, 2), Padded(dt.micro / 1000, 3))
  }

  /** Dropping the last digit of a padded number pads the number divided by ten. */
  lemma PaddedInit(n: nat, w: nat)
    ensures Padded(n, w + 1)[..w] == Padded(n / 10, w)
  {
  }

  lemma PaddedMillis(n: nat)
    ensures Padded(n, 6)[..3] == Padded(n / 1000, 3)
  {
    var r := Padded(n, 6);
    PaddedInit(n, 5);
    PaddedInit(n / 10, 4);
    PaddedInit(n / 10 / 10, 3);
    assert r[..3] == r[..5][..4][..3];
    assert n / 10 / 10 / 10 == n / 1000;
  }

  /**
   * The text every rewritten timestamp receives: `strftime(...)[:-4] + 'Z'` of
   * instant t, which drops the last three microsecond digits (truncation, not
   * rounding) and keeps the 24-character shape of the search pattern.
   */
  function FormatStamp(t: int): (s: string)
    requires InRange(t)
    ensures Canonical(s)
    ensures s == MilliText(FromInstant(t))
  {
    var dt := FromInstant(t);
    var full := StrfTime(dt);
    var s := full[..|full| - 4] + "Z";
    ChopMillis(dt);
    MilliTextCanonical(dt);
    s
  }

  lemma ChopMillis(dt: DateTime)
    requires Valid(dt)
    ensures var full := StrfTime(dt); |full| == 27 && full[..|full| - 4] + "Z" == MilliText(dt)
  {
    PaddedMillis(dt.micro);
    ChopAssembled(Padded(dt.year, 4), Padded(dt.month, 2), Padded(dt.day, 2),
                  Padded(dt.hour, 2), Padded(dt.minute, 2), Padded(dt.second, 2), Padded(dt.micro, 6));
  }

  /** Cutting the last four characters of a six-digit fraction and re-adding `Z` keeps three digits. */
  lemma ChopAssembled(y: string, mo: string, d: string, h: string, mi: string, se: string, six: string)
    requires |y| == 4 && |mo| == 2 && |d| == 2 && |h| == 2 && |mi| == 2 && |se| == 2 && |six| == 6
    ensures var full := Assemble(y, mo, d, h, mi, se, six);
      |full| == 27 && full[..|full| - 4] + "Z" == Assemble(y, mo, d, h, mi, se, six[..3])
  {
    var head := y + "-" + mo + "-" + d + "T" + h + ":" + mi + ":" + se + ".";
    var full := Assemble(y, mo, d, h, mi, se, six);
    assert full == head + (six + "Z");
    assert six == six[..3] + six[3..];
    assert full[..|full| - 4] == head + six[..3];
  }

  /** The 24-character form `YYYY-MM-DDTHH:MM:SS.mmmZ`: the search pattern with a literal `.`. */
  predicate Canonical(s: string)
  {
    MatchText(s) && s[19] == '.'
  }

  lemma MilliTextCanonical(dt: DateTime)
    requires Valid(dt)
    ensures Canonical(MilliText(dt))
  {
    var y, mo, d := Padded(dt.year, 4), Padded(dt.month, 2), Padded(dt.day, 2);
    var h, mi, se := Padded(dt.hour, 2), Padded(dt.minute, 2), Padded(dt.second, 2);
    var ms := Padded(dt.micro / 1000, 3);
    var s := MilliText(dt);
    AssembleSlices(y, mo, d, h, mi, se, ms);
    forall i | 0 <= i < Width
      ensures ClassAt(i, s[i])
    {
      if i < 4 {
        assert s[i] == s[0..4][i];
      } else if 4 < i < 7 {
        assert s[i] == s[5..7][i - 5];
      } else if 7 < i < 10 {
        assert s[i] == s[8..10][i - 8];
      } else if 10 < i < 13 {
        assert s[i] == s[11..13][i - 11];
      } else if 13 < i < 16 {
        assert s[i] == s[14..16][i - 14];
      } else if 16 < i < 19 {
        assert s[i] == s[17..19][i - 17];
      } else if 19 < i < 23 {
        assert s[i] == s[20..23][i - 20];
      }
    }
  }

  /**
   * The layout `strptime` accepts for "%Y-%m-%dT%H:%M:%S.%fZ": four year
   * digits, two-digit fields, one to six fraction digits, and the literal
   * letters matched without regard to case.
   */
  predicate Layout(s: string)
  {
    && 22 <= |s| <= 27
    && AllDigits(s[0..4]) && s[4] == '-' && AllDigits(s[5..7]) && s[7] == '-'
    && AllDigits(s[8..10]) && (s[10] == 'T' || s[10] == 't')
    && AllDigits(s[11..13]) && s[13] == ':' && AllDigits(s[14..16]) && s[16] == ':'
    && AllDigits(s[17..19]) && s[19] == '.' && AllDigits(s[20..|s| - 1])
    && (s[|s| - 1] == 'Z' || s[|s| - 1] == 'z')
  }

  /** The fields a text in the layout names (the fraction scaled to microseconds). */
  function Fields(s: string): DateTime
    requires Layout(s)
  {
    var frac := s[20..|s| - 1];
    DateTime(Value(s[0..4]), Value(s[5..7]), Value(s[8..10]),
             Value(s[11..13]), Value(s[14..16]), Value(s[17..19]),
             Value(frac) * Pow10(6 - |frac|))
  }

  /**
   * `datetime.strptime(s, "%Y-%m-%dT%H:%M:%S.%fZ")`: the instant, or `None`
   * where Python raises `ValueError` (text out of layout, or a field out of range).
   */
  function StrpTime(s: string): (r: Option<int>)
    ensures r.Some? <==> Layout(s) && Valid(Fields(s))
    ensures r.Some? ==> InRange(r.value) && r.value == ToInstant(Fields(s))
  {
    if Layout(s) && Valid(Fields(s)) then Some(ToInstant(Fields(s))) else None
  }

  /** Reading a formatted stamp gives back the instant truncated to the millisecond. */
  lemma ParseFormat(t: int)
    requires InRange(t)
    ensures StrpTime(FormatStamp(t)) == Some(t - t % 1000)
  {
    var dt := FromInstant(t);
    var s := FormatStamp(t);
    var cut := dt.(micro := dt.micro / 1000 * 1000);
    FieldsOfMilliText(dt);
    assert Layout(s) && Fields(s) == cut;
    TruncateMillis(dt);
    assert Valid(cut) && ToInstant(cut) == t - t % 1000;
  }

  /** Zeroing the sub-millisecond digits of a datetime truncates its instant to the millisecond. */
  lemma TruncateMillis(dt: DateTime)
    requires Valid(dt)
    ensures Valid(dt.(micro := dt.micro / 1000 * 1000))
    ensures ToInstant(dt.(micro := dt.micro / 1000 * 1000)) == ToInstant(dt) - ToInstant(dt) % 1000
  {
    var k := DayIndex(dt.year, dt.month, dt.day) * 86_400_000
             + ((dt.hour * 60 + dt.minute) * 60 + dt.second) * 1000;
    assert ToInstant(dt) == 1000 * k + dt.micro;
    assert ToInstant(dt.(micro := dt.micro / 1000 * 1000)) == 1000 * k + dt.micro / 1000 * 1000;
    MillisOf(k, dt.micro);
  }

  /** Truncating `1000 * k + x` to a multiple of 1000 truncates x. */
  lemma MillisOf(k: int, x: nat)
    ensures (1000 * k + x) - (1000 * k + x) % 1000 == 1000 * k + x / 1000 * 1000
  {
    var q, r := x / 1000, x % 1000;
    assert 1000 * k + x == 1000 * (k + q) + r;
    assert (1000 * (k + q) + r) % 1000 == r;
  }

  lemma FieldsOfMilliText(dt: DateTime)
    requires Valid(dt)
    ensures var s := MilliText(dt);
      Layout(s) && Fields(s) == dt.(micro := dt.micro / 1000 * 1000)
  {
    var ms := dt.micro / 1000;
    assert Pow10(4) == 10000 && Pow10(3) == 1000 && Pow10(2) == 100;
    PaddedValue(dt.year, 4);
    PaddedValue(dt.month, 2);
    PaddedValue(dt.day, 2);
    PaddedValue(dt.hour, 2);
    PaddedValue(dt.minute, 2);
    PaddedValue(dt.second, 2);
    PaddedValue(ms, 3);
    FieldsOfAssembled(Padded(dt.year, 4), Padded(dt.month, 2), Padded(dt.day, 2),
                      Padded(dt.hour, 2), Padded(dt.minute, 2), Padded(dt.second, 2), Padded(ms, 3));
  }

  /** `strptime` reads back, to the microsecond, the datetime `strftime` writes with the same format. */
  lemma StrfTimeParses(dt: DateTime)
    requires Valid(dt)
    ensures StrpTime(StrfTime(dt)) == Some(ToInstant(dt))
  {
    FieldsOfStrfTime(dt);
  }

  lemma FieldsOfStrfTime(dt: DateTime)
    requires Valid(dt)
    ensures Layout(StrfTime(dt)) && Fields(StrfTime(dt)) == dt
  {
    assert Pow10(6) == 1000000 && Pow10(4) == 10000 && Pow10(2) == 100 && Pow10(0) == 1;
    PaddedValue(dt.year, 4);
    PaddedValue(dt.month, 2);
    PaddedValue(dt.day, 2);
    PaddedValue(dt.hour, 2);
    PaddedValue(dt.minute, 2);
    PaddedValue(dt.second, 2);
    PaddedValue(dt.micro, 6);
    FieldsOfAssembled(Padded(dt.year, 4), Padded(dt.month, 2), Padded(dt.day, 2),
                      Padded(dt.hour, 2), Padded(dt.minute, 2), Padded(dt.second, 2), Padded(dt.micro, 6));
  }

  /** Digit fields assembled into the layout are the fields `strptime` reads. */
  lemma FieldsOfAssembled(y: string, mo: string, d: string, h: string, mi: string, se: string, frac: string)
    requires |y| == 4 && |mo| == 2 && |d| == 2 && |h| == 2 && |mi| == 2 && |se| == 2 && 1 <= |frac| <= 6
    requires AllDigits(y) && AllDigits(mo) && AllDigits(d) && AllDigits(h) && AllDigits(mi) && AllDigits(se) && AllDigits(frac)
    ensures var s := Assemble(y, mo, d, h, mi, se, frac);
      && Layout(s)
      && Fields(s) == DateTime(Value(y), Value(mo), Value(d), Value(h), Value(mi), Value(se), Value(frac) * Pow10(6 - |frac|))
  {
    AssembleSlices(y, mo, d, h, mi, se, frac);
  }

  /** Formatting the instant a canonical stamp names gives back the stamp. */
  lemma FormatParse(s: string)
    requires Canonical(s) && StrpTime(s).Some?
    ensures FormatStamp(StrpTime(s).value) == s
  {
    var f := Fields(s);
    FromToInstant(f);
    MilliTextOfFields(s);
  }

  /** A canonical stamp is the millisecond text of the fields read from it. */
  lemma MilliTextOfFields(s: string)
    requires Canonical(s) && StrpTime(s).Some?
    ensures MilliText(Fields(s)) == s
  {
    var f := Fields(s);
    assert Pow10(3) == 1000;
    assert f.micro / 1000 == Value(s[20..23]);
    PaddedOfValue(s[0..4]);
    PaddedOfValue(s[5..7]);
    PaddedOfValue(s[8..10]);
    PaddedOfValue(s[11..13]);
    PaddedOfValue(s[14..16]);
    PaddedOfValue(s[17..19]);
    PaddedOfValue(s[20..23]);
    AssembleOfSlices(s);
  }

  // ---------------------------------------------------------------- order

  /** `a < b` on datetimes: the fields compared from the year down to the microsecond. */
  predicate Before(a: DateTime, b: DateTime)
  {
    if a.year != b.year then a.year < b.year
    else if a.month != b.month then a.month < b.month
    else if a.day != b.day then a.day < b.day
    else if a.hour != b.hour then a.hour < b.hour
    else if a.minute != b.minute then a.minute < b.minute
    else if a.second != b.second then a.second < b.second
    else a.micro < b.micro
  }

  lemma DayInYear(y: int, m: int, d: int)
    requires ValidDate(y, m, d)
    ensures DaysBeforeMonth(y, m) + d - 1 < DaysInYear(y)
  {
    if m < 12 {
      DaysBeforeMonthMonotone(y, m, 12);
    }
    DaysBeforeMonthLast(y);
  }

  lemma DayIndexMonotone(a: DateTime, b: DateTime)
    requires Valid(a) && Valid(b)
    requires a.year < b.year || (a.year == b.year && (a.month < b.month || (a.month == b.month && a.day < b.day)))
    ensures DayIndex(a.year, a.month, a.day) < DayIndex(b.year, b.month, b.day)
  {
    DayInYear(a.year, a.month, a.day);
    if a.year < b.year {
      DaysBeforeYearMonotone(a.year, b.year);
    } else if a.month < b.month {
      DaysBeforeMonthMonotone(a.year, a.month, b.month);
    }
  }

  /** Later fields denote a later instant. */
  lemma ToInstantMonotone(a: DateTime, b: DateTime)
    requires Valid(a) && Valid(b) && Before(a, b)
    ensures ToInstant(a) < ToInstant(b)
  {
    var da := DayIndex(a.year, a.month, a.day);
    var db := DayIndex(b.year, b.month, b.day);
    var ra := ((a.hour * 60 + a.minute) * 60 + a.second) * UsPerSecond + a.micro;
    var rb := ((b.hour * 60 + b.minute) * 60 + b.second) * UsPerSecond + b.micro;
    assert 0 <= ra < UsPerDay && 0 <= rb < UsPerDay;
    if a.year != b.year || a.month != b.month || a.day != b.day {
      DayIndexMonotone(a, b);
      assert da * UsPerDay + UsPerDay <= db * UsPerDay;
    }
  }

  /** A canonical stamp is in the `strptime` layout, with three fraction digits. */
  lemma CanonicalLayout(s: string)
    requires Canonical(s)
    ensures Layout(s) && |s[20..|s| - 1]| == 3
  {
    assert ClassAt(0, s[0]) && ClassAt(1, s[1]) && ClassAt(2, s[2]) && ClassAt(3, s[3]);
    assert ClassAt(4, s[4]) && ClassAt(7, s[7]) && ClassAt(10, s[10]) && ClassAt(23, s[23]);
    assert ClassAt(13, s[13]) && ClassAt(16, s[16]);
    assert forall i :: 0 <= i < 24 && i !in {4, 7, 10, 13, 16, 19, 23} ==> ClassAt(i, s[i]) && IsDigit(s[i]);
  }

  lemma FieldStep(f1: string, f2: string, r1: string, r2: string)
    requires AllDigits(f1) && AllDigits(f2) && |f1| == |f2|
    ensures LexLess(f1 + r1, f2 + r2) <==> Value(f1) < Value(f2) || (Value(f1) == Value(f2) && LexLess(r1, r2))
  {
    LexLessAppend(f1, f2, r1, r2);
    LexLessDigits(f1, f2);
    if Value(f1) == Value(f2) {
      ValueInjective(f1, f2);
    }
  }

  lemma SeparatorStep(c: string, r1: string, r2: string)
    ensures LexLess(c + r1, c + r2) <==> LexLess(r1, r2)
  {
    LexLessAppend(c, c, r1, r2);
    LexLessIrreflexive(c);
  }

  /** The clock part of a stamp, `HH:MM:SS.fffZ`. */
  function ClockText(h: string, mi: string, se: string, frac: string): string
  {
    h + (":" + (mi + (":" + (se + ("." + (frac + "Z"))))))
  }

  /** A date part `YYYY-MM-DDT` followed by the clock part t. */
  function DateText(y: string, mo: string, d: string, t: string): string
  {
    y + ("-" + (mo + ("-" + (d + ("T" + t)))))
  }

  /** The order of clock parts is the order of their fields. */
  lemma {:induction false} ClockLex(h1: string, mi1: string, se1: string, ms1: string, h2: string, mi2: string, se2: string, ms2: string)
    requires AllDigits(h1) && AllDigits(mi1) && AllDigits(se1) && AllDigits(ms1)
    requires AllDigits(h2) && AllDigits(mi2) && AllDigits(se2) && AllDigits(ms2)
    requires |h1| == |h2| && |mi1| == |mi2| && |se1| == |se2| && |ms1| == |ms2|
    ensures LexLess(ClockText(h1, mi1, se1, ms1), ClockText(h2, mi2, se2, ms2))
      <==> if Value(h1) != Value(h2) then Value(h1) < Value(h2)
           else if Value(mi1) != Value(mi2) then Value(mi1) < Value(mi2)
           else if Value(se1) != Value(se2) then Value(se1) < Value(se2)
           else Value(ms1) < Value(ms2)
  {
    var u7, v7 := ms1 + "Z", ms2 + "Z";
    var u6, v6 := se1 + ("." + u7), se2 + ("." + v7);
    var u5, v5 := mi1 + (":" + u6), mi2 + (":" + v6);
    FieldStep(ms1, ms2, "Z", "Z");
    LexLessIrreflexive("Z");
    FieldStep(se1, se2, "." + u7, "." + v7);
    SeparatorStep(".", u7, v7);
    FieldStep(mi1, mi2, ":" + u6, ":" + v6);
    SeparatorStep(":", u6, v6);
    FieldStep(h1, h2, ":" + u5, ":" + v5);
    SeparatorStep(":", u5, v5);
  }

  /** The order of stamps is that of their date fields, then of their clock parts. */
  lemma {:induction false} DateLex(y1: string, mo1: string, d1: string, t1: string, y2: string, mo2: string, d2: string, t2: string)
    requires AllDigits(y1) && AllDigits(mo1) && AllDigits(d1) && AllDigits(y2) && AllDigits(mo2) && AllDigits(d2)
    requires |y1| == |y2| && |mo1| == |mo2| && |d1| == |d2|
    ensures LexLess(DateText(y1, mo1, d1, t1), DateText(y2, mo2, d2, t2))
      <==> if Value(y1) != Value(y2) then Value(y1) < Value(y2)
           else if Value(mo1) != Value(mo2) then Value(mo1) < Value(mo2)
           else if Value(d1) != Value(d2) then Value(d1) < Value(d2)
           else LexLess(t1, t2)
  {
    var u3, v3 := d1 + ("T" + t1), d2 + ("T" + t2);
    var u2, v2 := mo1 + ("-" + u3), mo2 + ("-" + v3);
    FieldStep(d1, d2, "T" + t1, "T" + t2);
    SeparatorStep("T", t1, t2);
    FieldStep(mo1, mo2, "-" + u3, "-" + v3);
    SeparatorStep("-", u3, v3);
    FieldStep(y1, y2, "-" + u2, "-" + v2);
    SeparatorStep("-", u2, v2);
  }

  /** On canonical stamps the code-point order of the texts is the order of their fields. */
  lemma CanonicalLexFields(s1: string, s2: string)
    requires Canonical(s1) && Canonical(s2)
    ensures Layout(s1) && Layout(s2) && (LexLess(s1, s2) <==> Before(Fields(s1), Fields(s2)))
  {
    CanonicalLayout(s1);
    CanonicalLayout(s2);
    AssembleOfSlices(s1);
    AssembleOfSlices(s2);
    var f1, f2 := Fields(s1), Fields(s2);
    var y1, mo1, d1, h1, mi1, se1, ms1 := s1[0..4], s1[5..7], s1[8..10], s1[11..13], s1[14..16], s1[17..19], s1[20..23];
    var y2, mo2, d2, h2, mi2, se2, ms2 := s2[0..4], s2[5..7], s2[8..10], s2[11..13], s2[14..16], s2[17..19], s2[20..23];
    var t1, t2 := ClockText(h1, mi1, se1, ms1), ClockText(h2, mi2, se2, ms2);
    assert s1 == DateText(y1, mo1, d1, t1);
    assert s2 == DateText(y2, mo2, d2, t2);
    ClockLex(h1, mi1, se1, ms1, h2, mi2, se2, ms2);
    DateLex(y1, mo1, d1, t1, y2, mo2, d2, t2);
    assert Pow10(3) == 1000;
    assert f1.micro == Value(ms1) * 1000 && f2.micro == Value(ms2) * 1000;
  }

  /**
   * Sorting canonical stamps as strings sorts them in time: on valid canonical
   * stamps `s1 < s2` holds exactly when the instant of s1 is earlier.
   */
  lemma CanonicalOrder(s1: string, s2: string)
    requires Canonical(s1) && Canonical(s2) && StrpTime(s1).Some? && StrpTime(s2).Some?
    ensures LexLess(s1, s2) <==> StrpTime(s1).value < StrpTime(s2).value
  {
    CanonicalLexFields(s1, s2);
    CanonicalLexFields(s2, s1);
    var f1, f2 := Fields(s1), Fields(s2);
    if Before(f1, f2) {
      ToInstantMonotone(f1, f2);
    } else if Before(f2, f1) {
      ToInstantMonotone(f2, f1);
    }
  }

  // ---------------------------------------------------------------- the host's datetime

  /**
   * The parts of Python's `datetime` the tools call, on instants:
   * `strptime(s, "%Y-%m-%dT%H:%M:%S.%fZ")` (`None` where it raises) and
   * `strftime("%Y-%m-%dT%H:%M:%S.%f")`, which `Python` ties to this calendar,
   * and the handling of an epoch `ts` value, `fromtimestamp(ts)` (`None` where
   * it raises) and `strftime("%s.%f")`, which depend on the host's time zone.
   */
  datatype DateLib = DateLib(strptime: string -> Option<int>, strftime: int -> string,
                             fromTimestamp: real -> Option<int>, epochText: int -> string)

  /** `strptime` and `strftime` behave as the proleptic Gregorian calendar above says. */
  ghost predicate Python(lib: DateLib)
  {
    && (forall s {:trigger StrpTime(s)} :: lib.strptime(s) == StrpTime(s))
    && (forall t {:trigger FromInstant(t)} :: InRange(t) ==> lib.strftime(t) == StrfTime(FromInstant(t)))
  }
}
