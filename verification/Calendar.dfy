/** UTC time truncated to grains, over the proleptic Gregorian calendar.

A time is a number of nanoseconds since 0001-01-01T00:00:00Z (Go's zero time). */
module Calendar {
  import opened Arithmetic

  datatype Grain = Minute | Hour | Day | Month | Unknown(name: string)

  const MINUTE := 60_000 * MILLI
  const HOUR := 60 * MINUTE
  const DAY := 24 * HOUR

  predicate ValidGrain(g: Grain) {
    !g.Unknown?
  }

  // ---------- the calendar ----------

  /** `n` counts years from 0: the year is `n + 1`. */
  predicate IsLeap(n: int) {
    (n + 1) % 4 == 0 && ((n + 1) % 100 != 0 || (n + 1) % 400 == 0)
  }

  /** Days from day 0 to the first day of year index `n`. */
  function YearStart(n: int): int {
    365 * n + n / 4 - n / 100 + n / 400
  }

  /** A whole division moves on exactly at the multiples. */
  lemma DivStep(n: int, d: int)
    requires d > 0
    ensures (n + 1) / d == n / d + if (n + 1) % d == 0 then 1 else 0
  {
    var q, r := n / d, n % d;
    assert n == q * d + r;
    if r + 1 < d {
      DivModUnique(n + 1, d, q, r + 1);
    } else {
      assert (q + 1) * d == q * d + d;
      DivModUnique(n + 1, d, q + 1, 0);
    }
  }

  /** A multiple of a multiple is a multiple. */
  lemma ModOfMultiple(n: int, d: int, k: int)
    requires d > 0 && k > 0 && d * k > 0 && n % (d * k) == 0
    ensures n % d == 0
  {
    var q := n / (d * k);
    assert n == q * (d * k) == (q * k) * d;
    DivModUnique(n, d, q * k, 0);
  }

  lemma YearLength(n: int)
    ensures YearStart(n + 1) - YearStart(n) == if IsLeap(n) then 366 else 365
  {
    DivStep(n, 4);
    DivStep(n, 100);
    DivStep(n, 400);
    if (n + 1) % 100 == 0 { ModOfMultiple(n + 1, 4, 25); }
    if (n + 1) % 400 == 0 { ModOfMultiple(n + 1, 100, 4); }
  }

  /** The year index a day falls in: an estimate from the mean year length, corrected by at most one. */
  function YearIndex(day: int): (n: int)
    ensures YearStart(n) <= day < YearStart(n + 1)
  {
    var e := 400 * day / 146097;
    if YearStart(e) > day then e - 1 else if YearStart(e + 1) <= day then e + 1 else e
  }

  const MONTH_STARTS: seq<int> := [0, 31, 59, 90, 120, 151, 181, 212, 243, 273, 304, 334, 365]

  /** Days from the first of the year to the first of month index `m` (0 is January). */
  function MonthStart(m: int, leap: bool): int
    requires 0 <= m <= 12
  {
    MONTH_STARTS[m] + if leap && m >= 2 then 1 else 0
  }

  function MonthIndex(dayOfYear: int, leap: bool): (m: int)
    requires 0 <= dayOfYear < (if leap then 366 else 365)
    ensures 0 <= m < 12 && MonthStart(m, leap) <= dayOfYear < MonthStart(m + 1, leap)
  {
    MonthFrom(11, dayOfYear, leap)
  }

  function MonthFrom(m: int, dayOfYear: int, leap: bool): (r: int)
    requires 0 <= m < 12 && 0 <= dayOfYear < MonthStart(m + 1, leap)
    ensures 0 <= r <= m && MonthStart(r, leap) <= dayOfYear < MonthStart(r + 1, leap)
    decreases m
  {
    if m == 0 || MonthStart(m, leap) <= dayOfYear then m else MonthFrom(m - 1, dayOfYear, leap)
  }

  /** The day number of a civil date, normalizing a month past December and any day overflow as time.Date does. */
  function DayNumber(year: int, month: int, day: int): int {
    var n, m := year + month / 12, month % 12;
    YearStart(n) + MonthStart(m, IsLeap(n)) + day
  }

  /** A year's months fill it, each with at least one day. */
  lemma MonthShape(leap: bool)
    ensures MonthStart(0, leap) == 0 && MonthStart(12, leap) == if leap then 366 else 365
    ensures forall m | 0 <= m < 12 :: MonthStart(m, leap) < MonthStart(m + 1, leap)
  {
  }

  /** The first of a month and of the month after it, December included. */
  lemma DayNumberPlain(year: int, month: int, day: int)
    requires 0 <= month < 12
    ensures DayNumber(year, month, day) == YearStart(year) + MonthStart(month, IsLeap(year)) + day
    ensures DayNumber(year, month + 1, day) == YearStart(year) + MonthStart(month + 1, IsLeap(year)) + day
  {
    hide YearStart;
    hide IsLeap;
    hide MonthStart;
    MonthShape(IsLeap(year));
    MonthShape(IsLeap(year + 1));
    YearLength(year);
  }

  datatype Date = Date(year: int, month: int, day: int)

  /** The civil date of a day number; month and day count from 0. */
  function DateOf(day: int): (d: Date)
    ensures 0 <= d.month < 12
    ensures 0 <= d.day < MonthStart(d.month + 1, IsLeap(d.year)) - MonthStart(d.month, IsLeap(d.year))
    ensures day == YearStart(d.year) + MonthStart(d.month, IsLeap(d.year)) + d.day
  {
    hide YearStart;
    hide IsLeap;
    hide MonthStart;
    hide YearIndex;
    var n := YearIndex(day);
    YearLength(n);
    var m := MonthIndex(day - YearStart(n), IsLeap(n));
    Date(n, m, day - YearStart(n) - MonthStart(m, IsLeap(n)))
  }

  function DayOf(t: int): int { t / DAY }
  function TimeOfDay(t: int): int { t % DAY }

  // ---------- grains ----------

  function Truncate(t: int, g: Grain): int {
    match g
    case Minute => t - t % MINUTE
    case Hour => t - t % HOUR
    case Day => var d := DateOf(DayOf(t)); DayNumber(d.year, d.month, d.day) * DAY
    case Month => var d := DateOf(DayOf(t)); DayNumber(d.year, d.month, 0) * DAY
    case Unknown(_) => t
  }

  function Next(start: int, g: Grain): int {
    match g
    case Minute => start + MINUTE
    case Hour => start + HOUR
    case Day =>
      var d := DateOf(DayOf(start));
      DayNumber(d.year, d.month, d.day + 1) * DAY + TimeOfDay(start)
    case Month =>
      var d := DateOf(DayOf(start));
      DayNumber(d.year, d.month + 1, d.day) * DAY + TimeOfDay(start)
    case Unknown(_) => start
  }

  predicate Aligned(t: int, g: Grain) {
    Truncate(t, g) == t
  }

  // ---------- months ----------

  function FirstOfMonth(day: int): int {
    var d := DateOf(day);
    DayNumber(d.year, d.month, 0)
  }

  function NextFirst(day: int): int {
    var d := DateOf(day);
    DayNumber(d.year, d.month + 1, 0)
  }

  /** A day lies in its month, and the month after starts where this one ends. */
  lemma MonthContainsDay(day: int)
    ensures FirstOfMonth(day) <= day < NextFirst(day)
  {
    hide YearStart;
    hide IsLeap;
    hide MonthStart;
    hide DateOf;
    hide DayNumber;
    var d := DateOf(day);
    DayNumberPlain(d.year, d.month, 0);
  }

  /** Dates order as their day numbers do, so a date is determined by the month that contains it. */
  lemma MonthOfDay(year: int, month: int, day: int)
    requires 0 <= month < 12
    requires YearStart(year) + MonthStart(month, IsLeap(year)) <= day
             < YearStart(year) + MonthStart(month + 1, IsLeap(year))
    ensures DateOf(day).year == year && DateOf(day).month == month
  {
    hide YearStart;
    hide IsLeap;
    hide MonthStart;
    hide DateOf;
    var d := DateOf(day);
    YearLength(year);
    YearLength(d.year);
    YearsApart(year, d.year);
    YearsApart(d.year, year);
    MonthShape(IsLeap(year));
    MonthShape(IsLeap(d.year));
    MonthsApart(0, month, IsLeap(year));
    MonthsApart(month + 1, 12, IsLeap(year));
    MonthsApart(0, d.month, IsLeap(d.year));
    MonthsApart(d.month + 1, 12, IsLeap(d.year));
    if d.month < month {
      MonthsApart(d.month + 1, month, IsLeap(year));
    } else if d.month > month {
      MonthsApart(month + 1, d.month, IsLeap(year));
    }
  }

  lemma {:induction false} YearsApart(a: int, b: int)
    ensures a < b ==> YearStart(a + 1) <= YearStart(b)
    decreases b - a
  {
    hide YearStart;
    hide IsLeap;
    if a + 1 < b {
      YearsApart(a, b - 1);
      YearLength(b - 1);
    }
  }

  lemma {:induction false} MonthsApart(a: int, b: int, leap: bool)
    requires 0 <= a <= b <= 12
    ensures MonthStart(a, leap) <= MonthStart(b, leap)
    decreases b - a
  {
    if a < b {
      MonthsApart(a, b - 1, leap);
    }
  }

  /** Every day between two firsts belongs to the month that starts there. */
  lemma SameMonth(first: int, day: int)
    requires FirstOfMonth(first) == first && first <= day < NextFirst(first)
    ensures FirstOfMonth(day) == first
  {
    hide YearStart;
    hide IsLeap;
    hide MonthStart;
    hide DateOf;
    hide DayNumber;
    var d := DateOf(first);
    DayNumberPlain(d.year, d.month, 0);
    MonthOfDay(d.year, d.month, day);
  }

  lemma MonthFirstIsFirst(day: int)
    ensures FirstOfMonth(FirstOfMonth(day)) == FirstOfMonth(day)
    ensures NextFirst(FirstOfMonth(day)) == NextFirst(day)
  {
    hide YearStart;
    hide IsLeap;
    hide MonthStart;
    hide DateOf;
    hide DayNumber;
    var d := DateOf(day);
    DayNumberPlain(d.year, d.month, 0);
    MonthContainsDay(day);
    MonthOfDay(d.year, d.month, FirstOfMonth(day));
  }

  lemma NextFirstIsFirst(day: int)
    ensures FirstOfMonth(NextFirst(day)) == NextFirst(day)
  {
    hide YearStart;
    hide IsLeap;
    hide MonthStart;
    hide DateOf;
    hide DayNumber;
    var d, next := DateOf(day), NextFirst(day);
    var n, m := if d.month < 11 then d.year else d.year + 1, if d.month < 11 then d.month + 1 else 0;
    DayNumberPlain(d.year, d.month, 0);
    YearLength(d.year);
    MonthShape(IsLeap(d.year));
    MonthShape(IsLeap(n));
    MonthOfDay(n, m, next);
    DayNumberPlain(n, m, 0);
  }

  lemma DaySplit(d: int, tod: int)
    requires 0 <= tod < DAY
    ensures DayOf(d * DAY + tod) == d && TimeOfDay(d * DAY + tod) == tod
  {
    DivModUnique(d * DAY + tod, DAY, d, tod);
  }

  lemma DayStep(t: int)
    ensures Truncate(t, Day) == DayOf(t) * DAY
    ensures Next(DayOf(t) * DAY, Day) == (DayOf(t) + 1) * DAY
    ensures DayOf(t) * DAY <= t < (DayOf(t) + 1) * DAY
  {
    hide YearStart;
    hide IsLeap;
    hide MonthStart;
    hide DateOf;
    hide DayNumber;
    DaySplit(DayOf(t), 0);
    var d := DateOf(DayOf(t));
    DayNumberPlain(d.year, d.month, d.day);
    DayNumberPlain(d.year, d.month, d.day + 1);
  }

  lemma MonthStep(t: int)
    ensures Truncate(t, Month) == FirstOfMonth(DayOf(t)) * DAY
    ensures Next(Truncate(t, Month), Month) == NextFirst(DayOf(t)) * DAY
  {
    hide YearStart;
    hide IsLeap;
    hide MonthStart;
    hide DateOf;
    hide DayNumber;
    var first := FirstOfMonth(DayOf(t));
    MonthFirstIsFirst(DayOf(t));
    DaySplit(first, 0);
    var d := DateOf(first);
    DayNumberPlain(d.year, d.month, 0);
    assert d.day == 0;
  }

  // ---------- grains of a fixed length ----------

  /** The length of a minute, an hour or a day. */
  function Unit(g: Grain): (u: int)
    requires g.Minute? || g.Hour? || g.Day?
    ensures u > 0
  {
    match g case Minute => MINUTE case Hour => HOUR case Day => DAY
  }

  lemma FixedTruncate(t: int, g: Grain)
    requires g.Minute? || g.Hour? || g.Day?
    ensures Truncate(t, g) == t / Unit(g) * Unit(g) && Truncate(t, g) <= t < Truncate(t, g) + Unit(g)
  {
    hide DateOf;
    hide DayNumber;
    if g.Day? {
      DayStep(t);
    }
    UnitStep(t, Unit(g));
  }

  lemma FixedNext(t: int, g: Grain)
    requires g.Minute? || g.Hour? || g.Day?
    ensures Next(Truncate(t, g), g) == Truncate(t, g) + Unit(g)
  {
    hide DateOf;
    hide DayNumber;
    if g.Day? {
      DayStep(t);
    }
  }

  // ---------- what truncation promises ----------

  /** A time lies in the period its truncation starts. */
  lemma TruncateBounds(t: int, g: Grain)
    requires ValidGrain(g)
    ensures Truncate(t, g) <= t < Next(Truncate(t, g), g)
  {
    hide Truncate;
    hide Next;
    hide Unit;
    hide FirstOfMonth;
    hide NextFirst;
    if g.Month? {
      MonthStep(t);
      MonthContainsDay(DayOf(t));
      DayStep(t);
    } else {
      FixedTruncate(t, g);
      FixedNext(t, g);
    }
  }

  lemma TruncateIsAligned(t: int, g: Grain)
    ensures Aligned(Truncate(t, g), g)
  {
    hide Unit;
    hide DateOf;
    hide DayNumber;
    hide FirstOfMonth;
    hide NextFirst;
    if g.Month? {
      hide Truncate;
      MonthStep(t);
      MonthStep(Truncate(t, Month));
      MonthFirstIsFirst(DayOf(t));
      DaySplit(FirstOfMonth(DayOf(t)), 0);
    } else if !g.Unknown? {
      hide Truncate;
      FixedTruncate(t, g);
      FixedTruncate(Truncate(t, g), g);
      MultipleDiv(t / Unit(g), Unit(g));
    }
  }

  /** Periods do not overlap: the aligned start whose period contains a time is its truncation. */
  lemma TruncateIsTheStart(b: int, t: int, g: Grain)
    requires ValidGrain(g) && Aligned(b, g) && b <= t < Next(b, g)
    ensures Truncate(t, g) == b
  {
    hide Truncate;
    hide Next;
    hide Unit;
    hide FirstOfMonth;
    hide NextFirst;
    if g.Month? {
      MonthStep(b);
      MonthStep(t);
      MonthFirstIsFirst(DayOf(b));
      DaySplit(FirstOfMonth(DayOf(b)), 0);
      DivBounds(FirstOfMonth(DayOf(b)), NextFirst(DayOf(b)), t, DAY);
      SameMonth(DayOf(b), DayOf(t));
    } else {
      FixedTruncate(b, g);
      FixedNext(b, g);
      FixedTruncate(t, g);
      OneUnit(b / Unit(g), t, Unit(g));
    }
  }

  lemma TruncateMonotone(s: int, t: int, g: Grain)
    requires ValidGrain(g) && s <= t
    ensures Truncate(s, g) <= Truncate(t, g)
  {
    hide Truncate;
    hide Next;
    TruncateBounds(s, g);
    TruncateBounds(t, g);
    TruncateIsAligned(t, g);
    if Truncate(t, g) <= s {
      TruncateIsTheStart(Truncate(t, g), s, g);
    }
  }

  /** The period after an aligned start begins where it ends. */
  lemma NextIsAligned(b: int, g: Grain)
    requires ValidGrain(g) && Aligned(b, g)
    ensures b < Next(b, g) && Aligned(Next(b, g), g)
  {
    hide Truncate;
    hide Next;
    hide Unit;
    hide FirstOfMonth;
    hide NextFirst;
    TruncateBounds(b, g);
    if g.Month? {
      MonthStep(b);
      NextFirstIsFirst(DayOf(b));
      DaySplit(NextFirst(DayOf(b)), 0);
      MonthStep(Next(b, Month));
    } else {
      FixedTruncate(b, g);
      FixedNext(b, g);
      FixedTruncate(Next(b, g), g);
      NextMultiple(b / Unit(g), Unit(g));
    }
  }

  lemma NextMultiple(q: int, unit: int)
    requires unit > 0
    ensures (q * unit + unit) / unit * unit == q * unit + unit
  {
    assert q * unit + unit == (q + 1) * unit;
    MultipleDiv(q + 1, unit);
  }

  // ---------- nesting ----------

  function Rank(g: Grain): int {
    match g case Minute => 0 case Hour => 1 case Day => 2 case Month => 3 case Unknown(_) => 4
  }

  /** `w` is at least as coarse as `g`. */
  predicate AtLeastAsCoarse(w: Grain, g: Grain) {
    ValidGrain(w) && ValidGrain(g) && Rank(w) >= Rank(g)
  }

  lemma MulRegroup(q: int, k: int, a: int, r: int)
    ensures (q * k + a) * r == q * (r * k) + a * r
  {
    assert (q * k + a) * r == (q * k) * r + a * r;
    assert (q * k) * r == q * (k * r);
    assert k * r == r * k;
  }

  /** The rest of a division by a divisor is no more than the rest by its multiple. */
  lemma DayRemainder(t: int, r: int, k: int)
    requires r > 0 && k > 0 && r * k > 0
    ensures t % r <= t % (r * k) && t % r == (t % (r * k)) % r
  {
    var q, rest := t / (r * k), t % (r * k);
    UnitStep(t, r * k);
    UnitStep(rest, r);
    MulRegroup(q, k, rest / r, r);
    DivModUnique(t, r, q * k + rest / r, rest % r);
  }

  lemma SameDay(t: int, g: Grain)
    requires g.Minute? || g.Hour? || g.Day?
    ensures DayOf(Truncate(t, g)) == DayOf(t)
  {
    hide DateOf;
    hide DayNumber;
    hide FirstOfMonth;
    hide NextFirst;
    if g.Day? {
      DayStep(t);
      DaySplit(DayOf(t), 0);
    } else {
      var r := if g.Minute? then MINUTE else HOUR;
      assert t % DAY >= t % r by {
        DayRemainder(t, r, DAY / r);
      }
      assert t == DayOf(t) * DAY + t % DAY;
      DaySplit(DayOf(t), t % DAY - t % r);
    }
  }

  /** Truncating to a grain first does not change the coarser period. */
  lemma TruncateNests(t: int, g: Grain, w: Grain)
    requires AtLeastAsCoarse(w, g)
    ensures Truncate(Truncate(t, g), w) == Truncate(t, w)
  {
    hide DateOf;
    hide DayNumber;
    hide FirstOfMonth;
    hide NextFirst;
    if w == g {
      TruncateIsAligned(t, g);
    } else if w.Hour? {
      DayRemainder(t, MINUTE, HOUR / MINUTE);
      assert t == (t / HOUR) * HOUR + t % HOUR;
      DivModUnique(t - t % MINUTE, HOUR, t / HOUR, t % HOUR - t % MINUTE);
    } else {
      SameDay(t, g);
    }
  }
}
