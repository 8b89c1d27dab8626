/**
 * Two ways the program buckets instants by week, both in UTC: the supply report's ISO week
 * key and the time series' Monday. Days are numbered from 0001-01-01, which is a Monday in
 * the proleptic Gregorian calendar.
 */
module IsoWeek {

  const MS_PER_DAY := 86_400_000
  /** 1970-01-01. */
  const EPOCH_DAY := 719162

  // ----- the calendar

  predicate Leap(y: int) {
    y % 4 == 0 && (y % 100 != 0 || y % 400 == 0)
  }

  /** The number of 1 January. */
  function YearStart(y: int): int {
    365 * (y - 1) + (y - 1) / 4 - (y - 1) / 100 + (y - 1) / 400
  }

  lemma Fours(y: int)
    ensures y / 4 == (y - 1) / 4 + if y % 4 == 0 then 1 else 0
  {
  }

  lemma Hundred(a: int, q: int, r: int)
    requires a == 100 * q + r && 0 <= r < 100
    ensures a / 100 == q && a % 100 == r
  {
  }

  lemma FourHundred(a: int, q: int, r: int)
    requires a == 400 * q + r && 0 <= r < 400
    ensures a / 400 == q && a % 400 == r
  {
  }

  lemma MultipleOfFour(k: int)
    ensures (4 * k) % 4 == 0
  {
  }

  lemma Hundreds(y: int)
    ensures y / 100 == (y - 1) / 100 + if y % 100 == 0 then 1 else 0
    ensures y % 100 == 0 ==> y % 4 == 0
  {
    var q, r := y / 100, y % 100;
    if r == 0 {
      Hundred(y - 1, q - 1, 99);
      MultipleOfFour(25 * q);
    } else {
      Hundred(y - 1, q, r - 1);
    }
  }

  lemma FourHundreds(y: int)
    ensures y / 400 == (y - 1) / 400 + if y % 400 == 0 then 1 else 0
    ensures y % 400 == 0 ==> y % 100 == 0
  {
    var q, r := y / 400, y % 400;
    if r == 0 {
      FourHundred(y - 1, q - 1, 399);
      Hundred(y, 4 * q, 0);
    } else {
      FourHundred(y - 1, q, r - 1);
    }
  }

  lemma YearLength(y: int)
    ensures YearStart(y + 1) == YearStart(y) + if Leap(y) then 366 else 365
  {
    Fours(y);
    Hundreds(y);
    FourHundreds(y);
  }

  lemma {:induction false} YearsGrow(y: int, z: int)
    requires y <= z
    ensures YearStart(y) + 365 * (z - y) <= YearStart(z)
    decreases z - y
  {
    if y < z {
      YearsGrow(y, z - 1);
      YearLength(z - 1);
    }
  }

  function YearFrom(n: int, y: int): (r: int)
    requires YearStart(y) <= n
    ensures y <= r && YearStart(r) <= n < YearStart(r + 1)
    decreases n - YearStart(y)
  {
    YearLength(y);
    if n < YearStart(y + 1) then y else YearFrom(n, y + 1)
  }

  /** The Gregorian year of a day. */
  function YearOf(n: nat): (y: int)
    ensures 1 <= y && YearStart(y) <= n < YearStart(y + 1)
  {
    YearFrom(n, 1)
  }

  /** The UTC day of an instant. */
  function DayOf(ms: int): int {
    ms / MS_PER_DAY + EPOCH_DAY
  }

  /** getUTCDay: 0 is Sunday; the epoch fell on a Thursday. */
  function UtcDay(n: int): int {
    (n - EPOCH_DAY + 4) % 7
  }

  lemma MondayIsZero(n: int)
    ensures (UtcDay(n) + 6) % 7 == n % 7
  {
  }

  function Thursday(n: int): int {
    n - n % 7 + 3
  }

  /** Day 0 is the Monday 0001-01-01, and 1970-01-01 is the Thursday the epoch fell on. */
  lemma EpochIsTheFirstOf1970()
    ensures YearStart(1) == 0 && YearStart(1970) == EPOCH_DAY
    ensures UtcDay(0) == 1 && UtcDay(EPOCH_DAY) == 4
    ensures DayOf(0) == EPOCH_DAY && DayOf(86_399_999) == EPOCH_DAY && DayOf(86_400_000) == EPOCH_DAY + 1
    ensures DayOf(-1) == EPOCH_DAY - 1
  {
  }

  // ----- isoWeekKey

  /** Math.round(a / b). */
  function Round(a: int, b: int): int
    requires b > 0
  {
    (2 * a + b) / (2 * b)
  }

  datatype WeekDate = WeekDate(year: int, week: int)

  /** The local Date is shifted once, to the Thursday nearest its day. */
  function IsoWeekOf(day: int): WeekDate
    requires day >= 7
  {
    var weekday := (UtcDay(day) + 6) % 7;
    var shifted := day - weekday + 3;
    var year := YearOf(shifted);
    var fourth := YearStart(year) + 3;
    WeekDate(year, 1 + Round(shifted - fourth - 3 + (UtcDay(fourth) + 6) % 7, 7))
  }

  /** The Thursdays of a year, counted up to and including the given one. */
  function ThursdaysThrough(thursday: nat): int {
    (thursday - YearStart(YearOf(thursday))) / 7 + 1
  }

  lemma WeeksAndRest(k: int, gap: int)
    requires 0 <= gap <= 6 && 0 <= 7 * k + gap <= 365
    ensures (7 * k) % 7 == 0 && (7 * k) / 7 == k == (7 * k + gap) / 7 == Round(7 * k, 7) && 0 <= k <= 52
  {
  }

  /** Arithmetic only: `x` days after the first Thursday is a whole number of weeks. */
  lemma FirstThursday(start: int, t: int)
    requires t % 7 == 3 && start <= t <= start + 365
    ensures var x := t - (start + 3) - 3 + (start + 3) % 7;
            x % 7 == 0 && Round(x, 7) == x / 7 == (t - start) / 7 && 0 <= x / 7 <= 52
  {
    var x := t - (start + 3) - 3 + (start + 3) % 7;
    var q := (start + 3) / 7;
    assert start + 3 == 7 * q + (start + 3) % 7;
    assert t == 7 * (t / 7) + 3;
    assert x == 7 * (t / 7 - q);
    var gap := 6 - (start + 3) % 7;
    assert t - start == x + gap && 0 <= gap <= 6;
    WeeksAndRest(t / 7 - q, gap);
  }

  /**
   * Section 2.2.10 of ISO 8601:2004: a week belongs to the year of its Thursday, and week 1
   * is the one with the year's first Thursday. The code divides exactly and gets that.
   */
  lemma WeekIsTheStandards(day: int)
    requires day >= 7
    ensures var thursday := Thursday(day);
            && IsoWeekOf(day) == WeekDate(YearOf(thursday), ThursdaysThrough(thursday))
            && 1 <= IsoWeekOf(day).week <= 53
            && var fourth := YearStart(YearOf(thursday)) + 3;
               (thursday - fourth - 3 + (UtcDay(fourth) + 6) % 7) % 7 == 0
  {
    hide YearStart, YearOf, UtcDay, Round, Leap;
    MondayIsZero(day);
    var t := Thursday(day);
    var year := YearOf(t);
    var start := YearStart(year);
    var fourth := start + 3;
    MondayIsZero(fourth);
    YearLength(year);
    FirstThursday(start, t);
  }

  // ----- order

  predicate Earlier(a: WeekDate, b: WeekDate) {
    a.year < b.year || (a.year == b.year && a.week < b.week)
  }

  lemma SameYear(start: int, s: int, t: int)
    requires s % 7 == 3 == t % 7 && start <= s && start <= t
    ensures (s - start) / 7 < (t - start) / 7 <==> s < t
    ensures (s - start) / 7 == (t - start) / 7 <==> s == t
  {
    assert s == 7 * (s / 7) + 3 && t == 7 * (t / 7) + 3;
  }

  lemma WeeksOfOneYear(s: nat, t: nat)
    requires s % 7 == 3 == t % 7 && YearOf(s) == YearOf(t)
    ensures ThursdaysThrough(s) < ThursdaysThrough(t) <==> s < t
    ensures ThursdaysThrough(s) == ThursdaysThrough(t) <==> s == t
  {
    SameYear(YearStart(YearOf(s)), s, t);
  }

  lemma ThursdayIsOne(n: nat)
    ensures Thursday(n) >= 3 && Thursday(n) % 7 == 3
  {
    assert n == 7 * (n / 7) + n % 7;
  }

  /** Week dates order the weeks as time does, and tell them apart. */
  lemma WeeksAreChronological(a: int, b: int)
    requires a >= 7 && b >= 7
    ensures Earlier(IsoWeekOf(a), IsoWeekOf(b)) <==> Thursday(a) < Thursday(b)
    ensures IsoWeekOf(a) == IsoWeekOf(b) <==> Thursday(a) == Thursday(b)
  {
    hide YearStart, YearOf, UtcDay, Round, Leap, IsoWeekOf, ThursdaysThrough, Thursday;
    ThursdayIsOne(a);
    ThursdayIsOne(b);
    WeekIsTheStandards(a);
    WeekIsTheStandards(b);
    var s, t := Thursday(a), Thursday(b);
    var y, z := YearOf(s), YearOf(t);
    if y < z {
      YearsGrow(y + 1, z);
    } else if z < y {
      YearsGrow(z + 1, y);
    } else {
      WeeksOfOneYear(s, t);
    }
  }

  // ----- texts

  /** How `sort` and `<` order strings. */
  predicate Before(s: string, t: string) {
    if t == "" then false
    else if s == "" then true
    else s[0] < t[0] || (s[0] == t[0] && Before(s[1..], t[1..]))
  }

  lemma {:induction false} BeforeConcat(a: string, b: string, x: string, y: string)
    requires |a| == |b|
    ensures Before(a + x, b + y) <==> Before(a, b) || (a == b && Before(x, y))
  {
    if a == "" {
      assert a + x == x && b + y == y;
    } else {
      BeforeConcat(a[1..], b[1..], x, y);
      assert (a + x)[1..] == a[1..] + x && (b + y)[1..] == b[1..] + y;
      assert a == [a[0]] + a[1..] && b == [b[0]] + b[1..];
    }
  }

  function Digit(d: int): char
    requires 0 <= d <= 9
  {
    "0123456789"[d]
  }

  /** `width` decimal digits, padded with zeros. */
  function Digits(n: nat, width: nat): (s: string)
    ensures |s| == width
  {
    if width == 0 then "" else Digits(n / 10, width - 1) + [Digit(n % 10)]
  }

  /** The number a decimal text stands for. */
  function Value(s: string): int {
    if s == "" then 0 else 10 * Value(s[..|s| - 1]) + (s[|s| - 1] as int - '0' as int)
  }

  lemma DigitIsDecimal(d: int)
    requires 0 <= d <= 9
    ensures Digit(d) as int == '0' as int + d
  {
  }

  function Limit(width: nat): nat {
    if width == 0 then 1 else 10 * Limit(width - 1)
  }

  /** The digits are the number's, in decimal. */
  lemma {:induction false} DigitsAreDecimal(n: nat, width: nat)
    requires n < Limit(width)
    ensures Value(Digits(n, width)) == n
    ensures forall i :: 0 <= i < width ==> '0' <= Digits(n, width)[i] <= '9'
  {
    if width > 0 {
      DigitsAreDecimal(n / 10, width - 1);
      DigitIsDecimal(n % 10);
    }
  }

  lemma DigitOrder(c: int, d: int)
    requires 0 <= c <= 9 && 0 <= d <= 9
    ensures Digit(c) < Digit(d) <==> c < d
  {
  }

  lemma {:induction false} DigitsOrder(m: nat, n: nat, width: nat)
    requires m < Limit(width) && n < Limit(width)
    ensures Before(Digits(m, width), Digits(n, width)) <==> m < n
    ensures Digits(m, width) == Digits(n, width) <==> m == n
  {
    if width > 0 {
      DigitsOrder(m / 10, n / 10, width - 1);
      var a, b := Digits(m / 10, width - 1), Digits(n / 10, width - 1);
      var c, d := Digit(m % 10), Digit(n % 10);
      BeforeConcat(a, b, [c], [d]);
      DigitOrder(m % 10, n % 10);
      DigitOrder(n % 10, m % 10);
      assert Before([c], [d]) <==> c < d;
      assert a + [c] == b + [d] <==> a == b && c == d by {
        if a + [c] == b + [d] {
          assert a == (a + [c])[..width - 1] && b == (b + [d])[..width - 1];
          assert c == (a + [c])[width - 1] && d == (b + [d])[width - 1];
        }
      }
    }
  }

  // ----- the keys

  /** Days of the years 1000 to 9999, whose decimal text has four digits. */
  predicate FourDigits(day: int) {
    YearStart(1000) <= day < YearStart(10000)
  }

  lemma FourDigitBounds()
    ensures YearStart(1) == 0 && YearStart(1000) == 364877 && YearStart(10000) == 3652059
  {
  }

  lemma FourDigitsExactly(day: nat)
    ensures FourDigits(day) <==> 1000 <= YearOf(day) <= 9999
  {
    hide YearStart;
    var y := YearOf(day);
    if y < 1000 {
      YearsGrow(y + 1, 1000);
    } else if y > 9999 {
      YearsGrow(10000, y);
    } else {
      YearsGrow(1000, y);
      YearsGrow(y + 1, 10000);
    }
  }

  /** The first of those days is a Wednesday, the last a Friday. */
  lemma WholeWeeks(day: int)
    requires 364877 <= day < 3652059
    ensures 364878 <= Thursday(day) <= 3652057
  {
    assert day == 7 * (day / 7) + day % 7;
    assert 52125 <= day / 7 <= 521722;
  }

  /** The Thursday of such a day is such a day too. */
  lemma ThursdayFourDigits(day: int)
    requires FourDigits(day)
    ensures day >= 7 && FourDigits(Thursday(day)) && 1000 <= YearOf(Thursday(day)) <= 9999
    ensures YearStart(1) <= Thursday(day) - 3 < YearStart(10000)
  {
    hide YearStart, YearOf, Leap;
    FourDigitBounds();
    WholeWeeks(day);
    var y := YearOf(Thursday(day));
    if y < 1000 {
      YearsGrow(y + 1, 1000);
    } else if y > 9999 {
      YearsGrow(10000, y);
    }
  }

  function WeekText(w: WeekDate): string
    requires 1000 <= w.year <= 9999 && 1 <= w.week <= 53
  {
    Digits(w.year, 4) + "-W" + Digits(w.week, 2)
  }

  function IsoWeekKey(ms: int): string
    requires FourDigits(DayOf(ms))
  {
    ThursdayFourDigits(DayOf(ms));
    WeekIsTheStandards(DayOf(ms));
    WeekText(IsoWeekOf(DayOf(ms)))
  }

  lemma Limits()
    ensures Limit(2) == 100 && Limit(4) == 10000
  {
    assert Limit(0) == 1 && Limit(1) == 10 && Limit(2) == 100 && Limit(3) == 1000;
  }

  lemma {:induction false} BeforeItself(s: string)
    ensures !Before(s, s)
  {
    if s != "" {
      BeforeItself(s[1..]);
    }
  }

  /** Fields of equal width around a common separator compare field by field. */
  lemma TwoFields(a: string, b: string, sep: string, x: string, y: string)
    requires |a| == |b|
    ensures Before(a + sep + x, b + sep + y) <==> Before(a, b) || (a == b && Before(x, y))
    ensures a + sep + x == b + sep + y <==> a == b && x == y
  {
    BeforeConcat(a, b, sep + x, sep + y);
    BeforeConcat(sep, sep, x, y);
    BeforeItself(sep);
    assert a + sep + x == a + (sep + x) && b + sep + y == b + (sep + y);
    if a + sep + x == b + sep + y {
      assert a == (a + sep + x)[..|a|] && b == (b + sep + y)[..|a|];
      assert x == (a + sep + x)[|a| + |sep|..] && y == (b + sep + y)[|a| + |sep|..];
    }
  }

  /** "2026-W34": the year's four digits and the week's two. */
  lemma WeekTextReads(w: WeekDate)
    requires 1000 <= w.year <= 9999 && 1 <= w.week <= 53
    ensures var s := WeekText(w);
            |s| == 8 && Value(s[..4]) == w.year && s[4..6] == "-W" && Value(s[6..]) == w.week
  {
    Limits();
    DigitsAreDecimal(w.year, 4);
    DigitsAreDecimal(w.week, 2);
    var y, n := Digits(w.year, 4), Digits(w.week, 2);
    hide Digits, Limit, Value;
    assert (y + "-W" + n)[..4] == y && (y + "-W" + n)[6..] == n;
  }

  lemma WeekTextOrder(v: WeekDate, w: WeekDate)
    requires 1000 <= v.year <= 9999 && 1 <= v.week <= 53
    requires 1000 <= w.year <= 9999 && 1 <= w.week <= 53
    ensures Before(WeekText(v), WeekText(w)) <==> Earlier(v, w)
    ensures WeekText(v) == WeekText(w) <==> v == w
  {
    Limits();
    hide Digits, Limit;
    DigitsOrder(v.year, w.year, 4);
    DigitsOrder(v.week, w.week, 2);
    TwoFields(Digits(v.year, 4), Digits(w.year, 4), "-W", Digits(v.week, 2), Digits(w.week, 2));
  }

  // ----- weekStartOf

  /** Days of the year before month `m`. */
  function MonthStart(m: int, leap: bool): int
    requires 1 <= m <= 13
  {
    [0, 31, 59, 90, 120, 151, 181, 212, 243, 273, 304, 334, 365][m - 1] + if leap && m > 2 then 1 else 0
  }

  /** Thirty days have the fourth, sixth, ninth and eleventh month, the second 28 or 29. */
  lemma MonthLengths(m: int, leap: bool)
    requires 1 <= m <= 12
    ensures MonthStart(1, leap) == 0 && MonthStart(13, leap) == if leap then 366 else 365
    ensures MonthStart(m + 1, leap) - MonthStart(m, leap)
         == if m == 2 then (if leap then 29 else 28) else if m == 4 || m == 6 || m == 9 || m == 11 then 30 else 31
  {
  }

  function MonthFrom(dayOfYear: int, leap: bool, m: int): (r: int)
    requires 1 <= m <= 12 && MonthStart(m, leap) <= dayOfYear < MonthStart(13, leap)
    ensures m <= r <= 12 && MonthStart(r, leap) <= dayOfYear < MonthStart(r + 1, leap)
    decreases 12 - m
  {
    if m == 12 || dayOfYear < MonthStart(m + 1, leap) then m else MonthFrom(dayOfYear, leap, m + 1)
  }

  datatype Civil = Civil(year: int, month: int, day: int)

  function DayOfYear(n: nat): (r: int)
    ensures 0 <= r < MonthStart(13, Leap(YearOf(n)))
    ensures r == n - YearStart(YearOf(n))
  {
    YearLength(YearOf(n));
    n - YearStart(YearOf(n))
  }

  function MonthDay(dayOfYear: int, leap: bool): (r: (int, int))
    requires 0 <= dayOfYear < MonthStart(13, leap)
    ensures 1 <= r.0 <= 12 && 1 <= r.1 <= 31
    ensures dayOfYear == MonthStart(r.0, leap) + r.1 - 1 && dayOfYear < MonthStart(r.0 + 1, leap)
  {
    var m := MonthFrom(dayOfYear, leap, 1);
    (m, dayOfYear - MonthStart(m, leap) + 1)
  }

  function CivilOf(n: nat): Civil {
    var md := MonthDay(DayOfYear(n), Leap(YearOf(n)));
    Civil(YearOf(n), md.0, md.1)
  }

  lemma CivilInRange(n: nat)
    ensures var c := CivilOf(n);
            && 1 <= c.year && 1 <= c.month <= 12 && 1 <= c.day <= 31
            && n == YearStart(c.year) + MonthStart(c.month, Leap(c.year)) + c.day - 1
            && n < YearStart(c.year) + MonthStart(c.month + 1, Leap(c.year))
    ensures YearStart(CivilOf(n).year) <= n < YearStart(CivilOf(n).year + 1)
  {
    hide YearStart, MonthStart, Leap;
  }

  /** toISOString().slice(0, 10), for the years up to 9999. */
  function DateText(n: nat): string
    requires n < YearStart(10000)
  {
    var c := CivilOf(n);
    CivilInRange(n);
    Digits(c.year, 4) + "-" + (Digits(c.month, 2) + "-" + Digits(c.day, 2))
  }

  lemma BelowTenThousand(n: nat)
    requires n < YearStart(10000)
    ensures CivilOf(n).year <= 9999
  {
    hide YearStart;
    CivilInRange(n);
    if CivilOf(n).year > 9999 {
      YearsGrow(10000, CivilOf(n).year);
    }
  }

  /** "2026-08-17": year, month and day, of the very day meant. */
  lemma DateTextReads(n: nat)
    requires n < YearStart(10000)
    ensures var s := DateText(n);
            && |s| == 10 && s[4] == '-' && s[7] == '-'
            && 1 <= Value(s[5..7]) <= 12
            && n == YearStart(Value(s[..4])) + MonthStart(Value(s[5..7]), Leap(Value(s[..4]))) + Value(s[8..]) - 1
            && 1 <= Value(s[8..]) <= 31 && YearOf(n) == Value(s[..4])
  {
    hide YearStart, MonthStart, Leap, Digits, Limit, Value;
    var c := CivilOf(n);
    CivilInRange(n);
    BelowTenThousand(n);
    Limits();
    DigitsAreDecimal(c.year, 4);
    DigitsAreDecimal(c.month, 2);
    DigitsAreDecimal(c.day, 2);
    var y, m, d := Digits(c.year, 4), Digits(c.month, 2), Digits(c.day, 2);
    var s := y + "-" + (m + "-" + d);
    assert s[..4] == y && s[5..7] == m && s[8..] == d;
  }

  predicate CivilBefore(a: Civil, b: Civil) {
    || a.year < b.year
    || (a.year == b.year && (a.month < b.month || (a.month == b.month && a.day < b.day)))
  }

  lemma MonthsGrow(m: int, k: int, leap: bool)
    requires 1 <= m <= k <= 13
    ensures MonthStart(m, leap) <= MonthStart(k, leap)
  {
  }

  lemma CivilDown(a: nat, b: nat)
    requires CivilBefore(CivilOf(a), CivilOf(b))
    ensures a < b
  {
    hide YearStart, MonthStart, Leap, YearOf, DayOfYear, MonthDay, CivilOf;
    var c, d := CivilOf(a), CivilOf(b);
    CivilInRange(a);
    CivilInRange(b);
    if c.year < d.year {
      YearsGrow(c.year + 1, d.year);
    } else if c.month < d.month {
      MonthsGrow(c.month + 1, d.month, Leap(c.year));
    }
  }

  lemma CivilOrder(a: nat, b: nat)
    ensures CivilBefore(CivilOf(a), CivilOf(b)) <==> a < b
    ensures CivilOf(a) == CivilOf(b) <==> a == b
  {
    hide YearStart, MonthStart, Leap, YearOf, DayOfYear, MonthDay, CivilOf;
    CivilInRange(a);
    CivilInRange(b);
    if CivilBefore(CivilOf(a), CivilOf(b)) {
      CivilDown(a, b);
    } else if CivilBefore(CivilOf(b), CivilOf(a)) {
      CivilDown(b, a);
    }
  }

  lemma DateTextOrder(a: nat, b: nat)
    requires a < YearStart(10000) && b < YearStart(10000)
    ensures Before(DateText(a), DateText(b)) <==> a < b
    ensures DateText(a) == DateText(b) <==> a == b
  {
    hide YearStart, MonthStart, Leap, CivilOf, Digits, Limit;
    var c, d := CivilOf(a), CivilOf(b);
    CivilInRange(a);
    CivilInRange(b);
    BelowTenThousand(a);
    BelowTenThousand(b);
    Limits();
    DigitsOrder(c.year, d.year, 4);
    DigitsOrder(c.month, d.month, 2);
    DigitsOrder(c.day, d.day, 2);
    TwoFields(Digits(c.month, 2), Digits(d.month, 2), "-", Digits(c.day, 2), Digits(d.day, 2));
    TwoFields(Digits(c.year, 4), Digits(d.year, 4), "-",
              Digits(c.month, 2) + "-" + Digits(c.day, 2), Digits(d.month, 2) + "-" + Digits(d.day, 2));
    CivilOrder(a, b);
  }

  /** Steps back whole days, in milliseconds, to the Monday. */
  function MondayMs(ms: int): int {
    var day := UtcDay(DayOf(ms));
    var offset := if day == 0 then 6 else day - 1;
    ms - offset * MS_PER_DAY
  }

  lemma Quotient(a: int, q: int, r: int)
    requires a == MS_PER_DAY * q + r && 0 <= r < MS_PER_DAY
    ensures a / MS_PER_DAY == q
  {
  }

  lemma WholeDaysBack(ms: int, days: int)
    ensures DayOf(ms - days * MS_PER_DAY) == DayOf(ms) - days
  {
    var q, r := ms / MS_PER_DAY, ms % MS_PER_DAY;
    Quotient(ms - days * MS_PER_DAY, q - days, r);
  }

  lemma UtcDayRange(n: int)
    ensures 0 <= UtcDay(n) <= 6
  {
  }

  lemma MondayDay(ms: int)
    ensures DayOf(MondayMs(ms)) == Thursday(DayOf(ms)) - 3
  {
    hide DayOf, UtcDay;
    MondayIsZero(DayOf(ms));
    UtcDayRange(DayOf(ms));
    var day := UtcDay(DayOf(ms));
    WholeDaysBack(ms, if day == 0 then 6 else day - 1);
  }

  function WeekStartOf(ms: int): string
    requires FourDigits(DayOf(ms))
  {
    MondayDay(ms);
    ThursdayFourDigits(DayOf(ms));
    DateText(DayOf(MondayMs(ms)))
  }

  /**
   * The report's key and the time series' key make the same weeks, and both sort as text in
   * the order of time.
   */
  lemma BucketingsAgree(a: int, b: int)
    requires FourDigits(DayOf(a)) && FourDigits(DayOf(b))
    ensures IsoWeekKey(a) == IsoWeekKey(b) <==> WeekStartOf(a) == WeekStartOf(b)
    ensures WeekStartOf(a) == WeekStartOf(b) <==> Thursday(DayOf(a)) == Thursday(DayOf(b))
    ensures Before(IsoWeekKey(a), IsoWeekKey(b)) <==> Thursday(DayOf(a)) < Thursday(DayOf(b))
    ensures Before(WeekStartOf(a), WeekStartOf(b)) <==> Thursday(DayOf(a)) < Thursday(DayOf(b))
  {
    hide YearStart, DayOf, DateText, WeekText, IsoWeekOf, FourDigits, YearOf;
    ThursdayFourDigits(DayOf(a));
    ThursdayFourDigits(DayOf(b));
    MondayDay(a);
    MondayDay(b);
    WeekIsTheStandards(DayOf(a));
    WeekIsTheStandards(DayOf(b));
    WeeksAreChronological(DayOf(a), DayOf(b));
    WeekTextOrder(IsoWeekOf(DayOf(a)), IsoWeekOf(DayOf(b)));
    DateTextOrder(DayOf(MondayMs(a)), DayOf(MondayMs(b)));
  }

  // ----- timeSeries

  predicate AllFourDigits(entries: seq<int>) {
    forall i :: 0 <= i < |entries| ==> FourDigits(DayOf(entries[i]))
  }

  /** How many entries fall in the week with this Monday. */
  function InWeekOf(entries: seq<int>, weekStart: string): nat
    requires AllFourDigits(entries)
  {
    if entries == [] then 0
    else
      InWeekOf(entries[..|entries| - 1], weekStart)
      + if WeekStartOf(entries[|entries| - 1]) == weekStart then 1 else 0
  }

  function InIsoWeek(entries: seq<int>, key: string): nat
    requires AllFourDigits(entries)
  {
    if entries == [] then 0
    else
      InIsoWeek(entries[..|entries| - 1], key)
      + if IsoWeekKey(entries[|entries| - 1]) == key then 1 else 0
  }

  /** The count map of `timeSeries`. */
  method CountByWeek(entries: seq<int>) returns (counts: map<string, nat>)
    requires AllFourDigits(entries)
    ensures forall k :: (if k in counts then counts[k] else 0) == InWeekOf(entries, k)
    ensures forall k :: k in counts ==> counts[k] > 0
  {
    hide WeekStartOf, FourDigits, DayOf;
    counts := map[];
    var i := 0;
    while i < |entries|
      invariant 0 <= i <= |entries|
      invariant forall k :: (if k in counts then counts[k] else 0) == InWeekOf(entries[..i], k)
      invariant forall k :: k in counts ==> counts[k] > 0
    {
      assert entries[..i + 1][..i] == entries[..i];
      var key := WeekStartOf(entries[i]);
      counts := counts[key := (if key in counts then counts[key] else 0) + 1];
      i := i + 1;
    }
    assert entries[..i] == entries;
  }

  /** Either key puts exactly the same entries together with a given one. */
  lemma {:induction false} SameEntriesTogether(entries: seq<int>, ms: int)
    requires AllFourDigits(entries) && FourDigits(DayOf(ms))
    ensures InWeekOf(entries, WeekStartOf(ms)) == InIsoWeek(entries, IsoWeekKey(ms))
  {
    hide WeekStartOf, IsoWeekKey, FourDigits, DayOf, Thursday;
    if entries != [] {
      SameEntriesTogether(entries[..|entries| - 1], ms);
      BucketingsAgree(entries[|entries| - 1], ms);
    }
  }
}
