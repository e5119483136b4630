/**
 * ISO 8601 weeks (src/core/domain/time.ts, src/core/operations/_week.ts, src/core/operations/_calendar-range.ts,
 * src/http/reference/app.ts). A date is its number of days since 1970-01-01, a Thursday, in the Gregorian
 * calendar extended both ways.
 */
module Weeks {
  import opened Basics

  // ---------- The calendar ----------

  predicate Leap(y: int) {
    y % 4 == 0 && (y % 100 != 0 || y % 400 == 0)
  }

  /** Leap years up to and including `n`, counted from year 1. */
  function Leaps(n: int): int {
    n / 4 - n / 100 + n / 400
  }

  function Jan1(y: int): int {
    365 * (y - 1970) + Leaps(y - 1) - 477
  }

  lemma LeapsNext(y: int)
    ensures y / 4 - (y - 1) / 4 == if y % 4 == 0 then 1 else 0
    ensures y / 100 - (y - 1) / 100 == if y % 100 == 0 then 1 else 0
    ensures y / 400 - (y - 1) / 400 == if y % 400 == 0 then 1 else 0
    ensures (y % 400 == 0 ==> y % 100 == 0) && (y % 100 == 0 ==> y % 4 == 0)
  {
    NextQuotient(y, 4);
    NextQuotient(y, 100);
    NextQuotient(y, 400);
    assert y == 400 * (y / 400) + y % 400 && y == 100 * (y / 100) + y % 100;
  }

  lemma NextQuotient(y: int, k: int)
    requires k in {4, 100, 400}
    ensures y / k - (y - 1) / k == if y % k == 0 then 1 else 0
  {
    assert k == 4 || k == 100 || k == 400;
  }

  lemma Jan1Next(y: int)
    ensures Jan1(y + 1) == Jan1(y) + 365 + if Leap(y) then 1 else 0
  {
    LeapsNext(y);
  }

  lemma Jan1Linear(y: int)
    ensures 146097 * (y - 1970) - 1100 <= 400 * Jan1(y) <= 146097 * (y - 1970) + 1100
  {
    var n := y - 1;
    assert n == 4 * (n / 4) + n % 4 && n == 100 * (n / 100) + n % 100 && n == 400 * (n / 400) + n % 400;
    assert 400 * Leaps(n) == 97 * n - 100 * (n % 4) + 4 * (n % 100) - n % 400;
  }

  /** The year of a day: `getUTCFullYear`. */
  function YearOf(d: int): (y: int)
    ensures Jan1(y) <= d < Jan1(y + 1)
  {
    var guess := 1970 + 400 * d / 146097;
    Jan1Linear(guess - 1);
    Jan1Linear(guess);
    Jan1Linear(guess + 1);
    Jan1Linear(guess + 2);
    if d < Jan1(guess) then guess - 1 else if d >= Jan1(guess + 1) then guess + 1 else guess
  }

  /** It is the only year that contains the day. */
  lemma YearOnly(d: int, y: int)
    ensures YearOf(d) == y <==> Jan1(y) <= d < Jan1(y + 1)
  {
    hide Jan1, YearOf;
    var z := YearOf(d);
    if y < z {
      Jan1Later(y + 1, z);
    } else if z < y {
      Jan1Later(z + 1, y);
    }
  }

  lemma {:induction false} Jan1Later(y: int, z: int)
    requires y <= z
    ensures Jan1(y) <= Jan1(z)
    decreases z - y
  {
    hide Jan1;
    if y < z {
      Jan1Later(y, z - 1);
      Jan1Next(z - 1);
    }
  }

  /** Days since the last Monday: `(getUTCDay() + 6) % 7`. */
  function Weekday0(d: int): (k: int)
    ensures 0 <= k < 7
  {
    (d + 3) % 7
  }

  function MondayOf(d: int): int {
    d - Weekday0(d)
  }

  lemma MondayIs(d: int)
    ensures Weekday0(MondayOf(d)) == 0 && MondayOf(d) <= d < MondayOf(d) + 7
  {
  }

  // ---------- The source's functions ----------

  /** `Date.UTC` reads the years 0 to 99 as 1900 to 1999. */
  function UtcYear(y: int): int {
    if 0 <= y <= 99 then 1900 + y else y
  }

  function IsoWeekMonday(year: int, week: int): int {
    var jan4 := Jan1(UtcYear(year)) + 3;
    jan4 - Weekday0(jan4) + (week - 1) * 7
  }

  function IsoWeeksInYear(year: int): int {
    if IsoWeekMonday(year + 1, 1) - IsoWeekMonday(year, 1) == 53 * 7 then 53 else 52
  }

  /** `isoWeekDate`: 1 is Monday. */
  function IsoWeekDate(year: int, week: int, weekday: int): int {
    IsoWeekMonday(year, week) + (weekday - 1)
  }

  function IsoWeekYear(d: int): int {
    YearOf(d + 3 - Weekday0(d))
  }

  function IsoWeekOfDate(d: int): int {
    (d - IsoWeekMonday(IsoWeekYear(d), 1)) / 7 + 1
  }

  function Distance(year: int, week: int, today: int): nat {
    var gap := IsoWeekMonday(year, week) - today;
    if gap < 0 then -gap else gap
  }

  /** One turn of the loop in `nearestWeekYear`. */
  function Nearer(best: Option<int>, year: int, week: int, today: int): Option<int> {
    if week > IsoWeeksInYear(year) then best
    else if best.None? || Distance(year, week, today) < Distance(best.value, week, today) then Some(year)
    else best
  }

  function NearestOf(years: seq<int>, week: int, today: int): Option<int> {
    if years == [] then None else Nearer(NearestOf(years[..|years| - 1], week, today), years[|years| - 1], week, today)
  }

  function NearestWeekYear(week: int, today: int): Option<int> {
    var base := IsoWeekYear(today);
    NearestOf([base - 1, base, base + 1], week, today)
  }

  method FindNearestWeekYear(week: int, today: int) returns (best: Option<int>)
    ensures best == NearestWeekYear(week, today)
  {
    hide IsoWeeksInYear, Distance, IsoWeekYear;
    var base := IsoWeekYear(today);
    best := None;
    var years := [base - 1, base, base + 1];
    for i := 0 to |years|
      invariant best == NearestOf(years[..i], week, today)
    {
      assert years[..i + 1][..i] == years[..i];
      var year := years[i];
      if week > IsoWeeksInYear(year) {
        continue;
      }
      var distance := Distance(year, week, today);
      if best.None? || distance < Distance(best.value, week, today) {
        best := Some(year);
      }
    }
    assert years[..|years|] == years;
  }

  datatype WeekRange = WeekRange(year: int, week: int, startDate: int, endDate: int)

  function Range(year: int, week: int): WeekRange {
    WeekRange(year, week, IsoWeekDate(year, week, 1), IsoWeekDate(year, week, 7))
  }

  /** `weekOf`: None where the source throws. */
  function WeekOf(week: Option<int>, today: int): Option<WeekRange> {
    var number := if week.Some? then week.value else IsoWeekOfDate(today);
    var year := NearestWeekYear(number, today);
    if year.None? then None else Some(Range(year.value, number))
  }

  function WeekOfDate(d: int, today: int): Option<WeekRange> {
    var week := Range(IsoWeekYear(d), IsoWeekOfDate(d));
    if NearestWeekYear(week.week, today) != Some(week.year) then None else Some(week)
  }

  /** `calendarRange` without arguments. */
  function DefaultCalendarRange(today: int): (int, int) {
    (MondayOf(today), MondayOf(today) + 6)
  }

  /** The reference page's own `weekOf`: a week number and seven days. */
  function PageWeekOf(d: int, offset: int): (int, seq<int>) {
    var monday := d - Weekday0(d) + offset * 7;
    var thursday := monday + 3;
    ((thursday - Jan1(UtcYear(YearOf(thursday)))) / 7 + 1, seq(7, i => monday + i))
  }

  // ---------- Week 1 ----------

  /** Monday of the week with the year's first Thursday (equally, with 4 January). */
  function WeekOne(y: int): (m: int)
    ensures Weekday0(m) == 0 && Jan1(y) - 3 <= m <= Jan1(y) + 3
  {
    MondayIs(Jan1(y) + 3);
    MondayOf(Jan1(y) + 3)
  }

  lemma WeekOneNext(y: int)
    ensures WeekOne(y + 1) - WeekOne(y) == 364 || WeekOne(y + 1) - WeekOne(y) == 371
  {
    hide Jan1, Leap;
    Jan1Next(y);
  }

  lemma {:induction false} WeekOneApart(y: int, z: int)
    requires y <= z
    ensures 364 * (z - y) <= WeekOne(z) - WeekOne(y) <= 371 * (z - y)
    decreases z - y
  {
    hide WeekOne;
    if y < z {
      WeekOneApart(y, z - 1);
      WeekOneNext(z - 1);
    }
  }

  lemma IsoMondayIs(y: int, w: int)
    ensures IsoWeekMonday(y, w) == WeekOne(UtcYear(y)) + (w - 1) * 7
  {
  }

  /** The week-year of a day is the only year whose weeks the day lies in. */
  lemma WeekYearOnly(d: int, y: int)
    ensures IsoWeekYear(d) == y <==> WeekOne(y) <= d < WeekOne(y + 1)
  {
    hide Jan1;
    var thursday := d + 3 - Weekday0(d);
    var z := YearOf(thursday);
    assert WeekOne(z) <= d < WeekOne(z + 1);
    if y < z {
      WeekOneApart(y + 1, z);
    } else if z < y {
      WeekOneApart(z + 1, y);
    }
  }

  // ---------- Years of 52 and 53 weeks ----------

  /** The week the year's first Thursday lies in. */
  lemma WeekOneHasFirstThursday(y: int)
    ensures Jan1(y) <= WeekOne(y) + 3 < Jan1(y) + 7
  {
    hide Jan1;
  }

  /** A year has 52 or 53 weeks, and that many fit between its first week and the next year's, except where
      only one of the two years is read as a year of the 1900s. */
  lemma WeeksFillTheYear(y: int)
    ensures IsoWeeksInYear(y) == 52 || IsoWeeksInYear(y) == 53
    ensures 7 * IsoWeeksInYear(y) == IsoWeekMonday(y + 1, 1) - IsoWeekMonday(y, 1) <==> y != -1 && y != 99
  {
    hide WeekOne, IsoWeekMonday;
    IsoMondayIs(y, 1);
    IsoMondayIs(y + 1, 1);
    if y == -1 {
      WeekOneApart(-1, 1900);
    } else if y == 99 {
      WeekOneApart(100, 1999);
    } else {
      WeekOneNext(UtcYear(y));
    }
  }

  lemma JanNextWeekday(y: int)
    ensures Weekday0(Jan1(y + 1)) == (Weekday0(Jan1(y)) + 1 + if Leap(y) then 1 else 0) % 7
  {
    hide Jan1, Leap;
    Jan1Next(y);
  }

  /** The rule of ISO 8601: a year has 53 weeks when it starts on a Thursday, or on a Wednesday in a leap year. */
  predicate HasWeek53(y: int) {
    Weekday0(Jan1(y)) == 3 || (Leap(y) && Weekday0(Jan1(y)) == 2)
  }

  /** The source follows it for the year it reads, except where only one of two successive years is read as one
      of the 1900s: those get 52. */
  lemma FiftyThreeWeeks(y: int)
    ensures IsoWeeksInYear(y) == 53 <==> HasWeek53(UtcYear(y)) && y != -1 && y != 99
  {
    hide Jan1, Leap, WeekOne, HasWeek53, Weekday0, IsoWeekMonday;
    IsoMondayIs(y, 1);
    IsoMondayIs(y + 1, 1);
    if y == -1 {
      WeekOneApart(0, 1900);
      YearMinusOne();
    } else if y == 99 {
      WeekOneApart(100, 1999);
    } else {
      RuleOfYear(UtcYear(y));
    }
  }

  lemma RuleOfYear(y: int)
    ensures WeekOne(y + 1) - WeekOne(y) == 371 <==> HasWeek53(y)
  {
    hide Jan1, Leap;
    Jan1Next(y);
    JanNextWeekday(y);
    FourthToFirst(Jan1(y));
    FourthToFirst(Jan1(y + 1));
  }

  lemma FourthToFirst(jan1: int)
    ensures MondayOf(jan1 + 3) == jan1 - Weekday0(jan1) + if Weekday0(jan1) > 3 then 7 else 0
  {
  }

  // ---------- Round trips ----------

  /** Every date is the day its own week-year, week and weekday name; the week is one its year has, exactly
      when that year is not read as one of the 1900s. */
  lemma DateRoundTrip(d: int)
    ensures IsoWeekDate(IsoWeekYear(d), IsoWeekOfDate(d), Weekday0(d) + 1) == d
    ensures 1 <= IsoWeekOfDate(d) <= IsoWeeksInYear(IsoWeekYear(d)) <==> !(0 <= IsoWeekYear(d) <= 99)
  {
    hide WeekOne, IsoWeekMonday, IsoWeekYear, YearOf;
    var y := IsoWeekYear(d);
    WeekYearOnly(d, y);
    IsoMondayIs(y, 1);
    IsoMondayIs(y, IsoWeekOfDate(d));
    IsoMondayIs(y + 1, 1);
    WeekOneMonday(UtcYear(y));
    WholeWeeks(d, WeekOne(UtcYear(y)));
    WeekOneNext(y);
    if 0 <= y <= 99 {
      WeekOneApart(y + 1, 1900 + y);
    } else if y == -1 {
      YearMinusOne();
    }
  }

  lemma WeekOneMonday(y: int)
    ensures Weekday0(WeekOne(y)) == 0
  {
  }

  lemma WholeWeeks(d: int, monday: int)
    requires Weekday0(monday) == 0
    ensures monday + 7 * ((d - monday) / 7) + Weekday0(d) == d
  {
  }

  lemma YearMinusOne()
    ensures WeekOne(0) - WeekOne(-1) == 364
  {
    assert Jan1(0) == -719528 && Jan1(-1) == -719893;
    assert Weekday0(-719525) == 1 && Weekday0(-719890) == 0;
  }

  /** Every week a year has, and every weekday, is found again from its date, exactly when the year is not read
      as one of the 1900s. */
  lemma WeekRoundTrip(y: int, w: int, k: int)
    requires 1 <= w <= IsoWeeksInYear(y) && 1 <= k <= 7
    ensures var d := IsoWeekDate(y, w, k);
            && Weekday0(d) + 1 == k
            && (IsoWeekYear(d) == y && IsoWeekOfDate(d) == w <==> !(0 <= y <= 99))
  {
    hide WeekOne, IsoWeekMonday, IsoWeekYear, YearOf, Weekday0;
    var d := IsoWeekDate(y, w, k);
    IsoMondayIs(y, w);
    IsoMondayIs(y, 1);
    WeekOneMonday(UtcYear(y));
    WeekYearOnly(d, y);
    WeekOneNext(y);
    WeeksFillTheYear(y);
    IsoMondayIs(y + 1, 1);
    InWeek(WeekOne(UtcYear(y)), w, k);
    if 0 <= y <= 99 {
      WeekOneApart(y + 1, 1900 + y);
    } else if y == -1 {
      YearMinusOne();
    }
  }

  lemma InWeek(monday: int, w: int, k: int)
    requires Weekday0(monday) == 0 && 1 <= k <= 7
    ensures Weekday0(monday + (w - 1) * 7 + (k - 1)) == k - 1
    ensures (monday + (w - 1) * 7 + (k - 1) - monday) / 7 + 1 == w
  {
  }

  // ---------- Agreement ----------

  /** The reference page names the same week and the same seven days, for every date. */
  lemma PageAgrees(d: int, offset: int)
    ensures var (week, days) := PageWeekOf(d, offset);
            var there := d + 7 * offset;
            && week == IsoWeekOfDate(there) && |days| == 7
            && (forall k :: 1 <= k <= 7 ==> days[k - 1] == IsoWeekDate(IsoWeekYear(there), week, k))
            && days[Weekday0(d)] == there
  {
    hide IsoWeekMonday, Jan1, UtcYear, IsoWeekYear, YearOf, IsoWeekOfDate, Weekday0;
    var there := d + 7 * offset;
    WeeksLater(d, offset);
    PageNumberAgrees(d, offset);
    DateRoundTrip(there);
  }

  lemma WeeksLater(d: int, offset: int)
    ensures Weekday0(d + 7 * offset) == Weekday0(d)
  {
  }

  lemma PageNumberAgrees(d: int, offset: int)
    ensures PageWeekOf(d, offset).0 == IsoWeekOfDate(d + 7 * offset)
  {
    hide WeekOne, IsoWeekMonday, Jan1, UtcYear, YearOf, Weekday0;
    var there := d + 7 * offset;
    WeeksLater(d, offset);
    var y := IsoWeekYear(there);
    IsoMondayIs(y, 1);
    WeekOneMonday(UtcYear(y));
    WeekOneHasFirstThursday(UtcYear(y));
    MondayIs(there);
    SameQuotient(MondayOf(there), WeekOne(UtcYear(y)), Jan1(UtcYear(y)), there);
  }

  lemma SameQuotient(monday: int, first: int, jan1: int, d: int)
    requires Weekday0(monday) == 0 && Weekday0(first) == 0 && jan1 <= first + 3 < jan1 + 7 && monday <= d < monday + 7
    ensures (monday + 3 - jan1) / 7 == (d - first) / 7
  {
    var n := (monday - first) / 7;
    assert monday == first + 7 * n;
  }
}
