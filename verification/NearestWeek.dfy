/** A week number alone names the week nearest today (src/core/domain/time.ts, src/core/operations/_week.ts). */
module NearestWeek {
  import opened Basics
  import opened Weeks

  // ---------- The choice among three years ----------

  predicate Candidate(y: int, base: int, week: int) {
    base - 1 <= y <= base + 1 && week <= IsoWeeksInYear(y)
  }

  /** The loop picks a candidate, and none is nearer, nor an earlier one as near. */
  lemma NearestOfThree(week: int, today: int)
    ensures var base, best := IsoWeekYear(today), NearestWeekYear(week, today);
            if best.None? then forall y :: base - 1 <= y <= base + 1 ==> !Candidate(y, base, week)
            else && Candidate(best.value, base, week)
                 && forall y :: base - 1 <= y <= base + 1 && Candidate(y, base, week) ==>
                      Distance(best.value, week, today) <= Distance(y, week, today)
                      && (y < best.value ==> Distance(best.value, week, today) < Distance(y, week, today))
  {
    hide IsoWeeksInYear, Distance, IsoWeekYear;
    var base := IsoWeekYear(today);
    NearestPush([], base - 1, week, today);
    NearestPush([] + [base - 1], base, week, today);
    NearestPush([] + [base - 1] + [base], base + 1, week, today);
    assert [] + [base - 1] + [base] + [base + 1] == [base - 1, base, base + 1];
  }

  lemma NearestPush(years: seq<int>, y: int, week: int, today: int)
    ensures NearestOf(years + [y], week, today) == Nearer(NearestOf(years, week, today), y, week, today)
  {
    assert (years + [y])[..|years|] == years;
  }

  // ---------- How far a week is ----------

  /** Distance from `today` to Monday of week `w` of year `u`, years taken as they are. */
  function Away(u: int, w: int, today: int): nat {
    var gap := WeekOne(u) + (w - 1) * 7 - today;
    if gap < 0 then -gap else gap
  }

  lemma DistanceIs(y: int, w: int, today: int)
    ensures Distance(y, w, today) == Away(UtcYear(y), w, today)
  {
    hide WeekOne, Jan1, Weekday0, IsoWeekMonday;
    IsoMondayIs(y, w);
  }

  /** Outward from the year of `today` weeks of one number only get farther. */
  lemma Outward(w: int, today: int, base: int, u: int, v: int)
    requires 1 <= w <= 52 && WeekOne(base) <= today < WeekOne(base + 1)
    requires base + 1 <= v <= u || u <= v <= base - 1
    ensures Away(v, w, today) <= Away(u, w, today)
  {
    hide WeekOne, Jan1, Weekday0;
    if v < base {
      WeekOneApart(u, v);
      WeekOneApart(v, base);
    } else {
      WeekOneApart(v, u);
      WeekOneApart(base + 1, v);
    }
  }

  lemma AwayBounds(w: int, today: int, base: int, u: int)
    requires 1 <= w <= 52 && WeekOne(base) <= today < WeekOne(base + 1)
    ensures var n := if u < base then base - u else u - base;
            364 * (n - 1) - 357 <= Away(u, w, today) <= 371 * (n + 1)
  {
    hide WeekOne, Jan1, Weekday0;
    WeekOneNext(base);
    if u < base {
      WeekOneApart(u, base);
    } else {
      WeekOneApart(base, u);
    }
  }

  /** The nearest of the three candidates is nearest of all years, for week numbers every year has, exactly
      when the year of `today` is not one whose three candidates are all read as years of the 1900s. */
  lemma NearestOfAll(w: int, today: int)
    requires 1 <= w <= 52
    ensures NearestWeekYear(w, today).Some?
    ensures (forall y :: Distance(NearestWeekYear(w, today).value, w, today) <= Distance(y, w, today))
            <==> !(1 <= IsoWeekYear(today) <= 98)
  {
    hide WeekOne, Jan1, Weekday0, IsoWeekMonday, IsoWeekYear, Distance, IsoWeeksInYear, NearestWeekYear, UtcYear, Away;
    var base := IsoWeekYear(today);
    WeekYearOnly(today, base);
    NearestOfThree(w, today);
    AllHave(w, base);
    assert Candidate(base, base, w);
    var best := NearestWeekYear(w, today).value;
    if 1 <= base <= 98 {
      Farther(w, today, base, best);
    } else {
      forall y ensures Distance(best, w, today) <= Distance(y, w, today) {
        DistanceIs(y, w, today);
        var c := Closer(w, today, base, y);
      }
    }
  }

  lemma AllHave(w: int, base: int)
    requires w <= 52
    ensures forall y :: base - 1 <= y <= base + 1 ==> Candidate(y, base, w)
  {
    hide IsoWeekMonday;
  }

  /** Read as the 1900s, all three candidates are farther than the year 100. */
  lemma Farther(w: int, today: int, base: int, best: int)
    requires 1 <= w <= 52 && 1 <= base <= 98 && base - 1 <= best <= base + 1
    requires WeekOne(base) <= today < WeekOne(base + 1)
    ensures Distance(100, w, today) < Distance(best, w, today)
  {
    hide WeekOne, Jan1, Weekday0, Distance, Away;
    DistanceIs(best, w, today);
    DistanceIs(100, w, today);
    AwayBounds(w, today, base, 100);
    AwayBounds(w, today, base, 1900 + best);
  }

  /** A candidate at least as near as year `y`. */
  lemma Closer(w: int, today: int, base: int, y: int) returns (c: int)
    requires 1 <= w <= 52 && !(1 <= base <= 98) && WeekOne(base) <= today < WeekOne(base + 1)
    ensures base - 1 <= c <= base + 1 && Distance(c, w, today) <= Distance(y, w, today)
  {
    hide WeekOne, Jan1, Weekday0, Distance, Away;
    var u := UtcYear(y);
    c := if u == base then base else if u > base then
           if -1 <= base <= 0 then -1 else base + 1
         else if 99 <= base <= 100 then 100 else base - 1;
    DistanceIs(y, w, today);
    DistanceIs(c, w, today);
    if u != base {
      AwayBounds(w, today, base, u);
      AwayBounds(w, today, base, c);
      if (u > base && c > base) || (u < base && c < base) {
        Outward(w, today, base, u, c);
      }
    }
  }

  /** And it is at most 185 days away, wherever the three candidates are read as they are. */
  lemma NearestWithinHalfYear(w: int, today: int)
    requires 1 <= w <= 52 && !(-1 <= IsoWeekYear(today) <= 100)
    ensures NearestWeekYear(w, today).Some? && Distance(NearestWeekYear(w, today).value, w, today) <= 185
  {
    hide WeekOne, Jan1, Weekday0, IsoWeekMonday, IsoWeekYear, Distance, IsoWeeksInYear, NearestWeekYear, UtcYear;
    var base := IsoWeekYear(today);
    WeekYearOnly(today, base);
    NearestOfThree(w, today);
    AllHave(w, base);
    ThreeAsTheyAre(w, today, base);
    WeekOneNext(base - 1);
    WeekOneNext(base);
  }

  lemma ThreeAsTheyAre(w: int, today: int, base: int)
    requires !(-1 <= base <= 100)
    ensures Distance(base - 1, w, today) == Away(base - 1, w, today)
    ensures Distance(base, w, today) == Away(base, w, today)
    ensures Distance(base + 1, w, today) == Away(base + 1, w, today)
  {
    hide Distance, Away;
    DistanceIs(base - 1, w, today);
    DistanceIs(base, w, today);
    DistanceIs(base + 1, w, today);
  }

  /** Exactly: it is at most 185 days away when a candidate that is read as it is starts that near; the others
      are centuries away. */
  lemma WithinHalfYearExactly(w: int, today: int)
    requires 1 <= w <= 52
    ensures var base, best := IsoWeekYear(today), NearestWeekYear(w, today);
            best.Some? && (Distance(best.value, w, today) <= 185
                           <==> exists u :: base - 1 <= u <= base + 1 && !(0 <= u <= 99) && Away(u, w, today) <= 185)
  {
    hide WeekOne, Jan1, Weekday0, IsoWeekMonday, IsoWeekYear, Distance, IsoWeeksInYear, NearestWeekYear, Away;
    var base := IsoWeekYear(today);
    WeekYearOnly(today, base);
    NearestOfThree(w, today);
    AllHave(w, base);
    assert Candidate(base, base, w);
    var best := NearestWeekYear(w, today).value;
    DistanceIs(best, w, today);
    if 0 <= best <= 99 {
      AwayBounds(w, today, base, 1900 + best);
    }
    forall u | base - 1 <= u <= base + 1 && !(0 <= u <= 99) ensures Distance(u, w, today) == Away(u, w, today) {
      DistanceIs(u, w, today);
    }
  }

  /** The days of a week-year, every week number every year has: all within 185 days? */
  ghost predicate AlwaysWithinHalfYear(base: int) {
    forall w, today :: 1 <= w <= 52 && WeekOne(base) <= today < WeekOne(base + 1) ==> Near(w, today)
  }

  predicate Near(w: int, today: int)
    requires 1 <= w <= 52
  {
    NearestOfAll(w, today);
    Distance(NearestWeekYear(w, today).value, w, today) <= 185
  }

  /** They are exactly in the week-years all of whose three candidates are read as they are. */
  lemma HalfYearExactly(base: int)
    ensures AlwaysWithinHalfYear(base) <==> !(-1 <= base <= 100)
  {
    hide WeekOne, Jan1, Weekday0, IsoWeekYear, Distance, NearestWeekYear;
    WeekOneNext(base);
    if -1 <= base <= 100 {
      var w, today := FarCase(base);
      assert !Near(w, today);
    } else {
      forall w, today | 1 <= w <= 52 && WeekOne(base) <= today < WeekOne(base + 1) ensures Near(w, today) {
        WeekYearOnly(today, base);
        NearestWithinHalfYear(w, today);
      }
    }
  }

  /** In week-years -1 to 100: week 1 seen from the last day, or week 52 seen from the first. */
  lemma FarCase(base: int) returns (w: int, today: int)
    requires -1 <= base <= 100
    ensures 1 <= w <= 52 && WeekOne(base) <= today < WeekOne(base + 1)
    ensures NearestWeekYear(w, today).Some? && Distance(NearestWeekYear(w, today).value, w, today) > 185
  {
    hide WeekOne, Jan1, Weekday0, IsoWeekYear, Distance, NearestWeekYear;
    WeekOneNext(base);
    w := if base <= 0 then 1 else 52;
    today := if base <= 0 then WeekOne(base + 1) - 1 else WeekOne(base);
    WeekYearOnly(today, base);
    WithinHalfYearExactly(w, today);
    forall u | base - 1 <= u <= base + 1 && !(0 <= u <= 99) ensures Away(u, w, today) > 185 {
      FarCandidate(base, u);
    }
  }

  lemma FarCandidate(base: int, u: int)
    requires -1 <= base <= 100 && base - 1 <= u <= base + 1 && !(0 <= u <= 99)
    ensures Away(u, if base <= 0 then 1 else 52, if base <= 0 then WeekOne(base + 1) - 1 else WeekOne(base)) > 185
  {
    hide WeekOne, Jan1, Weekday0;
    WeekOneNext(base - 1);
    WeekOneNext(base);
  }

  // ---------- The week operations ----------

  lemma OthersFar(y: int, z: int, week: int, today: int)
    requires UtcYear(y) != UtcYear(z) && Distance(y, week, today) <= 181
    ensures Distance(z, week, today) > Distance(y, week, today)
  {
    hide WeekOne, Jan1, Weekday0, Distance;
    DistanceIs(y, week, today);
    DistanceIs(z, week, today);
    var u, v := UtcYear(y), UtcYear(z);
    if u < v {
      WeekOneApart(u, v);
    } else {
      WeekOneApart(v, u);
    }
  }

  lemma NeighboursDiffer(y: int, z: int)
    requires y != z && -2 <= y - z <= 2
    ensures UtcYear(y) != UtcYear(z)
  {
  }

  /** A week of a candidate year that starts within 181 days is the one its number names. */
  lemma NearIsNearest(y: int, week: int, today: int)
    requires Candidate(y, IsoWeekYear(today), week) && Distance(y, week, today) <= 181
    ensures NearestWeekYear(week, today) == Some(y)
  {
    hide IsoWeekYear, Distance, IsoWeeksInYear, NearestWeekYear, UtcYear;
    NearestOfThree(week, today);
    var best := NearestWeekYear(week, today);
    if best.Some? && best.value != y {
      NeighboursDiffer(y, best.value);
      OthersFar(y, best.value, week, today);
    }
  }

  lemma OwnWeek(today: int)
    ensures Candidate(IsoWeekYear(today), IsoWeekYear(today), IsoWeekOfDate(today))
    ensures IsoWeekMonday(IsoWeekYear(today), IsoWeekOfDate(today)) == MondayOf(today)
    ensures Distance(IsoWeekYear(today), IsoWeekOfDate(today), today) <= 6
  {
    hide IsoWeekYear, IsoWeekOfDate, IsoWeekMonday;
    DateRoundTrip(today);
    if 0 <= IsoWeekYear(today) <= 99 {
      EarlyNumber(today);
    }
  }

  /** Read as a year of the 1900s, the year starts after the day: the week number is not positive. */
  lemma EarlyNumber(today: int)
    requires 0 <= IsoWeekYear(today) <= 99
    ensures IsoWeekOfDate(today) <= 0
  {
    hide WeekOne, Jan1, Weekday0, IsoWeekYear, IsoWeekMonday;
    var y := IsoWeekYear(today);
    WeekYearOnly(today, y);
    IsoMondayIs(y, 1);
    WeekOneApart(y + 1, 1900 + y);
  }

  /** Without a number, `weekOf` is the week that contains today, which is also the default calendar range; for
      every date. */
  lemma CurrentWeek(today: int)
    ensures var r := WeekOf(None, today);
            && r == Some(Range(IsoWeekYear(today), IsoWeekOfDate(today)))
            && (r.value.startDate, r.value.endDate) == DefaultCalendarRange(today)
            && r.value.startDate <= today <= r.value.endDate
  {
    hide IsoWeekYear, IsoWeekOfDate, IsoWeekMonday, NearestWeekYear, Distance, IsoWeeksInYear;
    OwnWeek(today);
    NearIsNearest(IsoWeekYear(today), IsoWeekOfDate(today), today);
  }

  /** With a number: that week of the year chosen, Monday to Sunday, and nothing exactly when none of the three years has
      it. */
  lemma NumberedWeek(week: int, today: int)
    ensures var r, best := WeekOf(Some(week), today), NearestWeekYear(week, today);
            && (r.None? <==> forall y :: IsoWeekYear(today) - 1 <= y <= IsoWeekYear(today) + 1 ==> week > IsoWeeksInYear(y))
            && (r.Some? ==> best.Some? && r.value == WeekRange(best.value, week, IsoWeekMonday(best.value, week), IsoWeekMonday(best.value, week) + 6))
  {
    hide IsoWeekYear, IsoWeekMonday, NearestWeekYear, Distance, IsoWeeksInYear;
    NearestOfThree(week, today);
    var base := IsoWeekYear(today);
    assert forall y :: base - 1 <= y <= base + 1 ==> (Candidate(y, base, week) <==> week <= IsoWeeksInYear(y));
  }

  /** An accepted date's week contains the date, and its number alone gives back the identical week. */
  lemma AcceptedIsFoundAgain(d: int, today: int)
    ensures var r := WeekOfDate(d, today);
            r.Some? ==>
              && WeekOf(Some(r.value.week), today) == r
              && r.value.startDate <= d <= r.value.endDate && r.value.startDate == MondayOf(d)
              && r.value.endDate == r.value.startDate + 6
  {
    hide IsoWeekYear, IsoWeekOfDate, IsoWeekMonday, NearestWeekYear, Distance, IsoWeeksInYear;
    OwnWeek(d);
  }

  /** A date whose week starts within 181 days is accepted, whatever the date. */
  lemma NearIsAccepted(d: int, today: int)
    ensures -181 <= MondayOf(d) - today <= 181 ==> WeekOfDate(d, today).Some?
  {
    hide IsoWeekYear, IsoWeekOfDate, IsoWeekMonday, NearestWeekYear, IsoWeeksInYear;
    OwnWeek(d);
    if -181 <= MondayOf(d) - today <= 181 {
      YearsClose(d, today);
      NearIsNearest(IsoWeekYear(d), IsoWeekOfDate(d), today);
    }
  }

  /** What is accepted from the days of week-year `base`, in weeks 1 to 52, starts within 185 days? */
  ghost predicate AcceptsWithinHalfYear(base: int) {
    forall d, today :: WeekOne(base) <= today < WeekOne(base + 1) && 1 <= IsoWeekOfDate(d) <= 52 && WeekOfDate(d, today).Some? ==>
      -185 <= MondayOf(d) - today <= 185
  }

  /** Exactly outside the two borders of the years read as the 1900s; between them no date has such a number. */
  lemma AcceptedWithinHalfYear(base: int)
    ensures AcceptsWithinHalfYear(base) <==> base !in {-1, 0, 99, 100}
  {
    hide WeekOne, Jan1, Weekday0, IsoWeekYear, IsoWeekOfDate, IsoWeekMonday, NearestWeekYear, Distance, WeekOfDate, MondayOf;
    if base in {-1, 0, 99, 100} {
      var d, today := AcceptedFar(base);
      assert !(-185 <= MondayOf(d) - today <= 185);
    } else {
      forall d, today | WeekOne(base) <= today < WeekOne(base + 1) && 1 <= IsoWeekOfDate(d) <= 52 && WeekOfDate(d, today).Some?
        ensures -185 <= MondayOf(d) - today <= 185
      {
        WeekYearOnly(today, base);
        AcceptedIsNear(d, today);
      }
    }
  }

  lemma AcceptedIsNear(d: int, today: int)
    requires IsoWeekYear(today) !in {-1, 0, 99, 100}
    requires 1 <= IsoWeekOfDate(d) <= 52 && WeekOfDate(d, today).Some?
    ensures -185 <= MondayOf(d) - today <= 185
  {
    hide IsoWeekYear, IsoWeekOfDate, IsoWeekMonday, NearestWeekYear, IsoWeeksInYear;
    OwnWeek(d);
    if -1 <= IsoWeekYear(today) <= 100 {
      NearestOfThree(IsoWeekOfDate(d), today);
      DateRoundTrip(d);
    } else {
      NearestWithinHalfYear(IsoWeekOfDate(d), today);
    }
  }

  /** Week 1 of the year -1 from the last day of the years -1 and 0; week 52 of the year 100 from the first day of
      the years 99 and 100. */
  lemma AcceptedFar(base: int) returns (d: int, today: int)
    requires base in {-1, 0, 99, 100}
    ensures WeekOne(base) <= today < WeekOne(base + 1) && 1 <= IsoWeekOfDate(d) <= 52 && WeekOfDate(d, today).Some?
    ensures !(-185 <= MondayOf(d) - today <= 185)
  {
    hide WeekOne, Jan1, Weekday0, IsoWeekYear, NearestWeekYear, Distance, IsoWeeksInYear, IsoWeekMonday, IsoWeekOfDate, MondayOf;
    var y, w := if base <= 0 then -1 else 100, if base <= 0 then 1 else 52;
    today := if base <= 0 then WeekOne(base + 1) - 1 else WeekOne(base);
    d := IsoWeekDate(y, w, 1);
    AllHave(w, base);
    assert Candidate(y, base, w);
    WeekRoundTrip(y, w, 1);
    IsoMondayIs(y, w);
    MondayItself(d);
    WeekOneNext(base);
    WeekOneNext(base - 1);
    WeekOneNext(base + 1);
    WeekYearOnly(today, base);
    OnlyCandidate(base);
  }

  lemma MondayItself(d: int)
    requires Weekday0(d) == 0
    ensures MondayOf(d) == d
  {
  }

  lemma OnlyCandidate(base: int)
    requires base in {-1, 0, 99, 100}
    ensures var y, w := if base <= 0 then -1 else 100, if base <= 0 then 1 else 52;
            var today := if base <= 0 then WeekOne(base + 1) - 1 else WeekOne(base);
            NearestWeekYear(w, today) == Some(y)
  {
    hide WeekOne, Jan1, Weekday0, IsoWeekYear, NearestWeekYear, Distance, IsoWeeksInYear;
    var y, w := if base <= 0 then -1 else 100, if base <= 0 then 1 else 52;
    var today := if base <= 0 then WeekOne(base + 1) - 1 else WeekOne(base);
    WeekOneNext(base);
    WeekYearOnly(today, base);
    AllHave(w, base);
    assert Candidate(y, base, w);
    NearestOfThree(w, today);
    DistanceIs(y, w, today);
    forall z | base - 1 <= z <= base + 1 && z != y ensures Distance(z, w, today) > Distance(y, w, today) {
      DistanceIs(z, w, today);
      var u := UtcYear(z);
      WeekOneNext(base - 1);
      WeekOneNext(base + 1);
      if u > 1800 {
        AwayBounds(w, today, base, u);
        AwayBounds(w, today, base, y);
      }
    }
  }

  lemma YearsClose(d: int, today: int)
    requires -181 <= MondayOf(d) - today <= 181
    ensures -1 <= IsoWeekYear(d) - IsoWeekYear(today) <= 1
  {
    hide WeekOne, Jan1, Weekday0, IsoWeekYear;
    var y, z := IsoWeekYear(d), IsoWeekYear(today);
    WeekYearOnly(d, y);
    WeekYearOnly(today, z);
    if y < z {
      WeekOneApart(y + 1, z);
    } else if z < y {
      WeekOneApart(z + 1, y);
    }
  }

  lemma NewYears()
    ensures Jan1(2020) == 18262 && Jan1(2021) == 18628 && Jan1(2022) == 18993 && Jan1(2023) == 19358
  {
  }

  lemma FirstWeeks()
    ensures WeekOne(2020) == 18260 && WeekOne(2021) == 18631 && WeekOne(2022) == 18995 && WeekOne(2023) == 19359
  {
    hide Jan1;
    NewYears();
  }

  /** Week 53 can be accepted much farther away: asked on 30 December 2021, that of 2020. */
  lemma FarWeek53()
    ensures var d, today := Jan1(2020) + 362, Jan1(2021) + 363;
            IsoWeekOfDate(d) == 53 && WeekOfDate(d, today).Some? && today - MondayOf(d) == 367
  {
    hide NearestWeekYear, IsoWeekYear, Jan1, WeekOne, IsoWeekMonday;
    var d, today := Jan1(2020) + 362, Jan1(2021) + 363;
    NewYears();
    FirstWeeks();
    WeekYearOnly(d, 2020);
    WeekYearOnly(today, 2021);
    IsoMondayIs(2020, 1);
    IsoMondayIs(2021, 1);
    IsoMondayIs(2022, 1);
    IsoMondayIs(2023, 1);
    NearestOfThree(53, today);
    assert !Candidate(2021, 2021, 53) && !Candidate(2022, 2021, 53) && Candidate(2020, 2021, 53);
  }
}
