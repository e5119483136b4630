/**
 * Wall-clock times and instants in Stockholm (src/core/domain/time.ts). Instants and wall clocks are in
 * milliseconds; the time-zone data base is any function that gives the minutes east of UTC at an instant.
 */
module StockholmTime {
  import opened Basics

  const MINUTE := 60_000
  const HOUR := 60 * MINUTE

  /** An hour or two east of UTC, and no change undone within six hours. */
  ghost predicate Zone(zone: int -> int) {
    && (forall i :: zone(i) == 60 || zone(i) == 120)
    && (forall a, b, c :: a < b < c <= a + 6 * HOUR && zone(a) == zone(c) ==> zone(b) == zone(a))
  }

  /** The last whole second. */
  function Whole(instant: int): int {
    instant / 1000 * 1000
  }

  function WallClock(zone: int -> int, instant: int): int {
    Whole(instant) + zone(instant) * MINUTE
  }

  /** `stockholmOffsetMinutes`: the two clocks differ by whole minutes, so nothing is rounded. */
  function OffsetMinutes(zone: int -> int, instant: int): int {
    (WallClock(zone, Whole(instant)) - Whole(instant)) / MINUTE
  }

  /** A date and time with its offset, as printed. */
  datatype DateTime = DateTime(wall: int, offset: int) {
    function Instant(): int {
      wall - offset * MINUTE
    }
  }

  function InstantToStockholm(zone: int -> int, instant: int): DateTime {
    var offset := OffsetMinutes(zone, instant);
    DateTime(Whole(instant) + offset * MINUTE, offset)
  }

  function WallClockToStockholm(zone: int -> int, wall: int): DateTime {
    var before, after := OffsetMinutes(zone, wall - 3 * HOUR), OffsetMinutes(zone, wall + 3 * HOUR);
    var larger, smaller := Max(before, after), Min(before, after);
    var offset := if WallClock(zone, wall - larger * MINUTE) == wall then larger
                  else if WallClock(zone, wall - smaller * MINUTE) == wall then smaller
                  else before;
    DateTime(wall, offset)
  }

  /** What a timestamp names after its date and time: nothing, `Z`, or minutes east of UTC. */
  datatype Suffix = Bare | Utc | East(minutes: int)

  /** `toStockholmDateTime`, once the text is read as a real date and time. */
  function ToStockholm(zone: int -> int, wall: int, suffix: Suffix): DateTime {
    match suffix
    case Bare => WallClockToStockholm(zone, wall)
    case Utc => InstantToStockholm(zone, wall)
    case East(minutes) => InstantToStockholm(zone, wall - minutes * MINUTE)
  }

  // ---------- Instants ----------

  lemma OffsetIs(zone: int -> int, instant: int)
    ensures OffsetMinutes(zone, instant) == zone(Whole(instant))
    ensures Whole(Whole(instant)) == Whole(instant)
    ensures instant % 1000 == 0 <==> Whole(instant) == instant
  {
  }

  /** An instant is shown to the second it lies in, in the offset in force. */
  lemma InstantToSecond(zone: int -> int, instant: int)
    ensures var r := InstantToStockholm(zone, instant);
            && r.Instant() <= instant < r.Instant() + 1000 && r.Instant() % 1000 == 0 && r.offset == zone(r.Instant())
  {
    OffsetIs(zone, instant);
  }

  /** With an offset or `Z` the instant stays the same, to the second, in the offset in force at it. */
  lemma InstantKept(zone: int -> int, wall: int, suffix: Suffix)
    requires !suffix.Bare? && wall % 1000 == 0
    ensures var r := ToStockholm(zone, wall, suffix);
            && r.Instant() == wall - (if suffix.East? then suffix.minutes else 0) * MINUTE
            && r.offset == zone(r.Instant())
  {
    hide Whole, OffsetMinutes, WallClock;
    var minutes := if suffix.East? then suffix.minutes else 0;
    var instant := wall - minutes * MINUTE;
    assert instant % 1000 == 0 by {
      assert instant == 1000 * (wall / 1000 - minutes * 60);
    }
    OffsetIs(zone, instant);
  }

  // ---------- Wall clocks ----------

  /** Some instant has this wall clock. */
  ghost predicate Exists(zone: int -> int, wall: int) {
    exists instant :: Shows(zone, instant, wall)
  }

  predicate Shows(zone: int -> int, instant: int, wall: int) {
    instant % 1000 == 0 && instant + zone(instant) * MINUTE == wall
  }

  lemma ShowsIs(zone: int -> int, wall: int, offset: int)
    requires wall % 1000 == 0
    ensures WallClock(zone, wall - offset * MINUTE) == wall <==> zone(wall - offset * MINUTE) == offset
    ensures Shows(zone, wall - offset * MINUTE, wall) <==> zone(wall - offset * MINUTE) == offset
  {
    assert (wall - offset * MINUTE) % 1000 == 0 by {
      assert wall - offset * MINUTE == 1000 * (wall / 1000 - offset * 60);
    }
    OffsetIs(zone, wall - offset * MINUTE);
  }

  lemma ShownBy(zone: int -> int, instant: int, wall: int)
    requires Zone(zone) && Shows(zone, instant, wall)
    ensures instant == wall - 60 * MINUTE || instant == wall - 120 * MINUTE
  {
  }

  /** The offset the source chooses, in terms of the zone at four instants. */
  lemma ChosenOffset(zone: int -> int, wall: int)
    requires Zone(zone) && wall % 1000 == 0
    ensures var before, after := zone(wall - 3 * HOUR), zone(wall + 3 * HOUR);
            var early, late := zone(wall - 120 * MINUTE), zone(wall - 60 * MINUTE);
            && (early == before || early == after) && (late == before || late == after)
            && WallClockToStockholm(zone, wall).offset
               == if early == 120 then 120 else if late == 60 then 60 else before
  {
    hide Whole, WallClock;
    OffsetIs(zone, wall - 3 * HOUR);
    OffsetIs(zone, wall + 3 * HOUR);
    ShowsIs(zone, wall, 60);
    ShowsIs(zone, wall, 120);
  }

  /** A wall clock that some instant has is mapped back to itself. */
  lemma ExistingMapsBack(zone: int -> int, wall: int)
    requires Zone(zone) && wall % 1000 == 0 && Exists(zone, wall)
    ensures Shows(zone, WallClockToStockholm(zone, wall).Instant(), wall)
  {
    hide WallClockToStockholm;
    var instant :| Shows(zone, instant, wall);
    ShownBy(zone, instant, wall);
    ChosenOffset(zone, wall);
    ShowsIs(zone, wall, 60);
    ShowsIs(zone, wall, 120);
    KeepsWall(zone, wall);
  }

  lemma KeepsWall(zone: int -> int, wall: int)
    ensures WallClockToStockholm(zone, wall).wall == wall
  {
  }

  /** In the autumn fold two instants have the wall clock, and the earlier one is chosen; the fold is exactly
      where the offset two hours before is 120 and one hour before is 60. */
  lemma FoldIsEarlier(zone: int -> int, wall: int)
    requires Zone(zone) && wall % 1000 == 0
    ensures (exists i, j :: i < j && Shows(zone, i, wall) && Shows(zone, j, wall))
            <==> zone(wall - 120 * MINUTE) == 120 && zone(wall - 60 * MINUTE) == 60
    ensures forall i :: Shows(zone, i, wall) ==> WallClockToStockholm(zone, wall).Instant() <= i
  {
    hide WallClockToStockholm, Shows;
    forall i | Shows(zone, i, wall) ensures i == wall - 60 * MINUTE || i == wall - 120 * MINUTE {
      ShownBy(zone, i, wall);
    }
    ChosenOffset(zone, wall);
    ShowsIs(zone, wall, 60);
    ShowsIs(zone, wall, 120);
    KeepsWall(zone, wall);
    assert wall - 120 * MINUTE < wall - 60 * MINUTE;
  }

  /** In the spring gap no instant has the wall clock, and the offset from before the change is kept; the gap is
      exactly where the offset two hours before is 60 and one hour before is 120. */
  lemma GapKeepsOffset(zone: int -> int, wall: int)
    requires Zone(zone) && wall % 1000 == 0
    ensures !Exists(zone, wall) <==> zone(wall - 120 * MINUTE) == 60 && zone(wall - 60 * MINUTE) == 120
    ensures !Exists(zone, wall) ==>
              && WallClockToStockholm(zone, wall).offset == 60 == zone(wall - 3 * HOUR)
              && forall i :: wall - 3 * HOUR <= i <= wall - 120 * MINUTE ==> zone(i) == 60
  {
    hide WallClockToStockholm, Shows;
    forall i | Shows(zone, i, wall) ensures i == wall - 60 * MINUTE || i == wall - 120 * MINUTE {
      ShownBy(zone, i, wall);
    }
    ChosenOffset(zone, wall);
    ShowsIs(zone, wall, 60);
    ShowsIs(zone, wall, 120);
  }

  /** Reading a result again gives the same result, exactly when the wall clock exists; in the gap it moves an
      hour ahead, to the same instant in summer time. */
  lemma ReadAgain(zone: int -> int, wall: int)
    requires Zone(zone) && wall % 1000 == 0
    ensures var r := WallClockToStockholm(zone, wall);
            var again := ToStockholm(zone, r.wall, East(r.offset));
            && again.Instant() == r.Instant()
            && (again == r <==> Exists(zone, wall))
            && (!Exists(zone, wall) ==> again == DateTime(wall + HOUR, 120))
  {
    hide WallClockToStockholm, InstantToStockholm, Whole, Exists;
    var r := WallClockToStockholm(zone, wall);
    KeepsWall(zone, wall);
    GapKeepsOffset(zone, wall);
    ChosenOffset(zone, wall);
    InstantKept(zone, wall, East(r.offset));
  }

  /** A result that came from an instant reads back as itself. */
  lemma InstantReadAgain(zone: int -> int, instant: int)
    ensures var r := InstantToStockholm(zone, instant); ToStockholm(zone, r.wall, East(r.offset)) == r
  {
    OffsetIs(zone, instant);
    var r := InstantToStockholm(zone, instant);
    assert r.wall - r.offset * MINUTE == Whole(instant);
    OffsetIs(zone, Whole(instant));
  }
}
