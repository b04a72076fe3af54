// From a calendar date in a time zone to the instants that begin and end it.
module ZonedMidnight {

  const HOUR := 60 * 60 * 1000
  const DAY := 24 * HOUR

  /** No zone is further than this from Greenwich. */
  const WIDEST := 15 * HOUR

  /** Milliseconds the local clock is ahead of UTC at each instant. */
  type Zone = int -> int

  ghost predicate Bounded(zone: Zone) {
    forall t :: -WIDEST <= zone(t) <= WIDEST
  }

  /** What the local clock shows at instant `t`. */
  function Local(zone: Zone, t: int): int { t + zone(t) }

  /** Around `midnight` the offset changes at most once, from `a` to `b` at instant `at`. */
  ghost predicate Changes(zone: Zone, midnight: int, at: int, a: int, b: int) {
    && -WIDEST <= a <= WIDEST && -WIDEST <= b <= WIDEST
    && forall t :: midnight - WIDEST <= t <= midnight + WIDEST ==> zone(t) == if t < at then a else b
  }

  /** `localMidnightToUtc`; `midnight` is the date's midnight read as UTC. */
  function LocalMidnightToUtc(zone: Zone, midnight: int): int {
    var firstGuess := midnight - zone(midnight);
    midnight - zone(firstGuess)
  }

  /** `zonedDayRange`. */
  function ZonedDayRange(zone: Zone, midnight: int): (int, int) {
    (LocalMidnightToUtc(zone, midnight), LocalMidnightToUtc(zone, midnight + DAY))
  }

  ghost predicate Occurs(zone: Zone, midnight: int) {
    exists t :: Local(zone, t) == midnight
  }

  /** Two passes find an instant showing that midnight exactly when one exists. */
  lemma MidnightIsFoundIff(zone: Zone, midnight: int, at: int, a: int, b: int)
    requires Bounded(zone) && Changes(zone, midnight, at, a, b)
    ensures Local(zone, LocalMidnightToUtc(zone, midnight)) == midnight <==> Occurs(zone, midnight)
  {
    if Occurs(zone, midnight) {
      var t :| Local(zone, t) == midnight;
      assert -WIDEST <= zone(t) <= WIDEST;
      assert zone(t) == if t < at then a else b;
    }
  }

  /** The clock shows an earlier time before instant `c`, and from `c` on that midnight or later. */
  ghost predicate Splits(zone: Zone, midnight: int, c: int) {
    forall t :: t < c <==> Local(zone, t) < midnight
  }

  /**
   * Whether the computed instant begins the day although a change of offset may touch its midnight. The local times
   * in `[lo, hi)` are skipped (a < b) or shown twice (b < a). At `lo` itself, a clock put forward at midnight comes
   * out right unless the zone was behind UTC, a clock put back to midnight only if the zone ends up behind UTC.
   */
  predicate ClearOfChange(midnight: int, at: int, a: int, b: int) {
    var lo, hi := if a < b then at + a else at + b, if a < b then at + b else at + a;
    midnight < lo || hi <= midnight || (midnight == lo && if a < b then at <= midnight else midnight < at)
  }

  lemma DayBeginsIff(zone: Zone, midnight: int, at: int, a: int, b: int)
    requires Bounded(zone) && Changes(zone, midnight, at, a, b)
    ensures Splits(zone, midnight, LocalMidnightToUtc(zone, midnight)) <==> ClearOfChange(midnight, at, a, b)
  {
    var c := LocalMidnightToUtc(zone, midnight);
    if ClearOfChange(midnight, at, a, b) {
      forall t ensures t < c <==> Local(zone, t) < midnight {
        if midnight - WIDEST <= t <= midnight + WIDEST { assert zone(t) == if t < at then a else b; }
      }
    } else {
      var wrong := Misplaced(midnight, at, a, b, c);
      assert !(wrong < c <==> Local(zone, wrong) < midnight);
    }
  }

  /** An instant on the wrong side of `c` when the change of offset gets in the way. */
  function Misplaced(midnight: int, at: int, a: int, b: int, c: int): int {
    if a < b then (if c < at then c else at)
    else if c < at then at
    else at - 1
  }

  /** A zone that puts its clock forward by an hour at midnight of day 1, from `hours` ahead of UTC. */
  function ForwardAtMidnight(hours: int): Zone {
    t => (if t < DAY - hours * HOUR then hours else hours + 1) * HOUR
  }

  /**
   * West of Greenwich such a day is made to begin an hour early: five hours behind UTC, the instant returned still
   * shows eleven at night. East of it, two hours ahead, the day begins at the first instant after the skipped hour.
   */
  lemma ForwardAtMidnightWestAndEast()
    ensures var west := ForwardAtMidnight(-5);
            && Bounded(west) && Changes(west, DAY, DAY + 5 * HOUR, -5 * HOUR, -4 * HOUR)
            && Local(west, LocalMidnightToUtc(west, DAY)) == DAY - HOUR
            && !Splits(west, DAY, LocalMidnightToUtc(west, DAY))
    ensures var east := ForwardAtMidnight(2);
            && Bounded(east) && Changes(east, DAY, DAY - 2 * HOUR, 2 * HOUR, 3 * HOUR)
            && Local(east, LocalMidnightToUtc(east, DAY)) == DAY + HOUR
            && Splits(east, DAY, LocalMidnightToUtc(east, DAY))
  {
    var west, east := ForwardAtMidnight(-5), ForwardAtMidnight(2);
    DayBeginsIff(west, DAY, DAY + 5 * HOUR, -5 * HOUR, -4 * HOUR);
    DayBeginsIff(east, DAY, DAY - 2 * HOUR, 2 * HOUR, 3 * HOUR);
  }

  /** When both midnights are clear of changes, the range holds the instants of that calendar day and no others. */
  lemma RangeIsTheDay(zone: Zone, midnight: int, at: int, a: int, b: int, at': int, a': int, b': int, t: int)
    requires Bounded(zone) && Changes(zone, midnight, at, a, b) && Changes(zone, midnight + DAY, at', a', b')
    requires ClearOfChange(midnight, at, a, b) && ClearOfChange(midnight + DAY, at', a', b')
    ensures ZonedDayRange(zone, midnight).0 <= t < ZonedDayRange(zone, midnight).1
            <==> midnight <= Local(zone, t) < midnight + 86_400_000
  {
    DayBeginsIff(zone, midnight, at, a, b);
    DayBeginsIff(zone, midnight + DAY, at', a', b');
    assert t < ZonedDayRange(zone, midnight).0 <==> Local(zone, t) < midnight;
    assert t < ZonedDayRange(zone, midnight).1 <==> Local(zone, t) < midnight + DAY;
  }
}
