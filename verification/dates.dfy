/** `get_current_week` on dates written as proleptic Gregorian day
    ordinals, the numbering Python's `date.toordinal()` uses: day 1 is
    Monday 1 January of year 1 and `date.weekday()` is
    `(ordinal + 6) % 7`, Monday being 0. Today is a parameter. */
module Dates {
  import opened Wrappers

  /** The ordinals of `date.min` and `date.max` (31 December 9999). */
  const MinOrdinal: int := 1
  const MaxOrdinal: int := 3652059

  type Ordinal = d: int | MinOrdinal <= d <= MaxOrdinal witness MinOrdinal

  function Weekday(d: Ordinal): (w: int)
    ensures 0 <= w < 7
  {
    (d + 6) % 7
  }

  /** Adding days to a date raises `OverflowError` past `date.max`. */
  function AddDays(d: Ordinal, n: int): Option<Ordinal>
  {
    if MinOrdinal <= d + n <= MaxOrdinal then Some(d + n) else None
  }

  /** The Monday and the Sunday of `today`'s week, or `None` where the
      Sunday would lie past `date.max`. */
  function CurrentWeek(today: Ordinal): Option<(Ordinal, Ordinal)>
  {
    match AddDays(today, -Weekday(today))
    case None => None
    case Some(start) =>
      match AddDays(start, 6)
      case None => None
      case Some(end) => Some((start, end))
  }

  /** The week runs from a Monday to the Sunday six days later and holds
      today; a Monday starts its own week. */
  lemma CurrentWeekSpec(today: Ordinal)
    requires CurrentWeek(today).Some?
    ensures var (start, end) := CurrentWeek(today).value;
      && start <= today <= end
      && end - start == 6
      && Weekday(start) == 0
      && (Weekday(today) == 0 ==> start == today)
  {
    var start := today - Weekday(today);
    assert (start + 6) % 7 == 0 by {
      assert start + 6 == (today + 6) - (today + 6) % 7;
    }
  }

  /** The Monday is always a date; only the week that starts on Monday
      27 December 9999 has its Sunday past `date.max`. */
  lemma CurrentWeekDefined(today: Ordinal)
    ensures CurrentWeek(today).None? <==> today - Weekday(today) + 6 > MaxOrdinal
    ensures CurrentWeek(today).None? <==> today >= MaxOrdinal - 4
  {
    var w := Weekday(today);
    assert MinOrdinal <= today - w by {
      assert (today + 6) % 7 <= today - 1 || today >= 7;
    }
    assert Weekday(MaxOrdinal) == 4;
    if today >= MaxOrdinal - 4 {
      assert today - w == MaxOrdinal - 4 by {
        assert Weekday(today) == Weekday(MaxOrdinal) - (MaxOrdinal - today);
      }
    }
  }
}
