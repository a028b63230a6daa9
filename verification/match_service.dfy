/** The match service: load per period, the busiest days and hours of the
    week, a player's match history, the leaderboard, match details and a new
    session's empty match. The repository's queries become inputs: the
    games of the period, the matches of a user, the ordered top players and
    the match found by id. */
module MatchService {
  import opened Wrappers
  import PyText
  import Tallies
  import Sorting
  import ErrorHandlers

  const MonthsRu: seq<string> := [
    "Январь", "Февраль", "Март", "Апрель", "Май", "Июнь",
    "Июль", "Август", "Сентябрь", "Октябрь", "Ноябрь", "Декабрь"
  ]

  const DaysRu: seq<string> := ["Понедельник", "Вторник", "Среда", "Четверг", "Пятница", "Суббота", "Воскресенье"]

  /** The first hour counted in the day view and the first hour past it. */
  const FirstHour: int := 8
  const EndHour: int := 20

  /** `f"{h}:00-{h + 2}:00"`. */
  function IntervalLabel(h: int): string
  {
    PyText.IntToString(h) + ":00-" + PyText.IntToString(h + 2) + ":00"
  }

  /** `TIME_INTERVALS`: the two-hour slots starting at 8, 10, ..., 18. */
  const TimeIntervals: seq<string> :=
    [IntervalLabel(8), IntervalLabel(10), IntervalLabel(12), IntervalLabel(14), IntervalLabel(16), IntervalLabel(18)]

  /** `f"Неделя {n}"`. */
  function WeekLabel(n: int): string
  {
    "Неделя " + PyText.IntToString(n)
  }

  const WeekLabels: seq<string> := [WeekLabel(1), WeekLabel(2), WeekLabel(3), WeekLabel(4), WeekLabel(5)]

  /** The parts of a game's `datetime` the service reads; `weekday` is
      `datetime.weekday()`, Monday being 0. */
  datatype Stamp = Stamp(month: int, day: int, hour: int, weekday: int)

  predicate ValidStamp(s: Stamp)
  {
    1 <= s.month <= 12 && 1 <= s.day <= 31 && 0 <= s.hour < 24 && 0 <= s.weekday < 7
  }

  predicate AllValid(gs: seq<Stamp>)
  {
    forall i :: 0 <= i < |gs| ==> ValidStamp(gs[i])
  }

  datatype Period = Day | Week | Month | Year

  /** `8 + 2 * ((hour - 8) // 2)` for an hour of at least 8, where Python's
      floor division and Dafny's agree. */
  function IntervalStart(hour: int): int
    requires hour >= FirstHour
  {
    FirstHour + 2 * ((hour - FirstHour) / 2)
  }

  /** The slot a game at `hour` is counted under, if any. */
  function IntervalOf(hour: int): Option<string>
  {
    if FirstHour <= hour < EndHour then Some(IntervalLabel(IntervalStart(hour))) else None
  }

  /** `((day - 1) // 7) + 1`. */
  function WeekOfMonth(day: int): int
    requires day >= 1
  {
    (day - 1) / 7 + 1
  }

  /** The counter key one game adds to for a period, if any. */
  function PeriodKey(period: Period, g: Stamp): Option<string>
    requires ValidStamp(g)
  {
    match period
    case Year => Some(MonthsRu[g.month - 1])
    case Month => Some(WeekLabel(WeekOfMonth(g.day)))
    case Week => Some(DaysRu[g.weekday])
    case Day => IntervalOf(g.hour)
  }

  function Labels(period: Period): seq<string>
  {
    match period
    case Year => MonthsRu
    case Month => WeekLabels
    case Week => DaysRu
    case Day => TimeIntervals
  }

  function KeyOf(period: Period, g: Stamp): seq<string>
    requires ValidStamp(g)
  {
    match PeriodKey(period, g)
    case Some(k) => [k]
    case None => []
  }

  /** The keys counted, game by game. */
  function Keys(period: Period, games: seq<Stamp>): seq<string>
    requires AllValid(games)
  {
    if games == [] then []
    else
      var last := games[|games| - 1];
      Keys(period, games[..|games| - 1]) + KeyOf(period, last)
  }

  lemma KeysSnoc(period: Period, games: seq<Stamp>, i: nat)
    requires AllValid(games)
    requires i < |games|
    ensures AllValid(games[..i]) && AllValid(games[..i + 1])
    ensures Keys(period, games[..i + 1]) ==
      Keys(period, games[..i]) + KeyOf(period, games[i])
  {
    assert games[..i + 1][..i] == games[..i];
  }

  /** The response's `data`: for each label, the number of games counted
      under it. */
  function LoadData(period: Period, games: seq<Stamp>): seq<nat>
    requires AllValid(games)
  {
    var labels := Labels(period);
    seq(|labels|, i requires 0 <= i < |labels| => Tallies.Occurrences(Keys(period, games), labels[i]))
  }

  /** The counting loop of `get_load_by_period`: one increment per game
      that has a key. */
  method CountByPeriod(period: Period, games: seq<Stamp>) returns (counts: Tallies.Tally<string>)
    requires AllValid(games)
    ensures counts == Tallies.TallyOf(Keys(period, games))
  {
    counts := [];
    var i := 0;
    while i < |games|
      invariant 0 <= i <= |games|
      invariant counts == Tallies.TallyOf(Keys(period, games[..i]))
    {
      KeysSnoc(period, games, i);
      var key := PeriodKey(period, games[i]);
      if key.Some? {
        assert KeyOf(period, games[i]) == [key.value];
        Tallies.TallyOfSnoc(Keys(period, games[..i]), key.value);
        counts := Tallies.Bump(counts, key.value);
      } else {
        assert KeyOf(period, games[i]) == [];
        assert Keys(period, games[..i + 1]) == Keys(period, games[..i]);
      }
      i := i + 1;
    }
    assert games[..i] == games;
  }

  /** `[counts.get(label, 0) for label in labels]`. */
  method ReadCounts(labels: seq<string>, counts: Tallies.Tally<string>) returns (data: seq<nat>)
    ensures |data| == |labels|
    ensures forall k :: 0 <= k < |labels| ==> data[k] == Tallies.Get(counts, labels[k])
  {
    data := [];
    var j := 0;
    while j < |labels|
      invariant 0 <= j <= |labels|
      invariant |data| == j
      invariant forall k :: 0 <= k < j ==> data[k] == Tallies.Get(counts, labels[k])
    {
      data := data + [Tallies.Get(counts, labels[j])];
      j := j + 1;
    }
  }

  /** `get_load_by_period`, given the games the repository found for the
      period: counts the games, then reads one count per label. */
  method GetLoadByPeriod(period: Period, games: seq<Stamp>) returns (labels: seq<string>, data: seq<nat>)
    requires AllValid(games)
    ensures labels == Labels(period)
    ensures data == LoadData(period, games)
  {
    var counts := CountByPeriod(period, games);
    labels := Labels(period);
    data := ReadCounts(labels, counts);
    Tallies.TallyOfSpec(Keys(period, games));
  }

  /** A game between 8:00 and 20:00 falls in the slot that starts at the
      even offset from 8 at or just before its hour; the slot is one of the
      six labels. */
  lemma IntervalOfSpec(hour: int)
    ensures IntervalOf(hour).Some? <==> FirstHour <= hour < EndHour
    ensures FirstHour <= hour < EndHour ==>
      var s := IntervalStart(hour);
      && s <= hour < s + 2
      && (s - FirstHour) % 2 == 0
      && IntervalOf(hour) == Some(TimeIntervals[(s - FirstHour) / 2])
  {
  }

  /** Every day of a month, 1 to 31, falls in one of the five week labels. */
  lemma WeekOfMonthRange(day: int)
    requires 1 <= day <= 31
    ensures 1 <= WeekOfMonth(day) <= 5
    ensures WeekLabel(WeekOfMonth(day)) == WeekLabels[WeekOfMonth(day) - 1]
  {
  }

  /** Every key a game produces is one of the period's labels. */
  lemma KeyIsLabel(period: Period, g: Stamp)
    requires ValidStamp(g)
    ensures PeriodKey(period, g).Some? ==> PeriodKey(period, g).value in Labels(period)
    ensures period != Day ==> PeriodKey(period, g).Some?
  {
    match period
    case Year =>
    case Week =>
    case Month =>
      WeekOfMonthRange(g.day);
    case Day =>
      IntervalOfSpec(g.hour);
  }

  /** Number of games between 8:00 and 20:00. */
  function DaytimeCount(games: seq<Stamp>): nat
  {
    if games == [] then 0
    else DaytimeCount(games[..|games| - 1]) + (var h := games[|games| - 1].hour; if FirstHour <= h < EndHour then 1 else 0)
  }

  lemma {:induction false} KeysSpec(period: Period, games: seq<Stamp>)
    requires AllValid(games)
    ensures forall k :: k in Keys(period, games) ==> k in Labels(period)
    ensures |Keys(period, games)| == if period == Day then DaytimeCount(games) else |games|
  {
    if games != [] {
      var init := games[..|games| - 1];
      KeysSpec(period, init);
      KeyIsLabel(period, games[|games| - 1]);
      IntervalOfSpec(games[|games| - 1].hour);
    }
  }

  ghost predicate Distinct(s: seq<string>)
  {
    forall i, j :: 0 <= i < j < |s| ==> s[i] != s[j]
  }

  lemma ColonSplit(a: string, b: string)
    requires ':' !in a
    ensures PyText.Split(a + ":00-" + b + ":00", ':')[0] == a
  {
    assert a + ":00-" + b + ":00" == a + [':'] + ("00-" + b + ":00");
    PyText.SplitAroundSeparator(a, ':', "00-" + b + ":00");
  }

  lemma IntervalLabelInjective(a: int, b: int)
    requires IntervalLabel(a) == IntervalLabel(b)
    ensures a == b
  {
    PyText.IntToStringChars(a);
    PyText.IntToStringChars(b);
    assert !PyText.IsDigit(':');
    ColonSplit(PyText.IntToString(a), PyText.IntToString(a + 2));
    ColonSplit(PyText.IntToString(b), PyText.IntToString(b + 2));
    PyText.IntToStringInjective(a, b);
  }

  lemma WeekLabelInjective(a: int, b: int)
    requires WeekLabel(a) == WeekLabel(b)
    ensures a == b
  {
    var p := "Неделя ";
    assert PyText.IntToString(a) == WeekLabel(a)[|p|..];
    assert PyText.IntToString(b) == WeekLabel(b)[|p|..];
    PyText.IntToStringInjective(a, b);
  }

  lemma MonthsDistinct()
    ensures Distinct(MonthsRu)
  {
  }

  lemma DaysDistinct()
    ensures Distinct(DaysRu)
  {
  }

  lemma WeekLabelsDistinct()
    ensures Distinct(WeekLabels)
  {
    assert forall i :: 0 <= i < 5 ==> WeekLabels[i] == WeekLabel(i + 1);
    forall i, j | 0 <= i < j < 5 ensures WeekLabels[i] != WeekLabels[j] {
      if WeekLabels[i] == WeekLabels[j] {
        WeekLabelInjective(i + 1, j + 1);
      }
    }
  }

  lemma IntervalsDistinct()
    ensures Distinct(TimeIntervals)
  {
    assert forall i :: 0 <= i < 6 ==> TimeIntervals[i] == IntervalLabel(FirstHour + 2 * i);
    forall i, j | 0 <= i < j < 6 ensures TimeIntervals[i] != TimeIntervals[j] {
      if TimeIntervals[i] == TimeIntervals[j] {
        IntervalLabelInjective(FirstHour + 2 * i, FirstHour + 2 * j);
      }
    }
  }

  /** No label repeats, so no game is counted under two of them. */
  lemma LabelsDistinct(period: Period)
    ensures Distinct(Labels(period))
  {
    match period
    case Year => MonthsDistinct();
    case Week => DaysDistinct();
    case Month => WeekLabelsDistinct();
    case Day => IntervalsDistinct();
  }

  function Total(xs: seq<nat>): nat
  {
    if xs == [] then 0 else Total(xs[..|xs| - 1]) + xs[|xs| - 1]
  }

  /** Σ over the labels of the occurrences of each label among `ks`. */
  function LabelTotal(labels: seq<string>, ks: seq<string>): nat
  {
    if labels == [] then 0
    else LabelTotal(labels[..|labels| - 1], ks) + Tallies.Occurrences(ks, labels[|labels| - 1])
  }

  lemma {:induction false} LabelTotalEmpty(labels: seq<string>)
    ensures LabelTotal(labels, []) == 0
  {
    if labels != [] {
      LabelTotalEmpty(labels[..|labels| - 1]);
    }
  }

  lemma {:induction false} LabelTotalStep(labels: seq<string>, ks: seq<string>, k: string)
    ensures LabelTotal(labels, ks + [k]) == LabelTotal(labels, ks) + Tallies.Occurrences(labels, k)
  {
    assert (ks + [k])[..|ks|] == ks;
    if labels != [] {
      LabelTotalStep(labels[..|labels| - 1], ks, k);
    }
  }

  lemma {:induction false} OccurrencesAbsent(s: seq<string>, k: string)
    requires k !in s
    ensures Tallies.Occurrences(s, k) == 0
  {
    if s != [] {
      OccurrencesAbsent(s[..|s| - 1], k);
    }
  }

  lemma {:induction false} OccurrencesOnce(s: seq<string>, k: string)
    requires Distinct(s) && k in s
    ensures Tallies.Occurrences(s, k) == 1
  {
    var init := s[..|s| - 1];
    if s[|s| - 1] == k {
      assert k !in init;
      OccurrencesAbsent(init, k);
    } else {
      assert k in init by {
        var m :| 0 <= m < |s| && s[m] == k;
        assert init[m] == k;
      }
      OccurrencesOnce(init, k);
    }
  }

  /** When every key is a label and labels do not repeat, the counts per
      label add up to the number of keys. */
  lemma {:induction false} LabelTotalAll(labels: seq<string>, ks: seq<string>)
    requires Distinct(labels)
    requires forall k :: k in ks ==> k in labels
    ensures LabelTotal(labels, ks) == |ks|
  {
    if ks == [] {
      LabelTotalEmpty(labels);
    } else {
      var init, k := ks[..|ks| - 1], ks[|ks| - 1];
      assert ks == init + [k];
      LabelTotalAll(labels, init);
      LabelTotalStep(labels, init, k);
      OccurrencesOnce(labels, k);
    }
  }

  lemma {:induction false} TotalOfLabelCounts(labels: seq<string>, ks: seq<string>, data: seq<nat>)
    requires |data| == |labels|
    requires forall i :: 0 <= i < |labels| ==> data[i] == Tallies.Occurrences(ks, labels[i])
    ensures Total(data) == LabelTotal(labels, ks)
  {
    if labels != [] {
      TotalOfLabelCounts(labels[..|labels| - 1], ks, data[..|data| - 1]);
    }
  }

  /** The counts of the year, month and week views add up to the number of
      games; those of the day view to the number of games between 8:00 and
      20:00. */
  lemma LoadDataTotal(period: Period, games: seq<Stamp>)
    requires AllValid(games)
    ensures |LoadData(period, games)| == |Labels(period)|
    ensures Total(LoadData(period, games)) == if period == Day then DaytimeCount(games) else |games|
  {
    var ks := Keys(period, games);
    KeysSpec(period, games);
    LabelsDistinct(period);
    LabelTotalAll(Labels(period), ks);
    TotalOfLabelCounts(Labels(period), ks, LoadData(period, games));
  }

  /** A label no game falls under reads 0. */
  lemma UnusedLabelIsZero(period: Period, games: seq<Stamp>, i: nat)
    requires AllValid(games)
    requires i < |Labels(period)|
    requires forall g :: g in games ==> PeriodKey(period, g) != Some(Labels(period)[i])
    ensures LoadData(period, games)[i] == 0
  {
    var l := Labels(period);
    KeysAvoid(period, games, l[i]);
    OccurrencesAbsent(Keys(period, games), l[i]);
  }

  lemma {:induction false} KeysAvoid(period: Period, games: seq<Stamp>, k: string)
    requires AllValid(games)
    requires forall g :: g in games ==> PeriodKey(period, g) != Some(k)
    ensures k !in Keys(period, games)
  {
    if games != [] {
      var init := games[..|games| - 1];
      KeysAvoid(period, init, k);
    }
  }

  // ---------------------------------------------------------------------
  // calculate_extra_stats

  datatype TopDaysAndPeriod = TopDaysAndPeriod(topDays: seq<string>, topPeriod: string)

  function Min(a: int, b: int): int { if a <= b then a else b }

  /** The first two keys of `sorted(counts.items(), key = count,
      reverse = True)`: ties keep the order in which the keys were first
      counted, as the stable sort does. */
  function TopDays(ks: seq<string>): seq<string>
  {
    var ranked := Sorting.Sort(Tallies.TallyOf(ks), Tallies.NegCount);
    var n := Min(2, |ranked|);
    seq(n, i requires 0 <= i < n => ranked[i].0)
  }

  /** The key of `max(counts.items(), key = count)`, the first counted
      among equals, or "" for an empty counter. */
  function TopPeriod(ks: seq<string>): string
  {
    var slots := Tallies.TallyOf(ks);
    if slots == [] then "" else Tallies.FirstMax(slots).0
  }

  /** The busiest two days of the week and the busiest two-hour slot. */
  function ExtraStats(matches: seq<Stamp>): TopDaysAndPeriod
    requires AllValid(matches)
  {
    TopDaysAndPeriod(TopDays(Keys(Week, matches)), TopPeriod(Keys(Day, matches)))
  }

  /** `calculate_extra_stats`, given the games of the current week. */
  method CalculateExtraStats(matches: seq<Stamp>) returns (r: TopDaysAndPeriod)
    requires AllValid(matches)
    ensures r == ExtraStats(matches)
  {
    var dayCounts: Tallies.Tally<string> := [];
    var slotCounts: Tallies.Tally<string> := [];
    var i := 0;
    while i < |matches|
      invariant 0 <= i <= |matches|
      invariant dayCounts == Tallies.TallyOf(Keys(Week, matches[..i]))
      invariant slotCounts == Tallies.TallyOf(Keys(Day, matches[..i]))
    {
      var dt := matches[i];
      KeysSnoc(Week, matches, i);
      KeysSnoc(Day, matches, i);
      var dayName := DaysRu[dt.weekday];
      assert KeyOf(Week, dt) == [dayName];
      Tallies.TallyOfSnoc(Keys(Week, matches[..i]), dayName);
      dayCounts := Tallies.Bump(dayCounts, dayName);
      if FirstHour <= dt.hour < EndHour {
        var interval := IntervalLabel(IntervalStart(dt.hour));
        assert KeyOf(Day, dt) == [interval];
        Tallies.TallyOfSnoc(Keys(Day, matches[..i]), interval);
        slotCounts := Tallies.Bump(slotCounts, interval);
      } else {
        assert KeyOf(Day, dt) == [];
        assert Keys(Day, matches[..i + 1]) == Keys(Day, matches[..i]);
      }
      i := i + 1;
    }
    assert matches[..i] == matches;
    var ranked := Sorting.Sort(dayCounts, Tallies.NegCount);
    var n := Min(2, |ranked|);
    var topDays := seq(n, k requires 0 <= k < n => ranked[k].0);
    var topPeriod := "";
    if slotCounts != [] {
      var best := Tallies.FirstMax(slotCounts);
      topPeriod := best.0;
    }
    r := TopDaysAndPeriod(topDays, topPeriod);
  }

  /** The ranking holds each counted key once with its number of
      occurrences, busiest first. */
  lemma RankedCounts(ks: seq<string>)
    ensures var ranked := Sorting.Sort(Tallies.TallyOf(ks), Tallies.NegCount);
      && Sorting.SortedBy(ranked, Tallies.NegCount)
      && |ranked| == |Tallies.TallyOf(ks)|
      && (forall i :: 0 <= i < |ranked| ==> ranked[i].0 in ks && Tallies.Occurrences(ks, ranked[i].0) == ranked[i].1)
      && (forall d :: d in ks ==> exists p :: 0 <= p < |ranked| && ranked[p].0 == d)
  {
    var days := Tallies.TallyOf(ks);
    Tallies.TallyOfSpec(ks);
    var ranked := Sorting.Sort(days, Tallies.NegCount);
    Sorting.SortSorted(days, Tallies.NegCount);
    forall i | 0 <= i < |ranked|
      ensures ranked[i].0 in ks && Tallies.Occurrences(ks, ranked[i].0) == ranked[i].1
    {
      assert ranked[i] in multiset(ranked);
      var m :| 0 <= m < |days| && days[m] == ranked[i];
      Tallies.GetPresent(days, m);
    }
    forall d | d in ks ensures exists p :: 0 <= p < |ranked| && ranked[p].0 == d {
      var m :| 0 <= m < |days| && days[m].0 == d;
      assert days[m] in multiset(ranked);
      var p :| 0 <= p < |ranked| && ranked[p] == days[m];
    }
  }

  /** At most two top keys, two whenever two different keys were counted,
      each one counted, and the first at least as frequent as the second. */
  lemma TopDaysSpec(ks: seq<string>)
    ensures var top := TopDays(ks);
      && |top| == Min(2, |Tallies.TallyOf(ks)|)
      && (forall i :: 0 <= i < |top| ==> top[i] in ks)
      && (|top| == 2 ==> Tallies.Occurrences(ks, top[0]) >= Tallies.Occurrences(ks, top[1]))
  {
    RankedCounts(ks);
    var ranked := Sorting.Sort(Tallies.TallyOf(ks), Tallies.NegCount);
    if |ranked| >= 2 {
      assert Tallies.NegCount(ranked[0]) <= Tallies.NegCount(ranked[1]);
    }
  }

  /** No key left out of the top days was counted more often than the last
      one kept. */
  lemma TopDaysAreBusiest(ks: seq<string>, d: string)
    requires d !in TopDays(ks) && TopDays(ks) != []
    ensures Tallies.Occurrences(ks, d) <= Tallies.Occurrences(ks, TopDays(ks)[|TopDays(ks)| - 1])
  {
    RankedCounts(ks);
    var ranked := Sorting.Sort(Tallies.TallyOf(ks), Tallies.NegCount);
    var top := TopDays(ks);
    var n := |top|;
    if d in ks {
      var p :| 0 <= p < |ranked| && ranked[p].0 == d;
      assert forall q :: 0 <= q < n ==> top[q] == ranked[q].0;
      assert p >= n;
      assert Tallies.NegCount(ranked[n - 1]) <= Tallies.NegCount(ranked[p]);
    } else {
      OccurrencesAbsent(ks, d);
    }
  }

  /** The top days are weekday names of games played that week. */
  lemma TopDaysAreWeekdays(matches: seq<Stamp>)
    requires AllValid(matches)
    ensures forall d :: d in ExtraStats(matches).topDays ==> d in DaysRu
  {
    KeysSpec(Week, matches);
    TopDaysSpec(Keys(Week, matches));
  }

  /** The top key is "" only for an empty counter; otherwise it was counted,
      no key was counted more often, and of the keys counted as often it is
      the one counted first (`max` keeps the first maximum of the counter,
      whose keys are in first-counted order). */
  lemma TopPeriodSpec(ks: seq<string>)
    ensures ks == [] ==> TopPeriod(ks) == ""
    ensures ks != [] ==> TopPeriod(ks) in ks
    ensures forall s :: Tallies.Occurrences(ks, s) <= Tallies.Occurrences(ks, TopPeriod(ks))
    ensures forall s :: s in ks && Tallies.Occurrences(ks, s) == Tallies.Occurrences(ks, TopPeriod(ks)) ==>
      Tallies.FirstIndex(ks, TopPeriod(ks)) <= Tallies.FirstIndex(ks, s)
  {
    var slots := Tallies.TallyOf(ks);
    Tallies.TallyOfSpec(ks);
    if slots != [] {
      var best := Tallies.FirstMax(slots);
      var m := Tallies.FirstMaxAt(slots);
      Tallies.GetPresent(slots, m);
      forall s ensures Tallies.Occurrences(ks, s) <= Tallies.Occurrences(ks, best.0) {
        if s in ks {
          var q :| 0 <= q < |slots| && slots[q].0 == s;
          Tallies.GetPresent(slots, q);
          assert slots[q] in slots;
        } else {
          OccurrencesAbsent(ks, s);
        }
      }
      TopPeriodTie(ks, slots, m);
    } else {
      forall s ensures Tallies.Occurrences(ks, s) == 0 {
        OccurrencesAbsent(ks, s);
      }
    }
  }

  /** Among equally busy keys the counter's first maximum is the key that
      was counted first. */
  lemma TopPeriodTie(ks: seq<string>, slots: Tallies.Tally<string>, m: nat)
    requires slots == Tallies.TallyOf(ks) && m < |slots|
    requires forall j :: 0 <= j < m ==> slots[j].1 < slots[m].1
    requires forall k :: Tallies.Get(slots, k) == Tallies.Occurrences(ks, k)
    requires Tallies.DistinctKeys(slots)
    requires forall k :: k in ks ==> exists i :: 0 <= i < |slots| && slots[i].0 == k
    ensures slots[m].0 in ks
    ensures forall s :: s in ks && Tallies.Occurrences(ks, s) == Tallies.Occurrences(ks, slots[m].0) ==>
      Tallies.FirstIndex(ks, slots[m].0) <= Tallies.FirstIndex(ks, s)
  {
    Tallies.TallyOfOrder(ks);
    Tallies.GetPresent(slots, m);
    forall s | s in ks && Tallies.Occurrences(ks, s) == Tallies.Occurrences(ks, slots[m].0)
      ensures Tallies.FirstIndex(ks, slots[m].0) <= Tallies.FirstIndex(ks, s)
    {
      var q :| 0 <= q < |slots| && slots[q].0 == s;
      Tallies.GetPresent(slots, q);
      assert slots[q].1 == slots[m].1;
      if m < q {
        assert Tallies.FirstIndex(ks, slots[m].0) < Tallies.FirstIndex(ks, slots[q].0);
      }
    }
  }

  /** The week's top slot is "" exactly when no game falls between 8:00 and
      20:00, and otherwise one of the six slots. */
  lemma TopPeriodOfWeek(matches: seq<Stamp>)
    requires AllValid(matches)
    ensures ExtraStats(matches).topPeriod == "" <==> DaytimeCount(matches) == 0
    ensures ExtraStats(matches).topPeriod != "" ==> ExtraStats(matches).topPeriod in TimeIntervals
  {
    var ks := Keys(Day, matches);
    KeysSpec(Day, matches);
    TopPeriodSpec(ks);
    assert "" !in TimeIntervals;
  }

  // ---------------------------------------------------------------------
  // Matches and players as the repository returns them

  datatype Player = Player(id: int, fullName: string)

  datatype SetRow = SetRow(setNumber: int, player1Score: int, player2Score: int)

  /** A stored match; `date` stands for `datetime.date()`. A score or a
      duration may be missing (NULL). */
  datatype MatchRow = MatchRow(
    id: int,
    date: int,
    kind: string,
    durationInMinutes: Option<int>,
    player1: Player,
    player2: Player,
    player1Score: Option<int>,
    player2Score: Option<int>,
    winnerId: Option<int>,
    sets: seq<SetRow>)

  /** `f"{score}"`: a missing score prints as `None`. */
  function ScoreText(score: Option<int>): string
  {
    match score
    case None => "None"
    case Some(n) => PyText.IntToString(n)
  }

  // ---------------------------------------------------------------------
  // get_matches_by_user_id

  datatype ProfileItem = ProfileItem(id: int, date: int, opponent: Player, score: string, winner: Player, kind: string)

  datatype ProfilePage = ProfilePage(total: int, limit: int, offset: int, items: seq<ProfileItem>)

  /** One row of a user's match history. */
  function ProfileItemFor(userId: int, m: MatchRow): ProfileItem
  {
    var opponent := if m.player1.id != userId then m.player1 else m.player2;
    var winner := if m.winnerId == Some(m.player1.id) then m.player1 else m.player2;
    ProfileItem(m.id, m.date, opponent, ScoreText(m.player1Score) + ":" + ScoreText(m.player2Score), winner, m.kind)
  }

  /** `get_matches_by_user_id`, given the page of matches and the total the
      repository returned. */
  method GetMatchesByUserId(userId: int, limit: int, offset: int, total: int, matches: seq<MatchRow>)
    returns (r: Result<ProfilePage, ErrorHandlers.AppError>)
    ensures matches == [] <==> r.Err?
    ensures r.Err? ==> r.error == ErrorHandlers.NotFoundError("0 matches")
    ensures r.Ok? ==> r.value.total == total && r.value.limit == limit && r.value.offset == offset
    ensures r.Ok? ==> |r.value.items| == |matches|
    ensures r.Ok? ==> forall i :: 0 <= i < |matches| ==> r.value.items[i] == ProfileItemFor(userId, matches[i])
  {
    if matches == [] {
      return Err(ErrorHandlers.NotFoundError("0 matches"));
    }
    var items: seq<ProfileItem> := [];
    var i := 0;
    while i < |matches|
      invariant 0 <= i <= |matches|
      invariant |items| == i
      invariant forall k :: 0 <= k < i ==> items[k] == ProfileItemFor(userId, matches[k])
    {
      var m := matches[i];
      var p1, p2 := m.player1, m.player2;
      var opponent := if p1.id != userId then p1 else p2;
      var winner := if m.winnerId == Some(p1.id) then p1 else p2;
      var dto := ProfileItem(m.id, m.date, opponent, ScoreText(m.player1Score) + ":" + ScoreText(m.player2Score), winner, m.kind);
      items := items + [dto];
      i := i + 1;
    }
    r := Ok(ProfilePage(total, limit, offset, items));
  }

  /** When the user plays one side of a match between two different
      players, the opponent is the other side. */
  lemma OpponentIsOtherPlayer(userId: int, m: MatchRow)
    requires m.player1.id != m.player2.id
    requires userId == m.player1.id || userId == m.player2.id
    ensures var o := ProfileItemFor(userId, m).opponent;
      o.id != userId && (o == m.player1 || o == m.player2)
  {
  }

  /** Player 1 is reported as the winner exactly when the stored winner is
      player 1; a decided match reports its stored winner; a match without a
      winner reports player 2. */
  lemma WinnerChoice(userId: int, m: MatchRow)
    requires m.player1.id != m.player2.id
    ensures var w := ProfileItemFor(userId, m).winner;
      && (w == m.player1 <==> m.winnerId == Some(m.player1.id))
      && (m.winnerId.Some? && m.winnerId.value in {m.player1.id, m.player2.id} ==> w.id == m.winnerId.value)
      && (m.winnerId.None? ==> w == m.player2)
  {
  }

  lemma ScoreTextHasNoColon(score: Option<int>)
    ensures ':' !in ScoreText(score)
  {
    if score.Some? {
      PyText.IntToStringChars(score.value);
      assert !PyText.IsDigit(':');
    }
  }

  /** The score text splits back into the two players' scores. */
  lemma ScoreSplitsBack(userId: int, m: MatchRow)
    ensures PyText.Split(ProfileItemFor(userId, m).score, ':') == [ScoreText(m.player1Score), ScoreText(m.player2Score)]
  {
    var a, b := ScoreText(m.player1Score), ScoreText(m.player2Score);
    ScoreTextHasNoColon(m.player1Score);
    ScoreTextHasNoColon(m.player2Score);
    assert ProfileItemFor(userId, m).score == a + [':'] + b;
    PyText.SplitAroundSeparator(a, ':', b);
    PyText.SplitWithoutSeparator(b, ':');
  }

  // ---------------------------------------------------------------------
  // get_top_players

  /** A leaderboard row as the repository returns it, already in order. */
  datatype UserRow = UserRow(player: Player, totalMatchesDuration: int, amateurGamesCount: int)

  datatype TopPlayerItem = TopPlayerItem(place: int, player: Player, totalMatchesDuration: int, totalGamesCount: int)

  /** `get_top_players`: places 1, 2, ... in the repository's order. */
  method GetTopPlayers(users: seq<UserRow>) returns (r: Result<seq<TopPlayerItem>, ErrorHandlers.AppError>)
    ensures users == [] <==> r.Err?
    ensures r.Err? ==> r.error == ErrorHandlers.NotFoundError("Users not found")
    ensures r.Ok? ==> |r.value| == |users|
    ensures r.Ok? ==> forall i :: 0 <= i < |users| ==>
        r.value[i] == TopPlayerItem(i + 1, users[i].player, users[i].totalMatchesDuration, users[i].amateurGamesCount)
  {
    if users == [] {
      return Err(ErrorHandlers.NotFoundError("Users not found"));
    }
    var place := 1;
    var result: seq<TopPlayerItem> := [];
    var i := 0;
    while i < |users|
      invariant 0 <= i <= |users|
      invariant place == i + 1
      invariant |result| == i
      invariant forall k :: 0 <= k < i ==>
        result[k] == TopPlayerItem(k + 1, users[k].player, users[k].totalMatchesDuration, users[k].amateurGamesCount)
    {
      var user := users[i];
      result := result + [TopPlayerItem(place, user.player, user.totalMatchesDuration, user.amateurGamesCount)];
      place := place + 1;
      i := i + 1;
    }
    r := Ok(result);
  }

  // ---------------------------------------------------------------------
  // get_by_id

  datatype DetailsPlayer = DetailsPlayer(id: int, fullName: string, isWinner: bool, score: int, sets: seq<int>)

  datatype MatchDetails = MatchDetails(kind: string, date: int, durationInMinutes: int, player1: DetailsPlayer, player2: DetailsPlayer)

  function OrZero(x: Option<int>): int
  {
    match x
    case None => 0
    case Some(v) => v
  }

  /** `get_by_id`, given what the repository found for `id`. */
  function GetById(id: int, found: Option<MatchRow>): Result<MatchDetails, ErrorHandlers.AppError>
  {
    match found
    case None => Err(ErrorHandlers.NotFoundError("Match " + PyText.IntToString(id) + " not found"))
    case Some(m) =>
      Ok(MatchDetails(
        m.kind, m.date, OrZero(m.durationInMinutes),
        DetailsPlayer(m.player1.id, m.player1.fullName, m.winnerId == Some(m.player1.id), OrZero(m.player1Score),
          seq(|m.sets|, i requires 0 <= i < |m.sets| => m.sets[i].player1Score)),
        DetailsPlayer(m.player2.id, m.player2.fullName, m.winnerId == Some(m.player2.id), OrZero(m.player2Score),
          seq(|m.sets|, i requires 0 <= i < |m.sets| => m.sets[i].player2Score))))
  }

  lemma SplitFourWords(a: string, b: string, c: string, d: string)
    requires ' ' !in a && ' ' !in b && ' ' !in c && ' ' !in d
    ensures PyText.Split(a + [' '] + b + [' '] + c + [' '] + d, ' ') == [a, b, c, d]
  {
    var cd := c + [' '] + d;
    var bcd := b + [' '] + cd;
    assert a + [' '] + b + [' '] + c + [' '] + d == a + [' '] + bcd;
    PyText.SplitAroundSeparator(a, ' ', bcd);
    PyText.SplitAroundSeparator(b, ' ', cd);
    PyText.SplitAroundSeparator(c, ' ', d);
    PyText.SplitWithoutSeparator(d, ' ');
  }

  /** A missing match is a 404 whose message names its id. */
  lemma GetByIdMissing(id: int)
    ensures var r := GetById(id, None);
      && r.Err?
      && ErrorHandlers.HandleAppError(r.error).status == ErrorHandlers.NotFound404
      && PyText.Split(ErrorHandlers.HandleAppError(r.error).message, ' ') == ["Match", PyText.IntToString(id), "not", "found"]
  {
    var s := PyText.IntToString(id);
    PyText.IntToStringChars(id);
    assert ' ' !in s by {
      assert !PyText.IsDigit(' ');
    }
    var text := "Match " + s + " not found";
    assert text == "Match" + [' '] + s + [' '] + "not" + [' '] + "found";
    SplitFourWords("Match", s, "not", "found");
  }

  /** A found match keeps both players' ids; a missing duration or score
      reads 0 and a stored one is kept; a player is the winner exactly when
      the stored winner is that player, so never both of two different
      players and neither in an undecided match; and the per-set columns
      line up with the sets. */
  lemma GetByIdFound(id: int, m: MatchRow)
    ensures var r := GetById(id, Some(m));
      && r.Ok?
      && var d := r.value;
      && d.player1.id == m.player1.id && d.player2.id == m.player2.id
      && (m.durationInMinutes.None? ==> d.durationInMinutes == 0)
      && (m.durationInMinutes.Some? ==> d.durationInMinutes == m.durationInMinutes.value)
      && (m.player1Score.None? ==> d.player1.score == 0)
      && (m.player1Score.Some? ==> d.player1.score == m.player1Score.value)
      && (m.player2Score.None? ==> d.player2.score == 0)
      && (m.player2Score.Some? ==> d.player2.score == m.player2Score.value)
      && (d.player1.isWinner <==> m.winnerId == Some(m.player1.id))
      && (d.player2.isWinner <==> m.winnerId == Some(m.player2.id))
      && (m.player1.id != m.player2.id ==> !(d.player1.isWinner && d.player2.isWinner))
      && (m.winnerId.None? ==> !d.player1.isWinner && !d.player2.isWinner)
      && |d.player1.sets| == |d.player2.sets| == |m.sets|
      && forall i :: 0 <= i < |m.sets| ==>
           d.player1.sets[i] == m.sets[i].player1Score && d.player2.sets[i] == m.sets[i].player2Score
  {
  }

  // ---------------------------------------------------------------------
  // create_session

  /** The match `create_session` hands to the repository. */
  datatype NewMatch = NewMatch(
    durationInMinutes: int,
    player1Id: int,
    player2Id: int,
    player1Score: int,
    player2Score: int,
    sets: seq<SetRow>)

  /** `create_session`: the creator is player 1, the invited player is
      player 2, and `range(1, best_of + 1)` gives the sets. */
  function NewSession(creatorId: int, invitedId: int, bestOf: int): NewMatch
  {
    var n := if bestOf > 0 then bestOf else 0;
    NewMatch(0, creatorId, invitedId, 0, 0, seq(n, i requires 0 <= i < n => SetRow(i + 1, 0, 0)))
  }

  /** A new session has exactly `best_of` sets (none when `best_of` is not
      positive), numbered consecutively from 1, every set and the match
      itself at 0–0 and no time played. */
  lemma NewSessionSpec(creatorId: int, invitedId: int, bestOf: int)
    ensures var m := NewSession(creatorId, invitedId, bestOf);
      && |m.sets| == (if bestOf > 0 then bestOf else 0)
      && (m.sets != [] ==> m.sets[0].setNumber == 1 && m.sets[|m.sets| - 1].setNumber == bestOf)
      && (forall i :: 0 < i < |m.sets| ==> m.sets[i].setNumber == m.sets[i - 1].setNumber + 1)
      && (forall s :: s in m.sets ==> s.player1Score == 0 && s.player2Score == 0)
      && m.player1Score == 0 && m.player2Score == 0 && m.durationInMinutes == 0
      && m.player1Id == creatorId && m.player2Id == invitedId
  {
  }
}
