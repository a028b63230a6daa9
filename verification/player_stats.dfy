/** The per-player statistics the match repository recomputes after a
    match is stored. The two queries (the player's matches, and the sets
    of those matches) are inputs. */
module PlayerStats {
  import opened Wrappers

  datatype MatchRow = MatchRow(id: int, player1Id: int, player2Id: int, winnerId: Option<int>, durationInMinutes: Option<int>)

  datatype SetRow = SetRow(matchId: int, player1Score: int, player2Score: int, winnerId: Option<int>)

  datatype UserStats = UserStats(
    id: int,
    amateurGamesCount: int,
    tournamentGamesCount: int,
    winsCount: int,
    lossesCount: int,
    averageMatchDuration: int,
    averageTimeToPoint: int,
    totalMatchesDuration: int)

  /** Python's `a // b`: the floor of the quotient, for either sign of `b`. */
  function FloorDiv(a: int, b: int): int
    requires b != 0
  {
    if b > 0 then a / b else (-a) / (-b)
  }

  lemma FloorDivIsFloor(a: int, b: int)
    requires b != 0
    ensures var q := FloorDiv(a, b);
      q as real <= a as real / b as real < q as real + 1.0
  {
    var q := FloorDiv(a, b);
    var n, d := if b > 0 then a else -a, if b > 0 then b else -b;
    assert n as real / d as real == a as real / b as real;
    assert d * q <= n < d * (q + 1);
    MultipleOver(d, q);
    MultipleOver(d, q + 1);
    DivideBelow((d * q) as real, n as real, d as real);
    StrictDivideBelow(n as real, (d * (q + 1)) as real, d as real);
  }

  lemma MultipleOver(d: int, k: int)
    requires d > 0
    ensures (d * k) as real / d as real == k as real
  {
    assert (d * k) as real == d as real * k as real;
  }

  lemma DivideBelow(x: real, y: real, d: real)
    requires 0.0 < d && x <= y
    ensures x / d <= y / d
  {
  }

  lemma StrictDivideBelow(x: real, y: real, d: real)
    requires 0.0 < d && x < y
    ensures x / d < y / d
  {
  }

  /** `sum(1 for m in matches if m.winner_id == user_id)`. */
  function Wins(userId: int, matches: seq<MatchRow>): (n: nat)
    ensures n <= |matches|
  {
    if matches == [] then 0
    else Wins(userId, matches[..|matches| - 1]) + (if matches[|matches| - 1].winnerId == Some(userId) then 1 else 0)
  }

  /** The duration a match adds to the total: only a set, non-zero one. */
  function CountedDuration(m: MatchRow): int
  {
    if m.durationInMinutes.Some? && m.durationInMinutes.value != 0 then m.durationInMinutes.value else 0
  }

  function TotalDuration(matches: seq<MatchRow>): int
  {
    if matches == [] then 0
    else TotalDuration(matches[..|matches| - 1]) + CountedDuration(matches[|matches| - 1])
  }

  /** The points played in the decided sets. */
  function PointsPlayed(sets: seq<SetRow>): int
  {
    if sets == [] then 0
    else
      var s := sets[|sets| - 1];
      PointsPlayed(sets[..|sets| - 1]) + (if s.winnerId.Some? then s.player1Score + s.player2Score else 0)
  }

  /** What `_recalculate_player_stats` merges into the stats table; `None`
      when the player has no matches and nothing is written. */
  function StatsFor(userId: int, matches: seq<MatchRow>, sets: seq<SetRow>): Option<UserStats>
  {
    if matches == [] then None
    else
      var games := |matches|;
      var wins := Wins(userId, matches);
      var total := TotalDuration(matches);
      var points := PointsPlayed(sets);
      Some(UserStats(userId, games, 0, wins, games - wins, FloorDiv(total, games),
                     if points != 0 then FloorDiv(total * 60, points) else 0, total))
  }

  method RecalculatePlayerStats(userId: int, matches: seq<MatchRow>, sets: seq<SetRow>) returns (r: Option<UserStats>)
    ensures r == StatsFor(userId, matches, sets)
  {
    if matches == [] {
      return None;
    }
    var games := |matches|;
    var wins := Wins(userId, matches);
    var losses := games - wins;
    var total := TotalDuration(matches);
    var avgDuration := FloorDiv(total, games);

    var totalPoints := 0;
    var i := 0;
    while i < |sets|
      invariant 0 <= i <= |sets|
      invariant totalPoints == PointsPlayed(sets[..i])
    {
      if sets[i].winnerId.Some? {
        totalPoints := totalPoints + sets[i].player1Score + sets[i].player2Score;
      }
      assert sets[..i + 1][..i] == sets[..i];
      i := i + 1;
    }
    assert sets[..i] == sets;

    var avgTimePerPoint := if totalPoints != 0 then FloorDiv(total * 60, totalPoints) else 0;
    r := Some(UserStats(userId, games, 0, wins, losses, avgDuration, avgTimePerPoint, total));
  }

  /** A player with matches gets one row in which wins and losses split the
      games, no tournament games are counted, the total duration is the sum
      of the set durations, and both averages are floors of the true
      quotients (zero time per point when no point was played). */
  lemma StatsForSpec(userId: int, matches: seq<MatchRow>, sets: seq<SetRow>)
    ensures StatsFor(userId, matches, sets).None? <==> matches == []
    ensures matches != [] ==> var st := StatsFor(userId, matches, sets).value;
      && st.id == userId
      && st.amateurGamesCount == |matches|
      && st.tournamentGamesCount == 0
      && st.winsCount == Wins(userId, matches) <= st.amateurGamesCount
      && st.winsCount + st.lossesCount == st.amateurGamesCount
      && st.totalMatchesDuration == TotalDuration(matches)
      && st.averageMatchDuration as real <= st.totalMatchesDuration as real / |matches| as real < st.averageMatchDuration as real + 1.0
      && (PointsPlayed(sets) == 0 ==> st.averageTimeToPoint == 0)
      && (PointsPlayed(sets) != 0 ==>
            st.averageTimeToPoint as real <= (st.totalMatchesDuration * 60) as real / PointsPlayed(sets) as real
                                          < st.averageTimeToPoint as real + 1.0)
  {
    if matches != [] {
      FloorDivIsFloor(TotalDuration(matches), |matches|);
      if PointsPlayed(sets) != 0 {
        FloorDivIsFloor(TotalDuration(matches) * 60, PointsPlayed(sets));
      }
    }
  }

  /** Only the matches the player won count as wins: each match adds one to
      exactly one of wins and losses. */
  lemma {:induction false} WinsAppend(userId: int, matches: seq<MatchRow>, m: MatchRow)
    ensures Wins(userId, matches + [m]) == Wins(userId, matches) + (if m.winnerId == Some(userId) then 1 else 0)
  {
    assert (matches + [m])[..|matches|] == matches;
  }

  /** Unset and zero durations add nothing; an undecided set adds no
      points. */
  lemma {:induction false} TotalsIgnoreEmpty(matches: seq<MatchRow>, m: MatchRow, sets: seq<SetRow>, s: SetRow)
    ensures m.durationInMinutes.None? || m.durationInMinutes == Some(0) ==> TotalDuration(matches + [m]) == TotalDuration(matches)
    ensures s.winnerId.None? ==> PointsPlayed(sets + [s]) == PointsPlayed(sets)
  {
    assert (matches + [m])[..|matches|] == matches;
    assert (sets + [s])[..|sets|] == sets;
  }
}
