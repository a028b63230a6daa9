/** Match analytics: the spoken score announcement and the statistics
    written at the end of a match. */
module MatchAnalytics {
  import opened Wrappers
  import PyText
  import GameRules
  import GameSpec

  // ---------------------------------------------------------------------
  // Spoken score

  /** Russian words for 0 to 11, `str(n)` otherwise. */
  function NumberToWords(n: int): string
  {
    match n
    case 0 => "ноль"
    case 1 => "один"
    case 2 => "два"
    case 3 => "три"
    case 4 => "четыре"
    case 5 => "пять"
    case 6 => "шесть"
    case 7 => "семь"
    case 8 => "восемь"
    case 9 => "девять"
    case 10 => "десять"
    case 11 => "одиннадцать"
    case _ => PyText.IntToString(n)
  }

  const Dash: char := '—'
  const Ten: string := "десять"

  /** The text of a score announcement: "p1 — p2", except that once both
      players have ten the leader is announced as "десять". */
  function FormatScoreText(p1: int, p2: int): string
  {
    if p1 >= 10 && p2 >= 10 then
      if p1 == p2 then Ten + " " + [Dash] + " " + Ten
      else if p1 > p2 then Ten + " " + [Dash] + " " + NumberToWords(p2)
      else NumberToWords(p1) + " " + [Dash] + " " + Ten
    else NumberToWords(p1) + " " + [Dash] + " " + NumberToWords(p2)
  }

  lemma NumberToWordsHasNoDash(n: int)
    ensures Dash !in NumberToWords(n)
  {
    if n < 0 || n > 11 {
      PyText.IntToStringChars(n);
    }
  }

  /** Different numbers are spoken differently. */
  lemma NumberToWordsInjective(a: int, b: int)
    requires NumberToWords(a) == NumberToWords(b)
    ensures a == b
  {
    var inTable := (n: int) => 0 <= n <= 11;
    if !inTable(a) && !inTable(b) {
      PyText.IntToStringInjective(a, b);
    } else if inTable(a) && !inTable(b) {
      PyText.IntToStringChars(b);
    } else if !inTable(a) && inTable(b) {
      PyText.IntToStringChars(a);
    }
  }

  /** The two halves of an announcement, as split on the dash. */
  lemma AnnouncementHalves(a: int, b: int)
    ensures PyText.Split(NumberToWords(a) + " " + [Dash] + " " + NumberToWords(b), Dash)
         == [NumberToWords(a) + " ", " " + NumberToWords(b)]
  {
    NumberToWordsHasNoDash(a);
    NumberToWordsHasNoDash(b);
    var left, right := NumberToWords(a) + " ", " " + NumberToWords(b);
    assert Dash !in left;
    assert Dash !in right;
    assert NumberToWords(a) + " " + [Dash] + " " + NumberToWords(b) == left + [Dash] + right;
    PyText.SplitAroundSeparator(left, Dash, right);
    PyText.SplitWithoutSeparator(right, Dash);
  }

  /** Before ten-all every score is announced with its own text. */
  lemma FormatScoreTextInjective(p1: int, p2: int, q1: int, q2: int)
    requires !(p1 >= 10 && p2 >= 10) && !(q1 >= 10 && q2 >= 10)
    requires FormatScoreText(p1, p2) == FormatScoreText(q1, q2)
    ensures p1 == q1 && p2 == q2
  {
    AnnouncementHalves(p1, p2);
    AnnouncementHalves(q1, q2);
    var l1, l2 := NumberToWords(p1) + " ", NumberToWords(q1) + " ";
    assert l1 == l2;
    assert NumberToWords(p1) == l1[..|l1| - 1] == l2[..|l2| - 1] == NumberToWords(q1);
    var r1, r2 := " " + NumberToWords(p2), " " + NumberToWords(q2);
    assert r1 == r2;
    assert NumberToWords(p2) == r1[1..] == r2[1..] == NumberToWords(q2);
    NumberToWordsInjective(p1, q1);
    NumberToWordsInjective(p2, q2);
  }

  /** From ten-all on the leader's own score is never spoken: an advantage
      sounds exactly like ten-all. */
  lemma AdvantageSoundsLikeTenAll()
    ensures FormatScoreText(11, 10) == FormatScoreText(10, 10) == FormatScoreText(10, 11)
  {
  }

  /** `announce_score`: with a speech engine, speak the score unless it is
      the one spoken last. Returns the new last score and what was said. */
  function AnnounceStep(tts: bool, last: Option<(int, int)>, score: (int, int)): (Option<(int, int)>, Option<string>)
  {
    if !tts then (last, None)
    else if last != Some(score) then (Some(score), Some(FormatScoreText(score.0, score.1)))
    else (last, None)
  }

  /** A score is spoken once however often it is announced in a row, and
      something is said exactly when the engine is there and the score
      changed. */
  lemma AnnounceOnce(tts: bool, last: Option<(int, int)>, score: (int, int))
    ensures var (last', said) := AnnounceStep(tts, last, score);
      && (said.Some? <==> tts && last != Some(score))
      && (said.Some? ==> said.value == FormatScoreText(score.0, score.1))
      && AnnounceStep(tts, last', score) == (last', None)
  {
  }

  class Analytics {
    const ttsAvailable: bool
    var lastAnnouncedScore: Option<(int, int)>

    constructor (ttsAvailable: bool)
      ensures this.ttsAvailable == ttsAvailable && lastAnnouncedScore == None
    {
      this.ttsAvailable := ttsAvailable;
      lastAnnouncedScore := None;
    }

    /** Returns the text handed to the speech engine, if any. */
    method AnnounceScore(score: GameSpec.Score) returns (said: Option<string>)
      modifies this
      ensures (lastAnnouncedScore, said) == AnnounceStep(ttsAvailable, old(lastAnnouncedScore), (score[0], score[1]))
    {
      said := None;
      if !ttsAvailable {
        return;
      }
      if lastAnnouncedScore != Some((score[0], score[1])) {
        said := Some(FormatScoreText(score[0], score[1]));
        lastAnnouncedScore := Some((score[0], score[1]));
      }
    }
  }

  // ---------------------------------------------------------------------
  // Match statistics

  datatype MatchStats = MatchStats(
    totalPoints: nat,
    player1Score: int,
    player2Score: int,
    player1Wins: nat,
    player2Wins: nat,
    totalRallies: int,
    avgRallyPerPoint: real,
    avgPointDuration: real,
    avgMaxSpeed: real,
    player1WinPercentage: real,
    player2WinPercentage: real)

  /** The number of recorded points whose winner is exactly `k`. */
  function CountWinner(h: seq<GameSpec.PointRecord>, k: int): nat
  {
    if h == [] then 0
    else CountWinner(h[..|h| - 1], k) + (if h[|h| - 1].winner == Some(k) then 1 else 0)
  }

  function Durations(h: seq<GameSpec.PointRecord>): (d: seq<real>)
    ensures |d| == |h| && forall i :: 0 <= i < |h| ==> d[i] == h[i].duration
  {
    seq(|h|, i requires 0 <= i < |h| => h[i].duration)
  }

  /** The positive per-point top speeds, in order. */
  function MaxSpeeds(h: seq<GameSpec.PointRecord>): (s: seq<real>)
    ensures forall x :: x in s ==> x > 0.0
    ensures |s| <= |h|
  {
    if h == [] then []
    else MaxSpeeds(h[..|h| - 1]) + (if h[|h| - 1].maxSpeed > 0.0 then [h[|h| - 1].maxSpeed] else [])
  }

  function MeanOrZero(s: seq<real>): real
  {
    if s != [] then GameRules.Mean(s) else 0.0
  }

  function Percentage(part: nat, total: nat): real
  {
    if total > 0 then part as real / total as real * 100.0 else 0.0
  }

  /** `_calculate_match_stats`. */
  function CalculateMatchStats(h: seq<GameSpec.PointRecord>, score: GameSpec.Score): MatchStats
  {
    var total := |h|;
    var rallies := GameSpec.TotalRallies(h);
    var p1, p2 := CountWinner(h, 0), CountWinner(h, 1);
    MatchStats(total, score[0], score[1], p1, p2, rallies,
               if total > 0 then rallies as real / total as real else 0.0,
               MeanOrZero(Durations(h)),
               MeanOrZero(MaxSpeeds(h)),
               Percentage(p1, total), Percentage(p2, total))
  }

  /** The totals are the number of recorded points and the sum of their
      rally counts, the scores are copied from the referee, and with no
      recorded point every win count, average and percentage is 0. */
  lemma MatchStatsCounts(h: seq<GameSpec.PointRecord>, score: GameSpec.Score)
    ensures var st := CalculateMatchStats(h, score);
      && st.totalPoints == |h| && st.totalRallies == GameSpec.TotalRallies(h)
      && st.player1Score == score[0] && st.player2Score == score[1]
      && st.player1Wins + st.player2Wins <= st.totalPoints
      && (h == [] ==>
            && st.player1Wins == 0 && st.player2Wins == 0
            && st.avgRallyPerPoint == 0.0 && st.avgPointDuration == 0.0 && st.avgMaxSpeed == 0.0
            && st.player1WinPercentage == 0.0 && st.player2WinPercentage == 0.0)
  {
    CountWinnersBelow(h);
  }

  lemma {:induction false} CountWinnersBelow(h: seq<GameSpec.PointRecord>)
    ensures CountWinner(h, 0) + CountWinner(h, 1) <= |h|
  {
    if h != [] {
      CountWinnersBelow(h[..|h| - 1]);
    }
  }

  lemma {:induction false} CountWinnerIsWins(h: seq<GameSpec.PointRecord>, k: int)
    requires k == 0 || k == 1
    requires forall r :: r in h ==> r.winner == Some(0) || r.winner == Some(1)
    ensures CountWinner(h, k) == GameSpec.Wins(h, k)
  {
    if h != [] {
      var init := h[..|h| - 1];
      assert forall r :: r in init ==> r in h;
      CountWinnerIsWins(init, k);
      assert h[|h| - 1] in h;
    }
  }

  lemma {:induction false} SumPositive(s: seq<real>)
    requires s != [] && forall x :: x in s ==> x > 0.0
    ensures GameRules.Sum(s) > 0.0
  {
    var init := s[..|s| - 1];
    assert s[|s| - 1] in s;
    if init != [] {
      assert forall x :: x in init ==> x in s;
      SumPositive(init);
    }
  }

  lemma {:induction false} MaxSpeedsEmpty(h: seq<GameSpec.PointRecord>)
    ensures MaxSpeeds(h) == [] <==> forall i :: 0 <= i < |h| ==> h[i].maxSpeed <= 0.0
  {
    if h != [] {
      var init := h[..|h| - 1];
      MaxSpeedsEmpty(init);
      assert forall i :: 0 <= i < |init| ==> init[i] == h[i];
    }
  }

  /** When every recorded point went to player 0 or 1 and the score counts
      them (as the referee keeps it), the win counts are the score and add
      up to the number of points. */
  lemma MatchStatsAgreeWithScore(h: seq<GameSpec.PointRecord>, score: GameSpec.Score)
    requires GameSpec.ScoreInv(score, h)
    requires forall r :: r in h ==> r.winner == Some(0) || r.winner == Some(1)
    ensures var st := CalculateMatchStats(h, score);
      && st.player1Wins == score[0] && st.player2Wins == score[1]
      && st.player1Wins + st.player2Wins == st.totalPoints
  {
    CountWinnerIsWins(h, 0);
    CountWinnerIsWins(h, 1);
    GameSpec.WinsAddUp(h);
  }

  lemma PercentagesAddUp(p1: nat, p2: nat, n: nat)
    requires n > 0 && p1 + p2 == n
    ensures Percentage(p1, n) + Percentage(p2, n) == 100.0
  {
    assert p1 as real / n as real * 100.0 + p2 as real / n as real * 100.0 == (p1 + p2) as real / n as real * 100.0;
  }

  /** Under the same conditions the two win percentages add up to 100, and
      the average rally length times the number of points is the rally
      total. */
  lemma MatchStatsAverages(h: seq<GameSpec.PointRecord>, score: GameSpec.Score)
    requires GameSpec.ScoreInv(score, h)
    requires forall r :: r in h ==> r.winner == Some(0) || r.winner == Some(1)
    requires h != []
    ensures var st := CalculateMatchStats(h, score);
      && st.player1WinPercentage + st.player2WinPercentage == 100.0
      && st.avgRallyPerPoint * st.totalPoints as real == st.totalRallies as real
  {
    MatchStatsAgreeWithScore(h, score);
    PercentagesAddUp(CountWinner(h, 0), CountWinner(h, 1), |h|);
    var t, n := GameSpec.TotalRallies(h) as real, |h| as real;
    assert t / n * n == t;
  }

  /** The average top speed is positive exactly when some point recorded a
      positive top speed, and zero otherwise. */
  lemma AvgMaxSpeedPositive(h: seq<GameSpec.PointRecord>, score: GameSpec.Score)
    ensures var st := CalculateMatchStats(h, score);
      && (st.avgMaxSpeed > 0.0 <==> exists i :: 0 <= i < |h| && h[i].maxSpeed > 0.0)
      && st.avgMaxSpeed >= 0.0
  {
    var s := MaxSpeeds(h);
    MaxSpeedsEmpty(h);
    if s != [] {
      SumPositive(s);
      GameRules.MeanAbove(s, 0.0);
    }
  }

  /** A recorded winner of -1 (the opponent of a third racket) is credited
      to player 2 by the score's negative index, yet the statistics count it
      for nobody. */
  lemma StrayWinnerUncounted(r: GameSpec.PointRecord)
    requires r.winner == Some(-1)
    ensures GameSpec.Wins([r], 1) == 1
    ensures CountWinner([r], 0) + CountWinner([r], 1) == 0
  {
    assert [r][..0] == [];
  }

  /** `final_score` and `winner` of the saved match summary. */
  function FinalScore(score: GameSpec.Score): string
  {
    PyText.IntToString(score[0]) + "-" + PyText.IntToString(score[1])
  }

  function WinnerLabel(score: GameSpec.Score): string
  {
    if score[0] > score[1] then "Player 1" else "Player 2"
  }

  /** The final score text reads back as the score, and a tie is labelled
      a win for player 2. */
  lemma FinalScoreRoundTrip(score: GameSpec.Score)
    requires score[0] >= 0 && score[1] >= 0
    ensures var parts := PyText.Split(FinalScore(score), '-');
      && |parts| == 2
      && PyText.AllDigits(parts[0]) && PyText.DigitsValue(parts[0]) == score[0]
      && PyText.AllDigits(parts[1]) && PyText.DigitsValue(parts[1]) == score[1]
    ensures WinnerLabel(score) == "Player 1" <==> score[0] > score[1]
  {
    var a, b := PyText.NatToString(score[0]), PyText.NatToString(score[1]);
    assert '-' !in a by { forall i | 0 <= i < |a| ensures a[i] != '-' { assert PyText.IsDigit(a[i]); } }
    assert '-' !in b by { forall i | 0 <= i < |b| ensures b[i] != '-' { assert PyText.IsDigit(b[i]); } }
    assert FinalScore(score) == a + ['-'] + b;
    PyText.SplitAroundSeparator(a, '-', b);
    PyText.SplitWithoutSeparator(b, '-');
    PyText.NatToStringRoundTrip(score[0]);
    PyText.NatToStringRoundTrip(score[1]);
  }
}
