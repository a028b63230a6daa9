/** The referee state machine of `PingPongGame` (cv/gamecode/game_logic.py)
    as functions from one snapshot of its fields to the next. The class
    `GameLogic.PingPongGame` mutates its fields in place and is proved to
    follow these functions; the invariant `Inv` and the lemmas below state
    what the state machine keeps and promises. */
module GameSpec {
  import opened Wrappers
  import opened GameRules
  import Geometry
  import Deques

  datatype Phase = Waiting | Serving | Rally | PointEnd | MatchEnd

  /** The per-point record (`current_point_data`). The keys `serve_type` and
      `events` are never filled in and are not modelled. */
  datatype PointRecord = PointRecord(
    pointNumber: int,
    startTime: Option<real>,
    endTime: Option<real>,
    duration: real,
    winner: Option<int>,
    rallyCount: int,
    server: int,
    maxSpeed: real,
    avgSpeed: real)

  /** What the referee reads from a tracked ball: its table position, its
      speed and its timestamp. */
  datatype BallObs = BallObs(posTable: Geometry.Point, speed: real, timestamp: real)

  /** The exceptions an update can raise. */
  datatype PyError = IndexError | TypeError

  /** `update_game_state` returns the state name, or raises. */
  datatype Outcome = Returned(phase: Phase) | Raised(error: PyError)

  /** All fields of a `PingPongGame` except the wall-clock `match_start_time`
      and the constant `table_zones`. */
  datatype Game = Game(
    score: Score,
    currentServer: int,
    servesInRow: int,
    phase: Phase,
    lastHitter: Option<int>,
    lastBounceSide: Option<int>,
    bouncesInRow: int,
    rallyCount: int,
    totalRallies: int,
    maxRally: int,
    pointStartTime: Option<real>,
    history: seq<PointRecord>,
    point: PointRecord,
    trajectory: seq<Sample>,
    speeds: seq<real>)

  datatype Transition = Transition(game: Game, outcome: Outcome)

  /** The two-element `score` list. */
  type Score = s: seq<int> | |s| == 2 witness [0, 0]

  /** `_create_empty_point_data`. */
  function EmptyPointData(historyLength: nat, server: int): (r: PointRecord)
    ensures r.pointNumber == historyLength + 1 && r.server == server
    ensures r.startTime == None && r.endTime == None && r.winner == None
  {
    PointRecord(historyLength + 1, None, None, 0.0, None, 0, server, 0.0, 0.0)
  }

  /** `__init__`. */
  function InitialGame(): (g: Game)
    ensures g.score == [0, 0] && g.phase == Waiting && g.history == []
  {
    Game([0, 0], 0, 0, Waiting, None, None, 0, 0, 0, 0, None, [], EmptyPointData(0, 0), [], [])
  }

  /** Returning normally with the state reached. */
  function Done(g: Game): Transition
  {
    Transition(g, Returned(g.phase))
  }

  /** The first part of `update_game_state`: the new sample enters the
      trajectory deque (at most 60 entries) and its speed the speed deque
      (at most 10 entries). */
  function RecordBall(g: Game, b: BallObs): (g': Game)
    ensures g'.trajectory == Deques.Append(g.trajectory, Sample(b.posTable, b.speed, b.timestamp, BallSide(b.posTable)), MaxBallHistory)
    ensures g'.speeds == Deques.Append(g.speeds, b.speed, MaxSpeedHistory)
    ensures g' == g.(trajectory := g'.trajectory, speeds := g'.speeds)
  {
    g.(trajectory := Deques.Append(g.trajectory, Sample(b.posTable, b.speed, b.timestamp, BallSide(b.posTable)), MaxBallHistory),
       speeds := Deques.Append(g.speeds, b.speed, MaxSpeedHistory))
  }

  /** The start-of-play test of `_handle_waiting_state`: the mean recorded
      speed is above 50 (an empty history counts as speed 0). */
  predicate PlayStarts(speeds: seq<real>)
  {
    speeds != [] && Mean(speeds) > GameStartSpeedThreshold
  }

  /** `_handle_waiting_state` as written: the new point record keeps
      `start_time = None`; only `point_start_time` receives the clock. */
  function WaitingStepAsWritten(g: Game, now: real): (g': Game)
    ensures PlayStarts(g.speeds) ==> g'.phase == Serving && g'.pointStartTime == Some(now) && g'.point.startTime == None
    ensures !PlayStarts(g.speeds) ==> g' == g
  {
    if PlayStarts(g.speeds) then
      g.(phase := Serving, pointStartTime := Some(now), point := EmptyPointData(|g.history|, g.currentServer))
    else g
  }

  /** `_handle_waiting_state` with the start of the point also stored in the
      point record, which `end_point` subtracts from the end time. */
  function WaitingStep(g: Game, now: real): (g': Game)
    ensures PlayStarts(g.speeds) ==> g'.phase == Serving && g'.pointStartTime == Some(now) && g'.point.startTime == Some(now)
    ensures PlayStarts(g.speeds) ==> g'.point.pointNumber == |g.history| + 1 && g'.point.server == g.currentServer
    ensures !PlayStarts(g.speeds) ==> g' == g
    ensures g'.score == g.score && g'.history == g.history && g'.bouncesInRow == g.bouncesInRow
  {
    if PlayStarts(g.speeds) then
      g.(phase := Serving, pointStartTime := Some(now),
         point := EmptyPointData(|g.history|, g.currentServer).(startTime := Some(now)))
    else g
  }

  /** `_handle_serving_state`: a valid serve starts the rally with the
      server as last hitter and a rally count of 1. */
  function ServingStep(g: Game): (g': Game)
    ensures ValidServe(g.trajectory) ==> g' == g.(phase := Rally, lastHitter := Some(g.currentServer), rallyCount := 1)
    ensures !ValidServe(g.trajectory) ==> g' == g
  {
    if ValidServe(g.trajectory) then
      g.(phase := Rally, lastHitter := Some(g.currentServer), rallyCount := 1)
    else g
  }

  /** The counters of `_handle_rally_state` before the point-end check: a
      net crossing resets the bounce counter, then a bounce increments it,
      records its side and, if it is the first bounce since the reset and a
      hitter was seen, credits the hitter with a stroke. */
  function RallyCounters(g: Game, hitter: Option<int>): (g': Game)
  {
    var bounces := if NetCrossing(g.trajectory) then 0 else g.bouncesInRow;
    match Bounce(g.trajectory)
    case None => g.(bouncesInRow := bounces)
    case Some(side) =>
      if hitter.Some? && bounces + 1 == 1 then
        g.(bouncesInRow := bounces + 1, lastBounceSide := Some(side), lastHitter := hitter, rallyCount := g.rallyCount + 1)
      else
        g.(bouncesInRow := bounces + 1, lastBounceSide := Some(side))
  }

  /** `_handle_rally_state`. */
  function RallyStep(g: Game, hitter: Option<int>): Transition
  {
    CheckPointEnd(RallyCounters(g, hitter))
  }

  /** `_check_point_end_conditions`: the first reason that holds ends the
      point, timed by the last sample. */
  function CheckPointEnd(g: Game): Transition
  {
    match PointEndReason(g.bouncesInRow, g.trajectory)
    case None => Done(g)
    case Some(reason) =>
      EndPointStep(g, PointWinner(reason, g.lastBounceSide, g.lastHitter), g.trajectory[|g.trajectory| - 1].time)
  }

  /** Hand the serve over after every second point. */
  function Rotate(server: int, servesInRow: int): (r: (int, int))
  {
    if servesInRow + 1 >= ServesPerTurn then (1 - server, 0) else (server, servesInRow + 1)
  }

  /** `end_point(winner, timestamp)`. The state becomes POINT_END; then
      `score[winner]` is incremented under Python indexing (IndexError when
      the winner is outside -2..1); then the duration is computed from the
      record's start time (TypeError when there is none); then the point is
      recorded (`RecordPoint`). */
  function EndPointStep(g: Game, winner: int, ts: real): (t: Transition)
  {
    var g1 := g.(phase := PointEnd);
    match ScoreSlot(winner)
    case None => Transition(g1, Raised(IndexError))
    case Some(k) =>
      var g2 := g1.(score := g.score[k := g.score[k] + 1], point := g.point.(endTime := Some(ts)));
      match g.point.startTime
      case None => Transition(g2, Raised(TypeError))
      case Some(start) => Done(RecordPoint(g2, winner, start, ts))
  }

  /** The rest of `end_point` once the score is counted: the record is
      completed (duration, winner, strokes, speed statistics) and appended to
      the history, the rally statistics updated, the serve rotated, and the
      match closed if it is complete. */
  function RecordPoint(g: Game, winner: int, start: real, ts: real): (g': Game)
  {
    var rec := CompletedRecord(g, winner, start, ts);
    var rot := Rotate(g.currentServer, g.servesInRow);
    var g3 := g.(point := rec, history := g.history + [rec],
                 totalRallies := g.totalRallies + g.rallyCount,
                 maxRally := if g.rallyCount > g.maxRally then g.rallyCount else g.maxRally,
                 currentServer := rot.0, servesInRow := rot.1);
    if IsMatchComplete(g3.score) then g3.(phase := MatchEnd) else g3
  }

  /** The point record as `end_point` completes it: duration, winner,
      strokes, and the speed statistics when speeds were recorded. */
  function CompletedRecord(g: Game, winner: int, start: real, ts: real): (rec: PointRecord)
  {
    var rec0 := g.point.(duration := ts - start, winner := Some(winner), rallyCount := g.rallyCount);
    if g.speeds != [] then rec0.(maxSpeed := Max(g.speeds), avgSpeed := Mean(g.speeds)) else rec0
  }

  /** `_handle_point_end_state`: more than two seconds after the start of
      the point, wait for the next one with empty deques. */
  function PointEndStep(g: Game, now: real): Transition
  {
    match g.pointStartTime
    case None => Transition(g, Raised(TypeError))
    case Some(start) =>
      if now - start > ResumeDelay then Done(g.(phase := Waiting, trajectory := [], speeds := []))
      else Done(g)
  }

  /** `update_game_state(ball_data, racket_positions)`, with the clock
      reading `now` used by the waiting and point-end handlers. */
  function UpdateStep(g: Game, ball: Option<BallObs>, rackets: seq<Option<Geometry.Box>>, now: real): (t: Transition)
    ensures ball.None? ==> t == Done(g)
  {
    match ball
    case None => Done(g)
    case Some(b) => Dispatch(RecordBall(g, b), NearestHitter(rackets, b.posTable), now)
  }

  /** The handler `update_game_state` runs for the current state, once the
      ball is recorded and the hitter determined; MATCH_END has none. */
  function Dispatch(g: Game, hitter: Option<int>, now: real): Transition
  {
    match g.phase
    case Waiting => Done(WaitingStep(g, now))
    case Serving => Done(ServingStep(g))
    case Rally => RallyStep(g, hitter)
    case PointEnd => PointEndStep(g, now)
    case MatchEnd => Done(g)
  }

  // ----- the invariant -----

  /** The score slot a recorded point went to. */
  function SlotOf(r: PointRecord): Option<int>
  {
    if r.winner.Some? then ScoreSlot(r.winner.value) else None
  }

  /** The number of recorded points won by score slot `k`. */
  function Wins(h: seq<PointRecord>, k: int): nat
  {
    if h == [] then 0
    else Wins(h[..|h| - 1], k) + (if SlotOf(h[|h| - 1]) == Some(k) then 1 else 0)
  }

  function TotalRallies(h: seq<PointRecord>): int
  {
    if h == [] then 0 else TotalRallies(h[..|h| - 1]) + h[|h| - 1].rallyCount
  }

  function LongestRally(h: seq<PointRecord>): int
  {
    if h == [] then 0
    else
      var m := LongestRally(h[..|h| - 1]);
      if h[|h| - 1].rallyCount > m then h[|h| - 1].rallyCount else m
  }

  /** The server of the `i`-th point (counting from 0): two serves each,
      player 0 first. */
  function ServerOfPoint(i: nat): int
  {
    (i / 2) % 2
  }

  /** The score counts the recorded points each player won. */
  ghost predicate ScoreInv(score: Score, h: seq<PointRecord>)
  {
    (forall r :: r in h ==> SlotOf(r).Some?) &&
    score[0] == Wins(h, 0) && score[1] == Wins(h, 1)
  }

  /** The points are numbered 1, 2, ... and served two at a time, player 0
      first. */
  ghost predicate ServeInv(g: Game)
  {
    (forall i :: 0 <= i < |g.history| ==> g.history[i].pointNumber == i + 1 && g.history[i].server == ServerOfPoint(i)) &&
    g.currentServer == ServerOfPoint(|g.history|) && g.servesInRow == |g.history| % 2
  }

  /** A point under way has a start time and a fresh record. */
  ghost predicate PointInv(g: Game)
  {
    (g.phase != Waiting ==> g.pointStartTime.Some?) &&
    ((g.phase == Serving || g.phase == Rally) ==>
       g.point.startTime == g.pointStartTime &&
       g.point.pointNumber == |g.history| + 1 && g.point.server == g.currentServer)
  }

  /** The rally statistics summarise the history. */
  ghost predicate StatsInv(g: Game)
  {
    g.totalRallies == TotalRallies(g.history) && g.maxRally == LongestRally(g.history)
  }

  /** What the referee keeps true between updates. */
  ghost predicate Inv(g: Game)
  {
    && ScoreInv(g.score, g.history)
    && ServeInv(g)
    // the match is over exactly when the score says so
    && (g.phase == MatchEnd <==> IsMatchComplete(g.score))
    // the deques are bounded
    && |g.trajectory| <= MaxBallHistory && |g.speeds| <= MaxSpeedHistory
    && PointInv(g)
    && StatsInv(g)
  }

  lemma InitialGameInv()
    ensures Inv(InitialGame())
  {
  }

  lemma {:induction false} WinsAppend(h: seq<PointRecord>, r: PointRecord, k: int)
    ensures Wins(h + [r], k) == Wins(h, k) + (if SlotOf(r) == Some(k) then 1 else 0)
  {
    assert (h + [r])[..|h|] == h;
  }

  /** Every recorded point went to exactly one of the two slots, so the two
      scores add up to the number of recorded points. */
  lemma {:induction false} WinsAddUp(h: seq<PointRecord>)
    requires forall r :: r in h ==> SlotOf(r).Some?
    ensures Wins(h, 0) + Wins(h, 1) == |h|
  {
    if h != [] {
      var init := h[..|h| - 1];
      assert forall r :: r in init ==> r in h;
      WinsAddUp(init);
      var s := SlotOf(h[|h| - 1]);
      assert h[|h| - 1] in h;
      assert s.value == 0 || s.value == 1;
    }
  }

  lemma InvScoreIsPointCount(g: Game)
    requires Inv(g)
    ensures g.score[0] + g.score[1] == |g.history|
  {
    WinsAddUp(g.history);
  }

  /** `end_point` under the invariant, from a rally: it always reaches
      POINT_END or MATCH_END; with a winner in -2..1 it raises nothing,
      increments exactly the winner's slot, records the point and keeps the
      invariant; otherwise it raises IndexError with the score unchanged. */
  lemma EndPointKeepsInv(g: Game, winner: int, ts: real)
    requires Inv(g) && g.phase == Rally
    ensures var t := EndPointStep(g, winner, ts);
      Inv(t.game) &&
      (t.game.phase == PointEnd || t.game.phase == MatchEnd) &&
      (ScoreSlot(winner).None? ==> t.outcome == Raised(IndexError) && t.game == g.(phase := PointEnd)) &&
      (ScoreSlot(winner).Some? ==>
         var k := ScoreSlot(winner).value;
         t.outcome == Returned(t.game.phase) &&
         t.game.score == g.score[k := g.score[k] + 1] &&
         |t.game.history| == |g.history| + 1 && t.game.history[..|g.history|] == g.history &&
         t.game.history[|g.history|].winner == Some(winner) &&
         t.game.history[|g.history|].duration == ts - g.pointStartTime.value &&
         t.game.history[|g.history|].rallyCount == g.rallyCount)
  {
    match ScoreSlot(winner)
    case None =>
    case Some(k) =>
      var start := g.point.startTime.value;
      var g2 := g.(phase := PointEnd, score := g.score[k := g.score[k] + 1], point := g.point.(endTime := Some(ts)));
      assert EndPointStep(g, winner, ts) == Done(RecordPoint(g2, winner, start, ts));
      CountedPointKeepsInv(g, g2, winner, start, ts, k);
  }

  /** The recording half of `end_point`, once the winner's slot is counted
      and the start time is known. */
  lemma CountedPointKeepsInv(g: Game, g2: Game, winner: int, start: real, ts: real, k: int)
    requires Inv(g) && g.phase == Rally && ScoreSlot(winner) == Some(k)
    requires g.pointStartTime == Some(start)
    requires g2 == g.(phase := PointEnd, score := g.score[k := g.score[k] + 1], point := g.point.(endTime := Some(ts)))
    ensures var g' := RecordPoint(g2, winner, start, ts);
      && Inv(g')
      && (g'.phase == PointEnd || g'.phase == MatchEnd)
      && g'.score == g.score[k := g.score[k] + 1]
      && |g'.history| == |g.history| + 1 && g'.history[..|g.history|] == g.history
      && g'.history[|g.history|].winner == Some(winner)
      && g'.history[|g.history|].duration == ts - start
      && g'.history[|g.history|].rallyCount == g.rallyCount
  {
    var g' := RecordPoint(g2, winner, start, ts);
    RecordPointFacts(g2, winner, start, ts);
    ScoreInvAppend(g.score, g.history, g'.point, k);
    ServeInvAppend(g, g');
    StatsInvAppend(g.history, g'.point, g.totalRallies, g.maxRally);
    assert g'.history[..|g.history|] == g.history;
  }

  /** What `RecordPoint` does to each field. */
  lemma RecordPointFacts(g: Game, winner: int, start: real, ts: real)
    ensures var g' := RecordPoint(g, winner, start, ts);
      g'.history == g.history + [g'.point] &&
      g'.point == g.point.(duration := g'.point.duration, winner := Some(winner), rallyCount := g.rallyCount,
                           maxSpeed := g'.point.maxSpeed, avgSpeed := g'.point.avgSpeed) &&
      g'.point.duration == ts - start &&
      (g'.currentServer, g'.servesInRow) == Rotate(g.currentServer, g.servesInRow) &&
      g'.totalRallies == g.totalRallies + g.rallyCount &&
      g'.maxRally == (if g.rallyCount > g.maxRally then g.rallyCount else g.maxRally) &&
      g'.phase == (if IsMatchComplete(g.score) then MatchEnd else g.phase) &&
      g' == g.(point := g'.point, history := g'.history, totalRallies := g'.totalRallies, maxRally := g'.maxRally,
               currentServer := g'.currentServer, servesInRow := g'.servesInRow, phase := g'.phase)
  {
  }

  lemma ScoreInvAppend(score: Score, h: seq<PointRecord>, r: PointRecord, k: int)
    requires ScoreInv(score, h) && SlotOf(r) == Some(k) && (k == 0 || k == 1)
    ensures ScoreInv(score[k := score[k] + 1], h + [r])
  {
    WinsAppend(h, r, 0);
    WinsAppend(h, r, 1);
  }

  lemma ServeInvAppend(g: Game, g': Game)
    requires ServeInv(g)
    requires g'.history == g.history + [g'.point]
    requires g'.point.pointNumber == |g.history| + 1 && g'.point.server == g.currentServer
    requires (g'.currentServer, g'.servesInRow) == Rotate(g.currentServer, g.servesInRow)
    ensures ServeInv(g')
  {
    var n := |g.history|;
    assert ServerOfPoint(n + 1) == (if n % 2 == 1 then 1 - ServerOfPoint(n) else ServerOfPoint(n));
  }

  lemma StatsInvAppend(h: seq<PointRecord>, r: PointRecord, total: int, longest: int)
    requires total == TotalRallies(h) && longest == LongestRally(h)
    ensures TotalRallies(h + [r]) == total + r.rallyCount
    ensures LongestRally(h + [r]) == (if r.rallyCount > longest then r.rallyCount else longest)
  {
    assert (h + [r])[..|h|] == h;
  }

  lemma CheckPointEndKeepsInv(g: Game)
    requires Inv(g) && g.phase == Rally
    ensures Inv(CheckPointEnd(g).game)
    ensures CheckPointEnd(g).outcome != Raised(TypeError)
  {
    match PointEndReason(g.bouncesInRow, g.trajectory)
    case None =>
    case Some(reason) =>
      EndPointKeepsInv(g, PointWinner(reason, g.lastBounceSide, g.lastHitter), g.trajectory[|g.trajectory| - 1].time);
  }

  /** Every update keeps the invariant, and never raises TypeError: the
      start of each point is on record before the point can end. */
  lemma UpdateKeepsInv(g: Game, ball: Option<BallObs>, rackets: seq<Option<Geometry.Box>>, now: real)
    requires Inv(g)
    ensures Inv(UpdateStep(g, ball, rackets, now).game)
    ensures UpdateStep(g, ball, rackets, now).outcome != Raised(TypeError)
  {
    if ball.Some? {
      var b := ball.value;
      RecordBallKeepsInv(g, b);
      DispatchKeepsInv(RecordBall(g, b), NearestHitter(rackets, b.posTable), now);
    }
  }

  /** Each state's handler keeps the invariant and raises no TypeError. */
  lemma DispatchKeepsInv(g: Game, hitter: Option<int>, now: real)
    requires Inv(g)
    ensures Inv(Dispatch(g, hitter, now).game)
    ensures Dispatch(g, hitter, now).outcome != Raised(TypeError)
  {
    match g.phase
    case Waiting =>
    case Serving =>
    case Rally =>
      RallyCountersKeepInv(g, hitter);
      CheckPointEndKeepsInv(RallyCounters(g, hitter));
    case PointEnd =>
    case MatchEnd =>
  }

  /** Once the match is over, updates record the ball but never change the
      score, the history or the state. */
  lemma MatchEndIsFinal(g: Game, ball: Option<BallObs>, rackets: seq<Option<Geometry.Box>>, now: real)
    requires g.phase == MatchEnd
    ensures var g' := UpdateStep(g, ball, rackets, now).game;
      g'.phase == MatchEnd && g'.score == g.score && g'.history == g.history &&
      UpdateStep(g, ball, rackets, now).outcome == Returned(MatchEnd)
  {
  }

  /** An update with a ball records exactly one new sample and one new
      speed (evicting the oldest when full); only the return to WAITING after
      a finished point empties both deques. */
  lemma UpdateRecordsBall(g: Game, b: BallObs, rackets: seq<Option<Geometry.Box>>, now: real)
    ensures var g' := UpdateStep(g, Some(b), rackets, now).game;
      var sample := Sample(b.posTable, b.speed, b.timestamp, BallSide(b.posTable));
      if g.phase == PointEnd && g'.phase == Waiting then g'.trajectory == [] && g'.speeds == []
      else g'.trajectory == Deques.Append(g.trajectory, sample, MaxBallHistory) &&
           g'.speeds == Deques.Append(g.speeds, b.speed, MaxSpeedHistory)
  {
    DispatchKeepsDeques(RecordBall(g, b), NearestHitter(rackets, b.posTable), now);
  }

  /** Only the return to WAITING after a point touches the deques. */
  lemma DispatchKeepsDeques(g: Game, hitter: Option<int>, now: real)
    ensures var g' := Dispatch(g, hitter, now).game;
      if g.phase == PointEnd && g'.phase == Waiting then g'.trajectory == [] && g'.speeds == []
      else g'.trajectory == g.trajectory && g'.speeds == g.speeds
  {
    if g.phase == Rally {
      RallyKeepsDeques(g, hitter);
    }
  }

  lemma RallyKeepsDeques(g: Game, hitter: Option<int>)
    ensures RallyStep(g, hitter).game.trajectory == g.trajectory
    ensures RallyStep(g, hitter).game.speeds == g.speeds
  {
    var g2 := RallyCounters(g, hitter);
    assert g2.trajectory == g.trajectory && g2.speeds == g.speeds;
    match PointEndReason(g2.bouncesInRow, g2.trajectory)
    case None =>
    case Some(reason) =>
      var w := PointWinner(reason, g2.lastBounceSide, g2.lastHitter);
      var t := EndPointStep(g2, w, g2.trajectory[|g2.trajectory| - 1].time);
      assert t.game.trajectory == g.trajectory && t.game.speeds == g.speeds;
  }

  /** `g'` has the score and history of `g`, or one more recorded point
      whose winner's slot is the one slot that grew by one. */
  ghost predicate AtMostOnePointMore(g: Game, g': Game)
  {
    (g'.score == g.score && g'.history == g.history) ||
    (exists k :: 0 <= k < 2 && g'.score == g.score[k := g.score[k] + 1] &&
       |g'.history| == |g.history| + 1 && g'.history[..|g.history|] == g.history &&
       SlotOf(g'.history[|g.history|]) == Some(k))
  }

  lemma RallyCountersKeepInv(g: Game, hitter: Option<int>)
    requires Inv(g) && g.phase == Rally
    ensures var g' := RallyCounters(g, hitter);
      Inv(g') && g'.phase == Rally && g'.score == g.score && g'.history == g.history
  {
    var g' := RallyCounters(g, hitter);
    assert g' == g.(bouncesInRow := g'.bouncesInRow, lastBounceSide := g'.lastBounceSide,
                    lastHitter := g'.lastHitter, rallyCount := g'.rallyCount);
  }

  lemma CheckPointEndAtMostOnePoint(g: Game)
    requires Inv(g) && g.phase == Rally
    ensures AtMostOnePointMore(g, CheckPointEnd(g).game)
  {
    match PointEndReason(g.bouncesInRow, g.trajectory)
    case None =>
    case Some(reason) =>
      var w := PointWinner(reason, g.lastBounceSide, g.lastHitter);
      var ts := g.trajectory[|g.trajectory| - 1].time;
      EndPointKeepsInv(g, w, ts);
      if ScoreSlot(w).Some? {
        var g' := EndPointStep(g, w, ts).game;
        assert SlotOf(g'.history[|g.history|]) == ScoreSlot(w);
      }
  }

  /** An update changes the score by at most one point: either not at all,
      or by one for a single player, when a point is recorded. */
  lemma UpdateScoresAtMostOnePoint(g: Game, ball: Option<BallObs>, rackets: seq<Option<Geometry.Box>>, now: real)
    requires Inv(g)
    ensures AtMostOnePointMore(g, UpdateStep(g, ball, rackets, now).game)
  {
    if ball.Some? {
      var b := ball.value;
      var g1 := RecordBall(g, b);
      RecordBallKeepsInv(g, b);
      DispatchAtMostOnePoint(g1, NearestHitter(rackets, b.posTable), now);
      SameScoreSameBound(g1, g, UpdateStep(g, ball, rackets, now).game);
    }
  }

  lemma RallyAtMostOnePoint(g: Game, hitter: Option<int>)
    requires Inv(g) && g.phase == Rally
    ensures AtMostOnePointMore(g, RallyStep(g, hitter).game)
  {
    var g2 := RallyCounters(g, hitter);
    RallyCountersKeepInv(g, hitter);
    CheckPointEndAtMostOnePoint(g2);
    SameScoreSameBound(g2, g, CheckPointEnd(g2).game);
  }

  lemma WaitingStepKeepsScore(g: Game, now: real)
    ensures WaitingStep(g, now).score == g.score && WaitingStep(g, now).history == g.history
  {
  }

  lemma SameScoreSameBound(g1: Game, g: Game, g': Game)
    requires g1.score == g.score && g1.history == g.history
    requires AtMostOnePointMore(g1, g')
    ensures AtMostOnePointMore(g, g')
  {
  }

  lemma DispatchAtMostOnePoint(g: Game, hitter: Option<int>, now: real)
    requires Inv(g)
    ensures AtMostOnePointMore(g, Dispatch(g, hitter, now).game)
  {
    var g' := Dispatch(g, hitter, now).game;
    match g.phase
    case Waiting =>
      WaitingStepKeepsScore(g, now);
    case Serving =>
      assert g' == ServingStep(g);
      assert g'.score == g.score && g'.history == g.history;
    case Rally =>
      RallyAtMostOnePoint(g, hitter);
    case PointEnd =>
      assert g'.score == g.score && g'.history == g.history;
    case MatchEnd =>
      assert g' == g;
  }

  lemma RecordBallKeepsInv(g: Game, b: BallObs)
    requires Inv(g)
    ensures var g1 := RecordBall(g, b);
      Inv(g1) && g1.score == g.score && g1.history == g.history && g1.phase == g.phase
  {
  }

  /** The order of `_handle_rally_state`: the crossing reset comes before
      the bounce increment, so the counter after a rally frame is the bounce
      (0 or 1) on top of either 0 or the old count; the last hitter and the
      rally count change only for the first bounce after a reset when a
      hitter was found, and the point-end check leaves all of them alone. */
  lemma RallyOrder(g: Game, hitter: Option<int>)
    ensures var g' := RallyStep(g, hitter).game;
      var base := if NetCrossing(g.trajectory) then 0 else g.bouncesInRow;
      var bounce := Bounce(g.trajectory);
      g'.bouncesInRow == base + (if bounce.Some? then 1 else 0) &&
      (bounce.Some? ==> g'.lastBounceSide == bounce) &&
      (bounce.None? ==> g'.lastBounceSide == g.lastBounceSide) &&
      (if bounce.Some? && hitter.Some? && base == 0
       then g'.lastHitter == hitter && g'.rallyCount == g.rallyCount + 1
       else g'.lastHitter == g.lastHitter && g'.rallyCount == g.rallyCount)
  {
    var g2 := RallyCounters(g, hitter);
    match PointEndReason(g2.bouncesInRow, g2.trajectory)
    case None =>
    case Some(reason) =>
      var w := PointWinner(reason, g2.lastBounceSide, g2.lastHitter);
      var t := EndPointStep(g2, w, g2.trajectory[|g2.trajectory| - 1].time);
      assert t.game.bouncesInRow == g2.bouncesInRow && t.game.lastHitter == g2.lastHitter;
      assert t.game.rallyCount == g2.rallyCount && t.game.lastBounceSide == g2.lastBounceSide;
  }

  /** The bounce counter is only ever reset by a net crossing during a
      rally: neither the end of a point nor the start of the next one clears
      it. After a point lost to a double bounce, the next rally therefore
      ends on its first frame, again as a double bounce, unless that frame
      crosses the net. */
  lemma StaleBounceCountEndsNextRally(g: Game, hitter: Option<int>)
    requires g.phase == Rally && g.trajectory != [] && g.bouncesInRow >= 2
    requires !NetCrossing(g.trajectory)
    requires g.lastBounceSide == Some(0) || g.lastBounceSide == Some(1)
    requires g.point.startTime.Some?
    ensures PointEndReason(RallyCounters(g, hitter).bouncesInRow, RallyCounters(g, hitter).trajectory) == Some(DoubleBounceReason)
    ensures RallyStep(g, hitter).game.phase in {PointEnd, MatchEnd}
    ensures |RallyStep(g, hitter).game.history| == |g.history| + 1
  {
    var g2 := RallyCounters(g, hitter);
    assert g2.bouncesInRow >= 2;
    assert PointEndReason(g2.bouncesInRow, g2.trajectory) == Some(DoubleBounceReason);
  }

  lemma NewPointKeepsBounceCount(g: Game, now: real)
    ensures WaitingStep(g, now).bouncesInRow == g.bouncesInRow
    ensures ServingStep(g).bouncesInRow == g.bouncesInRow
    ensures PointEndStep(g, now).game.bouncesInRow == g.bouncesInRow
  {
  }

  // ----- the missing start time -----

  /** As written, the record of a point started by `_handle_waiting_state`
      has no start time, and `end_point` then raises TypeError once it has
      already moved to POINT_END and counted the point, before recording it
      or rotating the serve. */
  lemma EndPointAfterAsWrittenStartRaises(g: Game, now: real, winner: int, ts: real)
    requires PlayStarts(g.speeds) && -2 <= winner < 2
    ensures var s := WaitingStepAsWritten(g, now);
      var t := EndPointStep(s.(phase := Rally), winner, ts);
      var k := ScoreSlot(winner).value;
      t.outcome == Raised(TypeError) &&
      t.game.phase == PointEnd &&
      t.game.score == g.score[k := g.score[k] + 1] &&
      t.game.history == g.history &&
      t.game.currentServer == g.currentServer && t.game.servesInRow == g.servesInRow
  {
  }

  /** With the start time recorded, the same point ends normally and its
      duration is the time from the start of the serve to the last sample. */
  lemma EndPointAfterStartRecords(g: Game, now: real, winner: int, ts: real)
    requires Inv(g) && g.phase == Waiting && PlayStarts(g.speeds) && -2 <= winner < 2
    ensures var s := WaitingStep(g, now);
      var t := EndPointStep(s.(phase := Rally), winner, ts);
      t.outcome.Returned? &&
      |t.game.history| == |g.history| + 1 &&
      t.game.history[|g.history|].duration == ts - now &&
      t.game.history[|g.history|].startTime == Some(now) &&
      t.game.history[|g.history|].endTime == Some(ts)
  {
  }
}
