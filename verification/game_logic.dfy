/** The `PingPongGame` referee of cv/gamecode/game_logic.py: an object whose
    handlers update its fields in place, one ball observation at a time.
    Every method is proved to move the fields exactly as the matching
    function of `GameSpec` says, and `UpdateGameState` keeps `Valid()`. */
module GameLogic {
  import opened Wrappers
  import opened GameRules
  import opened GameSpec
  import Geometry
  import Deques

  class PingPongGame {
    var score: Score
    var currentServer: int
    var servesInRow: int
    var gameState: Phase
    var lastHitter: Option<int>
    var lastBounceSide: Option<int>
    var bouncesInRow: int
    var rallyCount: int
    var totalRallies: int
    var maxRally: int
    var pointStartTime: Option<real>
    var gameHistory: seq<PointRecord>
    var currentPointData: PointRecord
    var ballTrajectory: seq<Sample>
    var ballSpeedHistory: seq<real>

    /** The fields as one value. */
    ghost function Snap(): Game
      reads this
    {
      Game(score, currentServer, servesInRow, gameState, lastHitter, lastBounceSide, bouncesInRow,
           rallyCount, totalRallies, maxRally, pointStartTime, gameHistory, currentPointData,
           ballTrajectory, ballSpeedHistory)
    }

    ghost predicate Valid()
      reads this
    {
      Inv(Snap())
    }

    /** `__init__`. */
    constructor()
      ensures Snap() == InitialGame() && Valid()
    {
      score := [0, 0];
      currentServer := 0;
      servesInRow := 0;
      gameState := Waiting;
      lastHitter := None;
      lastBounceSide := None;
      bouncesInRow := 0;
      rallyCount := 0;
      totalRallies := 0;
      maxRally := 0;
      pointStartTime := None;
      gameHistory := [];
      currentPointData := EmptyPointData(0, 0);
      ballTrajectory := [];
      ballSpeedHistory := [];
      InitialGameInv();
    }

    /** `reset_game`: back to the state of a new game. */
    method ResetGame()
      modifies this
      ensures Snap() == InitialGame() && Valid()
    {
      score := [0, 0];
      currentServer := 0;
      servesInRow := 0;
      gameState := Waiting;
      lastHitter := None;
      lastBounceSide := None;
      bouncesInRow := 0;
      rallyCount := 0;
      totalRallies := 0;
      maxRally := 0;
      pointStartTime := None;
      gameHistory := [];
      currentPointData := EmptyPointData(0, 0);
      ballTrajectory := [];
      ballSpeedHistory := [];
      assert Snap() == InitialGame();
      InitialGameInv();
    }

    /** `update_game_state(ball_data, racket_positions)`; `now` is the clock
        reading the handlers would take. Without a ball nothing changes and
        the current state is returned. */
    method UpdateGameState(ballData: Option<BallObs>, racketPositions: seq<Option<Geometry.Box>>, now: real) returns (r: Outcome)
      modifies this
      ensures Transition(Snap(), r) == UpdateStep(old(Snap()), ballData, racketPositions, now)
      ensures old(Valid()) ==> Valid() && r != Raised(TypeError)
    {
      ghost var before := Snap();
      if ballData.None? {
        return Returned(gameState);
      }
      var ball := ballData.value;
      ballTrajectory := Deques.Append(ballTrajectory, Sample(ball.posTable, ball.speed, ball.timestamp, BallSide(ball.posTable)), MaxBallHistory);
      ballSpeedHistory := Deques.Append(ballSpeedHistory, ball.speed, MaxSpeedHistory);
      assert Snap() == RecordBall(before, ball);
      var currentHitter := DetermineHitter(racketPositions, ball.posTable);
      r := Dispatch(currentHitter, now);
      if Inv(before) {
        UpdateKeepsInv(before, ballData, racketPositions, now);
      }
    }

    /** The handler for the current state; MATCH_END has none. */
    method Dispatch(currentHitter: Option<int>, now: real) returns (r: Outcome)
      modifies this
      ensures Transition(Snap(), r) == GameSpec.Dispatch(old(Snap()), currentHitter, now)
    {
      match gameState
      case Waiting =>
        HandleWaitingState(now);
        r := Returned(gameState);
      case Serving =>
        HandleServingState(currentHitter);
        r := Returned(gameState);
      case Rally =>
        r := HandleRallyState(currentHitter);
      case PointEnd =>
        r := HandlePointEndState(now);
      case MatchEnd =>
        r := Returned(gameState);
    }

    /** `_handle_waiting_state`, with the start of the point stored in the
        new point record as well. */
    method HandleWaitingState(now: real)
      modifies this
      ensures Snap() == WaitingStep(old(Snap()), now)
    {
      var avgSpeed := if ballSpeedHistory != [] then Mean(ballSpeedHistory) else 0.0;
      if avgSpeed > GameStartSpeedThreshold {
        gameState := Serving;
        pointStartTime := Some(now);
        currentPointData := EmptyPointData(|gameHistory|, currentServer);
        currentPointData := currentPointData.(startTime := pointStartTime);
      }
    }

    /** `_handle_serving_state`. */
    method HandleServingState(currentHitter: Option<int>)
      modifies this
      ensures Snap() == ServingStep(old(Snap()))
    {
      var valid := CheckValidServe(currentServer);
      if valid {
        gameState := Rally;
        lastHitter := Some(currentServer);
        rallyCount := 1;
      }
    }

    /** `_handle_rally_state`. */
    method HandleRallyState(currentHitter: Option<int>) returns (r: Outcome)
      modifies this
      ensures Transition(Snap(), r) == RallyStep(old(Snap()), currentHitter)
    {
      if NetCrossing(ballTrajectory) {
        bouncesInRow := 0;
      }
      var bounce := Bounce(ballTrajectory);
      if bounce.Some? {
        bouncesInRow := bouncesInRow + 1;
        lastBounceSide := bounce;
        if currentHitter.Some? && bouncesInRow == 1 {
          lastHitter := currentHitter;
          rallyCount := rallyCount + 1;
        }
      }
      assert Snap() == RallyCounters(old(Snap()), currentHitter);
      r := CheckPointEndConditions();
    }

    /** `_handle_point_end_state`: more than two seconds after the start of
        the point the referee waits again, with both deques cleared. */
    method HandlePointEndState(now: real) returns (r: Outcome)
      modifies this
      ensures Transition(Snap(), r) == PointEndStep(old(Snap()), now)
    {
      if pointStartTime.None? {
        return Raised(TypeError);
      }
      if now - pointStartTime.value > ResumeDelay {
        gameState := Waiting;
        ballTrajectory := [];
        ballSpeedHistory := [];
      }
      r := Returned(gameState);
    }

    /** `_check_point_end_conditions`: the three conditions are evaluated,
        then tried in order; the first that holds ends the point. */
    method CheckPointEndConditions() returns (r: Outcome)
      modifies this
      ensures Transition(Snap(), r) == CheckPointEnd(old(Snap()))
    {
      if ballTrajectory == [] {
        return Returned(gameState);
      }
      var lastBall := ballTrajectory[|ballTrajectory| - 1];
      var conditions := [
        (DoubleBounce(bouncesInRow), DoubleBounceReason),
        (OutOfTable(lastBall.pos), OutOfTableReason),
        (NetTouch(ballTrajectory), NetTouchReason)];
      var i := 0;
      while i < |conditions|
        invariant 0 <= i <= |conditions|
        invariant forall j :: 0 <= j < i ==> !conditions[j].0
        invariant Snap() == old(Snap())
      {
        var (condition, reason) := conditions[i];
        if condition {
          assert PointEndReason(bouncesInRow, ballTrajectory) == Some(reason) by {
            if i == 1 {
              assert !conditions[0].0;
            } else if i == 2 {
              assert !conditions[0].0 && !conditions[1].0;
            }
          }
          var winner := PointWinner(reason, lastBounceSide, lastHitter);
          r := EndPoint(winner, lastBall.time);
          return;
        }
        i := i + 1;
      }
      assert !conditions[0].0 && !conditions[1].0 && !conditions[2].0;
      r := Returned(gameState);
    }

    /** `end_point(winner, timestamp)`. */
    method EndPoint(winner: int, timestamp: real) returns (r: Outcome)
      modifies this
      ensures Transition(Snap(), r) == EndPointStep(old(Snap()), winner, timestamp)
    {
      gameState := PointEnd;
      var slot := ScoreSlot(winner);
      if slot.None? {
        return Raised(IndexError);
      }
      var k := slot.value;
      score := score[k := score[k] + 1];
      currentPointData := currentPointData.(endTime := Some(timestamp));
      if currentPointData.startTime.None? {
        return Raised(TypeError);
      }
      RecordCurrentPoint(winner, timestamp);
      r := Returned(gameState);
    }

    /** The bookkeeping of `end_point` once the point is counted. */
    method RecordCurrentPoint(winner: int, timestamp: real)
      requires currentPointData.startTime.Some?
      modifies this
      ensures Snap() == RecordPoint(old(Snap()), winner, old(currentPointData.startTime.value), timestamp)
    {
      ghost var before := Snap();
      ghost var start := before.point.startTime.value;
      CompletePointData(winner, timestamp);
      ghost var rec := CompletedRecord(before, winner, start, timestamp);
      assert currentPointData == rec;
      gameHistory := gameHistory + [currentPointData];
      totalRallies := totalRallies + rallyCount;
      maxRally := if rallyCount > maxRally then rallyCount else maxRally;
      RotateServe();
      ghost var g3 := before.(point := rec, history := before.history + [rec],
                              totalRallies := before.totalRallies + before.rallyCount,
                              maxRally := if before.rallyCount > before.maxRally then before.rallyCount else before.maxRally,
                              currentServer := Rotate(before.currentServer, before.servesInRow).0,
                              servesInRow := Rotate(before.currentServer, before.servesInRow).1);
      assert Snap() == g3;
      if IsMatchComplete(score) {
        gameState := MatchEnd;
      }
    }

    /** The serve rotation at the end of `end_point`: the same server serves
        two points in a row. */
    method RotateServe()
      modifies this
      ensures Snap() == old(Snap()).(currentServer := Rotate(old(currentServer), old(servesInRow)).0,
                                     servesInRow := Rotate(old(currentServer), old(servesInRow)).1)
    {
      servesInRow := servesInRow + 1;
      if servesInRow >= ServesPerTurn {
        currentServer := 1 - currentServer;
        servesInRow := 0;
      }
    }

    /** The updates of `current_point_data` in `end_point`. */
    method CompletePointData(winner: int, timestamp: real)
      requires currentPointData.startTime.Some?
      modifies this
      ensures Snap() == old(Snap()).(point := CompletedRecord(old(Snap()), winner, old(currentPointData.startTime.value), timestamp))
    {
      var point := currentPointData;
      point := point.(duration := timestamp - point.startTime.value);
      point := point.(winner := Some(winner));
      point := point.(rallyCount := rallyCount);
      if ballSpeedHistory != [] {
        point := point.(maxSpeed := Max(ballSpeedHistory));
        point := point.(avgSpeed := Mean(ballSpeedHistory));
      }
      currentPointData := point;
    }

    /** `_check_valid_serve(serve_side)`: the side argument is not used. */
    method CheckValidServe(serveSide: int) returns (valid: bool)
      ensures valid == ValidServe(ballTrajectory)
    {
      if |ballTrajectory| < 3 {
        return false;
      }
      var i := 0;
      while i < |ballTrajectory| - 1
        invariant 0 <= i <= |ballTrajectory| - 1
        invariant forall j :: 0 <= j < i ==> BallSide(ballTrajectory[j].pos) == BallSide(ballTrajectory[j + 1].pos)
      {
        var pos1 := ballTrajectory[i].pos;
        var pos2 := ballTrajectory[i + 1].pos;
        if BallSide(pos1) != BallSide(pos2) {
          return true;
        }
        i := i + 1;
      }
      return false;
    }

    /** `_determine_hitter(racket_positions, ball_pos)`. Distances are
        compared through `CentreSqDist4`, four times the squared distance,
        which orders rackets exactly as the float distance does
        (`GameRules.HitterDistanceTests`); `None` for `minDistance` stands for
        `float('inf')`. */
    method DetermineHitter(racketPositions: seq<Option<Geometry.Box>>, ballPos: Geometry.Point) returns (hitter: Option<int>)
      ensures hitter == NearestHitter(racketPositions, ballPos)
    {
      if racketPositions == [] {
        return None;
      }
      var minDistance: Option<nat> := None;
      hitter := None;
      var playerId := 0;
      while playerId < |racketPositions|
        invariant 0 <= playerId <= |racketPositions|
        invariant HitterScan(racketPositions, ballPos, playerId).None? ==> hitter.None? && minDistance.None?
        invariant HitterScan(racketPositions, ballPos, playerId).Some? ==>
          hitter == Some(HitterScan(racketPositions, ballPos, playerId).value.0) &&
          minDistance == Some(HitterScan(racketPositions, ballPos, playerId).value.1)
      {
        var racketPos := racketPositions[playerId];
        if racketPos.Some? {
          var distance := CentreSqDist4(racketPos.value, ballPos);
          if (minDistance.None? || distance < minDistance.value) && distance < 4 * HitRadius * HitRadius {
            minDistance := Some(distance);
            hitter := Some(playerId);
          }
        }
        playerId := playerId + 1;
      }
    }
  }
}
