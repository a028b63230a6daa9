# ppv-backend in Dafny

A model of the table-tennis referee system ppv-backend: the computer-vision game
core that follows the ball over the table and keeps score, and the pure parts of
the FastAPI backend that serves match data.

- **Referee** (`GameRules`, `GameSpec`, `GameLogic`): the `PingPongGame` state
  machine WAITING → SERVING → RALLY → POINT_END → MATCH_END. It runs over the
  bounded ball-trajectory and speed deques, with its event predicates on integer
  table coordinates, the choice of point winner, serve rotation every two
  points and the 11-points-lead-by-2 end of match. `GameLogic.PingPongGame` is a
  class with the source's fields. Each method is proved against a step function
  on a snapshot of those fields (`GameSpec`), and the invariant `GameSpec.Inv`
  is proved about those step functions. The invariant says: the score counts
  the recorded points, the serve alternates two at a time, the deques are
  bounded, a point under way has a start time (the corrected start time;
  see Findings), and MATCH_END holds exactly
  when the score says so. The hitter test compares the racket's bounding-box
  centre, in frame pixels, with the ball's table position, as the source does
  (cv/gamecode/game_logic.py:183-185); the model keeps that comparison as
  written.
- **Tracker** (`ObjectTracking`): `ObjectTracker.detect_objects` after the
  detector has run. It routes boxes by class and assigns each racket and player
  a side. It chooses the tracked ball and carries the last ball forward. It keeps
  the bounded ball history and computes the ball speed between table
  positions (the corrected speed; see Findings).
- **Geometry** (`Geometry`): distance and the guarded speed formula.
- **Calibration** (`Calibration`): the `TableCalibrator` point lists (at most
  4 table corners, 2 net ends), click clamping, zoom, reset, the corner
  ordering used for the homography, the calibration record and the `c`/`t`/`n`
  keys.
- **Analytics** (`MatchAnalytics`): Russian score announcements, announcing
  each score once, and the match statistics and summary.
- **Backend**:
  - `MatchService`: load per period, busiest days and hours, profile history, leaderboard, match details, new sessions.
  - `PlayerStats`: per-player statistics.
  - `Schemas`: the table-layout registry.
  - `Camel`: the camelCase alias generator.
  - `ErrorHandlers`: exception-to-status mapping.
  - `Middlewares`: the two authentication middlewares.
  - `Authorization`: user and role dependencies.
  - `Dates`: current-week bounds.
- **Python helpers** the modules share:
  - `PyText`: `str(int)`, `str.split`/`join`.
  - `Sorting`: stable `sorted`.
  - `Tallies`: `defaultdict(int)` counters.
  - `Deques`: `deque(maxlen=…)`.
  - `Wrappers`: Option/Result.

Floats are modelled as exact reals. Python's floor division, `int()` truncation
and negative list indices are written out. A square root is a function parameter
constrained by `Geometry.IsSqrt`. Detector output, homography projection, database
query results and clock readings are inputs.

## Model

| member | source | states |
|---|---|---|
| Geometry.SqDist | cv/gamecode/utils.py:24-26 | the squared distance is 0 exactly for identical points |
| Geometry.SqDistSymmetric | cv/gamecode/utils.py:24-26 | the distance is symmetric in its two points |
| Geometry.SqrtMonotone | cv/gamecode/utils.py:24-26 | comparing distances is comparing squared distances (strictly and for equality) |
| Geometry.DistanceIsMetricLike | cv/gamecode/utils.py:24-26 | `calculate_distance` is non-negative, 0 exactly for identical points, symmetric, and squares back to the squared distance |
| Geometry.SqrtBelow | cv/gamecode/utils.py:24-26 | a root is below a bound exactly when its argument is below the bound squared |
| Geometry.DistanceBelow | cv/gamecode/utils.py:24-26 | a distance threshold test equals the squared-distance test |
| Geometry.CalculateSpeed | cv/gamecode/utils.py:29-34 | 0 unless time advanced; otherwise speed × elapsed time is the distance, and the speed is non-negative |
| Calibration.Trunc | cv/gamecode/calibrate_table.py:59-60 | Python `int()` on a float truncates toward zero, for both signs |
| Calibration.DstHeightValue | cv/gamecode/calibrate_table.py:282-283 | the top-view height `int(1000 * 274 / 152.5)` is 1796 |
| Calibration.InitialScaleFits | cv/gamecode/calibrate_table.py:44-61 | the initial scale is in (0, 1], the display fits 1200×800 and is never larger than the frame; a frame that fits is shown 1:1 |
| Calibration.ClampToFrame | cv/gamecode/calibrate_table.py:97-100 | a clicked coordinate is clamped into [0, size−1] and an in-range one is kept |
| Calibration.InitialViewInv | cv/gamecode/calibrate_table.py:25-35 | a new calibrator has positive scale, no points, and satisfies the invariant (≤4 corners, ≤2 net ends, all inside the frame) |
| Calibration.MouseStep | cv/gamecode/calibrate_table.py:87-133 | `mouse_callback` on values; stated by `Calibration.MouseStepKeepsInv`, `Calibration.MouseStepFrame`, `Calibration.RightClickUndoesLeftClick` and `Calibration.UnscaledClickIsPixel` |
| Calibration.MouseStepKeepsInv | cv/gamecode/calibrate_table.py:87-133 | every mouse event keeps ≤4 corners, ≤2 net ends, all inside the frame |
| Calibration.MouseStepFrame | cv/gamecode/calibrate_table.py:102-133 | clicks never move the view, drags never touch points, and the mode decides which list a click may change |
| Calibration.RightClickUndoesLeftClick | cv/gamecode/calibrate_table.py:119-133 | a right click right after a left click that added a point restores the view exactly |
| Calibration.UnscaledClickIsPixel | cv/gamecode/calibrate_table.py:93-100 | at scale 1 an in-frame click is stored as the frame pixel under the cursor |
| Calibration.ZoomStep | cv/gamecode/calibrate_table.py:252-263 | `zoom` on values; stated by `Calibration.ZoomStepSpec` |
| Calibration.ZoomStepSpec | cv/gamecode/calibrate_table.py:252-261 | the scale stays in [0.1, 3.0], moves by exactly the change when that stays in range, keeps the pan offset in frame units (pan ÷ scale), and keeps the points and mode |
| Calibration.ResetIsIdentity | cv/gamecode/calibrate_table.py:265-268 | after reset a window coordinate is its frame coordinate |
| Calibration.OrderCorners | cv/gamecode/calibrate_table.py:287-303 | the ordered corners are a permutation of the four clicked points; both top corners lie above both bottom ones; TL.x ≤ TR.x and BL.x ≤ BR.x |
| Calibration.HomographySetupFor | cv/gamecode/calibrate_table.py:271-313 | nothing unless exactly four table points; then the source corners are a permutation of them and the view is 1000×1796 |
| Calibration.HomographyCornersMatch | cv/gamecode/calibrate_table.py:305-310 | the destination corners are TL, TR, BR, BL of the top view, in the order of the source corners |
| Calibration.CalibrationFor | cv/gamecode/calibrate_table.py:315-342 | nothing unless exactly four table points; otherwise the record holds them (as a permutation), the net points and both sizes |
| Calibration.KeyStep | cv/gamecode/calibrate_table.py:436-487 | the key branches of `run` on values; stated by `Calibration.KeyStepKeepsInv` and `Calibration.KeyStepPoints` |
| Calibration.KeyStepKeepsInv | cv/gamecode/calibrate_table.py:436-487 | every key keeps the calibrator invariant |
| Calibration.KeyStepPoints | cv/gamecode/calibrate_table.py:457-468 | `c` empties both lists and keeps the mode; `t`/`n` only set the mode; no other key touches points |
| Calibration.TableCalibrator.constructor | cv/gamecode/calibrate_table.py:8-61 | opens on the fitted initial view with no points |
| Calibration.TableCalibrator.MouseCallback | cv/gamecode/calibrate_table.py:87-133 | the new state is the mouse step of the old one and the invariant holds |
| Calibration.TableCalibrator.Zoom | cv/gamecode/calibrate_table.py:252-263 | the new state is the zoom step of the old one; the invariant is kept |
| Calibration.TableCalibrator.ResetView | cv/gamecode/calibrate_table.py:265-269 | the new state is the reset step (scale 1, pan 0); the invariant is kept |
| Calibration.TableCalibrator.CalculateHomography | cv/gamecode/calibrate_table.py:271-313 | returns the homography setup of the current points |
| Calibration.TableCalibrator.SaveCalibration | cv/gamecode/calibrate_table.py:315-353 | returns the calibration record of the current points |
| Calibration.TableCalibrator.HandleKey | cv/gamecode/calibrate_table.py:436-487 | quits exactly on `q`/Esc, saves on `s`, and the new state is the key step, with the invariant kept |
| MatchAnalytics.NumberToWords | cv/gamecode/analytics.py:53-60 | `_number_to_words`: Russian words for 0 to 11, digits otherwise; what it promises is stated by `MatchAnalytics.NumberToWordsHasNoDash` and `MatchAnalytics.NumberToWordsInjective` |
| MatchAnalytics.FormatScoreText | cv/gamecode/analytics.py:39-51 | `_format_score_text`: the two spoken scores around a dash, ten-all and beyond spoken as ten-all; stated by `MatchAnalytics.FormatScoreTextInjective`, `MatchAnalytics.AnnouncementHalves` and `MatchAnalytics.AdvantageSoundsLikeTenAll` |
| MatchAnalytics.AnnounceStep | cv/gamecode/analytics.py:28-37 | `announce_score` on values; stated by `MatchAnalytics.AnnounceOnce` |
| MatchAnalytics.CalculateMatchStats | cv/gamecode/analytics.py:118-143 | `_calculate_match_stats`; stated by `MatchAnalytics.MatchStatsCounts`, `MatchAnalytics.MatchStatsAgreeWithScore`, `MatchAnalytics.MatchStatsAverages` and `MatchAnalytics.AvgMaxSpeedPositive` |
| MatchAnalytics.NumberToWordsHasNoDash | cv/gamecode/analytics.py:53-60 | no spoken number contains the em dash |
| MatchAnalytics.NumberToWordsInjective | cv/gamecode/analytics.py:53-60 | different numbers are spoken differently (words for 0..11, digits otherwise) |
| MatchAnalytics.AnnouncementHalves | cv/gamecode/analytics.py:50-51 | the announcement splits on the dash into exactly the two spoken scores |
| MatchAnalytics.FormatScoreTextInjective | cv/gamecode/analytics.py:39-51 | before ten-all every score has its own announcement |
| MatchAnalytics.AdvantageSoundsLikeTenAll | cv/gamecode/analytics.py:43-49 | from ten-all on, 11:10 and 10:11 are announced exactly like 10:10 |
| MatchAnalytics.AnnounceOnce | cv/gamecode/analytics.py:28-37 | something is said exactly when TTS is there and the score changed; repeating the score says nothing |
| MatchAnalytics.Analytics.constructor | cv/gamecode/analytics.py:16-26 | starts with nothing announced and the given speech availability |
| MatchAnalytics.Analytics.AnnounceScore | cv/gamecode/analytics.py:28-37 | the text said and the new last score are those of the announce step |
| MatchAnalytics.Durations | cv/gamecode/analytics.py:126 | one duration per recorded point, in order |
| MatchAnalytics.MaxSpeeds | cv/gamecode/analytics.py:129 | only positive top speeds are kept, at most one per point |
| MatchAnalytics.MatchStatsCounts | cv/gamecode/analytics.py:118-143 | total points is the history length, total rallies the sum of rally counts, the scores are copied; an empty history gives all-zero counts, averages and percentages |
| MatchAnalytics.CountWinnerIsWins | cv/gamecode/analytics.py:123-124 | counting winners 0 and 1 agrees with the referee's win count |
| MatchAnalytics.MaxSpeedsEmpty | cv/gamecode/analytics.py:129-130 | no top speed is kept exactly when no point had a positive top speed |
| MatchAnalytics.MatchStatsAgreeWithScore | cv/gamecode/analytics.py:118-137 | under the referee's invariant the win counts are the score and add up to the points |
| MatchAnalytics.PercentagesAddUp | cv/gamecode/analytics.py:142-143 | two complementary win percentages add up to 100 |
| MatchAnalytics.MatchStatsAverages | cv/gamecode/analytics.py:118-143 | for a non-empty history the percentages add up to 100 and average rally × points is the rally total |
| MatchAnalytics.AvgMaxSpeedPositive | cv/gamecode/analytics.py:129-130 | the average top speed is ≥ 0, and positive exactly when some point had a positive top speed |
| MatchAnalytics.StrayWinnerUncounted | cv/gamecode/analytics.py:123-124 | a winner of −1 is credited to player 2 by the score but counted for nobody by the statistics |
| MatchAnalytics.FinalScoreRoundTrip | cv/gamecode/analytics.py:109-110 | the final-score text splits back into the two scores; "Player 1" exactly when player 1 leads, so a tie reads "Player 2" |
| GameRules.BallSide | cv/gamecode/game_logic.py:166-169 | the side is 0 exactly when x < 500, else 1 |
| GameRules.NetCrossingMeansStraddle | cv/gamecode/game_logic.py:207-215 | a net crossing is the last two samples lying on different sides of x = 500 |
| GameRules.Bounce | cv/gamecode/game_logic.py:217-234 | no bounce under 3 samples; a bounce exactly when the two vertical steps change sign and both exceed 5; the side is the middle sample's |
| GameRules.OutOfTable | cv/gamecode/game_logic.py:240-243 | `_check_out_of_table`; stated by `GameRules.OnTableIsClosedRectangle` |
| GameRules.NetTouch | cv/gamecode/game_logic.py:245-259 | `_check_net_touch`; stated by `GameRules.NetTouchMeansNetZone` |
| GameRules.NetTouchMeansNetZone | cv/gamecode/game_logic.py:245-259 | a net touch is exactly a crossing of x = 500 between the last two samples with the last one in the net zone 480 ≤ x ≤ 520, 0 ≤ y ≤ 500 |
| GameRules.ValidServe | cv/gamecode/game_logic.py:192-205 | `_check_valid_serve`; stated by `GameRules.ValidServeIffBothSides`, and computed by the loop of `GameLogic.PingPongGame.CheckValidServe` |
| GameRules.OnTableIsClosedRectangle | cv/gamecode/game_logic.py:240-243 | in bounds exactly on the closed rectangle 0≤x≤1000, 0≤y≤500 |
| GameRules.ValidServeIffBothSides | cv/gamecode/game_logic.py:192-205 | a serve is valid exactly when there are ≥3 samples and they lie on both halves |
| GameRules.CentreDistanceIsQuarter | cv/gamecode/game_logic.py:183-185 | the racket-centre distance is the root of a quarter of an integer |
| GameRules.HitterDistanceTests | cv/gamecode/game_logic.py:183-188 | the float reach and "closer than" tests equal integer tests |
| GameRules.HitterScan | cv/gamecode/game_logic.py:171-190 | after n rackets the chosen index is a present racket in reach, with its distance recorded |
| GameRules.HitterScanIsFirstNearest | cv/gamecode/game_logic.py:178-190 | the scan finds nothing exactly when no racket is in reach; otherwise it keeps the first racket at minimal distance |
| GameRules.NearestHitterSpec | cv/gamecode/game_logic.py:171-190 | the hitter is the first racket in reach at minimal distance, or none when none is in reach |
| GameRules.PointEndReason | cv/gamecode/game_logic.py:143-164 | double bounce, then out of table, then net touch: the first that holds is the reason; none on an empty trajectory |
| GameRules.PointWinner | cv/gamecode/game_logic.py:261-268 | double bounce: opponent of the bounce side; otherwise opponent of the last hitter; 0 when that field is missing |
| GameRules.DoubleBounceWinnerIsOpponent | cv/gamecode/game_logic.py:263-264 | the double-bounce winner is the player opposite the bounce side |
| GameRules.ScoreSlot | cv/gamecode/game_logic.py:273 | `score[winner]` reaches a slot exactly for winners −2..1, the slot congruent mod 2 |
| GameRules.IsMatchComplete | cv/gamecode/game_logic.py:318-324 | `_is_match_complete`; stated by `GameRules.MatchCompleteMeansLeader` |
| GameRules.MatchCompleteMeansLeader | cv/gamecode/game_logic.py:318-324 | over exactly when one player has ≥11 points and leads by ≥2 |
| GameRules.Max | cv/gamecode/game_logic.py:283 | Python `max` is an element and bounds all elements |
| GameRules.MeanAbove | cv/gamecode/game_logic.py:100-101 | the mean exceeds a threshold exactly when the sum exceeds threshold × count |
| GameSpec.EmptyPointData | cv/gamecode/game_logic.py:38-52 | a fresh point record is numbered history+1, for the current server, with no times and no winner |
| GameSpec.InitialGame | cv/gamecode/game_logic.py:13-33 | a new game is WAITING at 0:0 with no history |
| GameSpec.RecordBall | cv/gamecode/game_logic.py:70-78 | the sample enters the 60-entry trajectory deque and its speed the 10-entry speed deque; nothing else changes |
| GameSpec.WaitingStepAsWritten | cv/gamecode/game_logic.py:98-105 | as written, play starts SERVING with `point_start_time` set but the record's start time left None |
| GameSpec.WaitingStep | cv/gamecode/game_logic.py:98-105 | play starts SERVING with the start time in the record, numbered history+1 for the current server; score and history kept; otherwise no change |
| GameSpec.ServingStep | cv/gamecode/game_logic.py:107-113 | a valid serve starts the rally with the server as last hitter and rally count 1; otherwise no change |
| GameSpec.UpdateStep | cv/gamecode/game_logic.py:65-96 | without a ball nothing changes and the current state is returned |
| GameSpec.RallyStep | cv/gamecode/game_logic.py:115-133 | `_handle_rally_state`; stated by `GameSpec.RallyOrder`, `GameSpec.StaleBounceCountEndsNextRally` and, with the other handlers, `GameSpec.DispatchKeepsInv` |
| GameSpec.CheckPointEnd | cv/gamecode/game_logic.py:143-164 | `_check_point_end_conditions`; reason and winner by `GameRules.PointEndReason` and `GameRules.PointWinner`, the step by `GameSpec.CheckPointEndKeepsInv` and `GameSpec.CheckPointEndAtMostOnePoint` |
| GameSpec.EndPointStep | cv/gamecode/game_logic.py:270-306 | `end_point`; stated by `GameSpec.EndPointKeepsInv`, `GameSpec.EndPointAfterAsWrittenStartRaises` and `GameSpec.EndPointAfterStartRecords` |
| GameSpec.PointEndStep | cv/gamecode/game_logic.py:135-141 | `_handle_point_end_state`; stated by `GameSpec.DispatchKeepsDeques`, `GameSpec.NewPointKeepsBounceCount` and `GameSpec.DispatchKeepsInv` |
| GameSpec.Dispatch | cv/gamecode/game_logic.py:84-94 | the handler per state; stated by `GameSpec.DispatchKeepsInv`, `GameSpec.DispatchKeepsDeques` and `GameSpec.MatchEndIsFinal` |
| GameSpec.InitialGameInv | cv/gamecode/game_logic.py:13-33 | a new game satisfies the referee invariant |
| GameSpec.WinsAddUp | cv/gamecode/game_logic.py:273 | the two players' win counts add up to the recorded points |
| GameSpec.InvScoreIsPointCount | cv/gamecode/game_logic.py:273-287 | under the invariant the score total is the number of recorded points |
| GameSpec.EndPointKeepsInv | cv/gamecode/game_logic.py:270-306 | from a rally: POINT_END or MATCH_END; winner −2..1 increments exactly that slot, appends one record and keeps the invariant; otherwise IndexError with the score unchanged |
| GameSpec.CountedPointKeepsInv | cv/gamecode/game_logic.py:276-306 | recording a counted point keeps the invariant, appends exactly one record and ends the match exactly when the score is decided |
| GameSpec.ServeInvAppend | cv/gamecode/game_logic.py:293-297 | rotating after each point keeps points numbered 1,2,… and served two at a time |
| GameSpec.CheckPointEndKeepsInv | cv/gamecode/game_logic.py:143-164 | checking the end conditions keeps the invariant and raises no TypeError (with the corrected start time) |
| GameSpec.UpdateKeepsInv | cv/gamecode/game_logic.py:65-96 | every update keeps the invariant and never raises TypeError (with the corrected start time) |
| GameSpec.DispatchKeepsInv | cv/gamecode/game_logic.py:84-94 | each state's handler keeps the invariant |
| GameSpec.MatchEndIsFinal | cv/gamecode/game_logic.py:84-96 | after MATCH_END updates never change score, history or state |
| GameSpec.UpdateRecordsBall | cv/gamecode/game_logic.py:71-78 | an update with a ball adds exactly one sample and one speed (oldest evicted); only the return to WAITING empties both deques |
| GameSpec.DispatchKeepsDeques | cv/gamecode/game_logic.py:84-94 | only the return to WAITING after a point touches the deques |
| GameSpec.RallyCountersKeepInv | cv/gamecode/game_logic.py:115-130 | the rally counters keep the invariant, the score and the history |
| GameSpec.CheckPointEndAtMostOnePoint | cv/gamecode/game_logic.py:143-164 | ending a point adds at most one point to one player |
| GameSpec.UpdateScoresAtMostOnePoint | cv/gamecode/game_logic.py:65-96 | an update changes the score by at most one point for one player |
| GameSpec.RecordBallKeepsInv | cv/gamecode/game_logic.py:71-78 | recording the ball keeps the invariant, the score, history and state |
| GameSpec.RallyOrder | cv/gamecode/game_logic.py:115-133 | the crossing reset comes before the bounce increment; hitter and rally count change only on the first bounce with a hitter |
| GameSpec.StaleBounceCountEndsNextRally | cv/gamecode/game_logic.py:115-133 | a bounce counter of 2 left over from the previous point ends the next rally, with no net crossing, on its first sample, the end reason being the double bounce, recording a point |
| GameSpec.NewPointKeepsBounceCount | cv/gamecode/game_logic.py:98-113 | starting, serving and waiting again leave the bounce counter untouched |
| GameSpec.EndPointAfterAsWrittenStartRaises | cv/gamecode/game_logic.py:270-280 | as written, a point started by the waiting handler ends in TypeError after being counted, before being recorded or rotating the serve |
| GameSpec.EndPointAfterStartRecords | cv/gamecode/game_logic.py:270-291 | with the start time recorded the point ends normally, its duration the time from serve start to the last sample |
| GameLogic.PingPongGame.constructor | cv/gamecode/game_logic.py:13-36 | the new game is the initial game and valid |
| GameLogic.PingPongGame.ResetGame | cv/gamecode/game_logic.py:341-344 | back to the initial game, valid |
| GameLogic.PingPongGame.UpdateGameState | cv/gamecode/game_logic.py:65-96 | state and result are the update step of the old state; validity is kept and TypeError never raised (with the corrected start time) |
| GameLogic.PingPongGame.Dispatch | cv/gamecode/game_logic.py:84-94 | runs the current state's handler; MATCH_END has none |
| GameLogic.PingPongGame.HandleWaitingState | cv/gamecode/game_logic.py:98-105 | the new state is the waiting step |
| GameLogic.PingPongGame.HandleServingState | cv/gamecode/game_logic.py:107-113 | the new state is the serving step |
| GameLogic.PingPongGame.HandleRallyState | cv/gamecode/game_logic.py:115-133 | state and result are the rally step |
| GameLogic.PingPongGame.HandlePointEndState | cv/gamecode/game_logic.py:135-141 | state and result are the point-end step: more than 2 s after the point's start, WAITING with both deques cleared |
| GameLogic.PingPongGame.CheckPointEndConditions | cv/gamecode/game_logic.py:143-164 | state and result are the point-end check |
| GameLogic.PingPongGame.EndPoint | cv/gamecode/game_logic.py:270-306 | state and result are the end-point step |
| GameLogic.PingPongGame.RecordCurrentPoint | cv/gamecode/game_logic.py:276-306 | the new state is the point bookkeeping: the completed record appended to the history, serve rotated, rally totals updated |
| GameLogic.PingPongGame.RotateServe | cv/gamecode/game_logic.py:293-297 | the server changes after every second point and the serve count restarts |
| GameLogic.PingPongGame.CompletePointData | cv/gamecode/game_logic.py:276-284 | the point record gets end time, duration, winner, rally count and speeds |
| GameLogic.PingPongGame.CheckValidServe | cv/gamecode/game_logic.py:192-205 | the loop's answer is the valid-serve predicate (both halves visited) |
| GameLogic.PingPongGame.DetermineHitter | cv/gamecode/game_logic.py:171-190 | the loop returns the first racket in reach at minimal distance |
| ObjectTracking.TruncHalf | cv/gamecode/object_tracker.py:60-61 | `int((a+b)/2)` halves toward zero, within one of n/2 |
| ObjectTracking.FloorHalf | cv/gamecode/object_tracker.py:128-129 | `(a+b)//2` is the floor of n/2 |
| ObjectTracking.ProcessRacket | cv/gamecode/object_tracker.py:127-137 | side 0 exactly when the floored centre is left of the frame middle; box and confidence kept; table position is the projected centre |
| ObjectTracking.ProcessPlayer | cv/gamecode/object_tracker.py:139-146 | side 0 exactly when the centre is left of the frame middle; box, centre and confidence kept |
| ObjectTracking.RoutingCounts | cv/gamecode/object_tracker.py:63-75 | one candidate, racket or player entry per detection of that class, others dropped; sides as above |
| ObjectTracking.NearestFrom | cv/gamecode/object_tracker.py:81-85 | the index of the first candidate at minimal distance |
| ObjectTracking.SelectCandidate | cv/gamecode/object_tracker.py:79-87 | the first candidate without a previous ball, else the first nearest to the last ball's centre |
| ObjectTracking.SpeedAsWritten | cv/gamecode/object_tracker.py:117-125 | as written: 0.0 without history or when time did not advance; otherwise speed × elapsed time is the distance from the new PIXEL centre to the previous TABLE position, and the speed is ≥ 0 |
| ObjectTracking.BallSpeed | cv/gamecode/object_tracker.py:117-125 | 0.0 without history or dt ≤ 0; otherwise the table-to-table `calculate_speed`, which is ≥ 0 |
| ObjectTracking.StationaryBallHasNoSpeed | cv/gamecode/object_tracker.py:117-125 | a ball that did not move on the table has speed 0 |
| ObjectTracking.StationaryBallMovesAsWritten | cv/gamecode/object_tracker.py:125 | as written a ball resting in place gets a positive speed |
| ObjectTracking.NewBall | cv/gamecode/object_tracker.py:89-97 | a new ball has id 1, the candidate's box, centre, confidence and time, its projected position, and the table-to-table speed `BallSpeed` (≥ 0) |
| ObjectTracking.DetectStep | cv/gamecode/object_tracker.py:25-115 | `detect_objects` on values, after the detector; stated by `ObjectTracking.DetectStepSpec` |
| ObjectTracking.DetectStepSpec | cv/gamecode/object_tracker.py:36-115 | frame count +1; history bounded, last ball newest; a new ball is remembered and appended once, with its projected position and table-to-table speed; with no candidate the last ball is re-emitted and history untouched, or no ball at all |
| ObjectTracking.ObjectTracker.constructor | cv/gamecode/object_tracker.py:8-23 | empty history, no last ball, frame count 0 |
| ObjectTracking.ObjectTracker.ClassifyDetections | cv/gamecode/object_tracker.py:48-75 | the loop produces exactly the routed candidates, rackets and players |
| ObjectTracking.ObjectTracker.DetectObjects | cv/gamecode/object_tracker.py:36-115 | the new state and result are the detect step; validity is kept |
| ObjectTracking.ObjectTracker.GetBallTrajectory | cv/gamecode/object_tracker.py:148-150 | the history, bounded by its capacity |
| ObjectTracking.ObjectTracker.ClearHistory | cv/gamecode/object_tracker.py:152-155 | empty history, no last ball, nothing else changed |
| Deques.Append | cv/gamecode/object_tracker.py:20 | a bounded append keeps at most `cap` newest elements, ending with the new one, evicting the oldest |
| Sorting.Insert | cv/gamecode/calibrate_table.py:289-295 | the result holds the input's elements and the inserted one, nothing else |
| Sorting.Sort | cv/gamecode/calibrate_table.py:289-295 | `sorted` returns a permutation of its input |
| Sorting.InsertSorted | cv/gamecode/calibrate_table.py:289-295 | inserting into a sorted sequence keeps it sorted |
| Sorting.SortSorted | cv/gamecode/calibrate_table.py:289-295 | `sorted` output is ordered by the key |
| Sorting.WithKeyAppend | fastapi-app/core/services/match_service.py:247 | the elements with a given key distribute over concatenation |
| Sorting.InsertStable | fastapi-app/core/services/match_service.py:247 | insertion keeps equal-key elements in order |
| Sorting.SortStable | fastapi-app/core/services/match_service.py:247 | `sorted` is stable: equal-key elements keep their input order |
| Tallies.Bump | fastapi-app/core/services/match_service.py:199 | `counts[k] += 1` adds at most one entry |
| Tallies.TallyOfSnoc | fastapi-app/core/services/match_service.py:199-222 | counting one more key bumps the counter |
| Tallies.FirstMax | fastapi-app/core/services/match_service.py:253 | `max` by count returns an entry with the largest count, and the first such entry of the counter |
| Tallies.BumpGet | fastapi-app/core/services/match_service.py:199 | counting k adds one to k's count and no other |
| Tallies.BumpKeys | fastapi-app/core/services/match_service.py:199 | counting k adds k to the keys and no other key |
| Tallies.BumpDistinct | fastapi-app/core/services/match_service.py:199 | counting keeps each key once |
| Tallies.TallyOfSpec | fastapi-app/core/services/match_service.py:232-245 | the counter holds each counted key once, with its number of occurrences, and no other key |
| Tallies.TallyOfKeys | fastapi-app/core/services/match_service.py:232-245 | the counter's keys are distinct and exactly the counted keys |
| Tallies.TallyOfCounts | fastapi-app/core/services/match_service.py:232-245 | every key's count is its number of occurrences |
| Tallies.TallyOfOrder | fastapi-app/core/services/match_service.py:232-245 | the counter lists its keys in the order they were first counted |
| Tallies.GetMissing | fastapi-app/core/services/match_service.py:224 | an absent key reads 0 |
| Tallies.GetPresent | fastapi-app/core/services/match_service.py:224 | a present key reads its count |
| PyText.DigitChar | fastapi-app/core/services/match_service.py:146 | a digit character has the digit's value |
| PyText.NatToString | fastapi-app/core/services/match_service.py:146 | `str(n)`: non-empty digits, no leading zero, one digit exactly below 10 |
| PyText.IntToString | fastapi-app/core/services/match_service.py:146 | `str(n)` starts with '-' exactly for negatives |
| PyText.NatToStringRoundTrip | cv/gamecode/analytics.py:109 | the digits of `str(n)` read back as n |
| PyText.NatToStringInjective | cv/gamecode/analytics.py:60 | different naturals print differently |
| PyText.IntToStringInjective | cv/gamecode/analytics.py:60 | different integers print differently |
| PyText.Split | fastapi-app/core/schemas/base.py:5 | `split` gives at least one piece, none containing the separator |
| PyText.SplitJoinRoundTrip | fastapi-app/core/schemas/base.py:5 | joining the pieces with the separator gives back the string |
| PyText.SplitWithoutSeparator | fastapi-app/core/schemas/base.py:5 | a string without the separator splits into itself |
| PyText.IntToStringChars | fastapi-app/core/services/match_service.py:146 | `str(n)` holds only digits and '-' |
| PyText.SplitAroundSeparator | fastapi-app/core/schemas/base.py:5 | splitting a + sep + b, a separator-free, gives a then the pieces of b |
| Camel.LowerAll | fastapi-app/core/schemas/base.py:6 | lower-casing maps each character |
| Camel.Capitalize | fastapi-app/core/schemas/base.py:6 | first character upper case, the rest lower case, same length |
| Camel.UnderscoreFree | fastapi-app/core/schemas/base.py:6 | case changes never produce '_' |
| Camel.ConcatFree | fastapi-app/core/schemas/base.py:6 | joining pieces free of a character stays free of it |
| Camel.CapitalizeFree | fastapi-app/core/schemas/base.py:6 | capitalising keeps a word free of '_' |
| Camel.ToCamel | fastapi-app/core/schemas/base.py:4-6 | `to_camel`; stated by `Camel.NoUnderscore`, `Camel.NoUnderscoreUnchanged`, `Camel.StartsWithFirstSegment`, `Camel.Idempotent` and `Camel.LengthDropsUnderscores` |
| Camel.NoUnderscore | fastapi-app/core/schemas/base.py:4-6 | the result of `to_camel` has no '_' |
| Camel.NoUnderscoreUnchanged | fastapi-app/core/schemas/base.py:5-6 | a name without '_' is returned unchanged |
| Camel.StartsWithFirstSegment | fastapi-app/core/schemas/base.py:6 | the result starts with the text before the first '_' |
| Camel.Idempotent | fastapi-app/core/schemas/base.py:4-6 | `to_camel(to_camel(s)) == to_camel(s)` |
| Camel.ConcatLength | fastapi-app/core/schemas/base.py:6 | a join is as long as its pieces together |
| Camel.SplitLength | fastapi-app/core/schemas/base.py:5 | splitting drops exactly the underscores; one more piece than underscores |
| Camel.TailLength | fastapi-app/core/schemas/base.py:6 | capitalising the later segments keeps their total length |
| Camel.LengthDropsUnderscores | fastapi-app/core/schemas/base.py:4-6 | the result is as long as the input without its underscores |
| ErrorHandlers.HandleValidationError | fastapi-app/core/exceptions/errors_handlers.py:11-16 | `handle_pydantic_errors`; stated by `ErrorHandlers.ValidationErrorSpec` |
| ErrorHandlers.ValidationErrorSpec | fastapi-app/core/exceptions/errors_handlers.py:11-16 | a validation failure is answered 422 "Validation error" carrying the validator's errors in order, a response no application error produces |
| ErrorHandlers.HandleAppError | fastapi-app/core/exceptions/errors_handlers.py:19-46 | `handle_app_error`; stated by `ErrorHandlers.AppErrorStatuses` |
| ErrorHandlers.AppErrorStatuses | fastapi-app/core/exceptions/errors_handlers.py:11-46 | 500 exactly for unknown errors, 401 for the two authentication kinds (told apart by message), 403 for forbidden, 404/409 passing their text, never the validation 422 |
| Middlewares.AuthMiddlewareAsWritten | fastapi-app/api/middlewares/middlewares.py:24-51 | `auth_middleware` as written; stated by `Middlewares.BadTokenEscapesAsWritten` and `Middlewares.MiddlewaresAgree` |
| Middlewares.AuthMiddleware | fastapi-app/api/middlewares/middlewares.py:24-51 | `auth_middleware` with a rejected token answered 401; stated by `Middlewares.BadTokenRejected` and `Middlewares.ForwardedUserIsDecoded` |
| Middlewares.Dispatch | fastapi-app/api/middlewares/auth_middleware.py:13-38 | `AuthMiddleware.dispatch`; stated by `Middlewares.ForwardedUserIsDecoded` and `Middlewares.MiddlewaresAgree` |
| Middlewares.BadTokenEscapesAsWritten | fastapi-app/api/middlewares/middlewares.py:44-46 | as written, a token the decoder rejects lets its exception escape instead of a 401 |
| Middlewares.BadTokenRejected | fastapi-app/api/middlewares/middlewares.py:44-46 | corrected, the same request gets 401 "not valid token", and every other request is answered as written |
| Middlewares.ForwardedUserIsDecoded | fastapi-app/api/middlewares/middlewares.py:24-51 | a request is forwarded with a user exactly when its token decodes to that user; without a user exactly for OPTIONS or public paths |
| Middlewares.MiddlewaresAgree | fastapi-app/api/middlewares/auth_middleware.py:13-38 | for non-OPTIONS requests the class-style middleware raises where the corrected function-style one answers, with the same status and text; they part on an OPTIONS request to a private path; the function-style one as written also parts on a rejected token, whose exception escapes where the class-style one raises 401 |
| Authorization.GetCurrentUser | fastapi-app/api/dependencies/authorization.py:4-8 | the stored user exactly when there is one, otherwise 401 "Not authenticated" |
| Authorization.RequireRole | fastapi-app/api/dependencies/authorization.py:11-17 | `require_role`; stated by `Authorization.RequireRoleSpec` and `Authorization.RequireRoleMonotone` |
| Authorization.RequireRoleSpec | fastapi-app/api/dependencies/authorization.py:11-17 | passes exactly a stored user with a listed role; 401 without user, 403 for a wrong role |
| Authorization.RequireRoleMonotone | fastapi-app/api/dependencies/authorization.py:11-17 | no roles rejects everyone; more roles never reject a user fewer roles let in |
| Dates.Weekday | fastapi-app/core/utils/date.py:6 | `weekday()` is in 0..6 |
| Dates.CurrentWeek | fastapi-app/core/utils/date.py:4-8 | `get_current_week`; stated by `Dates.CurrentWeekSpec` and `Dates.CurrentWeekDefined` |
| Dates.CurrentWeekSpec | fastapi-app/core/utils/date.py:4-8 | start ≤ today ≤ end, end − start = 6, start is a Monday, and a Monday starts its own week |
| Dates.CurrentWeekDefined | fastapi-app/core/utils/date.py:6-7 | the week is undefined exactly when its Sunday lies past `date.max` |
| PlayerStats.FloorDivIsFloor | fastapi-app/core/repositories/match.py:45-58 | `a // b` is the floor of the true quotient |
| PlayerStats.Wins | fastapi-app/core/repositories/match.py:41 | the win count never exceeds the matches |
| PlayerStats.RecalculatePlayerStats | fastapi-app/core/repositories/match.py:29-73 | the loop and sums compute exactly the stats row |
| PlayerStats.StatsFor | fastapi-app/core/repositories/match.py:36-58 | the stats row `_recalculate_player_stats` writes; stated by `PlayerStats.StatsForSpec`, `PlayerStats.WinsAppend` and `PlayerStats.TotalsIgnoreEmpty`, computed by `PlayerStats.RecalculatePlayerStats` |
| PlayerStats.StatsForSpec | fastapi-app/core/repositories/match.py:36-58 | nothing written without matches; otherwise the wins are the player's won matches and wins + losses = games, the total duration is the sum of the match durations, no tournament games, both averages are floors of the true quotients, 0 per point with no points |
| PlayerStats.WinsAppend | fastapi-app/core/repositories/match.py:41-42 | each match adds one to exactly one of wins and losses |
| PlayerStats.TotalsIgnoreEmpty | fastapi-app/core/repositories/match.py:44-56 | unset or zero durations and undecided sets add nothing |
| Schemas.BuiltinLayouts | fastapi-app/core/services/schema_service.py:23-86 | exactly five names with 3, 5, 7, 6, 7 columns; no "top-players" |
| Schemas.SchemaService.constructor | fastapi-app/core/services/schema_service.py:7-9 | a new registry holds exactly the five built-in layouts |
| Schemas.SchemaService.Register | fastapi-app/core/services/schema_service.py:11-14 | a taken name is an error with the registry unchanged; a new name adds exactly that entry |
| Schemas.SchemaService.Get | fastapi-app/core/services/schema_service.py:16-21 | the registered layout, or a not-exists error |
| Schemas.RegisterThenGet | fastapi-app/core/services/schema_service.py:11-21 | a registered layout is got back, and other names are unaffected |
| Schemas.FreshServiceLookups | fastapi-app/core/services/schema_service.py:16-21 | a fresh service refuses "top-players" and returns the users layout |
| MatchService.KeysSnoc | fastapi-app/core/services/match_service.py:199-222 | counting one more game appends its key |
| MatchService.CountByPeriod | fastapi-app/core/services/match_service.py:199-222 | the loop's counter is the tally of the games' keys |
| MatchService.ReadCounts | fastapi-app/core/services/match_service.py:224 | one count per label, in label order |
| MatchService.GetLoadByPeriod | fastapi-app/core/services/match_service.py:184-226 | the period's labels, and for each the number of games under it |
| MatchService.IntervalOfSpec | fastapi-app/core/services/match_service.py:215-222 | hours 8..19 fall in the two-hour slot from 8 + 2·((h−8)//2), one of the six labels; other hours are ignored |
| MatchService.WeekOfMonthRange | fastapi-app/core/services/match_service.py:205-209 | days 1..31 fall in weeks 1..5, each a label |
| MatchService.KeyIsLabel | fastapi-app/core/services/match_service.py:201-222 | every key is a label of the period; only the day view drops games |
| MatchService.KeysSpec | fastapi-app/core/services/match_service.py:201-222 | keys are labels; one per game, or one per daytime game for the day view |
| MatchService.ColonSplit | fastapi-app/core/services/match_service.py:43 | a slot label splits at ':' back to its start hour text |
| MatchService.IntervalLabelInjective | fastapi-app/core/services/match_service.py:43 | different start hours give different slot labels |
| MatchService.WeekLabelInjective | fastapi-app/core/services/match_service.py:206 | different week numbers give different labels |
| MatchService.MonthsDistinct | fastapi-app/core/services/match_service.py:27-40 | the month names are distinct |
| MatchService.DaysDistinct | fastapi-app/core/services/match_service.py:42 | the day names are distinct |
| MatchService.WeekLabelsDistinct | fastapi-app/core/services/match_service.py:206 | the week labels are distinct |
| MatchService.IntervalsDistinct | fastapi-app/core/services/match_service.py:43 | the slot labels are distinct |
| MatchService.LabelsDistinct | fastapi-app/core/services/match_service.py:201-216 | no period repeats a label |
| MatchService.LabelTotalEmpty | fastapi-app/core/services/match_service.py:224 | no keys, no counts |
| MatchService.LabelTotalStep | fastapi-app/core/services/match_service.py:224 | one more key adds its occurrences among the labels |
| MatchService.OccurrencesAbsent | fastapi-app/core/services/match_service.py:224 | an absent label occurs 0 times |
| MatchService.OccurrencesOnce | fastapi-app/core/services/match_service.py:224 | a label of a distinct list occurs once |
| MatchService.LabelTotalAll | fastapi-app/core/services/match_service.py:224 | with distinct labels covering all keys the counts add to the number of keys |
| MatchService.TotalOfLabelCounts | fastapi-app/core/services/match_service.py:224 | the data total is the per-label occurrence total |
| MatchService.LoadDataTotal | fastapi-app/core/services/match_service.py:201-224 | one count per label; the counts add up to the games (year, month, week) or the daytime games (day) |
| MatchService.UnusedLabelIsZero | fastapi-app/core/services/match_service.py:224 | a label no game falls under reads 0 |
| MatchService.KeysAvoid | fastapi-app/core/services/match_service.py:199-222 | a key no game produces is not counted |
| MatchService.CalculateExtraStats | fastapi-app/core/services/match_service.py:228-258 | the loops compute the top days and top slot |
| MatchService.ExtraStats | fastapi-app/core/services/match_service.py:228-258 | `calculate_extra_stats` on values; stated by `MatchService.TopDaysSpec`, `MatchService.TopDaysAreBusiest`, `MatchService.TopDaysAreWeekdays`, `MatchService.TopPeriodSpec` and `MatchService.TopPeriodOfWeek`, computed by `MatchService.CalculateExtraStats` |
| MatchService.RankedCounts | fastapi-app/core/services/match_service.py:247 | the ranking holds each counted key once with its count, busiest first |
| MatchService.TopDaysSpec | fastapi-app/core/services/match_service.py:247-249 | at most two top days, two when two keys were counted, each counted, in non-increasing count |
| MatchService.TopDaysAreBusiest | fastapi-app/core/services/match_service.py:247-249 | no day left out was counted more often than the last one kept |
| MatchService.TopDaysAreWeekdays | fastapi-app/core/services/match_service.py:238-249 | the top days are weekday names |
| MatchService.TopPeriodSpec | fastapi-app/core/services/match_service.py:251-257 | "" only for an empty counter, otherwise a counted key no key beats; among keys counted as often it is the one counted first |
| MatchService.TopPeriodTie | fastapi-app/core/services/match_service.py:253 | the counter's first maximum is, among equally busy keys, the key counted first |
| MatchService.TopPeriodOfWeek | fastapi-app/core/services/match_service.py:241-257 | the top slot is "" exactly when no game is between 8:00 and 20:00, otherwise one of the six slots |
| MatchService.GetMatchesByUserId | fastapi-app/core/services/match_service.py:119-157 | no matches is NotFoundError "0 matches"; otherwise one row per match, in order, with the paging echoed |
| MatchService.OpponentIsOtherPlayer | fastapi-app/core/services/match_service.py:138 | the opponent is the other side of the match |
| MatchService.WinnerChoice | fastapi-app/core/services/match_service.py:140 | player 1 is winner exactly when stored so; a decided match shows its winner; an undecided one shows player 2 |
| MatchService.ScoreTextHasNoColon | fastapi-app/core/services/match_service.py:146 | a printed score holds no ':' |
| MatchService.ScoreSplitsBack | fastapi-app/core/services/match_service.py:146 | the score text splits at ':' into the two printed scores |
| MatchService.GetTopPlayers | fastapi-app/core/services/match_service.py:159-182 | no users is NotFoundError; otherwise places 1..n in repository order with the users' stats |
| MatchService.SplitFourWords | fastapi-app/core/services/match_service.py:93 | four space-free words joined by spaces split back |
| MatchService.GetById | fastapi-app/core/services/match_service.py:90-117 | `get_by_id`; stated by `MatchService.GetByIdMissing` and `MatchService.GetByIdFound` |
| MatchService.GetByIdMissing | fastapi-app/core/services/match_service.py:91-93 | a missing match is a 404 whose message names the id |
| MatchService.GetByIdFound | fastapi-app/core/services/match_service.py:95-117 | ids kept, missing duration and scores read 0, a player is winner exactly when stored so (never both), set columns line up |
| MatchService.NewSession | fastapi-app/core/services/match_service.py:301-315 | the match `create_session` builds; stated by `MatchService.NewSessionSpec` |
| MatchService.NewSessionSpec | fastapi-app/core/services/match_service.py:301-313 | exactly `best_of` sets numbered 1..best_of, all 0:0, a 0:0 match with no time played, creator as player 1 |

## Left out

- GameSpec.UpdateStep / GameSpec.Dispatch / GameLogic.PingPongGame.HandleWaitingState / GameLogic.PingPongGame.UpdateGameState: the point record's start time is set when play starts (the corrected `WaitingStep`), not left None as in the code as written (`WaitingStepAsWritten`; see Findings), so the referee's invariant and its "never raises TypeError" hold for the corrected start time.
- ObjectTracking.NewBall / ObjectTracking.DetectStep / ObjectTracking.ObjectTracker.DetectObjects: the stored ball speed is the corrected table-to-table speed `BallSpeed`, not the pixel-to-table speed of the code as written (`SpeedAsWritten`; see Findings).
- YOLO detection, `cv2` (`perspectiveTransform`, `findHomography`) and `project_point` are foreign calls. Detections, projected table points and the homography result are inputs. The float square root of `calculate_distance` is a parameter constrained by `Geometry.IsSqrt`.
- Clock reads (`time.time()`, `datetime.now()`, `date.today()`) are parameters. `match_start_time`, the saved summary's date, time and duration, and `get_game_info` are not modelled.
- Printing (`_print_point_summary`, progress messages), `_setup_table_zones` (zones nothing reads) and the unused `serve_type`/`events` fields of the point record are not modelled.
- cv/main.py, cv/tracking.py and cv/gamecode/visualization.py are not part of this model.
- Calibration: the window, trackbar and drawing code is not modelled: `get_display_frame`, `draw_points`, `show_preview`, `test_projection`, `simple_calibrate`, and the video, trackbar and frame-reading parts of `run`. The frame size is taken as fixed after start-up. The mouse wheel is not handled by the source either.
- Calibration.TableCalibrator.MouseCallback: the display-to-frame rescaling is exact real arithmetic, not float.
- Analytics: text-to-speech (`pyttsx3`), including a failing engine start, and the CSV/JSON writes (`save_game_analytics`, `_prepare_csv_data`) are not modelled. Only the text handed to the engine and the statistics values are.
- MatchAnalytics.MatchStatsAverages, GameRules.MeanAbove: averages and percentages are exact reals, so float rounding is not modelled.
- The database, ORM, routers, app assembly, CORS, JWT encoding and bcrypt are not modelled. Repository results are inputs; `async` calls are sequential.
- `MatchService.list`, `get_session`, `get_session_stats` and `start_session` are not modelled. They only reshape repository rows or call the repository. The id that the repository's `create_session` assigns is not modelled.
- `get_current_day`, `get_current_month` and `get_current_year` are imported by the match service but do not exist in `date.py`. Period bounds are therefore inputs (the repository's game list).
- Dates: only `get_current_week` is modelled. Dates are day ordinals and `today` is a parameter.
- Camel.Capitalize: upper and lower case cover ASCII letters only, not Python's full Unicode case mapping.
- MatchService.CalculateExtraStats: the order of top days with equal counts (first counted first) follows from `Sorting.SortStable` but is not restated as a lemma about the result.
- Middlewares: the write to `request.state.user` is the claims carried by `Forward`; the downstream handler is not modelled.
- Schemas: Python's `ValueError` is the `SchemaError` value; a registered layout is always truthy, so `get` fails only for unknown names.

## Findings

| source | as written | input that shows it | evidently intended | confidence | as-written member | corrected member |
|---|---|---|---|---|---|---|
| cv/gamecode/game_logic.py:277 | `end_point` subtracts `current_point_data['start_time']`, which is created as None (line 42) and never set, because line 103 sets `point_start_time` instead | any point: serve detected, rally, then a point end; TypeError after the score increment, before recording or serve rotation | the point's start time is stored in the point record | not executed | GameSpec.EndPointAfterAsWrittenStartRaises | GameSpec.EndPointAfterStartRecords |
| cv/gamecode/object_tracker.py:125 | `_calculate_speed` measures from the new ball's pixel centre to the previous ball's table position | a ball resting at pixel (500, 300), table (100, 50), seen twice one second apart, gets a positive speed | distance between the two table positions | not executed | ObjectTracking.StationaryBallMovesAsWritten | ObjectTracking.StationaryBallHasNoSpeed |
| fastapi-app/api/middlewares/middlewares.py:44-46 | a failed decode is expected to return None, but `decode_access_token` raises, so the exception escapes the middleware | a request to a private path with an expired `access_token` cookie | 401 "not valid token" | not executed | Middlewares.BadTokenEscapesAsWritten | Middlewares.BadTokenRejected |
