/** The ball/racket/player bookkeeping of `ObjectTracker`
    (cv/gamecode/object_tracker.py) once the detector has run: routing of
    detections by class, side assignment, choice of the tracked ball,
    carry-forward of the last ball, the bounded ball history and the ball
    speed.

    The detector's output is the input `detections`; the homography
    projection of a pixel point onto the table is the black box `project`,
    fixed when the tracker is built; the float square root is the parameter
    `sqrt` (see `Geometry.IsSqrt`); the clock reading is `now`. */
module ObjectTracking {
  import opened Wrappers
  import opened Geometry
  import Deques

  // Class ids of config.py.
  const BallClassId: int := 2
  const RacketClassId: int := 1
  const PlayerClassId: int := 3
  const DefaultMaxBallHistory: nat := 60

  /** One detector box: class id, integer pixel box and confidence. */
  datatype Detection = Detection(cls: int, box: Box, conf: real)

  datatype Candidate = Candidate(center: Point, bbox: Box, conf: real, timestamp: real)

  /** The ball dictionary of `detect_objects`. */
  datatype BallData = BallData(id: int, bbox: Box, center: Point, posTable: Point, conf: real, timestamp: real, speed: real)

  datatype RacketEntry = RacketEntry(bbox: Box, playerId: int, conf: real, posTable: Point)

  datatype PlayerEntry = PlayerEntry(bbox: Box, center: Point, playerId: int, conf: real)

  datatype DetectionResult = DetectionResult(balls: seq<BallData>, racketPositions: seq<RacketEntry>, players: seq<PlayerEntry>, timestamp: real)

  /** `int((a + b) / 2)`: true division, then truncation toward zero. */
  function TruncHalf(n: int): (h: int)
    ensures n >= 0 ==> h == n / 2
    ensures 2 * h == n || 2 * h == n - 1 || 2 * h == n + 1
    ensures -1 <= n <= 1 ==> h == 0
  {
    if n >= 0 then n / 2 else -((-n) / 2)
  }

  /** `(a + b) // 2`: floor division. */
  function FloorHalf(n: int): (h: int)
    ensures 2 * h == n || 2 * h == n - 1
  {
    n / 2
  }

  /** The pixel centre `detect_objects` computes for every box. */
  function Centre(b: Box): Point
  {
    Point(TruncHalf(b.x1 + b.x2), TruncHalf(b.y1 + b.y2))
  }

  /** `_process_racket`: side by the floored centre against the middle
      column of the frame. */
  function ProcessRacket(b: Box, conf: real, frameWidth: int, project: Point -> Point): (r: RacketEntry)
    ensures r.bbox == b && r.conf == conf
    ensures r.playerId == 0 <==> FloorHalf(b.x1 + b.x2) < frameWidth / 2
    ensures r.playerId == 0 || r.playerId == 1
    ensures r.posTable == project(Point(FloorHalf(b.x1 + b.x2), FloorHalf(b.y1 + b.y2)))
  {
    var cx := (b.x1 + b.x2) / 2;
    var cy := (b.y1 + b.y2) / 2;
    var playerId := if cx < frameWidth / 2 then 0 else 1;
    RacketEntry(b, playerId, conf, project(Point(cx, cy)))
  }

  /** `_process_player`: side by the (truncated) centre passed in. */
  function ProcessPlayer(cx: int, cy: int, b: Box, conf: real, frameWidth: int): (p: PlayerEntry)
    ensures p.bbox == b && p.center == Point(cx, cy) && p.conf == conf
    ensures p.playerId == 0 <==> cx < frameWidth / 2
    ensures p.playerId == 0 || p.playerId == 1
  {
    var playerId := if cx < frameWidth / 2 then 0 else 1;
    PlayerEntry(b, Point(cx, cy), playerId, conf)
  }

  /** The ball candidates among `dets`, in detection order. */
  function BallCandidates(dets: seq<Detection>, now: real): seq<Candidate>
  {
    if dets == [] then []
    else
      var d := dets[|dets| - 1];
      BallCandidates(dets[..|dets| - 1], now) +
        (if d.cls == BallClassId then [Candidate(Centre(d.box), d.box, d.conf, now)] else [])
  }

  /** The racket entries among `dets`, in detection order. */
  function Rackets(dets: seq<Detection>, frameWidth: int, project: Point -> Point): seq<RacketEntry>
  {
    if dets == [] then []
    else
      var d := dets[|dets| - 1];
      Rackets(dets[..|dets| - 1], frameWidth, project) +
        (if d.cls == RacketClassId then [ProcessRacket(d.box, d.conf, frameWidth, project)] else [])
  }

  /** The player entries among `dets`, in detection order. */
  function Players(dets: seq<Detection>, frameWidth: int): seq<PlayerEntry>
  {
    if dets == [] then []
    else
      var d := dets[|dets| - 1];
      var c := Centre(d.box);
      Players(dets[..|dets| - 1], frameWidth) +
        (if d.cls == PlayerClassId then [ProcessPlayer(c.x, c.y, d.box, d.conf, frameWidth)] else [])
  }

  /** The number of detections of class `cls`. */
  function CountClass(dets: seq<Detection>, cls: int): nat
  {
    if dets == [] then 0
    else CountClass(dets[..|dets| - 1], cls) + (if dets[|dets| - 1].cls == cls then 1 else 0)
  }

  /** Each ball, racket and player detection yields exactly one entry of its
      kind; every other class is dropped; rackets and players each get a
      side, 0 exactly when their centre lies left of the frame middle. */
  lemma {:induction false} RoutingCounts(dets: seq<Detection>, now: real, frameWidth: int, project: Point -> Point)
    ensures |BallCandidates(dets, now)| == CountClass(dets, BallClassId)
    ensures |Rackets(dets, frameWidth, project)| == CountClass(dets, RacketClassId)
    ensures |Players(dets, frameWidth)| == CountClass(dets, PlayerClassId)
    ensures |BallCandidates(dets, now)| + |Rackets(dets, frameWidth, project)| + |Players(dets, frameWidth)| <= |dets|
    ensures forall r :: r in Rackets(dets, frameWidth, project) ==>
      (r.playerId == 0 <==> FloorHalf(r.bbox.x1 + r.bbox.x2) < frameWidth / 2)
    ensures forall p :: p in Players(dets, frameWidth) ==> (p.playerId == 0 <==> p.center.x < frameWidth / 2)
  {
    if dets != [] {
      RoutingCounts(dets[..|dets| - 1], now, frameWidth, project);
    }
  }

  /** The index of the first candidate at minimal distance from `last`
      among the first `n`. */
  function NearestFrom(cands: seq<Candidate>, last: Point, n: nat): (k: nat)
    requires 0 < n <= |cands|
    ensures k < n
    ensures forall j :: 0 <= j < n ==> SqDist(cands[k].center, last) <= SqDist(cands[j].center, last)
    ensures forall j :: 0 <= j < k ==> SqDist(cands[k].center, last) < SqDist(cands[j].center, last)
  {
    if n == 1 then 0
    else
      var k := NearestFrom(cands, last, n - 1);
      if SqDist(cands[n - 1].center, last) < SqDist(cands[k].center, last) then n - 1 else k
  }

  /** The candidate `detect_objects` follows: the first one when no ball
      was seen before, otherwise the first at minimal distance from the
      last ball's centre (`min` with a key keeps the first minimum). Since
      the square root is increasing, comparing squared distances picks the
      same candidate as comparing distances (`Geometry.SqrtMonotone`). */
  function SelectCandidate(cands: seq<Candidate>, last: Option<BallData>): (k: nat)
    requires cands != []
    ensures k < |cands|
    ensures last.None? ==> k == 0
    ensures last.Some? ==>
      (forall j :: 0 <= j < |cands| ==> SqDist(cands[k].center, last.value.center) <= SqDist(cands[j].center, last.value.center)) &&
      (forall j :: 0 <= j < k ==> SqDist(cands[k].center, last.value.center) < SqDist(cands[j].center, last.value.center))
  {
    match last
    case None => 0
    case Some(b) => NearestFrom(cands, b.center, |cands|)
  }

  /** `_calculate_speed(center, timestamp)` as written: the distance from
      the new ball's PIXEL centre to the previous ball's TABLE position,
      over the elapsed time; 0.0 without history or when time did not
      advance. */
  function SpeedAsWritten(history: seq<BallData>, center: Point, timestamp: real, sqrt: real -> real): (v: real)
    ensures history == [] ==> v == 0.0
    ensures history != [] && timestamp <= history[|history| - 1].timestamp ==> v == 0.0
    ensures history != [] && timestamp > history[|history| - 1].timestamp ==>
      v * (timestamp - history[|history| - 1].timestamp) == Distance(center, history[|history| - 1].posTable, sqrt)
    ensures IsSqrt(sqrt) ==> v >= 0.0
  {
    if history == [] then 0.0
    else
      var prev := history[|history| - 1];
      var dt := timestamp - prev.timestamp;
      if dt <= 0.0 then 0.0 else Distance(center, prev.posTable, sqrt) / dt
  }

  /** The ball speed with both ends in table coordinates: the distance
      from the previous ball's table position to the new one's, over the
      elapsed time; 0.0 without history or when time did not advance. */
  function BallSpeed(history: seq<BallData>, posTable: Point, timestamp: real, sqrt: real -> real): (v: real)
    ensures history == [] ==> v == 0.0
    ensures history != [] && timestamp <= history[|history| - 1].timestamp ==> v == 0.0
    ensures history != [] && timestamp > history[|history| - 1].timestamp ==>
      v == CalculateSpeed(history[|history| - 1].posTable, posTable, history[|history| - 1].timestamp, timestamp, sqrt)
    ensures IsSqrt(sqrt) ==> v >= 0.0
  {
    if history == [] then 0.0
    else
      var prev := history[|history| - 1];
      var dt := timestamp - prev.timestamp;
      if dt <= 0.0 then 0.0
      else
        SqDistSymmetric(posTable, prev.posTable);
        Distance(posTable, prev.posTable, sqrt) / dt
  }

  /** A ball that did not move has speed 0. */
  lemma StationaryBallHasNoSpeed(history: seq<BallData>, posTable: Point, timestamp: real, sqrt: real -> real)
    requires IsSqrt(sqrt) && history != [] && history[|history| - 1].posTable == posTable
    ensures BallSpeed(history, posTable, timestamp, sqrt) == 0.0
  {
    DistanceIsMetricLike(posTable, posTable, sqrt);
  }

  /** As written, a ball resting at pixel (500, 300) whose table position is
      (100, 50) is given a positive speed, one frame after the previous
      sighting at the very same place. */
  lemma StationaryBallMovesAsWritten(sqrt: real -> real)
    requires IsSqrt(sqrt)
    ensures var prev := BallData(1, Box(490, 290, 510, 310), Point(500, 300), Point(100, 50), 0.9, 0.0, 0.0);
      SpeedAsWritten([prev], Point(500, 300), 1.0, sqrt) > 0.0 &&
      BallSpeed([prev], Point(100, 50), 1.0, sqrt) == 0.0
  {
    var prev := BallData(1, Box(490, 290, 510, 310), Point(500, 300), Point(100, 50), 0.9, 0.0, 0.0);
    DistanceIsMetricLike(Point(500, 300), Point(100, 50), sqrt);
    StationaryBallHasNoSpeed([prev], Point(100, 50), 1.0, sqrt);
  }

  /** The ball `detect_objects` reports for the chosen candidate: fixed
      id 1, the candidate's box, centre, confidence and time, its table
      position, and its speed measured between table positions (the
      corrected speed, not the pixel-to-table one of the code as written). */
  function NewBall(c: Candidate, history: seq<BallData>, project: Point -> Point, sqrt: real -> real): (b: BallData)
    ensures b.id == 1 && b.bbox == c.bbox && b.center == c.center && b.conf == c.conf && b.timestamp == c.timestamp
    ensures b.posTable == project(c.center)
    ensures b.speed == BallSpeed(history, b.posTable, c.timestamp, sqrt)
    ensures IsSqrt(sqrt) ==> b.speed >= 0.0
  {
    var posTable := project(c.center);
    BallData(1, c.bbox, c.center, posTable, c.conf, c.timestamp, BallSpeed(history, posTable, c.timestamp, sqrt))
  }

  /** The tracker's fields (besides the detector and the projection). */
  datatype Tracker = Tracker(maxBallHistory: nat, ballHistory: seq<BallData>, lastBallData: Option<BallData>,
                             frameCount: int, lastDetectionTime: real)

  datatype Detected = Detected(tracker: Tracker, result: DetectionResult)

  /** `detect_objects` after the detector has produced `dets`. */
  function DetectStep(t: Tracker, dets: seq<Detection>, frameWidth: int, now: real,
                      project: Point -> Point, sqrt: real -> real): (d: Detected)
  {
    var cands := BallCandidates(dets, now);
    var t1 := t.(frameCount := t.frameCount + 1);
    var rackets := Rackets(dets, frameWidth, project);
    var players := Players(dets, frameWidth);
    if cands != [] then
      var ball := NewBall(cands[SelectCandidate(cands, t.lastBallData)], t.ballHistory, project, sqrt);
      var t2 := t1.(lastBallData := Some(ball),
                    ballHistory := Deques.Append(t.ballHistory, ball, t.maxBallHistory),
                    lastDetectionTime := now);
      Detected(t2, DetectionResult([ball], rackets, players, now))
    else
      var balls := if t.lastBallData.Some? then [t.lastBallData.value] else [];
      Detected(t1.(lastDetectionTime := now), DetectionResult(balls, rackets, players, now))
  }

  /** The history is bounded, and the last ball is the newest history entry
      (or there is neither). */
  ghost predicate TrackerInv(t: Tracker)
  {
    |t.ballHistory| <= t.maxBallHistory &&
    (t.lastBallData.None? ==> t.ballHistory == []) &&
    (t.lastBallData.Some? && t.maxBallHistory > 0 ==>
       t.ballHistory != [] && t.ballHistory[|t.ballHistory| - 1] == t.lastBallData.value)
  }

  /** What one `detect_objects` call promises. */
  lemma DetectStepSpec(t: Tracker, dets: seq<Detection>, frameWidth: int, now: real,
                       project: Point -> Point, sqrt: real -> real)
    requires TrackerInv(t)
    ensures var d := DetectStep(t, dets, frameWidth, now, project, sqrt);
      var cands := BallCandidates(dets, now);
      TrackerInv(d.tracker) &&
      d.tracker.frameCount == t.frameCount + 1 &&
      d.tracker.lastDetectionTime == now && d.result.timestamp == now &&
      d.result.racketPositions == Rackets(dets, frameWidth, project) &&
      d.result.players == Players(dets, frameWidth) &&
      // a fresh ball: id 1, remembered, and appended once to the history
      (cands != [] ==>
         |d.result.balls| == 1 && d.result.balls[0].id == 1 &&
         d.result.balls[0].center == cands[SelectCandidate(cands, t.lastBallData)].center &&
         d.result.balls[0].posTable == project(d.result.balls[0].center) &&
         d.result.balls[0].speed == BallSpeed(t.ballHistory, d.result.balls[0].posTable, d.result.balls[0].timestamp, sqrt) &&
         d.tracker.lastBallData == Some(d.result.balls[0]) &&
         d.tracker.ballHistory == Deques.Append(t.ballHistory, d.result.balls[0], t.maxBallHistory)) &&
      // no detection: the last ball again, history untouched
      (cands == [] && t.lastBallData.Some? ==>
         d.result.balls == [t.lastBallData.value] && d.tracker.ballHistory == t.ballHistory &&
         d.tracker.lastBallData == t.lastBallData) &&
      (cands == [] && t.lastBallData.None? ==> d.result.balls == [] && d.tracker.ballHistory == t.ballHistory)
  {
  }

  /** The tracker: the fields of `ObjectTracker` with the detector's output
      taken as an input. */
  class ObjectTracker {
    const homography: Point -> Point
    const maxBallHistory: nat
    var ballHistory: seq<BallData>
    var lastBallData: Option<BallData>
    var frameCount: int
    var lastDetectionTime: real

    ghost function Snap(): Tracker
      reads this
    {
      Tracker(maxBallHistory, ballHistory, lastBallData, frameCount, lastDetectionTime)
    }

    ghost predicate Valid()
      reads this
    {
      TrackerInv(Snap())
    }

    /** `__init__(model_path, homography_matrix, max_ball_history)`; `now`
        is the clock reading taken for `last_detection_time`. */
    constructor(homographyMatrix: Point -> Point, maxHistory: nat, now: real)
      ensures Snap() == Tracker(maxHistory, [], None, 0, now) && homography == homographyMatrix
      ensures Valid()
    {
      homography := homographyMatrix;
      maxBallHistory := maxHistory;
      ballHistory := [];
      lastBallData := None;
      frameCount := 0;
      lastDetectionTime := now;
    }

    /** The loop of `detect_objects` over the frame's boxes: ball boxes
        become candidates, racket and player boxes are processed at once. */
    method ClassifyDetections(detections: seq<Detection>, frameWidth: int, currentTime: real)
      returns (ballCandidates: seq<Candidate>, trackedRackets: seq<RacketEntry>, players: seq<PlayerEntry>)
      ensures ballCandidates == BallCandidates(detections, currentTime)
      ensures trackedRackets == Rackets(detections, frameWidth, homography)
      ensures players == Players(detections, frameWidth)
    {
      trackedRackets := [];
      players := [];
      ballCandidates := [];
      var i := 0;
      while i < |detections|
        invariant 0 <= i <= |detections|
        invariant ballCandidates == BallCandidates(detections[..i], currentTime)
        invariant trackedRackets == Rackets(detections[..i], frameWidth, homography)
        invariant players == Players(detections[..i], frameWidth)
      {
        var box := detections[i];
        var cx := TruncHalf(box.box.x1 + box.box.x2);
        var cy := TruncHalf(box.box.y1 + box.box.y2);
        if box.cls == BallClassId {
          ballCandidates := ballCandidates + [Candidate(Point(cx, cy), box.box, box.conf, currentTime)];
        } else if box.cls == RacketClassId {
          trackedRackets := trackedRackets + [ProcessRacket(box.box, box.conf, frameWidth, homography)];
        } else if box.cls == PlayerClassId {
          players := players + [ProcessPlayer(cx, cy, box.box, box.conf, frameWidth)];
        }
        assert detections[..i + 1][..i] == detections[..i];
        i := i + 1;
      }
      assert detections[..i] == detections;
    }

    /** `detect_objects(frame)` on the detector's boxes for the frame. */
    method DetectObjects(detections: seq<Detection>, frameWidth: int, now: real, sqrt: real -> real)
      returns (res: DetectionResult)
      modifies this
      ensures Detected(Snap(), res) == DetectStep(old(Snap()), detections, frameWidth, now, homography, sqrt)
      ensures old(Valid()) ==> Valid()
    {
      ghost var before := Snap();
      frameCount := frameCount + 1;
      var currentTime := now;
      var trackedBalls: seq<BallData> := [];
      var ballCandidates, trackedRackets, players := ClassifyDetections(detections, frameWidth, currentTime);
      var ballData: Option<BallData> := None;
      if ballCandidates != [] {
        var best := SelectCandidate(ballCandidates, lastBallData);
        var ball := NewBall(ballCandidates[best], ballHistory, homography, sqrt);
        ballData := Some(ball);
        lastBallData := ballData;
        ballHistory := Deques.Append(ballHistory, ball, maxBallHistory);
      } else if lastBallData.Some? {
        ballData := lastBallData;
      }
      if ballData.Some? {
        trackedBalls := trackedBalls + [ballData.value];
      }
      lastDetectionTime := currentTime;
      res := DetectionResult(trackedBalls, trackedRackets, players, currentTime);
      assert Detected(Snap(), res) == DetectStep(before, detections, frameWidth, now, homography, sqrt);
      if TrackerInv(before) {
        DetectStepSpec(before, detections, frameWidth, now, homography, sqrt);
      }
    }

    /** `get_ball_trajectory`: the history, oldest first. */
    method GetBallTrajectory() returns (trajectory: seq<BallData>)
      ensures trajectory == ballHistory
      ensures Valid() ==> |trajectory| <= maxBallHistory
    {
      trajectory := ballHistory;
    }

    /** `clear_history`. */
    method ClearHistory()
      modifies this
      ensures Snap() == old(Snap()).(ballHistory := [], lastBallData := None)
      ensures Valid()
    {
      ballHistory := [];
      lastBallData := None;
    }
  }
}
