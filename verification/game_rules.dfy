/** The pure rules of the ping-pong referee (cv/gamecode/game_logic.py and
    the constants of cv/gamecode/config.py): which half of the table the ball
    is on, the event predicates evaluated over the ball trajectory, the
    choice of the hitting racket, the point-end reasons, the point winner
    and the end-of-match rule.

    Table coordinates are the integer pairs produced by the projection of a
    pixel centre onto the 1000 x 500 top view of the table. */
module GameRules {
  import opened Wrappers
  import Geometry

  // Constants of cv/gamecode/config.py.
  const TableWidth: int := 1000
  const TableHeight: int := 500
  const NetCrossingMargin: int := 20
  const GameStartSpeedThreshold: real := 50.0
  const MaxBallHistory: nat := 60
  const MaxSpeedHistory: nat := 10
  const WinningScore: int := 11
  const MinLead: int := 2
  const ServesPerTurn: int := 2

  /** A racket closer than this to the ball (in table units) may be the hitter. */
  const HitRadius: int := 100
  /** A vertical step must exceed this to count towards a bounce. */
  const BounceMinStep: int := 5
  /** Seconds after the start of a point before the referee waits again. */
  const ResumeDelay: real := 2.0

  /** One entry of the ball trajectory deque. */
  datatype Sample = Sample(pos: Geometry.Point, speed: real, time: real, side: int)

  /** `_get_ball_side`: player 0 owns the left half, up to but excluding the
      middle line x = 500. */
  function BallSide(p: Geometry.Point): (side: int)
    ensures side == 0 || side == 1
    ensures side == 0 <==> p.x < 500
  {
    if p.x < TableWidth / 2 then 0 else 1
  }

  /** `_check_net_crossing`: the last two samples lie on different halves. */
  predicate NetCrossing(traj: seq<Sample>)
  {
    |traj| >= 2 && BallSide(traj[|traj| - 2].pos) != BallSide(traj[|traj| - 1].pos)
  }

  lemma NetCrossingMeansStraddle(traj: seq<Sample>)
    requires |traj| >= 2
    ensures NetCrossing(traj) <==>
      (traj[|traj| - 2].pos.x < 500 <= traj[|traj| - 1].pos.x ||
       traj[|traj| - 1].pos.x < 500 <= traj[|traj| - 2].pos.x)
  {
  }

  /** `_check_bounce`: `None` for "no bounce", `Some(side)` for a bounce on
      `side`. A bounce is a sign change of the vertical step over the last
      three samples with both steps longer than 5; the side reported is the
      middle sample's side. */
  function Bounce(traj: seq<Sample>): (r: Option<int>)
    ensures |traj| < 3 ==> r == None
    ensures r.Some? <==>
      |traj| >= 3 &&
      var dy1 := traj[|traj| - 2].pos.y - traj[|traj| - 3].pos.y;
      var dy2 := traj[|traj| - 1].pos.y - traj[|traj| - 2].pos.y;
      (dy1 > BounceMinStep && dy2 < -BounceMinStep) || (dy1 < -BounceMinStep && dy2 > BounceMinStep)
    ensures r.Some? ==> r.value == BallSide(traj[|traj| - 2].pos)
  {
    if |traj| < 3 then None
    else
      var pos1 := traj[|traj| - 3].pos;
      var pos2 := traj[|traj| - 2].pos;
      var pos3 := traj[|traj| - 1].pos;
      var dy1 := pos2.y - pos1.y;
      var dy2 := pos3.y - pos2.y;
      SignOfProduct(dy1, dy2);
      if dy1 * dy2 < 0 && Abs(dy1) > BounceMinStep && Abs(dy2) > BounceMinStep then Some(BallSide(pos2))
      else None
  }

  function Abs(n: int): int { if n < 0 then -n else n }

  lemma SignOfProduct(a: int, b: int)
    ensures a * b < 0 <==> (a > 0 && b < 0) || (a < 0 && b > 0)
  {
    if a > 0 && b > 0 {
      assert a * b > 0;
    } else if a < 0 && b < 0 {
      assert (-a) * (-b) > 0;
    } else if a > 0 && b < 0 {
      assert a * (-b) > 0;
    } else if a < 0 && b > 0 {
      assert (-a) * b > 0;
    }
  }

  /** `_check_out_of_table`: the edge of the table counts as on the table. */
  predicate OutOfTable(p: Geometry.Point)
  {
    p.x < 0 || p.x > TableWidth || p.y < 0 || p.y > TableHeight
  }

  lemma OnTableIsClosedRectangle(p: Geometry.Point)
    ensures !OutOfTable(p) <==> 0 <= p.x <= 1000 && 0 <= p.y <= 500
  {
  }

  /** `_check_net_touch`: the ball has just crossed the middle line and its
      last sample lies in the net zone, the band 480 <= x <= 520 across the
      table. */
  predicate NetTouch(traj: seq<Sample>)
  {
    NetCrossing(traj) &&
    var last := traj[|traj| - 1].pos;
    TableWidth / 2 - NetCrossingMargin <= last.x <= TableWidth / 2 + NetCrossingMargin &&
    0 <= last.y <= TableHeight
  }

  /** A net touch is a net crossing whose last sample lies in the net zone:
      two samples straddling x = 500, the last with 480 <= x <= 520 and on
      the table across its width. */
  lemma NetTouchMeansNetZone(traj: seq<Sample>)
    ensures NetTouch(traj) <==>
      |traj| >= 2 &&
      (traj[|traj| - 2].pos.x < 500 <= traj[|traj| - 1].pos.x ||
       traj[|traj| - 1].pos.x < 500 <= traj[|traj| - 2].pos.x) &&
      480 <= traj[|traj| - 1].pos.x <= 520 && 0 <= traj[|traj| - 1].pos.y <= 500
  {
    if |traj| >= 2 {
      NetCrossingMeansStraddle(traj);
    }
  }

  /** `_check_double_bounce`. */
  predicate DoubleBounce(bouncesInRow: int)
  {
    bouncesInRow >= 2
  }

  /** `_check_valid_serve`: at least three samples and a side change between
      two neighbouring samples somewhere in the trajectory. The serving side
      passed by the caller is not consulted. */
  predicate ValidServe(traj: seq<Sample>)
  {
    |traj| >= 3 &&
    exists i :: 0 <= i < |traj| - 1 && BallSide(traj[i].pos) != BallSide(traj[i + 1].pos)
  }

  /** A serve is valid exactly when the trajectory holds samples on both
      halves of the table (and there are at least three of them). */
  lemma {:induction false} ValidServeIffBothSides(traj: seq<Sample>)
    ensures ValidServe(traj) <==>
      |traj| >= 3 &&
      (exists i, j :: 0 <= i < |traj| && 0 <= j < |traj| && BallSide(traj[i].pos) != BallSide(traj[j].pos))
  {
    if |traj| >= 3 && (exists i, j :: 0 <= i < |traj| && 0 <= j < |traj| && BallSide(traj[i].pos) != BallSide(traj[j].pos)) {
      var i, j :| 0 <= i < |traj| && 0 <= j < |traj| && BallSide(traj[i].pos) != BallSide(traj[j].pos);
      if i < j {
        AdjacentChange(traj, i, j);
      } else {
        AdjacentChange(traj, j, i);
      }
    }
  }

  lemma {:induction false} AdjacentChange(traj: seq<Sample>, i: int, j: int)
    requires 0 <= i < j < |traj|
    requires BallSide(traj[i].pos) != BallSide(traj[j].pos)
    ensures exists k :: i <= k < j && BallSide(traj[k].pos) != BallSide(traj[k + 1].pos)
    decreases j - i
  {
    if BallSide(traj[i].pos) == BallSide(traj[i + 1].pos) {
      AdjacentChange(traj, i + 1, j);
    }
  }

  /** Four times the squared distance from the centre of `b` to `p`; the
      source compares the float distance `sqrt` of a quarter of this. */
  function CentreSqDist4(b: Geometry.Box, p: Geometry.Point): nat
  {
    var dx := b.x1 + b.x2 - 2 * p.x;
    var dy := b.y1 + b.y2 - 2 * p.y;
    assert dx * dx >= 0 && dy * dy >= 0;
    dx * dx + dy * dy
  }

  /** The squared Euclidean distance from the (real-valued) centre of `b`
      to `p`. */
  function CentreSqDistReal(b: Geometry.Box, p: Geometry.Point): real
  {
    var cx := (b.x1 + b.x2) as real / 2.0;
    var cy := (b.y1 + b.y2) as real / 2.0;
    var dx := cx - p.x as real;
    var dy := cy - p.y as real;
    dx * dx + dy * dy
  }

  /** `calculate_distance(racket_center, ball_pos)`. As in the source, the
      racket centre comes from its bounding box in frame pixels while the
      ball position is in table coordinates; the two are compared as they
      are. */
  function CentreDistance(b: Geometry.Box, p: Geometry.Point, sqrt: real -> real): real
  {
    sqrt(CentreSqDistReal(b, p))
  }

  lemma CentreDistanceIsQuarter(b: Geometry.Box, p: Geometry.Point, sqrt: real -> real)
    ensures CentreDistance(b, p, sqrt) == sqrt(CentreSqDist4(b, p) as real / 4.0)
  {
    var ix := b.x1 + b.x2 - 2 * p.x;
    var iy := b.y1 + b.y2 - 2 * p.y;
    var hx := (b.x1 + b.x2) as real / 2.0 - p.x as real;
    var hy := (b.y1 + b.y2) as real / 2.0 - p.y as real;
    assert hx == ix as real / 2.0;
    assert hy == iy as real / 2.0;
    HalfSquare(ix);
    HalfSquare(iy);
    assert CentreSqDistReal(b, p) == (ix * ix) as real / 4.0 + (iy * iy) as real / 4.0;
    AddQuarters(ix * ix, iy * iy);
    assert CentreSqDist4(b, p) == ix * ix + iy * iy;
  }

  lemma AddQuarters(m: int, n: int)
    ensures m as real / 4.0 + n as real / 4.0 == (m + n) as real / 4.0
  {
  }

  lemma HalfSquare(i: int)
    ensures (i as real / 2.0) * (i as real / 2.0) == (i * i) as real / 4.0
  {
    CastSquare(i);
  }

  lemma CastSquare(i: int)
    ensures (i * i) as real == i as real * i as real
  {
  }

  /** The racket distance tests of `_determine_hitter` on exact integers:
      closer than `HitRadius`, and closer than another racket. */
  lemma HitterDistanceTests(a: Geometry.Box, b: Geometry.Box, p: Geometry.Point, sqrt: real -> real)
    requires Geometry.IsSqrt(sqrt)
    ensures CentreDistance(a, p, sqrt) < HitRadius as real <==> CentreSqDist4(a, p) < 4 * HitRadius * HitRadius
    ensures CentreDistance(a, p, sqrt) < CentreDistance(b, p, sqrt) <==> CentreSqDist4(a, p) < CentreSqDist4(b, p)
  {
    CentreDistanceIsQuarter(a, p, sqrt);
    CentreDistanceIsQuarter(b, p, sqrt);
    var qa := CentreSqDist4(a, p) as real / 4.0;
    var qb := CentreSqDist4(b, p) as real / 4.0;
    Geometry.SqrtMonotone(qa, qb, sqrt);
    Geometry.SqrtBelow(qa, HitRadius as real, sqrt);
  }

  /** The result of `_determine_hitter` after the first `n` rackets: the
      index chosen so far and its (scaled squared) distance. */
  function HitterScan(rackets: seq<Option<Geometry.Box>>, p: Geometry.Point, n: nat): (best: Option<(int, nat)>)
    requires n <= |rackets|
    ensures best.Some? ==>
      0 <= best.value.0 < n && rackets[best.value.0].Some? &&
      best.value.1 == CentreSqDist4(rackets[best.value.0].value, p) &&
      best.value.1 < 4 * HitRadius * HitRadius
  {
    if n == 0 then None
    else
      var prev := HitterScan(rackets, p, n - 1);
      match rackets[n - 1]
      case None => prev
      case Some(b) =>
        var d := CentreSqDist4(b, p);
        if (prev.None? || d < prev.value.1) && d < 4 * HitRadius * HitRadius then Some((n - 1, d))
        else prev
  }

  /** `_determine_hitter`: the index (in detection order) of the racket
      nearest to the ball among those within `HitRadius`; the first one on a
      tie; `None` when no racket is that close. */
  function NearestHitter(rackets: seq<Option<Geometry.Box>>, p: Geometry.Point): (h: Option<int>)
  {
    match HitterScan(rackets, p, |rackets|)
    case None => None
    case Some(best) => Some(best.0)
  }

  predicate InReach(rackets: seq<Option<Geometry.Box>>, p: Geometry.Point, j: int)
    requires 0 <= j < |rackets|
  {
    rackets[j].Some? && CentreSqDist4(rackets[j].value, p) < 4 * HitRadius * HitRadius
  }

  /** The scan keeps the first racket in reach at minimal distance. */
  lemma {:induction false} HitterScanIsFirstNearest(rackets: seq<Option<Geometry.Box>>, p: Geometry.Point, n: nat)
    requires n <= |rackets|
    ensures HitterScan(rackets, p, n).None? <==> forall j :: 0 <= j < n ==> !InReach(rackets, p, j)
    ensures HitterScan(rackets, p, n).Some? ==>
      var k := HitterScan(rackets, p, n).value.0;
      var d := HitterScan(rackets, p, n).value.1;
      (forall j :: 0 <= j < n && InReach(rackets, p, j) ==> d <= CentreSqDist4(rackets[j].value, p)) &&
      (forall j :: 0 <= j < k && InReach(rackets, p, j) ==> d < CentreSqDist4(rackets[j].value, p))
  {
    if n > 0 {
      HitterScanIsFirstNearest(rackets, p, n - 1);
      var prev := HitterScan(rackets, p, n - 1);
      var cur := HitterScan(rackets, p, n);
      if cur != prev {
        // the last racket replaced the earlier choice: it is strictly closer
        // than every earlier racket in reach
        assert cur.Some? && cur.value.0 == n - 1 && InReach(rackets, p, n - 1);
        assert forall j :: 0 <= j < n - 1 && InReach(rackets, p, j) ==> cur.value.1 < CentreSqDist4(rackets[j].value, p);
      } else if cur.Some? {
        assert InReach(rackets, p, n - 1) ==> cur.value.1 <= CentreSqDist4(rackets[n - 1].value, p);
      } else {
        assert !InReach(rackets, p, n - 1);
      }
    }
  }

  lemma NearestHitterSpec(rackets: seq<Option<Geometry.Box>>, p: Geometry.Point)
    ensures NearestHitter(rackets, p).None? <==> forall j :: 0 <= j < |rackets| ==> !InReach(rackets, p, j)
    ensures NearestHitter(rackets, p).Some? ==>
      var k := NearestHitter(rackets, p).value;
      0 <= k < |rackets| && InReach(rackets, p, k) &&
      (forall j :: 0 <= j < |rackets| && InReach(rackets, p, j) ==>
         CentreSqDist4(rackets[k].value, p) <= CentreSqDist4(rackets[j].value, p)) &&
      (forall j :: 0 <= j < k && InReach(rackets, p, j) ==>
         CentreSqDist4(rackets[k].value, p) < CentreSqDist4(rackets[j].value, p))
  {
    HitterScanIsFirstNearest(rackets, p, |rackets|);
  }

  /** The reasons `_check_point_end_conditions` tries, in this order. */
  datatype EndReason = DoubleBounceReason | OutOfTableReason | NetTouchReason

  /** `_check_point_end_conditions`: nothing on an empty trajectory;
      otherwise the first condition that holds. */
  function PointEndReason(bouncesInRow: int, traj: seq<Sample>): (r: Option<EndReason>)
    ensures traj == [] ==> r == None
    ensures r == Some(DoubleBounceReason) <==> traj != [] && DoubleBounce(bouncesInRow)
    ensures r == Some(OutOfTableReason) <==>
      traj != [] && !DoubleBounce(bouncesInRow) && OutOfTable(traj[|traj| - 1].pos)
    ensures r == Some(NetTouchReason) <==>
      traj != [] && !DoubleBounce(bouncesInRow) && !OutOfTable(traj[|traj| - 1].pos) && NetTouch(traj)
    ensures r == None <==>
      traj == [] || (!DoubleBounce(bouncesInRow) && !OutOfTable(traj[|traj| - 1].pos) && !NetTouch(traj))
  {
    if traj == [] then None
    else if DoubleBounce(bouncesInRow) then Some(DoubleBounceReason)
    else if OutOfTable(traj[|traj| - 1].pos) then Some(OutOfTableReason)
    else if NetTouch(traj) then Some(NetTouchReason)
    else None
  }

  /** `_determine_point_winner`. The reason texts are matched by substring:
      only the double-bounce text contains "отскок"; the net-touch text
      ("Касание сетки") does not contain "сетка", so it takes the final
      branch, which gives the same answer. */
  function PointWinner(reason: EndReason, lastBounceSide: Option<int>, lastHitter: Option<int>): (w: int)
    ensures reason == DoubleBounceReason && lastBounceSide.Some? ==> w == 1 - lastBounceSide.value
    ensures reason != DoubleBounceReason && lastHitter.Some? ==> w == 1 - lastHitter.value
    ensures (reason == DoubleBounceReason && lastBounceSide.None?) || (reason != DoubleBounceReason && lastHitter.None?) ==> w == 0
  {
    match reason
    case DoubleBounceReason => if lastBounceSide.Some? then 1 - lastBounceSide.value else 0
    case NetTouchReason => if lastHitter.Some? then 1 - lastHitter.value else 0
    case OutOfTableReason => if lastHitter.Some? then 1 - lastHitter.value else 0
  }

  /** The double-bounce winner is the player opposite the half where the
      ball last bounced. */
  lemma DoubleBounceWinnerIsOpponent(side: int, hitter: Option<int>)
    requires side == 0 || side == 1
    ensures var w := PointWinner(DoubleBounceReason, Some(side), hitter); (w == 0 || w == 1) && w != side
  {
  }

  /** Which element of the two-element `score` list `score[winner]` reaches
      under Python indexing: negative indices count from the end, anything
      outside -2..1 raises IndexError (`None` here). */
  function ScoreSlot(winner: int): (slot: Option<int>)
    ensures slot.Some? <==> -2 <= winner < 2
    ensures slot.Some? ==> (slot.value == 0 || slot.value == 1) && (slot.value - winner) % 2 == 0
  {
    if 0 <= winner < 2 then Some(winner)
    else if -2 <= winner < 0 then Some(winner + 2)
    else None
  }

  /** `_is_match_complete`. */
  predicate IsMatchComplete(score: seq<int>)
    requires |score| == 2
  {
    var hi := if score[0] >= score[1] then score[0] else score[1];
    var lo := if score[0] >= score[1] then score[1] else score[0];
    hi >= WinningScore && hi - lo >= MinLead
  }

  /** The match is over exactly when one player has 11 or more points and
      leads by at least 2. */
  lemma MatchCompleteMeansLeader(score: seq<int>)
    requires |score| == 2
    ensures IsMatchComplete(score) <==>
      (score[0] >= 11 && score[0] - score[1] >= 2) || (score[1] >= 11 && score[1] - score[0] >= 2)
  {
  }

  function Sum(s: seq<real>): real
  {
    if s == [] then 0.0 else Sum(s[..|s| - 1]) + s[|s| - 1]
  }

  /** `np.mean` of a non-empty sequence. */
  function Mean(s: seq<real>): (m: real)
    requires s != []
  {
    Sum(s) / |s| as real
  }

  /** Python's `max` of a non-empty sequence. */
  function Max(s: seq<real>): (m: real)
    requires s != []
    ensures m in s
    ensures forall x :: x in s ==> x <= m
  {
    if |s| == 1 then s[0]
    else
      var rest := Max(s[..|s| - 1]);
      assert forall x :: x in s ==> x in s[..|s| - 1] || x == s[|s| - 1];
      if s[|s| - 1] > rest then s[|s| - 1] else rest
  }

  /** The mean exceeds a threshold exactly when the sum exceeds the threshold
      times the count, so the start-of-play test needs no division. */
  lemma MeanAbove(s: seq<real>, t: real)
    requires s != []
    ensures Mean(s) > t <==> Sum(s) > t * |s| as real
  {
    var n := |s| as real;
    assert Mean(s) * n == Sum(s);
    if Mean(s) > t {
      assert Mean(s) * n > t * n;
    }
    if Sum(s) > t * n {
      if Mean(s) <= t {
        assert Mean(s) * n <= t * n;
      }
    }
  }
}
