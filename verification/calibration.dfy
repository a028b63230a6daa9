/** The interactive table calibrator: the operator clicks the four table
    corners (and optionally the two net ends) on a video frame, with zoom and
    pan, and the calibrator orders the corners for the homography onto a
    1000-unit-wide top view of the table. Coordinates are reals because the
    pan offset becomes fractional after a zoom and then leaks into the
    clicked points. */
module Calibration {
  import opened Wrappers
  import Sorting

  datatype RPoint = RPoint(x: real, y: real)

  datatype Mode = TableMode | NetMode

  /** The mouse events the callback distinguishes; every other event (the
      mouse wheel among them) is `OtherEvent`. */
  datatype MouseEvent = MiddleDown | MouseMove | MiddleUp | LeftDown | RightDown | OtherEvent

  /** The state the calibrator's handlers change. */
  datatype View = View(
    scale: real,
    pan: RPoint,
    dragging: bool,
    dragStart: (int, int),
    points: seq<RPoint>,
    netPoints: seq<RPoint>,
    mode: Mode)

  const MaxDisplayWidth: int := 1200
  const MaxDisplayHeight: int := 800
  const MinScale: real := 0.1
  const MaxScale: real := 3.0
  const ZoomStepSize: real := 0.1
  const TableCorners: nat := 4
  const NetEnds: nat := 2
  const TableWidthCm: real := 152.5
  const TableLengthCm: real := 274.0
  const NetHeightCm: real := 15.25
  const DstWidth: int := 1000
  const DstHeight: int := Trunc(DstWidth as real * (TableLengthCm / TableWidthCm))

  /** Key codes after `& 0xFF`. */
  const KeyEsc: int := 27
  const KeyQuit: int := 'q' as int
  const KeySave: int := 's' as int
  const KeyNextFrame: int := 'f' as int
  const KeyClear: int := 'c' as int
  const KeyTable: int := 't' as int
  const KeyNet: int := 'n' as int
  const KeyResetView: int := '0' as int
  const KeyPlus: int := '+' as int
  const KeyEquals: int := '=' as int
  const KeyMinus: int := '-' as int
  const KeyUnderscore: int := '_' as int
  const KeyProjection: int := 'p' as int
  const KeyRewind: int := 'r' as int

  function Min(a: real, b: real): real { if b < a then b else a }
  function Max(a: real, b: real): real { if b > a then b else a }

  /** Python's `int()` on a float: truncation toward zero. */
  function Trunc(r: real): (n: int)
    ensures 0.0 <= r ==> n as real <= r < n as real + 1.0
    ensures r < 0.0 ==> n as real - 1.0 < r <= n as real
  {
    if 0.0 <= r then r.Floor else -((-r).Floor)
  }

  lemma DstHeightValue()
    ensures DstHeight == 1796
  {
    assert DstWidth as real * (TableLengthCm / TableWidthCm) == 548000.0 / 305.0;
  }

  // ---------------------------------------------------------------------
  // Display scale

  /** `calculate_initial_scale`: fit the frame into 1200 x 800 without
      enlarging it. */
  function InitialScale(w: int, h: int): real
    requires w >= 1 && h >= 1
  {
    Min(Min(MaxDisplayWidth as real / w as real, MaxDisplayHeight as real / h as real), 1.0)
  }

  function DisplaySize(w: int, h: int): (int, int)
    requires w >= 1 && h >= 1
  {
    (Trunc(w as real * InitialScale(w, h)), Trunc(h as real * InitialScale(w, h)))
  }

  lemma ScaledBelow(n: int, s: real, bound: int)
    requires n >= 1 && 0.0 < s && s <= bound as real / n as real
    ensures n as real * s <= bound as real
  {
    assert n as real * (bound as real / n as real) == bound as real;
  }

  /** The initial scale is positive, never enlarges, and the display fits in
      1200 x 800; a frame that already fits is shown at its own size. */
  lemma InitialScaleFits(w: int, h: int)
    requires w >= 1 && h >= 1
    ensures 0.0 < InitialScale(w, h) <= 1.0
    ensures 0 <= DisplaySize(w, h).0 <= MaxDisplayWidth && DisplaySize(w, h).0 <= w
    ensures 0 <= DisplaySize(w, h).1 <= MaxDisplayHeight && DisplaySize(w, h).1 <= h
    ensures w <= MaxDisplayWidth && h <= MaxDisplayHeight ==> InitialScale(w, h) == 1.0 && DisplaySize(w, h) == (w, h)
  {
    var s := InitialScale(w, h);
    assert 0.0 < MaxDisplayWidth as real / w as real;
    assert 0.0 < MaxDisplayHeight as real / h as real;
    ScaledBelow(w, s, MaxDisplayWidth);
    ScaledBelow(h, s, MaxDisplayHeight);
    assert w as real * s <= w as real * 1.0;
    assert h as real * s <= h as real * 1.0;
    if w <= MaxDisplayWidth && h <= MaxDisplayHeight {
      assert 1.0 <= MaxDisplayWidth as real / w as real by {
        assert w as real * 1.0 <= MaxDisplayWidth as real;
      }
      assert 1.0 <= MaxDisplayHeight as real / h as real by {
        assert h as real * 1.0 <= MaxDisplayHeight as real;
      }
    }
  }

  // ---------------------------------------------------------------------
  // Mouse

  /** Window coordinate to original-frame coordinate, undoing scale and pan. */
  function ToOriginal(c: int, pan: real, scale: real): real
    requires scale != 0.0
  {
    if scale != 1.0 then Trunc(c as real / scale - pan / scale) as real else c as real - pan
  }

  /** `max(0, min(v, size - 1))`. */
  function ClampToFrame(v: real, size: int): (r: real)
    requires size >= 1
    ensures 0.0 <= r <= (size - 1) as real
    ensures 0.0 <= v <= (size - 1) as real ==> r == v
  {
    Max(0.0, Min(v, (size - 1) as real))
  }

  function ClickPoint(v: View, w: int, h: int, x: int, y: int): RPoint
    requires v.scale != 0.0 && w >= 1 && h >= 1
  {
    RPoint(ClampToFrame(ToOriginal(x, v.pan.x, v.scale), w), ClampToFrame(ToOriginal(y, v.pan.y, v.scale), h))
  }

  /** `mouse_callback` on a `w` x `h` frame. */
  function MouseStep(v: View, w: int, h: int, event: MouseEvent, x: int, y: int): View
    requires v.scale != 0.0 && w >= 1 && h >= 1
  {
    match event
    case MiddleDown => v.(dragging := true, dragStart := (x, y))
    case MouseMove =>
      if v.dragging then
        v.(pan := RPoint(v.pan.x + (x - v.dragStart.0) as real, v.pan.y + (y - v.dragStart.1) as real),
           dragStart := (x, y))
      else v
    case MiddleUp => v.(dragging := false)
    case LeftDown =>
      if v.mode == TableMode && |v.points| < TableCorners then v.(points := v.points + [ClickPoint(v, w, h, x, y)])
      else if v.mode == NetMode && |v.netPoints| < NetEnds then v.(netPoints := v.netPoints + [ClickPoint(v, w, h, x, y)])
      else v
    case RightDown =>
      if v.mode == TableMode && v.points != [] then v.(points := v.points[..|v.points| - 1])
      else if v.mode == NetMode && v.netPoints != [] then v.(netPoints := v.netPoints[..|v.netPoints| - 1])
      else v
    case OtherEvent => v
  }

  predicate InFrame(p: RPoint, w: int, h: int) {
    0.0 <= p.x <= (w - 1) as real && 0.0 <= p.y <= (h - 1) as real
  }

  /** What every handler keeps: a positive scale, at most four table points
      and two net points, and every point inside the frame. */
  ghost predicate Inv(v: View, w: int, h: int) {
    && w >= 1 && h >= 1
    && 0.0 < v.scale
    && |v.points| <= TableCorners
    && |v.netPoints| <= NetEnds
    && (forall i :: 0 <= i < |v.points| ==> InFrame(v.points[i], w, h))
    && (forall i :: 0 <= i < |v.netPoints| ==> InFrame(v.netPoints[i], w, h))
  }

  function InitialView(w: int, h: int): View
    requires w >= 1 && h >= 1
  {
    View(InitialScale(w, h), RPoint(0.0, 0.0), false, (0, 0), [], [], TableMode)
  }

  lemma InitialViewInv(w: int, h: int)
    requires w >= 1 && h >= 1
    ensures Inv(InitialView(w, h), w, h)
  {
    InitialScaleFits(w, h);
  }

  lemma MouseStepKeepsInv(v: View, w: int, h: int, event: MouseEvent, x: int, y: int)
    requires Inv(v, w, h)
    ensures Inv(MouseStep(v, w, h, event, x, y), w, h)
  {
    var p := ClickPoint(v, w, h, x, y);
    assert InFrame(p, w, h);
  }

  /** A click never moves the view, a drag never touches the points, and the
      mode decides which of the two point lists a click may change. */
  lemma MouseStepFrame(v: View, w: int, h: int, event: MouseEvent, x: int, y: int)
    requires v.scale != 0.0 && w >= 1 && h >= 1
    ensures var r := MouseStep(v, w, h, event, x, y);
      && r.scale == v.scale && r.mode == v.mode
      && (event in {LeftDown, RightDown} ==> r.pan == v.pan && r.dragging == v.dragging && r.dragStart == v.dragStart)
      && (event !in {LeftDown, RightDown} ==> r.points == v.points && r.netPoints == v.netPoints)
      && (v.mode == TableMode ==> r.netPoints == v.netPoints)
      && (v.mode == NetMode ==> r.points == v.points)
      && (r.pan != v.pan ==> event == MouseMove && v.dragging)
  {
  }

  /** A left click that adds a point is undone by the right click after it. */
  lemma RightClickUndoesLeftClick(v: View, w: int, h: int, x: int, y: int, x2: int, y2: int)
    requires v.scale != 0.0 && w >= 1 && h >= 1
    requires v.mode == TableMode ==> |v.points| < TableCorners
    requires v.mode == NetMode ==> |v.netPoints| < NetEnds
    ensures MouseStep(MouseStep(v, w, h, LeftDown, x, y), w, h, RightDown, x2, y2) == v
  {
    var p := ClickPoint(v, w, h, x, y);
    if v.mode == TableMode {
      assert (v.points + [p])[..|v.points|] == v.points;
    } else {
      assert (v.netPoints + [p])[..|v.netPoints|] == v.netPoints;
    }
  }

  /** A point clicked inside the frame at scale 1 is stored as the frame
      pixel under the cursor. */
  lemma UnscaledClickIsPixel(v: View, w: int, h: int, x: int, y: int)
    requires v.scale == 1.0 && w >= 1 && h >= 1
    requires 0.0 <= x as real - v.pan.x <= (w - 1) as real
    requires 0.0 <= y as real - v.pan.y <= (h - 1) as real
    ensures ClickPoint(v, w, h, x, y) == RPoint(x as real - v.pan.x, y as real - v.pan.y)
  {
  }

  // ---------------------------------------------------------------------
  // Zoom and view reset

  /** `zoom`: clamp the new scale to [0.1, 3.0] and rescale the pan offset by
      the same ratio. */
  function ZoomStep(v: View, change: real): View
  {
    var s := Max(MinScale, Min(MaxScale, v.scale + change));
    if v.scale != 0.0 then v.(scale := s, pan := RPoint(v.pan.x * (s / v.scale), v.pan.y * (s / v.scale)))
    else v.(scale := s)
  }

  /** The zoomed scale is within [0.1, 3.0], moves by exactly `change` when
      that stays in range, and the pan offset measured in original-frame
      units (`pan / scale`) is what it was. */
  lemma ZoomStepSpec(v: View, change: real)
    requires 0.0 < v.scale
    ensures var r := ZoomStep(v, change);
      && MinScale <= r.scale <= MaxScale
      && (MinScale <= v.scale + change <= MaxScale ==> r.scale == v.scale + change)
      && r.pan.x / r.scale == v.pan.x / v.scale
      && r.pan.y / r.scale == v.pan.y / v.scale
      && r.points == v.points && r.netPoints == v.netPoints && r.mode == v.mode
  {
    var r := ZoomStep(v, change);
    var k := r.scale / v.scale;
    assert r.scale == k * v.scale;
    PanRatio(v.pan.x, v.scale, k);
    PanRatio(v.pan.y, v.scale, k);
  }

  lemma PanRatio(p: real, s: real, k: real)
    requires 0.0 < s && 0.0 < k
    ensures (p * k) / (k * s) == p / s
  {
    assert (p * k) / (k * s) == (p / s) * (k / k);
  }

  /** `reset_view`. */
  function ResetStep(v: View): View
  {
    v.(scale := 1.0, pan := RPoint(0.0, 0.0))
  }

  /** After a reset the window shows the frame one to one: a window
      coordinate is its frame coordinate. */
  lemma ResetIsIdentity(v: View, x: int, y: int)
    ensures var r := ResetStep(v);
      ToOriginal(x, r.pan.x, r.scale) == x as real && ToOriginal(y, r.pan.y, r.scale) == y as real
  {
  }

  // ---------------------------------------------------------------------
  // Corner ordering, homography input and the saved calibration

  function X(p: RPoint): real { p.x }
  function Y(p: RPoint): real { p.y }

  /** Top-left, top-right, bottom-right, bottom-left: the two points with the
      smallest `y` (stable by input order) are the top edge, each edge is
      ordered by `x`. */
  function OrderCorners(pts: seq<RPoint>): (r: seq<RPoint>)
    requires |pts| == TableCorners
    ensures |r| == TableCorners && multiset(r) == multiset(pts)
    ensures r[0].x <= r[1].x && r[3].x <= r[2].x
    ensures r[0].y <= r[3].y && r[0].y <= r[2].y
    ensures r[1].y <= r[3].y && r[1].y <= r[2].y
  {
    var byY := Sorting.Sort(pts, Y);
    var top := Sorting.Sort(byY[..2], X);
    var bottom := Sorting.Sort(byY[2..], X);
    EdgesMultiset(byY, top, bottom);
    SortedEdges(pts, byY, top, bottom);
    [top[0], top[1], bottom[1], bottom[0]]
  }

  lemma EdgesMultiset(byY: seq<RPoint>, top: seq<RPoint>, bottom: seq<RPoint>)
    requires |byY| == 4 && |top| == 2 && |bottom| == 2
    requires multiset(top) == multiset(byY[..2]) && multiset(bottom) == multiset(byY[2..])
    ensures multiset([top[0], top[1], bottom[1], bottom[0]]) == multiset(byY)
  {
    assert byY == byY[..2] + byY[2..];
    assert top == [top[0], top[1]];
    assert bottom == [bottom[0], bottom[1]];
    assert [top[0], top[1], bottom[1], bottom[0]] == top + [bottom[1], bottom[0]];
    assert multiset([bottom[1], bottom[0]]) == multiset(bottom);
  }

  /** The corner geometry that follows from sorting by `y` and then each
      half by `x`. */
  lemma EdgesShape(byY: seq<RPoint>, top: seq<RPoint>, bottom: seq<RPoint>)
    requires |byY| == 4 && |top| == 2 && |bottom| == 2
    requires Sorting.SortedBy(byY, Y) && Sorting.SortedBy(top, X) && Sorting.SortedBy(bottom, X)
    requires multiset(top) == multiset(byY[..2]) && multiset(bottom) == multiset(byY[2..])
    ensures top[0].x <= top[1].x && bottom[0].x <= bottom[1].x
    ensures top[0].y <= bottom[0].y && top[0].y <= bottom[1].y
    ensures top[1].y <= bottom[0].y && top[1].y <= bottom[1].y
  {
    assert X(top[0]) <= X(top[1]);
    assert X(bottom[0]) <= X(bottom[1]);
    forall i, j | 0 <= i < 2 && 0 <= j < 2 ensures top[i].y <= bottom[j].y {
      assert top[i] in multiset(byY[..2]) by { assert top[i] in multiset(top); }
      assert bottom[j] in multiset(byY[2..]) by { assert bottom[j] in multiset(bottom); }
      var a :| 0 <= a < 2 && byY[..2][a] == top[i];
      var b :| 0 <= b < 2 && byY[2..][b] == bottom[j];
      assert Y(byY[a]) <= Y(byY[b + 2]);
    }
  }

  lemma SortedEdges(pts: seq<RPoint>, byY: seq<RPoint>, top: seq<RPoint>, bottom: seq<RPoint>)
    requires |pts| == TableCorners && byY == Sorting.Sort(pts, Y)
    requires top == Sorting.Sort(byY[..2], X) && bottom == Sorting.Sort(byY[2..], X)
    ensures |top| == 2 && |bottom| == 2
    ensures top[0].x <= top[1].x && bottom[0].x <= bottom[1].x
    ensures top[0].y <= bottom[0].y && top[0].y <= bottom[1].y
    ensures top[1].y <= bottom[0].y && top[1].y <= bottom[1].y
  {
    Sorting.SortSorted(pts, Y);
    Sorting.SortSorted(byY[..2], X);
    Sorting.SortSorted(byY[2..], X);
    EdgesShape(byY, top, bottom);
  }

  /** The source and destination quadrilaterals handed to the homography
      solver, and the size of the top view. */
  datatype HomographySetup = HomographySetup(src: seq<RPoint>, dst: seq<RPoint>, viewSize: (int, int))

  /** `calculate_homography`, up to the solver call: nothing unless exactly
      four table points are marked. */
  function HomographySetupFor(pts: seq<RPoint>): (r: Option<HomographySetup>)
    ensures r.Some? <==> |pts| == TableCorners
    ensures r.Some? ==> |r.value.src| == TableCorners && multiset(r.value.src) == multiset(pts)
    ensures r.Some? ==> r.value.viewSize == (DstWidth, DstHeight)
  {
    if |pts| != TableCorners then None
    else
      var w, h := DstWidth as real, DstHeight as real;
      Some(HomographySetup(OrderCorners(pts), [RPoint(0.0, 0.0), RPoint(w, 0.0), RPoint(w, h), RPoint(0.0, h)],
                           (DstWidth, DstHeight)))
  }

  /** The destination corners are the top view's corners in the same TL,
      TR, BR, BL order as the ordered source corners. */
  lemma HomographyCornersMatch(pts: seq<RPoint>)
    requires |pts| == TableCorners
    ensures var d := HomographySetupFor(pts).value.dst;
      && |d| == 4
      && d[0].x < d[1].x && d[0].y == d[1].y
      && d[3].x < d[2].x && d[3].y == d[2].y
      && d[0].y < d[3].y
      && d[2] == RPoint(1000.0, 1796.0)
  {
    DstHeightValue();
  }

  /** The calibration record written to disk, without the matrix itself. */
  datatype CalibrationData = CalibrationData(
    tablePoints: seq<RPoint>,
    netPoints: seq<RPoint>,
    frameSize: (int, int),
    tableViewSize: (int, int),
    widthCm: real,
    lengthCm: real,
    netHeightCm: real)

  /** `save_calibration`: nothing unless exactly four table points. */
  function CalibrationFor(pts: seq<RPoint>, netPts: seq<RPoint>, w: int, h: int): (r: Option<CalibrationData>)
    ensures r.Some? <==> |pts| == TableCorners
    ensures r.Some? ==> multiset(r.value.tablePoints) == multiset(pts) && r.value.netPoints == netPts
    ensures r.Some? ==> r.value.frameSize == (w, h) && r.value.tableViewSize == (DstWidth, DstHeight)
  {
    match HomographySetupFor(pts)
    case None => None
    case Some(setup) =>
      Some(CalibrationData(setup.src, netPts, (w, h), setup.viewSize, TableWidthCm, TableLengthCm, NetHeightCm))
  }

  // ---------------------------------------------------------------------
  // Keyboard

  predicate IsQuit(key: int) { key == KeyQuit || key == KeyEsc }

  /** The state change of one key press in the calibration loop. Next frame
      and projection preview change nothing modelled; rewind resets the
      view. */
  function KeyStep(v: View, key: int): View
  {
    if IsQuit(key) || key == KeySave || key == KeyNextFrame then v
    else if key == KeyClear then v.(points := [], netPoints := [])
    else if key == KeyTable then v.(mode := TableMode)
    else if key == KeyNet then v.(mode := NetMode)
    else if key == KeyResetView then ResetStep(v)
    else if key == KeyPlus || key == KeyEquals then ZoomStep(v, ZoomStepSize)
    else if key == KeyMinus || key == KeyUnderscore then ZoomStep(v, -ZoomStepSize)
    else if key == KeyProjection then v
    else if key == KeyRewind then ResetStep(v)
    else v
  }

  /** What a save key press produces. */
  function KeySaved(v: View, key: int, w: int, h: int): Option<CalibrationData>
  {
    if key == KeySave then CalibrationFor(v.points, v.netPoints, w, h) else None
  }

  lemma KeyStepKeepsInv(v: View, w: int, h: int, key: int)
    requires Inv(v, w, h)
    ensures Inv(KeyStep(v, key), w, h)
  {
    if key == KeyPlus || key == KeyEquals {
      ZoomStepSpec(v, ZoomStepSize);
    } else if key == KeyMinus || key == KeyUnderscore {
      ZoomStepSpec(v, -ZoomStepSize);
    }
  }

  /** Clearing empties both point lists whatever the mode; the mode keys only
      switch the mode; the points survive every view change. */
  lemma KeyStepPoints(v: View, key: int)
    ensures var r := KeyStep(v, key);
      && (key == KeyClear ==> r.points == [] && r.netPoints == [] && r.mode == v.mode)
      && (key != KeyClear ==> r.points == v.points && r.netPoints == v.netPoints)
      && (key == KeyTable ==> r == v.(mode := TableMode))
      && (key == KeyNet ==> r == v.(mode := NetMode))
      && (key != KeyTable && key != KeyNet ==> r.mode == v.mode)
  {
  }

  // ---------------------------------------------------------------------
  // The calibrator object

  class TableCalibrator {
    const frameWidth: int
    const frameHeight: int
    const displaySize: (int, int)
    var scaleFactor: real
    var panOffset: RPoint
    var dragging: bool
    var dragStart: (int, int)
    var points: seq<RPoint>
    var netPoints: seq<RPoint>
    var mode: Mode

    ghost function Snap(): View
      reads this
    {
      View(scaleFactor, panOffset, dragging, dragStart, points, netPoints, mode)
    }

    ghost predicate Valid()
      reads this
    {
      Inv(Snap(), frameWidth, frameHeight)
    }

    /** Opens on a first frame of `w` x `h` pixels and fits it on screen. */
    constructor (w: int, h: int)
      requires w >= 1 && h >= 1
      ensures frameWidth == w && frameHeight == h
      ensures Snap() == InitialView(w, h) && displaySize == DisplaySize(w, h)
      ensures Valid()
    {
      frameWidth, frameHeight := w, h;
      panOffset := RPoint(0.0, 0.0);
      dragging := false;
      dragStart := (0, 0);
      points, netPoints := [], [];
      mode := TableMode;
      scaleFactor := InitialScale(w, h);
      displaySize := DisplaySize(w, h);
      InitialViewInv(w, h);
    }

    method MouseCallback(event: MouseEvent, x: int, y: int)
      requires Valid()
      modifies this
      ensures Snap() == MouseStep(old(Snap()), frameWidth, frameHeight, event, x, y)
      ensures Valid()
    {
      MouseStepKeepsInv(Snap(), frameWidth, frameHeight, event, x, y);
      var origX, origY;
      if scaleFactor != 1.0 {
        origX := Trunc(x as real / scaleFactor - panOffset.x / scaleFactor) as real;
        origY := Trunc(y as real / scaleFactor - panOffset.y / scaleFactor) as real;
      } else {
        origX := x as real - panOffset.x;
        origY := y as real - panOffset.y;
      }
      origX := Max(0.0, Min(origX, (frameWidth - 1) as real));
      origY := Max(0.0, Min(origY, (frameHeight - 1) as real));

      if event == MiddleDown {
        dragging := true;
        dragStart := (x, y);
      } else if event == MouseMove {
        if dragging {
          var dx, dy := x - dragStart.0, y - dragStart.1;
          panOffset := RPoint(panOffset.x + dx as real, panOffset.y + dy as real);
          dragStart := (x, y);
        }
      } else if event == MiddleUp {
        dragging := false;
      } else if event == LeftDown {
        if mode == TableMode && |points| < TableCorners {
          points := points + [RPoint(origX, origY)];
        } else if mode == NetMode && |netPoints| < NetEnds {
          netPoints := netPoints + [RPoint(origX, origY)];
        }
      } else if event == RightDown {
        if mode == TableMode && points != [] {
          points := points[..|points| - 1];
        } else if mode == NetMode && netPoints != [] {
          netPoints := netPoints[..|netPoints| - 1];
        }
      }
    }

    method Zoom(factorChange: real)
      modifies this
      ensures Snap() == ZoomStep(old(Snap()), factorChange)
      ensures old(Valid()) ==> Valid()
    {
      if old(Valid()) {
        ZoomStepSpec(Snap(), factorChange);
      }
      var oldScale := scaleFactor;
      scaleFactor := Max(MinScale, Min(MaxScale, scaleFactor + factorChange));
      if oldScale != 0.0 {
        var ratio := scaleFactor / oldScale;
        panOffset := RPoint(panOffset.x * ratio, panOffset.y * ratio);
      }
    }

    method ResetView()
      modifies this
      ensures Snap() == ResetStep(old(Snap()))
      ensures old(Valid()) ==> Valid()
    {
      scaleFactor := 1.0;
      panOffset := RPoint(0.0, 0.0);
    }

    method CalculateHomography() returns (r: Option<HomographySetup>)
      ensures r == HomographySetupFor(points)
    {
      if |points| != TableCorners {
        return None;
      }
      var dw, dh := DstWidth as real, DstHeight as real;
      var ordered := OrderCorners(points);
      r := Some(HomographySetup(ordered, [RPoint(0.0, 0.0), RPoint(dw, 0.0), RPoint(dw, dh), RPoint(0.0, dh)],
                                (DstWidth, DstHeight)));
    }

    method SaveCalibration() returns (r: Option<CalibrationData>)
      ensures r == CalibrationFor(points, netPoints, frameWidth, frameHeight)
    {
      if |points| != TableCorners {
        return None;
      }
      var setup := CalculateHomography();
      if setup.None? {
        return None;
      }
      r := Some(CalibrationData(setup.value.src, netPoints, (frameWidth, frameHeight), setup.value.viewSize,
                                TableWidthCm, TableLengthCm, NetHeightCm));
    }

    /** One key press of the calibration loop: whether the loop stops and
        what a save produced. */
    method HandleKey(key: int) returns (quit: bool, saved: Option<CalibrationData>)
      requires Valid()
      modifies this
      ensures quit <==> IsQuit(key)
      ensures saved == KeySaved(old(Snap()), key, frameWidth, frameHeight)
      ensures Snap() == KeyStep(old(Snap()), key)
      ensures Valid()
    {
      KeyStepKeepsInv(Snap(), frameWidth, frameHeight, key);
      quit, saved := false, None;
      if IsQuit(key) {
        quit := true;
      } else if key == KeySave {
        if |points| == TableCorners {
          saved := SaveCalibration();
        }
      } else if key == KeyNextFrame {
      } else if key == KeyClear {
        points, netPoints := [], [];
      } else if key == KeyTable {
        mode := TableMode;
      } else if key == KeyNet {
        mode := NetMode;
      } else if key == KeyResetView {
        ResetView();
      } else if key == KeyPlus || key == KeyEquals {
        Zoom(ZoomStepSize);
      } else if key == KeyMinus || key == KeyUnderscore {
        Zoom(-ZoomStepSize);
      } else if key == KeyProjection {
      } else if key == KeyRewind {
        ResetView();
      }
    }
  }
}
