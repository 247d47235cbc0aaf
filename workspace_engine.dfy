/**
 * The workspace engine: the single object that owns the image, its crop, the
 * drawn box on the canvas, the grid points, the resize selection, the
 * display settings and the distance labels, and updates them in place.
 */
module WorkspaceEngine {
  import opened Numbers
  import opened Viewport
  import opened GridPoints
  import opened DistanceLabels
  import opened ResizeSelection

  /** workspace_mode: GRID 0, RESIZE 1, CONST 2, IMAGE 3. */
  datatype Mode = Grid | Resize | Const | Image

  /** The loaded image: its data URI and natural size in pixels. */
  datatype Picture = Picture(uri: string, width: nat, height: nat)

  /** The object exportAsJSON writes and importFromJSON reads. */
  datatype Session = Session(
    image: Picture,
    source: Rect,
    view: Rect,
    gridPoints: seq<GridPoint>,
    resizePoints: seq<Point>,
    keepAspectRatio: bool,
    resizeAspectRatio: Ratio,
    gridColor: string,
    gridColorLight: nat,
    grayscale: bool,
    virtualWidth: real,
    virtualHeight: real)

  /** Smallest side, in percent, of a selection dragged with the aspect ratio kept. */
  const MinRectSize: real := 0.5

  function DigitChar(d: nat): char
    requires d < 10
  {
    "0123456789"[d]
  }

  function DigitValue(c: char): nat
  {
    if '0' <= c <= '9' then (c as int - '0' as int) as nat else 0
  }

  /** A whole number as JavaScript writes it in a string: decimal digits, no leading zeros. */
  function DecimalString(n: nat): (s: string)
    ensures |s| >= 1
  {
    if n < 10 then [DigitChar(n)] else DecimalString(n / 10) + [DigitChar(n % 10)]
  }

  /** Reads a string of decimal digits back as a number. */
  function ParseDecimal(s: string): nat
  {
    if s == [] then 0 else 10 * ParseDecimal(s[..|s| - 1]) + DigitValue(s[|s| - 1])
  }

  /** Writing a number and reading it back gives the number. */
  lemma {:induction false} DecimalRoundTrip(n: nat)
    ensures ParseDecimal(DecimalString(n)) == n
  {
    var s := DecimalString(n);
    if n < 10 {
      assert s[..0] == [];
    } else {
      assert s[..|s| - 1] == DecimalString(n / 10);
      DecimalRoundTrip(n / 10);
    }
  }

  /** The CSS colour the grid_color_light setter builds from a lightness: hsl(0, 0%, L%) with L non-empty. */
  function GridColor(light: nat): (c: string)
    ensures |c| >= 14 && c[..11] == "hsl(0, 0%, " && c[|c| - 2..] == "%)"
  {
    "hsl(0, 0%, " + DecimalString(light) + "%)"
  }

  /** The constructor's colour is the one the setter builds for its default lightness 50. */
  lemma GridColorDefault()
    ensures GridColor(50) == "hsl(0, 0%, 50%)"
  {
  }

  /** The colour string determines the lightness: different lightnesses give different colours. */
  lemma GridColorInjective(a: nat, b: nat)
    requires GridColor(a) == GridColor(b)
    ensures a == b
  {
    var prefix := "hsl(0, 0%, ";
    var sa, sb := DecimalString(a), DecimalString(b);
    assert GridColor(a) == prefix + sa + "%)";
    assert |sa| == |sb|;
    assert sa == GridColor(a)[|prefix|..|prefix| + |sa|];
    assert sb == GridColor(b)[|prefix|..|prefix| + |sb|];
    DecimalRoundTrip(a);
    DecimalRoundTrip(b);
  }

  /** A grid point after the crop shift: same flags, position shifted and read back. */
  function ShiftedPoint(view: Rect, p: GridPoint, dx: real, dy: real): GridPoint
    requires view.width != 0.0 && view.height != 0.0
  {
    var q := ShiftForCrop(view, Point(p.x, p.y), dx, dy);
    p.(x := q.x, y := q.y)
  }

  /** Every grid point after the crop shift. */
  function ShiftAll(view: Rect, points: seq<GridPoint>, dx: real, dy: real): (r: seq<GridPoint>)
    requires |points| > 0 ==> view.width != 0.0 && view.height != 0.0
    ensures |r| == |points|
  {
    seq(|points|, k requires 0 <= k < |points| => ShiftedPoint(view, points[k], dx, dy))
  }

  /** The crop shift keeps every point's flags and moves it by the origin change, rounded to five digits. */
  lemma ShiftAllMeaning(view: Rect, points: seq<GridPoint>, dx: real, dy: real)
    requires view.width != 0.0 && view.height != 0.0
    ensures var r := ShiftAll(view, points, dx, dy);
            forall k :: 0 <= k < |points| ==>
              r[k].horizontal == points[k].horizontal && r[k].vertical == points[k].vertical &&
              r[k].x == ToFixed(points[k].x - dx / view.width * 100.0, LogicalDigits) &&
              r[k].y == ToFixed(points[k].y - dy / view.height * 100.0, LogicalDigits)
  {
    var r := ShiftAll(view, points, dx, dy);
    forall k | 0 <= k < |points|
      ensures r[k].x == ToFixed(points[k].x - dx / view.width * 100.0, LogicalDigits)
      ensures r[k].y == ToFixed(points[k].y - dy / view.height * 100.0, LogicalDigits)
    {
      assert r[k] == ShiftedPoint(view, points[k], dx, dy);
    }
  }

  /** sign(t) as t / |t| for t != 0. */
  function Sign(t: real): (s: real)
    requires t != 0.0
    ensures s == 1.0 || s == -1.0
    ensures s * t > 0.0
  {
    if t > 0.0 then 1.0 else -1.0
  }

  function Abs(t: real): (a: real)
    ensures a >= 0.0 && (a == t || a == -t)
  {
    if t >= 0.0 then t else -t
  }

  /**
   * The rectangle a handle drag with the aspect ratio kept aims at: the ratio
   * rectangle fitted around the dragged extent, or around a MinRectSize square
   * when that comes out smaller. `fitRatio` stands for scaleWithAspectRatio.
   */
  function KeptRectangle(ratio: Ratio, targetWidth: real, targetHeight: real, fitRatio: (Ratio, Size) -> Size): (s: Size)
    ensures var fitted := fitRatio(ratio, Size(Abs(targetWidth), Abs(targetHeight)));
            (fitted.width >= MinRectSize && fitted.height >= MinRectSize ==> s == fitted) &&
            (fitted.width < MinRectSize || fitted.height < MinRectSize ==>
               s == fitRatio(ratio, Size(MinRectSize, MinRectSize)))
  {
    var fitted := fitRatio(ratio, Size(Abs(targetWidth), Abs(targetHeight)));
    if fitted.width < MinRectSize || fitted.height < MinRectSize then fitRatio(ratio, Size(MinRectSize, MinRectSize))
    else fitted
  }

  /**
   * The dragged corner placed from the fixed one: on the side the mouse is on,
   * at the kept rectangle's distance, so the selection spans exactly that
   * rectangle when its sides are not negative.
   */
  lemma KeptCorner(other: Point, targetWidth: real, targetHeight: real, rect: Size)
    requires targetWidth != 0.0 && targetHeight != 0.0 && rect.width >= 0.0 && rect.height >= 0.0
    ensures var corner := Point(other.x + Sign(targetWidth) * rect.width, other.y + Sign(targetHeight) * rect.height);
            var c := RectanglePoints(other, corner);
            c.bottomRight.x - c.topLeft.x == rect.width && c.bottomRight.y - c.topLeft.y == rect.height &&
            (rect.width > 0.0 ==> (corner.x > other.x <==> targetWidth > 0.0)) &&
            (rect.height > 0.0 ==> (corner.y > other.y <==> targetHeight > 0.0))
  {
  }

  /** The inner scan of updateDistanceLabels on one axis, for one point. */
  method InsertBreak(axis: seq<real>, v: real, onAxis: bool) returns (r: seq<real>)
    requires |axis| >= 1
    ensures r == if onAxis then InsertFrom(axis, v, 0) else axis
  {
    r := axis;
    var length := if onAxis then |axis| - 1 else 0;
    var j := 0;
    while j < length
      invariant 0 <= j <= length
      invariant r == axis
      invariant onAxis ==> InsertFrom(axis, v, 0) == InsertFrom(axis, v, j)
    {
      if axis[j] < v && axis[j + 1] > v {
        r := axis[..j + 1] + [v] + axis[j + 1..];
        break;
      }
      j := j + 1;
    }
  }

  /** The label loop of updateDistanceLabels on one axis. */
  method MeasureLabels(axis: seq<real>, origin: real, size: real, virtualSize: real) returns (labels: seq<DistanceLabel>)
    requires |axis| >= 1
    ensures labels == Labels(axis, origin, size, virtualSize)
  {
    labels := [];
    var previous := origin;
    var i := 1;
    while i < |axis|
      invariant 1 <= i <= |axis| && |labels| == i - 1
      invariant forall k :: 0 <= k < i - 1 ==> labels[k] == LabelAt(axis, k, origin, size, virtualSize)
      invariant previous == if i == 1 then origin else Project(axis[i - 1], origin, size)
    {
      var current := size * (axis[i] / 100.0) + origin;
      labels := labels + [DistanceLabel(previous + (current - previous) / 2.0,
                                        JsRound(axis[i] / 100.0 * virtualSize - axis[i - 1] / 100.0 * virtualSize))];
      previous := current;
      i := i + 1;
    }
  }

  class Engine {
    var canvasWidth: nat
    var canvasHeight: nat
    var image: Picture
    var mode: Mode
    /** The crop, in source pixels of the natural image. */
    var source: Rect
    /** The drawn image box on the canvas. */
    var view: Rect
    var scale: real
    var gridPoints: seq<GridPoint>
    var resizePoints: seq<Point>
    var keepAspectRatio: bool
    var resizeAspectRatio: Ratio
    var gridColor: string
    var gridColorLight: nat
    var grayscale: bool
    var virtualWidth: real
    var virtualHeight: real
    var distanceLabelsX: seq<DistanceLabel>
    var distanceLabelsY: seq<DistanceLabel>

    /** The resize selection is either not created yet or exactly two handles. */
    ghost predicate Valid()
      reads this
    {
      |resizePoints| == 0 || |resizePoints| == 2
    }

    /** The labels are those of the current grid points, drawn box and virtual size. */
    ghost predicate LabelsCurrent()
      reads this
    {
      distanceLabelsX == Labels(Breaks(gridPoints, XAxis), view.x, view.width, virtualWidth) &&
      distanceLabelsY == Labels(Breaks(gridPoints, YAxis), view.y, view.height, virtualHeight)
    }

    /** What a session file records of the engine. */
    function Snapshot(): Session
      reads this
    {
      Session(image, source, view, gridPoints, resizePoints, keepAspectRatio, resizeAspectRatio,
              gridColor, gridColorLight, grayscale, virtualWidth, virtualHeight)
    }

    constructor()
      ensures Valid()
      ensures canvasWidth == 0 && canvasHeight == 0 && image == Picture("", 0, 0) && mode == Const
      ensures source == Rect(0.0, 0.0, 0.0, 0.0) && view == Rect(0.0, 0.0, 0.0, 0.0) && scale == 1.0
      ensures gridPoints == [] && resizePoints == [] && !keepAspectRatio && resizeAspectRatio == Ratio(1.0, 1.0)
      ensures gridColor == GridColor(50) && gridColorLight == 50 && !grayscale
      ensures virtualWidth == 100.0 && virtualHeight == 100.0 && distanceLabelsX == [] && distanceLabelsY == []
    {
      canvasWidth, canvasHeight := 0, 0;
      image := Picture("", 0, 0);
      mode := Const;
      source := Rect(0.0, 0.0, 0.0, 0.0);
      view := Rect(0.0, 0.0, 0.0, 0.0);
      scale := 1.0;
      gridPoints := [];
      resizePoints := [];
      keepAspectRatio := false;
      resizeAspectRatio := Ratio(1.0, 1.0);
      gridColor := "hsl(0, 0%, 50%)";
      gridColorLight := 50;
      grayscale := false;
      virtualWidth, virtualHeight := 100.0, 100.0;
      distanceLabelsX, distanceLabelsY := [], [];
      GridColorDefault();
    }

    /** updateImageDimensions: refit the crop to the canvas, then refresh the labels. */
    method UpdateImageDimensions()
      modifies this`view, this`distanceLabelsX, this`distanceLabelsY
      ensures view == FitViewport(canvasWidth, canvasHeight, source.width, source.height, scale)
      ensures LabelsCurrent()
    {
      FitView();
      UpdateDistanceLabels();
    }

    /**
     * The first half of updateImageDimensions: shrink the crop to the canvas
     * if it is larger, apply the zoom scale and centre the result.
     */
    method FitView()
      modifies this`view
      ensures view == FitViewport(canvasWidth, canvasHeight, source.width, source.height, scale)
    {
      var canvasW, canvasH := canvasWidth as real, canvasHeight as real;
      var imageW, imageH := source.width, source.height;
      var scaleToViewport := FitFactor(canvasWidth, canvasHeight, imageW, imageH);
      if Shrinks(scaleToViewport) {
        imageW := imageW * scaleToViewport.value;
        imageH := imageH * scaleToViewport.value;
      }
      imageW := imageW * scale;
      imageH := imageH * scale;
      view := Rect((canvasW - imageW) / 2.0, (canvasH - imageH) / 2.0, imageW, imageH);
    }

    /** updateDistanceLabels: collect the break lists of both axes, then measure between neighbours. */
    method UpdateDistanceLabels()
      modifies this`distanceLabelsX, this`distanceLabelsY
      ensures LabelsCurrent()
    {
      var xAxis, yAxis := [0.0, 100.0], [0.0, 100.0];
      var i := 0;
      while i < |gridPoints|
        invariant 0 <= i <= |gridPoints|
        invariant xAxis == Breaks(gridPoints[..i], XAxis) && yAxis == Breaks(gridPoints[..i], YAxis)
      {
        var point := gridPoints[i];
        assert gridPoints[..i + 1][..i] == gridPoints[..i];
        xAxis := InsertBreak(xAxis, point.x, point.vertical);
        yAxis := InsertBreak(yAxis, point.y, point.horizontal);
        i := i + 1;
      }
      assert gridPoints[..i] == gridPoints;
      distanceLabelsX := MeasureLabels(xAxis, view.x, view.width, virtualWidth);
      distanceLabelsY := MeasureLabels(yAxis, view.y, view.height, virtualHeight);
    }

    /** The scale setter. */
    method SetScale(val: real)
      modifies this`scale, this`view, this`distanceLabelsX, this`distanceLabelsY
      ensures scale == val
      ensures view == FitViewport(canvasWidth, canvasHeight, source.width, source.height, val)
      ensures LabelsCurrent()
    {
      scale := val;
      UpdateImageDimensions();
    }

    /** resize: the canvas takes the new size and the image is refitted. */
    method ResizeCanvas(width: nat, height: nat)
      modifies this`canvasWidth, this`canvasHeight, this`view, this`distanceLabelsX, this`distanceLabelsY
      ensures canvasWidth == width && canvasHeight == height
      ensures view == FitViewport(width, height, source.width, source.height, scale)
      ensures LabelsCurrent()
    {
      canvasWidth, canvasHeight := width, height;
      UpdateImageDimensions();
    }

    /** The grid_color_light setter: the lightness and the colour built from it. */
    method SetGridColorLight(val: nat)
      modifies this`gridColorLight, this`gridColor
      ensures gridColorLight == val && gridColor == GridColor(val)
    {
      gridColorLight := val;
      gridColor := "hsl(0, 0%, " + DecimalString(val) + "%)";
    }

    /** The grayscale setter. */
    method SetGrayscale(val: bool)
      modifies this`grayscale
      ensures grayscale == val
    {
      grayscale := val;
    }

    /**
     * setMode: showing or hiding the resize handles creates them at the full
     * frame the first time, whether RESIZE is entered or left.
     */
    method SetMode(m: Mode)
      requires Valid()
      modifies this`mode, this`resizePoints
      ensures Valid() && mode == m
      ensures resizePoints ==
              if (old(mode) == Resize || m == Resize) && old(resizePoints) == [] then FullFrame else old(resizePoints)
    {
      if mode == Resize && resizePoints == [] {
        resizePoints := FullFrame;
      }
      mode := m;
      if mode == Resize && resizePoints == [] {
        resizePoints := FullFrame;
      }
    }

    /** constructGridPoint: a new point drawing both lines is appended; its index is returned. */
    method ConstructGridPoint(x: real, y: real) returns (k: nat)
      modifies this`gridPoints
      ensures gridPoints == old(gridPoints) + [NewGridPoint(x, y)] && k == |old(gridPoints)|
    {
      gridPoints := gridPoints + [NewGridPoint(x, y)];
      k := |gridPoints| - 1;
    }

    /** addGridPoint: in GRID mode a click adds a point where it lands; in other modes nothing happens. */
    method AddGridPoint(localX: real, localY: real)
      requires mode == Grid ==> view.width != 0.0 && view.height != 0.0
      modifies this`gridPoints, this`distanceLabelsX, this`distanceLabelsY
      ensures mode != Grid ==> gridPoints == old(gridPoints) && distanceLabelsX == old(distanceLabelsX) &&
                               distanceLabelsY == old(distanceLabelsY)
      ensures mode == Grid ==>
                var logical := LocalToLogical(view, Point(localX, localY));
                gridPoints == old(gridPoints) + [NewGridPoint(logical.x, logical.y)] && LabelsCurrent()
    {
      if mode != Grid {
        return;
      }
      var logical := LocalToLogical(view, Point(localX, localY));
      var k := ConstructGridPoint(logical.x, logical.y);
      UpdateDistanceLabels();
    }

    /** The drag callback of grid point k: the point moves to where its handle is dropped. */
    method DragGridPoint(k: nat, localX: real, localY: real)
      requires k < |gridPoints| && view.width != 0.0 && view.height != 0.0
      modifies this`gridPoints, this`distanceLabelsX, this`distanceLabelsY
      ensures var logical := LocalToLogicalHandle(view, Point(localX, localY));
              gridPoints == old(gridPoints)[k := old(gridPoints)[k].(x := logical.x, y := logical.y)]
      ensures LabelsCurrent()
    {
      var logical := LocalToLogicalHandle(view, Point(localX, localY));
      gridPoints := gridPoints[k := gridPoints[k].(x := logical.x, y := logical.y)];
      UpdateDistanceLabels();
    }

    /** The right-click callback of grid point k. */
    method RightClickGridPoint(k: nat)
      requires k < |gridPoints|
      modifies this`gridPoints, this`distanceLabelsX, this`distanceLabelsY
      ensures gridPoints == RightClick(old(gridPoints), k)
      ensures LabelsCurrent()
    {
      var point := gridPoints[k];
      if point.horizontal && point.vertical {
        gridPoints := gridPoints[k := point.(vertical := false)];
      } else if point.horizontal && !point.vertical {
        gridPoints := gridPoints[k := point.(horizontal := false, vertical := true)];
      } else if !point.horizontal && point.vertical {
        gridPoints := gridPoints[..k] + gridPoints[k + 1..];
      }
      UpdateDistanceLabels();
    }

    /** clearGridPoints: pop until empty. */
    method ClearGridPoints()
      modifies this`gridPoints
      ensures gridPoints == []
    {
      while |gridPoints| > 0
        decreases |gridPoints|
      {
        gridPoints := gridPoints[..|gridPoints| - 1];
      }
    }

    /**
     * generateGrid(n, m): replace the grid points by an even grid of n cells
     * across and m down, whose labels then all show V / n and V / m. A side
     * of 0 cells is accepted: its part 100 / 0 is Infinity and never used,
     * and that axis keeps one cell.
     */
    method GenerateGrid(n: nat, m: nat)
      modifies this`gridPoints, this`distanceLabelsX, this`distanceLabelsY
      ensures gridPoints == GeneratedGrid(n, m)
      ensures LabelsCurrent()
      ensures distanceLabelsX == Labels(Uniform(Cells(n, m, XAxis)), view.x, view.width, virtualWidth)
      ensures distanceLabelsY == Labels(Uniform(Cells(n, m, YAxis)), view.y, view.height, virtualHeight)
    {
      ClearGridPoints();
      var horizontalPart, verticalPart := Divide(100.0, n as real), Divide(100.0, m as real);
      PlaceDiagonal(n, m, horizontalPart, verticalPart);
      PlaceEdge(n, m, horizontalPart, verticalPart);
      UpdateDistanceLabels();
      GeneratedGridBreaks(n, m, XAxis);
      GeneratedGridBreaks(n, m, YAxis);
    }

    /** The first loop of generateGrid: points on the diagonal, both lines drawn. */
    method PlaceDiagonal(n: nat, m: nat, horizontalPart: Quotient, verticalPart: Quotient)
      requires gridPoints == []
      requires horizontalPart == Divide(100.0, n as real) && verticalPart == Divide(100.0, m as real)
      modifies this`gridPoints
      ensures gridPoints == GeneratedGrid(n, m)[..MinNat(n, m) - FirstStep(n, m)]
    {
      ghost var grid := GeneratedGrid(n, m);
      var i := 1;
      while i < MinNat(n, m)
        invariant 1 <= i
        invariant MinNat(n, m) == 0 ==> i == 1
        invariant MinNat(n, m) >= 1 ==> i <= MinNat(n, m)
        invariant gridPoints == grid[..i - 1]
      {
        var k := ConstructGridPoint(i as real * horizontalPart.value, i as real * verticalPart.value);
        GeneratedGridAt(n, m, i);
        assert GeneratedPoint(n, m, i) == NewGridPoint(Part(i, n), Part(i, m));
        assert Part(i, n) == i as real * horizontalPart.value && Part(i, m) == i as real * verticalPart.value;
        assert grid[..i] == grid[..i - 1] + [grid[i - 1]];
        i := i + 1;
      }
    }

    /** The second loop of generateGrid: the points along the finer axis, each drawing one line. */
    method PlaceEdge(n: nat, m: nat, horizontalPart: Quotient, verticalPart: Quotient)
      requires gridPoints == GeneratedGrid(n, m)[..MinNat(n, m) - FirstStep(n, m)]
      requires horizontalPart == Divide(100.0, n as real) && verticalPart == Divide(100.0, m as real)
      modifies this`gridPoints
      ensures gridPoints == GeneratedGrid(n, m)
    {
      ghost var grid := GeneratedGrid(n, m);
      ghost var first := FirstStep(n, m);
      var i := MinNat(n, m);
      while i < MaxNat(n, m)
        invariant MinNat(n, m) <= i <= MaxNat(n, m)
        invariant gridPoints == grid[..i - first]
      {
        var k;
        if n > m {
          k := ConstructGridPoint(i as real * horizontalPart.value, 100.0);
          assert Part(i, n) == i as real * horizontalPart.value;
        } else {
          k := ConstructGridPoint(100.0, i as real * verticalPart.value);
          assert Part(i, m) == i as real * verticalPart.value;
        }
        gridPoints := gridPoints[k := gridPoints[k].(horizontal := m > n, vertical := n > m)];
        GeneratedGridAt(n, m, i);
        assert gridPoints == grid[..i - first] + [GeneratedPoint(n, m, i)];
        assert grid[..i + 1 - first] == grid[..i - first] + [grid[i - first]];
        i := i + 1;
      }
      assert grid[..MaxNat(n, m) - first] == grid;
    }

    /** resetResizeHandles: put existing handles back on the full frame. */
    method ResetResizeHandles()
      requires Valid()
      modifies this`resizePoints
      ensures Valid()
      ensures resizePoints == if old(resizePoints) == [] then [] else FullFrame
    {
      if resizePoints == [] {
        return;
      }
      resizePoints := FullFrame;
    }

    /** The drag callback of the selection rectangle: it moves, keeping its size. */
    method DragResizeRectangle(localX: real, localY: real)
      requires |resizePoints| == 2 && view.width != 0.0 && view.height != 0.0
      modifies this`resizePoints
      ensures resizePoints == DragRectangle(LocalToLogical(view, Point(localX, localY)),
                                            RectanglePoints(old(resizePoints)[0], old(resizePoints)[1]))
    {
      var logical := LocalToLogical(view, Point(localX, localY));
      var c := RectanglePoints(resizePoints[0], resizePoints[1]);
      var logicalWidth, logicalHeight := c.bottomRight.x - c.topLeft.x, c.bottomRight.y - c.topLeft.y;
      resizePoints := [logical, Point(logical.x + logicalWidth, logical.y + logicalHeight)];
    }

    /**
     * The drag callback of resize handle k. Without the aspect ratio kept the
     * handle goes where it is dropped; with it, it is placed from the other
     * handle by KeptRectangle, towards the mouse (given relative to the canvas).
     */
    method DragResizeHandle(k: nat, localX: real, localY: real, mouseX: real, mouseY: real,
                            fitRatio: (Ratio, Size) -> Size)
      requires |resizePoints| == 2 && k < 2 && view.width != 0.0 && view.height != 0.0
      requires keepAspectRatio ==>
                 LocalToLogicalHandle(view, Point(mouseX, mouseY)).x != resizePoints[1 - k].x &&
                 LocalToLogicalHandle(view, Point(mouseX, mouseY)).y != resizePoints[1 - k].y
      modifies this`resizePoints
      ensures |resizePoints| == 2 && resizePoints[1 - k] == old(resizePoints)[1 - k]
      ensures !keepAspectRatio ==> resizePoints[k] == LocalToLogicalHandle(view, Point(localX, localY))
      ensures keepAspectRatio ==>
                var other := old(resizePoints)[1 - k];
                var mouse := LocalToLogicalHandle(view, Point(mouseX, mouseY));
                var tw, th := mouse.x - other.x, mouse.y - other.y;
                var rect := KeptRectangle(resizeAspectRatio, tw, th, fitRatio);
                resizePoints[k] == Point(other.x + Sign(tw) * rect.width, other.y + Sign(th) * rect.height)
    {
      var logical := LocalToLogicalHandle(view, Point(localX, localY));
      if keepAspectRatio {
        var other := resizePoints[if k == 0 then 1 else 0];
        var mouse := LocalToLogicalHandle(view, Point(mouseX, mouseY));
        var targetWidth, targetHeight := mouse.x - other.x, mouse.y - other.y;
        var wSign, hSign := Sign(targetWidth), Sign(targetHeight);
        var newRect := fitRatio(resizeAspectRatio, Size(Abs(targetWidth), Abs(targetHeight)));
        if newRect.width < MinRectSize || newRect.height < MinRectSize {
          newRect := fitRatio(resizeAspectRatio, Size(MinRectSize, MinRectSize));
        }
        logical := Point(other.x + wSign * newRect.width, other.y + hSign * newRect.height);
      }
      resizePoints := resizePoints[k := logical];
    }

    /**
     * The resize_aspect_ratio setter: record the ratio and place the handles on
     * a centred box of that ratio. As written, the full-width branch takes the
     * height percentage of the drawn height, so the box fits the image only
     * when the image is drawn at its natural height.
     */
    method SetResizeAspectRatio(val: Ratio)
      requires image.width > 0 && image.height > 0 && val.x > 0.0 && val.y > 0.0 && |resizePoints| == 2
      requires image.width as real / val.x < image.height as real / val.y ==> view.height != 0.0
      modifies this`resizeAspectRatio, this`resizePoints
      ensures resizeAspectRatio == val
      ensures resizePoints == AspectBox(AspectSidesAsWritten(image.width as real, image.height as real, view.height, val))
      ensures view.height == image.height as real ==>
                resizePoints == AspectBox(AspectSides(image.width as real, image.height as real, val))
    {
      resizeAspectRatio := val;
      var sides := AspectSidesAsWritten(image.width as real, image.height as real, view.height, val);
      var width, height := sides.width, sides.height;
      var ax, ay := (100.0 - width) / 2.0, (100.0 - height) / 2.0;
      resizePoints := [Point(ax, ay), Point(ax + width, ay + height)];
    }

    /** The grid-point loop of cropImage and resetCrop. */
    method ShiftGridPoints(dx: real, dy: real)
      requires |gridPoints| > 0 ==> view.width != 0.0 && view.height != 0.0
      modifies this`gridPoints
      ensures gridPoints == ShiftAll(view, old(gridPoints), dx, dy)
    {
      ghost var original := gridPoints;
      var i := 0;
      while i < |gridPoints|
        invariant 0 <= i <= |gridPoints| == |original|
        invariant forall k :: 0 <= k < i ==> gridPoints[k] == ShiftedPoint(view, original[k], dx, dy)
        invariant forall k :: i <= k < |gridPoints| ==> gridPoints[k] == original[k]
      {
        var point := gridPoints[i];
        var local := LogicalToLocal(view, Point(point.x, point.y));
        var logical := LocalToLogical(view, Point(local.x - dx, local.y - dy));
        gridPoints := gridPoints[i := point.(x := logical.x, y := logical.y)];
        i := i + 1;
      }
    }

    /**
     * cropImage: the selection becomes the new crop, grid points are shifted
     * by the move of the crop origin, the image is refitted and the handles
     * go back to the full frame.
     */
    method CropImage()
      requires |resizePoints| == 2
      requires |gridPoints| > 0 ==> view.width != 0.0 && view.height != 0.0
      modifies this`source, this`gridPoints, this`view, this`distanceLabelsX, this`distanceLabelsY, this`resizePoints
      ensures source == Crop(old(source), RectanglePoints(old(resizePoints)[0], old(resizePoints)[1]))
      ensures gridPoints == ShiftAll(old(view), old(gridPoints), source.x - old(source).x, source.y - old(source).y)
      ensures view == FitViewport(canvasWidth, canvasHeight, source.width, source.height, scale)
      ensures LabelsCurrent() && resizePoints == FullFrame
    {
      var c := RectanglePoints(resizePoints[0], resizePoints[1]);
      var prevX, prevY := source.x, source.y;
      source := Crop(source, c);
      ShiftGridPoints(source.x - prevX, source.y - prevY);
      UpdateImageDimensions();
      ResetResizeHandles();
    }

    /** resetCrop: the crop goes back to the whole natural image, grid points shifted likewise. */
    method ResetCrop()
      requires Valid()
      requires |gridPoints| > 0 ==> view.width != 0.0 && view.height != 0.0
      modifies this`source, this`gridPoints, this`view, this`distanceLabelsX, this`distanceLabelsY, this`resizePoints
      ensures Valid()
      ensures source == Rect(0.0, 0.0, image.width as real, image.height as real)
      ensures gridPoints == ShiftAll(old(view), old(gridPoints), -old(source).x, -old(source).y)
      ensures view == FitViewport(canvasWidth, canvasHeight, source.width, source.height, scale)
      ensures LabelsCurrent()
      ensures resizePoints == if old(resizePoints) == [] then [] else FullFrame
    {
      var prevX, prevY := source.x, source.y;
      source := Rect(0.0, 0.0, image.width as real, image.height as real);
      ShiftGridPoints(source.x - prevX, source.y - prevY);
      UpdateImageDimensions();
      ResetResizeHandles();
    }

    /** setVirtualSizes: the label unit changes, and the labels with it. */
    method SetVirtualSizes(width: real, height: real)
      modifies this`virtualWidth, this`virtualHeight, this`distanceLabelsX, this`distanceLabelsY
      ensures virtualWidth == width && virtualHeight == height
      ensures LabelsCurrent()
    {
      virtualWidth, virtualHeight := width, height;
      UpdateDistanceLabels();
    }

    /** exportAsJSON: copy every recorded field, and the points one by one. */
    method ExportAsJSON() returns (json: Session)
      ensures json == Snapshot()
    {
      json := Session(image, source, view, [], [], keepAspectRatio, Ratio(resizeAspectRatio.x, resizeAspectRatio.y),
                      gridColor, gridColorLight, grayscale, virtualWidth, virtualHeight);
      var i := 0;
      while i < |gridPoints|
        invariant 0 <= i <= |gridPoints|
        invariant json == Snapshot().(gridPoints := gridPoints[..i], resizePoints := [])
      {
        var point := gridPoints[i];
        json := json.(gridPoints := json.gridPoints + [GridPoint(point.x, point.y, point.horizontal, point.vertical)]);
        assert gridPoints[..i + 1] == gridPoints[..i] + [point];
        i := i + 1;
      }
      assert gridPoints[..i] == gridPoints;
      i := 0;
      while i < |resizePoints|
        invariant 0 <= i <= |resizePoints|
        invariant json == Snapshot().(resizePoints := resizePoints[..i])
      {
        var point := resizePoints[i];
        json := json.(resizePoints := json.resizePoints + [Point(point.x, point.y)]);
        assert resizePoints[..i + 1] == resizePoints[..i] + [point];
        i := i + 1;
      }
      assert resizePoints[..i] == resizePoints;
    }

    /**
     * importFromJSON: every recorded field is restored, the points rebuilt one
     * by one, and the scale reset to 1; mode, canvas and labels are left alone
     * until the image has decoded and UpdateImageDimensions runs.
     */
    method ImportFromJSON(json: Session)
      modifies this`image, this`source, this`view, this`scale, this`gridPoints, this`resizePoints,
               this`keepAspectRatio, this`resizeAspectRatio, this`gridColor, this`gridColorLight,
               this`grayscale, this`virtualWidth, this`virtualHeight
      ensures Snapshot() == json && scale == 1.0
      ensures Valid() <==> |json.resizePoints| == 0 || |json.resizePoints| == 2
    {
      image := json.image;
      source := json.source;
      view := json.view;
      scale := 1.0;
      keepAspectRatio := json.keepAspectRatio;
      resizeAspectRatio := Ratio(json.resizeAspectRatio.x, json.resizeAspectRatio.y);
      gridColor := json.gridColor;
      gridColorLight := json.gridColorLight;
      grayscale := json.grayscale;
      virtualWidth, virtualHeight := json.virtualWidth, json.virtualHeight;
      LoadGridPoints(json.gridPoints);
      LoadResizePoints(json.resizePoints);
    }

    /** The grid-point loop of importFromJSON: each saved point is constructed anew and given its saved flags. */
    method LoadGridPoints(points: seq<GridPoint>)
      modifies this`gridPoints
      ensures gridPoints == points
    {
      gridPoints := [];
      var i := 0;
      while i < |points|
        invariant 0 <= i <= |points| && gridPoints == points[..i]
      {
        var point := points[i];
        var k := ConstructGridPoint(point.x, point.y);
        gridPoints := gridPoints[k := gridPoints[k].(horizontal := point.horizontal, vertical := point.vertical)];
        assert points[..i + 1] == points[..i] + [point];
        i := i + 1;
      }
      assert points[..i] == points;
    }

    /** The resize-point loop of importFromJSON: the handles are rebuilt from the saved coordinates. */
    method LoadResizePoints(points: seq<Point>)
      modifies this`resizePoints
      ensures resizePoints == points
    {
      resizePoints := [];
      var i := 0;
      while i < |points|
        invariant 0 <= i <= |points| && resizePoints == points[..i]
      {
        var point := points[i];
        resizePoints := resizePoints + [Point(point.x, point.y)];
        assert points[..i + 1] == points[..i] + [point];
        i := i + 1;
      }
      assert points[..i] == points;
    }
  }

  /** Saving one engine's session and loading it into another makes the second record the same session. */
  method SessionRoundTrip(from: Engine, into: Engine) returns (json: Session)
    modifies into
    ensures json == old(from.Snapshot())
    ensures into.Snapshot() == json && into.scale == 1.0
  {
    json := from.ExportAsJSON();
    into.ImportFromJSON(json);
  }
}
