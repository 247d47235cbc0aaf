/**
 * The resize selection: two logical handles spanning a rectangle on the drawn
 * image, the crop it commits to the source rectangle, the rectangle drag, the
 * aspect-ratio box, and the shift applied to grid points when the crop moves.
 */
module ResizeSelection {
  import opened Numbers
  import opened Viewport
  import opened RealFacts

  /** The normalised selection: its top-left and bottom-right corners. */
  datatype Corners = Corners(topLeft: Point, bottomRight: Point)

  /** A requested aspect ratio, width : height. */
  datatype Ratio = Ratio(x: real, y: real)

  /** Width and height of a selection, in percent of the drawn image box. */
  datatype Size = Size(width: real, height: real)

  /** getResizeRectanglePoints: the corners of the rectangle the two handles span, in either order. */
  function RectanglePoints(a: Point, b: Point): (c: Corners)
    ensures c.topLeft.x <= c.bottomRight.x && c.topLeft.y <= c.bottomRight.y
    ensures (c.topLeft.x == a.x && c.bottomRight.x == b.x) || (c.topLeft.x == b.x && c.bottomRight.x == a.x)
    ensures (c.topLeft.y == a.y && c.bottomRight.y == b.y) || (c.topLeft.y == b.y && c.bottomRight.y == a.y)
  {
    Corners(Point(Min(a.x, b.x), Min(a.y, b.y)), Point(Max(a.x, b.x), Max(a.y, b.y)))
  }

  /** Which handle is which does not matter. */
  lemma RectanglePointsSymmetric(a: Point, b: Point)
    ensures RectanglePoints(a, b) == RectanglePoints(b, a)
  {
  }

  /** The handles of the whole image: (0, 0) and (100, 100). */
  const FullFrame: seq<Point> := [Point(0.0, 0.0), Point(100.0, 100.0)]

  /** A selection that lies inside the drawn image box. */
  predicate InBox(c: Corners)
  {
    0.0 <= c.topLeft.x <= c.bottomRight.x <= 100.0 && 0.0 <= c.topLeft.y <= c.bottomRight.y <= 100.0
  }

  /** cropImage on one axis: the new start of the source interval. */
  function CropStart(origin: real, size: real, lo: real): real
  {
    size * (lo / 100.0) + origin
  }

  /** cropImage on one axis: the new length of the source interval. */
  function CropLength(size: real, lo: real, hi: real): real
  {
    size * ((hi - lo) / 100.0)
  }

  /**
   * cropImage: the selection, in percent of the current crop, becomes the
   * new crop in source pixels. A selection inside the image box gives a crop
   * inside the previous one.
   */
  function Crop(src: Rect, c: Corners): (r: Rect)
    ensures src.width >= 0.0 && src.height >= 0.0 && InBox(c) ==>
              src.x <= r.x && r.width >= 0.0 && r.x + r.width <= src.x + src.width &&
              src.y <= r.y && r.height >= 0.0 && r.y + r.height <= src.y + src.height
  {
    var r := Rect(CropStart(src.x, src.width, c.topLeft.x), CropStart(src.y, src.height, c.topLeft.y),
                  CropLength(src.width, c.topLeft.x, c.bottomRight.x), CropLength(src.height, c.topLeft.y, c.bottomRight.y));
    if src.width >= 0.0 && src.height >= 0.0 && InBox(c) then
      CropAxisWithin(src.x, src.width, c.topLeft.x, c.bottomRight.x);
      CropAxisWithin(src.y, src.height, c.topLeft.y, c.bottomRight.y);
      r
    else
      r
  }

  /** Committing the full-frame selection leaves the crop as it is. */
  lemma CropFullFrame(src: Rect)
    ensures Crop(src, RectanglePoints(FullFrame[0], FullFrame[1])) == src
  {
    assert RectanglePoints(FullFrame[0], FullFrame[1]) == Corners(Point(0.0, 0.0), Point(100.0, 100.0));
  }

  lemma CropAxisWithin(origin: real, size: real, lo: real, hi: real)
    requires size >= 0.0 && 0.0 <= lo <= hi <= 100.0
    ensures var o, s := CropStart(origin, size, lo), CropLength(size, lo, hi);
            origin <= o && 0.0 <= s && o + s <= origin + size
  {
    assert size * (lo / 100.0) >= 0.0;
    assert CropLength(size, lo, hi) >= 0.0;
    assert CropStart(origin, size, lo) + CropLength(size, lo, hi) - origin == size * (hi / 100.0);
    assert size * (hi / 100.0) <= size;
  }

  /** The selection c2, taken inside the selection c1, as a selection of the whole box. */
  function Nested(c1: Corners, c2: Corners): Corners
  {
    var w, h := c1.bottomRight.x - c1.topLeft.x, c1.bottomRight.y - c1.topLeft.y;
    Corners(Point(c1.topLeft.x + w * (c2.topLeft.x / 100.0), c1.topLeft.y + h * (c2.topLeft.y / 100.0)),
            Point(c1.topLeft.x + w * (c2.bottomRight.x / 100.0), c1.topLeft.y + h * (c2.bottomRight.y / 100.0)))
  }

  lemma CropAxisCompose(origin: real, size: real, lo1: real, hi1: real, lo2: real, hi2: real)
    ensures var o1, s1 := CropStart(origin, size, lo1), CropLength(size, lo1, hi1);
            var lo, hi := lo1 + (hi1 - lo1) * (lo2 / 100.0), lo1 + (hi1 - lo1) * (hi2 / 100.0);
            CropStart(o1, s1, lo2) == CropStart(origin, size, lo) &&
            CropLength(s1, lo2, hi2) == CropLength(size, lo, hi)
  {
    var d := hi1 - lo1;
    var lo, hi := lo1 + d * (lo2 / 100.0), lo1 + d * (hi2 / 100.0);
    assert (size * (d / 100.0)) * (lo2 / 100.0) == size * ((d * (lo2 / 100.0)) / 100.0);
    assert size * (lo / 100.0) == size * (lo1 / 100.0) + size * ((d * (lo2 / 100.0)) / 100.0);
    assert hi - lo == d * ((hi2 - lo2) / 100.0);
    assert (size * (d / 100.0)) * ((hi2 - lo2) / 100.0) == size * ((d * ((hi2 - lo2) / 100.0)) / 100.0);
  }

  /** Crops compose: cropping twice is cropping once to the nested selection, since each crop is relative to the visible one. */
  lemma CropCompose(src: Rect, c1: Corners, c2: Corners)
    ensures Crop(Crop(src, c1), c2) == Crop(src, Nested(c1, c2))
  {
    CropAxisCompose(src.x, src.width, c1.topLeft.x, c1.bottomRight.x, c2.topLeft.x, c2.bottomRight.x);
    CropAxisCompose(src.y, src.height, c1.topLeft.y, c1.bottomRight.y, c2.topLeft.y, c2.bottomRight.y);
    var once, nested := Crop(src, c1), Nested(c1, c2);
    assert once.x == CropStart(src.x, src.width, c1.topLeft.x) && once.width == CropLength(src.width, c1.topLeft.x, c1.bottomRight.x);
    assert once.y == CropStart(src.y, src.height, c1.topLeft.y) && once.height == CropLength(src.height, c1.topLeft.y, c1.bottomRight.y);
    assert nested.topLeft.x == c1.topLeft.x + (c1.bottomRight.x - c1.topLeft.x) * (c2.topLeft.x / 100.0);
    assert nested.bottomRight.x == c1.topLeft.x + (c1.bottomRight.x - c1.topLeft.x) * (c2.bottomRight.x / 100.0);
    assert nested.topLeft.y == c1.topLeft.y + (c1.bottomRight.y - c1.topLeft.y) * (c2.topLeft.y / 100.0);
    assert nested.bottomRight.y == c1.topLeft.y + (c1.bottomRight.y - c1.topLeft.y) * (c2.bottomRight.y / 100.0);
  }

  /** Cropping to (25, 25)-(75, 75) and then to the full frame gives the same crop as the first alone. */
  lemma CropThenFullFrame(src: Rect)
    ensures var once := Crop(src, Corners(Point(25.0, 25.0), Point(75.0, 75.0)));
            Crop(once, RectanglePoints(FullFrame[0], FullFrame[1])) == once &&
            once == Rect(src.x + src.width / 4.0, src.y + src.height / 4.0, src.width / 2.0, src.height / 2.0)
  {
    CropFullFrame(Crop(src, Corners(Point(25.0, 25.0), Point(75.0, 75.0))));
  }

  /**
   * Dragging the selection rectangle: handle a goes where the rectangle was
   * dropped (already converted to logical), handle b keeps the rectangle's size.
   */
  function DragRectangle(logical: Point, c: Corners): (h: seq<Point>)
    ensures |h| == 2 && h[0] == logical
  {
    [logical, Point(logical.x + (c.bottomRight.x - c.topLeft.x), logical.y + (c.bottomRight.y - c.topLeft.y))]
  }

  /** The dragged selection has its top-left corner at the drop position and the same size as before. */
  lemma DragRectangleKeepsSize(logical: Point, a: Point, b: Point)
    ensures var c := RectanglePoints(a, b);
            var h := DragRectangle(logical, c);
            var moved := RectanglePoints(h[0], h[1]);
            moved.topLeft == logical &&
            moved.bottomRight.x - moved.topLeft.x == c.bottomRight.x - c.topLeft.x &&
            moved.bottomRight.y - moved.topLeft.y == c.bottomRight.y - c.topLeft.y
  {
  }

  /**
   * The resize_aspect_ratio setter's sides, with the natural image size W x H
   * and the height the vertical percentage is taken of as a parameter: when the
   * ratio is narrower than the image the box spans the full width, otherwise
   * the full height.
   */
  function AspectSidesOver(imageW: real, imageH: real, heightBase: real, r: Ratio): Size
    requires imageW > 0.0 && imageH > 0.0 && r.x > 0.0 && r.y > 0.0
    requires imageW / r.x < imageH / r.y ==> heightBase != 0.0
  {
    if imageW / r.x < imageH / r.y then
      var desiredHeight := imageW / r.x * r.y;
      Size(100.0, desiredHeight / heightBase * 100.0)
    else
      var desiredWidth := imageH / r.y * r.x;
      Size(desiredWidth / imageW * 100.0, 100.0)
  }

  /**
   * The setter as written: the full-width branch divides by the drawn image
   * height. For a ratio narrower than the image its height is the natural-size
   * height scaled by natural / drawn height; otherwise it is the natural-size
   * box.
   */
  function AspectSidesAsWritten(imageW: real, imageH: real, drawnH: real, r: Ratio): (s: Size)
    requires imageW > 0.0 && imageH > 0.0 && r.x > 0.0 && r.y > 0.0
    requires imageW / r.x < imageH / r.y ==> drawnH != 0.0
    ensures imageW / r.x < imageH / r.y ==>
              s.width == 100.0 && s.height * drawnH == AspectSides(imageW, imageH, r).height * imageH
    ensures !(imageW / r.x < imageH / r.y) ==> s == AspectSides(imageW, imageH, r)
  {
    if imageW / r.x < imageH / r.y then
      var desiredHeight := imageW / r.x * r.y;
      assert desiredHeight / drawnH * 100.0 * drawnH == desiredHeight * 100.0;
      assert desiredHeight / imageH * 100.0 * imageH == desiredHeight * 100.0;
      AspectSidesOver(imageW, imageH, drawnH, r)
    else
      AspectSidesOver(imageW, imageH, drawnH, r)
  }

  /** The setter with both branches measuring against the natural image size. */
  function AspectSides(imageW: real, imageH: real, r: Ratio): Size
    requires imageW > 0.0 && imageH > 0.0 && r.x > 0.0 && r.y > 0.0
  {
    AspectSidesOver(imageW, imageH, imageH, r)
  }

  /** The handles the setter places: a box of the given size centred in the image box. */
  function AspectBox(s: Size): (h: seq<Point>)
    ensures |h| == 2
  {
    var a := Point((100.0 - s.width) / 2.0, (100.0 - s.height) / 2.0);
    [a, Point(a.x + s.width, a.y + s.height)]
  }

  /**
   * The corrected box fits the image: both sides are positive and at most 100
   * percent, one of them exactly 100, and in natural pixels its sides have the
   * requested ratio.
   */
  lemma AspectSidesFit(imageW: real, imageH: real, r: Ratio)
    requires imageW > 0.0 && imageH > 0.0 && r.x > 0.0 && r.y > 0.0
    ensures var s := AspectSides(imageW, imageH, r);
            0.0 < s.width <= 100.0 && 0.0 < s.height <= 100.0 &&
            (s.width == 100.0 || s.height == 100.0) &&
            (s.width / 100.0 * imageW) * r.y == (s.height / 100.0 * imageH) * r.x
  {
    if imageW / r.x < imageH / r.y {
      FullWidthSides(imageW, imageH, r);
    } else {
      FullHeightSides(imageW, imageH, r);
    }
  }

  lemma FullWidthSides(imageW: real, imageH: real, r: Ratio)
    requires imageW > 0.0 && imageH > 0.0 && r.x > 0.0 && r.y > 0.0 && imageW / r.x < imageH / r.y
    ensures var h := imageW / r.x * r.y / imageH * 100.0;
            AspectSides(imageW, imageH, r) == Size(100.0, h) && 0.0 < h <= 100.0 &&
            imageW * r.y == (h / 100.0 * imageH) * r.x
  {
    var d := imageW / r.x * r.y;
    ScaledRatio(imageW, r.x, imageH, r.y);
    PercentAtMostWhole(d, imageH);
    PercentOf(d, imageH);
    CrossMultiply(imageW, r.x, r.y);
  }

  lemma FullHeightSides(imageW: real, imageH: real, r: Ratio)
    requires imageW > 0.0 && imageH > 0.0 && r.x > 0.0 && r.y > 0.0 && imageW / r.x >= imageH / r.y
    ensures var w := imageH / r.y * r.x / imageW * 100.0;
            AspectSides(imageW, imageH, r) == Size(w, 100.0) && 0.0 < w <= 100.0 &&
            (w / 100.0 * imageW) * r.y == imageH * r.x
  {
    var d := imageH / r.y * r.x;
    ScaledRatioAtMost(imageH, r.y, imageW, r.x);
    PercentAtMostWhole(d, imageW);
    PercentOf(d, imageW);
    CrossMultiply(imageH, r.y, r.x);
  }

  /** The corrected box is centred in the image box and lies inside it. */
  lemma AspectBoxCentred(imageW: real, imageH: real, r: Ratio)
    requires imageW > 0.0 && imageH > 0.0 && r.x > 0.0 && r.y > 0.0
    ensures var s := AspectSides(imageW, imageH, r);
            var h := AspectBox(s);
            var c := RectanglePoints(h[0], h[1]);
            InBox(c) && c.topLeft == h[0] &&
            c.bottomRight.x - c.topLeft.x == s.width && c.bottomRight.y - c.topLeft.y == s.height &&
            c.topLeft.x + s.width / 2.0 == 50.0 && c.topLeft.y + s.height / 2.0 == 50.0
  {
    AspectSidesFit(imageW, imageH, r);
  }

  /**
   * As written, a 1000 x 1000 image drawn 500 pixels high gets a 16:9 box
   * 112.5 percent high, reaching past the top and bottom of the image; with
   * the natural height it is 56.25 percent high.
   */
  lemma AspectSidesAsWrittenOverflows()
    ensures AspectSidesAsWritten(1000.0, 1000.0, 500.0, Ratio(16.0, 9.0)) == Size(100.0, 112.5)
    ensures AspectBox(Size(100.0, 112.5))[0].y < 0.0
    ensures AspectSides(1000.0, 1000.0, Ratio(16.0, 9.0)) == Size(100.0, 56.25)
  {
    assert 1000.0 / 16.0 == 62.5;
    assert 1000.0 / 9.0 > 62.5;
  }

  /**
   * The grid-point update of cropImage and resetCrop, as written: a point is
   * projected to the canvas with the old drawn box, moved by the change of
   * the crop origin (dx, dy), and read back. The origin change is in source
   * pixels but is subtracted from canvas pixels, so the point moves by dx
   * divided by the drawn width, in percent, rounded to five digits.
   */
  function ShiftForCrop(view: Rect, p: Point, dx: real, dy: real): (r: Point)
    requires view.width != 0.0 && view.height != 0.0
    ensures r == Point(ToFixed(p.x - dx / view.width * 100.0, LogicalDigits),
                       ToFixed(p.y - dy / view.height * 100.0, LogicalDigits))
  {
    var local := LogicalToLocal(view, p);
    assert (local.x - dx - view.x) / view.width * 100.0 ==
           (local.x - view.x) / view.width * 100.0 - dx / view.width * 100.0;
    assert (local.y - dy - view.y) / view.height * 100.0 ==
           (local.y - view.y) / view.height * 100.0 - dy / view.height * 100.0;
    LocalToLogical(view, Point(local.x - dx, local.y - dy))
  }

  /** Where a logical point of the crop src lies on the natural image, in source pixels. */
  function SourcePosition(src: Rect, p: Point): Point
  {
    Point(src.x + src.width * (p.x / 100.0), src.y + src.height * (p.y / 100.0))
  }

  /**
   * The shift the crop evidently intends ("stay on their places"): the point
   * keeps its source pixel, measured before the crop against the crop before,
   * and after it against the crop after.
   */
  function KeepOnSource(before: Rect, after: Rect, p: Point): (r: Point)
    requires after.width != 0.0 && after.height != 0.0
    ensures SourcePosition(after, r) == SourcePosition(before, p)
  {
    var s := SourcePosition(before, p);
    var r := Point((s.x - after.x) / after.width * 100.0, (s.y - after.y) / after.height * 100.0);
    assert after.width * (r.x / 100.0) == s.x - after.x;
    assert after.height * (r.y / 100.0) == s.y - after.y;
    r
  }

  /**
   * As written, cropping a 1000 x 1000 image drawn at 1000 x 1000 pixels to
   * its middle quarter moves a point at the centre, source pixel (500, 500),
   * to 25 percent of the new crop, which is source pixel (375, 375). Keeping
   * it on its source pixel leaves it at 50 percent.
   */
  lemma ShiftForCropMovesPoint()
    ensures Crop(Rect(0.0, 0.0, 1000.0, 1000.0), Corners(Point(25.0, 25.0), Point(75.0, 75.0))) ==
            Rect(250.0, 250.0, 500.0, 500.0)
    ensures ShiftForCrop(Rect(0.0, 0.0, 1000.0, 1000.0), Point(50.0, 50.0), 250.0, 250.0) == Point(25.0, 25.0)
    ensures SourcePosition(Rect(0.0, 0.0, 1000.0, 1000.0), Point(50.0, 50.0)) == Point(500.0, 500.0)
    ensures SourcePosition(Rect(250.0, 250.0, 500.0, 500.0), Point(25.0, 25.0)) == Point(375.0, 375.0)
    ensures KeepOnSource(Rect(0.0, 0.0, 1000.0, 1000.0), Rect(250.0, 250.0, 500.0, 500.0), Point(50.0, 50.0)) ==
            Point(50.0, 50.0)
  {
    assert 50.0 - 250.0 / 1000.0 * 100.0 == 25.0;
    ToFixedWhole(25, LogicalDigits);
  }

  /** When the crop origin does not move, points keep their positions up to the five-digit rounding. */
  lemma ShiftForCropStill(view: Rect, p: Point)
    requires view.width != 0.0 && view.height != 0.0
    ensures ShiftForCrop(view, p, 0.0, 0.0) == Point(ToFixed(p.x, LogicalDigits), ToFixed(p.y, LogicalDigits))
  {
    assert 0.0 / view.width * 100.0 == 0.0 && 0.0 / view.height * 100.0 == 0.0;
  }
}
