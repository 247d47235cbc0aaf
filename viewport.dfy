/**
 * The viewport transform of the workspace: how the cropped image is fitted
 * and centred on the canvas, and how positions convert between canvas pixels
 * ("local") and percentages of the drawn image box ("logical").
 */
module Viewport {
  import opened Numbers

  datatype Point = Point(x: real, y: real)

  /** A rectangle: the crop in source pixels, or the drawn image on the canvas. */
  datatype Rect = Rect(x: real, y: real, width: real, height: real)

  /** Half of the default handle size: a handle's top-left corner sits this far from its point. */
  const HandleCenter: real := 4.0

  /** Digits kept by every local-to-logical conversion. */
  const LogicalDigits: nat := 5

  function Min(a: real, b: real): (m: real)
    ensures m <= a && m <= b && (m == a || m == b)
  {
    if a <= b then a else b
  }

  function Max(a: real, b: real): (m: real)
    ensures m >= a && m >= b && (m == a || m == b)
  {
    if a >= b then a else b
  }

  /** The JavaScript number a quotient a / b of a non-negative a can be. */
  datatype Quotient = Finite(value: real) | Infinity | NaN

  /** a / b in JavaScript, for a >= 0: a division by zero gives Infinity, or NaN for 0 / 0. */
  function Divide(a: real, b: real): Quotient
    requires a >= 0.0
  {
    if b != 0.0 then Finite(a / b) else if a > 0.0 then Infinity else NaN
  }

  /** Math.min of two quotients: NaN if either is NaN, Infinity only if both are. */
  function MinQuotient(p: Quotient, q: Quotient): (r: Quotient)
    ensures r.NaN? <==> p.NaN? || q.NaN?
    ensures r.Finite? ==> r == p || r == q
    ensures r.Infinity? <==> p.Infinity? && q.Infinity?
    ensures p.Finite? && !q.NaN? ==> r.Finite? && r.value <= p.value
    ensures q.Finite? && !p.NaN? ==> r.Finite? && r.value <= q.value
  {
    if p.NaN? || q.NaN? then NaN
    else if p.Infinity? then q
    else if q.Infinity? then p
    else Finite(Min(p.value, q.value))
  }

  /** The factor that would make the crop just fit the canvas. */
  function FitFactor(canvasW: nat, canvasH: nat, srcW: real, srcH: real): Quotient
  {
    MinQuotient(Divide(canvasW as real, srcW), Divide(canvasH as real, srcH))
  }

  /** Whether the crop is shrunk to fit: only when the fit factor is a number below one. */
  predicate Shrinks(fit: Quotient)
  {
    fit.Finite? && fit.value < 1.0
  }

  /**
   * updateImageDimensions: shrink the crop to fit the canvas (never enlarge
   * it for fitting), apply the zoom scale, then centre it. Whatever its
   * size, the drawn image is centred on the canvas.
   */
  function FitViewport(canvasW: nat, canvasH: nat, srcW: real, srcH: real, scale: real): (r: Rect)
    ensures r.x + r.width / 2.0 == canvasW as real / 2.0
    ensures r.y + r.height / 2.0 == canvasH as real / 2.0
  {
    var fit := FitFactor(canvasW, canvasH, srcW, srcH);
    var w := (if Shrinks(fit) then srcW * fit.value else srcW) * scale;
    var h := (if Shrinks(fit) then srcH * fit.value else srcH) * scale;
    Rect((canvasW as real - w) / 2.0, (canvasH as real - h) / 2.0, w, h)
  }

  /** For a non-empty crop the fit factor is the smaller of the two canvas-to-crop ratios. */
  lemma FitFactorFinite(canvasW: nat, canvasH: nat, srcW: real, srcH: real)
    requires srcW > 0.0 && srcH > 0.0
    ensures FitFactor(canvasW, canvasH, srcW, srcH) == Finite(Min(canvasW as real / srcW, canvasH as real / srcH))
  {
  }

  /** The drawn size is the crop size times min(1, fit) times the scale. */
  lemma FitViewportSize(canvasW: nat, canvasH: nat, srcW: real, srcH: real, scale: real)
    requires srcW > 0.0 && srcH > 0.0
    ensures var r := FitViewport(canvasW, canvasH, srcW, srcH, scale);
            var f := Min(1.0, Min(canvasW as real / srcW, canvasH as real / srcH));
            r.width == srcW * f * scale && r.height == srcH * f * scale
  {
    FitFactorFinite(canvasW, canvasH, srcW, srcH);
  }

  /** Before any image is loaded the crop is empty: the drawn box is a point at the canvas centre. */
  lemma FitViewportEmpty(canvasW: nat, canvasH: nat, scale: real)
    ensures FitViewport(canvasW, canvasH, 0.0, 0.0, scale) == Rect(canvasW as real / 2.0, canvasH as real / 2.0, 0.0, 0.0)
  {
  }

  /** The drawn image keeps the crop's aspect ratio. */
  lemma FitViewportAspect(canvasW: nat, canvasH: nat, srcW: real, srcH: real, scale: real)
    ensures var r := FitViewport(canvasW, canvasH, srcW, srcH, scale);
            r.width * srcH == r.height * srcW
  {
    var fit := FitFactor(canvasW, canvasH, srcW, srcH);
    var f := if Shrinks(fit) then fit.value else 1.0;
    assert (srcW * f * scale) * srcH == (srcH * f * scale) * srcW;
  }

  /** A non-negative crop and scale never give a negative size. */
  lemma FitViewportNonNegative(canvasW: nat, canvasH: nat, srcW: real, srcH: real, scale: real)
    requires srcW >= 0.0 && srcH >= 0.0 && scale >= 0.0
    ensures var r := FitViewport(canvasW, canvasH, srcW, srcH, scale);
            r.width >= 0.0 && r.height >= 0.0
  {
    var fit := FitFactor(canvasW, canvasH, srcW, srcH);
    if Shrinks(fit) {
      assert fit.value >= 0.0;
      MulNonNegative(srcW, fit.value, scale);
      MulNonNegative(srcH, fit.value, scale);
    } else {
      MulNonNegative(srcW, 1.0, scale);
      MulNonNegative(srcH, 1.0, scale);
    }
  }

  lemma MulNonNegative(a: real, b: real, c: real)
    requires a >= 0.0 && b >= 0.0 && c >= 0.0
    ensures a * b * c >= 0.0
  {
  }

  /** Without zoom the image never exceeds the canvas, nor its own crop size, and is never off-canvas. */
  lemma FitViewportFits(canvasW: nat, canvasH: nat, srcW: real, srcH: real)
    requires srcW > 0.0 && srcH > 0.0
    ensures var r := FitViewport(canvasW, canvasH, srcW, srcH, 1.0);
            r.width <= canvasW as real && r.height <= canvasH as real &&
            r.width <= srcW && r.height <= srcH &&
            r.x >= 0.0 && r.y >= 0.0
  {
    var cw, ch := canvasW as real, canvasH as real;
    FitFactorFinite(canvasW, canvasH, srcW, srcH);
    var fit := Min(cw / srcW, ch / srcH);
    if fit < 1.0 {
      ScaledBelow(srcW, fit, cw);
      ScaledBelow(srcH, fit, ch);
      assert srcW * fit <= srcW;
      assert srcH * fit <= srcH;
    } else {
      assert cw / srcW >= 1.0 && ch / srcH >= 1.0;
      assert srcW <= cw && srcH <= ch;
    }
  }

  /** s * f <= c when f <= c / s. */
  lemma ScaledBelow(s: real, f: real, c: real)
    requires s > 0.0 && f <= c / s
    ensures s * f <= c
  {
    assert s * f <= s * (c / s);
  }

  /**
   * logicalToLocalPos: a percentage of the drawn image box to canvas pixels.
   * On a non-empty box, measuring the result back against the box, before
   * any rounding, gives the percentage exactly.
   */
  function LogicalToLocal(view: Rect, p: Point): (r: Point)
    ensures view.width != 0.0 ==> (r.x - view.x) / view.width * 100.0 == p.x
    ensures view.height != 0.0 ==> (r.y - view.y) / view.height * 100.0 == p.y
  {
    UnprojectProject(p.x, view.x, view.width);
    UnprojectProject(p.y, view.y, view.height);
    Point(view.width * (p.x / 100.0) + view.x, view.height * (p.y / 100.0) + view.y)
  }

  /**
   * localToLogicalPos: canvas pixels to a percentage of the drawn image box,
   * kept to five digits: within half a unit 10^-5 of the exact percentage.
   */
  function LocalToLogical(view: Rect, p: Point): (r: Point)
    requires view.width != 0.0 && view.height != 0.0
    ensures var ux, uy := (p.x - view.x) / view.width * 100.0, (p.y - view.y) / view.height * 100.0;
            -Ulp(LogicalDigits) / 2.0 < r.x - ux <= Ulp(LogicalDigits) / 2.0 &&
            -Ulp(LogicalDigits) / 2.0 < r.y - uy <= Ulp(LogicalDigits) / 2.0
  {
    var ux, uy := (p.x - view.x) / view.width * 100.0, (p.y - view.y) / view.height * 100.0;
    ToFixedError(ux, LogicalDigits);
    ToFixedError(uy, LogicalDigits);
    Point(ToFixed(ux, LogicalDigits), ToFixed(uy, LogicalDigits))
  }

  /**
   * localToLogicalHandlePos: the same, for a handle given by its top-left
   * corner. It reads the position HandleCenter pixels right and down of the
   * corner, where the handle's centre is drawn.
   */
  function LocalToLogicalHandle(view: Rect, p: Point): (r: Point)
    requires view.width != 0.0 && view.height != 0.0
    ensures r == LocalToLogical(view, Point(p.x + HandleCenter, p.y + HandleCenter))
  {
    Point(ToFixed((p.x + HandleCenter - view.x) / view.width * 100.0, LogicalDigits),
          ToFixed((p.y + HandleCenter - view.y) / view.height * 100.0, LogicalDigits))
  }

  /** Exact inverse on the unrounded value: ((w * (x/100) + ox) - ox) / w * 100 = x. */
  lemma UnprojectProject(x: real, origin: real, size: real)
    ensures size != 0.0 ==> ((size * (x / 100.0) + origin) - origin) / size * 100.0 == x
  {
    if size != 0.0 {
      assert (size * (x / 100.0) + origin) - origin == size * (x / 100.0);
      assert size * (x / 100.0) / size == x / 100.0;
    }
  }

  /** Converting a logical point to canvas pixels and back gives it rounded to five digits. */
  lemma LocalLogicalRoundTrip(view: Rect, p: Point)
    requires view.width != 0.0 && view.height != 0.0
    ensures LocalToLogical(view, LogicalToLocal(view, p)) ==
            Point(ToFixed(p.x, LogicalDigits), ToFixed(p.y, LogicalDigits))
    ensures var q := LocalToLogical(view, LogicalToLocal(view, p));
            -Ulp(LogicalDigits) / 2.0 < q.x - p.x <= Ulp(LogicalDigits) / 2.0 &&
            -Ulp(LogicalDigits) / 2.0 < q.y - p.y <= Ulp(LogicalDigits) / 2.0
  {
    var local := LogicalToLocal(view, p);
    UnprojectProject(p.x, view.x, view.width);
    UnprojectProject(p.y, view.y, view.height);
    assert (local.x - view.x) / view.width * 100.0 == p.x;
    assert (local.y - view.y) / view.height * 100.0 == p.y;
    ToFixedError(p.x, LogicalDigits);
    ToFixedError(p.y, LogicalDigits);
  }

  /** A point that is already at five digits survives the round trip unchanged. */
  lemma LocalLogicalRoundTripExact(view: Rect, p: Point)
    requires view.width != 0.0 && view.height != 0.0
    requires p.x == ToFixed(p.x, LogicalDigits) && p.y == ToFixed(p.y, LogicalDigits)
    ensures LocalToLogical(view, LogicalToLocal(view, p)) == p
  {
    LocalLogicalRoundTrip(view, p);
  }

  /** Dropping a handle drawn at a logical point reads back that point, to five digits. */
  lemma HandleRoundTrip(view: Rect, p: Point)
    requires view.width != 0.0 && view.height != 0.0
    ensures var local := LogicalToLocal(view, p);
            LocalToLogicalHandle(view, Point(local.x - HandleCenter, local.y - HandleCenter)) ==
            Point(ToFixed(p.x, LogicalDigits), ToFixed(p.y, LogicalDigits))
  {
    var local := LogicalToLocal(view, p);
    assert Point(local.x - HandleCenter + HandleCenter, local.y - HandleCenter + HandleCenter) == local;
    LocalLogicalRoundTrip(view, p);
  }
}
