/**
 * Grid points: reference points in logical coordinates (percentages of the
 * drawn image box), each flagged to draw a horizontal line, a vertical line
 * or both. This module holds what is computed about them: the right-click
 * flag cycle and the evenly spaced grid of generateGrid.
 */
module GridPoints {
  import opened Options
  import opened RealFacts

  datatype GridPoint = GridPoint(x: real, y: real, horizontal: bool, vertical: bool)

  /** A freshly constructed point draws both lines. */
  function NewGridPoint(x: real, y: real): GridPoint
  {
    GridPoint(x, y, true, true)
  }

  /**
   * The right-click handler on one point: both lines -> horizontal only ->
   * vertical only -> removed (None). A point with neither flag is left as it is.
   */
  function RightClickStep(p: GridPoint): (r: Option<GridPoint>)
    ensures r.Some? ==> r.value.x == p.x && r.value.y == p.y
    ensures r.None? <==> !p.horizontal && p.vertical
  {
    if p.horizontal && p.vertical then Some(p.(vertical := false))
    else if p.horizontal && !p.vertical then Some(p.(horizontal := false, vertical := true))
    else if !p.horizontal && p.vertical then None
    else Some(p)
  }

  /**
   * The list after a right click on its k-th point: that point updated in
   * place, or spliced out. The points before it are untouched, and the list
   * is one shorter exactly when the point was vertical-only.
   */
  function RightClick(points: seq<GridPoint>, k: nat): (r: seq<GridPoint>)
    requires k < |points|
    ensures |r| == if !points[k].horizontal && points[k].vertical then |points| - 1 else |points|
    ensures r[..k] == points[..k]
  {
    match RightClickStep(points[k])
    case Some(q) => points[k := q]
    case None => points[..k] + points[k + 1..]
  }

  /** Every point draws at least one line. */
  ghost predicate AllDrawn(points: seq<GridPoint>)
  {
    forall i :: 0 <= i < |points| ==> points[i].horizontal || points[i].vertical
  }

  /** A right click changes only the clicked point, or removes only it and keeps the others in order. */
  lemma RightClickFrame(points: seq<GridPoint>, k: nat)
    requires k < |points|
    ensures var r := RightClick(points, k);
            if !points[k].horizontal && points[k].vertical then
              |r| == |points| - 1 &&
              (forall i :: 0 <= i < k ==> r[i] == points[i]) &&
              (forall i :: k <= i < |r| ==> r[i] == points[i + 1])
            else
              |r| == |points| &&
              (forall i :: 0 <= i < |r| && i != k ==> r[i] == points[i]) &&
              r[k].x == points[k].x && r[k].y == points[k].y
  {
  }

  /** Three right clicks on a point that draws both lines remove it, passing through horizontal-only and vertical-only. */
  lemma RightClickCycle(points: seq<GridPoint>, k: nat)
    requires k < |points| && points[k].horizontal && points[k].vertical
    ensures var once := RightClick(points, k);
            var twice := RightClick(once, k);
            once[k].horizontal && !once[k].vertical &&
            !twice[k].horizontal && twice[k].vertical &&
            RightClick(twice, k) == points[..k] + points[k + 1..]
  {
    var once := RightClick(points, k);
    var twice := RightClick(once, k);
    assert twice[..k] == points[..k];
    assert twice[k + 1..] == points[k + 1..];
  }

  /** A point that draws no line ignores right clicks. */
  lemma RightClickUndrawn(points: seq<GridPoint>, k: nat)
    requires k < |points| && !points[k].horizontal && !points[k].vertical
    ensures RightClick(points, k) == points
  {
  }

  /** Right clicks never leave a point that draws nothing. */
  lemma RightClickKeepsDrawn(points: seq<GridPoint>, k: nat)
    requires k < |points| && AllDrawn(points)
    ensures AllDrawn(RightClick(points, k))
  {
    var r := RightClick(points, k);
    RightClickFrame(points, k);
    forall i | 0 <= i < |r|
      ensures r[i].horizontal || r[i].vertical
    {
      if !points[k].horizontal && points[k].vertical {
        if i >= k { assert r[i] == points[i + 1]; }
      }
    }
  }

  function MinNat(a: nat, b: nat): nat { if a <= b then a else b }

  function MaxNat(a: nat, b: nat): nat { if a >= b then a else b }

  /** The position of the i-th of n equal steps across the image box, in percent: i * (100 / n). */
  function Part(i: nat, n: nat): real
    requires n >= 1
  {
    i as real * (100.0 / n as real)
  }

  /**
   * The step generateGrid(n, m) constructs its first point in: 1 when both n
   * and m are positive; 0 when one of them is 0, since the diagonal loop is
   * then empty and the edge loop starts at min(n, m) = 0.
   */
  function FirstStep(n: nat, m: nat): nat
  {
    if MinNat(n, m) == 0 then 0 else 1
  }

  /**
   * The point generateGrid(n, m) constructs in its i-th step: on the common
   * diagonal while i < min(n, m), then, along the finer axis only, on the far
   * edge of the other. A side of 0 cells makes 100 / 0 = Infinity, which no
   * step uses.
   */
  function GeneratedPoint(n: nat, m: nat, i: nat): (p: GridPoint)
    requires i < MaxNat(n, m)
    ensures p.horizontal || p.vertical
    ensures p.horizontal <==> i < MinNat(n, m) || m > n
    ensures p.vertical <==> i < MinNat(n, m) || n > m
    ensures 0.0 <= p.x <= 100.0 && 0.0 <= p.y <= 100.0
  {
    if i < MinNat(n, m) then
      PartWithin(i, n);
      PartWithin(i, m);
      NewGridPoint(Part(i, n), Part(i, m))
    else if n > m then
      PartWithin(i, n);
      GridPoint(Part(i, n), 100.0, m > n, n > m)
    else
      PartWithin(i, m);
      GridPoint(100.0, Part(i, m), m > n, n > m)
  }

  /** All points generateGrid(n, m) leaves, in construction order. */
  function GeneratedGrid(n: nat, m: nat): (g: seq<GridPoint>)
    ensures |g| == MaxNat(n, m) - FirstStep(n, m)
  {
    seq(MaxNat(n, m) - FirstStep(n, m),
        k requires 0 <= k < MaxNat(n, m) - FirstStep(n, m) => GeneratedPoint(n, m, k + FirstStep(n, m)))
  }

  lemma GeneratedGridAt(n: nat, m: nat, i: nat)
    requires FirstStep(n, m) <= i < MaxNat(n, m)
    ensures GeneratedGrid(n, m)[i - FirstStep(n, m)] == GeneratedPoint(n, m, i)
  {
  }

  /** The generated point of step i lies in the image box, and draws at least one line. */
  lemma GeneratedPointInBox(n: nat, m: nat, i: nat)
    requires n >= 1 && m >= 1 && 1 <= i < MaxNat(n, m)
    ensures var p := GeneratedPoint(n, m, i);
            (p.horizontal || p.vertical) && 0.0 < p.x <= 100.0 && 0.0 < p.y <= 100.0
  {
    PartPositive(i, n);
    PartPositive(i, m);
    if i < n { PartBelowWhole(i, n); }
    if i < m { PartBelowWhole(i, m); }
  }

  /**
   * generateGrid(n, m) makes max(n, m) - 1 points: the first min(n, m) - 1
   * draw both lines at (i * 100/n, i * 100/m); the rest draw a vertical line
   * at x = i * 100/n on the bottom edge when n > m, or a horizontal line at
   * y = i * 100/m on the right edge when m > n. All lie in the image box and
   * all draw something.
   */
  lemma GeneratedGridShape(n: nat, m: nat)
    requires n >= 1 && m >= 1
    ensures var g := GeneratedGrid(n, m);
            |g| == MaxNat(n, m) - 1 && AllDrawn(g) &&
            (forall k :: 0 <= k < |g| ==> 0.0 < g[k].x <= 100.0 && 0.0 < g[k].y <= 100.0) &&
            (forall k :: 0 <= k < MinNat(n, m) - 1 ==>
               g[k] == NewGridPoint(Part(k + 1, n), Part(k + 1, m))) &&
            (n > m ==> forall k :: MinNat(n, m) - 1 <= k < |g| ==>
               g[k] == GridPoint(Part(k + 1, n), 100.0, false, true)) &&
            (m > n ==> forall k :: MinNat(n, m) - 1 <= k < |g| ==>
               g[k] == GridPoint(100.0, Part(k + 1, m), true, false))
  {
    var g := GeneratedGrid(n, m);
    assert FirstStep(n, m) == 1;
    forall k | 0 <= k < |g|
      ensures g[k] == GeneratedPoint(n, m, k + 1)
      ensures (g[k].horizontal || g[k].vertical) && 0.0 < g[k].x <= 100.0 && 0.0 < g[k].y <= 100.0
    {
      GeneratedGridAt(n, m, k + 1);
      GeneratedPointInBox(n, m, k + 1);
    }
  }

  /**
   * generateGrid with 0 cells on one side does not fail: it makes max(n, m)
   * points, from step 0 on, along the other side's far edge only. With n = 0
   * they are horizontal-only at (100, i * 100/m), the first at (100, 0) on
   * the image's top edge; with m = 0 vertical-only at (i * 100/n, 100).
   */
  lemma GeneratedGridOneSided(n: nat, m: nat)
    requires n == 0 || m == 0
    ensures var g := GeneratedGrid(n, m);
            |g| == MaxNat(n, m) &&
            (n > m ==> forall k :: 0 <= k < |g| ==> g[k] == GridPoint(Part(k, n), 100.0, false, true)) &&
            (m > n ==> forall k :: 0 <= k < |g| ==> g[k] == GridPoint(100.0, Part(k, m), true, false))
  {
    var g := GeneratedGrid(n, m);
    assert FirstStep(n, m) == 0;
    forall k | 0 <= k < |g|
      ensures g[k] == GeneratedPoint(n, m, k)
    {
      GeneratedGridAt(n, m, k);
    }
  }

  lemma PartBelowWhole(i: nat, n: nat)
    requires 1 <= i < n
    ensures Part(i, n) < 100.0
  {
    PartInside(i as real, n as real);
  }

  lemma PartWithin(i: nat, n: nat)
    requires i <= n && 1 <= n
    ensures 0.0 <= Part(i, n) <= 100.0
  {
    if i == n { WholePart(n as real); }
    else if 1 <= i { PartBelowWhole(i, n); }
  }

  lemma PartPositive(i: nat, n: nat)
    requires 1 <= i && 1 <= n
    ensures 0.0 < Part(i, n)
  {
  }

  /** A square grid of 4 x 4 cells: three diagonal points at 25, 50 and 75 percent, each drawing both lines. */
  lemma GeneratedGridFourByFour()
    ensures GeneratedGrid(4, 4) ==
            [NewGridPoint(25.0, 25.0), NewGridPoint(50.0, 50.0), NewGridPoint(75.0, 75.0)]
  {
    var g := GeneratedGrid(4, 4);
    assert g[0] == GeneratedPoint(4, 4, 1);
    assert g[1] == GeneratedPoint(4, 4, 2);
    assert g[2] == GeneratedPoint(4, 4, 3);
  }
}
