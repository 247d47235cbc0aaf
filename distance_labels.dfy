/**
 * Distance labels: for each axis, the grid lines on it (plus the two image
 * edges at 0 and 100 percent) are collected in a sorted break list, and each
 * pair of neighbouring breaks becomes a label holding the distance between
 * them in virtual units and the canvas position where it is printed.
 *
 * Vertical lines (points with `vertical`) cut the x axis at their x;
 * horizontal lines cut the y axis at their y.
 */
module DistanceLabels {
  import opened Numbers
  import opened RealFacts
  import opened GridPoints

  datatype Axis = XAxis | YAxis

  /** The label text's centre on the canvas along the axis, and the rounded distance. */
  datatype DistanceLabel = DistanceLabel(textCenter: real, value: int)

  /** Whether a point's line crosses the axis. */
  predicate OnAxis(p: GridPoint, a: Axis)
  {
    if a == XAxis then p.vertical else p.horizontal
  }

  /** Where a point's line crosses the axis. */
  function Coord(p: GridPoint, a: Axis): real
  {
    if a == XAxis then p.x else p.y
  }

  ghost predicate StrictlyIncreasing(s: seq<real>)
  {
    forall i, j :: 0 <= i < j < |s| ==> s[i] < s[j]
  }

  ghost function Elements(s: seq<real>): set<real>
  {
    set x | x in s
  }

  /**
   * The inner scan of updateDistanceLabels from index j on: splice v in after
   * the first break j with axis[j] < v < axis[j + 1], or leave the list alone
   * when there is none.
   */
  function InsertFrom(axis: seq<real>, v: real, j: nat): (r: seq<real>)
    decreases |axis| - j
    ensures |r| >= |axis|
  {
    if j + 1 >= |axis| then axis
    else if axis[j] < v && axis[j + 1] > v then axis[..j + 1] + [v] + axis[j + 1..]
    else InsertFrom(axis, v, j + 1)
  }

  /** The break list of one axis after updateDistanceLabels has processed `points` in order. */
  function Breaks(points: seq<GridPoint>, a: Axis): (r: seq<real>)
    ensures |r| >= 2
  {
    if points == [] then [0.0, 100.0]
    else
      var prev := Breaks(points[..|points| - 1], a);
      var p := points[|points| - 1];
      if OnAxis(p, a) then InsertFrom(prev, Coord(p, a), 0) else prev
  }

  /** The coordinates at which the points' lines cut the axis strictly inside the image. */
  ghost function Cuts(points: seq<GridPoint>, a: Axis): set<real>
  {
    set p | p in points && OnAxis(p, a) && 0.0 < Coord(p, a) < 100.0 :: Coord(p, a)
  }

  /** The list with v spliced in right after index j, as Array.prototype.splice(j + 1, 0, v) leaves it. */
  function Spliced(axis: seq<real>, j: nat, v: real): (r: seq<real>)
    requires j < |axis|
    ensures |r| == |axis| + 1
  {
    axis[..j + 1] + [v] + axis[j + 1..]
  }

  lemma SplicedAt(axis: seq<real>, j: nat, v: real, i: nat)
    requires j < |axis| && i <= |axis|
    ensures Spliced(axis, j, v)[i] == if i <= j then axis[i] else if i == j + 1 then v else axis[i - 1]
  {
  }

  lemma SplicedSorted(axis: seq<real>, j: nat, v: real)
    requires StrictlyIncreasing(axis) && j + 1 < |axis| && axis[j] < v < axis[j + 1]
    ensures StrictlyIncreasing(Spliced(axis, j, v))
  {
    var r := Spliced(axis, j, v);
    forall i, k | 0 <= i < k < |r|
      ensures r[i] < r[k]
    {
      SplicedAt(axis, j, v, i);
      SplicedAt(axis, j, v, k);
      if k <= j {
      } else if k == j + 1 {
        assert axis[i] <= axis[j];
      } else if i == j + 1 {
        assert axis[j + 1] <= axis[k - 1];
      } else if i <= j {
        assert axis[i] < axis[k - 1];
      }
    }
  }

  lemma SplicedElements(axis: seq<real>, j: nat, v: real)
    requires j < |axis|
    ensures Elements(Spliced(axis, j, v)) == Elements(axis) + {v}
  {
    assert axis == axis[..j + 1] + axis[j + 1..];
  }

  /** Splicing a value between two neighbours keeps the list increasing, adds just v and keeps both ends. */
  lemma SplicedEnds(axis: seq<real>, j: nat, v: real)
    requires StrictlyIncreasing(axis) && j + 1 < |axis| && axis[j] < v < axis[j + 1]
    ensures var r := Spliced(axis, j, v);
            StrictlyIncreasing(r) && r[0] == axis[0] && r[|r| - 1] == axis[|axis| - 1] &&
            Elements(r) == Elements(axis) + {v}
  {
    SplicedSorted(axis, j, v);
    SplicedElements(axis, j, v);
    SplicedAt(axis, j, v, 0);
    SplicedAt(axis, j, v, |axis|);
  }

  /**
   * On a strictly increasing list the scan from j adds v exactly when v lies
   * strictly between axis[j] and the last break (a value already present is
   * not added twice); the list stays strictly increasing with the same two ends.
   */
  lemma {:induction false} InsertFromSpec(axis: seq<real>, v: real, j: nat)
    requires StrictlyIncreasing(axis) && j < |axis|
    decreases |axis| - j
    ensures var r := InsertFrom(axis, v, j);
            StrictlyIncreasing(r) && r[0] == axis[0] && r[|r| - 1] == axis[|axis| - 1] &&
            Elements(r) == Elements(axis) + (if axis[j] < v < axis[|axis| - 1] then {v} else {})
  {
    if j + 1 >= |axis| {
    } else if axis[j] < v && axis[j + 1] > v {
      SplicedEnds(axis, j, v);
      assert axis[j + 1] <= axis[|axis| - 1];
    } else {
      InsertFromSpec(axis, v, j + 1);
      assert InsertFrom(axis, v, j) == InsertFrom(axis, v, j + 1);
      assert axis[j] < axis[j + 1];
      if v == axis[j + 1] {
        assert axis[j + 1] in Elements(axis);
      } else {
        assert (axis[j] < v) == (axis[j + 1] < v);
      }
    }
  }

  lemma CutsSnoc(init: seq<GridPoint>, p: GridPoint, a: Axis)
    ensures Cuts(init + [p], a) ==
            Cuts(init, a) + (if OnAxis(p, a) && 0.0 < Coord(p, a) < 100.0 then {Coord(p, a)} else {})
  {
    var all := init + [p];
    forall q | q in all
      ensures q in init || q == p
    {
    }
  }

  /**
   * Each break list starts at 0, ends at 100, is strictly increasing, and holds
   * exactly the two edges and the cuts of the points on that axis: only
   * on-axis points strictly inside the image are inserted, each value once.
   */
  lemma {:induction false} BreaksShape(points: seq<GridPoint>, a: Axis)
    decreases |points|
    ensures ShapedBreaks(Breaks(points, a), Cuts(points, a))
  {
    if points == [] {
      assert Elements([0.0, 100.0]) == {0.0, 100.0};
    } else {
      var init, p := points[..|points| - 1], points[|points| - 1];
      assert points == init + [p];
      BreaksShape(init, a);
      BreaksShapeStep(init, p, a);
    }
  }

  /**
   * A break list of the right shape for the given cuts: strictly increasing,
   * from 0 to 100, holding exactly the two edges and the cuts.
   */
  ghost predicate ShapedBreaks(b: seq<real>, cuts: set<real>)
  {
    |b| >= 2 && StrictlyIncreasing(b) && b[0] == 0.0 && b[|b| - 1] == 100.0 &&
    Elements(b) == {0.0, 100.0} + cuts
  }

  lemma BreaksShapeStep(init: seq<GridPoint>, p: GridPoint, a: Axis)
    requires ShapedBreaks(Breaks(init, a), Cuts(init, a))
    ensures ShapedBreaks(Breaks(init + [p], a), Cuts(init + [p], a))
  {
    CutsSnoc(init, p, a);
    BreaksSnoc(init, p, a);
    if OnAxis(p, a) {
      InsertShaped(Breaks(init, a), Cuts(init, a), Coord(p, a));
    }
  }

  /** Inserting v into a shaped break list adds v to its cuts when v lies strictly inside the image. */
  lemma InsertShaped(b: seq<real>, cuts: set<real>, v: real)
    requires ShapedBreaks(b, cuts)
    ensures ShapedBreaks(InsertFrom(b, v, 0), cuts + (if 0.0 < v < 100.0 then {v} else {}))
  {
    InsertFromSpec(b, v, 0);
  }

  /** Processing one more point inserts its coordinate into the break list when its line crosses the axis. */
  lemma BreaksSnoc(init: seq<GridPoint>, p: GridPoint, a: Axis)
    ensures Breaks(init + [p], a) ==
            if OnAxis(p, a) then InsertFrom(Breaks(init, a), Coord(p, a), 0) else Breaks(init, a)
  {
    assert (init + [p])[..|init|] == init;
  }

  /** Two strictly increasing lists with the same elements are the same list. */
  lemma {:induction false} SortedUnique(s: seq<real>, t: seq<real>)
    requires StrictlyIncreasing(s) && StrictlyIncreasing(t)
    requires Elements(s) == Elements(t)
    decreases |s|
    ensures s == t
  {
    ElementsEmpty(s);
    ElementsEmpty(t);
    if s == [] || t == [] {
    } else {
      assert s[0] in Elements(t);
      assert t[0] in Elements(s);
      assert s[0] == t[0] by {
        var i :| 0 <= i < |t| && t[i] == s[0];
        var k :| 0 <= k < |s| && s[k] == t[0];
        assert t[0] <= t[i] && s[0] <= s[k];
      }
      DropFirst(s);
      DropFirst(t);
      SortedUnique(s[1..], t[1..]);
      assert s == [s[0]] + s[1..] && t == [t[0]] + t[1..];
    }
  }

  lemma ElementsEmpty(s: seq<real>)
    ensures Elements(s) == {} <==> s == []
  {
    if s != [] {
      assert s[0] in Elements(s);
    }
  }

  lemma DropFirst(s: seq<real>)
    requires StrictlyIncreasing(s) && s != []
    ensures StrictlyIncreasing(s[1..]) && Elements(s[1..]) == Elements(s) - {s[0]}
  {
    assert s == [s[0]] + s[1..];
    forall i | 1 <= i < |s|
      ensures s[i] != s[0]
    {
    }
  }

  /** The break list depends only on which points there are, not on the order they were added in. */
  lemma BreaksOrderIndependent(points: seq<GridPoint>, others: seq<GridPoint>, a: Axis)
    requires multiset(points) == multiset(others)
    ensures Breaks(points, a) == Breaks(others, a)
  {
    assert forall p :: p in points <==> p in multiset(points);
    assert forall p :: p in others <==> p in multiset(others);
    assert Cuts(points, a) == Cuts(others, a);
    BreaksShape(points, a);
    BreaksShape(others, a);
    SortedUnique(Breaks(points, a), Breaks(others, a));
  }

  /** Canvas position of a break: logicalToLocalPos along one axis. */
  function Project(b: real, origin: real, size: real): real
  {
    size * (b / 100.0) + origin
  }

  /**
   * The i-th label of a break list, its first line measured from the drawn
   * image's edge. When the list starts at that edge, as every break list
   * does, the label sits midway between the canvas positions of breaks i and
   * i + 1 and shows their distance in virtual units, rounded.
   */
  function LabelAt(breaks: seq<real>, i: nat, origin: real, size: real, virtualSize: real): (r: DistanceLabel)
    requires i + 1 < |breaks|
    ensures breaks[0] == 0.0 ==>
              r.textCenter == (Project(breaks[i], origin, size) + Project(breaks[i + 1], origin, size)) / 2.0
    ensures r.value == JsRound((breaks[i + 1] - breaks[i]) / 100.0 * virtualSize)
  {
    var previous := if i == 0 then origin else Project(breaks[i], origin, size);
    var current := Project(breaks[i + 1], origin, size);
    assert breaks[i + 1] / 100.0 * virtualSize - breaks[i] / 100.0 * virtualSize ==
           (breaks[i + 1] - breaks[i]) / 100.0 * virtualSize;
    DistanceLabel(previous + (current - previous) / 2.0,
                  JsRound(breaks[i + 1] / 100.0 * virtualSize - breaks[i] / 100.0 * virtualSize))
  }

  /** The labels of one axis: one per pair of neighbouring breaks. */
  function Labels(breaks: seq<real>, origin: real, size: real, virtualSize: real): (r: seq<DistanceLabel>)
    requires |breaks| >= 1
    ensures |r| == |breaks| - 1
  {
    seq(|breaks| - 1, i requires 0 <= i < |breaks| - 1 => LabelAt(breaks, i, origin, size, virtualSize))
  }

  /**
   * On a break list that starts at the image edge, as every Breaks list does,
   * each label sits midway between the canvas positions of its two lines and
   * shows their distance in virtual units, rounded; there is one label fewer
   * than breaks.
   */
  lemma LabelsMeaning(b: seq<real>, origin: real, size: real, virtualSize: real)
    requires |b| >= 1 && b[0] == 0.0
    ensures var labels := Labels(b, origin, size, virtualSize);
            |labels| == |b| - 1 &&
            forall i :: 0 <= i < |labels| ==>
              labels[i].textCenter == (Project(b[i], origin, size) + Project(b[i + 1], origin, size)) / 2.0 &&
              labels[i].value == JsRound((b[i + 1] - b[i]) / 100.0 * virtualSize)
  {
    var labels := Labels(b, origin, size, virtualSize);
    forall i | 0 <= i < |labels|
      ensures labels[i].textCenter == (Project(b[i], origin, size) + Project(b[i + 1], origin, size)) / 2.0
      ensures labels[i].value == JsRound((b[i + 1] - b[i]) / 100.0 * virtualSize)
    {
      assert labels[i] == LabelAt(b, i, origin, size, virtualSize);
    }
  }

  /** A single vertical line at 50 percent with a virtual width of 100 gives the x labels 50 and 50. */
  lemma SplitAtHalf(y: real, horizontal: bool, origin: real, size: real)
    ensures var b := Breaks([GridPoint(50.0, y, horizontal, true)], XAxis);
            b == [0.0, 50.0, 100.0] &&
            var labels := Labels(b, origin, size, 100.0);
            |labels| == 2 && labels[0].value == 50 && labels[1].value == 50
  {
    var points := [GridPoint(50.0, y, horizontal, true)];
    assert points[..0] == [];
    assert InsertFrom([0.0, 100.0], 50.0, 0) == [0.0, 50.0, 100.0];
    var labels := Labels([0.0, 50.0, 100.0], origin, size, 100.0);
    assert labels[0] == LabelAt([0.0, 50.0, 100.0], 0, origin, size, 100.0);
    assert labels[1] == LabelAt([0.0, 50.0, 100.0], 1, origin, size, 100.0);
  }

  /** The evenly spaced break list of n cells: Part(i, n) for i = 0 .. n. */
  function Uniform(n: nat): (u: seq<real>)
    requires n >= 1
    ensures |u| == n + 1
  {
    seq(n + 1, i requires 0 <= i <= n => Part(i, n))
  }

  /** The inner lines of n equal cells. */
  ghost function InnerParts(n: nat): set<real>
    requires n >= 1
  {
    set i | 1 <= i < n :: Part(i, n)
  }

  lemma UniformSorted(n: nat)
    requires n >= 1
    ensures StrictlyIncreasing(Uniform(n))
  {
    var u := Uniform(n);
    forall i, j | 0 <= i < j < |u|
      ensures u[i] < u[j]
    {
      MulStrict(i as real, j as real, 100.0 / n as real);
    }
  }

  lemma UniformElements(n: nat)
    requires n >= 1
    ensures Elements(Uniform(n)) == {0.0, 100.0} + InnerParts(n)
  {
    var u := Uniform(n);
    WholePart(n as real);
    assert u[0] == 0.0 && u[n] == 100.0;
    forall x | x in Elements(u)
      ensures x in {0.0, 100.0} + InnerParts(n)
    {
      var i :| 0 <= i < |u| && u[i] == x;
      if 1 <= i < n { assert x == Part(i, n); }
    }
    forall x | x in InnerParts(n)
      ensures x in Elements(u)
    {
      var i :| 1 <= i < n && x == Part(i, n);
      assert u[i] == x;
    }
  }

  /**
   * The number of equal cells generateGrid(n, m) leaves along an axis: n
   * across and m down, where a side given 0 cells keeps the one whole cell.
   */
  function Cells(n: nat, m: nat, a: Axis): (c: nat)
    ensures c >= 1
    ensures c == 1 || c == (if a == XAxis then n else m)
  {
    if a == XAxis then MaxNat(n, 1) else MaxNat(m, 1)
  }

  /** The i-th generated point cuts the axis inside the image exactly when i is an inner line of that axis. */
  lemma GeneratedPointCut(n: nat, m: nat, a: Axis, i: nat)
    requires FirstStep(n, m) <= i < MaxNat(n, m)
    ensures var p := GeneratedPoint(n, m, i); var c := Cells(n, m, a);
            (OnAxis(p, a) && 0.0 < Coord(p, a) < 100.0 <==> 1 <= i < c) &&
            (1 <= i < c ==> Coord(p, a) == Part(i, c))
  {
    if 1 <= i && 1 <= n { PartPositive(i, n); }
    if 1 <= i && 1 <= m { PartPositive(i, m); }
    if 1 <= i < n { PartBelowWhole(i, n); }
    if 1 <= i < m { PartBelowWhole(i, m); }
  }

  /** The lines generateGrid(n, m) leaves on an axis are exactly the inner lines of its equal cells. */
  lemma GeneratedCuts(n: nat, m: nat, a: Axis)
    ensures Cuts(GeneratedGrid(n, m), a) == InnerParts(Cells(n, m, a))
  {
    forall x | x in Cuts(GeneratedGrid(n, m), a)
      ensures x in InnerParts(Cells(n, m, a))
    {
      GeneratedCutIsPart(n, m, a, x);
    }
    forall x | x in InnerParts(Cells(n, m, a))
      ensures x in Cuts(GeneratedGrid(n, m), a)
    {
      PartIsGeneratedCut(n, m, a, x);
    }
  }

  lemma GeneratedCutIsPart(n: nat, m: nat, a: Axis, x: real)
    requires x in Cuts(GeneratedGrid(n, m), a)
    ensures x in InnerParts(Cells(n, m, a))
  {
    var g := GeneratedGrid(n, m);
    var c := Cells(n, m, a);
    var first := FirstStep(n, m);
    var p :| p in g && OnAxis(p, a) && 0.0 < Coord(p, a) < 100.0 && Coord(p, a) == x;
    var k :| 0 <= k < |g| && g[k] == p;
    GeneratedGridAt(n, m, k + first);
    GeneratedPointCut(n, m, a, k + first);
    assert x == Part(k + first, c);
  }

  lemma PartIsGeneratedCut(n: nat, m: nat, a: Axis, x: real)
    requires x in InnerParts(Cells(n, m, a))
    ensures x in Cuts(GeneratedGrid(n, m), a)
  {
    var g := GeneratedGrid(n, m);
    var c := Cells(n, m, a);
    var first := FirstStep(n, m);
    var i :| 1 <= i < c && x == Part(i, c);
    GeneratedPointCut(n, m, a, i);
    GeneratedGridAt(n, m, i);
    var p := g[i - first];
    assert p in g && OnAxis(p, a) && 0.0 < Coord(p, a) < 100.0 && Coord(p, a) == x;
  }

  /** generateGrid(n, m) splits the x axis into n equal cells and the y axis into m; a side of 0 stays one cell. */
  lemma GeneratedGridBreaks(n: nat, m: nat, a: Axis)
    ensures Breaks(GeneratedGrid(n, m), a) == Uniform(Cells(n, m, a))
  {
    var g := GeneratedGrid(n, m);
    var c := Cells(n, m, a);
    BreaksShape(g, a);
    GeneratedCuts(n, m, a);
    UniformSorted(c);
    UniformElements(c);
    SortedUnique(Breaks(g, a), Uniform(c));
  }

  /** Every label of an n-cell uniform axis shows round(V / n). */
  lemma UniformLabels(n: nat, origin: real, size: real, virtualSize: real)
    requires n >= 1
    ensures var labels := Labels(Uniform(n), origin, size, virtualSize);
            |labels| == n &&
            forall i :: 0 <= i < n ==> labels[i].value == JsRound(virtualSize / n as real)
  {
    var u := Uniform(n);
    var labels := Labels(u, origin, size, virtualSize);
    forall i | 0 <= i < n
      ensures labels[i].value == JsRound(virtualSize / n as real)
    {
      CellWidth(i, n, virtualSize);
    }
  }

  lemma CellWidth(i: nat, n: nat, v: real)
    requires n >= 1
    ensures (Part(i + 1, n) - Part(i, n)) / 100.0 * v == v / n as real
  {
    var q := 100.0 / n as real;
    assert Part(i + 1, n) - Part(i, n) == q;
    WholePart(n as real);
    assert q / 100.0 * n as real == 1.0;
    assert q / 100.0 == 1.0 / n as real;
  }
}
