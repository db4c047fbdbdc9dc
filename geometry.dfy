/** Integer-point geometry shared by the scanners and the counting camera:
    contours with integer vertices (what `findContours` and `approxPolyDP`
    yield), their area by the shoelace rule (`contourArea`), NumPy's
    first-index `argmin`/`argmax`, the corner ordering of `order_points`,
    and Python's stable `sorted(..., key=contourArea, reverse=True)`. */
module Geometry {

  datatype Point = Point(x: int, y: int)

  type Contour = seq<Point>

  function Cross(p: Point, q: Point): int
  {
    p.x * q.y - q.x * p.y
  }

  /** Sum of the edge cross products from vertex `i` on, closing the
      polygon back to vertex 0. */
  function EdgeSum(c: Contour, i: nat): int
    requires i <= |c|
    decreases |c| - i
  {
    if i == |c| then 0 else Cross(c[i], c[(i + 1) % |c|]) + EdgeSum(c, i + 1)
  }

  /** Twice `cv2.contourArea(c)`: the absolute shoelace sum. Working with
      the doubled value keeps areas integral (`area < 1000` is
      `Area2 < 2000`). */
  function Area2(c: Contour): nat
  {
    var s := EdgeSum(c, 0);
    if s < 0 then -s else s
  }

  /** A contour of one or two points encloses nothing. `findContours`
      returns such contours for specks and thin lines; with area 0 they
      fall below every area threshold (the overload camera never counts
      them) and sort behind every contour that encloses something. */
  lemma DegenerateArea(c: Contour)
    requires 1 <= |c| <= 2
    ensures Area2(c) == 0
  {
    if |c| == 1 {
      assert EdgeSum(c, 0) == Cross(c[0], c[0]) + EdgeSum(c, 1);
    } else {
      assert EdgeSum(c, 1) == Cross(c[1], c[0]) + EdgeSum(c, 2);
      assert EdgeSum(c, 0) == Cross(c[0], c[1]) + EdgeSum(c, 1);
      assert Cross(c[1], c[0]) == -Cross(c[0], c[1]);
    }
  }

  /** NumPy `argmin`: the FIRST index holding the least value. */
  function ArgMin(v: seq<int>): (k: nat)
    requires |v| > 0
    ensures k < |v|
    ensures forall j :: 0 <= j < |v| ==> v[k] <= v[j]
    ensures forall j :: 0 <= j < k ==> v[j] > v[k]
  {
    if |v| == 1 then 0
    else
      var k := ArgMin(v[..|v| - 1]);
      assert forall j :: 0 <= j < |v| - 1 ==> v[..|v| - 1][j] == v[j];
      if v[|v| - 1] < v[k] then |v| - 1 else k
  }

  /** NumPy `argmax`: the FIRST index holding the greatest value. */
  function ArgMax(v: seq<int>): (k: nat)
    requires |v| > 0
    ensures k < |v|
    ensures forall j :: 0 <= j < |v| ==> v[j] <= v[k]
    ensures forall j :: 0 <= j < k ==> v[j] < v[k]
  {
    if |v| == 1 then 0
    else
      var k := ArgMax(v[..|v| - 1]);
      assert forall j :: 0 <= j < |v| - 1 ==> v[..|v| - 1][j] == v[j];
      if v[|v| - 1] > v[k] then |v| - 1 else k
  }

  /** `pts.sum(axis=1)` and `np.diff(pts, axis=1)`: x + y and y - x per row. */
  function Sums(pts: seq<Point>): (v: seq<int>)
    ensures |v| == |pts| && forall i :: 0 <= i < |pts| ==> v[i] == pts[i].x + pts[i].y
  {
    seq(|pts|, i requires 0 <= i < |pts| => pts[i].x + pts[i].y)
  }

  function Diffs(pts: seq<Point>): (v: seq<int>)
    ensures |v| == |pts| && forall i :: 0 <= i < |pts| ==> v[i] == pts[i].y - pts[i].x
  {
    seq(|pts|, i requires 0 <= i < |pts| => pts[i].y - pts[i].x)
  }

  /** `pts[k]` is the first point at which `v` takes its least value. */
  predicate FirstMinAt(pts: seq<Point>, v: seq<int>, k: int)
    requires |v| == |pts|
  {
    0 <= k < |pts| && (forall j :: 0 <= j < |v| ==> v[k] <= v[j]) && (forall j :: 0 <= j < k ==> v[j] > v[k])
  }

  predicate FirstMaxAt(pts: seq<Point>, v: seq<int>, k: int)
    requires |v| == |pts|
  {
    0 <= k < |pts| && (forall j :: 0 <= j < |v| ==> v[j] <= v[k]) && (forall j :: 0 <= j < k ==> v[j] < v[k])
  }

  /** `order_points`: top-left (least x + y), top-right (least y - x),
      bottom-right (greatest x + y), bottom-left (greatest y - x), each the
      first such input point. */
  function OrderPoints(pts: seq<Point>): (rect: seq<Point>)
    requires |pts| == 4
    ensures |rect| == 4
    ensures forall i :: 0 <= i < 4 ==> rect[i] in pts
  {
    var s, d := Sums(pts), Diffs(pts);
    [pts[ArgMin(s)], pts[ArgMin(d)], pts[ArgMax(s)], pts[ArgMax(d)]]
  }

  /** The top corners are the first points of least x + y and of least y - x. */
  lemma OrderPointsTop(pts: seq<Point>)
    requires |pts| == 4
    ensures exists k :: FirstMinAt(pts, Sums(pts), k) && OrderPoints(pts)[0] == pts[k]
    ensures exists k :: FirstMinAt(pts, Diffs(pts), k) && OrderPoints(pts)[1] == pts[k]
  {
    var s, d := Sums(pts), Diffs(pts);
    assert FirstMinAt(pts, s, ArgMin(s));
    assert FirstMinAt(pts, d, ArgMin(d));
  }

  /** The bottom corners are the first points of greatest x + y and of
      greatest y - x. */
  lemma OrderPointsBottom(pts: seq<Point>)
    requires |pts| == 4
    ensures exists k :: FirstMaxAt(pts, Sums(pts), k) && OrderPoints(pts)[2] == pts[k]
    ensures exists k :: FirstMaxAt(pts, Diffs(pts), k) && OrderPoints(pts)[3] == pts[k]
  {
    var s, d := Sums(pts), Diffs(pts);
    assert FirstMaxAt(pts, s, ArgMax(s));
    assert FirstMaxAt(pts, d, ArgMax(d));
  }

  /** `pts` lists the four corners of `[x0, x1] x [y0, y1]`, each once. */
  predicate UprightRectangle(pts: seq<Point>, x0: int, y0: int, x1: int, y1: int)
  {
    |pts| == 4 && x0 < x1 && y0 < y1
    && multiset(pts) == multiset{Point(x0, y0), Point(x1, y0), Point(x1, y1), Point(x0, y1)}
  }

  /** The points of such a contour are exactly its corners. */
  lemma RectangleMembers(pts: seq<Point>, x0: int, y0: int, x1: int, y1: int)
    requires UprightRectangle(pts, x0, y0, x1, y1)
    ensures forall i :: 0 <= i < 4 ==> (pts[i].x == x0 || pts[i].x == x1) && (pts[i].y == y0 || pts[i].y == y1)
    ensures Point(x0, y0) in pts && Point(x1, y0) in pts && Point(x1, y1) in pts && Point(x0, y1) in pts
  {
    var tl, tr, br, bl := Point(x0, y0), Point(x1, y0), Point(x1, y1), Point(x0, y1);
    forall i | 0 <= i < 4 ensures pts[i] == tl || pts[i] == tr || pts[i] == br || pts[i] == bl {
      assert pts[i] in multiset(pts);
    }
    assert tl in multiset(pts) && tr in multiset(pts) && br in multiset(pts) && bl in multiset(pts);
  }

  /** Where `v` is least at a point `corner` and larger at every other
      point, the first argmin is that corner (and likewise for argmax). */
  lemma UniqueMin(pts: seq<Point>, v: seq<int>, corner: Point)
    requires |pts| == |v| > 0 && corner in pts
    requires forall i, j :: 0 <= i < |pts| && 0 <= j < |pts| && pts[i] == corner && pts[j] != corner ==> v[i] < v[j]
    ensures pts[ArgMin(v)] == corner
  {
    var a :| 0 <= a < |pts| && pts[a] == corner;
    assert v[ArgMin(v)] <= v[a];
  }

  lemma UniqueMax(pts: seq<Point>, v: seq<int>, corner: Point)
    requires |pts| == |v| > 0 && corner in pts
    requires forall i, j :: 0 <= i < |pts| && 0 <= j < |pts| && pts[i] == corner && pts[j] != corner ==> v[i] > v[j]
    ensures pts[ArgMax(v)] == corner
  {
    var a :| 0 <= a < |pts| && pts[a] == corner;
    assert v[ArgMax(v)] >= v[a];
  }

  lemma TopCornersPicked(pts: seq<Point>, x0: int, y0: int, x1: int, y1: int)
    requires UprightRectangle(pts, x0, y0, x1, y1)
    ensures pts[ArgMin(Sums(pts))] == Point(x0, y0) && pts[ArgMin(Diffs(pts))] == Point(x1, y0)
  {
    RectangleMembers(pts, x0, y0, x1, y1);
    UniqueMin(pts, Sums(pts), Point(x0, y0));
    UniqueMin(pts, Diffs(pts), Point(x1, y0));
  }

  lemma BottomCornersPicked(pts: seq<Point>, x0: int, y0: int, x1: int, y1: int)
    requires UprightRectangle(pts, x0, y0, x1, y1)
    ensures pts[ArgMax(Sums(pts))] == Point(x1, y1) && pts[ArgMax(Diffs(pts))] == Point(x0, y1)
  {
    RectangleMembers(pts, x0, y0, x1, y1);
    UniqueMax(pts, Sums(pts), Point(x1, y1));
    UniqueMax(pts, Diffs(pts), Point(x0, y1));
  }

  /** The four corners of an axis-aligned rectangle `[x0, x1] x [y0, y1]`,
      listed in any order, come out as top-left, top-right, bottom-right,
      bottom-left (image y grows downwards). */
  lemma OrdersUprightRectangle(pts: seq<Point>, x0: int, y0: int, x1: int, y1: int)
    requires UprightRectangle(pts, x0, y0, x1, y1)
    ensures OrderPoints(pts) == [Point(x0, y0), Point(x1, y0), Point(x1, y1), Point(x0, y1)]
  {
    TopCornersPicked(pts, x0, y0, x1, y1);
    BottomCornersPicked(pts, x0, y0, x1, y1);
  }

  /** The simple rule breaks down on a square turned by 45 degrees, as the
      source itself warns: two roles pick the same vertex and another
      vertex is lost. */
  lemma TiltedSquareLosesACorner()
    ensures OrderPoints([Point(1, 0), Point(2, 1), Point(1, 2), Point(0, 1)])
            == [Point(1, 0), Point(1, 0), Point(2, 1), Point(1, 2)]
  {
    var pts := [Point(1, 0), Point(2, 1), Point(1, 2), Point(0, 1)];
    var s, d := Sums(pts), Diffs(pts);
    assert s == [1, 3, 3, 1];
    assert d == [-1, -1, 1, 1];
    var k0, k1, k2, k3 := ArgMin(s), ArgMin(d), ArgMax(s), ArgMax(d);
    assert k0 == 0 by { assert s[k0] <= s[0]; }
    assert k1 == 0 by { assert d[k1] <= d[0]; }
    assert k2 == 1 by { assert s[k2] >= s[1]; }
    assert k3 == 2 by { assert d[k3] >= d[2]; }
  }

  /** A contour with its position in `findContours`' output. */
  datatype Ranked = Ranked(idx: nat, contour: Contour)

  /** The order `sorted(key=contourArea, reverse=True)` produces: larger
      area first, equal areas in their original order. */
  predicate Before(a: Ranked, b: Ranked)
  {
    Area2(a.contour) > Area2(b.contour) || (Area2(a.contour) == Area2(b.contour) && a.idx < b.idx)
  }

  predicate SortedByArea(s: seq<Ranked>)
  {
    forall i, j :: 0 <= i < j < |s| ==> Before(s[i], s[j])
  }

  function Enumerate(cs: seq<Contour>): (r: seq<Ranked>)
    ensures |r| == |cs| && forall i :: 0 <= i < |cs| ==> r[i] == Ranked(i, cs[i])
  {
    seq(|cs|, i requires 0 <= i < |cs| => Ranked(i, cs[i]))
  }

  /** Insertion of a contour that came later in the input than every
      contour already placed. */
  function Insert(s: seq<Ranked>, x: Ranked): (r: seq<Ranked>)
    requires SortedByArea(s)
    requires forall i :: 0 <= i < |s| ==> s[i].idx < x.idx
    ensures |r| == |s| + 1
    ensures multiset(r) == multiset(s) + multiset{x}
    ensures SortedByArea(r)
  {
    if s == [] then [x]
    else if Before(s[0], x) then
      var rest := Insert(s[1..], x);
      assert s == [s[0]] + s[1..];
      PrecedesAll(s[0], s[1..], x, rest);
      [s[0]] + rest
    else
      InsertFront(s, x);
      [x] + s
  }

  /** An entry that the head of a sorted list does not precede, and that is
      numbered after all of it, goes in front. */
  lemma {:induction false} InsertFront(s: seq<Ranked>, x: Ranked)
    requires SortedByArea(s) && s != [] && !Before(s[0], x)
    requires forall i :: 0 <= i < |s| ==> s[i].idx < x.idx
    ensures SortedByArea([x] + s)
  {
    var r := [x] + s;
    forall i, j | 0 <= i < j < |r| ensures Before(r[i], r[j]) {
      assert r[j] == s[j - 1];
      if i == 0 {
        if j > 1 {
          assert Before(s[0], s[j - 1]);
        }
      } else {
        assert r[i] == s[i - 1];
      }
    }
  }

  /** An entry that precedes `x` and every entry of `t` stays first when
      `x` is inserted into `t`. */
  lemma {:induction false} PrecedesAll(h: Ranked, t: seq<Ranked>, x: Ranked, rest: seq<Ranked>)
    requires SortedByArea([h] + t) && SortedByArea(rest) && Before(h, x)
    requires multiset(rest) == multiset(t) + multiset{x}
    ensures SortedByArea([h] + rest)
  {
    var r := [h] + rest;
    forall j | 0 < j < |r| ensures Before(r[0], r[j]) {
      assert r[j] == rest[j - 1];
      assert rest[j - 1] in multiset(t) + multiset{x};
      if rest[j - 1] != x {
        var p :| 0 <= p < |t| && t[p] == rest[j - 1];
        var ht := [h] + t;
        assert ht[0] == h && ht[p + 1] == t[p];
        assert Before(ht[0], ht[p + 1]);
      }
    }
    assert forall j :: 0 < j < |r| ==> r[j] == rest[j - 1];
  }

  lemma EnumerateStep(cs: seq<Contour>, n: nat)
    requires 0 < n <= |cs|
    ensures Enumerate(cs)[..n] == Enumerate(cs)[..n - 1] + [Ranked(n - 1, cs[n - 1])]
  {
  }

  /** Inserting a contour numbered `n - 1` into entries numbered below it
      leaves every entry numbered below `n`. */
  lemma InsertIndexBound(prev: seq<Ranked>, x: Ranked, r: seq<Ranked>, n: nat)
    requires x.idx == n - 1
    requires forall i :: 0 <= i < |prev| ==> prev[i].idx < n - 1
    requires multiset(r) == multiset(prev) + multiset{x}
    ensures forall i :: 0 <= i < |r| ==> r[i].idx < n
  {
    forall i | 0 <= i < |r| ensures r[i].idx < n {
      assert r[i] in multiset(prev) + multiset{x};
    }
  }

  /** The first `n` contours, sorted. */
  function SortPrefix(cs: seq<Contour>, n: nat): (r: seq<Ranked>)
    requires n <= |cs|
    ensures |r| == n
    ensures multiset(r) == multiset(Enumerate(cs)[..n])
    ensures forall i :: 0 <= i < n ==> r[i].idx < n
    ensures SortedByArea(r)
  {
    if n == 0 then []
    else
      var prev := SortPrefix(cs, n - 1);
      var x := Ranked(n - 1, cs[n - 1]);
      EnumerateStep(cs, n);
      var r := Insert(prev, x);
      InsertIndexBound(prev, x, r, n);
      r
  }

  /** `sorted(cnts, key=cv2.contourArea, reverse=True)`: every contour
      exactly once, larger areas first, ties in input order. */
  function SortByArea(cs: seq<Contour>): (r: seq<Ranked>)
    ensures |r| == |cs|
    ensures multiset(r) == multiset(Enumerate(cs))
    ensures SortedByArea(r)
    ensures forall i :: 0 <= i < |r| ==> r[i].idx < |cs| && r[i].contour == cs[r[i].idx]
  {
    var r := SortPrefix(cs, |cs|);
    assert Enumerate(cs)[..|cs|] == Enumerate(cs);
    forall i | 0 <= i < |r| ensures r[i].contour == cs[r[i].idx] {
      assert r[i] in multiset(Enumerate(cs));
      var j :| 0 <= j < |cs| && Enumerate(cs)[j] == r[i];
    }
    r
  }

  /** The first `m` entries of the sorted list precede every contour left
      out of them: they are the `m` largest, ties going to earlier input. */
  lemma TopOfSort(cs: seq<Contour>, m: nat)
    requires m <= |cs|
    ensures forall i, j ::
              0 <= i < m && 0 <= j < |cs| && (forall t :: 0 <= t < m ==> SortByArea(cs)[t].idx != j)
              ==> Before(SortByArea(cs)[i], Ranked(j, cs[j]))
  {
    var s := SortByArea(cs);
    forall i, j | 0 <= i < m && 0 <= j < |cs| && (forall t :: 0 <= t < m ==> s[t].idx != j)
      ensures Before(s[i], Ranked(j, cs[j]))
    {
      assert Enumerate(cs)[j] == Ranked(j, cs[j]);
      assert Ranked(j, cs[j]) in multiset(s);
      var p :| 0 <= p < |s| && s[p] == Ranked(j, cs[j]);
      assert s[p].idx == j;
      assert i < p;
    }
  }

  /** The head of the sorted list is the first contour of greatest area. */
  lemma LargestFirst(cs: seq<Contour>)
    requires cs != []
    ensures var top := SortByArea(cs)[0];
            forall j :: 0 <= j < |cs| ==>
              Area2(cs[j]) <= Area2(top.contour) && (j < top.idx ==> Area2(cs[j]) < Area2(top.contour))
  {
    var s := SortByArea(cs);
    TopOfSort(cs, 1);
    forall j | 0 <= j < |cs|
      ensures Area2(cs[j]) <= Area2(s[0].contour) && (j < s[0].idx ==> Area2(cs[j]) < Area2(s[0].contour))
    {
      if j != s[0].idx {
        assert Before(s[0], Ranked(j, cs[j]));
      }
    }
  }
}
