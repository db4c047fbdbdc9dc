/** The one-shot scanner: the largest contour, its polygon approximation
    (an oracle), and, when that has four vertices, the corner ordering
    written into `rect` entry by entry and the 300 x 300 target. */
module AutoScan {
  import opened Outcomes
  import opened Geometry

  const Width := 300
  const Height := 300

  /** The target corners as written: `width` and `height`, not minus one. */
  const Destination: seq<Point> := [Point(0, 0), Point(Width, 0), Point(Width, Height), Point(0, Height)]

  /** `NoContour` is the IndexError of `sorted(...)[0]` on an empty list. */
  datatype ScanResult = NoContour | NotQuadrilateral(vertices: nat) | Warped(rect: seq<Point>, dst: seq<Point>)

  /** The inline corner ordering: a zeroed 4-entry `rect` whose entries are
      assigned one by one; it agrees with `order_points`. */
  method OrderCorners(pts: seq<Point>) returns (rect: array<Point>)
    requires |pts| == 4
    ensures fresh(rect) && rect.Length == 4
    ensures rect[..] == OrderPoints(pts)
  {
    rect := new Point[4](_ => Point(0, 0));
    var s, d := Sums(pts), Diffs(pts);
    rect[0] := pts[ArgMin(s)];
    rect[2] := pts[ArgMax(s)];
    rect[1] := pts[ArgMin(d)];
    rect[3] := pts[ArgMax(d)];
  }

  method Scan(contours: seq<Contour>, approx: Contour -> Contour)
    returns (chosen: Option<Contour>, r: ScanResult)
    ensures chosen.None? <==> contours == []
    ensures r.NoContour? <==> contours == []
    // the chosen contour is the first one of greatest area
    ensures chosen.Some? ==>
              exists k :: 0 <= k < |contours| && contours[k] == chosen.value
                          && (forall j :: 0 <= j < |contours| ==> Area2(contours[j]) <= Area2(chosen.value))
                          && (forall j :: 0 <= j < k ==> Area2(contours[j]) < Area2(chosen.value))
    ensures chosen.Some? ==> (r.Warped? <==> |approx(chosen.value)| == 4)
    ensures r.NotQuadrilateral? ==> chosen.Some? && r.vertices == |approx(chosen.value)| != 4
    ensures r.Warped? ==> r.rect == OrderPoints(approx(chosen.value)) && r.dst == Destination
  {
    if contours == [] {
      return None, NoContour;
    }
    var sorted := SortByArea(contours);
    var c := sorted[0].contour;
    chosen := Some(c);
    LargestFirst(contours);
    assert contours[sorted[0].idx] == c;
    var pts := approx(c);
    if |pts| == 4 {
      var rect := OrderCorners(pts);
      r := Warped(rect[..], Destination);
    } else {
      r := NotQuadrilateral(|pts|);
    }
  }
}
