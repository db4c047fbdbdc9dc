/** The live document scanner's per-frame decision: the five largest
    contours, the first whose polygon approximation has four vertices, its
    corners ordered, and the fixed 500 x 500 target. The capture, the edge
    detection and the warp itself are outside the model; `approxPolyDP` is
    an oracle. */
module RealtimeScanner {
  import opened Outcomes
  import opened Geometry

  const MaxWidth := 500
  const MaxHeight := 500

  /** The target corners, pixel-inclusive: `maxWidth - 1`, `maxHeight - 1`. */
  const Destination: seq<Point> :=
    [Point(0, 0), Point(MaxWidth - 1, 0), Point(MaxWidth - 1, MaxHeight - 1), Point(0, MaxHeight - 1)]

  function Min(a: int, b: int): int
  {
    if a <= b then a else b
  }

  /** `sorted(cnts, key=cv2.contourArea, reverse=True)[:5]`. */
  function Candidates(cs: seq<Contour>): (r: seq<Ranked>)
    ensures |r| == Min(5, |cs|)
    ensures SortedByArea(r)
    ensures forall i :: 0 <= i < |r| ==> r[i].idx < |cs| && r[i].contour == cs[r[i].idx]
  {
    SortByArea(cs)[..Min(5, |cs|)]
  }

  /** The candidates are the five largest contours: each of them precedes
      every contour that did not make the cut. */
  lemma CandidatesAreLargest(cs: seq<Contour>)
    ensures var r := Candidates(cs);
            forall i, j :: 0 <= i < |r| && 0 <= j < |cs| && (forall t :: 0 <= t < |r| ==> r[t].idx != j)
              ==> Before(r[i], Ranked(j, cs[j]))
  {
    var m := Min(5, |cs|);
    TopOfSort(cs, m);
    var r, s := Candidates(cs), SortByArea(cs);
    assert forall i :: 0 <= i < m ==> r[i] == s[i];
  }

  /** The `for c in cnts` loop: the approximation of the first candidate
      that has exactly four vertices, or None. */
  method SelectScreen(cands: seq<Ranked>, approx: Contour -> Contour) returns (screen: Option<Contour>)
    ensures screen.Some? ==>
              exists k :: 0 <= k < |cands| && |approx(cands[k].contour)| == 4
                          && screen.value == approx(cands[k].contour)
                          && forall j :: 0 <= j < k ==> |approx(cands[j].contour)| != 4
    ensures screen.None? ==> forall k :: 0 <= k < |cands| ==> |approx(cands[k].contour)| != 4
  {
    screen := None;
    var k := 0;
    while k < |cands|
      invariant 0 <= k <= |cands|
      invariant forall j :: 0 <= j < k ==> |approx(cands[j].contour)| != 4
    {
      var a := approx(cands[k].contour);
      if |a| == 4 {
        screen := Some(a);
        return;
      }
      k := k + 1;
    }
  }

  datatype FrameResult = NoDocument | Document(screen: Contour, rect: seq<Point>, dst: seq<Point>)

  /** One frame: candidates, selection, and, when a quadrilateral is found,
      its ordered corners and the target corners for the warp. The screen
      is the approximation of the FIRST candidate with four vertices. */
  method ScanFrame(contours: seq<Contour>, approx: Contour -> Contour) returns (r: FrameResult)
    ensures r.NoDocument? <==>
              forall k :: 0 <= k < |Candidates(contours)| ==> |approx(Candidates(contours)[k].contour)| != 4
    ensures r.Document? ==>
              |r.screen| == 4 && r.rect == OrderPoints(r.screen) && r.dst == Destination
              && exists k :: 0 <= k < |Candidates(contours)| && r.screen == approx(Candidates(contours)[k].contour)
                             && forall j :: 0 <= j < k ==> |approx(Candidates(contours)[j].contour)| != 4
    ensures r.Document? ==> forall i :: 0 <= i < 4 ==> r.rect[i] in r.screen
  {
    var cands := Candidates(contours);
    var screen := SelectScreen(cands, approx);
    if screen.Some? {
      var pts := screen.value;
      r := Document(pts, OrderPoints(pts), Destination);
    } else {
      r := NoDocument;
    }
  }
}
