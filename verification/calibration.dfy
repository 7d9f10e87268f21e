/**
 * What the calibration methods of `PositionEstimation`
 * (emioapi/_positionestimation.py) compute, as functions on values: the
 * reference board built in `__init__`, the marker-id scan and the records of
 * the eight-marker `calibrate`, the nine points of one
 * `calibrate_single_marker` pass and the averaging of aggregated passes, and
 * the transform `init_position_estimation` rebuilds from the stored records.
 * The class in position_estimation.dfy runs the source's loops and is proved
 * to agree with these functions.
 */
module Calibration {
  import opened Outcomes
  import opened Geometry

  // ---------------------------------------------------------------------
  // Reference geometry (PositionEstimation.__init__)
  // ---------------------------------------------------------------------

  /** `calibrationboard_size`. */
  const BoardWidth: real := 100.0
  const BoardHeight: real := 3.0
  const BoardDepth: real := 100.0

  /** `h` is half the board's diagonal, `sqrt(w^2 + d^2) / 2`. */
  predicate IsHypotenuse(h: real) {
    h > 0.0 && h * h == (BoardWidth * BoardWidth + BoardDepth * BoardDepth) / 4.0
  }

  /**
   * `absolute_positions`: four anchors on the board's axes at distance `h`
   * from its centre, the midpoints of the four sides they span, and the
   * centre, all at the board's height.
   */
  function AbsolutePositions(h: real): (ps: seq<Vec3>)
    ensures |ps| == 9
    ensures forall i :: 0 <= i < 9 ==> ps[i].y == BoardHeight
    ensures ps[0].z == 0.0 && ps[2] == Vec3(-ps[0].x, BoardHeight, 0.0)
    ensures ps[1].x == 0.0 && ps[3] == Vec3(0.0, BoardHeight, -ps[1].z)
    ensures ps[4] == Midpoint(ps[0], ps[1]) && ps[5] == Midpoint(ps[1], ps[2])
    ensures ps[6] == Midpoint(ps[2], ps[3]) && ps[7] == Midpoint(ps[3], ps[0])
    ensures ps[8].x == 0.0 && ps[8].z == 0.0
  {
    var p0 := Vec3(-h, BoardHeight, 0.0);
    var p1 := Vec3(0.0, BoardHeight, -h);
    var p2 := Vec3(h, BoardHeight, 0.0);
    var p3 := Vec3(0.0, BoardHeight, h);
    [p0, p1, p2, p3, Midpoint(p0, p1), Midpoint(p1, p2), Midpoint(p2, p3), Midpoint(p3, p0),
     Vec3(0.0, BoardHeight, 0.0)]
  }

  /** Opposite anchors are a board diagonal apart. */
  lemma OppositeAnchorsSpanDiagonal(h: real)
    requires IsHypotenuse(h)
    ensures var ps := AbsolutePositions(h);
            var d := Sub(ps[2], ps[0]);
            var e := Sub(ps[3], ps[1]);
            Dot(d, d) == BoardWidth * BoardWidth + BoardDepth * BoardDepth &&
            Dot(e, e) == BoardWidth * BoardWidth + BoardDepth * BoardDepth
  {
    var ps := AbsolutePositions(h);
    assert Sub(ps[2], ps[0]) == Vec3(2.0 * h, 0.0, 0.0);
    assert Sub(ps[3], ps[1]) == Vec3(0.0, 0.0, 2.0 * h);
    assert (2.0 * h) * (2.0 * h) == 4.0 * (h * h);
  }

  /** The centre anchor is the centroid of all nine anchors. */
  lemma ReferenceCentroid(h: real)
    ensures Mean(AbsolutePositions(h)) == AbsolutePositions(h)[8]
  {
    var ps := AbsolutePositions(h);
    assert Sum(ps[9..]) == Zero;
    assert Sum(ps[8..]) == Add(ps[8], Sum(ps[9..]));
    assert Sum(ps[7..]) == Add(ps[7], Sum(ps[8..]));
    assert Sum(ps[6..]) == Add(ps[6], Sum(ps[7..]));
    assert Sum(ps[5..]) == Add(ps[5], Sum(ps[6..]));
    assert Sum(ps[4..]) == Add(ps[4], Sum(ps[5..]));
    assert Sum(ps[3..]) == Add(ps[3], Sum(ps[4..]));
    assert Sum(ps[2..]) == Add(ps[2], Sum(ps[3..]));
    assert Sum(ps[1..]) == Add(ps[1], Sum(ps[2..]));
    assert Sum(ps) == Add(ps[0], Sum(ps[1..]));
    assert Sum(ps) == Vec3(0.0, 9.0 * BoardHeight, 0.0);
  }

  // ---------------------------------------------------------------------
  // Detector output, records and the calibrating object's state
  // ---------------------------------------------------------------------

  /** One detected marker: its four corner pixels, in the detector's order, and its id. */
  datatype Marker = Marker(corners: seq<Point2>, id: int)

  predicate WellFormed(markers: seq<Marker>) {
    forall i :: 0 <= i < |markers| ==> |markers[i].corners| == 4
  }

  /** One row `X, Y, Depth, id` of the calibration file. */
  datatype Record = Record(x: int, y: int, depth: real, id: int)

  /**
   * The fields `points`, `trackers_pos`, `count_calibration_frames` of
   * `PositionEstimation` and the calibration file's rows (`None` while the
   * file does not exist).
   */
  datatype Session = Session(points: seq<Point2>, trackers: seq<Vec3>, count: nat, store: Option<seq<Record>>)

  /** The state after a call and what the call returned or raised. */
  datatype Step = Step(session: Session, result: Outcome<bool>)

  /** The pixel the corners of a marker average to, each coordinate truncated by `int()`. */
  function QuadCentre(c: seq<Point2>): (p: Point2)
    requires |c| == 4
    ensures p.x == Trunc((c[0].x + c[1].x + c[2].x + c[3].x) / 4.0) as real
    ensures p.y == Trunc((c[0].y + c[1].y + c[2].y + c[3].y) / 4.0) as real
  {
    Point2(Trunc((c[0].x + c[1].x + c[2].x + c[3].x) / 4.0) as real,
           Trunc((c[0].y + c[1].y + c[2].y + c[3].y) / 4.0) as real)
  }

  // ---------------------------------------------------------------------
  // calibrate: the eight-marker protocol
  // ---------------------------------------------------------------------

  const BoardMarkerCount: nat := 8
  /** Depths below this are taken as unknown. */
  const MinDepth: real := 5.0

  function Ids(markers: seq<Marker>): (ids: seq<int>)
    ensures |ids| == |markers| && forall i :: 0 <= i < |markers| ==> ids[i] == markers[i].id
  {
    seq(|markers|, i requires 0 <= i < |markers| => markers[i].id)
  }

  /** The element of the eight-entry list `counted` that `counted[id]` designates: Python counts negative indices from the end. */
  function Slot(id: int): (slot: int)
    ensures -8 <= id <= 7 ==> 0 <= slot < 8 && (slot - id) % 8 == 0
  {
    if id < 0 then id + 8 else id
  }

  /**
   * The scan over the detected ids with the list `counted`: reject an id
   * above 7, raise on an index outside the list, reject an id whose entry is
   * already marked. `seen` holds the entries marked so far.
   */
  function ScanIds(ids: seq<int>, seen: set<int>): (o: Outcome<bool>)
    ensures o.Raised? ==> o.error == IndexError && exists i :: 0 <= i < |ids| && ids[i] < -8
    ensures o == Returned(true) ==> forall i :: 0 <= i < |ids| ==> -8 <= ids[i] <= 7
  {
    if ids == [] then Returned(true)
    else if ids[0] > 7 then Returned(false)
    else if ids[0] < -8 then Raised(IndexError)
    else if Slot(ids[0]) in seen then Returned(false)
    else ScanIds(ids[1..], seen + {Slot(ids[0])})
  }

  predicate InSlotRange(ids: seq<int>) {
    forall i :: 0 <= i < |ids| ==> -8 <= ids[i] <= 7
  }

  predicate DistinctSlots(ids: seq<int>) {
    forall i, j :: 0 <= i < j < |ids| ==> Slot(ids[i]) != Slot(ids[j])
  }

  /** The scan accepts exactly the ids that index `counted` and mark distinct, unmarked entries. */
  lemma {:induction false} ScanIdsAccepts(ids: seq<int>, seen: set<int>)
    ensures ScanIds(ids, seen) == Returned(true) <==>
            InSlotRange(ids) && DistinctSlots(ids) && forall i :: 0 <= i < |ids| ==> Slot(ids[i]) !in seen
  {
    if ids != [] && -8 <= ids[0] <= 7 && Slot(ids[0]) !in seen {
      var rest := ids[1..];
      ScanIdsAccepts(rest, seen + {Slot(ids[0])});
      if InSlotRange(ids) && DistinctSlots(ids) && forall i :: 0 <= i < |ids| ==> Slot(ids[i]) !in seen {
        assert forall i :: 0 <= i < |rest| ==> rest[i] == ids[i + 1];
      }
      if ScanIds(ids, seen) == Returned(true) {
        forall i, j | 0 <= i < j < |ids| ensures Slot(ids[i]) != Slot(ids[j]) {
          if i > 0 { assert ids[i] == rest[i - 1] && ids[j] == rest[j - 1]; }
          else { assert ids[j] == rest[j - 1]; }
        }
        forall i | 0 <= i < |ids| ensures -8 <= ids[i] <= 7 && Slot(ids[i]) !in seen {
          if i > 0 { assert ids[i] == rest[i - 1]; }
        }
      }
    }
  }

  /** The integers 0, ..., n - 1. */
  function Below(n: nat): (r: set<int>)
    ensures |r| == n && forall k :: k in r <==> 0 <= k < n
  {
    if n == 0 then {} else Below(n - 1) + {n - 1}
  }

  function Elems(s: seq<int>): (r: set<int>)
    ensures forall x :: x in r <==> x in s
  {
    set x | x in s
  }

  lemma {:induction false} DistinctElems(s: seq<int>)
    requires forall i, j :: 0 <= i < j < |s| ==> s[i] != s[j]
    ensures |Elems(s)| == |s|
  {
    if s != [] {
      DistinctElems(s[1..]);
      assert Elems(s) == Elems(s[1..]) + {s[0]};
      assert s[0] !in Elems(s[1..]);
    }
  }

  /** Each of the board's ids 0..7 detected exactly once. */
  predicate IsBoardIdPermutation(ids: seq<int>) {
    && |ids| == BoardMarkerCount
    && (forall k :: 0 <= k < 8 ==> k in ids)
    && (forall i :: 0 <= i < |ids| ==> 0 <= ids[i] < 8)
    && (forall i, j :: 0 <= i < j < |ids| ==> ids[i] != ids[j])
  }

  /** A subset as large as its superset is the superset. */
  lemma FullSubset(e: set<int>, b: set<int>)
    requires e <= b && |e| == |b|
    ensures e == b
  {
    assert |b - e| == |b| - |e|;
  }

  /** `n` distinct ids in 0..n - 1 cover all of 0..n - 1. */
  lemma DistinctIdsCover(ids: seq<int>)
    requires forall i :: 0 <= i < |ids| ==> 0 <= ids[i] < |ids|
    requires forall i, j :: 0 <= i < j < |ids| ==> ids[i] != ids[j]
    ensures forall k :: 0 <= k < |ids| ==> k in ids
  {
    DistinctElems(ids);
    FullSubset(Elems(ids), Below(|ids|));
  }

  /** For eight non-negative ids, the scan accepts exactly the permutations of 0..7. */
  lemma ScanAcceptsPermutations(ids: seq<int>)
    requires |ids| == BoardMarkerCount && forall i :: 0 <= i < |ids| ==> ids[i] >= 0
    ensures ScanIds(ids, {}) == Returned(true) <==> IsBoardIdPermutation(ids)
  {
    ScanIdsAccepts(ids, {});
    assert forall i :: 0 <= i < |ids| ==> Slot(ids[i]) == ids[i];
    if InSlotRange(ids) && DistinctSlots(ids) {
      DistinctIdsCover(ids);
    }
  }

  /** The pixel `calibrate` takes for a marker. */
  function MarkerPixel(m: Marker): Point2
    requires |m.corners| == 4
  {
    QuadCentre(m.corners)
  }

  /** `get_depth(get_marker_mask(corner, frame), depth_image)`: the depth under a marker's footprint. */
  type MarkerDepth = seq<Point2> -> real

  function MarkerPixels(markers: seq<Marker>): seq<Point2>
    requires WellFormed(markers)
  {
    seq(|markers|, i requires 0 <= i < |markers| => MarkerPixel(markers[i]))
  }

  function MarkerTrackers(markers: seq<Marker>, depthOf: MarkerDepth, intr: Intrinsics): seq<Vec3>
    requires WellFormed(markers) && ValidIntrinsics(intr)
  {
    seq(|markers|, i requires 0 <= i < |markers| =>
      PixelsToMm(depthOf(markers[i].corners), MarkerPixel(markers[i]).x, MarkerPixel(markers[i]).y, intr))
  }

  /** The rows `calibrate` writes, one per marker in detection order. */
  function BoardRecords(markers: seq<Marker>, depthOf: MarkerDepth): seq<Record>
    requires WellFormed(markers)
  {
    seq(|markers|, i requires 0 <= i < |markers| =>
      Record(Trunc(MarkerPixel(markers[i]).x), Trunc(MarkerPixel(markers[i]).y), depthOf(markers[i].corners), markers[i].id))
  }

  /** The rows written from the recorded pixels and positions and the detected ids: truncated pixel, depth, id. */
  function RowsOf(pts: seq<Point2>, trk: seq<Vec3>, ids: seq<int>): (rows: seq<Record>)
    requires |pts| == |trk| == |ids|
    ensures |rows| == |trk|
  {
    seq(|trk|, i requires 0 <= i < |trk| => Record(Trunc(pts[i].x), Trunc(pts[i].y), trk[i].z, ids[i]))
  }

  /** The rows written from the measurements are the board's records. */
  lemma RowsOfMeasurements(markers: seq<Marker>, depthOf: MarkerDepth, intr: Intrinsics)
    requires WellFormed(markers) && ValidIntrinsics(intr)
    ensures RowsOf(MarkerPixels(markers), MarkerTrackers(markers, depthOf, intr), Ids(markers)) == BoardRecords(markers, depthOf)
  {
    var rows := RowsOf(MarkerPixels(markers), MarkerTrackers(markers, depthOf, intr), Ids(markers));
    forall i | 0 <= i < |markers| ensures rows[i] == BoardRecords(markers, depthOf)[i] {
      assert MarkerTrackers(markers, depthOf, intr)[i].z == depthOf(markers[i].corners);
    }
  }

  predicate DepthsKnown(trackers: seq<Vec3>) {
    forall i :: 0 <= i < |trackers| ==> trackers[i].z >= MinDepth
  }

  /** `calibrate`: what it returns and how it leaves the state and the file. */
  function CalibrateStep(s: Session, markers: seq<Marker>, depthOf: MarkerDepth, intr: Intrinsics): (st: Step)
    requires WellFormed(markers) && ValidIntrinsics(intr)
    ensures |markers| != BoardMarkerCount ==> st == Step(s, Returned(false))
    ensures st.result != Returned(true) ==> st.session.store == s.store
    ensures st.session.count == s.count
  {
    if |markers| == 0 || |markers| < BoardMarkerCount || |markers| > BoardMarkerCount then Step(s, Returned(false))
    else
      match ScanIds(Ids(markers), {})
      case Raised(e) => Step(s, Raised(e))
      case Returned(ok) =>
        if !ok then Step(s, Returned(false))
        else
          var pts := MarkerPixels(markers);
          var trk := MarkerTrackers(markers, depthOf, intr);
          if !DepthsKnown(trk) then Step(Session(pts, trk, s.count, s.store), Returned(false))
          else Step(Session(pts, trk, s.count, Some(BoardRecords(markers, depthOf))), Returned(true))
  }

  /** Once eight markers pass the id scan, `calibrate` records their pixels and positions and writes the rows if every depth is known. */
  lemma CalibrateStepAccepted(s: Session, markers: seq<Marker>, depthOf: MarkerDepth, intr: Intrinsics)
    requires WellFormed(markers) && ValidIntrinsics(intr)
    requires |markers| == BoardMarkerCount && ScanIds(Ids(markers), {}) == Returned(true)
    ensures DepthsKnown(MarkerTrackers(markers, depthOf, intr)) ==>
              CalibrateStep(s, markers, depthOf, intr) ==
              Step(Session(MarkerPixels(markers), MarkerTrackers(markers, depthOf, intr), s.count, Some(BoardRecords(markers, depthOf))), Returned(true))
    ensures !DepthsKnown(MarkerTrackers(markers, depthOf, intr)) ==>
              CalibrateStep(s, markers, depthOf, intr) ==
              Step(Session(MarkerPixels(markers), MarkerTrackers(markers, depthOf, intr), s.count, s.store), Returned(false))
  {
  }

  /**
   * `calibrate` succeeds exactly when eight markers are seen whose ids pass
   * the scan and whose depths are all known; it then writes eight rows, one
   * per marker in detection order, and the ids form a permutation of 0..7
   * whenever they are non-negative.
   */
  lemma CalibrateSucceeds(s: Session, markers: seq<Marker>, depthOf: MarkerDepth, intr: Intrinsics)
    requires WellFormed(markers) && ValidIntrinsics(intr)
    ensures var st := CalibrateStep(s, markers, depthOf, intr);
            st.result == Returned(true) <==>
              |markers| == BoardMarkerCount && InSlotRange(Ids(markers)) && DistinctSlots(Ids(markers)) &&
              forall i :: 0 <= i < |markers| ==> depthOf(markers[i].corners) >= MinDepth
    ensures var st := CalibrateStep(s, markers, depthOf, intr);
            st.result == Returned(true) ==>
              && st.session.store.Some?
              && |st.session.store.value| == BoardMarkerCount
              && (forall i :: 0 <= i < BoardMarkerCount ==>
                    && st.session.store.value[i].id == markers[i].id
                    && st.session.store.value[i].depth == depthOf(markers[i].corners) >= MinDepth
                    && st.session.store.value[i].x as real == MarkerPixel(markers[i]).x
                    && st.session.store.value[i].y as real == MarkerPixel(markers[i]).y)
              && ((forall i :: 0 <= i < |markers| ==> markers[i].id >= 0) ==> IsBoardIdPermutation(Ids(markers)))
  {
    ScanIdsAccepts(Ids(markers), {});
    var st := CalibrateStep(s, markers, depthOf, intr);
    if |markers| == BoardMarkerCount && ScanIds(Ids(markers), {}) == Returned(true) {
      var trk := MarkerTrackers(markers, depthOf, intr);
      assert forall i :: 0 <= i < |markers| ==> trk[i].z == depthOf(markers[i].corners);
      if forall i :: 0 <= i < |markers| ==> markers[i].id >= 0 {
        ScanAcceptsPermutations(Ids(markers));
      }
      BoardRecordsOfMarkers(markers, depthOf);
    }
  }

  /** Each board row holds its marker's pixel (already integral), its depth and its id. */
  lemma BoardRecordsOfMarkers(markers: seq<Marker>, depthOf: MarkerDepth)
    requires WellFormed(markers)
    ensures forall i :: 0 <= i < |markers| ==>
              && BoardRecords(markers, depthOf)[i].id == markers[i].id
              && BoardRecords(markers, depthOf)[i].depth == depthOf(markers[i].corners)
              && BoardRecords(markers, depthOf)[i].x as real == MarkerPixel(markers[i]).x
              && BoardRecords(markers, depthOf)[i].y as real == MarkerPixel(markers[i]).y
  {
    forall i | 0 <= i < |markers|
      ensures Trunc(MarkerPixel(markers[i]).x) as real == MarkerPixel(markers[i]).x
      ensures Trunc(MarkerPixel(markers[i]).y) as real == MarkerPixel(markers[i]).y
    {
      var c := markers[i].corners;
      TruncOfInteger(Trunc((c[0].x + c[1].x + c[2].x + c[3].x) / 4.0));
      TruncOfInteger(Trunc((c[0].y + c[1].y + c[2].y + c[3].y) / 4.0));
    }
  }

  // ---------------------------------------------------------------------
  // calibrate_single_marker: one pass over a single marker
  // ---------------------------------------------------------------------

  /** The reserved id of the single calibration marker. */
  const SingleMarkerId: int := 672

  /** `depth_image[row][column]`. */
  type DepthImage = (int, int) -> real

  /** `depth_image[int(p.y)][int(p.x)]`. */
  function DepthAt(img: DepthImage, p: Point2): real {
    img(Trunc(p.y), Trunc(p.x))
  }

  /**
   * The nine pixels of a pass: the four corners, the midpoints of the sides
   * (0,1), (1,2), (2,3), (3,0), and the truncated centre.
   */
  function PassPixels(c: seq<Point2>): (px: seq<Point2>)
    requires |c| == 4
    ensures |px| == 9 && px[..4] == c && px[8] == QuadCentre(c)
    ensures px[4] == Midpoint2(c[0], c[1]) && px[5] == Midpoint2(c[1], c[2])
    ensures px[6] == Midpoint2(c[2], c[3]) && px[7] == Midpoint2(c[3], c[0])
  {
    c + [Midpoint2(c[0], c[1]), Midpoint2(c[1], c[2]), Midpoint2(c[2], c[3]), Midpoint2(c[3], c[0])] + [QuadCentre(c)]
  }

  /** A side's position: x and y are the midpoint of its corners' positions. */
  predicate SideOf(side: Vec3, a: Vec3, b: Vec3) {
    side.x == (a.x + b.x) / 2.0 && side.y == (a.y + b.y) / 2.0
  }

  /** The midpoint of two corner positions, with the depth `z` sampled at the side's own pixel. */
  function SideTracker(a: Vec3, b: Vec3, z: real): (t: Vec3)
    ensures SideOf(t, a, b) && t.z == z
  {
    Vec3((a.x + b.x) / 2.0, (a.y + b.y) / 2.0, z)
  }

  /** The points and camera-frame positions one pass produces. */
  datatype Frame = Frame(points: seq<Point2>, trackers: seq<Vec3>)

  /** A corner's position: the corner pixel back-projected with the depth sampled under it. */
  function CornerTracker(p: Point2, img: DepthImage, intr: Intrinsics): Vec3
    requires ValidIntrinsics(intr)
  {
    PixelsToMm(DepthAt(img, p), p.x, p.y, intr)
  }

  /** The nine positions of a pass whose samples are all known. */
  function PassTrackers(c: seq<Point2>, img: DepthImage, intr: Intrinsics): (ts: seq<Vec3>)
    requires |c| == 4 && ValidIntrinsics(intr)
    ensures |ts| == 9
  {
    [CornerTracker(c[0], img, intr), CornerTracker(c[1], img, intr),
     CornerTracker(c[2], img, intr), CornerTracker(c[3], img, intr),
     SideTracker(CornerTracker(c[0], img, intr), CornerTracker(c[1], img, intr), DepthAt(img, PassPixels(c)[4])),
     SideTracker(CornerTracker(c[1], img, intr), CornerTracker(c[2], img, intr), DepthAt(img, PassPixels(c)[5])),
     SideTracker(CornerTracker(c[2], img, intr), CornerTracker(c[3], img, intr), DepthAt(img, PassPixels(c)[6])),
     SideTracker(CornerTracker(c[3], img, intr), CornerTracker(c[0], img, intr), DepthAt(img, PassPixels(c)[7])),
     PixelsToMm(DepthAt(img, PassPixels(c)[8]), PassPixels(c)[8].x, PassPixels(c)[8].y, intr)]
  }

  /** Nine pixels that agree with a pass's pixels one by one are the pass's pixels. */
  lemma PassPixelsByIndex(c: seq<Point2>, ps: seq<Point2>)
    requires |c| == 4 && |ps| == 9
    requires ps[0] == c[0] && ps[1] == c[1] && ps[2] == c[2] && ps[3] == c[3]
    requires ps[4] == Midpoint2(c[0], c[1]) && ps[5] == Midpoint2(c[1], c[2])
    requires ps[6] == Midpoint2(c[2], c[3]) && ps[7] == Midpoint2(c[3], c[0])
    requires ps[8] == QuadCentre(c)
    ensures ps == PassPixels(c)
  {
  }

  /** Nine positions that agree with a pass's positions one by one are the pass's positions. */
  lemma PassTrackersByIndex(c: seq<Point2>, img: DepthImage, intr: Intrinsics, ts: seq<Vec3>)
    requires |c| == 4 && ValidIntrinsics(intr) && |ts| == 9
    requires forall k :: 0 <= k < 4 ==> ts[k] == CornerTracker(c[k], img, intr)
    requires ts[4] == SideTracker(ts[0], ts[1], DepthAt(img, Midpoint2(c[0], c[1])))
    requires ts[5] == SideTracker(ts[1], ts[2], DepthAt(img, Midpoint2(c[1], c[2])))
    requires ts[6] == SideTracker(ts[2], ts[3], DepthAt(img, Midpoint2(c[2], c[3])))
    requires ts[7] == SideTracker(ts[3], ts[0], DepthAt(img, Midpoint2(c[3], c[0])))
    requires ts[8] == PixelsToMm(DepthAt(img, QuadCentre(c)), QuadCentre(c).x, QuadCentre(c).y, intr)
    ensures ts == PassTrackers(c, img, intr)
  {
  }

  /**
   * One pass: the depth is sampled at each of the nine pixels and the pass
   * fails if any sample is zero. Corners and centre are back-projected; a
   * side's position is the midpoint of its corners' positions with the depth
   * sampled at the side's midpoint pixel.
   */
  function SinglePass(c: seq<Point2>, img: DepthImage, intr: Intrinsics): (f: Option<Frame>)
    requires |c| == 4 && ValidIntrinsics(intr)
    ensures f.Some? ==> |f.value.points| == 9 && |f.value.trackers| == 9
  {
    if exists k :: 0 <= k < 9 && DepthAt(img, PassPixels(c)[k]) == 0.0 then None
    else Some(Frame(PassPixels(c), PassTrackers(c, img, intr)))
  }

  /**
   * A pass fails exactly when one of the nine sampled depths is zero. Otherwise
   * it keeps the nine pixels; every position's depth is the depth sampled at
   * its pixel; corners and centre are back-projected; and a side's position
   * lies, in x and y, midway between its corners' positions.
   */
  lemma SinglePassSamples(c: seq<Point2>, img: DepthImage, intr: Intrinsics)
    requires |c| == 4 && ValidIntrinsics(intr)
    ensures var f := SinglePass(c, img, intr);
            f.None? <==> exists k :: 0 <= k < 9 && DepthAt(img, PassPixels(c)[k]) == 0.0
    ensures var f := SinglePass(c, img, intr);
            f.Some? ==>
              && f.value.points == PassPixels(c)
              && (forall k :: 0 <= k < 9 ==> f.value.trackers[k].z == DepthAt(img, PassPixels(c)[k]) != 0.0)
              && (forall k :: 0 <= k < 4 ==>
                    f.value.trackers[k] == PixelsToMm(DepthAt(img, c[k]), c[k].x, c[k].y, intr))
              && SideOf(f.value.trackers[4], f.value.trackers[0], f.value.trackers[1])
              && SideOf(f.value.trackers[5], f.value.trackers[1], f.value.trackers[2])
              && SideOf(f.value.trackers[6], f.value.trackers[2], f.value.trackers[3])
              && SideOf(f.value.trackers[7], f.value.trackers[3], f.value.trackers[0])
              && f.value.trackers[8] == PixelsToMm(DepthAt(img, PassPixels(c)[8]), QuadCentre(c).x, QuadCentre(c).y, intr)
  {
  }

  /** `np.zeros((9, 2))` and `np.zeros((9, 3))`. */
  const ZeroPoint: Point2 := Point2(0.0, 0.0)
  const ZeroPoints: seq<Point2> := [ZeroPoint, ZeroPoint, ZeroPoint, ZeroPoint, ZeroPoint, ZeroPoint, ZeroPoint, ZeroPoint, ZeroPoint]
  const ZeroTrackers: seq<Vec3> := [Zero, Zero, Zero, Zero, Zero, Zero, Zero, Zero, Zero]

  /** numpy adds a (9, k) array to an array of 9 rows row by row, and to one of a single row by broadcasting it; any other row count raises. */
  predicate Broadcastable(rows: nat) { rows == 9 || rows == 1 }

  function AddPoints(acc: seq<Point2>, f: seq<Point2>): (r: seq<Point2>)
    requires |f| == 9 && Broadcastable(|acc|)
    ensures |r| == 9
    ensures |acc| == 9 ==> forall i :: 0 <= i < 9 ==> r[i] == Point2(acc[i].x + f[i].x, acc[i].y + f[i].y)
    ensures |acc| == 1 ==> forall i :: 0 <= i < 9 ==> r[i] == Point2(acc[0].x + f[i].x, acc[0].y + f[i].y)
  {
    seq(9, i requires 0 <= i < 9 =>
      Point2((if |acc| == 1 then acc[0] else acc[i]).x + f[i].x, (if |acc| == 1 then acc[0] else acc[i]).y + f[i].y))
  }

  function AddTrackers(acc: seq<Vec3>, f: seq<Vec3>): (r: seq<Vec3>)
    requires |f| == 9 && Broadcastable(|acc|)
    ensures |r| == 9
    ensures |acc| == 9 ==> forall i :: 0 <= i < 9 ==> r[i] == Add(acc[i], f[i])
    ensures |acc| == 1 ==> forall i :: 0 <= i < 9 ==> r[i] == Add(acc[0], f[i])
  {
    seq(9, i requires 0 <= i < 9 => Add(if |acc| == 1 then acc[0] else acc[i], f[i]))
  }

  /** The nine rows written after a pass: the running sums divided by the number of passes. */
  function AverageRecords(points: seq<Point2>, trackers: seq<Vec3>, n: nat, id: int): (rs: seq<Record>)
    requires |points| == 9 && |trackers| == 9 && n > 0
    ensures |rs| == 9 && forall i :: 0 <= i < 9 ==> rs[i].id == id
  {
    seq(9, i requires 0 <= i < 9 =>
      Record(Trunc(points[i].x / n as real), Trunc(points[i].y / n as real), trackers[i].z / n as real, id))
  }

  predicate SingleMarkerSeen(markers: seq<Marker>) {
    |markers| == 1 && markers[0].id == SingleMarkerId
  }

  /**
   * What follows a pass of `calibrate_single_marker` from the sums `s1` it
   * starts from: a failed pass returns `False`; otherwise the pass replaces
   * the sums, or is added to them when aggregating (pixels first, then
   * positions, each raising when numpy cannot broadcast), one more pass is
   * counted and the averaged rows are written.
   */
  function AfterPass(s1: Session, aggregate: bool, pass: Option<Frame>, id: int): (st: Step)
    requires pass.Some? ==> |pass.value.points| == 9 && |pass.value.trackers| == 9
    ensures pass.None? ==> st == Step(s1, Returned(false))
    ensures st.result.Raised? ==>
              st.result.error == ValueError && st.session.trackers == s1.trackers &&
              st.session.count == s1.count && st.session.store == s1.store
    ensures st.result.Returned? && pass.Some? ==>
              && st.result.value
              && st.session.count == s1.count + 1
              && |st.session.points| == 9 && |st.session.trackers| == 9
              && st.session.store == Some(AverageRecords(st.session.points, st.session.trackers, s1.count + 1, id))
  {
    match pass
    case None => Step(s1, Returned(false))
    case Some(f) =>
      if aggregate && !Broadcastable(|s1.points|) then Step(s1, Raised(ValueError))
      else
        var pts := if aggregate then AddPoints(s1.points, f.points) else f.points;
        if aggregate && !Broadcastable(|s1.trackers|) then Step(Session(pts, s1.trackers, s1.count, s1.store), Raised(ValueError))
        else
          var trk := if aggregate then AddTrackers(s1.trackers, f.trackers) else f.trackers;
          var n := s1.count + 1;
          Step(Session(pts, trk, n, Some(AverageRecords(pts, trk, n, id))), Returned(true))
  }

  /** `calibrate_single_marker`: what it returns and how it leaves the state and the file. */
  function SingleMarkerStep(s: Session, markers: seq<Marker>, aggregate: bool, img: DepthImage, intr: Intrinsics): (st: Step)
    requires WellFormed(markers) && ValidIntrinsics(intr)
    ensures !SingleMarkerSeen(markers) ==> st == Step(s, Returned(false))
    ensures st.result != Returned(true) ==> st.session.store == s.store
  {
    if |markers| == 0 || |markers| > 1 || markers[0].id != SingleMarkerId then Step(s, Returned(false))
    else
      var s1 := if aggregate then s else Session(ZeroPoints, ZeroTrackers, 0, s.store);
      AfterPass(s1, aggregate, SinglePass(markers[0].corners, img, intr), markers[0].id)
  }

  /**
   * `calibrate_single_marker` succeeds exactly when the reserved marker is
   * the only one seen, the pass finds every depth, and, when aggregating,
   * the running sums can be added to. A failure leaves the file alone and
   * raises only `ValueError`; returning `False` while aggregating changes
   * nothing, and without aggregation, once the reserved marker alone is
   * seen, leaves the sums reset. A success counts
   * one more pass and writes nine rows carrying the marker's id.
   */
  lemma SingleMarkerStepOutcomes(s: Session, markers: seq<Marker>, aggregate: bool, img: DepthImage, intr: Intrinsics)
    requires WellFormed(markers) && ValidIntrinsics(intr)
    ensures var st := SingleMarkerStep(s, markers, aggregate, img, intr);
            st.result == Returned(true) <==>
              SingleMarkerSeen(markers) && SinglePass(markers[0].corners, img, intr).Some? &&
              (aggregate ==> Broadcastable(|s.points|) && Broadcastable(|s.trackers|))
    ensures var st := SingleMarkerStep(s, markers, aggregate, img, intr);
            && (st.result.Raised? ==> st.result.error == ValueError)
            && (st.result != Returned(true) ==> st.session.store == s.store)
            && (st.result.Raised? ==> st.session.trackers == s.trackers && st.session.count == s.count)
            && (aggregate && st.result == Returned(false) ==> st.session == s)
            && (aggregate && |s.points| == |s.trackers| && st.result != Returned(true) ==> st.session == s)
            && (!aggregate && SingleMarkerSeen(markers) && st.result != Returned(true) ==>
                  st.session == Session(ZeroPoints, ZeroTrackers, 0, s.store))
    ensures var st := SingleMarkerStep(s, markers, aggregate, img, intr);
            st.result == Returned(true) ==>
              && st.session.count == (if aggregate then s.count else 0) + 1
              && st.session.store.Some?
              && |st.session.store.value| == 9
              && (forall i :: 0 <= i < 9 ==> st.session.store.value[i].id == SingleMarkerId)
  {
  }

  /** A pass that is not aggregated writes the pass's own values: the truncated pixels and the sampled depths. */
  lemma FreshPassWritesRawValues(s: Session, markers: seq<Marker>, img: DepthImage, intr: Intrinsics)
    requires WellFormed(markers) && ValidIntrinsics(intr)
    requires SingleMarkerStep(s, markers, false, img, intr).result == Returned(true)
    ensures var px := PassPixels(markers[0].corners);
            var rs := SingleMarkerStep(s, markers, false, img, intr).session.store.value;
            forall i :: 0 <= i < 9 ==>
              rs[i] == Record(Trunc(px[i].x), Trunc(px[i].y), DepthAt(img, px[i]), SingleMarkerId)
  {
    var px := PassPixels(markers[0].corners);
    var f := SinglePass(markers[0].corners, img, intr).value;
    forall i | 0 <= i < 9
      ensures px[i].x / 1.0 == px[i].x && px[i].y / 1.0 == px[i].y && f.trackers[i].z / 1.0 == f.trackers[i].z
    {
    }
  }

  /** `k` further aggregated passes over the same input. */
  function AggregatePasses(s: Session, markers: seq<Marker>, img: DepthImage, intr: Intrinsics, k: nat): Session
    requires WellFormed(markers) && ValidIntrinsics(intr)
    decreases k
  {
    if k == 0 then s
    else SingleMarkerStep(AggregatePasses(s, markers, img, intr, k - 1), markers, true, img, intr).session
  }

  /** The sums of `n` copies of a pass's pixels. */
  function ScalePoints(n: nat, ps: seq<Point2>): seq<Point2> {
    seq(|ps|, i requires 0 <= i < |ps| => Point2(n as real * ps[i].x, n as real * ps[i].y))
  }

  /** The sums of `n` copies of a pass's positions. */
  function ScaleTrackers(n: nat, ts: seq<Vec3>): seq<Vec3> {
    seq(|ts|, i requires 0 <= i < |ts| => Scale(n as real, ts[i]))
  }

  /** Averaging `n` copies of a pass gives the pass's own rows. */
  lemma AverageOfCopies(f: Frame, n: nat, id: int)
    requires |f.points| == 9 && |f.trackers| == 9 && n > 0
    ensures AverageRecords(ScalePoints(n, f.points), ScaleTrackers(n, f.trackers), n, id) ==
            AverageRecords(f.points, f.trackers, 1, id)
  {
    var m := n as real;
    var lhs := AverageRecords(ScalePoints(n, f.points), ScaleTrackers(n, f.trackers), n, id);
    var rhs := AverageRecords(f.points, f.trackers, 1, id);
    forall i | 0 <= i < 9 ensures lhs[i] == rhs[i] {
      assert ScalePoints(n, f.points)[i] == Point2(m * f.points[i].x, m * f.points[i].y);
      assert ScaleTrackers(n, f.trackers)[i].z == m * f.trackers[i].z;
      assert m * f.points[i].x / m == f.points[i].x / 1.0;
      assert m * f.points[i].y / m == f.points[i].y / 1.0;
      assert m * f.trackers[i].z / m == f.trackers[i].z / 1.0;
    }
  }

  /** An aggregated pass over nine-row sums adds the pass row by row and writes the new averages. */
  lemma AggregatedPassAdds(s: Session, f: Frame, markers: seq<Marker>, img: DepthImage, intr: Intrinsics)
    requires WellFormed(markers) && ValidIntrinsics(intr) && SingleMarkerSeen(markers)
    requires SinglePass(markers[0].corners, img, intr) == Some(f)
    requires |s.points| == 9 && |s.trackers| == 9
    ensures var st := SingleMarkerStep(s, markers, true, img, intr);
            && st.result == Returned(true)
            && (forall i :: 0 <= i < 9 ==> st.session.points[i] == Point2(s.points[i].x + f.points[i].x, s.points[i].y + f.points[i].y))
            && (forall i :: 0 <= i < 9 ==> st.session.trackers[i] == Add(s.trackers[i], f.trackers[i]))
            && |st.session.points| == 9 && |st.session.trackers| == 9
            && st.session.count == s.count + 1
            && st.session.store == Some(AverageRecords(st.session.points, st.session.trackers, s.count + 1, SingleMarkerId))
  {
    var pts := AddPoints(s.points, f.points);
    var trk := AddTrackers(s.trackers, f.trackers);
    assert SingleMarkerStep(s, markers, true, img, intr) ==
           Step(Session(pts, trk, s.count + 1, Some(AverageRecords(pts, trk, s.count + 1, markers[0].id))), Returned(true));
  }

  /** Adding a pass to `m` copies of it gives `m + 1` copies. */
  lemma ScalePointsSucc(m: nat, ps: seq<Point2>, acc: seq<Point2>, qs: seq<Point2>)
    requires |ps| == 9 && |qs| == 9 && acc == ScalePoints(m, ps)
    requires forall i :: 0 <= i < 9 ==> qs[i] == Point2(acc[i].x + ps[i].x, acc[i].y + ps[i].y)
    ensures qs == ScalePoints(m + 1, ps)
  {
    forall i | 0 <= i < 9 ensures qs[i] == ScalePoints(m + 1, ps)[i] {
      var r := m as real;
      assert (m + 1) as real == r + 1.0;
      assert (r + 1.0) * ps[i].x == r * ps[i].x + ps[i].x;
      assert (r + 1.0) * ps[i].y == r * ps[i].y + ps[i].y;
    }
  }

  lemma ScaleTrackersSucc(m: nat, ts: seq<Vec3>, acc: seq<Vec3>, us: seq<Vec3>)
    requires |ts| == 9 && |us| == 9 && acc == ScaleTrackers(m, ts)
    requires forall i :: 0 <= i < 9 ==> us[i] == Add(acc[i], ts[i])
    ensures us == ScaleTrackers(m + 1, ts)
  {
    forall i | 0 <= i < 9 ensures us[i] == ScaleTrackers(m + 1, ts)[i] {
      assert (m + 1) as real == m as real + 1.0;
      ScaleSucc(m as real, ts[i]);
    }
  }

  /** One copy of a pass is the pass. */
  lemma ScaleByOne(f: Frame)
    requires |f.points| == 9 && |f.trackers| == 9
    ensures ScalePoints(1, f.points) == f.points && ScaleTrackers(1, f.trackers) == f.trackers
  {
    assert ScaleTrackers(1, f.trackers) == f.trackers by {
      forall i | 0 <= i < 9 ensures Scale(1.0, f.trackers[i]) == f.trackers[i] { }
    }
  }

  /** After a fresh pass and `k` aggregated passes over the same input, the sums are `k + 1` copies of the pass. */
  lemma {:induction false} AggregatePassesSum(s1: Session, f: Frame, markers: seq<Marker>, img: DepthImage, intr: Intrinsics, k: nat)
    requires WellFormed(markers) && ValidIntrinsics(intr) && SingleMarkerSeen(markers)
    requires SinglePass(markers[0].corners, img, intr) == Some(f)
    requires |f.points| == 9 && |f.trackers| == 9
    requires s1.points == f.points && s1.trackers == f.trackers && s1.count == 1
    ensures AggregatePasses(s1, markers, img, intr, k).points == ScalePoints(k + 1, f.points)
    ensures AggregatePasses(s1, markers, img, intr, k).trackers == ScaleTrackers(k + 1, f.trackers)
    ensures AggregatePasses(s1, markers, img, intr, k).count == k + 1
    ensures k > 0 ==>
              AggregatePasses(s1, markers, img, intr, k).store ==
              Some(AverageRecords(ScalePoints(k + 1, f.points), ScaleTrackers(k + 1, f.trackers), k + 1, SingleMarkerId))
    decreases k
  {
    if k == 0 {
      ScaleByOne(f);
    } else {
      AggregatePassesSum(s1, f, markers, img, intr, k - 1);
      var prev := AggregatePasses(s1, markers, img, intr, k - 1);
      var m := k;
      AggregatedPassAdds(prev, f, markers, img, intr);
      var next := SingleMarkerStep(prev, markers, true, img, intr).session;
      ScalePointsSucc(m, f.points, prev.points, next.points);
      ScaleTrackersSucc(m, f.trackers, prev.trackers, next.trackers);
      assert AggregatePasses(s1, markers, img, intr, k) == next;
    }
  }

  /**
   * Averaging is idempotent under identical input: a fresh pass followed by
   * any number of aggregated passes over the same marker and depth image
   * leaves the file with the rows of the fresh pass alone.
   */
  lemma RepeatedPassesKeepRecords(s: Session, markers: seq<Marker>, img: DepthImage, intr: Intrinsics, k: nat)
    requires WellFormed(markers) && ValidIntrinsics(intr)
    requires SingleMarkerStep(s, markers, false, img, intr).result == Returned(true)
    ensures var s1 := SingleMarkerStep(s, markers, false, img, intr).session;
            AggregatePasses(s1, markers, img, intr, k).store == s1.store
  {
    var s1 := SingleMarkerStep(s, markers, false, img, intr).session;
    var f := SinglePass(markers[0].corners, img, intr).value;
    AggregatePassesSum(s1, f, markers, img, intr, k);
    if k > 0 {
      AverageOfCopies(f, k + 1, SingleMarkerId);
    }
  }

  // ---------------------------------------------------------------------
  // init_position_estimation
  // ---------------------------------------------------------------------

  /** The pixel of a stored row. */
  function RowPoint(r: Record): Point2 { Point2(r.x as real, r.y as real) }

  /** The camera-frame position of a stored row. */
  function RowTracker(r: Record, intr: Intrinsics): Vec3
    requires ValidIntrinsics(intr)
  {
    PixelsToMm(r.depth, r.x as real, r.y as real, intr)
  }

  function LoadedPoints(rows: seq<Record>): (ps: seq<Point2>)
    ensures |ps| == |rows| && forall i :: 0 <= i < |rows| ==> ps[i].x == rows[i].x as real && ps[i].y == rows[i].y as real
  {
    seq(|rows|, i requires 0 <= i < |rows| => RowPoint(rows[i]))
  }

  function LoadedTrackers(rows: seq<Record>, intr: Intrinsics): (ts: seq<Vec3>)
    requires ValidIntrinsics(intr)
    ensures |ts| == |rows|
    ensures forall i :: 0 <= i < |rows| ==> ts[i].z == rows[i].depth
  {
    seq(|rows|, i requires 0 <= i < |rows| => RowTracker(rows[i], intr))
  }
  /** Each loaded position is seen again at its row's pixel, for any row with a non-zero depth. */
  lemma LoadedTrackersProjectToRows(rows: seq<Record>, intr: Intrinsics)
    requires ValidIntrinsics(intr)
    ensures forall i :: 0 <= i < |rows| && rows[i].depth != 0.0 ==>
              ProjectToPixel(LoadedTrackers(rows, intr)[i], intr) == LoadedPoints(rows)[i]
  {
    forall i | 0 <= i < |rows| && rows[i].depth != 0.0
      ensures ProjectToPixel(LoadedTrackers(rows, intr)[i], intr) == LoadedPoints(rows)[i]
    {
      ProjectAfterPixelsToMm(rows[i].depth, rows[i].x as real, rows[i].y as real, intr);
    }
  }


  /**
   * The transform rebuilt from the stored rows: it exists exactly when there
   * are as many rows as anchors, and it carries the centroid of the rows'
   * camera-frame positions onto the board's centre.
   */
  function InitTransform(rows: seq<Record>, intr: Intrinsics, h: real, svd: Mat3 -> Svd): (res: Outcome<Transform>)
    requires ValidIntrinsics(intr)
    ensures res.Returned? <==> |rows| == 9
    ensures res.Raised? ==> res.error == AssertionError
    ensures res.Returned? ==> TransformPoint(res.value, Mean(LoadedTrackers(rows, intr))) == Vec3(0.0, BoardHeight, 0.0)
  {
    ReferenceCentroid(h);
    RigidTransform3D(LoadedTrackers(rows, intr), AbsolutePositions(h), svd)
  }

  /** The eight rows a successful `calibrate` writes cannot be loaded: the board has nine anchors. */
  lemma BoardCalibrationCannotBeLoaded(s: Session, markers: seq<Marker>, depthOf: MarkerDepth, intr: Intrinsics, h: real, svd: Mat3 -> Svd)
    requires WellFormed(markers) && ValidIntrinsics(intr)
    requires CalibrateStep(s, markers, depthOf, intr).result == Returned(true)
    ensures InitTransform(CalibrateStep(s, markers, depthOf, intr).session.store.value, intr, h, svd) == Raised(AssertionError)
  {
    CalibrateSucceeds(s, markers, depthOf, intr);
  }

  /** The nine rows a successful `calibrate_single_marker` writes can be loaded. */
  lemma SingleMarkerCalibrationCanBeLoaded(s: Session, markers: seq<Marker>, aggregate: bool, img: DepthImage, intr: Intrinsics, h: real, svd: Mat3 -> Svd)
    requires WellFormed(markers) && ValidIntrinsics(intr)
    requires SingleMarkerStep(s, markers, aggregate, img, intr).result == Returned(true)
    ensures InitTransform(SingleMarkerStep(s, markers, aggregate, img, intr).session.store.value, intr, h, svd).Returned?
  {
    SingleMarkerStepOutcomes(s, markers, aggregate, img, intr);
  }
}
