/**
 * The `PositionEstimation` class of emioapi/_positionestimation.py as a
 * Dafny class. Its fields are the source's (`points`, `trackers_pos`,
 * `initialized`, `count_calibration_frames`, `R` and `t`, `parameter`), the
 * calibration CSV file is an object it shares, and each method runs the
 * source's loops and is proved to leave the state the functions of module
 * Calibration describe.
 */
module PositionEstimation {
  import opened Outcomes
  import opened Geometry
  import opened Calibration

  /** The colour-tracking parameters used when the configuration file does not exist. */
  const DefaultParameters: map<string, int> :=
    map["hue_h" := 90, "hue_l" := 36, "sat_h" := 255, "sat_l" := 100,
        "value_h" := 255, "value_l" := 35, "erosion_size" := 1, "area" := 1]

  /** `image_to_3D` lowers the y coordinate by this many millimetres. */
  const HeightOffset: real := 305.5

  /** Where `image_to_3D` places a pixel and its depth under the transform `tf`. */
  function Locate(tf: Transform, x: real, y: real, depth: real, intr: Intrinsics): (p: Vec3)
    requires ValidIntrinsics(intr)
    ensures Add(p, Vec3(0.0, HeightOffset, 0.0)) == TransformPoint(tf, PixelsToMm(depth, x, y, intr))
    ensures x == intr.ppx && y == intr.ppy ==>
              Add(p, Vec3(0.0, HeightOffset, 0.0)) == TransformPoint(tf, Vec3(0.0, 0.0, depth))
  {
    Vec3(TransformPoint(tf, PixelsToMm(depth, x, y, intr)).x,
         TransformPoint(tf, PixelsToMm(depth, x, y, intr)).y - HeightOffset,
         TransformPoint(tf, PixelsToMm(depth, x, y, intr)).z)
  }

  /**
   * Once the transform is rebuilt from stored rows, a pixel and depth that
   * back-project onto the centroid of the rows' positions are placed at the
   * board's centre, lowered by the offset.
   */
  lemma CalibrationCentroidLocated(rows: seq<Record>, intr: Intrinsics, h: real, svd: Mat3 -> Svd, x: real, y: real, depth: real)
    requires ValidIntrinsics(intr) && InitTransform(rows, intr, h, svd).Returned?
    requires PixelsToMm(depth, x, y, intr) == Mean(LoadedTrackers(rows, intr))
    ensures Locate(InitTransform(rows, intr, h, svd).value, x, y, depth, intr) == Vec3(0.0, BoardHeight - HeightOffset, 0.0)
  {
  }

  /**
   * The id scan of `calibrate`, run over the eight-entry list `counted`
   * exactly as the source does: the result is the scan of Calibration.
   */
  method ScanMarkerIds(ids: seq<int>) returns (o: Outcome<bool>)
    ensures o == ScanIds(ids, {})
  {
    var counted := new int[8](_ => 0);
    ghost var seen: set<int> := {};
    for i := 0 to |ids|
      invariant forall k :: 0 <= k < 8 ==> (counted[k] == 1 <==> k in seen)
      invariant forall k :: k in seen ==> 0 <= k < 8
      invariant ScanIds(ids[i..], seen) == ScanIds(ids, {})
    {
      assert ids[i..][1..] == ids[i + 1..];
      var id := ids[i];
      if id > 7 {
        return Returned(false);
      }
      if id < -8 {
        return Raised(IndexError);
      }
      var slot := if id < 0 then id + 8 else id;
      if counted[slot] == 1 {
        return Returned(false);
      }
      counted[slot] := 1;
      seen := seen + {slot};
    }
    assert ids[|ids|..] == [];
    return Returned(true);
  }

  /** The depth check of `calibrate`: every position's depth is at least the minimum. */
  method DepthsAllKnown(trk: seq<Vec3>) returns (known: bool)
    ensures known == DepthsKnown(trk)
  {
    for i := 0 to |trk|
      invariant forall j :: 0 <= j < i ==> trk[j].z >= MinDepth
    {
      if trk[i].z < MinDepth {
        return false;
      }
    }
    return true;
  }

  /** The calibration CSV file: its data rows, or `None` while it does not exist. */
  class CalibrationFile {
    var rows: Option<seq<Record>>

    constructor(rows: Option<seq<Record>>)
      ensures this.rows == rows
    {
      this.rows := rows;
    }
  }

  class Estimator {
    const intr: Intrinsics
    /** Half the board's diagonal (`hypotenuse` in `__init__`). */
    const hypotenuse: real
    const absolutePositions: seq<Vec3>
    const file: CalibrationFile
    var parameter: map<string, int>
    var points: seq<Point2>
    var trackersPos: seq<Vec3>
    var initialized: bool
    var countCalibrationFrames: nat
    /** `R` and `t`; `None` while they still hold the zero placeholders of `__init__`. */
    var transform: Option<Transform>

    ghost predicate Valid()
      reads this
    {
      ValidIntrinsics(intr) && IsHypotenuse(hypotenuse) && absolutePositions == AbsolutePositions(hypotenuse)
    }

    /** The fields the calibration methods change, with the file's rows. */
    function State(): Session
      reads this, file
    {
      Session(points, trackersPos, countCalibrationFrames, file.rows)
    }

    /**
     * `__init__`: the nine anchors of the board, empty calibration lists, and
     * the parameters of the configuration file or, when it does not exist,
     * the defaults.
     */
    constructor(intr: Intrinsics, hypotenuse: real, file: CalibrationFile, config: Option<map<string, int>>)
      requires ValidIntrinsics(intr) && IsHypotenuse(hypotenuse)
      ensures Valid()
      ensures this.intr == intr && this.hypotenuse == hypotenuse && this.file == file
      ensures points == [] && trackersPos == [] && !initialized && countCalibrationFrames == 0 && transform == None
      ensures parameter == (if config.Some? then config.value else DefaultParameters)
    {
      this.intr := intr;
      this.hypotenuse := hypotenuse;
      this.file := file;
      absolutePositions := AbsolutePositions(hypotenuse);
      points := [];
      trackersPos := [];
      initialized := false;
      countCalibrationFrames := 0;
      transform := None;
      match config {
        case Some(m) => parameter := m;
        case None => parameter := DefaultParameters;
      }
    }

    /**
     * `init_position_estimation`: reload the rows of the calibration file and
     * rebuild the transform from them. A missing file raises; otherwise the
     * rows are loaded and the object is marked initialised before the
     * transform is attempted, so a failing transform leaves it marked.
     */
    method InitPositionEstimation(svd: Mat3 -> Svd) returns (r: Outcome<bool>)
      requires Valid()
      modifies this
      ensures Valid()
      ensures parameter == old(parameter) && countCalibrationFrames == old(countCalibrationFrames)
      ensures file.rows.None? ==>
                r == Raised(FileNotFoundError) && points == [] && trackersPos == [] && !initialized &&
                transform == old(transform)
      ensures file.rows.Some? ==>
                points == LoadedPoints(file.rows.value) && trackersPos == LoadedTrackers(file.rows.value, intr) && initialized
      ensures file.rows.Some? && InitTransform(file.rows.value, intr, hypotenuse, svd).Returned? ==>
                r == Returned(true) && transform == Some(InitTransform(file.rows.value, intr, hypotenuse, svd).value)
      ensures file.rows.Some? && InitTransform(file.rows.value, intr, hypotenuse, svd).Raised? ==>
                r == Raised(InitTransform(file.rows.value, intr, hypotenuse, svd).error) && transform == old(transform)
    {
      initialized := false;
      trackersPos := [];
      points := [];
      if file.rows.None? {
        return Raised(FileNotFoundError);
      }
      var rows := file.rows.value;
      for i := 0 to |rows|
        invariant points == LoadedPoints(rows)[..i]
        invariant trackersPos == LoadedTrackers(rows, intr)[..i]
        invariant parameter == old(parameter) && countCalibrationFrames == old(countCalibrationFrames)
        invariant transform == old(transform)
      {
        points := points + [Point2(rows[i].x as real, rows[i].y as real)];
        trackersPos := trackersPos + [PixelsToMm(rows[i].depth, rows[i].x as real, rows[i].y as real, intr)];
      }
      initialized := true;
      match RigidTransform3D(trackersPos, absolutePositions, svd)
      case Raised(e) =>
        return Raised(e);
      case Returned(tf) =>
        transform := Some(tf);
        initialized := true;
        return Returned(true);
    }

    /**
     * `calibrate`: check the eight detected markers and their ids, compute
     * each marker's pixel and position, give up if a depth is unknown, and
     * otherwise write one row per marker.
     */
    method Calibrate(markers: seq<Marker>, depthOf: MarkerDepth) returns (r: Outcome<bool>)
      requires Valid() && WellFormed(markers)
      modifies this, file
      ensures Valid()
      ensures Step(State(), r) == CalibrateStep(old(State()), markers, depthOf, intr)
      ensures initialized == old(initialized) && transform == old(transform) && parameter == old(parameter)
    {
      if |markers| == 0 {
        return Returned(false);
      }
      if |markers| < BoardMarkerCount {
        return Returned(false);
      }
      if |markers| > BoardMarkerCount {
        return Returned(false);
      }
      r := ScanMarkerIds(Ids(markers));
      if r != Returned(true) {
        return;
      }
      ghost var s0 := State();
      CalibrateStepAccepted(s0, markers, depthOf, intr);
      trackersPos := [];
      points := [];
      points, trackersPos := MeasureMarkers(markers, depthOf);
      var known := DepthsAllKnown(trackersPos);
      if !known {
        return Returned(false);
      }
      RowsOfMeasurements(markers, depthOf, intr);
      file.rows := Some(RowsOf(points, trackersPos, Ids(markers)));
      return Returned(true);
    }

    /**
     * The measuring loop of `calibrate`: for each marker in detection order,
     * its truncated centre pixel and that pixel back-projected with the
     * marker's depth.
     */
    method MeasureMarkers(markers: seq<Marker>, depthOf: MarkerDepth) returns (pts: seq<Point2>, trk: seq<Vec3>)
      requires Valid() && WellFormed(markers)
      ensures pts == MarkerPixels(markers) && trk == MarkerTrackers(markers, depthOf, intr)
    {
      pts := [];
      trk := [];
      for i := 0 to |markers|
        invariant |pts| == i && |trk| == i
        invariant forall j :: 0 <= j < i ==> pts[j] == MarkerPixel(markers[j])
        invariant forall j :: 0 <= j < i ==>
                    trk[j] == PixelsToMm(depthOf(markers[j].corners), MarkerPixel(markers[j]).x, MarkerPixel(markers[j]).y, intr)
      {
        var c := markers[i].corners;
        var depth := depthOf(c);
        var x := Trunc((c[0].x + c[1].x + c[2].x + c[3].x) / 4.0);
        var y := Trunc((c[0].y + c[1].y + c[2].y + c[3].y) / 4.0);
        pts := pts + [Point2(x as real, y as real)];
        trk := trk + [PixelsToMm(depth, x as real, y as real, intr)];
      }
    }

    /**
     * The corner loop of a pass: the depth under each corner, in order, and
     * the corner back-projected with it; `None` at the first zero depth.
     */
    method SampleCorners(c: seq<Point2>, img: DepthImage) returns (corners: Option<seq<Vec3>>)
      requires Valid() && |c| == 4
      ensures corners.None? ==> exists k :: 0 <= k < 4 && DepthAt(img, c[k]) == 0.0
      ensures corners.Some? ==>
                && |corners.value| == 4
                && (forall k :: 0 <= k < 4 ==> DepthAt(img, c[k]) != 0.0)
                && (forall k :: 0 <= k < 4 ==> corners.value[k] == CornerTracker(c[k], img, intr))
    {
      var trk: seq<Vec3> := [];
      for i := 0 to 4
        invariant |trk| == i
        invariant forall k :: 0 <= k < i ==> DepthAt(img, c[k]) != 0.0
        invariant forall k :: 0 <= k < i ==> trk[k] == CornerTracker(c[k], img, intr)
      {
        var depth := img(Trunc(c[i].y), Trunc(c[i].x));
        if depth == 0.0 {
          return None;
        }
        trk := trk + [PixelsToMm(depth, c[i].x, c[i].y, intr)];
      }
      return Some(trk);
    }

    /**
     * The side loop of a pass: each side's midpoint position keeps its x and
     * y and takes the depth under the side's own pixel; `None` at the first
     * zero depth.
     */
    method SampleSides(px: seq<Point2>, mids: seq<Vec3>, img: DepthImage) returns (sides: Option<seq<Vec3>>)
      requires |px| == 4 && |mids| == 4
      ensures sides.None? ==> exists k :: 0 <= k < 4 && DepthAt(img, px[k]) == 0.0
      ensures sides.Some? ==>
                && |sides.value| == 4
                && (forall k :: 0 <= k < 4 ==> DepthAt(img, px[k]) != 0.0)
                && (forall k :: 0 <= k < 4 ==> sides.value[k] == Vec3(mids[k].x, mids[k].y, DepthAt(img, px[k])))
    {
      var trk := mids;
      for i := 0 to 4
        invariant |trk| == 4
        invariant forall k :: i <= k < 4 ==> trk[k] == mids[k]
        invariant forall k :: 0 <= k < i ==> DepthAt(img, px[k]) != 0.0
        invariant forall k :: 0 <= k < i ==> trk[k] == Vec3(mids[k].x, mids[k].y, DepthAt(img, px[k]))
      {
        var depth := img(Trunc(px[i].y), Trunc(px[i].x));
        if depth == 0.0 {
          return None;
        }
        trk := trk[i := Vec3(trk[i].x, trk[i].y, depth)];
      }
      return Some(trk);
    }

    /**
     * One pass of `calibrate_single_marker` over the marker's corners, in the
     * source's temporary nine-row buffers: the corners, the side midpoints
     * with their depth replaced by the depth at their own pixel, and the
     * centre; `None` at the first depth that is zero.
     */
    method ExtractMarkerFrame(c: seq<Point2>, img: DepthImage) returns (f: Option<Frame>)
      requires Valid() && |c| == 4
      ensures f == SinglePass(c, img, intr)
    {
      ghost var px := PassPixels(c);
      var corners := SampleCorners(c, img);
      if corners.None? {
        ghost var k :| 0 <= k < 4 && DepthAt(img, c[k]) == 0.0;
        assert px[..4][k] == px[k];
        return None;
      }
      var cs := corners.value;
      var tempPoints := c + [Midpoint2(c[0], c[1]), Midpoint2(c[1], c[2]), Midpoint2(c[2], c[3]), Midpoint2(c[3], c[0])];
      var mids := [Midpoint(cs[0], cs[1]), Midpoint(cs[1], cs[2]), Midpoint(cs[2], cs[3]), Midpoint(cs[3], cs[0])];
      var sides := SampleSides(tempPoints[4..8], mids, img);
      if sides.None? {
        ghost var k :| 0 <= k < 4 && DepthAt(img, tempPoints[4..8][k]) == 0.0;
        assert px[4 + k] == tempPoints[4..8][k];
        return None;
      }
      var x := Trunc((c[0].x + c[1].x + c[2].x + c[3].x) / 4.0);
      var y := Trunc((c[0].y + c[1].y + c[2].y + c[3].y) / 4.0);
      var depth := img(y, x);
      TruncOfInteger(x);
      TruncOfInteger(y);
      if depth == 0.0 {
        assert DepthAt(img, px[8]) == 0.0;
        return None;
      }
      tempPoints := tempPoints + [Point2(x as real, y as real)];
      var tempTrackers := cs + sides.value + [PixelsToMm(depth, x as real, y as real, intr)];
      PassPixelsByIndex(c, tempPoints);
      PassTrackersByIndex(c, img, intr, tempTrackers);
      assert forall k :: 0 <= k < 9 ==> DepthAt(img, px[k]) != 0.0;
      return Some(Frame(tempPoints, tempTrackers));
    }

    /**
     * `calibrate_single_marker`: check that the only marker seen is the
     * reserved one, start afresh unless aggregating, take one pass, add it
     * to the running sums and write the averaged rows.
     */
    method CalibrateSingleMarker(markers: seq<Marker>, aggregate: bool, img: DepthImage) returns (r: Outcome<bool>)
      requires Valid() && WellFormed(markers)
      modifies this, file
      ensures Valid()
      ensures Step(State(), r) == SingleMarkerStep(old(State()), markers, aggregate, img, intr)
      ensures initialized == old(initialized) && transform == old(transform) && parameter == old(parameter)
    {
      if |markers| == 0 {
        return Returned(false);
      }
      if |markers| > 1 {
        return Returned(false);
      }
      if markers[0].id != SingleMarkerId {
        return Returned(false);
      }
      if !aggregate {
        trackersPos := ZeroTrackers;
        points := ZeroPoints;
        countCalibrationFrames := 0;
      }
      var f := ExtractMarkerFrame(markers[0].corners, img);
      r := AddPass(f, aggregate, markers[0].id);
    }

    /**
     * The end of `calibrate_single_marker`: a failed pass returns `False`;
     * otherwise the pass replaces the sums or is added to them, one more pass
     * is counted and the averaged rows are written.
     */
    method AddPass(f: Option<Frame>, aggregate: bool, id: int) returns (r: Outcome<bool>)
      requires Valid() && (f.Some? ==> |f.value.points| == 9 && |f.value.trackers| == 9)
      modifies this, file
      ensures Valid()
      ensures Step(State(), r) == AfterPass(old(State()), aggregate, f, id)
      ensures initialized == old(initialized) && transform == old(transform) && parameter == old(parameter)
    {
      if f.None? {
        return Returned(false);
      }
      var frame := f.value;
      if aggregate {
        if !Broadcastable(|points|) {
          return Raised(ValueError);
        }
        points := AddPoints(points, frame.points);
        if !Broadcastable(|trackersPos|) {
          return Raised(ValueError);
        }
        trackersPos := AddTrackers(trackersPos, frame.trackers);
      } else {
        points := frame.points;
        trackersPos := frame.trackers;
      }
      countCalibrationFrames := countCalibrationFrames + 1;
      file.rows := Some(AverageRecords(points, trackersPos, countCalibrationFrames, id));
      return Returned(true);
    }

    /**
     * `image_to_3D`: the position of a pixel and its depth in the board's
     * frame. Before a transform has been rebuilt, `R` is still the (9, 3)
     * placeholder, and adding `R @ p` to `t` cannot broadcast.
     */
    function ImageTo3D(x: real, y: real, depth: real): (p: Outcome<Vec3>)
      reads this
      requires Valid()
      ensures p.Raised? <==> transform.None?
      ensures p.Raised? ==> p.error == ValueError
      ensures p.Returned? ==> p.value == Locate(transform.value, x, y, depth, intr)
    {
      match transform
      case None => Raised(ValueError)
      case Some(tf) => Returned(Locate(tf, x, y, depth, intr))
    }
  }
}
