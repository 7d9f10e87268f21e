/**
 * Metric geometry of emioapi/_positionestimation.py: three-vectors over the
 * reals, the pinhole back-projection `pixels_to_mm`, Python's truncating
 * `int()`, and the rigid registration `rigid_transform_3D` (Kabsch), whose
 * singular-value decomposition is an oracle supplied by the caller.
 */
module Geometry {
  import opened Outcomes

  datatype Vec3 = Vec3(x: real, y: real, z: real)
  datatype Point2 = Point2(x: real, y: real)
  /** A 3x3 matrix given by its rows. */
  datatype Mat3 = Mat3(r0: Vec3, r1: Vec3, r2: Vec3)
  /** The pinhole intrinsics of the depth camera. */
  datatype Intrinsics = Intrinsics(ppx: real, ppy: real, fx: real, fy: real)

  const Zero: Vec3 := Vec3(0.0, 0.0, 0.0)
  const ZeroMat: Mat3 := Mat3(Zero, Zero, Zero)

  function Add(a: Vec3, b: Vec3): Vec3 { Vec3(a.x + b.x, a.y + b.y, a.z + b.z) }
  function Sub(a: Vec3, b: Vec3): Vec3 { Vec3(a.x - b.x, a.y - b.y, a.z - b.z) }
  function Scale(k: real, a: Vec3): Vec3 { Vec3(k * a.x, k * a.y, k * a.z) }
  function Dot(a: Vec3, b: Vec3): real { a.x * b.x + a.y * b.y + a.z * b.z }
  /** The numpy expression `(a + b) / 2.0`. */
  function Midpoint(a: Vec3, b: Vec3): Vec3 { Vec3((a.x + b.x) / 2.0, (a.y + b.y) / 2.0, (a.z + b.z) / 2.0) }
  function Midpoint2(a: Point2, b: Point2): Point2 { Point2((a.x + b.x) / 2.0, (a.y + b.y) / 2.0) }

  /** The matrix-vector product `m @ v`. */
  function Apply(m: Mat3, v: Vec3): Vec3 { Vec3(Dot(m.r0, v), Dot(m.r1, v), Dot(m.r2, v)) }
  function Transpose(m: Mat3): Mat3 {
    Mat3(Vec3(m.r0.x, m.r1.x, m.r2.x), Vec3(m.r0.y, m.r1.y, m.r2.y), Vec3(m.r0.z, m.r1.z, m.r2.z))
  }
  /** The matrix product `a @ b`: row i of the result is row i of `a` times `b`. */
  function MatMul(a: Mat3, b: Mat3): Mat3 {
    var bt := Transpose(b);
    Mat3(Apply(bt, a.r0), Apply(bt, a.r1), Apply(bt, a.r2))
  }
  function MatAdd(a: Mat3, b: Mat3): Mat3 { Mat3(Add(a.r0, b.r0), Add(a.r1, b.r1), Add(a.r2, b.r2)) }
  function Det(m: Mat3): real {
    m.r0.x * (m.r1.y * m.r2.z - m.r1.z * m.r2.y)
    - m.r0.y * (m.r1.x * m.r2.z - m.r1.z * m.r2.x)
    + m.r0.z * (m.r1.x * m.r2.y - m.r1.y * m.r2.x)
  }

  /** Python's `int()` on a float: truncation toward zero. */
  function Trunc(r: real): (n: int)
    ensures 0.0 <= r ==> n as real <= r < n as real + 1.0
    ensures r < 0.0 ==> n as real - 1.0 < r <= n as real
  {
    if r >= 0.0 then r.Floor else -((-r).Floor)
  }

  lemma TruncOfInteger(n: int)
    ensures Trunc(n as real) == n
  {
  }

  // ---------------------------------------------------------------------
  // Pinhole camera (pixels_to_mm)
  // ---------------------------------------------------------------------

  predicate ValidIntrinsics(intr: Intrinsics) { intr.fx != 0.0 && intr.fy != 0.0 }

  /**
   * `pixels_to_mm`: the metric point, in the camera frame, seen at a pixel
   * with a given depth. The depth becomes the Z coordinate unchanged.
   */
  function PixelsToMm(depth: real, pixelX: real, pixelY: real, intr: Intrinsics): (p: Vec3)
    requires ValidIntrinsics(intr)
    ensures p.z == depth
    ensures p.x * intr.fx == (pixelX - intr.ppx) * depth
    ensures p.y * intr.fy == (pixelY - intr.ppy) * depth
  {
    Vec3((pixelX - intr.ppx) / intr.fx * depth, (pixelY - intr.ppy) / intr.fy * depth, depth)
  }

  /** The forward pinhole model: the pixel at which a camera-frame point is seen. */
  function ProjectToPixel(p: Vec3, intr: Intrinsics): Point2
    requires p.z != 0.0
  {
    Point2(p.x / p.z * intr.fx + intr.ppx, p.y / p.z * intr.fy + intr.ppy)
  }

  /** Back-projecting a pixel with a non-zero depth and projecting again gives the pixel back. */
  lemma ProjectAfterPixelsToMm(depth: real, pixelX: real, pixelY: real, intr: Intrinsics)
    requires ValidIntrinsics(intr) && depth != 0.0
    ensures ProjectToPixel(PixelsToMm(depth, pixelX, pixelY, intr), intr) == Point2(pixelX, pixelY)
  {
    var p := PixelsToMm(depth, pixelX, pixelY, intr);
    var a := (pixelX - intr.ppx) / intr.fx;
    var b := (pixelY - intr.ppy) / intr.fy;
    assert p.x / p.z == a by { assert p.x == a * depth; }
    assert p.y / p.z == b by { assert p.y == b * depth; }
    assert a * intr.fx == pixelX - intr.ppx;
    assert b * intr.fy == pixelY - intr.ppy;
  }

  /** Projecting a point in front of the camera and back-projecting at its depth gives the point back. */
  lemma PixelsToMmAfterProject(p: Vec3, intr: Intrinsics)
    requires ValidIntrinsics(intr) && p.z != 0.0
    ensures var q := ProjectToPixel(p, intr); PixelsToMm(p.z, q.x, q.y, intr) == p
  {
    var q := ProjectToPixel(p, intr);
    assert (q.x - intr.ppx) / intr.fx == p.x / p.z;
    assert (q.y - intr.ppy) / intr.fy == p.y / p.z;
    assert p.x / p.z * p.z == p.x;
    assert p.y / p.z * p.z == p.y;
  }

  // ---------------------------------------------------------------------
  // compute_cdg
  // ---------------------------------------------------------------------

  /** The image moments `compute_cdg` reads from `cv.moments`. */
  datatype Moments = Moments(m00: real, m10: real, m01: real)

  /** `compute_cdg`: the truncated centroid of a contour, or (0, 0) for a contour of zero area. */
  function ComputeCdg(m: Moments): (c: (int, int))
    ensures m.m00 == 0.0 ==> c == (0, 0)
    ensures m.m00 != 0.0 ==> c.0 == Trunc(m.m10 / m.m00) && c.1 == Trunc(m.m01 / m.m00)
  {
    if m.m00 != 0.0 then (Trunc(m.m10 / m.m00), Trunc(m.m01 / m.m00)) else (0, 0)
  }

  // ---------------------------------------------------------------------
  // Point clouds and rigid_transform_3D
  // ---------------------------------------------------------------------

  function Sum(s: seq<Vec3>): Vec3 {
    if s == [] then Zero else Add(s[0], Sum(s[1..]))
  }

  /** `np.mean(cloud, axis=0)`. */
  function Mean(s: seq<Vec3>): Vec3
    requires |s| > 0
  {
    Scale(1.0 / (|s| as real), Sum(s))
  }

  /** `cloud - c`: every point moved by `-c`. */
  function Centered(s: seq<Vec3>, c: Vec3): seq<Vec3> {
    seq(|s|, i requires 0 <= i < |s| => Sub(s[i], c))
  }

  /** Every point moved by `d`. */
  function Translated(s: seq<Vec3>, d: Vec3): seq<Vec3> {
    seq(|s|, i requires 0 <= i < |s| => Add(s[i], d))
  }

  lemma ScaleSucc(m: real, d: Vec3)
    ensures Scale(m + 1.0, d) == Add(d, Scale(m, d))
  {
    assert (m + 1.0) * d.x == d.x + m * d.x;
    assert (m + 1.0) * d.y == d.y + m * d.y;
    assert (m + 1.0) * d.z == d.z + m * d.z;
  }

  lemma {:induction false} SumCentered(s: seq<Vec3>, c: Vec3)
    ensures Sum(Centered(s, c)) == Sub(Sum(s), Scale(|s| as real, c))
  {
    if s != [] {
      assert Centered(s, c)[1..] == Centered(s[1..], c);
      SumCentered(s[1..], c);
    }
  }

  lemma {:induction false} SumTranslated(s: seq<Vec3>, d: Vec3)
    ensures Sum(Translated(s, d)) == Add(Sum(s), Scale(|s| as real, d))
  {
    if s != [] {
      var t := Translated(s, d);
      assert t[1..] == Translated(s[1..], d);
      assert Sum(t) == Add(Add(s[0], d), Sum(Translated(s[1..], d)));
      SumTranslated(s[1..], d);
      var m := |s[1..]| as real;
      var rest := Sum(s[1..]);
      assert Sum(s) == Add(s[0], rest);
      assert Sum(t) == Add(Add(s[0], d), Add(rest, Scale(m, d)));
      assert |s| as real == m + 1.0;
      ScaleSucc(m, d);
    }
  }

  /** Both clouds `rigid_transform_3D` centres have zero mean. */
  lemma CenteredHasZeroMean(s: seq<Vec3>)
    requires |s| > 0
    ensures Sum(Centered(s, Mean(s))) == Zero
  {
    var n := |s| as real;
    SumCentered(s, Mean(s));
    assert n * (1.0 / n) == 1.0;
  }

  /** Moving a cloud by `d` moves its centroid by `d`. */
  lemma MeanTranslated(s: seq<Vec3>, d: Vec3)
    requires |s| > 0
    ensures Mean(Translated(s, d)) == Add(Mean(s), d)
  {
    var n := |s| as real;
    SumTranslated(s, d);
    assert (1.0 / n) * n == 1.0;
    var S := Sum(s);
    assert (1.0 / n) * (S.x + n * d.x) == (1.0 / n) * S.x + d.x;
    assert (1.0 / n) * (S.y + n * d.y) == (1.0 / n) * S.y + d.y;
    assert (1.0 / n) * (S.z + n * d.z) == (1.0 / n) * S.z + d.z;
  }

  /** The cross-covariance `AA.T @ BB` of two centred clouds. */
  function CrossCovariance(aa: seq<Vec3>, bb: seq<Vec3>): Mat3
    requires |aa| == |bb|
  {
    if aa == [] then ZeroMat
    else MatAdd(Mat3(Scale(aa[0].x, bb[0]), Scale(aa[0].y, bb[0]), Scale(aa[0].z, bb[0])),
                CrossCovariance(aa[1..], bb[1..]))
  }

  /** The factors `U, S, Vt` that `np.linalg.svd` returns. */
  datatype Svd = Svd(u: Mat3, s: Vec3, vt: Mat3)

  /** `Vt[2, :] *= -1`. */
  function NegateLastRow(m: Mat3): Mat3 { Mat3(m.r0, m.r1, Scale(-1.0, m.r2)) }

  /** Negating the last row of a matrix negates its determinant. */
  lemma NegateLastRowDet(m: Mat3)
    ensures Det(NegateLastRow(m)) == -Det(m)
  {
  }

  /**
   * `R = Vt.T @ U.T`, recomputed with the last row of `Vt` negated when its
   * determinant is negative (`NegateLastRowDet`: that flips the sign of
   * `Vt`'s determinant).
   */
  function RotationFromSvd(d: Svd): (r: Mat3)
    ensures Det(MatMul(Transpose(d.vt), Transpose(d.u))) >= 0.0 ==> r == MatMul(Transpose(d.vt), Transpose(d.u))
    ensures Det(MatMul(Transpose(d.vt), Transpose(d.u))) < 0.0 ==> r == MatMul(Transpose(NegateLastRow(d.vt)), Transpose(d.u))
  {
    var r := MatMul(Transpose(d.vt), Transpose(d.u));
    if Det(r) < 0.0 then MatMul(Transpose(NegateLastRow(d.vt)), Transpose(d.u)) else r
  }

  /** The rotation and translation `rigid_transform_3D` returns. */
  datatype Transform = Transform(r: Mat3, t: Vec3)

  /** `R @ p + t`. */
  function TransformPoint(tf: Transform, p: Vec3): Vec3 { Add(Apply(tf.r, p), tf.t) }

  /**
   * `rigid_transform_3D`: the shape assertion, the centroids, the centring
   * and the translation. `svd` stands for `np.linalg.svd`. Whatever rotation
   * it leads to, the returned transform carries the image centroid onto the
   * absolute centroid.
   */
  function RigidTransform3D(imageCloud: seq<Vec3>, absoluteCloud: seq<Vec3>, svd: Mat3 -> Svd): (res: Outcome<Transform>)
    requires |imageCloud| == |absoluteCloud| ==> |imageCloud| > 0
    ensures res.Raised? <==> |imageCloud| != |absoluteCloud|
    ensures res.Raised? ==> res.error == AssertionError
    ensures res.Returned? ==> TransformPoint(res.value, Mean(imageCloud)) == Mean(absoluteCloud)
  {
    if |imageCloud| != |absoluteCloud| then Raised(AssertionError)
    else
      var centroidA := Mean(imageCloud);
      var centroidB := Mean(absoluteCloud);
      var h := CrossCovariance(Centered(imageCloud, centroidA), Centered(absoluteCloud, centroidB));
      var r := RotationFromSvd(svd(h));
      Returned(Transform(r, Sub(centroidB, Apply(r, centroidA))))
  }

  /**
   * The rotation depends only on the centred image cloud: moving that cloud
   * by `d` leaves the rotation as it is and moves the translation by `-R d`.
   */
  lemma RigidTransformTranslationInvariant(imageCloud: seq<Vec3>, absoluteCloud: seq<Vec3>, svd: Mat3 -> Svd, d: Vec3)
    requires |imageCloud| == |absoluteCloud| > 0
    ensures var moved := RigidTransform3D(Translated(imageCloud, d), absoluteCloud, svd);
            var still := RigidTransform3D(imageCloud, absoluteCloud, svd);
            moved.Returned? && still.Returned? &&
            moved.value.r == still.value.r &&
            moved.value.t == Sub(still.value.t, Apply(still.value.r, d))
  {
    var a' := Translated(imageCloud, d);
    var cA, cB := Mean(imageCloud), Mean(absoluteCloud);
    MeanTranslated(imageCloud, d);
    assert Centered(a', Mean(a')) == Centered(imageCloud, cA);
    var r := RotationFromSvd(svd(CrossCovariance(Centered(imageCloud, cA), Centered(absoluteCloud, cB))));
    assert RigidTransform3D(a', absoluteCloud, svd) == Returned(Transform(r, Sub(cB, Apply(r, Add(cA, d)))));
    ApplyAdd(r, cA, d);
  }

  /** A matrix distributes over a sum of vectors. */
  lemma ApplyAdd(m: Mat3, a: Vec3, b: Vec3)
    ensures Apply(m, Add(a, b)) == Add(Apply(m, a), Apply(m, b))
  {
  }
}
