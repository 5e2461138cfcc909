/**
 * Pose landmarks as returned by the pose detector, the fixed joint taxonomy,
 * the geometry the pipeline computes on them, and the flattening helper of
 * src/utils.py.
 */
module Landmarks {

  import opened Media

  /** One normalised landmark: `x` grows to the right, `y` grows downwards. */
  datatype Landmark = Landmark(x: real, y: real)

  /** Number of landmarks in every detection of the pose model. */
  const LANDMARK_COUNT: nat := 33

  // Indices of the joint taxonomy (the pose model's PoseLandmark values).
  const LEFT_SHOULDER: nat := 11
  const RIGHT_SHOULDER: nat := 12
  const LEFT_ELBOW: nat := 13
  const RIGHT_ELBOW: nat := 14
  const LEFT_WRIST: nat := 15
  const RIGHT_WRIST: nat := 16
  const LEFT_HIP: nat := 23
  const RIGHT_HIP: nat := 24
  const LEFT_KNEE: nat := 25
  const RIGHT_KNEE: nat := 26
  const LEFT_ANKLE: nat := 27
  const RIGHT_ANKLE: nat := 28

  /** The key tennis joints; only these are drawn on a frame. */
  const ALLOWED_JOINTS: set<nat> := {
    LEFT_SHOULDER, RIGHT_SHOULDER, LEFT_ELBOW, RIGHT_ELBOW, LEFT_WRIST, RIGHT_WRIST,
    LEFT_HIP, RIGHT_HIP, LEFT_KNEE, RIGHT_KNEE, LEFT_ANKLE, RIGHT_ANKLE
  }

  /** A detection as the pose model delivers it: one landmark per joint. */
  predicate IsDetection(landmarks: seq<Landmark>) {
    |landmarks| == LANDMARK_COUNT
  }

  lemma AllowedJointsInTaxonomy()
    ensures forall j :: j in ALLOWED_JOINTS ==> j < LANDMARK_COUNT
  {
  }

  /**
   * What the model relies on of `np.linalg.norm` applied to a displacement
   * `[dx, dy]`: it is non-negative, zero exactly on the zero vector, and the
   * same for a displacement and its reverse.
   */
  ghost predicate IsNorm(norm: (real, real) -> real) {
    forall dx: real, dy: real ::
      && norm(dx, dy) >= 0.0
      && (norm(dx, dy) == 0.0 <==> dx == 0.0 && dy == 0.0)
      && norm(-dx, -dy) == norm(dx, dy)
  }

  function Abs(r: real): real {
    if r < 0.0 then -r else r
  }

  /** The assumptions on `norm` are consistent: the taxicab norm meets them. */
  lemma TaxicabIsNorm()
    ensures IsNorm((dx: real, dy: real) => Abs(dx) + Abs(dy))
  {
  }

  /** The distance between the (x, y) parts of two landmarks under `norm`. */
  function Distance(norm: (real, real) -> real, a: Landmark, b: Landmark): real {
    norm(a.x - b.x, a.y - b.y)
  }

  lemma DistanceIsMetric(norm: (real, real) -> real, a: Landmark, b: Landmark)
    requires IsNorm(norm)
    ensures Distance(norm, a, b) >= 0.0
    ensures Distance(norm, a, b) == 0.0 <==> a.x == b.x && a.y == b.y
    ensures Distance(norm, a, b) == Distance(norm, b, a)
  {
    var dx, dy := a.x - b.x, a.y - b.y;
    assert b.x - a.x == -dx && b.y - a.y == -dy;
    assert norm(-dx, -dy) == norm(dx, dy);
  }

  /** Python's `int(r)` on a float: truncation toward zero. */
  function Trunc(r: real): (n: int)
    ensures 0.0 <= r ==> 0 <= n && n as real <= r < n as real + 1.0
    ensures r < 0.0 ==> n <= 0 && n as real - 1.0 < r <= n as real
  {
    if r >= 0.0 then r.Floor else -((-r).Floor)
  }

  /** A pixel position `(x, y)` on a frame. */
  datatype Pixel = Pixel(x: int, y: int)

  /** Where a landmark falls on a frame: `(int(lm.x * width), int(lm.y * height))`. */
  function PixelOf(lm: Landmark, frame: Frame): Pixel {
    Pixel(Trunc(lm.x * frame.width as real), Trunc(lm.y * frame.height as real))
  }

  /** `convert_landmarks_to_array`: each landmark becomes the pair `[x, y]`. */
  function ConvertLandmarksToArray(landmarks: seq<Landmark>): (rows: seq<seq<real>>)
    ensures |rows| == |landmarks|
    ensures forall i :: 0 <= i < |rows| ==> |rows[i]| == 2
    ensures forall i :: 0 <= i < |rows| ==> rows[i] == [landmarks[i].x, landmarks[i].y]
  {
    if landmarks == [] then []
    else [[landmarks[0].x, landmarks[0].y]] + ConvertLandmarksToArray(landmarks[1..])
  }

  /** Flattening commutes with concatenation: landmark order is preserved. */
  lemma ConvertLandmarksToArrayAppend(a: seq<Landmark>, b: seq<Landmark>)
    ensures ConvertLandmarksToArray(a + b) == ConvertLandmarksToArray(a) + ConvertLandmarksToArray(b)
  {
  }

  /** Reading the pairs back gives the landmarks that were flattened. */
  function ArrayToLandmarks(rows: seq<seq<real>>): (landmarks: seq<Landmark>)
    requires forall i :: 0 <= i < |rows| ==> |rows[i]| == 2
    ensures |landmarks| == |rows|
  {
    seq(|rows|, i requires 0 <= i < |rows| => Landmark(rows[i][0], rows[i][1]))
  }

  lemma ConvertLandmarksToArrayRoundTrip(landmarks: seq<Landmark>)
    ensures ArrayToLandmarks(ConvertLandmarksToArray(landmarks)) == landmarks
  {
    var rows := ConvertLandmarksToArray(landmarks);
    assert forall i :: 0 <= i < |landmarks| ==> ArrayToLandmarks(rows)[i] == landmarks[i];
  }

}
