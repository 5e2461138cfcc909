/**
 * The two pure helpers of `MediapipePoseEstimator`: the stroke classifier and
 * the wrist-speed estimator. Both are functions of their arguments only; they
 * read and write no estimator state.
 */
module PoseEstimator {

  import opened Wrappers
  import opened Landmarks

  const SERVE: string := "Serve"
  const UNKNOWN: string := "Unknown"

  /** `classify_pose`: "Serve" exactly when the right wrist is above the right shoulder. */
  function ClassifyPose(landmarks: seq<Landmark>): (pose: string)
    requires RIGHT_WRIST < |landmarks| && RIGHT_SHOULDER < |landmarks|
    ensures pose == SERVE || pose == UNKNOWN
    ensures pose == SERVE <==> landmarks[RIGHT_WRIST].y < landmarks[RIGHT_SHOULDER].y
  {
    var rightWrist := landmarks[RIGHT_WRIST];
    var rightShoulder := landmarks[RIGHT_SHOULDER];
    if rightWrist.y < rightShoulder.y then SERVE else UNKNOWN
  }

  /**
   * `calculate_speed`: how far one joint moved between two detections, the
   * norm of the (x, y) displacement; 0.0 when there is no previous position.
   */
  function CalculateSpeed(norm: (real, real) -> real, current: Landmark, previous: Option<Landmark>): (speed: real)
    ensures previous == None ==> speed == 0.0
    ensures previous.Some? ==> speed == Distance(norm, current, previous.value)
  {
    match previous
    case None => 0.0
    case Some(p) => norm(current.x - p.x, current.y - p.y)
  }

  /**
   * The speed is never negative, is zero exactly when the joint did not move,
   * and does not depend on which of the two positions is the earlier one.
   */
  lemma CalculateSpeedProperties(norm: (real, real) -> real, current: Landmark, previous: Option<Landmark>)
    requires IsNorm(norm)
    ensures CalculateSpeed(norm, current, previous) >= 0.0
    ensures previous.Some? ==>
      (CalculateSpeed(norm, current, previous) == 0.0 <==>
         current.x == previous.value.x && current.y == previous.value.y)
    ensures previous.Some? ==>
      CalculateSpeed(norm, current, previous) == CalculateSpeed(norm, previous.value, Some(current))
  {
    if previous.Some? {
      DistanceIsMetric(norm, current, previous.value);
    }
  }

}
