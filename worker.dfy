/**
 * The producer process (src/pose_estimation_worker.py): it checks its
 * arguments, restricts the skeleton to the tennis joints, opens the video and
 * emits one JSON record per decoded frame, carrying the most recent
 * detection from frame to frame to estimate the right wrist's speed.
 *
 * The video decoder, the pose detector and the JPEG encoder are oracles: a
 * `Capture` lists, for each frame the decoder delivers before its first
 * failed read, the frame, what the detector returns for it and whether
 * encoding it succeeds. `np.linalg.norm` is the parameter `norm`.
 */
module Worker {

  import opened Wrappers
  import opened Media
  import opened Landmarks
  import opened PoseEstimator

  /** About ten seconds of video at 30 frames per second. */
  const MAX_FRAMES: nat := 300

  const USAGE: string := "Usage: python -m src.pose_estimation_worker <video_path>"
  const OPEN_FAILED: string := "Failed to open video"

  /** An OpenCV colour, in blue-green-red order. */
  datatype Color = Color(blue: nat, green: nat, red: nat)

  const GREEN: Color := Color(0, 255, 0)
  const JOINT_RADIUS: nat := 5
  /** OpenCV's thickness for a filled circle. */
  const FILLED: int := -1
  const LINE_THICKNESS: int := 2

  /** One drawing call on a frame. */
  datatype DrawOp =
    | Circle(center: Pixel, radius: nat, color: Color, thickness: int)
    | Line(from: Pixel, to: Pixel, color: Color, thickness: int)

  /**
   * A frame with marks drawn on it. Every mark is painted in the same colour
   * without anti-aliasing, so the order of the drawing calls does not show in
   * the result and the marks form a set.
   */
  datatype Image = Image(frame: Frame, marks: set<DrawOp>)

  /** The `frame_data` field: "" or the base64 text of the image's JPEG encoding. */
  datatype FrameData = NoData | Jpeg(image: Image)

  /** One `{"frame", "pose", "wrist_speed", "frame_data"}` object. */
  datatype FrameRecord = FrameRecord(frame: nat, pose: string, wristSpeed: real, frameData: FrameData)

  /** One line the process prints. */
  datatype OutputLine =
    | UsageLine(text: string)
    | ErrorLine(error: string)
    | RecordLine(record: FrameRecord)

  /** A pair of joint indices joined by a bone of the skeleton. */
  type Connection = (nat, nat)

  /** One successful `cap.read()`, with the detector's and the encoder's answers for it. */
  datatype SourceFrame = SourceFrame(frame: Frame, detection: Option<seq<Landmark>>, encodes: bool)

  /** The opened (or not) video: the frames it yields before the first failed read. */
  datatype Capture = Capture(isOpened: bool, frames: seq<SourceFrame>)

  /** The pose detector returns either nothing or one landmark per joint. */
  predicate DetectorContract(frames: seq<SourceFrame>) {
    forall i :: 0 <= i < |frames| && frames[i].detection.Some? ==> IsDetection(frames[i].detection.value)
  }

  function Min(a: nat, b: nat): nat {
    if a <= b then a else b
  }

  /** The skeleton's bones whose two ends are both tennis joints. */
  function AllowedConnections(graph: set<Connection>): (allowed: set<Connection>)
    ensures allowed <= graph
    ensures forall c :: c in allowed ==> c.0 in ALLOWED_JOINTS && c.1 in ALLOWED_JOINTS
    ensures forall c :: c in graph && c !in allowed ==> c.0 !in ALLOWED_JOINTS || c.1 !in ALLOWED_JOINTS
  {
    set c | c in graph && c.0 in ALLOWED_JOINTS && c.1 in ALLOWED_JOINTS
  }

  /** Builds the allowed-connection set by one `add` per qualifying bone. */
  method FilterConnections(graph: set<Connection>) returns (allowed: set<Connection>)
    ensures allowed <= graph
    ensures forall c :: c in allowed <==> c in graph && c.0 in ALLOWED_JOINTS && c.1 in ALLOWED_JOINTS
    ensures allowed == AllowedConnections(graph)
  {
    allowed := {};
    var rest := graph;
    while rest != {}
      invariant rest <= graph
      invariant forall c :: c in allowed <==> c in graph - rest && c.0 in ALLOWED_JOINTS && c.1 in ALLOWED_JOINTS
      decreases rest
    {
      var connection :| connection in rest;
      if connection.0 in ALLOWED_JOINTS && connection.1 in ALLOWED_JOINTS {
        allowed := allowed + {connection};
      }
      rest := rest - {connection};
    }
  }

  /** The circle drawn at a joint. */
  function JointMark(frame: Frame, lm: Landmark): DrawOp {
    Circle(PixelOf(lm, frame), JOINT_RADIUS, GREEN, FILLED)
  }

  /** The line drawn along a bone. */
  function BoneMark(frame: Frame, a: Landmark, b: Landmark): DrawOp {
    Line(PixelOf(a, frame), PixelOf(b, frame), GREEN, LINE_THICKNESS)
  }

  /** Circles at the tennis joints among the first `n` landmarks. */
  function JointMarks(frame: Frame, landmarks: seq<Landmark>, n: nat): set<DrawOp>
    requires n <= |landmarks|
  {
    set i: nat | i < n && i in ALLOWED_JOINTS :: JointMark(frame, landmarks[i])
  }

  /** Lines along the given bones. */
  function BoneMarks(frame: Frame, landmarks: seq<Landmark>, conns: set<Connection>): set<DrawOp> {
    set c | c in conns && c.0 < |landmarks| && c.1 < |landmarks| :: BoneMark(frame, landmarks[c.0], landmarks[c.1])
  }

  /** The frame with the tennis joints and the given bones drawn on it. */
  function Annotation(frame: Frame, landmarks: seq<Landmark>, conns: set<Connection>): (image: Image)
    ensures image.frame == frame
    ensures forall m :: m in image.marks ==> m.color == GREEN
  {
    Image(frame, JointMarks(frame, landmarks, |landmarks|) + BoneMarks(frame, landmarks, conns))
  }

  /** Draws the circles, landmark by landmark, then the lines, bone by bone. */
  method Annotate(frame: Frame, landmarks: seq<Landmark>, conns: set<Connection>) returns (image: Image)
    requires forall c :: c in conns ==> c.0 < |landmarks| && c.1 < |landmarks|
    ensures image == Annotation(frame, landmarks, conns)
  {
    image := Image(frame, {});
    for idx := 0 to |landmarks|
      invariant image == Image(frame, JointMarks(frame, landmarks, idx))
    {
      if idx in ALLOWED_JOINTS {
        image := image.(marks := image.marks + {JointMark(frame, landmarks[idx])});
      }
      assert JointMarks(frame, landmarks, idx + 1) ==
        JointMarks(frame, landmarks, idx) + (if idx in ALLOWED_JOINTS then {JointMark(frame, landmarks[idx])} else {});
    }
    var rest := conns;
    while rest != {}
      invariant rest <= conns
      invariant image == Image(frame, JointMarks(frame, landmarks, |landmarks|) + BoneMarks(frame, landmarks, conns - rest))
      decreases rest
    {
      var connection :| connection in rest;
      var (a, b) := connection;
      image := image.(marks := image.marks + {BoneMark(frame, landmarks[a], landmarks[b])});
      assert BoneMarks(frame, landmarks, conns - (rest - {connection})) ==
        BoneMarks(frame, landmarks, conns - rest) + {BoneMark(frame, landmarks[a], landmarks[b])};
      rest := rest - {connection};
    }
    assert conns - rest == conns;
  }

  /** The landmarks of the most recent frame with a detection, if any. */
  function LastDetection(frames: seq<SourceFrame>): (last: Option<seq<Landmark>>)
    ensures DetectorContract(frames) && last.Some? ==> IsDetection(last.value)
  {
    if frames == [] then None
    else if frames[|frames| - 1].detection.Some? then frames[|frames| - 1].detection
    else LastDetection(frames[..|frames| - 1])
  }

  /** The right wrist of a detection, if there is one. */
  function RightWristOf(landmarks: Option<seq<Landmark>>): Option<Landmark>
    requires landmarks.Some? ==> IsDetection(landmarks.value)
  {
    match landmarks
    case None => None
    case Some(l) => Some(l[RIGHT_WRIST])
  }

  lemma DetectorContractPrefix(frames: seq<SourceFrame>, n: nat)
    requires n <= |frames| && DetectorContract(frames)
    ensures DetectorContract(frames[..n])
  {
  }

  /**
   * The record of one decoded frame, numbered `frameNo`, given the landmarks
   * carried from earlier frames: without a detection the defaults and the
   * unannotated frame; with one, the classifier's label, the speed against
   * the carried landmarks, and the annotated frame; the payload is empty when
   * encoding fails.
   */
  function RecordFrom(norm: (real, real) -> real, conns: set<Connection>, frameNo: nat, source: SourceFrame,
                      previous: Option<seq<Landmark>>): (record: FrameRecord)
    requires source.detection.Some? ==> IsDetection(source.detection.value)
    requires previous.Some? ==> IsDetection(previous.value)
    ensures record.frame == frameNo
    ensures record.pose == SERVE || record.pose == UNKNOWN
    ensures source.detection.None? ==> record.pose == UNKNOWN && record.wristSpeed == 0.0
    ensures source.detection.Some? && previous.None? ==> record.wristSpeed == 0.0
    ensures record.frameData.Jpeg? <==> source.encodes
    ensures record.frameData.Jpeg? ==> record.frameData.image.frame == source.frame
    ensures record.frameData.Jpeg? && source.detection.None? ==> record.frameData.image.marks == {}
  {
    match source.detection
    case None =>
      FrameRecord(frameNo, UNKNOWN, 0.0, if source.encodes then Jpeg(Image(source.frame, {})) else NoData)
    case Some(landmarks) =>
      FrameRecord(
        frameNo,
        ClassifyPose(landmarks),
        CalculateSpeed(norm, landmarks[RIGHT_WRIST], RightWristOf(previous)),
        if source.encodes then Jpeg(Annotation(source.frame, landmarks, conns)) else NoData)
  }

  /**
   * The record of the frame at index `i`, stated with the estimator's
   * helpers: frame number i + 1, measured against the most recent earlier
   * detection.
   */
  function RecordFor(norm: (real, real) -> real, conns: set<Connection>, frames: seq<SourceFrame>, i: nat): (record: FrameRecord)
    requires i < |frames| && DetectorContract(frames)
    ensures record.frame == i + 1
    ensures record.pose == SERVE || record.pose == UNKNOWN
    ensures frames[i].detection.None? ==> record.pose == UNKNOWN && record.wristSpeed == 0.0
    ensures record.frameData.Jpeg? <==> frames[i].encodes
    ensures record.frameData.Jpeg? ==> record.frameData.image.frame == frames[i].frame
    ensures record.frameData.Jpeg? && frames[i].detection.None? ==> record.frameData.image.marks == {}
  {
    DetectorContractPrefix(frames, i);
    RecordFrom(norm, conns, i + 1, frames[i], LastDetection(frames[..i]))
  }

  /**
   * The body of `main`'s loop for one decoded frame: draws, classifies and
   * measures when there is a detection, encodes, and returns the record with
   * the landmarks to carry to the next frame.
   */
  method ProcessFrame(norm: (real, real) -> real, conns: set<Connection>, frameNo: nat, source: SourceFrame,
                      prevLandmarks: Option<seq<Landmark>>)
    returns (record: FrameRecord, carried: Option<seq<Landmark>>)
    requires source.detection.Some? ==> IsDetection(source.detection.value)
    requires prevLandmarks.Some? ==> IsDetection(prevLandmarks.value)
    requires forall c :: c in conns ==> c.0 in ALLOWED_JOINTS && c.1 in ALLOWED_JOINTS
    ensures record == RecordFrom(norm, conns, frameNo, source, prevLandmarks)
    ensures carried == if source.detection.Some? then source.detection else prevLandmarks
  {
    AllowedJointsInTaxonomy();
    carried := prevLandmarks;
    var pose := UNKNOWN;
    var wristSpeed := 0.0;
    var image := Image(source.frame, {});
    if source.detection.Some? {
      var landmarks := source.detection.value;
      image := Annotate(source.frame, landmarks, conns);
      var rightWrist := landmarks[RIGHT_WRIST];
      var rightShoulder := landmarks[RIGHT_SHOULDER];
      if rightWrist.y < rightShoulder.y {
        pose := SERVE;
      }
      if prevLandmarks.Some? && |prevLandmarks.value| > 0 {
        var prevWrist := prevLandmarks.value[RIGHT_WRIST];
        wristSpeed := norm(rightWrist.x - prevWrist.x, rightWrist.y - prevWrist.y);
      }
      assert pose == ClassifyPose(landmarks);
      assert wristSpeed == CalculateSpeed(norm, rightWrist, RightWristOf(prevLandmarks));
      carried := source.detection;
    }

    var frameData := NoData;
    if source.encodes {
      frameData := Jpeg(image);
    }
    record := FrameRecord(frameNo, pose, wristSpeed, frameData);
  }

  /**
   * `main`: the usage error, the open failure, or one record per decoded
   * frame, at most MAX_FRAMES of them, stopping at the first failed read.
   */
  method RunWorker(argv: seq<string>, graph: set<Connection>, capture: Capture, norm: (real, real) -> real)
    returns (out: seq<OutputLine>, status: int)
    requires DetectorContract(capture.frames)
    ensures |argv| < 2 ==> out == [UsageLine(USAGE)] && status == 1
    ensures |argv| >= 2 && !capture.isOpened ==> out == [ErrorLine(OPEN_FAILED)] && status == 1
    ensures |argv| >= 2 && capture.isOpened ==>
      && status == 0
      && |out| == Min(MAX_FRAMES, |capture.frames|)
      && forall k :: 0 <= k < |out| ==>
           out[k] == RecordLine(RecordFor(norm, AllowedConnections(graph), capture.frames, k))
    ensures forall k :: 0 <= k < |out| && out[k].RecordLine? ==> out[k].record.frame == k + 1
  {
    if |argv| < 2 {
      return [UsageLine(USAGE)], 1;
    }
    var allowedConnections := FilterConnections(graph);
    AllowedJointsInTaxonomy();
    if !capture.isOpened {
      return [ErrorLine(OPEN_FAILED)], 1;
    }
    var frames := capture.frames;
    var prevLandmarks: Option<seq<Landmark>> := None;
    var frameNo: nat := 0;
    out := [];
    while frameNo < MAX_FRAMES
      invariant frameNo <= |frames| && frameNo <= MAX_FRAMES
      invariant prevLandmarks == LastDetection(frames[..frameNo])
      invariant |out| == frameNo
      invariant forall k :: 0 <= k < frameNo ==> out[k] == RecordLine(RecordFor(norm, allowedConnections, frames, k))
    {
      if frameNo == |frames| {
        // The read failed: the video ended before MAX_FRAMES.
        break;
      }
      var source := frames[frameNo];
      DetectorContractPrefix(frames, frameNo);
      assert frames[..frameNo + 1][..frameNo] == frames[..frameNo];
      var record;
      record, prevLandmarks := ProcessFrame(norm, allowedConnections, frameNo + 1, source, prevLandmarks);
      out := out + [RecordLine(record)];
      frameNo := frameNo + 1;
    }
    status := 0;
  }

  // Properties of the emitted records.

  /** Without a detection a record keeps its defaults and the carried landmarks stay as they were. */
  lemma NoDetectionKeepsDefaults(norm: (real, real) -> real, conns: set<Connection>, frames: seq<SourceFrame>, i: nat)
    requires i < |frames| && DetectorContract(frames) && frames[i].detection == None
    ensures RecordFor(norm, conns, frames, i).pose == UNKNOWN
    ensures RecordFor(norm, conns, frames, i).wristSpeed == 0.0
    ensures RecordFor(norm, conns, frames, i).frameData ==
      if frames[i].encodes then Jpeg(Image(frames[i].frame, {})) else NoData
    ensures LastDetection(frames[..i + 1]) == LastDetection(frames[..i])
  {
    assert frames[..i + 1][..i] == frames[..i];
  }

  /** After a detection the carried landmarks are that detection's. */
  lemma DetectionReplacesPrevious(frames: seq<SourceFrame>, i: nat)
    requires i < |frames| && frames[i].detection.Some?
    ensures LastDetection(frames[..i + 1]) == frames[i].detection
  {
    assert frames[..i + 1][i] == frames[i];
  }

  lemma {:induction false} LastDetectionIs(frames: seq<SourceFrame>, j: nat)
    requires j < |frames| && frames[j].detection.Some?
    requires forall k :: j < k < |frames| ==> frames[k].detection == None
    ensures LastDetection(frames) == frames[j].detection
  {
    if j < |frames| - 1 {
      LastDetectionIs(frames[..|frames| - 1], j);
    }
  }

  lemma {:induction false} LastDetectionNone(frames: seq<SourceFrame>)
    requires forall k :: 0 <= k < |frames| ==> frames[k].detection == None
    ensures LastDetection(frames) == None
  {
    if frames != [] {
      LastDetectionNone(frames[..|frames| - 1]);
    }
  }

  /**
   * The speed of a detected frame is measured against the most recent earlier
   * frame with a detection, however many undetected frames lie between them.
   */
  lemma SpeedAgainstMostRecentDetection(
    norm: (real, real) -> real, conns: set<Connection>, frames: seq<SourceFrame>, i: nat, j: nat)
    requires i < |frames| && DetectorContract(frames)
    requires j < i && frames[j].detection.Some? && frames[i].detection.Some?
    requires forall k :: j < k < i ==> frames[k].detection == None
    ensures RecordFor(norm, conns, frames, i).wristSpeed ==
      Distance(norm, frames[i].detection.value[RIGHT_WRIST], frames[j].detection.value[RIGHT_WRIST])
  {
    LastDetectionIs(frames[..i], j);
  }

  /** Until the first detection there is nothing to measure against: the speed is 0.0. */
  lemma SpeedZeroWithoutEarlierDetection(
    norm: (real, real) -> real, conns: set<Connection>, frames: seq<SourceFrame>, i: nat)
    requires i < |frames| && DetectorContract(frames)
    requires forall k :: 0 <= k < i ==> frames[k].detection == None
    ensures RecordFor(norm, conns, frames, i).wristSpeed == 0.0
  {
    LastDetectionNone(frames[..i]);
  }

  /** Every reported speed is a norm, hence never negative. */
  lemma SpeedNonNegative(norm: (real, real) -> real, conns: set<Connection>, frames: seq<SourceFrame>, i: nat)
    requires i < |frames| && DetectorContract(frames) && IsNorm(norm)
    ensures RecordFor(norm, conns, frames, i).wristSpeed >= 0.0
  {
    if frames[i].detection.Some? {
      DetectorContractPrefix(frames, i);
      var landmarks := frames[i].detection.value;
      CalculateSpeedProperties(norm, landmarks[RIGHT_WRIST], RightWristOf(LastDetection(frames[..i])));
    }
  }

  /** The label is "Serve" exactly for a detection whose right wrist is strictly above the right shoulder. */
  lemma PoseServeExactlyWhenWristAboveShoulder(
    norm: (real, real) -> real, conns: set<Connection>, frames: seq<SourceFrame>, i: nat)
    requires i < |frames| && DetectorContract(frames)
    ensures var pose := RecordFor(norm, conns, frames, i).pose;
      && (pose == SERVE || pose == UNKNOWN)
      && (pose == SERVE <==>
            frames[i].detection.Some? &&
            frames[i].detection.value[RIGHT_WRIST].y < frames[i].detection.value[RIGHT_SHOULDER].y)
  {
  }

  /**
   * Only tennis joints get a circle and only bones between two tennis joints
   * get a line, whatever the detector returns; and every tennis joint gets
   * its circle.
   */
  lemma AnnotationDrawsOnlyAllowed(frame: Frame, landmarks: seq<Landmark>, graph: set<Connection>)
    requires IsDetection(landmarks)
    ensures forall m :: m in Annotation(frame, landmarks, AllowedConnections(graph)).marks ==>
      || (exists i: nat :: i in ALLOWED_JOINTS && i < |landmarks| && m == JointMark(frame, landmarks[i]))
      || (exists c :: c in graph && c.0 in ALLOWED_JOINTS && c.1 in ALLOWED_JOINTS &&
            c.0 < |landmarks| && c.1 < |landmarks| && m == BoneMark(frame, landmarks[c.0], landmarks[c.1]))
    ensures forall i: nat :: i in ALLOWED_JOINTS ==>
      i < |landmarks| && JointMark(frame, landmarks[i]) in Annotation(frame, landmarks, AllowedConnections(graph)).marks
    ensures forall c :: c in AllowedConnections(graph) ==>
      && c.0 < |landmarks| && c.1 < |landmarks|
      && BoneMark(frame, landmarks[c.0], landmarks[c.1]) in Annotation(frame, landmarks, AllowedConnections(graph)).marks
  {
    AllowedJointsInTaxonomy();
  }

  /**
   * The image a record carries for a detected, encoded frame shows exactly
   * the drawing above: only allowed joints and bones, each allowed joint
   * with its circle and each allowed bone with its line.
   */
  lemma RecordDrawsOnlyAllowed(norm: (real, real) -> real, graph: set<Connection>, frames: seq<SourceFrame>, i: nat)
    requires i < |frames| && DetectorContract(frames)
    requires frames[i].detection.Some? && frames[i].encodes
    ensures var image := RecordFor(norm, AllowedConnections(graph), frames, i).frameData.image;
      var landmarks := frames[i].detection.value;
      && image.frame == frames[i].frame
      && (forall m :: m in image.marks ==>
            || (exists j: nat :: j in ALLOWED_JOINTS && j < |landmarks| && m == JointMark(frames[i].frame, landmarks[j]))
            || (exists c :: c in graph && c.0 in ALLOWED_JOINTS && c.1 in ALLOWED_JOINTS &&
                  c.0 < |landmarks| && c.1 < |landmarks| && m == BoneMark(frames[i].frame, landmarks[c.0], landmarks[c.1])))
      && (forall j: nat :: j in ALLOWED_JOINTS ==> j < |landmarks| && JointMark(frames[i].frame, landmarks[j]) in image.marks)
      && (forall c :: c in AllowedConnections(graph) ==>
            && c.0 < |landmarks| && c.1 < |landmarks|
            && BoneMark(frames[i].frame, landmarks[c.0], landmarks[c.1]) in image.marks)
  {
    var landmarks := frames[i].detection.value;
    DetectorContractPrefix(frames, i);
    assert RecordFor(norm, AllowedConnections(graph), frames, i).frameData
      == Jpeg(Annotation(frames[i].frame, landmarks, AllowedConnections(graph)));
    AnnotationDrawsOnlyAllowed(frames[i].frame, landmarks, graph);
  }

  /** A detection with the right wrist at height 0.2 and the right shoulder at 0.5. */
  function RaisedArm(): (landmarks: seq<Landmark>)
    ensures IsDetection(landmarks)
  {
    seq(LANDMARK_COUNT, i =>
      if i == RIGHT_WRIST then Landmark(0.4, 0.2)
      else if i == RIGHT_SHOULDER then Landmark(0.4, 0.5)
      else Landmark(0.5, 0.5))
  }

  /**
   * Five frames: three identical detections of a raised arm, one frame with
   * no detection, then the same detection again. Frames 1 to 3 and 5 are
   * "Serve" with speed 0.0 (frame 5 is measured against frame 3); frame 4
   * is "Unknown" with speed 0.0.
   */
  lemma ServeScenario(norm: (real, real) -> real, conns: set<Connection>, frame: Frame)
    requires IsNorm(norm)
    ensures var detected := SourceFrame(frame, Some(RaisedArm()), true);
      var frames := [detected, detected, detected, SourceFrame(frame, None, true), detected];
      && DetectorContract(frames)
      && (forall i :: 0 <= i < 5 ==> RecordFor(norm, conns, frames, i).wristSpeed == 0.0)
      && (forall i :: 0 <= i < 5 ==> RecordFor(norm, conns, frames, i).pose == if i == 3 then UNKNOWN else SERVE)
  {
    var arm := RaisedArm();
    var detected := SourceFrame(frame, Some(arm), true);
    var frames := [detected, detected, detected, SourceFrame(frame, None, true), detected];
    assert DetectorContract(frames);
    DistanceIsMetric(norm, arm[RIGHT_WRIST], arm[RIGHT_WRIST]);
    SpeedZeroWithoutEarlierDetection(norm, conns, frames, 0);
    SpeedAgainstMostRecentDetection(norm, conns, frames, 1, 0);
    SpeedAgainstMostRecentDetection(norm, conns, frames, 2, 1);
    NoDetectionKeepsDefaults(norm, conns, frames, 3);
    SpeedAgainstMostRecentDetection(norm, conns, frames, 4, 2);
    forall i | 0 <= i < 5
      ensures RecordFor(norm, conns, frames, i).wristSpeed == 0.0
      ensures RecordFor(norm, conns, frames, i).pose == if i == 3 then UNKNOWN else SERVE
    {
      if i != 3 {
        assert frames[i] == detected;
        assert ClassifyPose(arm) == SERVE;
      }
    }
  }

}
