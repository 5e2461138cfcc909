/**
 * The consumer side of src/gui.py: the non-widget state of `MainWindow` —
 * whether an analysis is running, the buffer of decoded frames, the latched
 * frame size and the status text — and the three operations that change it.
 *
 * Widgets, the child process and the pipe are outside the model: starting
 * the worker is the boolean `workerStarts`, the existence of the video file
 * is `videoExists`, and a chunk of worker output arrives already split into
 * lines and parsed as JSON.
 */
module Gui {

  import opened Wrappers
  import opened Media

  const FPS: nat := 30
  const OUTPUT_FILENAME: string := "processed_output.avi"
  const FOURCC: string := "XVID"

  /** The texts the status label shows. */
  datatype Status =
    | Ready                  // "Status: Ready"
    | VideoNotFound          // "Error: Video file not found!"
    | WorkerFailedToStart    // "Error: Worker process failed to start."
    | FrameInfo(frame: Option<int>, pose: Option<string>, wristSpeed: real)
                             // "Frame: … | Pose: … | Wrist Speed: …" (`None` prints as "None")
    | NoVideoRecorded        // "No video recorded yet!"
    | VideoSaved(filename: string)

  /** The `frame_data` member: absent or "" (both false in Python), or the image its JPEG decodes to. */
  datatype Payload = NoPayload | Payload(image: Frame)

  /** One line of worker output. */
  datatype WorkerLine =
    // The line raises before any field is read: `json.loads` fails (merged
    // stderr text, an empty or a partial line), or the JSON is not an object
    // (`42`, `null`, a list), so `output.get` fails.
    | Unparseable
    // A JSON object; `wristSpeed` is `None` when the member is absent or not
    // a number, in which case formatting it with `:.2f` raises.
    | Message(frame: Option<int>, pose: Option<string>, wristSpeed: Option<real>, payload: Payload)

  /** What `cv2.VideoWriter` is asked to write. */
  datatype VideoFile = VideoFile(filename: string, fourcc: string, fps: nat, width: nat, height: nat, frames: seq<Frame>)

  /** A line survives the status-text formatting (does not raise) exactly when it has a numeric speed. */
  predicate Formats(line: WorkerLine)
    ensures line.Unparseable? ==> !Formats(line)
    ensures line.Message? && line.wristSpeed.None? ==> !Formats(line)
  {
    line.Message? && line.wristSpeed.Some?
  }

  /** The frame a line appends to the buffer, if any. */
  function FrameOf(line: WorkerLine): (frame: Option<Frame>)
    ensures frame.Some? ==> Formats(line) && line.payload == Payload(frame.value)
    ensures Formats(line) && line.payload.Payload? ==> frame.Some?
  {
    if Formats(line) && line.payload.Payload? then Some(line.payload.image) else None
  }

  /** The frames a chunk of lines appends to the buffer, in order. */
  function BufferedFrames(lines: seq<WorkerLine>): (frames: seq<Frame>)
    ensures |frames| <= |lines|
  {
    if lines == [] then []
    else
      (match FrameOf(lines[0]) case Some(f) => [f] case None => []) + BufferedFrames(lines[1..])
  }

  /** The status text after a chunk: that of the last line that formats, or the old one. */
  function StatusAfter(status: Status, lines: seq<WorkerLine>): (after: Status)
    ensures after == status || after.FrameInfo?
    decreases lines
  {
    if lines == [] then status
    else
      var line := lines[0];
      StatusAfter(if Formats(line) then FrameInfo(line.frame, line.pose, line.wristSpeed.value) else status, lines[1..])
  }

  /** Two chunks buffer what their concatenation buffers: lines are handled independently. */
  lemma {:induction false} BufferedFramesAppend(a: seq<WorkerLine>, b: seq<WorkerLine>)
    ensures BufferedFrames(a + b) == BufferedFrames(a) + BufferedFrames(b)
  {
    if a != [] {
      assert (a + b)[0] == a[0];
      assert (a + b)[1..] == a[1..] + b;
      BufferedFramesAppend(a[1..], b);
    } else {
      assert a + b == b;
    }
  }

  lemma {:induction false} StatusAfterAppend(status: Status, a: seq<WorkerLine>, b: seq<WorkerLine>)
    ensures StatusAfter(status, a + b) == StatusAfter(StatusAfter(status, a), b)
    decreases a
  {
    if a != [] {
      assert (a + b)[0] == a[0];
      assert (a + b)[1..] == a[1..] + b;
      var line := a[0];
      StatusAfterAppend(if Formats(line) then FrameInfo(line.frame, line.pose, line.wristSpeed.value) else status, a[1..], b);
    } else {
      assert a + b == b;
    }
  }

  /**
   * The status shown after a chunk is that of its last line that formats,
   * and is left as it was when no line formats.
   */
  lemma {:induction false} StatusAfterLastFormats(status: Status, a: seq<WorkerLine>, line: WorkerLine, b: seq<WorkerLine>)
    requires Formats(line) && forall k :: 0 <= k < |b| ==> !Formats(b[k])
    ensures StatusAfter(status, a + [line] + b) == FrameInfo(line.frame, line.pose, line.wristSpeed.value)
  {
    StatusAfterAppend(status, a + [line], b);
    StatusAfterAppend(status, a, [line]);
    assert [line][1..] == [];
    StatusAfterUnchanged(FrameInfo(line.frame, line.pose, line.wristSpeed.value), b);
  }

  /** A chunk in which no line formats leaves the status as it was. */
  lemma {:induction false} StatusAfterUnchanged(status: Status, lines: seq<WorkerLine>)
    requires forall k :: 0 <= k < |lines| ==> !Formats(lines[k])
    ensures StatusAfter(status, lines) == status
    decreases lines
  {
    if lines != [] {
      assert !Formats(lines[0]);
      StatusAfterUnchanged(status, lines[1..]);
    }
  }

  /**
   * A line that raises — unparseable text, or an error-only object with no
   * speed — is skipped: the lines around it are handled as if it were absent.
   */
  lemma SkippedLineChangesNothing(status: Status, a: seq<WorkerLine>, line: WorkerLine, b: seq<WorkerLine>)
    requires !Formats(line)
    ensures BufferedFrames(a + [line] + b) == BufferedFrames(a + b)
    ensures StatusAfter(status, a + [line] + b) == StatusAfter(status, a + b)
  {
    BufferedFramesAppend(a + [line], b);
    BufferedFramesAppend(a, [line]);
    BufferedFramesAppend(a, b);
    StatusAfterAppend(status, a + [line], b);
    StatusAfterAppend(status, a, [line]);
    StatusAfterAppend(status, a, b);
  }

  /** A chunk appends at most one frame per line, and none exactly when no line carries a frame that formats. */
  lemma {:induction false} BufferedFramesBound(lines: seq<WorkerLine>)
    ensures |BufferedFrames(lines)| <= |lines|
    ensures BufferedFrames(lines) == [] <==> forall i :: 0 <= i < |lines| ==> FrameOf(lines[i]).None?
  {
    if lines != [] {
      BufferedFramesBound(lines[1..]);
      assert forall i :: 0 < i < |lines| ==> lines[i] == lines[1..][i - 1];
    }
  }

  class MainWindow {
    var isRunning: bool
    var recordedFrames: seq<Frame>
    const fps: nat
    var frameWidth: Option<nat>
    var frameHeight: Option<nat>
    var status: Status

    /** The frame size is set as a pair, and it is set whenever a frame is buffered. */
    ghost predicate Valid()
      reads this
    {
      && fps == FPS
      && (frameWidth.Some? <==> frameHeight.Some?)
      && (recordedFrames != [] ==> frameWidth.Some?)
    }

    constructor()
      ensures Valid()
      ensures !isRunning && recordedFrames == [] && status == Ready
      ensures frameWidth == None && frameHeight == None
    {
      isRunning := false;
      recordedFrames := [];
      fps := FPS;
      frameWidth, frameHeight := None, None;
      status := Ready;
    }

    /** `toggle_analysis`: start a run (clearing the buffer) or kill the running one. */
    method ToggleAnalysis(videoExists: bool, workerStarts: bool)
      requires Valid()
      modifies this
      ensures Valid()
      ensures frameWidth == old(frameWidth) && frameHeight == old(frameHeight)
      ensures old(isRunning) ==>
        !isRunning && recordedFrames == old(recordedFrames) && status == old(status)
      ensures !old(isRunning) && !videoExists ==>
        !isRunning && recordedFrames == old(recordedFrames) && status == VideoNotFound
      ensures !old(isRunning) && videoExists ==>
        && recordedFrames == []
        && isRunning == workerStarts
        && status == if workerStarts then old(status) else WorkerFailedToStart
    {
      if !isRunning {
        if !videoExists {
          status := VideoNotFound;
          return;
        }
        recordedFrames := [];
        if !workerStarts {
          status := WorkerFailedToStart;
          return;
        }
        isRunning := true;
      } else {
        isRunning := false;
      }
    }

    /**
     * `handle_worker_output`: each line is handled on its own; one that
     * raises is skipped and the next is handled. A line that formats sets the
     * status text and, when it carries `frame_data`, appends its frame and
     * latches the frame size if it is not yet known.
     */
    method HandleWorkerOutput(lines: seq<WorkerLine>)
      requires Valid()
      modifies this
      ensures Valid()
      ensures isRunning == old(isRunning)
      ensures recordedFrames == old(recordedFrames) + BufferedFrames(lines)
      ensures status == StatusAfter(old(status), lines)
      ensures old(frameWidth).Some? ==>
        frameWidth == old(frameWidth) && frameHeight == old(frameHeight)
      ensures old(frameWidth).None? && BufferedFrames(lines) != [] ==>
        && frameWidth == Some(BufferedFrames(lines)[0].width)
        && frameHeight == Some(BufferedFrames(lines)[0].height)
      ensures old(frameWidth).None? && BufferedFrames(lines) == [] ==>
        frameWidth == None && frameHeight == None
    {
      for i := 0 to |lines|
        invariant Valid()
        invariant isRunning == old(isRunning)
        invariant recordedFrames == old(recordedFrames) + BufferedFrames(lines[..i])
        invariant status == StatusAfter(old(status), lines[..i])
        invariant old(frameWidth).Some? ==>
          frameWidth == old(frameWidth) && frameHeight == old(frameHeight)
        invariant old(frameWidth).None? && BufferedFrames(lines[..i]) != [] ==>
          && frameWidth == Some(BufferedFrames(lines[..i])[0].width)
          && frameHeight == Some(BufferedFrames(lines[..i])[0].height)
        invariant old(frameWidth).None? && BufferedFrames(lines[..i]) == [] ==>
          frameWidth == None && frameHeight == None
      {
        var line := lines[i];
        assert lines[..i + 1] == lines[..i] + [line];
        BufferedFramesAppend(lines[..i], [line]);
        StatusAfterAppend(old(status), lines[..i], [line]);
        match line
        case Unparseable =>
          // `json.loads` raised: skip the line.
        case Message(frame, pose, wristSpeed, payload) =>
          if wristSpeed.None? {
            // Formatting the status text raised: skip the rest of the line.
            continue;
          }
          status := FrameInfo(frame, pose, wristSpeed.value);
          if payload.Payload? {
            var image := payload.image;
            recordedFrames := recordedFrames + [image];
            if frameWidth.None? || frameHeight.None? {
              frameHeight, frameWidth := Some(image.height), Some(image.width);
            }
          }
      }
      assert lines[..|lines|] == lines;
    }

    /** `download_video`: nothing to write without frames; otherwise every buffered frame, in order. */
    method DownloadVideo() returns (written: Option<VideoFile>)
      requires Valid()
      modifies this`status
      ensures Valid()
      ensures recordedFrames == [] ==> written == None && status == NoVideoRecorded
      ensures recordedFrames != [] ==>
        && written == Some(VideoFile(OUTPUT_FILENAME, FOURCC, FPS, frameWidth.value, frameHeight.value, recordedFrames))
        && status == VideoSaved(OUTPUT_FILENAME)
    {
      if recordedFrames == [] {
        status := NoVideoRecorded;
        return None;
      }
      var out := VideoFile(OUTPUT_FILENAME, FOURCC, fps, frameWidth.value, frameHeight.value, []);
      for i := 0 to |recordedFrames|
        invariant out == VideoFile(OUTPUT_FILENAME, FOURCC, fps, frameWidth.value, frameHeight.value, recordedFrames[..i])
      {
        out := out.(frames := out.frames + [recordedFrames[i]]);
      }
      assert recordedFrames[..|recordedFrames|] == recordedFrames;
      status := VideoSaved(OUTPUT_FILENAME);
      written := Some(out);
    }
  }

}
