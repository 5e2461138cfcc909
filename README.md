# Tennis pose analysis: pipeline, consumer and session log in Dafny

This project models the logic of a two-process desktop tool. The tool runs pose estimation on a video and labels each frame "Serve" or "Unknown". It also estimates how fast the right wrist moves between frames, streams the annotated frames to a GUI, and saves them as a video on request.

- `worker.dfy` (module `Worker`) models the producer `main` of `src/pose_estimation_worker.py`. It checks the arguments and keeps only the skeleton bones between the twelve tennis joints. Then it opens the video, or emits one error line and exits 1. Otherwise it loops over at most 300 decoded frames and emits exactly one record per frame. The loop carries the most recent detection to measure the right wrist's speed. `RunWorker` is the loop itself, as an imperative method. `RecordFor` states what each record holds, using the estimator's helpers, and the lemmas next to it prove the per-frame properties.
- `pose_estimator.dfy` (module `PoseEstimator`) holds `classify_pose` and `calculate_speed` as pure functions. `RunWorker`'s contract shows that the worker's inline copies of the two helpers agree with them. The worker tests `if prev_landmarks:` (non-empty), while the helper tests `previous is None`. The two agree because every detection holds 33 landmarks.
- `gui.dfy` (module `Gui`) models the non-widget state of `MainWindow` as a class: `isRunning`, the `recordedFrames` buffer, the latched `frameWidth`/`frameHeight` and the status text. Its methods are `toggle_analysis`, `handle_worker_output` and `download_video`.
- `data_logger.dfy` (module `DataLogger`) models the CSV file as a sequence of rows. The constructor truncates the file to the header row, and `log_data` appends one row whose last field is the `;`-join of the landmarks' `x,y` pieces. `Split` is the partner of that join.
- `landmarks.dfy` (module `Landmarks`) holds the landmark type, the joint indices, `convert_landmarks_to_array` from `src/utils.py`, pixel truncation and distance under a norm.
- `media.dfy` and `wrappers.dfy` hold the frame type and `Option`.

Foreign calls are inputs to the model:
- The video decoder, pose detector and JPEG encoder are a `Capture`. It lists each frame the decoder yields before its first failed read, together with the detector's result and whether encoding succeeds.
- `np.linalg.norm` is the parameter `norm`.
- The skeleton graph `POSE_CONNECTIONS` is the parameter `graph`.
- The clock is a `timestamp` string.
- Python's float-to-text conversion is the parameter `decimal`.

Two behaviours of the code worth noting, both modelled as written:
- Frame width and height are latched once per window, not once per session. Starting a new run does not reset them.
- An error-only line (`{"error": ...}`) is not shown to the user. Formatting its missing `wrist_speed` with `:.2f` raises, so the line is skipped like any other bad line.

## Model

| member | source | states |
|---|---|---|
| `Worker.RunWorker` | src/pose_estimation_worker.py:9-106 | With fewer than two arguments: only the usage line, status 1. If the video does not open: only the error line, status 1. Otherwise: status 0 and exactly min(300, frames read) lines. Line k is the record for frame k + 1, with no gaps, and equals `RecordFor`. So the inline classification and speed agree with `classify_pose`/`calculate_speed`. |
| `Worker.AllowedConnections` | src/pose_estimation_worker.py:39-43 | The filtered bones: a subset of the graph. Every kept bone joins two allowed joints, and every dropped bone has an end outside them. |
| `Worker.FilterConnections` | src/pose_estimation_worker.py:39-43 | The result holds exactly the bones of the graph whose two ends are both allowed joints, so it is a subset of the graph. |
| `Worker.Annotation` | src/pose_estimation_worker.py:70-81 | The annotated image keeps the decoded frame, and every mark on it is drawn in green. |
| `Worker.Annotate` | src/pose_estimation_worker.py:70-81 | The drawn frame carries a circle for each allowed joint and a line for each allowed bone, and nothing else. |
| `Worker.AnnotationDrawsOnlyAllowed` | src/pose_estimation_worker.py:71-81 | Every mark is a circle at an allowed joint or a line between two allowed joints joined in the graph. Every allowed joint gets its circle, and every allowed bone gets its line. |
| `Worker.RecordDrawsOnlyAllowed` | src/pose_estimation_worker.py:70-101 | The image printed for a detected, encoded frame is that frame with only allowed circles and lines on it. Every allowed joint has its circle, and every allowed bone has its line. |
| `Worker.RecordFrom` | src/pose_estimation_worker.py:67-101 | The record of one decoded frame given the carried landmarks. It carries the given frame number and is labelled "Serve" or "Unknown". Without a detection it is "Unknown" at speed 0.0 with an unmarked image. With a detection but nothing carried, the speed is 0.0. The payload is present exactly when encoding succeeds, and it shows the decoded frame. |
| `Worker.RecordFor` | src/pose_estimation_worker.py:60-103 | The record printed for the frame at index i. It is numbered i + 1 and is labelled "Serve" or "Unknown". Without a detection it is "Unknown" at speed 0.0 with an unmarked image. The payload is present exactly when encoding succeeds, and it shows the decoded frame. |
| `Worker.ProcessFrame` | src/pose_estimation_worker.py:62-101 | One pass of the loop body: it draws, classifies, measures against the carried landmarks and encodes, producing exactly `RecordFrom`. It carries the new detection onward, or keeps the old landmarks when there is none. |
| `Worker.NoDetectionKeepsDefaults` | src/pose_estimation_worker.py:67-68 | Without a detection the record keeps pose "Unknown", speed 0.0 and the unannotated frame (or "" when encoding fails). The carried landmarks are unchanged. |
| `Worker.DetectionReplacesPrevious` | src/pose_estimation_worker.py:95 | After a detection the carried landmarks are that detection. |
| `Worker.LastDetection` | src/pose_estimation_worker.py:52-95 | The carried `prev_landmarks`: when it is present it is a full detection. |
| `Worker.SpeedAgainstMostRecentDetection` | src/pose_estimation_worker.py:89-95 | A detected frame's speed is the right wrist's distance from its position in the most recent earlier detected frame. That frame need not be the immediately preceding one. |
| `Worker.SpeedZeroWithoutEarlierDetection` | src/pose_estimation_worker.py:89-94 | Until some earlier frame had a detection, the speed is 0.0. |
| `Worker.SpeedNonNegative` | src/pose_estimation_worker.py:91-94 | Every reported speed is non-negative. |
| `Worker.PoseServeExactlyWhenWristAboveShoulder` | src/pose_estimation_worker.py:83-87 | The label is "Serve" or "Unknown". It is "Serve" exactly when there is a detection and the right wrist's y is strictly below the right shoulder's y, so equality gives "Unknown". |
| `Worker.ServeScenario` | src/pose_estimation_worker.py:55-103 | Five frames: three identical raised-arm detections, one miss, then the same detection again. Frames 1-3 and 5 are "Serve" with speed 0.0, and frame 5 is compared with frame 3. Frame 4 is "Unknown" with speed 0.0. |
| `PoseEstimator.ClassifyPose` | src/pose_estimator.py:21-26 | Returns only "Serve" or "Unknown". Returns "Serve" exactly when wrist.y < shoulder.y, strictly. |
| `PoseEstimator.CalculateSpeed` | src/pose_estimator.py:28-31 | Returns 0.0 for every `current` when `previous` is `None`. Otherwise returns the norm of the (x, y) displacement. |
| `PoseEstimator.CalculateSpeedProperties` | src/pose_estimator.py:31 | The speed is non-negative, zero exactly when the x, y coordinates coincide, and symmetric in the two landmarks. |
| `Landmarks.DistanceIsMetric` | src/pose_estimator.py:31 | The norm of a displacement is non-negative, zero exactly on equal points and symmetric. |
| `Landmarks.AllowedJointsInTaxonomy` | src/pose_estimation_worker.py:25-38 | Every allowed joint is an index of the 33-landmark taxonomy. |
| `Landmarks.Trunc` | src/pose_estimation_worker.py:73 | `int()` truncates toward zero: the result lies within 1 of the value, on the zero side. |
| `Landmarks.ConvertLandmarksToArray` | src/utils.py:5-6 | Same length as the input. Every element has exactly two entries, and element i is `[landmarks[i].x, landmarks[i].y]`. |
| `Landmarks.ConvertLandmarksToArrayAppend` | src/utils.py:6 | Flattening commutes with concatenation, so order is preserved. |
| `Landmarks.ConvertLandmarksToArrayRoundTrip` | src/utils.py:5-6 | Reading the pairs back gives exactly the input landmarks. |
| `Gui.MainWindow.constructor` | src/gui.py:28-32 | Starts not running, with an empty buffer, frame size unset and status "Ready". |
| `Gui.MainWindow.ToggleAnalysis` | src/gui.py:60-77 | Missing video: error status, still not running, buffer untouched. Worker starts: buffer emptied, then running. Worker fails to start: buffer already emptied, error status, not running. While running: the worker is stopped and the buffer is kept. Frame size never changes. |
| `Gui.MainWindow.HandleWorkerOutput` | src/gui.py:79-106 | The buffer gains exactly `BufferedFrames(lines)`, in order. The status is that of the last line that formats. The frame size is set from the first buffered frame only if it was unset, and never changed afterwards. |
| `Gui.Formats` | src/gui.py:88-91 | An unparseable line, or an object without a numeric `wrist_speed`, raises while the status text is formatted. |
| `Gui.FrameOf` | src/gui.py:92-101 | A line adds a frame only if it formats, and then the frame is its decoded `frame_data`. A line that formats and carries `frame_data` always adds its frame. |
| `Gui.BufferedFrames` | src/gui.py:86-101 | A chunk adds at most one frame per line. |
| `Gui.StatusAfter` | src/gui.py:86-91 | After a chunk the status is either unchanged or a frame-information text. |
| `Gui.StatusAfterLastFormats` | src/gui.py:86-91 | The status after a chunk is the frame information of its last line that formats. |
| `Gui.StatusAfterUnchanged` | src/gui.py:86-106 | A chunk in which every line raises leaves the status as it was. |
| `Gui.BufferedFramesAppend` | src/gui.py:86-101 | Lines are handled independently: a chunk's frames are those of its parts, concatenated. |
| `Gui.StatusAfterAppend` | src/gui.py:86-91 | Handling a concatenation sets the status as handling its parts one after the other. |
| `Gui.SkippedLineChangesNothing` | src/gui.py:86-106 | A line that raises (unparseable text, or an error-only object) is skipped without stopping later lines. |
| `Gui.BufferedFramesBound` | src/gui.py:92-101 | At most one frame per line. No frame is buffered exactly when no formatting line carries `frame_data`. |
| `Gui.MainWindow.DownloadVideo` | src/gui.py:108-118 | Empty buffer: status "No video recorded yet!" and nothing written. Otherwise every buffered frame is written, in order, at 30 fps with the latched size, and the status names the file. |
| `DataLogger.DataLogger.constructor` | src/data_logger.py:6-8 | After construction the file holds exactly the header row. Earlier content is discarded. |
| `DataLogger.DataLogger.InitializeFile` | src/data_logger.py:10-13 | The file is replaced by the single row `timestamp, pose, wrist_speed, landmarks`. |
| `DataLogger.DataLogger.LogData` | src/data_logger.py:15-19 | Appends exactly one row and leaves every earlier row unchanged. |
| `DataLogger.LogRow` | src/data_logger.py:19 | A row has as many fields as the header, starts with the timestamp and ends with the landmarks field. |
| `DataLogger.LandmarkText` | src/data_logger.py:18 | One landmark's piece: the text of x, then a comma at the position just after it, then the text of y. |
| `DataLogger.LandmarksField` | src/data_logger.py:18 | No landmarks give the empty field. The field starts with the first landmark's piece and, for a single landmark, is exactly that piece. |
| `DataLogger.Join` | src/data_logger.py:18 | No pieces give the empty text. Otherwise the result starts with the first piece and ends with the last. |
| `DataLogger.LogRowMatchesHeader` | src/data_logger.py:13-19 | A logged row has the header's four fields, with the pose second and the speed third. |
| `DataLogger.LandmarksFieldSegments` | src/data_logger.py:18 | No landmarks give an empty field. n landmarks give a field that splits into n `x,y` pieces in input order, with n - 1 separators, and each piece splits into its two numbers. |
| `DataLogger.SplitJoin` | src/data_logger.py:18 | Splitting the `;`-join of a non-empty list of separator-free pieces gives back the pieces. |
| `DataLogger.JoinSeparatorCount` | src/data_logger.py:18 | The join of a non-empty list of n separator-free pieces holds exactly n - 1 separators. |

## Left out

- The default argument `filename='data/tennis_pose_log.csv'` of the logger is not modelled: the constructor takes the file name from its caller.
- `open()` failures in the logger (for example a missing `data/` directory) are not modelled. The file is a value that is always writable.
- `IsNorm` is satisfiable: `Landmarks.TaxicabIsNorm` shows that the taxicab norm meets it, so the lemmas that assume it are not vacuous.
- The pose model (`mediapipe` `Pose.process`) is an oracle. The model assumes its documented contract: a detection is either absent or holds 33 landmarks (`Worker.DetectorContract`). The `POSE_CONNECTIONS` table is the parameter `graph`, because it belongs to the library.
- `CalculateSpeed`, `CalculateSpeedProperties`, `DistanceIsMetric` and `SpeedNonNegative` are proved for any `norm` that satisfies `IsNorm` (non-negative, zero only on the zero vector, equal on a vector and its reverse), not for the Euclidean formula itself. `np.linalg.norm` and `sqrt` are foreign numeric code, and the verifier's real arithmetic cannot reason about products reliably.
- The model does not cover OpenCV capture, colour conversion, circle and line rasterisation, JPEG encoding and decoding, or `VideoWriter`. Drawing is modelled as a set of draw calls. All marks are the same green without anti-aliasing, so drawing order does not change the pixels.
- Coordinates are reals, not IEEE floats. Rounding and float-to-text formatting are not modelled.
- JSON, base64 and CSV quoting are not modelled at the byte level. Records, parsed lines and rows are structured values.
- `Gui.MainWindow.HandleWorkerOutput` gets each chunk already split into lines. `readAllStandardOutput` can split a line across two chunks, which is I/O behaviour. A non-empty `frame_data` that fails to decode is not modelled either, because the worker only sends successfully encoded frames. In the source the status text is set before decoding. A base64 failure, or a non-string `frame_data`, therefore leaves that line's text in the status and adds no frame. A JPEG that does not decode appends `None` to the buffer, and `.shape` then raises. If the frame size was still unset, it stays unset while the buffer is non-empty, so the invariant `Gui.MainWindow.Valid` would not hold. A chunk that is not valid UTF-8 is not modelled: its decoding sits outside the per-line `try`, so none of that chunk's lines would be handled.
- The model does not cover Qt widgets, the button captions, `QProcess` start, kill and timing, `closeEvent`, or the debug `print` calls. The worker starting is the input `workerStarts`, and the existence of the hard-coded video path is the input `videoExists`.
- `time.sleep(0.03)` pacing, `cap.release()` and `datetime.now()` are left out. The timestamp is a parameter.
- The `MediapipePoseEstimator` constructor and `estimate_pose` only initialise fields and call the pose model. The two helpers are functions of their arguments, so they cannot read or write `prev_landmarks`. `src/utils.py` `draw_landmarks` is a wrapper over the library's drawing utilities.
