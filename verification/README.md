# Simple Camera, modelled in Dafny

This project models the `Camera` class of the Simple Camera module (`camera.py`).
That class opens a capture device, applies a settings dictionary to it, stores
photos under a normalised file name, records videos, and probes for available
devices. Video recording has three parts:

- a codec fallback chain (avc1, then mp4v, then MJPG);
- an encoder size and frame-rate fallback;
- a frame-paced loop.

The OpenCV calls, the clock and the keyboard interrupt are passed in as oracles.
The decision logic around them is modelled as written.

Modules:

- `Options`: the `Option` datatype.
- `FileNames`: covers three things:
  - `endswith`;
  - the extension rule shared by photos and videos;
  - joining a name to the output directory, and the `.avi` rewrite `Path.with_suffix('.avi')` makes for the MJPG fallback.
- `CameraSettings`: covers four things:
  - the settings dictionary, as a `map` from key to a `Value` that is a number, a text or a (width, height) pair;
  - the key merge of `update_settings` and `load_settings`;
  - the `cap.set` calls of `_apply_settings`, as a log of property writes;
  - the device configuration that log leaves, where the last write to a property wins.
- `Encoder`: covers two things:
  - the size and frame-rate sanitisation;
  - the fallback chain, an ordered list of (codec, container) descriptors searched for the first writer that opens.
- `Pacing`: the recording loop, with time counted in integer ticks (one tick is a microsecond). An `Environment` says up front three things for each iteration:
  - whether its read succeeds;
  - how many ticks the read takes;
  - whether an interrupt is pending when the iteration would begin.
- `SimpleCamera`: the class `Camera`, with the fields `cap`, `isRecording`, `writer`, `recordingFilename` and `settings`.
  - The methods update those fields in place.
  - `Valid()` is the class invariant. It says the settings hold every key the camera reads, with the kind it is read as. It also says that while recording, the writer is open and writes to `recordingFilename`.

The oracles are:

- `probe(id)`: does `cv2.VideoCapture(id).isOpened()` hold?
- `readOk`: did `cap.read()` return a frame?
- `reportedWidth`, `reportedHeight`: what `cap.get` reported, already cast to `int`.
- `opens(request)`: does a `cv2.VideoWriter` made from that codec, path and size open?
- `timestamp`: the formatted `datetime.now()`, as an opaque string.

## Model

| member | source | states |
|---|---|---|
| SimpleCamera.Camera.constructor | camera.py:18-41 | A new camera has no handle, is not recording, and holds the default settings: 1280x720, 30 fps, png, avi, XVID, and brightness, contrast and saturation at the sentinel -1. |
| CameraSettings.DefaultsShaped | camera.py:31-41 | The default settings hold every key the camera reads, with the kind it is read as. |
| SimpleCamera.Camera.Open | camera.py:43-56 | The result is whether the device opened. The new handle has received exactly the settings writes if it opened, and none otherwise. |
| SimpleCamera.Camera.Close | camera.py:58-62 | Afterwards there is no handle, whatever the state before, so closing twice is the same as closing once. |
| SimpleCamera.Camera.ApplySettings | camera.py:64-80 | Without a handle nothing changes. Otherwise the handle's write log is extended by the settings writes, in order. |
| CameraSettings.AppliedResolution | camera.py:69-72 | After the settings are applied, the device's width, height and frame rate are the configured ones. |
| CameraSettings.AppliedAdjustments | camera.py:74-80 | Brightness, contrast and saturation are each set on the device exactly when the configured level is not -1, and then to that level. |
| CameraSettings.EffectiveAppend | camera.py:64-80 | The configuration left by two batches of writes is the first batch's configuration overridden by the second's. |
| CameraSettings.ReapplyAgreesWithReopen | camera.py:317-319 | Two paths are compared: re-applying new settings to a configured device (update, then apply), and applying them to a fresh device (apply on open). They agree on every property the new settings write. They differ only on an image adjustment that the old settings set and the new ones leave at -1. |
| CameraSettings.SentinelKeepsEarlierAdjustment | camera.py:74-80 | Example: brightness 50 followed by the defaults leaves the device at brightness 50 when the settings are re-applied, but a freshly opened device has no brightness write. |
| FileNames.WithExtension | camera.py:107-110 | The name ends with "." + ext. It is unchanged exactly when it already ended so; otherwise it is the name followed by "." and ext, even when the name ends in a dot. |
| FileNames.WithExtensionIdempotent | camera.py:107-110 | Normalising an already normalised name changes nothing: there is no double extension. |
| FileNames.PhotoFileName | camera.py:102-110 | The photo name ends with "." + photo format. With no name it is photo_<timestamp>.<format>; otherwise it is the given name with the extension enforced. |
| FileNames.ShotExample | camera.py:107-112 | "shot" and "shot.jpg" both give "shot.jpg" with the jpg format. |
| SimpleCamera.Camera.CapturePhoto | camera.py:82-117 | A path is returned exactly when the camera is open and the read succeeded. That path is the output directory joined with the normalised photo name, and it ends with the photo extension. |
| FileNames.VideoFileName | camera.py:138-145 | The video name ends with ".mp4". With no name it is video_<timestamp>.mp4; otherwise it is the given name with ".mp4" enforced. |
| SimpleCamera.VideoPath | camera.py:138-147 | The path the codecs are first tried on ends with ".mp4". |
| FileNames.AviPathSuffix | camera.py:177 | The MJPG path ends with ".avi" and no longer with ".mp4". Its ".mp4" is replaced by ".avi" exactly when the last path component is longer than ".mp4"; for a bare ".mp4" component, which Python treats as having no suffix, ".avi" is appended. |
| SimpleCamera.DefaultVideoFallsBackToAvi | camera.py:138-177 | Without a name, the MJPG fallback records to video_<timestamp>.avi in the output directory. |
| Encoder.Sanitize | camera.py:149-158 | The encoder width, height and fps are all positive. A non-positive width or height makes both 1280x720, and a non-positive fps becomes 30. Otherwise the values pass through unchanged. |
| Encoder.Negotiate | camera.py:160-192 | The result is the first descriptor in the chain whose writer opens, and every earlier one failed. If none opens, the result carries the last, unopened writer and every descriptor failed. |
| Encoder.FallbackOrder | camera.py:160-188 | The whole chain: avc1 on the ".mp4" path if it opens, else mp4v on the same path, else MJPG on the ".avi" path, else nothing. |
| Encoder.AviOnlyForMjpg | camera.py:175-180 | The selected path ends in ".avi" exactly when MJPG was selected. avc1 and mp4v keep the ".mp4" path. |
| SimpleCamera.Camera.CreateWriter | camera.py:160-183 | Each attempt replaces the writer field. The method succeeds exactly when the negotiation selects a writer, and it leaves that writer, or the last unopened one, in the field. |
| SimpleCamera.Camera.StartRecording | camera.py:119-192 | If the camera is not open or is already recording, the result is false and the recording state is unchanged. Otherwise the method succeeds exactly when some codec opens. Then it is recording to that codec's path; if not, it is not recording and holds the unopened MJPG writer. |
| SimpleCamera.Camera.StopRecording | camera.py:194-211 | While idle it returns nothing and changes nothing. While recording it returns the recorded path, stops recording and clears the writer. |
| SimpleCamera.Camera.RecordVideo | camera.py:213-258 | A refused or failed start returns nothing and leaves the recording state unchanged. fps 0 raises and leaves the recording running. Otherwise the loop runs exactly as many iterations as the duration and interrupts allow, the writer takes one frame per successful read, and the recording ends stopped with the start path returned. |
| SimpleCamera.Camera.PaceFrames | camera.py:234-252 | The loop's iterations are the steps the environment determines. It stops at the first iteration that begins with the duration used up or an interrupt pending. The writer gains one frame per successful read. |
| Pacing.FrameDelay | camera.py:229-230 | For a positive fps, the frame delay is 1/fps seconds rounded down to whole ticks. For a negative fps it is not positive. |
| Pacing.Sleep | camera.py:245-248 | The pacing sleep is never negative. The frame then lasts the longer of the frame delay and its own read time. |
| Pacing.PacingBound | camera.py:234-252 | Pacing never exceeds the target rate: the frames written, times the frame delay, is at most the time elapsed. |
| Pacing.RunLengthFromLast | camera.py:235 | For a time that never decreases, the loop condition at the last iteration implies it held at every earlier one. |
| Pacing.RunLengthUnique | camera.py:235 | The number of iterations is determined by the environment and the duration. |
| Pacing.ZeroDurationRunsNoIteration | camera.py:235 | A duration of zero or less stops the loop before its first iteration. |
| SimpleCamera.Camera.GetSettings | camera.py:296-298 | The returned copy equals the settings. |
| CameraSettings.UnknownKeys | camera.py:314-315 | A key is warned about exactly when an entry names it and it is not a known setting. There are never more warnings than entries. |
| CameraSettings.UnknownKeysAppend | camera.py:311-315 | The warnings for a run of entries are those of its first part followed by those of the rest. Together with `UnknownKeysSingle`, this gives one warning per unknown entry, in entry order. |
| CameraSettings.UnknownKeysSingle | camera.py:312-315 | A single entry gives one warning, naming its key, when the key is unknown, and none otherwise. |
| CameraSettings.MergedKeys | camera.py:310-313 | The merge never adds or removes a key. |
| CameraSettings.MergedValue | camera.py:310-313 | After the merge, a known key holds the value of the last entry that names it, or its old value if no entry does. |
| CameraSettings.MergedShaped | camera.py:310-313 | Merging values of the kinds the keys are read as keeps every read key readable. |
| SimpleCamera.Camera.MergeKnown | camera.py:310-315 | The loop leaves the settings equal to the merge of the entries. It returns the warnings for unknown keys, in order. |
| SimpleCamera.Camera.UpdateSettings | camera.py:300-321 | Only existing keys change and the key set stays the same. Unknown keys are returned as warnings. An open camera receives the new settings and a closed one receives nothing. The returned copy equals the new settings. |
| SimpleCamera.Camera.LoadSettings | camera.py:339-356 | A missing file returns false and changes nothing. Otherwise the loaded keys are merged as in update_settings, re-applied if the camera is open, and the result is true. |
| SimpleCamera.Camera.ListCameras | camera.py:358-372 | The result lists, in strictly ascending order, exactly the ids 0..9 whose probe opens. |

## Left out

- The OpenCV calls (`VideoCapture`, `isOpened`, `read`, `get`, `set`, `VideoWriter`, `write`, `release`, `imwrite`) are oracles or logs. Frame contents and image encoding are not modelled. `imwrite`'s result is ignored by `capture_photo`, so a photo that fails to save still returns its path.
- Releasing handles is not modelled. This covers the handle that a second `open` drops without releasing it, the writer that is never released when every codec fails, and the probe handles of `list_cameras`.
- Paths are strings joined with "/". `pathlib` normalisation is not modelled: dropping "./", collapsing separators, and an absolute name replacing the directory.
- Directory creation in the constructor (`mkdir`), `preview`, `save_settings`, the JSON reading of `load_settings`, and the `__enter__`/`__exit__` wrappers are left out. The file contents arrive as an ordered list of entries, and whether the file exists arrives as a boolean.
- Every number in the settings is modelled as an integer, including brightness, contrast and saturation; Python also stores and sets fractional values. The test against the sentinel -1 behaves the same either way.
- The clock: time is counted in integer ticks, and the frame delay is rounded down to whole ticks. Each read takes at least one tick. A sleep lasts exactly as asked. Writing a frame and printing progress take no time. Duration and fps are whole numbers rather than floats.
- A keyboard interrupt is modelled only as arriving before an iteration begins. An interrupt in the middle of an iteration, or during `start_recording`, is not modelled.
- The GUI (`gui.py`) and its preview thread writing to the same writer concurrently, and the command line (`main.py`), are not part of this model.
- Console messages are not modelled, except the unknown-key warnings of `update_settings`, which `UnknownKeys` returns.
- SimpleCamera.Camera.UpdateSettings: requires each entry for a key the camera reads (resolution, fps, photo_format, brightness, contrast, saturation) to carry a value of the kind that key is read as. Python accepts any value and fails later, when the value is used.
- SimpleCamera.Camera.LoadSettings: has the same requirement on the loaded entries, for the same reason.
- SimpleCamera.Camera.MergeKnown: has the same requirement, for the same reason. It is the merge loop both methods share.
- SimpleCamera.Camera.constructor: takes the output directory as a parameter. The source always uses `Path("./captures")` and creates it.

## Behaviour of the code worth knowing

The model follows the code in each of these cases:

- The encoder frame rate comes from the "fps" setting, not from the device. The size comes from the device.
- When every codec fails, the unopened MJPG writer stays in `video_writer`.
- `record_video` with the "fps" setting at 0 raises `ZeroDivisionError` after the recording has started. The recording is left running (`RecordOutcome.ZeroDivision`).
- A negative "fps" setting gives a negative frame delay, so the loop never sleeps. The encoder still gets 30.
- A failed read skips the write and the pacing sleep.
- `close` does not stop a recording.
- `stop_recording` leaves `recording_filename` set to the last path.
- Setting an image adjustment back to -1 on an open camera does not reset the device; the earlier level stays. So re-applying settings and opening with the same settings can disagree (`SentinelKeepsEarlierAdjustment`).
