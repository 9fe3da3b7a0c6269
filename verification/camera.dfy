/**
 * The `Camera` class: the capture handle's open/closed lifecycle, the
 * settings it applies to the device, photo capture, and the idle/recording
 * state machine with its codec fallback and timed recording loop.
 *
 * OpenCV and the clock are oracles passed in as parameters:
 *   probe(id)        does `cv2.VideoCapture(id).isOpened()` hold?
 *   readOk           did `cap.read()` return a frame?
 *   reportedWidth/Height  what `cap.get(...)` reported, already cast to int
 *   opens(request)   is a `cv2.VideoWriter` created from the request open?
 *   env              the reads, their durations and the interrupts of the
 *                    timed recording loop (see module Pacing)
 */
module SimpleCamera {
  import opened Options
  import opened FileNames
  import opened CameraSettings
  import opened Encoder
  import opened Pacing

  /** `list_cameras` probes the ids below this bound. */
  const ProbedIds: int := 10

  /**
   * `self.cap`: no handle, or a `cv2.VideoCapture` together with whether it
   * opened and the `cap.set` calls it has received.
   */
  datatype CaptureHandle = NoHandle | Handle(isOpen: bool, writes: seq<Write>)

  /** What `record_video` ends with. */
  datatype RecordOutcome =
    | NotStarted      // `start_recording` refused: returns None
    | Saved(path: string)
    | ZeroDivision    // `1.0 / fps` raised with the "fps" setting at 0

  /** The ".mp4" path `start_recording` resolves from the name it is given. */
  function VideoPath(outputDir: string, name: Option<string>, timestamp: string): (p: string)
    ensures EndsWith(p, ".mp4")
  {
    JoinKeepsSuffix(outputDir, VideoFileName(name, timestamp), ".mp4");
    Join(outputDir, VideoFileName(name, timestamp))
  }

  /**
   * Without a name, the MJPG fallback records to video_<timestamp>.avi in the
   * output directory: `with_suffix` replaces the ".mp4" of the default name.
   */
  lemma DefaultVideoFallsBackToAvi(outputDir: string, timestamp: string)
    requires '/' !in timestamp
    ensures AviPath(VideoPath(outputDir, None, timestamp)) == Join(outputDir, "video_" + timestamp + ".avi")
  {
    var name := "video_" + timestamp + ".mp4";
    EndsWithAppend("video_" + timestamp, ".mp4");
    assert name == ("video_" + timestamp) + ".mp4";
    assert VideoFileName(None, timestamp) == name;
    var p := Join(outputDir, name);
    assert p[|p| - 5] == name[|name| - 5];
    if timestamp != [] {
      assert name[|name| - 5] == timestamp[|timestamp| - 1];
      assert timestamp[|timestamp| - 1] in timestamp;
    }
    assert p[..|p| - 4] == outputDir + "/" + "video_" + timestamp;
  }

  /** The codec negotiation `start_recording` performs once it has passed its two checks. */
  function RecordingPlan(outputDir: string, s: Settings, name: Option<string>, timestamp: string,
                         reportedWidth: int, reportedHeight: int, opens: Request -> bool): Negotiation
    requires Shaped(s)
  {
    Negotiate(FallbackChain, VideoPath(outputDir, name, timestamp),
              Sanitize(reportedWidth, reportedHeight, Fps(s)), opens, 0)
  }

  class Camera {
    const cameraId: int
    const outputDir: string
    var cap: CaptureHandle
    var isRecording: bool
    var writer: Option<Writer>
    var recordingFilename: Option<string>
    var settings: Settings

    /** The settings keep their shape; while recording, an open writer writes to the recorded path. */
    ghost predicate Valid()
      reads this
    {
      && Shaped(settings)
      && (isRecording ==>
            writer.Some? && writer.value.isOpen && recordingFilename == Some(writer.value.request.path))
    }

    /** `self.cap and self.cap.isOpened()` */
    predicate IsOpen()
      reads this
    {
      cap.Handle? && cap.isOpen
    }

    constructor (cameraId: int, outputDir: string)
      ensures Valid()
      ensures this.cameraId == cameraId && this.outputDir == outputDir
      ensures cap == NoHandle && !isRecording && writer == None && recordingFilename == None
      ensures settings == Defaults
    {
      this.cameraId := cameraId;
      this.outputDir := outputDir;
      cap := NoHandle;
      isRecording := false;
      writer := None;
      recordingFilename := None;
      settings := Defaults;
      DefaultsShaped();
    }

    /** Creates a new capture handle; only an open one receives the settings. */
    method Open(probe: int -> bool) returns (ok: bool)
      requires Valid()
      modifies this`cap
      ensures Valid()
      ensures ok == probe(cameraId)
      ensures cap == Handle(ok, if ok then SettingsWrites(settings) else [])
    {
      cap := Handle(probe(cameraId), []);
      if !cap.isOpen {
        return false;
      }
      ApplySettings();
      return true;
    }

    /** Releases the handle if there is one; closing a closed camera does nothing. */
    method Close()
      requires Valid()
      modifies this`cap
      ensures Valid()
      ensures cap == NoHandle
    {
      if cap.Handle? {
        cap := NoHandle;
      }
    }

    /** Sends resolution, frame rate and every non-sentinel image adjustment to the handle. */
    method ApplySettings()
      requires Valid()
      modifies this`cap
      ensures Valid()
      ensures cap == if old(cap).NoHandle? then old(cap)
                     else old(cap).(writes := old(cap).writes + SettingsWrites(settings))
    {
      if cap.NoHandle? {
        return;
      }
      var width, height := Width(settings), Height(settings);
      var writes := [(FrameWidth, width), (FrameHeight, height), (FrameRate, Fps(settings))];
      if BrightnessLevel(settings) != Unset {
        writes := writes + [(Brightness, BrightnessLevel(settings))];
      }
      if ContrastLevel(settings) != Unset {
        writes := writes + [(Contrast, ContrastLevel(settings))];
      }
      if SaturationLevel(settings) != Unset {
        writes := writes + [(Saturation, SaturationLevel(settings))];
      }
      cap := cap.(writes := cap.writes + writes);
    }

    /**
     * Reads one frame and returns where it is stored: the given name, or a
     * timestamped one, with the photo format's extension enforced.
     */
    method CapturePhoto(name: Option<string>, timestamp: string, readOk: bool) returns (path: Option<string>)
      requires Valid()
      ensures path.Some? <==> IsOpen() && readOk
      ensures path.Some? ==> path.value == Join(outputDir, PhotoFileName(name, timestamp, PhotoFormat(settings)))
      ensures path.Some? ==> EndsWith(path.value, "." + PhotoFormat(settings))
    {
      if !IsOpen() {
        return None;
      }
      if !readOk {
        return None;
      }
      var ext := PhotoFormat(settings);
      var filename := PhotoFileName(name, timestamp, ext);
      JoinKeepsSuffix(outputDir, filename, "." + ext);
      return Some(Join(outputDir, filename));
    }

    /**
     * Refuses when the camera is not open or already recording; otherwise
     * tries avc1, mp4v and MJPG in turn and records with the first writer
     * that opens.
     */
    method StartRecording(name: Option<string>, timestamp: string,
                          reportedWidth: int, reportedHeight: int, opens: Request -> bool)
      returns (ok: bool)
      requires Valid()
      modifies this`writer, this`isRecording, this`recordingFilename
      ensures Valid()
      ensures !old(IsOpen()) || old(isRecording) ==>
        && !ok
        && isRecording == old(isRecording)
        && writer == old(writer)
        && recordingFilename == old(recordingFilename)
      ensures old(IsOpen()) && !old(isRecording) ==>
        var plan := RecordingPlan(outputDir, old(settings), name, timestamp, reportedWidth, reportedHeight, opens);
        && ok == plan.Selected?
        && isRecording == ok
        && writer == Some(if ok then plan.writer else plan.last)
        && recordingFilename == (if ok then Some(plan.writer.request.path) else old(recordingFilename))
    {
      if !IsOpen() {
        return false;
      }
      if isRecording {
        return false;
      }
      var filepath := VideoPath(outputDir, name, timestamp);
      var width, height, fps := reportedWidth, reportedHeight, Fps(settings);
      if width <= 0 || height <= 0 {
        width, height := FallbackWidth, FallbackHeight;
      }
      if fps <= 0 {
        fps := FallbackFps;
      }
      var e := EncoderParams(width, height, fps);
      assert e == Sanitize(reportedWidth, reportedHeight, Fps(settings));
      ok, filepath := CreateWriter(filepath, e, opens);
      if !ok {
        return false;
      }
      recordingFilename := Some(filepath);
      isRecording := true;
      return true;
    }

    /**
     * The codec fallback of `start_recording`: each attempt replaces the
     * writer, and only the MJPG attempt moves the path to ".avi".
     */
    method CreateWriter(filepath: string, e: EncoderParams, opens: Request -> bool)
      returns (ok: bool, path: string)
      requires EndsWith(filepath, ".mp4")
      modifies this`writer
      ensures var plan := Negotiate(FallbackChain, filepath, e, opens, 0);
        && ok == plan.Selected?
        && writer == Some(if ok then plan.writer else plan.last)
        && (ok ==> path == plan.writer.request.path && plan.writer.isOpen)
    {
      ghost var plan := Negotiate(FallbackChain, filepath, e, opens, 0);
      path := filepath;
      var request := Request(Avc1, path, e);
      writer := Some(Writer(request, opens(request), 0));
      if !writer.value.isOpen {
        request := Request(Mp4v, path, e);
        writer := Some(Writer(request, opens(request), 0));
        if !writer.value.isOpen {
          path := AviPath(path);
          request := Request(Mjpg, path, e);
          writer := Some(Writer(request, opens(request), 0));
          if !writer.value.isOpen {
            assert plan == Exhausted(writer.value);
            return false, path;
          }
          assert plan == Selected(2, writer.value);
        } else {
          assert plan == Selected(1, writer.value);
        }
      } else {
        assert plan == Selected(0, writer.value);
      }
      return true, path;
    }

    /** Releases the writer and returns the recorded path; refuses while idle. */
    method StopRecording() returns (path: Option<string>)
      requires Valid()
      modifies this`isRecording, this`writer
      ensures Valid()
      ensures !isRecording
      ensures path == (if old(isRecording) then old(recordingFilename) else None)
      ensures old(isRecording) ==> path.Some?
      ensures writer == (if old(isRecording) then None else old(writer))
    {
      if !isRecording {
        return None;
      }
      isRecording := false;
      writer := None;
      return recordingFilename;
    }

    /**
     * Starts a recording, writes frames for `duration` ticks or until an
     * interrupt, pacing each written frame to the configured frame rate,
     * and stops the recording. `steps` are the loop's iterations and
     * `frames` the frames the writer took before it was released.
     */
    method RecordVideo(duration: int, name: Option<string>, timestamp: string,
                       reportedWidth: int, reportedHeight: int, opens: Request -> bool,
                       env: Environment)
      returns (outcome: RecordOutcome, ghost steps: seq<Step>, ghost frames: nat)
      requires Valid()
      modifies this`writer, this`isRecording, this`recordingFilename
      ensures Valid()
      ensures !old(IsOpen()) || old(isRecording) ==>
        && outcome == NotStarted
        && isRecording == old(isRecording)
        && writer == old(writer)
        && recordingFilename == old(recordingFilename)
      ensures old(IsOpen()) && !old(isRecording) ==>
        var plan := RecordingPlan(outputDir, old(settings), name, timestamp, reportedWidth, reportedHeight, opens);
        && (plan.Exhausted? ==>
              && outcome == NotStarted
              && !isRecording
              && writer == Some(plan.last)
              && recordingFilename == old(recordingFilename))
        && (plan.Selected? && Fps(settings) == 0 ==>
              && outcome == ZeroDivision
              && isRecording
              && writer == Some(plan.writer)
              && recordingFilename == Some(plan.writer.request.path))
        && (plan.Selected? && Fps(settings) != 0 ==>
              var delay := FrameDelay(Fps(settings));
              && outcome == Saved(plan.writer.request.path)
              && !isRecording
              && writer == None
              && recordingFilename == Some(plan.writer.request.path)
              && RunLength(env, delay, duration, |steps|)
              && (forall i :: 0 <= i < |steps| ==> steps[i] == StepAt(env, delay, i))
              && frames == WrittenCount(env, |steps|))
    {
      steps, frames := [], 0;
      var started := StartRecording(name, timestamp, reportedWidth, reportedHeight, opens);
      if !started {
        return NotStarted, steps, frames;
      }
      var fps := Fps(settings);
      if fps == 0 {
        // `1.0 / fps` raises ZeroDivisionError: the recording is never stopped.
        return ZeroDivision, steps, frames;
      }
      var frameDelay := FrameDelay(fps);
      steps := PaceFrames(duration, frameDelay, env);
      frames := writer.value.frames;
      var path := StopRecording();
      return Saved(path.value), steps, frames;
    }

    /**
     * The loop of `record_video`: while the duration is not up and no
     * interrupt is pending, read a frame, write it if the read succeeded and
     * then sleep out the rest of the frame delay. `steps` are the iterations.
     */
    method PaceFrames(duration: int, frameDelay: int, env: Environment) returns (ghost steps: seq<Step>)
      requires Valid() && isRecording
      modifies this`writer
      ensures Valid() && isRecording
      ensures writer == Some(old(writer).value.(frames := old(writer).value.frames + WrittenCount(env, |steps|)))
      ensures RunLength(env, frameDelay, duration, |steps|)
      ensures forall i :: 0 <= i < |steps| ==> steps[i] == StepAt(env, frameDelay, i)
    {
      steps := [];
      ghost var w0 := writer.value;
      var now: nat := 0;  // ticks since `start_time`
      var k: nat := 0;
      while now < duration && !env.interrupted(k)
        invariant Valid() && isRecording
        invariant writer == Some(w0.(frames := w0.frames + WrittenCount(env, k)))
        invariant now == Elapsed(env, frameDelay, k)
        invariant |steps| == k && forall i :: 0 <= i < k ==> steps[i] == StepAt(env, frameDelay, i)
        invariant k > 0 ==> Elapsed(env, frameDelay, k - 1) < duration
        invariant forall i: nat :: i < k ==> !env.interrupted(i)
        decreases duration - now
      {
        assert Elapsed(env, frameDelay, k + 1) == now + StepTicks(StepAt(env, frameDelay, k));
        assert WrittenCount(env, k + 1) == WrittenCount(env, k) + if env.readOk(k) then 1 else 0;
        var frameStart := now;
        var readOk := env.readOk(k);
        now := now + env.readTicks(k);
        ghost var step: Step;
        if readOk {
          writer := Some(writer.value.(frames := writer.value.frames + 1));
          var elapsed := now - frameStart;
          if elapsed < frameDelay {
            now := now + (frameDelay - elapsed);
          }
          step := Written(elapsed, now - frameStart - elapsed);
        } else {
          step := Skipped(now - frameStart);
        }
        // the iteration just run, read off the loop's own clock
        assert step == StepAt(env, frameDelay, k);
        steps := steps + [step];
        k := k + 1;
      }
      RunLengthFromLast(env, frameDelay, duration, k);
    }

    /** A copy of the settings. */
    method GetSettings() returns (copy: Settings)
      ensures copy == settings
    {
      return settings;
    }

    /**
     * The merge loop shared by `update_settings` and `load_settings`: known
     * keys take the new value, unknown keys are collected and ignored.
     */
    method MergeKnown(kw: seq<Entry>) returns (unknown: seq<string>)
      requires Valid() && Fits(kw)
      modifies this`settings
      ensures Valid()
      ensures settings == Merged(old(settings), kw)
      ensures unknown == UnknownKeys(old(settings), kw)
    {
      unknown := [];
      var i := 0;
      while i < |kw|
        invariant 0 <= i <= |kw|
        invariant Valid()
        invariant settings == Merged(old(settings), kw[..i])
        invariant unknown == UnknownKeys(old(settings), kw[..i])
      {
        var (key, value) := kw[i];
        MergedKeys(old(settings), kw[..i]);
        MergeStep(old(settings), kw, i);
        AssignShaped(settings, kw[i]);
        if key in settings {
          settings := settings[key := value];
        } else {
          unknown := unknown + [key];
        }
        i := i + 1;
      }
      assert kw[..|kw|] == kw;
    }

    /**
     * Merges the given settings, warning about unknown keys, re-applies them
     * to an open camera and returns a copy of the result.
     */
    method UpdateSettings(kw: seq<Entry>) returns (unknown: seq<string>, copy: Settings)
      requires Valid() && Fits(kw)
      modifies this`settings, this`cap
      ensures Valid()
      ensures settings == Merged(old(settings), kw) && settings.Keys == old(settings).Keys
      ensures unknown == UnknownKeys(old(settings), kw)
      ensures copy == settings
      ensures cap == if old(IsOpen()) then old(cap).(writes := old(cap).writes + SettingsWrites(settings))
                     else old(cap)
    {
      MergedKeys(settings, kw);
      unknown := MergeKnown(kw);
      if IsOpen() {
        ApplySettings();
      }
      return unknown, settings;
    }

    /**
     * The part of `load_settings` after the file is read: `found` says whether
     * the file existed, `loaded` is its contents in order.
     */
    method LoadSettings(found: bool, loaded: seq<Entry>) returns (ok: bool)
      requires Valid() && Fits(loaded)
      modifies this`settings, this`cap
      ensures Valid()
      ensures ok == found
      ensures settings == if found then Merged(old(settings), loaded) else old(settings)
      ensures cap == if found && old(IsOpen()) then old(cap).(writes := old(cap).writes + SettingsWrites(settings))
                     else old(cap)
    {
      if !found {
        return false;
      }
      var ignored := MergeKnown(loaded);
      if IsOpen() {
        ApplySettings();
      }
      return true;
    }

    /** The ids below `ProbedIds` whose probe opens, in ascending order. */
    method ListCameras(probe: int -> bool) returns (available: seq<int>)
      ensures forall id :: id in available <==> 0 <= id < ProbedIds && probe(id)
      ensures forall a, b :: 0 <= a < b < |available| ==> available[a] < available[b]
    {
      available := [];
      for i := 0 to ProbedIds
        invariant forall id :: id in available <==> 0 <= id < i && probe(id)
        invariant forall a, b :: 0 <= a < b < |available| ==> available[a] < available[b]
        invariant forall a :: 0 <= a < |available| ==> available[a] < i
      {
        if probe(i) {
          available := available + [i];
        }
      }
    }
  }
}
