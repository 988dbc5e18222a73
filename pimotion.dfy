/**
 The motion-triggered recorder: the `Motion` object with its fixed settings,
 its two most recent test frames and its recording state, one iteration of the
 main loop, and the stop on shutdown.

 The camera driver is replaced by a log of the recording instructions the
 object gives it (`camera`), the process clock by the `clock` values passed
 in, and the wall-clock date by a `DateTime` value.
 */
module PiMotion {
  import opened Frames
  import opened FileNames

  /** The settings `Motion` fixes when it is created. */
  datatype Config = Config(
    width: int,            // video width the recording is scaled to
    height: int,           // video height the recording is scaled to
    framerate: int,
    minimumLength: real,   // no-motion time a recording must exceed before it is stopped
    rotation: int,
    filepath: string,
    prefix: string,
    testInterval: real,    // pause between two iterations of the main loop
    tWidth: nat,           // test frame width
    tHeight: nat,          // test frame height
    threshold: int,        // how much a green value must move for its pixel to count as changed
    sensitivity: int)      // how many pixels must change for a frame to count as motion

  const DefaultConfig := Config(1024, 768, 15, 5.0, 0, "/home/", "", 0.5, 96, 72, 15, 25)

  /** A recording instruction given to the camera. */
  datatype CameraCall = Start(filename: string, resizeWidth: int, resizeHeight: int) | Stop

  /** How many columns (or rows) `xrange(0, n - 1)` visits: all but the last one. */
  function Compared(n: nat): nat
  {
    if n == 0 then 0 else n - 1
  }

  /**
   The verdict of one comparison: more than `sensitivity` pixels of the compared
   area [0, tWidth - 1) x [0, tHeight - 1) changed.
   */
  predicate MotionBetween(cfg: Config, before: Frame, after: Frame)
    requires IsFrame(before, cfg.tWidth, cfg.tHeight) && IsFrame(after, cfg.tWidth, cfg.tHeight)
  {
    ChangedCount(before, after, Compared(cfg.tWidth), Compared(cfg.tHeight), cfg.threshold) > cfg.sensitivity
  }

  /** The file a recording started at `stamp` goes to. */
  function FileNameFor(cfg: Config, stamp: DateTime): string
  {
    RecordingName(cfg.filepath, cfg.prefix, stamp)
  }

  class Motion {
    const config: Config

    var timeWithoutActivity: real   // accumulated no-motion time
    var lastActiveTime: real        // clock value at which the latest recording started (0.0 before any)
    var isRecording: bool
    var skip: bool                  // set until the first iteration of the main loop is over
    var buffer1: Frame              // the previous test frame
    var buffer2: Frame              // the current test frame
    var camera: seq<CameraCall>     // the recording instructions given so far

    /** Both test frames have the configured test size. */
    predicate Valid()
      reads this
    {
      IsFrame(buffer1, config.tWidth, config.tHeight) && IsFrame(buffer2, config.tWidth, config.tHeight)
    }

    /**
     `isRecording` keeps the camera from being told to stop when it is not
     recording: the instructions alternate Start, Stop, Start, ... and a
     recording is running exactly when the last one was a Start.
     */
    predicate Alternates()
      reads this
    {
      (forall i :: 0 <= i < |camera| ==> (camera[i].Start? <==> i % 2 == 0)) &&
      (isRecording <==> |camera| % 2 == 1)
    }

    constructor ()
      ensures config == DefaultConfig && Valid()
      ensures timeWithoutActivity == 0.0 && lastActiveTime == 0.0
      ensures !isRecording && skip
      ensures buffer1 == Black(config.tWidth, config.tHeight) && buffer2 == Black(config.tWidth, config.tHeight)
      ensures camera == [] && Alternates()
    {
      config := DefaultConfig;
      timeWithoutActivity := 0.0;
      lastActiveTime := 0.0;
      isRecording := false;
      skip := true;
      buffer1 := Black(DefaultConfig.tWidth, DefaultConfig.tHeight);
      buffer2 := Black(DefaultConfig.tWidth, DefaultConfig.tHeight);
      camera := [];
    }

    /**
     Starts a recording, named after `stamp` and begun at clock value `clock`,
     unless one is already running or the first iteration is not over yet; in
     those cases nothing changes.
     */
    method StartRecording(clock: real, stamp: DateTime)
      requires Alternates()
      modifies this`isRecording, this`lastActiveTime, this`camera
      ensures if old(!isRecording && !skip) then
                isRecording && lastActiveTime == clock &&
                camera == old(camera) + [Start(FileNameFor(config, stamp), config.width, config.height)]
              else
                isRecording == old(isRecording) && lastActiveTime == old(lastActiveTime) && camera == old(camera)
      ensures Alternates()
    {
      if !isRecording && !skip {
        var filename := FileNameFor(config, stamp);
        camera := camera + [Start(filename, config.width, config.height)];
        isRecording := true;
        lastActiveTime := clock;
      }
    }

    /**
     Stops the running recording once the no-motion time strictly exceeds
     `minimumLength`; when idle, or before that, nothing changes.
     */
    method StopRecording()
      requires Alternates()
      modifies this`isRecording, this`camera
      ensures if old(isRecording) && timeWithoutActivity > config.minimumLength then
                !isRecording && camera == old(camera) + [Stop]
              else
                isRecording == old(isRecording) && camera == old(camera)
      ensures Alternates()
    {
      if isRecording && timeWithoutActivity > config.minimumLength {
        camera := camera + [Stop];
        isRecording := false;
      }
    }

    /** Moves the current test frame into the previous slot and hands back the new capture. */
    method CaptureTestImage(captured: Frame) returns (frame: Frame)
      modifies this`buffer1
      ensures buffer1 == old(buffer2) && frame == captured
    {
      buffer1 := buffer2;
      frame := captured;
    }

    /**
     Takes `captured` as the new current frame and compares it with the one
     before: motion when more than `sensitivity` pixels of the compared area
     changed their green value by more than `threshold`. Motion clears the
     no-motion time; otherwise it grows by `clock - lastActiveTime`.
     */
    method TestMotion(captured: Frame, clock: real) returns (motion: bool)
      requires Valid() && IsFrame(captured, config.tWidth, config.tHeight)
      modifies this`buffer1, this`buffer2, this`timeWithoutActivity
      ensures Valid()
      ensures buffer1 == old(buffer2) && buffer2 == captured
      ensures motion == MotionBetween(config, old(buffer2), captured)
      ensures motion ==> timeWithoutActivity == 0.0
      ensures !motion ==> timeWithoutActivity == old(timeWithoutActivity) + (clock - lastActiveTime)
      ensures !motion && clock >= lastActiveTime ==> timeWithoutActivity >= old(timeWithoutActivity)
    {
      var changedPixels := 0;
      buffer2 := CaptureTestImage(captured);
      var before, after := buffer1, buffer2;
      var w, h := Compared(config.tWidth), Compared(config.tHeight);
      var x := 0;
      while x < config.tWidth - 1
        invariant 0 <= x <= w
        invariant changedPixels == ChangedCount(before, after, x, h, config.threshold)
      {
        var y := 0;
        while y < config.tHeight - 1
          invariant 0 <= y <= h
          invariant changedPixels == ChangedCount(before, after, x, h, config.threshold) + ColumnCount(before[x], after[x], y, config.threshold)
        {
          var pixdiff := Abs(before[x][y].green - after[x][y].green);
          if pixdiff > config.threshold {
            changedPixels := changedPixels + 1;
          }
          y := y + 1;
        }
        x := x + 1;
      }
      if changedPixels > config.sensitivity {
        timeWithoutActivity := 0.0;
        motion := true;
      } else {
        timeWithoutActivity := timeWithoutActivity + (clock - lastActiveTime);
        motion := false;
      }
    }

    /**
     One iteration of the main loop: test for motion with the frame `captured`
     at clock value `testClock`; on motion try to start a recording (clock value
     `startClock`, date `stamp`), otherwise try to stop one; then clear `skip`.
     At most one instruction reaches the camera.
     */
    method Tick(captured: Frame, testClock: real, startClock: real, stamp: DateTime) returns (motion: bool)
      requires Valid() && Alternates() && IsFrame(captured, config.tWidth, config.tHeight)
      modifies this
      ensures Valid() && Alternates() && !skip
      ensures buffer1 == old(buffer2) && buffer2 == captured
      ensures motion == MotionBetween(config, old(buffer2), captured)
      ensures timeWithoutActivity == if motion then 0.0 else old(timeWithoutActivity) + (testClock - old(lastActiveTime))
      ensures var started := motion && !old(isRecording) && !old(skip);
              var stopped := !motion && old(isRecording) && timeWithoutActivity > config.minimumLength;
              && camera == old(camera) + (if started then [Start(FileNameFor(config, stamp), config.width, config.height)]
                                          else if stopped then [Stop] else [])
              && isRecording == (if started then true else if stopped then false else old(isRecording))
              && lastActiveTime == (if started then startClock else old(lastActiveTime))
    {
      motion := TestMotion(captured, testClock);
      if motion {
        StartRecording(startClock, stamp);
      } else {
        StopRecording();
      }
      skip := false;
    }

    /**
     On shutdown the camera is told to stop only if a recording is running.
     `isRecording` itself is left as it was, so after a stop here `Alternates()`
     no longer holds; the process exits right after.
     */
    method Shutdown()
      requires Alternates()
      modifies this`camera
      ensures camera == old(camera) + (if isRecording then [Stop] else [])
      ensures camera == [] || camera[|camera| - 1] == Stop
    {
      if isRecording {
        camera := camera + [Stop];
      }
    }
  }

  /** Because `skip` starts set, the first iteration never starts a recording, whatever it captures. */
  method FirstIteration(captured: Frame, testClock: real, startClock: real, stamp: DateTime)
    returns (recording: bool, calls: seq<CameraCall>)
    requires IsFrame(captured, DefaultConfig.tWidth, DefaultConfig.tHeight)
    ensures !recording && calls == []
  {
    var m := new Motion();
    var _ := m.Tick(captured, testClock, startClock, stamp);
    recording, calls := m.isRecording, m.camera;
  }

  /**
   The earliest a recording can start is the second iteration, and it starts
   there exactly when the second frame differs enough from the first.
   */
  method SecondIteration(first: Frame, second: Frame, clocks: seq<real>, stamp: DateTime)
    returns (recording: bool, calls: seq<CameraCall>)
    requires IsFrame(first, DefaultConfig.tWidth, DefaultConfig.tHeight)
    requires IsFrame(second, DefaultConfig.tWidth, DefaultConfig.tHeight)
    requires |clocks| == 4
    ensures recording == MotionBetween(DefaultConfig, first, second)
    ensures calls == if recording then [Start(FileNameFor(DefaultConfig, stamp), 1024, 768)] else []
  {
    var m := new Motion();
    var _ := m.Tick(first, clocks[0], clocks[1], stamp);
    var _ := m.Tick(second, clocks[2], clocks[3], stamp);
    recording, calls := m.isRecording, m.camera;
  }

  /**
   A recording started on the second iteration at clock value `clocks[3]` is
   stopped on a third, motionless iteration exactly when the no-motion time,
   `clocks[4] - clocks[3]`, strictly exceeds `minimumLength` (5 seconds).
   */
  method ThirdIteration(first: Frame, second: Frame, third: Frame, clocks: seq<real>, stamp: DateTime)
    returns (recording: bool, calls: seq<CameraCall>)
    requires IsFrame(first, DefaultConfig.tWidth, DefaultConfig.tHeight)
    requires IsFrame(second, DefaultConfig.tWidth, DefaultConfig.tHeight)
    requires IsFrame(third, DefaultConfig.tWidth, DefaultConfig.tHeight)
    requires |clocks| == 6
    ensures MotionBetween(DefaultConfig, first, second) && !MotionBetween(DefaultConfig, second, third) ==>
              && recording == (clocks[4] - clocks[3] <= 5.0)
              && calls == [Start(FileNameFor(DefaultConfig, stamp), 1024, 768)] + (if recording then [] else [Stop])
  {
    var m := new Motion();
    var _ := m.Tick(first, clocks[0], clocks[1], stamp);
    var _ := m.Tick(second, clocks[2], clocks[3], stamp);
    var _ := m.Tick(third, clocks[4], clocks[5], stamp);
    recording, calls := m.isRecording, m.camera;
  }

  /**
   A frame pair counts as motion exactly when the set of changed coordinates
   in the compared area has more than `sensitivity` elements; exactly
   `sensitivity` changed pixels is not motion.
   */
  lemma MotionIffMoreThanSensitivity(cfg: Config, before: Frame, after: Frame)
    requires IsFrame(before, cfg.tWidth, cfg.tHeight) && IsFrame(after, cfg.tWidth, cfg.tHeight)
    ensures MotionBetween(cfg, before, after) <==>
            |ChangedPixels(before, after, Compared(cfg.tWidth), Compared(cfg.tHeight), cfg.threshold)| > cfg.sensitivity
  {
    CountIsCardinality(before, after, Compared(cfg.tWidth), Compared(cfg.tHeight), cfg.threshold);
  }

  /** At most (tWidth - 1) * (tHeight - 1) pixels can be counted as changed. */
  lemma ChangedPixelsBound(cfg: Config, before: Frame, after: Frame)
    requires IsFrame(before, cfg.tWidth, cfg.tHeight) && IsFrame(after, cfg.tWidth, cfg.tHeight)
    ensures |ChangedPixels(before, after, Compared(cfg.tWidth), Compared(cfg.tHeight), cfg.threshold)|
            <= Compared(cfg.tWidth) * Compared(cfg.tHeight)
  {
    CountIsCardinality(before, after, Compared(cfg.tWidth), Compared(cfg.tHeight), cfg.threshold);
  }

  /**
   The verdict ignores the red and blue channels and the whole last column and
   last row: frame pairs whose green values agree on [0, tWidth - 1) x
   [0, tHeight - 1) get the same verdict.
   */
  lemma OnlyComparedGreenMatters(cfg: Config, before: Frame, after: Frame, before': Frame, after': Frame)
    requires IsFrame(before, cfg.tWidth, cfg.tHeight) && IsFrame(after, cfg.tWidth, cfg.tHeight)
    requires IsFrame(before', cfg.tWidth, cfg.tHeight) && IsFrame(after', cfg.tWidth, cfg.tHeight)
    requires forall x, y :: 0 <= x < cfg.tWidth - 1 && 0 <= y < cfg.tHeight - 1 ==> before[x][y].green == before'[x][y].green
    requires forall x, y :: 0 <= x < cfg.tWidth - 1 && 0 <= y < cfg.tHeight - 1 ==> after[x][y].green == after'[x][y].green
    ensures MotionBetween(cfg, before, after) == MotionBetween(cfg, before', after')
  {
    CountDependsOnlyOnGreenInside(before, after, before', after', Compared(cfg.tWidth), Compared(cfg.tHeight), cfg.threshold);
  }

  /** No green value in the compared area moved by more than `threshold`: no motion. */
  lemma StillFramesAreNoMotion(cfg: Config, before: Frame, after: Frame)
    requires IsFrame(before, cfg.tWidth, cfg.tHeight) && IsFrame(after, cfg.tWidth, cfg.tHeight)
    requires cfg.sensitivity >= 0
    requires forall x, y :: 0 <= x < cfg.tWidth - 1 && 0 <= y < cfg.tHeight - 1 ==>
               Abs(before[x][y].green - after[x][y].green) <= cfg.threshold
    ensures !MotionBetween(cfg, before, after)
  {
    SmallDifferencesCountNothing(before, after, Compared(cfg.tWidth), Compared(cfg.tHeight), cfg.threshold);
  }

  /**
   Every green value in the compared area moved by more than `threshold`: motion
   exactly when the compared area has more than `sensitivity` pixels.
   */
  lemma WholeFrameChangeIsMotion(cfg: Config, before: Frame, after: Frame)
    requires IsFrame(before, cfg.tWidth, cfg.tHeight) && IsFrame(after, cfg.tWidth, cfg.tHeight)
    requires forall x, y :: 0 <= x < cfg.tWidth - 1 && 0 <= y < cfg.tHeight - 1 ==>
               Abs(before[x][y].green - after[x][y].green) > cfg.threshold
    ensures MotionBetween(cfg, before, after) <==> Compared(cfg.tWidth) * Compared(cfg.tHeight) > cfg.sensitivity
  {
    LargeDifferencesCountEverything(before, after, Compared(cfg.tWidth), Compared(cfg.tHeight), cfg.threshold);
  }
}
