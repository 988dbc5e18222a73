# PiMotion in Dafny

A model of PiMotion's motion-triggered recorder. The recorder is one Python class, `Motion`, with a `while True` driver loop. Every tick it captures a small test still. It compares that still with the previous one, counting pixels whose green value moved by more than `threshold`. More than `sensitivity` such pixels counts as motion. On motion it starts a full-resolution recording, unless one is running or this is the first tick. Without motion it stops the recording once the accumulated no-motion time strictly exceeds `minimumLength`.

Files:

- `frames.dfy` (module `Frames`) holds the test frames and the changed-pixel count. A frame is a `seq<seq<Pixel>>` indexed `[x][y]`, and a `Pixel` has red, green and blue channels in 0..255. The count is specified twice. `ChangedCount` counts column by column, as the loops do. `ChangedPixels` is a set of coordinates. A lemma shows that the two agree.
- `filenames.dfy` (module `FileNames`) holds the recording's file name, `filepath + prefix + "%04d%02d%02d-%02d%02d%02d.h264"`. It defines zero-padded decimal printing and a parser that reads the date and time back.
- `pimotion.dfy` (module `PiMotion`) holds the class `Motion`. Its fields are the ones its methods update in place: `timeWithoutActivity`, `lastActiveTime`, `isRecording`, `skip`, `buffer1` (previous frame), `buffer2` (current frame). It also has a log `camera` of the recording instructions it has given. The module also has one iteration of the main loop (`Tick`), the shutdown stop (`Shutdown`), three client methods that run the first iterations after start-up, and lemmas about the motion verdict.

Behaviour kept exactly as the code has it:

- The loops visit `x` in `[0, tWidth - 1)` and `y` in `[0, tHeight - 1)`, so the last column and last row are never compared.
- Both comparisons are strict: `pixdiff > threshold` and `changedPixels > sensitivity`.
- On a motionless tick, `timeWithoutActivity` grows by `clock - lastActiveTime`, not by the time since the previous tick. `lastActiveTime` is set only when a recording starts. Before the first recording it is 0.0, so a motionless tick adds the raw clock value. After a stop it still holds the start time of the recording just stopped.
- The first tick runs the whole comparison, against the initial black frame, and updates `timeWithoutActivity`. Only the start is suppressed, by `skip`, which the loop clears at the end of every iteration.
- Stopping a recording does not set `skip` again.
- On shutdown the camera is told to stop if `isRecording` is set. `isRecording` itself is not cleared.
- The camera is never told to stop when it is not recording: the instructions alternate Start, Stop, Start, ..., and `isRecording` holds exactly when the last one was a Start (`Motion.Alternates`).
- The code has no detection sub-rectangle, no night-mode profiles, no hour window, no date-based folders and no transcoding, so the model has none either.

## Model

| member | source | states |
|---|---|---|
| Frames.Black | pimotion.py:41-44 | the initial test images are `tWidth` x `tHeight` and every pixel is black |
| Frames.Abs | pimotion.py:78 | the absolute difference is the difference or its negation, never negative |
| Frames.ColumnCount | pimotion.py:77-80 | the changed pixels among the first `h` rows of a column number at most `h` |
| Frames.ChangedCount | pimotion.py:76-80 | the changed pixels in `[0, w) x [0, h)` number at most `w * h` |
| Frames.ColumnCountIsCardinality | pimotion.py:77-80 | the inner loop's count equals the number of changed coordinates in that column |
| Frames.CountIsCardinality | pimotion.py:76-80 | the nested loops' count equals the size of the set of coordinates whose green value moved by more than `threshold` |
| Frames.CountDependsOnlyOnGreenInside | pimotion.py:76-78 | two frame pairs whose green values agree inside the compared rectangle get the same count, whatever their red, blue or outside pixels are |
| Frames.SmallDifferencesCountNothing | pimotion.py:78-80 | if no green value moved by more than `threshold`, the count is 0 |
| Frames.LargeDifferencesCountEverything | pimotion.py:78-80 | if every green value moved by more than `threshold`, the count is the whole rectangle, `w * h` |
| Frames.FullColumnCount | pimotion.py:77-80 | a column in which every pixel changed counts `h` pixels |
| FileNames.DigitChar | pimotion.py:50 | a digit value is printed as a decimal digit character |
| FileNames.DigitValue | pimotion.py:50 | a digit character reads back as a value below 10 that prints as that character |
| FileNames.Decimal | pimotion.py:50 | `%d` of a non-negative number is a non-empty string of decimal digits |
| FileNames.Padded | pimotion.py:50 | `%0Nd` is a string of decimal digits at least `N` characters long |
| FileNames.DecimalLength | pimotion.py:50 | a number below 10^k has at most k digits |
| FileNames.PaddedLength | pimotion.py:50 | `%0Nd` of a number below 10^N is exactly `N` characters, so the padding never overflows for in-range fields |
| FileNames.DecodePadded | pimotion.py:50 | zero padding does not change the value: reading `%0Nd` of `n` back gives `n` |
| FileNames.TimestampShape | pimotion.py:50 | for in-range date fields the timestamp is 8 digits, `-`, then 6 digits |
| FileNames.TimestampRoundTrip | pimotion.py:50 | parsing the timestamp of an in-range date and time gives back that date and time |
| FileNames.RecordingNameRoundTrip | pimotion.py:50 | the file name is `filepath + prefix` plus 20 characters ending in `.h264`, and the start date and time can be read back from it |
| FileNames.RecordingNamesDistinct | pimotion.py:50 | recordings started at different in-range times (to the second) get different file names |
| PiMotion.Motion.constructor | pimotion.py:17-44 | the default settings; no activity time; not recording; `skip` set; both test buffers black; no camera instructions, so the Start/Stop alternation holds |
| PiMotion.Motion.StartRecording | pimotion.py:47-53 | only when not recording and `skip` is clear: exactly one start instruction for `filepath + prefix + timestamp.h264` at the configured video size, `isRecording` set and `lastActiveTime` set to the clock; otherwise nothing changes; the Start/Stop alternation with `isRecording` is kept |
| PiMotion.Motion.StopRecording | pimotion.py:56-59 | only when recording and `timeWithoutActivity > minimumLength` (strict): exactly one stop instruction and `isRecording` cleared; otherwise nothing changes; the Start/Stop alternation with `isRecording` is kept |
| PiMotion.Motion.CaptureTestImage | pimotion.py:62-71 | the current frame moves to the previous slot and the new capture is returned |
| PiMotion.Motion.TestMotion | pimotion.py:73-86 | afterwards the old current frame is the previous frame and the capture is the current one; the result is true exactly when more than `sensitivity` pixels of `[0, tWidth - 1) x [0, tHeight - 1)` changed their green value by more than `threshold`; motion resets `timeWithoutActivity` to 0, otherwise it grows by `clock - lastActiveTime` and so does not shrink while `clock >= lastActiveTime` |
| PiMotion.Motion.Tick | pimotion.py:94-100 | one iteration of the main loop: the frames shift, the verdict is the comparison above, at most one instruction is given (a start on motion when idle and not skipping, a stop without motion when recording past `minimumLength`), `skip` is clear afterwards, and the Start/Stop alternation with `isRecording` is kept |
| PiMotion.Motion.Shutdown | pimotion.py:101-104 | on interrupt, one stop instruction exactly when `isRecording` is set, and none otherwise; afterwards the last instruction the camera got, if any, is a Stop; `isRecording` is left as it was |
| PiMotion.FirstIteration | pimotion.py:35 | because `skip` starts set, the first iteration after start-up never records and gives the camera no instruction, whatever frame it captures |
| PiMotion.SecondIteration | pimotion.py:94-100 | the second iteration records exactly when the second frame differs from the first by the motion test, with exactly one start instruction |
| PiMotion.ThirdIteration | pimotion.py:81-86 | a recording started on the second iteration stops on a motionless third iteration exactly when `clock - lastActiveTime` exceeds 5 seconds |
| PiMotion.MotionIffMoreThanSensitivity | pimotion.py:74-83 | a frame pair is motion exactly when more than `sensitivity` coordinates changed; exactly `sensitivity` changed pixels is not motion |
| PiMotion.ChangedPixelsBound | pimotion.py:76-77 | at most `(tWidth - 1) * (tHeight - 1)` pixels can count as changed |
| PiMotion.OnlyComparedGreenMatters | pimotion.py:76-78 | the red and blue channels, the last column and the last row never affect the verdict |
| PiMotion.StillFramesAreNoMotion | pimotion.py:78-81 | if no compared green value moved by more than `threshold` (and `sensitivity` is not negative), there is no motion |
| PiMotion.WholeFrameChangeIsMotion | pimotion.py:78-83 | if every compared green value moved by more than `threshold`, there is motion exactly when the compared area has more than `sensitivity` pixels |

## Left out

- Camera set-up (resolution, framerate, rotation), `capture`, `start_recording`, `stop_recording` and `close` are calls into the camera driver. Start and stop are recorded as `CameraCall` values in the `camera` log. The set-up and `close` are not modelled.
- The PIL image objects `image1` and `image2` and the BMP stream are not modelled. A captured frame arrives as a `Frame` argument of the test size. The model keeps only the pixel buffers `buffer1` and `buffer2`. Frames are never changed after capture, so keeping them as values loses no aliasing behaviour.
- `time.clock()` and `datetime.now()` are inputs: `real` clock values and a `DateTime` value. `TestMotion` reads the clock only on its no-motion branch and `StartRecording` only when it starts a recording, so a tick reads it at most once. `Tick` takes one clock value for each of the two places. Floating-point rounding is not modelled; times are exact reals.
- `time.sleep`, the warm-up delay, `print` output, `KeyboardInterrupt` handling and `sys.exit` are process lifecycle and I/O. Only the stop-if-recording guard of the shutdown path is modelled, as `Shutdown`.
- FileNames.RecordingNameRoundTrip: states the file name's shape only for `datetime` fields in their own ranges. `%0Nd` of a wider value is longer (`Padded` covers that case, but no shape is proved for it).
