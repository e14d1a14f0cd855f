# Speaker bobs: energy timeline and frame arithmetic

This project models the two halves of a pipeline that turns a multi-speaker
conversation into a video of pulsing "bobs", one per speaker.

- **`ChunkedAudioProcessor`** (module `ChunkedAudioProcessor`, with the
  specification functions in `EnergyTimeline`, `LinearInterp` and the lemmas in
  `TimelineProperties`) keeps two pieces of state. `chunks` lists the segments
  ingested so far. `currentTime` is a running clock.
  - `AddChunk` places each non-empty segment on the clock and advances the clock.
  - `BuildTimeline` does four things:
    - it resamples every speaker's loudness envelope onto the video-frame grid;
    - it smooths each speaker's array with a first-order recurrence;
    - it normalises each array by its maximum;
    - it floors every value at 0.1.

  The class is imperative, like the source. Per-speaker arrays are Dafny
  `array<real>`, written in place by slice-writing and smoothing loops.
  `BuildTimeline` is proved to return exactly `EnergyTimeline.TimelineOf` of the
  recorded state. The lemmas then state what that value is: its shape, its
  range, the peak, silent speakers, and which chunk wins a frame.
- **`VideoGenerator`** (module `VideoGenerator`) holds the per-frame drawing
  arithmetic:
  - the energy-to-scale map and the wobbling outline radius;
  - the inner-core and glow radii, the glow threshold and the colour clamps;
  - the speaker layout on a half circle and the per-speaker hues;
  - the render loop's reading of `timeline['speakers'][s][f]`, and its progress test;
  - the audio/video duration reconciliation.

  A frame is the list of drawing commands (`FillPoly`, `Circle`) issued for it,
  in order. `sin`, `cos` and the HSV-to-BGR conversion are parameters.
  `BuiltTimelineRenders` connects the two halves. Every timeline `build_timeline`
  returns satisfies the render loop's indexing needs and holds energies in [0.1, 1].

All times and energies are exact `real`s. Python's `int()` on a float is
`RealMath.Trunc` (towards zero). `np.floor` and `np.ceil` are `RealMath.Floor` and
`RealMath.Ceil`. Python's `//` on the non-negative sizes used here is Dafny's `/`.

### Behaviour worth knowing

- Frame 0 of a speaker's smoothed array equals its raw value (`smoothed[0] = energy[0]`). After normalisation and the 0.1 floor this no longer holds, and the model claims it only for the smoothed array (`SmoothedStep`).
- The envelope is sampled at `i / fps`, the start of frame i, not at the frame's centre.
- A chunk whose speaker id is not a key `0..num_speakers-1` makes the dictionary lookup raise `KeyError`. The model returns `Failure(UnknownSpeaker(id))` for the first such chunk, in chunk order.
- A speaker with no chunks ends at exactly 0.1 in every frame (`TimelineSilentSpeaker`).

## Model

| member | source | states |
|---|---|---|
| ChunkedAudioProcessor.Processor.constructor | chunked_audio_processor.py:9-14 | a new processor has no chunks, its clock at 0, the given sample rate, frame rate and smoothing factor, and satisfies the object invariant |
| ChunkedAudioProcessor.Processor.AddChunk | chunked_audio_processor.py:16-50 | an empty sample array returns None and changes neither chunks nor clock. Otherwise exactly one chunk is appended: start = old clock, end = old clock + len/sample_rate, envelope timestamps offset by the old clock. The clock advances by that duration, and the chunks stay tiled end to end |
| ChunkedAudioProcessor.ClockIsTotalDuration | chunked_audio_processor.py:33-45 | on chunks recorded as `add_chunk` does, the clock equals the sum of the durations, and each chunk starts at the sum of the durations before it |
| ChunkedAudioProcessor.Processor.BuildTimeline | chunked_audio_processor.py:52-119 | the result is exactly `TimelineOf` of the recorded chunks, clock, frame rate and smoothing factor, failures included |
| ChunkedAudioProcessor.BuildFrom | chunked_audio_processor.py:53-115 | the body of `build_timeline` on the given state computes `TimelineOf`: no chunks fails, an unknown speaker id fails, otherwise the frame grid and one final array per speaker |
| ChunkedAudioProcessor.ZeroRows | chunked_audio_processor.py:62 | one fresh, distinct, all-zero array of length `total_frames` per speaker key |
| ChunkedAudioProcessor.WriteChunks | chunked_audio_processor.py:64-91 | the chunk loop fails with the first chunk whose speaker lookup raises; otherwise every speaker's array ends as `RawRow` of all chunks |
| ChunkedAudioProcessor.WriteChunkAt | chunked_audio_processor.py:65-91 | one pass of the chunk loop. A chunk starting at or past `total_frames` is skipped. Otherwise an unknown id fails and a known one is written; either way every array equals `RawRow` of the chunks so far |
| ChunkedAudioProcessor.ApplyChunk | chunked_audio_processor.py:76-91 | writing a chunk changes only its own speaker's array, which becomes `RawRow` extended by that chunk |
| ChunkedAudioProcessor.WriteChunkInto | chunked_audio_processor.py:76-91 | the interpolation loop over the clamped slice, or the single-sample write at the start frame, yields `WriteChunk` of the old array |
| ChunkedAudioProcessor.RawRowSkip | chunked_audio_processor.py:73-74 | a chunk starting at or past `total_frames` leaves every speaker's raw array unchanged |
| ChunkedAudioProcessor.RawRowStep | chunked_audio_processor.py:64-91 | one more chunk changes only its own speaker's raw array, and only when it starts inside the timeline |
| ChunkedAudioProcessor.FirstUnknownSpeakerStep | chunked_audio_processor.py:65-91 | after a prefix with no failing lookup, one more chunk fails exactly when it starts inside and its id is out of range |
| ChunkedAudioProcessor.FirstUnknownSpeakerSplit | chunked_audio_processor.py:64-91 | past a prefix with no failing lookup, the first failing lookup is the first one in the remaining chunks |
| ChunkedAudioProcessor.FinishRows | chunked_audio_processor.py:93-108 | every speaker's list is `FinalRow` of its raw array: smoothed, normalised, floored |
| ChunkedAudioProcessor.FinishRow | chunked_audio_processor.py:94-108 | one speaker's array smoothed, divided by its maximum when that is positive, floored at 0.1 |
| ChunkedAudioProcessor.Smooth | chunked_audio_processor.py:96-99 | the smoothing loop produces exactly `Smoothed` of the raw array |
| RealMath.Floor | chunked_audio_processor.py:69 | `np.floor`: the greatest integer not above x |
| RealMath.Ceil | chunked_audio_processor.py:59 | `np.ceil`: the least integer not below x |
| RealMath.Trunc | video_generator.py:112 | Python `int()` on a float rounds towards zero: for x >= 0 it is the greatest integer not above x, and for x < 0 the least integer not below x |
| EnergyTimeline.TotalFrames | chunked_audio_processor.py:56-59 | definition of `int(ceil(total_duration * fps))`; properties in `TotalFramesPositive` and `TimelineShape` |
| EnergyTimeline.StartFrame | chunked_audio_processor.py:69 | definition of `int(floor(start_time * fps))`; properties in `StartFrameInside` and `StartBeforeEnd` |
| EnergyTimeline.EndFrame | chunked_audio_processor.py:70-71 | definition of `min(int(ceil(end_time * fps)), total_frames)`; properties in `StartFrameInside` |
| EnergyTimeline.Covers | chunked_audio_processor.py:73-91 | definition of the frames a chunk writes (the clamped slice, or the start frame only for fewer than two samples, nothing when skipped); properties in `WriteChunk`, `RawRowUntouched` and `RawRowLastWriter` |
| EnergyTimeline.ChunkEnergy | chunked_audio_processor.py:76-91 | definition of the value written at a frame (the interpolant, `rms[0]`, or 0); properties in `InterpRange`, `InterpNonNegative` and `RawRowNonNegative` |
| EnergyTimeline.FirstUnknownSpeaker | chunked_audio_processor.py:64-91 | definition of the first chunk, in order, whose `speaker_energies[speaker_id]` lookup at line 88 or 91 raises `KeyError`; properties in `UnknownSpeakerIff`, `FirstUnknownSpeakerStep` and `FirstUnknownSpeakerSplit` |
| EnergyTimeline.Normalised | chunked_audio_processor.py:101-104 | definition of division by the maximum when it is positive; properties in `FinalRowRange` and `FinalRowPeak` |
| EnergyTimeline.DividedBy | chunked_audio_processor.py:102 | definition of `smoothed / smoothed.max()`; properties in `FinalRowRange` and `FinalRowPeak` |
| EnergyTimeline.Floored | chunked_audio_processor.py:106 | definition of `np.maximum(normalized, 0.1)`; properties in `FinalRowRange` and `FinalRowSilent` |
| EnergyTimeline.FinalRow | chunked_audio_processor.py:96-106 | definition of smoothing, normalising and flooring one array; properties in `FinalRowRange`, `FinalRowPeak` and `FinalRowSilent` |
| EnergyTimeline.TimelineOf | chunked_audio_processor.py:52-119 | definition of the whole of `build_timeline` on the recorded state; properties in `TimelineFailure`, `TimelineShape`, `TimelineEnergyRange`, `TimelineSilentSpeaker` and `TimelinePeak` |
| EnergyTimeline.RmsTimes | chunked_audio_processor.py:27-31 | one timestamp per envelope frame |
| EnergyTimeline.RmsTimesIncreasing | chunked_audio_processor.py:27-41 | `rms_times[k] = k*512/sample_rate + start_time` starts at the chunk's start time and strictly increases |
| EnergyTimeline.FrameTimeAt | chunked_audio_processor.py:58-60 | frame i's time times fps is exactly i, so `frame_times[i] == i/fps` |
| EnergyTimeline.FrameTimes | chunked_audio_processor.py:60 | `frame_times` has `total_frames` entries |
| EnergyTimeline.TotalFramesPositive | chunked_audio_processor.py:56-59 | a positive duration at a positive frame rate gives `total_frames >= 1` |
| EnergyTimeline.StartFrameInside | chunked_audio_processor.py:69-74 | a chunk that ends by the clock starts on a frame inside the timeline and before its clamped end frame, so the skip branch never fires in exact arithmetic |
| EnergyTimeline.StartBeforeEnd | chunked_audio_processor.py:69-70 | a chunk's start frame lies strictly below its unclamped end frame |
| EnergyTimeline.WriteChunk | chunked_audio_processor.py:76-91 | frames the chunk covers get its energy, all other frames keep their value. Two or more samples cover the clamped slice; fewer cover only the start frame |
| EnergyTimeline.RawRow | chunked_audio_processor.py:62-91 | a speaker's raw array has `total_frames` entries |
| EnergyTimeline.Smoothed | chunked_audio_processor.py:96-99 | the smoothed array has the raw array's length |
| LinearInterp.Lerp | chunked_audio_processor.py:77-86 | definition of the line through two knots evaluated at t; properties in `LerpBetween` |
| LinearInterp.Within | chunked_audio_processor.py:77-86 | definition of interpolation inside the knot range, on the segment holding t; properties in `WithinBounded` and `InterpAtKnot` |
| LinearInterp.Interp | chunked_audio_processor.py:77-86 | definition of `interp1d(rms_times, rms, kind='linear', fill_value=0.0, bounds_error=False)` at t; properties in `InterpRange`, `InterpNonNegative` and `InterpAtKnot` |
| LinearInterp.LerpBetween | chunked_audio_processor.py:77-86 | on one segment the line stays between the values at its ends |
| LinearInterp.WithinBounded | chunked_audio_processor.py:77-86 | any bounds on the knot values bound every in-range interpolated value |
| LinearInterp.InterpRange | chunked_audio_processor.py:76-86 | interpolation is 0 outside `[rms_times[0], rms_times[last]]` and between the envelope's minimum and maximum inside |
| LinearInterp.InterpNonNegative | chunked_audio_processor.py:76-88 | non-negative envelopes interpolate to non-negative energy everywhere |
| LinearInterp.InterpAtKnot | chunked_audio_processor.py:77-86 | the interpolant passes through every knot exactly |
| TimelineProperties.SmoothedPrefix | chunked_audio_processor.py:96-99 | smoothing is causal: the first k smoothed values depend only on the first k raw values |
| TimelineProperties.SmoothedUnfold | chunked_audio_processor.py:98-99 | the last smoothed value is the recurrence applied to the smoothed prefix |
| TimelineProperties.SmoothedStep | chunked_audio_processor.py:96-99 | `smoothed[0] == raw[0]` and `smoothed[i] == a*raw[i] + (1-a)*smoothed[i-1]` |
| TimelineProperties.SmoothedBelow | chunked_audio_processor.py:96-99 | with 0 <= a <= 1, raw values in [0, m] give smoothed values in [0, m] |
| TimelineProperties.SmoothedBounded | chunked_audio_processor.py:96-99 | with 0 <= a <= 1 and non-negative raw values, `smoothed[i]` lies in `[0, max(raw[0..i])]` |
| TimelineProperties.Mix | chunked_audio_processor.py:99 | one smoothing step mixes two values in [0, m] to a value in [0, m] |
| TimelineProperties.SmoothedConstant | chunked_audio_processor.py:96-99 | a constant raw array smooths to the same constant |
| TimelineProperties.FinalRowRange | chunked_audio_processor.py:101-106 | every final value lies in [0.1, 1.0], whatever the raw values |
| TimelineProperties.FinalRowPeak | chunked_audio_processor.py:101-102 | when the smoothed maximum is positive, some final value is exactly 1.0 |
| TimelineProperties.FinalRowSilent | chunked_audio_processor.py:101-106 | an all-zero raw array ends with every value exactly 0.1 |
| TimelineProperties.RawRowUntouched | chunked_audio_processor.py:62-91 | a frame no chunk of the speaker covers stays 0 |
| TimelineProperties.RawRowLastWriter | chunked_audio_processor.py:85-91 | later chunks overwrite: a frame holds the energy of the last chunk of that speaker covering it |
| TimelineProperties.RawRowSilent | chunked_audio_processor.py:62-91 | a speaker no chunk belongs to keeps an all-zero array |
| TimelineProperties.RawRowNonNegative | chunked_audio_processor.py:62-91 | non-negative envelopes give a non-negative raw array |
| TimelineProperties.UnknownSpeakerIff | chunked_audio_processor.py:64-91 | with no chunk skipped, a lookup fails if and only if some chunk's id is outside 0..num_speakers-1, and the failing id is such an id |
| TimelineProperties.TimelineFailure | chunked_audio_processor.py:53-91 | the build fails with "no chunks" exactly when there are none, and otherwise fails exactly when some chunk's speaker id is unknown |
| TimelineProperties.TimelineShape | chunked_audio_processor.py:56-115 | on success: `total_frames == ceil(clock*fps) >= 1`, `frame_times[i]*fps == i`, the total duration is the clock, and there are `num_speakers` arrays of `total_frames` values |
| TimelineProperties.TimelineEnergyRange | chunked_audio_processor.py:93-108 | every energy of a successful timeline lies in [0.1, 1.0] |
| TimelineProperties.TimelineSilentSpeaker | chunked_audio_processor.py:93-108 | a speaker key with no chunks ends with every frame exactly 0.1 |
| TimelineProperties.TimelinePeak | chunked_audio_processor.py:101-108 | a speaker whose smoothed maximum is positive reaches exactly 1.0 in some frame |
| VideoGenerator.EnergyScale | video_generator.py:85 | definition of `energy_scale`; properties in `EnergyScaleEndpoints`, `EnergyScaleMonotone` and `EnergyScaleRange` |
| VideoGenerator.Wobble | video_generator.py:79-83 | definition of the wobble from its three sine values; properties in `WobbleBounded` |
| VideoGenerator.OutlineRadius | video_generator.py:87 | definition of `base_radius*energy_scale + wobble*base_radius*energy`; properties in `OutlineRadiusMonotone` and `OutlineRadiusBounds` |
| VideoGenerator.Growth | video_generator.py:112 | definition of `1 + (energy - 0.1) * 0.5`; properties in `RingRadiusMonotone` |
| VideoGenerator.RingRadius | video_generator.py:112-116 | definition of `int(base_radius * k * growth)`; properties in `RingRadiusMonotone` |
| VideoGenerator.InnerRadius | video_generator.py:112 | definition of `inner_radius`; properties in `RingRadii` and `BuiltTimelineRings` |
| VideoGenerator.GlowRadius | video_generator.py:116 | definition of `glow_radius`; properties in `RingRadii` and `BuiltTimelineRings` |
| VideoGenerator.DrawsGlow | video_generator.py:115 | definition of the glow test `energy > 0.3`; properties in `DrawBobShape` |
| VideoGenerator.Darken | video_generator.py:111 | definition of `inner_color`, `max(0, c - 30)` per component; properties in `ClampsBracket` |
| VideoGenerator.Brighten | video_generator.py:117 | definition of `glow_color`, `min(255, c + 20)` per component; properties in `ClampsBracket` |
| VideoGenerator.DrawBob | video_generator.py:95-118 | definition of the draw calls of `draw_bob`; properties in `DrawBobShape` |
| VideoGenerator.ArcAngle | video_generator.py:44 | definition of `np.linspace(np.pi, 0, n)[k]`; properties in `ArcAngleEnds` |
| VideoGenerator.ArcPoint | video_generator.py:47-48 | definition of `(int(cx + r*cos(a)), int(cy + r*sin(a)))`; properties in `ArcPointOnScreen` |
| VideoGenerator.ArcPosition | video_generator.py:36-48 | definition of position k on the arc; properties in `CalculatePositions` and `ArcPositionOnScreen` |
| VideoGenerator.Hue | video_generator.py:57 | definition of `int(180 * i / max(n, 1))`; properties in `HueQuotient` and `HueRange` |
| VideoGenerator.BobAt | video_generator.py:142-147 | definition of the bob of speaker s in frame f, read from `timeline['speakers'][s][f]`; properties in `DrawSpeakers` and `FrameAt` |
| VideoGenerator.ProgressDueAsWritten | video_generator.py:151 | definition of the progress test as written, failing when `total_frames // 10 == 0`; properties in `ProgressCrashesOnShortRender` and `ProgressDueCorrected` |
| VideoGenerator.ProgressDue | video_generator.py:151 | definition of the corrected progress test, with step `max(total_frames // 10, 1)`; properties in `ProgressDueCorrected` and `ProgressReportsExact` |
| VideoGenerator.ProgressReports | video_generator.py:138-153 | definition of the frame counts at which progress is reported; properties in `ProgressReportsNext` and `ProgressReportsExact` |
| VideoGenerator.Reconcile | video_generator.py:176-188 | definition of the trim / extend / keep decision; properties in `ReconcileWithinTolerance` |
| VideoGenerator.FixedDuration | video_generator.py:179-188 | definition of the audio duration after the decision is applied; properties in `ReconcileWithinTolerance` |
| VideoGenerator.Generator.FramesUpTo | video_generator.py:138-149 | definition of the first n frames, in order; properties in `FramesUpToIndex` and `RenderFrames` |
| VideoGenerator.EnergyScaleEndpoints | video_generator.py:85 | energy 0.1 maps to scale 1.0 and energy 1.0 to `max_scale` |
| VideoGenerator.EnergyScaleMonotone | video_generator.py:85 | with `max_scale >= 1` the scale never decreases with energy |
| VideoGenerator.EnergyScaleRange | video_generator.py:85 | on [0.1, 1] the scale lies in [1, max_scale] |
| VideoGenerator.WobbleBounded | video_generator.py:79-83 | with sine values in [-1, 1] the wobble lies in [-0.18, 0.18] |
| VideoGenerator.OutlineRadiusMonotone | video_generator.py:85-87 | the unwobbled radius `base_radius*energy_scale` never decreases with energy |
| VideoGenerator.OutlineRadiusBounds | video_generator.py:79-87 | for timeline energies the wobbled radius lies in `[0.82*base, (max_scale+0.18)*base]`, so it is positive |
| VideoGenerator.WobbleTimesEnergy | video_generator.py:87 | the wobble scaled by an energy of at most 1 stays within 0.18 |
| VideoGenerator.FluidOutline | video_generator.py:75-92 | the outline has `num_points` points |
| VideoGenerator.RingRadiusMonotone | video_generator.py:112-116 | `int(base*k*(1+(e-0.1)*0.5))` is non-negative and grows with energy and with the factor k |
| VideoGenerator.RingRadii | video_generator.py:112-116 | inner and glow radii are non-negative and non-decreasing in energy, and the inner radius never exceeds the glow radius |
| VideoGenerator.ClampsBracket | video_generator.py:111-117 | for 8-bit colours, `max(0, c-30) <= c <= min(255, c+20)` with both results in [0, 255] |
| VideoGenerator.DrawBobShape | video_generator.py:95-118 | a bob is an 80-point filled outline in its colour and a filled darker core. It gains a glow ring if and only if energy > 0.3: a 2-pixel circle around the same centre, of radius `GlowRadius` and colour `min(255, c+20)`, never inside the core |
| VideoGenerator.ArcAngleEnds | video_generator.py:44 | the arc runs from angle pi down to angle 0 |
| VideoGenerator.CalculatePositions | video_generator.py:34-51 | exactly `num_speakers` positions. One speaker sits at `(w//2, h//2)`; otherwise position k is the truncated point at angle k of `linspace(pi, 0, n)` on the radius `min(w,h)//4` circle |
| VideoGenerator.ArcPositionOnScreen | video_generator.py:36-49 | with sine and cosine in [-1, 1], every arc position lies inside the frame |
| VideoGenerator.ArcPointOnScreen | video_generator.py:47-48 | a truncated circle point stays inside the frame when the whole circle does |
| VideoGenerator.LayoutFits | video_generator.py:36-39 | the radius `min(w,h)//4` fits on both sides of the centre `(w//2, h//2)` |
| VideoGenerator.HueQuotient | video_generator.py:57 | `int(180*i/n)` equals the integer quotient `180*i // n` |
| VideoGenerator.HueRange | video_generator.py:56-57 | for 0 <= i < n the hue lies in [0, 180) and is non-decreasing in i |
| VideoGenerator.GenerateColors | video_generator.py:53-64 | one colour per speaker: colour i is the BGR conversion of hue `int(180*i/max(n,1))`, saturation 200, value 255 |
| VideoGenerator.ProgressCrashesOnShortRender | video_generator.py:151 | the progress test as written raises on the first frame of any render of 1 to 9 frames |
| VideoGenerator.ProgressDueCorrected | video_generator.py:151 | the corrected test equals the written one for 10 or more frames, and every non-empty render reports progress at least once |
| VideoGenerator.ProgressReportsNext | video_generator.py:151 | one more frame adds its count to the progress reports exactly when the test fires |
| VideoGenerator.ProgressReportsExact | video_generator.py:138-153 | the reported counts lie in 1..frames rendered, and frame f is reported if and only if the test fires for it |
| VideoGenerator.ReconcileWithinTolerance | video_generator.py:176-188 | audio is trimmed if and only if it is longer than the video by more than 0.1 s, and extended with silence if and only if shorter by more than 0.1 s. Otherwise it is kept; the final audio length is within 0.1 s of the video |
| VideoGenerator.Generator.constructor | video_generator.py:10-32 | stores the settings. `num_speakers` is the timeline's speaker count, with one position and one colour per speaker. One speaker sits at the centre, otherwise speaker k sits at arc position k; colour i is the conversion of hue `Hue(i, n)` |
| VideoGenerator.Generator.FrameAt | video_generator.py:138-147 | a frame has the background colour and one bob per speaker |
| VideoGenerator.Generator.RenderFrames | video_generator.py:138-153 | exactly `total_frames` frames, frame f being `FrameAt(f)`, and the progress reports at the counts the corrected test selects |
| VideoGenerator.Generator.DrawSpeakers | video_generator.py:142-147 | the speaker loop draws, in speaker order, the bob of each speaker at its energy `timeline['speakers'][s][f]` |
| VideoGenerator.Generator.FramesUpToIndex | video_generator.py:138-149 | the frames written so far are frames 0..n-1 of the video, in order |
| VideoGenerator.BuiltTimelineRenders | video_generator.py:138-143 | every timeline `build_timeline` returns has at least `total_frames` energies for every speaker, so the render loop's reads stay in bounds, and each of them lies in [0.1, 1] |
| VideoGenerator.BuiltTimelineRings | video_generator.py:111-118 | in every frame of a built timeline each bob's core and glow radii are non-negative, core <= glow, and neither exceeds its size at energy 1.0 |

## Left out

- The RMS envelope (`librosa.feature.rms`, window 2048, hop 512) is a foreign computation. `AddChunk` takes it as the parameter `rms`, required to be non-negative as an RMS value is. Only the length of the sample array is used otherwise.
- `librosa.frames_to_time` is modelled by its formula `k*512/sample_rate`; the library itself is not modelled.
- `scipy.interpolate.interp1d` is not called. `LinearInterp.Interp` defines linear interpolation with fill value 0 outside the knot range directly.
- Floating-point rounding: every time and energy is an exact real. IEEE effects at `floor`/`ceil` boundaries and in `linspace` are not modelled, and so neither is the skip branch firing through rounding. In exact arithmetic `StartFrameInside` shows it never fires.
- `np.sin` and `np.cos` are the parameters `sin` and `cos`. The lemmas that need them in [-1, 1] say so in their preconditions.
- `cv2.cvtColor` (HSV to BGR) is the parameter `hsvToBgr`, and the `uint8` packing around it is not modelled.
- Rasterisation is not modelled: `cv2.fillPoly`, `cv2.circle`, the `np.zeros` frame buffer and `astype(np.int32)` wrap-around. A frame is the list of drawing commands issued for it, with coordinates truncated towards zero.
- `cv2.VideoWriter` (opening, the `RuntimeError` when it fails to open, writing, release) is file I/O and is not modelled.
- moviepy loading, compositing, writing and closing clips, the audio path and file-size checks, and temporary-file clean-up are file and codec I/O. Only the duration decision `Reconcile` is modelled.
- All console output (`print`, the progress line's text, `traceback`) is left out. The progress test itself is modelled (see Findings).
- main.py (text-to-speech orchestration, subprocess concatenation), normalvid.py (network text-to-speech client and WAV decoding) and `__init__.py` (re-exports) are not part of this model.
- ChunkedAudioProcessor.Processor.constructor: requires a positive sample rate and frame rate. With 0 the source raises `ZeroDivisionError` later, in `add_chunk` or `build_timeline`, and that error path is not modelled.
- VideoGenerator.Generator.RenderFrames: requires the timeline to be renderable (every speaker has at least `total_frames` energies, with one position and colour per speaker). With a shorter list the source raises `IndexError`; `BuiltTimelineRenders` shows this never happens for a timeline `build_timeline` returns.
- VideoGenerator.Generator.RenderFrames: uses the corrected progress test, not the one that raises for 1 to 9 frames (see Findings).
- VideoGenerator.FluidOutline: its contract states only the number of points. The radius it uses is specified by `OutlineRadiusBounds` and `OutlineRadiusMonotone`; the points themselves depend on the unmodelled `sin`/`cos`.
- VideoGenerator.Reconcile: states the intended effect of the trim and extend branches (audio cut to the video's length, or padded with silence up to it). It does not model the library calls as written. Those branches call the moviepy 1.x methods `subclip`, `volumex`, `set_duration` and `set_start` (video_generator.py:182, 187-188). The file imports the moviepy 2.x API (video_generator.py:4) and uses its `with_audio` (video_generator.py:190). Under 2.x those 1.x methods do not exist, so either branch would raise `AttributeError`, which the handler at video_generator.py:218-223 re-raises. Only the keep branch would then complete. Whether this happens depends on the installed moviepy version, which is outside the model.
- Python's dynamic typing is not modelled: speaker ids are integers, and durations, rates and sizes are numbers.

## Findings

| source | as written | input that shows it | evidently intended | confidence | as-written member | corrected member |
|---|---|---|---|---|---|---|
| video_generator.py:151 | `(frame_idx + 1) % (total_frames // 10) == 0` divides by `total_frames // 10`, which is 0 when the render has 1 to 9 frames, so the first frame raises `ZeroDivisionError` | a timeline of 5 frames, e.g. one 0.15 s chunk at 30 fps | report progress every `max(total_frames // 10, 1)` frames | high; not executed | VideoGenerator.ProgressCrashesOnShortRender | VideoGenerator.ProgressDueCorrected |
