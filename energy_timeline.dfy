/**
 * What `ChunkedAudioProcessor.build_timeline` computes, as functions of the
 * recorded chunks: the frame grid, the raw per-speaker energy written chunk by
 * chunk, the exponential smoothing, the normalisation and the 0.1 floor.
 * The imperative processor in module ChunkedAudioProcessor is proved to
 * compute exactly `TimelineOf`; the lemmas here state what that value is.
 */
module EnergyTimeline {
  import opened Results
  import opened RealMath
  import opened LinearInterp

  /** librosa's hop length: RMS window k starts at sample k * 512. */
  const HopLength: nat := 512
  /** The visual floor every final energy is clamped up to. */
  const EnergyFloor: real := 0.1

  /** One ingested segment, as `add_chunk` records it (the `chunk` dict). */
  datatype Chunk = Chunk(
    speakerId: int,
    startTime: real,
    endTime: real,
    duration: real,
    rms: seq<real>,
    rmsTimes: seq<real>)

  /** The dict `build_timeline` returns; `speakers[s]` is the list for key s. */
  datatype Timeline = Timeline(
    frameTimes: seq<real>,
    totalFrames: int,
    totalDuration: real,
    speakers: seq<seq<real>>)

  /** The two exceptions `build_timeline` can raise. */
  datatype BuildError =
    | NoChunks                      // ValueError: no chunks added
    | UnknownSpeaker(speakerId: int) // KeyError: speaker id not in 0..num_speakers-1

  /** `librosa.frames_to_time(range(n), sr, hop_length=512) + offset`. */
  function RmsTimes(n: nat, sampleRate: int, offset: real): (ts: seq<real>)
    requires sampleRate > 0
    ensures |ts| == n
  {
    seq(n, k => (k * HopLength) as real / sampleRate as real + offset)
  }

  /** Envelope timestamps start at the offset and strictly increase. */
  lemma RmsTimesIncreasing(n: nat, sampleRate: int, offset: real)
    requires sampleRate > 0
    ensures n > 0 ==> RmsTimes(n, sampleRate, offset)[0] == offset
    ensures StrictlyIncreasing(RmsTimes(n, sampleRate, offset))
  {
    var ts := RmsTimes(n, sampleRate, offset);
    var sr := sampleRate as real;
    forall i, j | 0 <= i < j < n ensures ts[i] < ts[j] {
      var a, b := (i * HopLength) as real, (j * HopLength) as real;
      assert a < b;
      DivStrict(a, b, sr);
    }
  }

  /** What build_timeline relies on from a recorded chunk. */
  predicate Sound(c: Chunk)
  {
    0.0 <= c.startTime < c.endTime && (|c.rms| > 1 ==> Knots(c.rmsTimes, c.rms))
  }

  /** Every chunk is sound and ends by the clock value `horizon`. */
  predicate AllPlaced(cs: seq<Chunk>, horizon: real)
  {
    forall k :: 0 <= k < |cs| ==> Sound(cs[k]) && cs[k].endTime <= horizon
  }

  // ---------------------------------------------------------------------------
  // The frame grid

  /** `int(np.ceil(total_duration * video_fps))`. */
  function TotalFrames(duration: real, fps: nat): int
  {
    Ceil(duration * fps as real)
  }

  /** `frame_times[i] = i * (1.0 / video_fps)`. */
  function FrameTime(i: int, fps: nat): (t: real)
    requires fps > 0
  {
    i as real * (1.0 / fps as real)
  }

  /** Frame i sits at time i/fps. */
  lemma FrameTimeAt(i: int, fps: nat)
    requires fps > 0
    ensures FrameTime(i, fps) * fps as real == i as real
  {
    var f := fps as real;
    assert (1.0 / f) * f == 1.0;
    assert i as real * (1.0 / f) * f == i as real * ((1.0 / f) * f);
  }

  function FrameTimes(total: nat, fps: nat): (ts: seq<real>)
    requires fps > 0
    ensures |ts| == total
  {
    seq(total, i => FrameTime(i, fps))
  }

  /** `int(np.floor(start_time * video_fps))`. */
  function StartFrame(c: Chunk, fps: nat): int
  {
    Floor(c.startTime * fps as real)
  }

  /** `min(int(np.ceil(end_time * video_fps)), total_frames)`. */
  function EndFrame(c: Chunk, fps: nat, total: int): int
  {
    Min(Ceil(c.endTime * fps as real), total)
  }

  /** A positive duration at a positive frame rate needs at least one frame. */
  lemma TotalFramesPositive(duration: real, fps: nat)
    requires duration > 0.0 && fps > 0
    ensures TotalFrames(duration, fps) >= 1
  {
    assert duration * fps as real > 0.0;
  }

  /**
   * A chunk that ends by the clock starts on a frame inside the timeline, so
   * the `chunk_start_frame >= total_frames` skip never fires in exact arithmetic.
   */
  lemma StartFrameInside(c: Chunk, fps: nat, horizon: real)
    requires Sound(c) && c.endTime <= horizon && fps > 0
    ensures 0 <= StartFrame(c, fps) < TotalFrames(horizon, fps)
    ensures StartFrame(c, fps) < EndFrame(c, fps, TotalFrames(horizon, fps))
  {
    var f := fps as real;
    FrameScale(c.startTime, c.endTime, f);
    FrameScale(c.endTime, horizon, f);
    FrameOrder(c.startTime * f, c.endTime * f, horizon * f);
    var total := TotalFrames(horizon, fps);
    assert total == Ceil(horizon * f);
    assert EndFrame(c, fps, total) == Min(Ceil(c.endTime * f), total);
  }

  /** A chunk's frame range is never empty: its end frame lies past its start frame. */
  lemma StartBeforeEnd(c: Chunk, fps: nat)
    requires Sound(c) && fps > 0
    ensures StartFrame(c, fps) < Ceil(c.endTime * fps as real)
  {
    var f := fps as real;
    FrameScale(c.startTime, c.endTime, f);
    FrameOrder(c.startTime * f, c.endTime * f, c.endTime * f);
  }

  /** Scaling two ordered times by a positive frame rate keeps them ordered. */
  lemma FrameScale(a: real, b: real, f: real)
    requires 0.0 <= a <= b && f > 0.0
    ensures 0.0 <= a * f <= b * f
    ensures a < b ==> a * f < b * f
  {
    ScaleNonNegative(a, f);
    ScaleNonNegative(b - a, f);
    if a < b {
      ScalePositive(b - a, f);
    }
    Distribute(b, a, f);
  }

  /** Ordered frame positions floor and ceil to ordered frame numbers. */
  lemma FrameOrder(start: real, end: real, last: real)
    requires 0.0 <= start < end <= last
    ensures 0 <= Floor(start) < Ceil(end) <= Ceil(last)
  {
    assert -1.0 < Floor(start) as real <= start < end <= Ceil(end) as real;
    assert Ceil(end) as real < end + 1.0 <= last + 1.0 <= Ceil(last) as real + 1.0;
  }

  // ---------------------------------------------------------------------------
  // Writing one chunk into its speaker's array

  /**
   * Whether the chunk writes frame f of an array of `total` frames: an
   * envelope of two or more samples fills the clamped frame range, a shorter
   * one only the start frame, and a chunk starting past the end writes nothing.
   */
  predicate Covers(c: Chunk, fps: nat, total: int, f: int)
  {
    var lo := StartFrame(c, fps);
    lo < total && if |c.rms| > 1 then lo <= f < EndFrame(c, fps, total) else f == lo
  }

  /** The value the chunk writes at frame f. */
  function ChunkEnergy(c: Chunk, fps: nat, f: int): real
    requires fps > 0 && Sound(c)
  {
    if |c.rms| > 1 then Interp(c.rmsTimes, c.rms, FrameTime(f, fps))
    else if |c.rms| > 0 then c.rms[0]
    else 0.0
  }

  /** The speaker's array after one chunk of that speaker has been written into it. */
  function WriteChunk(row: seq<real>, c: Chunk, fps: nat): (r: seq<real>)
    requires fps > 0 && Sound(c)
    ensures |r| == |row|
    ensures forall f :: 0 <= f < |row| && !Covers(c, fps, |row|, f) ==> r[f] == row[f]
    ensures forall f :: 0 <= f < |row| && Covers(c, fps, |row|, f) ==> r[f] == ChunkEnergy(c, fps, f)
  {
    seq(|row|, f requires 0 <= f < |row| =>
      if Covers(c, fps, |row|, f) then ChunkEnergy(c, fps, f) else row[f])
  }

  /**
   * Speaker s's array after every chunk in `cs` has been processed, in order;
   * a chunk starting at or past `total` is skipped before its speaker is looked up.
   */
  function RawRow(cs: seq<Chunk>, s: int, fps: nat, total: nat): (r: seq<real>)
    requires fps > 0 && forall k :: 0 <= k < |cs| ==> Sound(cs[k])
    ensures |r| == total
    decreases |cs|
  {
    if cs == [] then seq(total, _ => 0.0)
    else
      var prev := RawRow(cs[..|cs| - 1], s, fps, total);
      var c := cs[|cs| - 1];
      if StartFrame(c, fps) < total && c.speakerId == s then WriteChunk(prev, c, fps) else prev
  }

  /** The first chunk, in order, whose speaker-id lookup raises. */
  function FirstUnknownSpeaker(cs: seq<Chunk>, n: int, fps: nat, total: int): Option<int>
  {
    if cs == [] then None
    else if StartFrame(cs[0], fps) < total && !(0 <= cs[0].speakerId < n) then Some(cs[0].speakerId)
    else FirstUnknownSpeaker(cs[1..], n, fps, total)
  }

  // ---------------------------------------------------------------------------
  // Smoothing, normalisation, floor

  /** First-order exponential smoothing, `smoothed[i] = a*raw[i] + (1-a)*smoothed[i-1]`. */
  function Smoothed(raw: seq<real>, alpha: real): (sm: seq<real>)
    requires |raw| >= 1
    ensures |sm| == |raw|
    decreases |raw|
  {
    if |raw| == 1 then raw
    else
      var p := Smoothed(raw[..|raw| - 1], alpha);
      p + [alpha * raw[|raw| - 1] + (1.0 - alpha) * p[|raw| - 2]]
  }

  /** `smoothed / smoothed.max()` when that maximum is positive, else unchanged. */
  function Normalised(sm: seq<real>): (r: seq<real>)
    requires |sm| >= 1
  {
    var m := MaxOf(sm);
    if m > 0.0 then DividedBy(sm, m) else sm
  }

  /** `values / m`, element by element. */
  function DividedBy(v: seq<real>, m: real): (r: seq<real>)
    requires m > 0.0
  {
    seq(|v|, i requires 0 <= i < |v| => v[i] / m)
  }

  /** `np.maximum(values, 0.1)`. */
  function Floored(v: seq<real>): (r: seq<real>)
  {
    seq(|v|, i requires 0 <= i < |v| => if v[i] >= EnergyFloor then v[i] else EnergyFloor)
  }

  /** A speaker's final list: smoothed, normalised, floored. */
  function FinalRow(raw: seq<real>, alpha: real): (r: seq<real>)
    requires |raw| >= 1
  {
    Floored(Normalised(Smoothed(raw, alpha)))
  }

  /** The whole of `build_timeline(num_speakers)` on the recorded chunks and clock. */
  function TimelineOf(cs: seq<Chunk>, clock: real, n: int, fps: nat, alpha: real): Result<Timeline, BuildError>
    requires fps > 0 && AllPlaced(cs, clock)
  {
    if cs == [] then Failure(NoChunks)
    else
      assert Sound(cs[0]) && cs[0].endTime <= clock;
      TotalFramesPositive(clock, fps);
      var total := TotalFrames(clock, fps);
      match FirstUnknownSpeaker(cs, n, fps, total)
      case Some(id) => Failure(UnknownSpeaker(id))
      case None =>
        Success(Timeline(
          FrameTimes(total, fps), total, clock,
          seq(Max(n, 0), s => FinalRow(RawRow(cs, s, fps, total), alpha))))
  }
}
