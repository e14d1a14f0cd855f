/**
 * `ChunkedAudioProcessor`: a running clock and a list of chunk records.
 * `AddChunk` lays each non-empty segment end to end on the clock;
 * `BuildTimeline` resamples every speaker's envelope onto the frame grid,
 * smooths, normalises and floors it, and is proved to return exactly
 * `EnergyTimeline.TimelineOf` of the recorded state.
 */
module ChunkedAudioProcessor {
  import opened Results
  import opened RealMath
  import opened LinearInterp
  import opened EnergyTimeline
  import opened TimelineProperties

  /** A chunk as `add_chunk` records it at the given sample rate. */
  predicate Recorded(c: Chunk, sampleRate: int)
    requires sampleRate > 0
  {
    && c.duration > 0.0
    && c.endTime == c.startTime + c.duration
    && c.rmsTimes == RmsTimes(|c.rms|, sampleRate, c.startTime)
    && forall k :: 0 <= k < |c.rms| ==> 0.0 <= c.rms[k]
  }

  /** The chunks lie end to end from time 0, the last one ending at `clock`. */
  predicate Tiled(cs: seq<Chunk>, clock: real)
  {
    && (cs == [] ==> clock == 0.0)
    && (cs != [] ==> cs[0].startTime == 0.0 && cs[|cs| - 1].endTime == clock)
    && forall k :: 0 <= k < |cs| - 1 ==> cs[k + 1].startTime == cs[k].endTime
  }

  /** The sum of the recorded durations. */
  function SumDurations(cs: seq<Chunk>): real
  {
    if cs == [] then 0.0 else SumDurations(cs[..|cs| - 1]) + cs[|cs| - 1].duration
  }

  /**
   * On tiled chunks whose end is start plus duration, each chunk starts at
   * the sum of the durations before it and the clock is the sum of them all.
   */
  lemma {:induction false} ClockIsTotalDuration(cs: seq<Chunk>, clock: real)
    requires Tiled(cs, clock)
    requires forall k :: 0 <= k < |cs| ==> cs[k].endTime == cs[k].startTime + cs[k].duration
    ensures clock == SumDurations(cs)
    ensures forall k :: 0 <= k < |cs| ==> cs[k].startTime == SumDurations(cs[..k])
    decreases |cs|
  {
    if cs != [] {
      var p := cs[..|cs| - 1];
      var last := cs[|cs| - 1];
      var pClock := if p == [] then 0.0 else p[|p| - 1].endTime;
      assert Tiled(p, pClock);
      ClockIsTotalDuration(p, pClock);
      assert last.startTime == pClock;
      forall k | 0 <= k < |cs| ensures cs[k].startTime == SumDurations(cs[..k]) {
        if k < |p| {
          assert cs[..k] == p[..k];
        } else {
          assert cs[..k] == p;
        }
      }
    }
  }

  class Processor {
    var chunks: seq<Chunk>
    var currentTime: real
    const sampleRate: nat
    const videoFps: nat
    const smoothingAlpha: real

    /** The object invariant: the clock and the chunks agree. */
    predicate Valid()
      reads this
    {
      && sampleRate > 0
      && videoFps > 0
      && Tiled(chunks, currentTime)
      && (forall k :: 0 <= k < |chunks| ==> Recorded(chunks[k], sampleRate))
      && AllPlaced(chunks, currentTime)
    }

    /** `__init__`: no chunks, the clock at 0. */
    constructor (sampleRate: nat := 44100, videoFps: nat := 30, smoothingAlpha: real := 0.2)
      requires sampleRate > 0 && videoFps > 0
      ensures Valid()
      ensures chunks == [] && currentTime == 0.0
      ensures this.sampleRate == sampleRate && this.videoFps == videoFps
      ensures this.smoothingAlpha == smoothingAlpha
    {
      this.chunks := [];
      this.currentTime := 0.0;
      this.sampleRate := sampleRate;
      this.videoFps := videoFps;
      this.smoothingAlpha := smoothingAlpha;
    }

    /**
     * `add_chunk(speaker_id, audio_array)`. `rms` is the RMS envelope of the
     * samples (window 2048, hop 512) as the audio library computes it.
     * An empty sample array is rejected with nothing changed; otherwise one
     * chunk is appended starting at the old clock, and the clock advances by
     * `len(samples) / sample_rate`.
     */
    method AddChunk(speakerId: int, samples: seq<real>, rms: seq<real>) returns (chunk: Option<Chunk>)
      requires Valid()
      requires forall k :: 0 <= k < |rms| ==> 0.0 <= rms[k]
      modifies this
      ensures Valid()
      ensures |samples| == 0 ==> chunk == None && chunks == old(chunks) && currentTime == old(currentTime)
      ensures |samples| > 0 ==>
                var d := |samples| as real / sampleRate as real;
                && chunk == Some(Chunk(speakerId, old(currentTime), old(currentTime) + d, d,
                                       rms, RmsTimes(|rms|, sampleRate, old(currentTime))))
                && chunks == old(chunks) + [chunk.value]
                && currentTime == old(currentTime) + d
    {
      if |samples| == 0 {
        return None;
      }
      var rmsTimes := RmsTimes(|rms|, sampleRate, currentTime);
      var duration := |samples| as real / sampleRate as real;
      var c := Chunk(speakerId, currentTime, currentTime + duration, duration, rms, rmsTimes);
      assert 0.0 <= currentTime by {
        if chunks != [] { assert Sound(chunks[|chunks| - 1]); }
      }
      RmsTimesIncreasing(|rms|, sampleRate, currentTime);
      chunks := chunks + [c];
      currentTime := currentTime + duration;
      return Some(c);
    }

    /**
     * `build_timeline(num_speakers)`: fails when no chunk was added or when a
     * chunk's speaker id is not a key 0..num_speakers-1; otherwise returns the
     * frame grid and one smoothed, normalised, floored array per speaker.
     */
    method BuildTimeline(numSpeakers: int := 5) returns (r: Result<Timeline, BuildError>)
      requires Valid()
      ensures r == TimelineOf(chunks, currentTime, numSpeakers, videoFps, smoothingAlpha)
    {
      r := BuildFrom(chunks, currentTime, numSpeakers, videoFps, smoothingAlpha);
    }
  }

  /**
   * The body of `build_timeline` on the processor's chunks, clock, frame rate
   * and smoothing factor.
   */
  method BuildFrom(chunks: seq<Chunk>, currentTime: real, numSpeakers: int, videoFps: nat, smoothingAlpha: real)
    returns (r: Result<Timeline, BuildError>)
    requires videoFps > 0 && AllPlaced(chunks, currentTime)
    ensures r == TimelineOf(chunks, currentTime, numSpeakers, videoFps, smoothingAlpha)
  {
    if |chunks| == 0 {
      return Failure(NoChunks);
    }
    var fps := videoFps;
    var totalDuration := currentTime;
    assert Sound(chunks[0]) && chunks[0].endTime <= currentTime;
    TotalFramesPositive(totalDuration, fps);
    var totalFrames: nat := Ceil(totalDuration * fps as real);
    var frameTimes := FrameTimes(totalFrames, fps);
    var n := Max(numSpeakers, 0);

    var rows := ZeroRows(n, totalFrames);
    var unknown := WriteChunks(rows, chunks, numSpeakers, fps, totalFrames);
    if unknown.Some? {
      return Failure(UnknownSpeaker(unknown.value));
    }
    var speakers := FinishRows(rows, smoothingAlpha);
    assert speakers == seq(n, s => FinalRow(RawRow(chunks, s, fps, totalFrames), smoothingAlpha));
    r := Success(Timeline(frameTimes, totalFrames, totalDuration, speakers));
  }

  /** `{i: np.zeros(total_frames) for i in range(num_speakers)}`: n distinct zero arrays. */
  method ZeroRows(n: nat, totalFrames: nat) returns (rows: seq<array<real>>)
    ensures |rows| == n
    ensures forall i, j :: 0 <= i < j < n ==> rows[i] != rows[j]
    ensures forall i :: 0 <= i < n ==> fresh(rows[i]) && rows[i].Length == totalFrames
    ensures forall i, f :: 0 <= i < n && 0 <= f < totalFrames ==> rows[i][f] == 0.0
  {
    rows := [];
    while |rows| < n
      invariant |rows| <= n
      invariant forall i, j :: 0 <= i < j < |rows| ==> rows[i] != rows[j]
      invariant forall i :: 0 <= i < |rows| ==> fresh(rows[i]) && rows[i].Length == totalFrames
      invariant forall i, f :: 0 <= i < |rows| && 0 <= f < totalFrames ==> rows[i][f] == 0.0
    {
      var zeros := new real[totalFrames](_ => 0.0);
      rows := rows + [zeros];
    }
  }

  /**
   * The loop over chunks: each chunk starting inside the timeline is looked
   * up by speaker id and written into that speaker's array. Returns the id of
   * the first chunk whose lookup fails, or None with every array holding its
   * speaker's raw energy.
   */
  method WriteChunks(rows: seq<array<real>>, chunks: seq<Chunk>, numSpeakers: int, fps: nat, totalFrames: nat)
    returns (unknown: Option<int>)
    requires fps > 0 && forall k :: 0 <= k < |chunks| ==> Sound(chunks[k])
    requires |rows| == Max(numSpeakers, 0)
    requires forall i, j :: 0 <= i < j < |rows| ==> rows[i] != rows[j]
    requires forall i :: 0 <= i < |rows| ==> rows[i].Length == totalFrames
    requires forall i, f :: 0 <= i < |rows| && 0 <= f < totalFrames ==> rows[i][f] == 0.0
    modifies set i | 0 <= i < |rows| :: rows[i]
    ensures unknown == FirstUnknownSpeaker(chunks, numSpeakers, fps, totalFrames)
    ensures unknown == None ==>
              forall i :: 0 <= i < |rows| ==> rows[i][..] == RawRow(chunks, i, fps, totalFrames)
  {
    var n := |rows|;
    assert chunks[..0] == [];
    var c := 0;
    while c < |chunks|
      invariant 0 <= c <= |chunks|
      invariant forall i :: 0 <= i < n ==> rows[i][..] == RawRow(chunks[..c], i, fps, totalFrames)
      invariant FirstUnknownSpeaker(chunks[..c], numSpeakers, fps, totalFrames) == None
    {
      FirstUnknownSpeakerStep(chunks, c, numSpeakers, fps, totalFrames);
      var missing := WriteChunkAt(rows, chunks, c, numSpeakers, fps, totalFrames);
      if missing.Some? {
        FirstUnknownSpeakerSplit(chunks, c, numSpeakers, fps, totalFrames);
        assert chunks[c..][0] == chunks[c];
        return missing;
      }
      c := c + 1;
    }
    assert chunks[..|chunks|] == chunks;
    return None;
  }

  /**
   * One pass of the chunk loop: skip a chunk starting at or past frame
   * `totalFrames`, fail with its id when the speaker lookup raises, and otherwise
   * write it into its speaker's array.
   */
  method WriteChunkAt(rows: seq<array<real>>, chunks: seq<Chunk>, c: nat, numSpeakers: int, fps: nat, totalFrames: nat)
    returns (missing: Option<int>)
    requires fps > 0 && forall k :: 0 <= k < |chunks| ==> Sound(chunks[k])
    requires c < |chunks| && |rows| == Max(numSpeakers, 0)
    requires forall i, j :: 0 <= i < j < |rows| ==> rows[i] != rows[j]
    requires forall i :: 0 <= i < |rows| ==> rows[i].Length == totalFrames
    requires forall i :: 0 <= i < |rows| ==> rows[i][..] == RawRow(chunks[..c], i, fps, totalFrames)
    modifies set i | 0 <= i < |rows| :: rows[i]
    ensures missing == if StartFrame(chunks[c], fps) < totalFrames && !(0 <= chunks[c].speakerId < numSpeakers)
                       then Some(chunks[c].speakerId) else None
    ensures missing == None ==>
              forall i :: 0 <= i < |rows| ==> rows[i][..] == RawRow(chunks[..c + 1], i, fps, totalFrames)
  {
    var chunk := chunks[c];
    var startFrame := Floor(chunk.startTime * fps as real);
    var endFrame := Min(Ceil(chunk.endTime * fps as real), totalFrames);
    assert startFrame == StartFrame(chunk, fps);
    if startFrame >= totalFrames {
      RawRowSkip(chunks, c, fps, totalFrames);
      return None;
    }
    if !(0 <= chunk.speakerId < numSpeakers) {
      return Some(chunk.speakerId);
    }
    ApplyChunk(rows, chunks, c, fps, startFrame, endFrame, totalFrames);
    return None;
  }

  /**
   * One pass of the chunk loop for a chunk that starts inside the timeline
   * and names a known speaker: afterwards every array holds its speaker's raw
   * energy over the chunks up to and including this one.
   */
  method ApplyChunk(rows: seq<array<real>>, chunks: seq<Chunk>, c: nat, fps: nat,
                    startFrame: int, endFrame: int, totalFrames: nat)
    requires fps > 0 && forall k :: 0 <= k < |chunks| ==> Sound(chunks[k])
    requires c < |chunks| && 0 <= chunks[c].speakerId < |rows|
    requires startFrame == StartFrame(chunks[c], fps) < totalFrames
    requires endFrame == Min(Ceil(chunks[c].endTime * fps as real), totalFrames)
    requires forall i, j :: 0 <= i < j < |rows| ==> rows[i] != rows[j]
    requires forall i :: 0 <= i < |rows| ==> rows[i].Length == totalFrames
    requires forall i :: 0 <= i < |rows| ==> rows[i][..] == RawRow(chunks[..c], i, fps, totalFrames)
    modifies set i | 0 <= i < |rows| :: rows[i]
    ensures forall i :: 0 <= i < |rows| ==> rows[i][..] == RawRow(chunks[..c + 1], i, fps, totalFrames)
  {
    var chunk := chunks[c];
    var row := rows[chunk.speakerId];
    assert Sound(chunk);
    assert chunk.startTime * fps as real >= 0.0;
    assert endFrame == EndFrame(chunk, fps, row.Length);
    label before:
    WriteChunkInto(row, chunk, fps, startFrame, endFrame);
    forall i | 0 <= i < |rows|
      ensures rows[i][..] == RawRow(chunks[..c + 1], i, fps, totalFrames)
    {
      RawRowStep(chunks, c, i, fps, totalFrames);
      if i != chunk.speakerId {
        assert rows[i] != row;
        assert rows[i][..] == old@before(rows[i][..]);
      }
    }
  }

  /** A chunk starting at or past frame `total` leaves every raw row as it was. */
  lemma RawRowSkip(cs: seq<Chunk>, c: nat, fps: nat, total: nat)
    requires fps > 0 && forall k :: 0 <= k < |cs| ==> Sound(cs[k])
    requires c < |cs| && StartFrame(cs[c], fps) >= total
    ensures forall s :: RawRow(cs[..c + 1], s, fps, total) == RawRow(cs[..c], s, fps, total)
  {
    forall s ensures RawRow(cs[..c + 1], s, fps, total) == RawRow(cs[..c], s, fps, total) {
      RawRowStep(cs, c, s, fps, total);
    }
  }

  /** One more chunk changes only its own speaker's raw row, and only when it starts inside the timeline. */
  lemma RawRowStep(cs: seq<Chunk>, c: nat, s: int, fps: nat, total: nat)
    requires fps > 0 && forall k :: 0 <= k < |cs| ==> Sound(cs[k])
    requires c < |cs|
    ensures RawRow(cs[..c + 1], s, fps, total) ==
              if StartFrame(cs[c], fps) < total && cs[c].speakerId == s
              then WriteChunk(RawRow(cs[..c], s, fps, total), cs[c], fps)
              else RawRow(cs[..c], s, fps, total)
  {
    assert cs[..c + 1][..c] == cs[..c];
    assert cs[..c + 1][c] == cs[c];
  }

  /** The loop over speakers: smooth, normalise and floor each array. */
  method FinishRows(rows: seq<array<real>>, alpha: real) returns (speakers: seq<seq<real>>)
    requires forall i :: 0 <= i < |rows| ==> rows[i].Length >= 1
    ensures |speakers| == |rows|
    ensures forall i :: 0 <= i < |rows| ==> speakers[i] == FinalRow(rows[i][..], alpha)
  {
    speakers := [];
    var s := 0;
    while s < |rows|
      invariant 0 <= s <= |rows| && |speakers| == s
      invariant forall i :: 0 <= i < s ==> speakers[i] == FinalRow(rows[i][..], alpha)
    {
      var normalized := FinishRow(rows[s], alpha);
      speakers := speakers + [normalized];
      s := s + 1;
    }
  }

  /** Smooth one speaker's array, normalise it by its maximum when positive, floor it at 0.1. */
  method FinishRow(energy: array<real>, alpha: real) returns (normalized: seq<real>)
    requires energy.Length >= 1
    ensures normalized == FinalRow(energy[..], alpha)
  {
    var smoothed := Smooth(energy, alpha);
    normalized := Normalised(smoothed[..]);
    normalized := Floored(normalized);
  }

  /**
   * The body of the chunk loop once the chunk is known to start inside the
   * timeline: interpolate the envelope onto the frames `[startFrame, endFrame)`,
   * or, for an envelope of at most one sample, write that sample (or 0) at the
   * start frame only.
   */
  method WriteChunkInto(row: array<real>, c: Chunk, fps: nat, startFrame: int, endFrame: int)
    requires fps > 0 && Sound(c)
    requires startFrame == StartFrame(c, fps) && endFrame == EndFrame(c, fps, row.Length)
    requires 0 <= startFrame < row.Length
    modifies row
    ensures row[..] == WriteChunk(old(row[..]), c, fps)
  {
    StartBeforeEnd(c, fps);
    if |c.rms| > 1 {
      var f := startFrame;
      while f < endFrame
        invariant startFrame <= f <= endFrame
        invariant forall j :: 0 <= j < row.Length ==>
                    row[j] == if startFrame <= j < f then ChunkEnergy(c, fps, j) else old(row[j])
      {
        row[f] := Interp(c.rmsTimes, c.rms, FrameTime(f, fps));
        f := f + 1;
      }
    } else {
      if startFrame < row.Length {
        row[startFrame] := if |c.rms| > 0 then c.rms[0] else 0.0;
      }
    }
    assert forall j :: 0 <= j < row.Length ==> row[..][j] == WriteChunk(old(row[..]), c, fps)[j];
  }

  /** The smoothing loop: `smoothed[0] = energy[0]`, then the recurrence frame by frame. */
  method Smooth(energy: array<real>, alpha: real) returns (smoothed: array<real>)
    requires energy.Length >= 1
    ensures smoothed[..] == Smoothed(energy[..], alpha)
  {
    smoothed := new real[energy.Length](_ => 0.0);
    smoothed[0] := energy[0];
    assert energy[..1] == [energy[0]];
    var i := 1;
    while i < energy.Length
      invariant 1 <= i <= energy.Length && smoothed.Length == energy.Length
      invariant smoothed[..i] == Smoothed(energy[..i], alpha)
    {
      ghost var done := smoothed[..i];
      smoothed[i] := alpha * energy[i] + (1.0 - alpha) * smoothed[i - 1];
      assert smoothed[..i] == done;
      var upTo := energy[..i + 1];
      assert upTo[..i] == energy[..i];
      SmoothedUnfold(upTo, alpha);
      assert Smoothed(upTo, alpha)[..i] == done;
      assert done[i - 1] == smoothed[i - 1];
      assert Smoothed(upTo, alpha)[i] == smoothed[i];
      assert smoothed[..i + 1] == smoothed[..i] + [smoothed[i]];
      assert Smoothed(upTo, alpha) == Smoothed(upTo, alpha)[..i] + [Smoothed(upTo, alpha)[i]];
      i := i + 1;
    }
    assert energy[..energy.Length] == energy[..];
    assert smoothed[..energy.Length] == smoothed[..];
  }

  /** Extending a clean prefix by one chunk: the lookup fails exactly when that chunk's does. */
  lemma FirstUnknownSpeakerStep(cs: seq<Chunk>, c: nat, n: int, fps: nat, total: int)
    requires c < |cs|
    requires FirstUnknownSpeaker(cs[..c], n, fps, total) == None
    ensures FirstUnknownSpeaker(cs[..c + 1], n, fps, total) ==
              if StartFrame(cs[c], fps) < total && !(0 <= cs[c].speakerId < n) then Some(cs[c].speakerId) else None
  {
    assert cs[..c + 1][..c] == cs[..c];
    FirstUnknownSpeakerSplit(cs[..c + 1], c, n, fps, total);
    assert cs[..c + 1][c..] == [cs[c]];
    assert [cs[c]][1..] == [];
  }

  /** Past a clean prefix `cs[..c]`, the first failing lookup in `cs` is the first one in `cs[c..]`. */
  lemma {:induction false} FirstUnknownSpeakerSplit(cs: seq<Chunk>, c: nat, n: int, fps: nat, total: int)
    requires c < |cs|
    requires FirstUnknownSpeaker(cs[..c], n, fps, total) == None
    ensures FirstUnknownSpeaker(cs, n, fps, total) == FirstUnknownSpeaker(cs[c..], n, fps, total)
    decreases c
  {
    if c > 0 {
      assert cs[..c][0] == cs[0];
      assert cs[..c][1..] == cs[1..][..c - 1];
      FirstUnknownSpeakerSplit(cs[1..], c - 1, n, fps, total);
      assert cs[1..][c - 1..] == cs[c..];
    }
  }
}
