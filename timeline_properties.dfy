/** What the timeline `build_timeline` produces is proved to satisfy. */
module TimelineProperties {
  import opened Results
  import opened RealMath
  import opened LinearInterp
  import opened EnergyTimeline

  // ---------------------------------------------------------------------------
  // Smoothing

  /** Smoothing is causal: the first k smoothed values depend only on the first k raw ones. */
  lemma {:induction false} SmoothedPrefix(raw: seq<real>, alpha: real, k: nat)
    requires 1 <= k <= |raw|
    ensures Smoothed(raw, alpha)[..k] == Smoothed(raw[..k], alpha)
    decreases |raw|
  {
    if k < |raw| {
      SmoothedPrefix(raw[..|raw| - 1], alpha, k);
      assert raw[..|raw| - 1][..k] == raw[..k];
    } else {
      assert raw[..k] == raw;
    }
  }

  /** One step of the definition: the last smoothed value extends the smoothed prefix. */
  lemma SmoothedUnfold(raw: seq<real>, alpha: real)
    requires |raw| >= 2
    ensures Smoothed(raw, alpha)[..|raw| - 1] == Smoothed(raw[..|raw| - 1], alpha)
    ensures Smoothed(raw, alpha)[|raw| - 1] ==
              alpha * raw[|raw| - 1] + (1.0 - alpha) * Smoothed(raw[..|raw| - 1], alpha)[|raw| - 2]
  {
    SmoothedPrefix(raw, alpha, |raw| - 1);
  }

  /** The loop's recurrence: `smoothed[0] == raw[0]` and each later value mixes raw[i] with the previous one. */
  lemma SmoothedStep(raw: seq<real>, alpha: real, i: nat)
    requires 1 <= i < |raw|
    ensures Smoothed(raw, alpha)[0] == raw[0]
    ensures Smoothed(raw, alpha)[i] == alpha * raw[i] + (1.0 - alpha) * Smoothed(raw, alpha)[i - 1]
  {
    SmoothedPrefix(raw, alpha, 1);
    assert raw[..1] == [raw[0]];
    SmoothedPrefix(raw, alpha, i + 1);
    var q := raw[..i + 1];
    assert q[..i] == raw[..i];
    assert Smoothed(raw, alpha)[i] == Smoothed(raw, alpha)[..i + 1][i];
    assert Smoothed(raw, alpha)[i - 1] == Smoothed(raw, alpha)[..i + 1][i - 1];
  }

  /** Input in [0, m] gives smoothed values in [0, m] when 0 <= alpha <= 1. */
  lemma {:induction false} SmoothedBelow(raw: seq<real>, alpha: real, m: real)
    requires |raw| >= 1 && 0.0 <= alpha <= 1.0
    requires forall i :: 0 <= i < |raw| ==> 0.0 <= raw[i] <= m
    ensures forall i :: 0 <= i < |raw| ==> 0.0 <= Smoothed(raw, alpha)[i] <= m
    decreases |raw|
  {
    var n := |raw|;
    if n > 1 {
      var pre := raw[..n - 1];
      SmoothedBelow(pre, alpha, m);
      forall i | 0 <= i < n
        ensures 0.0 <= Smoothed(raw, alpha)[i] <= m
      {
        if i < n - 1 {
          assert Smoothed(raw, alpha)[i] == Smoothed(pre, alpha)[i];
        } else {
          var prev := Smoothed(pre, alpha)[n - 2];
          assert Smoothed(raw, alpha)[n - 1] == alpha * raw[n - 1] + (1.0 - alpha) * prev;
          Mix(alpha, raw[n - 1], prev, m);
        }
      }
    }
  }

  /**
   * With 0 <= alpha <= 1 and non-negative input, every smoothed value lies
   * between 0 and the largest raw value seen so far: the filter never overshoots.
   */
  lemma SmoothedBounded(raw: seq<real>, alpha: real, i: nat)
    requires i < |raw| && 0.0 <= alpha <= 1.0
    requires forall k :: 0 <= k < |raw| ==> 0.0 <= raw[k]
    ensures 0.0 <= Smoothed(raw, alpha)[i] <= MaxOf(raw[..i + 1])
  {
    var pre := raw[..i + 1];
    SmoothedBelow(pre, alpha, MaxOf(pre));
    SmoothedPrefix(raw, alpha, i + 1);
    assert Smoothed(raw, alpha)[i] == Smoothed(raw, alpha)[..i + 1][i];
  }

  /** A convex mix of two values in [0, m] stays in [0, m]. */
  lemma Mix(alpha: real, a: real, b: real, m: real)
    requires 0.0 <= alpha <= 1.0 && 0.0 <= a <= m && 0.0 <= b <= m
    ensures 0.0 <= alpha * a + (1.0 - alpha) * b <= m
  {
    ScaleMonotone(alpha, a, m);
    ScaleMonotone(1.0 - alpha, b, m);
    ScaleNonNegative(alpha, a);
    ScaleNonNegative(1.0 - alpha, b);
    Complement(alpha, m);
    SumBetween(alpha * a, (1.0 - alpha) * b, alpha * m, (1.0 - alpha) * m, m);
  }

  /** Constant input stays exactly constant: smoothing a steady level returns that level. */
  lemma {:induction false} SmoothedConstant(raw: seq<real>, alpha: real, c: real)
    requires |raw| >= 1
    requires forall i :: 0 <= i < |raw| ==> raw[i] == c
    ensures forall i :: 0 <= i < |raw| ==> Smoothed(raw, alpha)[i] == c
    decreases |raw|
  {
    if |raw| > 1 {
      SmoothedConstant(raw[..|raw| - 1], alpha, c);
    }
  }

  // ---------------------------------------------------------------------------
  // Normalisation and floor

  /** Every final energy lies in [0.1, 1.0], whatever the raw values. */
  lemma FinalRowRange(raw: seq<real>, alpha: real)
    requires |raw| >= 1
    ensures |FinalRow(raw, alpha)| == |raw|
    ensures forall i :: 0 <= i < |raw| ==> EnergyFloor <= FinalRow(raw, alpha)[i] <= 1.0
  {
    var sm := Smoothed(raw, alpha);
    var m := MaxOf(sm);
    var nm := Normalised(sm);
    forall i | 0 <= i < |raw| ensures nm[i] <= 1.0 {
      if m > 0.0 {
        assert sm[i] <= m;
        assert nm[i] == sm[i] / m;
      }
    }
  }

  /** When the smoothed maximum is positive, the loudest frame ends at exactly 1.0. */
  lemma FinalRowPeak(raw: seq<real>, alpha: real)
    requires |raw| >= 1 && MaxOf(Smoothed(raw, alpha)) > 0.0
    ensures exists i :: 0 <= i < |raw| && FinalRow(raw, alpha)[i] == 1.0
  {
    var sm := Smoothed(raw, alpha);
    var m := MaxOf(sm);
    var j :| 0 <= j < |sm| && sm[j] == m;
    DivSelf(m);
    assert Normalised(sm) == DividedBy(sm, m);
    assert Normalised(sm)[j] == 1.0;
    assert FinalRow(raw, alpha)[j] == Floored(Normalised(sm))[j] == 1.0;
  }

  lemma DivSelf(x: real)
    requires x > 0.0
    ensures x / x == 1.0
  {
  }

  /** A speaker whose raw energy is all zero ends with every value exactly 0.1. */
  lemma FinalRowSilent(raw: seq<real>, alpha: real)
    requires |raw| >= 1 && forall i :: 0 <= i < |raw| ==> raw[i] == 0.0
    ensures forall i :: 0 <= i < |raw| ==> FinalRow(raw, alpha)[i] == EnergyFloor
  {
    SmoothedConstant(raw, alpha, 0.0);
    var sm := Smoothed(raw, alpha);
    var j :| 0 <= j < |sm| && sm[j] == MaxOf(sm);
    assert Normalised(sm) == sm;
  }

  // ---------------------------------------------------------------------------
  // Raw per-speaker arrays

  /** A frame that no chunk of speaker s writes stays at the initial zero. */
  lemma {:induction false} RawRowUntouched(cs: seq<Chunk>, s: int, fps: nat, total: nat, f: nat)
    requires fps > 0 && (forall k :: 0 <= k < |cs| ==> Sound(cs[k])) && f < total
    requires forall k :: 0 <= k < |cs| && cs[k].speakerId == s ==> !Covers(cs[k], fps, total, f)
    ensures RawRow(cs, s, fps, total)[f] == 0.0
    decreases |cs|
  {
    if cs != [] {
      RawRowUntouched(cs[..|cs| - 1], s, fps, total, f);
    }
  }

  /**
   * Later chunks overwrite shared frames: frame f of speaker s holds the value
   * written by the last chunk of s that covers f.
   */
  lemma {:induction false} RawRowLastWriter(cs: seq<Chunk>, s: int, fps: nat, total: nat, f: nat, k: nat)
    requires fps > 0 && (forall j :: 0 <= j < |cs| ==> Sound(cs[j])) && f < total
    requires k < |cs| && cs[k].speakerId == s && Covers(cs[k], fps, total, f)
    requires forall j :: k < j < |cs| && cs[j].speakerId == s ==> !Covers(cs[j], fps, total, f)
    ensures RawRow(cs, s, fps, total)[f] == ChunkEnergy(cs[k], fps, f)
    decreases |cs|
  {
    if k < |cs| - 1 {
      RawRowLastWriter(cs[..|cs| - 1], s, fps, total, f, k);
    }
  }

  /** A speaker no chunk belongs to keeps an all-zero array. */
  lemma RawRowSilent(cs: seq<Chunk>, s: int, fps: nat, total: nat)
    requires fps > 0 && forall k :: 0 <= k < |cs| ==> Sound(cs[k])
    requires forall k :: 0 <= k < |cs| ==> cs[k].speakerId != s
    ensures forall f :: 0 <= f < total ==> RawRow(cs, s, fps, total)[f] == 0.0
  {
    forall f | 0 <= f < total ensures RawRow(cs, s, fps, total)[f] == 0.0 {
      RawRowUntouched(cs, s, fps, total, f);
    }
  }

  /** Non-negative envelopes give a non-negative raw array. */
  lemma {:induction false} RawRowNonNegative(cs: seq<Chunk>, s: int, fps: nat, total: nat)
    requires fps > 0 && forall k :: 0 <= k < |cs| ==> Sound(cs[k])
    requires forall k, j :: 0 <= k < |cs| && 0 <= j < |cs[k].rms| ==> 0.0 <= cs[k].rms[j]
    ensures forall f :: 0 <= f < total ==> 0.0 <= RawRow(cs, s, fps, total)[f]
    decreases |cs|
  {
    if cs != [] {
      RawRowNonNegative(cs[..|cs| - 1], s, fps, total);
      var c := cs[|cs| - 1];
      forall f | 0 <= f < total && Covers(c, fps, total, f)
        ensures 0.0 <= ChunkEnergy(c, fps, f)
      {
        if |c.rms| > 1 {
          InterpNonNegative(c.rmsTimes, c.rms, FrameTime(f, fps));
        }
      }
    }
  }

  // ---------------------------------------------------------------------------
  // Speaker-id lookup failure

  /** With no chunk skipped, a lookup fails exactly when some chunk's speaker id is out of range. */
  lemma {:induction false} UnknownSpeakerIff(cs: seq<Chunk>, n: int, fps: nat, total: int)
    requires forall k :: 0 <= k < |cs| ==> StartFrame(cs[k], fps) < total
    ensures FirstUnknownSpeaker(cs, n, fps, total).Some? <==>
              exists k :: 0 <= k < |cs| && !(0 <= cs[k].speakerId < n)
    ensures FirstUnknownSpeaker(cs, n, fps, total).Some? ==>
              exists k :: 0 <= k < |cs| && cs[k].speakerId == FirstUnknownSpeaker(cs, n, fps, total).value
                          && !(0 <= cs[k].speakerId < n)
    decreases |cs|
  {
    if cs != [] {
      UnknownSpeakerIff(cs[1..], n, fps, total);
      if exists k :: 0 <= k < |cs| && !(0 <= cs[k].speakerId < n) {
        var k :| 0 <= k < |cs| && !(0 <= cs[k].speakerId < n);
        if k > 0 { assert cs[1..][k - 1] == cs[k]; }
      }
      if FirstUnknownSpeaker(cs, n, fps, total).Some? && (0 <= cs[0].speakerId < n) {
        var k :| 0 <= k < |cs[1..]| && cs[1..][k].speakerId == FirstUnknownSpeaker(cs[1..], n, fps, total).value
                 && !(0 <= cs[1..][k].speakerId < n);
        assert cs[k + 1] == cs[1..][k];
      }
    }
  }

  // ---------------------------------------------------------------------------
  // The timeline

  /**
   * `build_timeline` fails exactly when no chunk was added (ValueError) or a
   * chunk names a speaker outside 0..num_speakers-1 (KeyError).
   */
  lemma TimelineFailure(cs: seq<Chunk>, clock: real, n: int, fps: nat, alpha: real)
    requires fps > 0 && AllPlaced(cs, clock)
    ensures TimelineOf(cs, clock, n, fps, alpha) == Failure(NoChunks) <==> cs == []
    ensures TimelineOf(cs, clock, n, fps, alpha).Failure? <==>
              cs == [] || exists k :: 0 <= k < |cs| && !(0 <= cs[k].speakerId < n)
    ensures TimelineOf(cs, clock, n, fps, alpha).Failure? && cs != [] ==>
              exists k :: 0 <= k < |cs| && !(0 <= cs[k].speakerId < n)
                          && TimelineOf(cs, clock, n, fps, alpha).error == UnknownSpeaker(cs[k].speakerId)
  {
    if cs != [] {
      var total := TotalFrames(clock, fps);
      forall k | 0 <= k < |cs| ensures StartFrame(cs[k], fps) < total {
        StartFrameInside(cs[k], fps, clock);
      }
      UnknownSpeakerIff(cs, n, fps, total);
    }
  }

  /**
   * A successful timeline has `ceil(duration * fps) >= 1` frames, frame i at
   * time i/fps, the clock as its duration and one array of that length for
   * each speaker 0..num_speakers-1.
   */
  lemma TimelineShape(cs: seq<Chunk>, clock: real, n: int, fps: nat, alpha: real)
    requires fps > 0 && AllPlaced(cs, clock)
    requires TimelineOf(cs, clock, n, fps, alpha).Success?
    ensures var t := TimelineOf(cs, clock, n, fps, alpha).value;
            && t.totalFrames == TotalFrames(clock, fps) >= 1
            && t.totalDuration == clock
            && |t.frameTimes| == t.totalFrames
            && (forall i :: 0 <= i < |t.frameTimes| ==> t.frameTimes[i] * fps as real == i as real)
            && |t.speakers| == Max(n, 0)
            && forall s :: 0 <= s < |t.speakers| ==> |t.speakers[s]| == t.totalFrames
  {
    var t := TimelineOf(cs, clock, n, fps, alpha).value;
    forall i | 0 <= i < |t.frameTimes| ensures t.frameTimes[i] * fps as real == i as real {
      FrameTimeAt(i, fps);
    }
    forall s | 0 <= s < |t.speakers| ensures |t.speakers[s]| == t.totalFrames {
      FinalRowRange(RawRow(cs, s, fps, t.totalFrames), alpha);
    }
  }

  /** Every energy in a successful timeline lies in [0.1, 1.0]. */
  lemma TimelineEnergyRange(cs: seq<Chunk>, clock: real, n: int, fps: nat, alpha: real)
    requires fps > 0 && AllPlaced(cs, clock)
    requires TimelineOf(cs, clock, n, fps, alpha).Success?
    ensures var t := TimelineOf(cs, clock, n, fps, alpha).value;
            forall s, f :: 0 <= s < |t.speakers| && 0 <= f < |t.speakers[s]| ==>
              EnergyFloor <= t.speakers[s][f] <= 1.0
  {
    var t := TimelineOf(cs, clock, n, fps, alpha).value;
    forall s | 0 <= s < |t.speakers|
      ensures forall f :: 0 <= f < |t.speakers[s]| ==> EnergyFloor <= t.speakers[s][f] <= 1.0
    {
      FinalRowRange(RawRow(cs, s, fps, t.totalFrames), alpha);
    }
  }

  /** A speaker id in range with no chunks ends with every frame at exactly 0.1. */
  lemma TimelineSilentSpeaker(cs: seq<Chunk>, clock: real, n: int, fps: nat, alpha: real, s: int)
    requires fps > 0 && AllPlaced(cs, clock)
    requires TimelineOf(cs, clock, n, fps, alpha).Success? && 0 <= s < n
    requires forall k :: 0 <= k < |cs| ==> cs[k].speakerId != s
    ensures var t := TimelineOf(cs, clock, n, fps, alpha).value;
            forall f :: 0 <= f < |t.speakers[s]| ==> t.speakers[s][f] == EnergyFloor
  {
    var t := TimelineOf(cs, clock, n, fps, alpha).value;
    var raw := RawRow(cs, s, fps, t.totalFrames);
    RawRowSilent(cs, s, fps, t.totalFrames);
    FinalRowSilent(raw, alpha);
  }

  /**
   * A speaker key whose smoothed raw energy has a positive maximum reaches
   * exactly 1.0 in some frame of the built timeline.
   */
  lemma TimelinePeak(cs: seq<Chunk>, clock: real, n: int, fps: nat, alpha: real, s: int)
    requires fps > 0 && AllPlaced(cs, clock)
    requires TimelineOf(cs, clock, n, fps, alpha).Success? && 0 <= s < n
    requires MaxOf(Smoothed(RawRow(cs, s, fps, TotalFrames(clock, fps)), alpha)) > 0.0
    ensures var t := TimelineOf(cs, clock, n, fps, alpha).value;
            exists f :: 0 <= f < |t.speakers[s]| && t.speakers[s][f] == 1.0
  {
    var t := TimelineOf(cs, clock, n, fps, alpha).value;
    var raw := RawRow(cs, s, fps, TotalFrames(clock, fps));
    assert t.speakers[s] == FinalRow(raw, alpha);
    FinalRowPeak(raw, alpha);
  }
}
