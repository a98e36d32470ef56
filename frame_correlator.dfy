/**
 * The frame path of the clip locator: every step-th frame of both videos is
 * decoded into a fixed-length descriptor (sampling stops at the first frame
 * that cannot be read), a window as long as the sampled clip slides over the
 * sampled full video, each window is scored by the mean per-frame similarity,
 * and the first best window, converted back into source frames and then
 * seconds, gives the start time.
 */
module FrameCorrelator {
  import opened Outcomes
  import opened Numeric

  /** A frame reduced to its grayscale, resized, flattened pixel intensities. */
  type Descriptor = seq<real>

  /**
   * An opened video as the decoder reports it: its frame rate, its frame
   * count, and the result of seeking to frame i and reading it (None when the
   * read fails).
   */
  datatype Video = Video(fps: real, frameCount: int, read: nat -> Option<Descriptor>)

  /** What the frame path reports: no window to compare, or the located interval. */
  datatype Localisation = NoMatch | Found(span: Interval)

  /**
   * The descriptors read at frames i, i + step, i + 2 * step, ... below count,
   * up to (not including) the first frame that cannot be read.
   */
  function SampledFrom(read: nat -> Option<Descriptor>, count: int, step: nat, i: nat): seq<Descriptor>
    requires step >= 1
    decreases if i < count then count - i else 0
  {
    if i >= count then []
    else
      match read(i)
      case None => []
      case Some(d) => [d] + SampledFrom(read, count, step, i + step)
  }

  /** The sampled descriptors of a video, from frame 0. */
  function Sampled(read: nat -> Option<Descriptor>, count: int, step: nat): seq<Descriptor>
    requires step >= 1
  {
    SampledFrom(read, count, step, 0)
  }

  /** How many of the frames i, i + step, ... lie below count: the length of the frame range. */
  function SlotsFrom(count: int, step: nat, i: nat): nat
    requires step >= 1
    decreases if i < count then count - i else 0
  {
    if i >= count then 0 else 1 + SlotsFrom(count, step, i + step)
  }

  /**
   * The frame range from i has ceil((count - i) / step) slots: the last slot
   * lies below count and one more step would reach or pass it.
   */
  lemma {:induction false} SlotsFromBounds(count: int, step: nat, i: nat)
    requires step >= 1
    ensures i >= count ==> SlotsFrom(count, step, i) == 0
    ensures i < count ==>
      && SlotsFrom(count, step, i) >= 1
      && i + (SlotsFrom(count, step, i) - 1) * step < count <= i + SlotsFrom(count, step, i) * step
    decreases if i < count then count - i else 0
  {
    if i < count {
      var rest := SlotsFrom(count, step, i + step);
      SlotsFromBounds(count, step, i + step);
      ShiftByStep(i, rest, step);
      ShiftByStep(i, rest + 1, step);
    }
  }

  /** Moving the origin one step on and the index one back names the same frame. */
  lemma ShiftByStep(i: int, j: int, step: int)
    ensures i + j * step == (i + step) + (j - 1) * step
  {
  }

  /**
   * Sampling from frame i reads the frames i + j * step in order: the j-th
   * descriptor is the one read at i + j * step, no more descriptors come out
   * than the range has slots, and when fewer come out the read right after
   * the last one failed.
   */
  lemma {:induction false} SampledFromShape(read: nat -> Option<Descriptor>, count: int, step: nat, i: nat)
    requires step >= 1
    ensures |SampledFrom(read, count, step, i)| <= SlotsFrom(count, step, i)
    ensures forall j :: 0 <= j < |SampledFrom(read, count, step, i)| ==>
      i + j * step < count && read(i + j * step) == Some(SampledFrom(read, count, step, i)[j])
    ensures |SampledFrom(read, count, step, i)| < SlotsFrom(count, step, i) ==>
      read(i + |SampledFrom(read, count, step, i)| * step) == None
    decreases if i < count then count - i else 0
  {
    if i < count && read(i).Some? {
      var fr := SampledFrom(read, count, step, i);
      var rest := SampledFrom(read, count, step, i + step);
      SampledFromShape(read, count, step, i + step);
      assert fr == [read(i).value] + rest;
      forall j | 0 <= j < |fr|
        ensures i + j * step < count && read(i + j * step) == Some(fr[j])
      {
        if j > 0 {
          ShiftByStep(i, j, step);
          assert fr[j] == rest[j - 1];
        }
      }
      ShiftByStep(i, |fr|, step);
    }
  }

  /**
   * The sampled list of a video: at most ceil(count / step) descriptors
   * (the number of slots of the frame range), the j-th read at frame
   * j * step, and, whenever the list is shorter than that, the read after
   * its last descriptor failed; so when every read succeeds the list fills
   * every slot.
   */
  lemma SampledShape(read: nat -> Option<Descriptor>, count: int, step: nat)
    requires step >= 1
    ensures var fr := Sampled(read, count, step);
      var slots := SlotsFrom(count, step, 0);
      && (count <= 0 ==> slots == 0)
      && (count > 0 ==> (slots - 1) * step < count <= slots * step)
      && |fr| <= slots
      && (forall j :: 0 <= j < |fr| ==> j * step < count && read(j * step) == Some(fr[j]))
      && (|fr| < slots ==> read(|fr| * step) == None)
      && ((forall j :: 0 <= j < slots ==> read(j * step).Some?) ==> |fr| == slots)
  {
    SampledFromShape(read, count, step, 0);
    SlotsFromBounds(count, step, 0);
  }

  /**
   * Decodes every step-th frame of a video, in increasing frame order, and
   * stops at the first frame that cannot be read.
   */
  method SampleFrames(video: Video, step: nat) returns (frames: seq<Descriptor>)
    requires step >= 1
    ensures frames == Sampled(video.read, video.frameCount, step)
  {
    frames := [];
    var i: nat := 0;
    while i < video.frameCount
      invariant frames + SampledFrom(video.read, video.frameCount, step, i) == Sampled(video.read, video.frameCount, step)
      decreases video.frameCount - i
    {
      var frame := video.read(i);
      if frame.None? {
        break;
      }
      assert SampledFrom(video.read, video.frameCount, step, i) == [frame.value] + SampledFrom(video.read, video.frameCount, step, i + step);
      frames := frames + [frame.value];
      i := i + step;
    }
  }

  /** Number of window positions: every start from 0 to M - W. */
  function WindowCount(m: nat, w: nat): nat
  {
    if m >= w then m - w + 1 else 0
  }

  /** The similarities of the aligned pairs (window frame j, clip frame j). */
  function PairSimilarities(window: seq<Descriptor>, clip: seq<Descriptor>, sim: (Descriptor, Descriptor) -> real): (r: seq<real>)
    requires |window| == |clip|
    ensures |r| == |clip|
  {
    seq(|clip|, j requires 0 <= j < |clip| => sim(window[j], clip[j]))
  }

  /** The score of the window starting at full frame i: the mean similarity of its aligned pairs. */
  function WindowScore(full: seq<Descriptor>, clip: seq<Descriptor>, sim: (Descriptor, Descriptor) -> real, i: nat): real
    requires 1 <= |clip| && i + |clip| <= |full|
  {
    Mean(PairSimilarities(full[i..i + |clip|], clip, sim))
  }

  /** The scores of all window positions, in order of start index. */
  function WindowScores(full: seq<Descriptor>, clip: seq<Descriptor>, sim: (Descriptor, Descriptor) -> real): (r: seq<real>)
    requires 1 <= |clip|
    ensures |r| == WindowCount(|full|, |clip|)
  {
    seq(WindowCount(|full|, |clip|), i requires 0 <= i < WindowCount(|full|, |clip|) => WindowScore(full, clip, sim, i))
  }

  /**
   * Scores every window position: for each start i, the similarities of
   * (full[i + j], clip[j]) for every j are collected and averaged.
   */
  method ScoreWindows(full: seq<Descriptor>, clip: seq<Descriptor>, sim: (Descriptor, Descriptor) -> real) returns (scores: seq<real>)
    requires 1 <= |clip|
    ensures |scores| == WindowCount(|full|, |clip|)
    ensures forall i :: 0 <= i < |scores| ==> scores[i] == Mean(PairSimilarities(full[i..i + |clip|], clip, sim))
  {
    var w := |clip|;
    var n := WindowCount(|full|, w);
    scores := [];
    var i := 0;
    while i < n
      invariant 0 <= i <= n
      invariant |scores| == i
      invariant forall k :: 0 <= k < i ==> scores[k] == WindowScore(full, clip, sim, k)
    {
      var window := full[i..i + w];
      var correlations := [];
      var j := 0;
      while j < w
        invariant 0 <= j <= w
        invariant correlations == PairSimilarities(window, clip, sim)[..j]
      {
        correlations := correlations + [sim(window[j], clip[j])];
        j := j + 1;
      }
      assert correlations == PairSimilarities(window, clip, sim);
      scores := scores + [Mean(correlations)];
      i := i + 1;
    }
  }

  /** Converts a window index into seconds: index * step source frames at fps frames per second. */
  function WindowToSeconds(index: nat, step: nat, fps: real): (t: real)
    requires fps > 0.0
    ensures t >= 0.0
    ensures t * fps == (index * step) as real
  {
    (index * step) as real / fps
  }

  /**
   * The frame path's result on sampled descriptors: no match when there is
   * no clip descriptor or no window position; otherwise the first best
   * window gives the start time, and the end time adds the clip's own
   * playing time, clipFrameCount / clipFps.
   */
  function Localise(fullFrames: seq<Descriptor>, clipFrames: seq<Descriptor>, sim: (Descriptor, Descriptor) -> real,
                    step: nat, fullFps: real, clipFrameCount: int, clipFps: real): (r: Localisation)
    requires fullFps > 0.0 && clipFps > 0.0
    ensures r.Found? ==> 0.0 <= r.span.startTime
    ensures r.Found? ==> r.span.endTime - r.span.startTime == clipFrameCount as real / clipFps
    ensures r.Found? && clipFrameCount >= 0 ==> r.span.startTime <= r.span.endTime
  {
    if |clipFrames| == 0 then NoMatch
    else
      var scores := WindowScores(fullFrames, clipFrames, sim);
      if |scores| == 0 then NoMatch
      else
        var start := WindowToSeconds(ArgMax(scores), step, fullFps);
        Found(Interval(start, start + clipFrameCount as real / clipFps))
  }

  /**
   * Locates the clip in the full video by its frames. Both videos are
   * sampled every step frames; the sampled clip is slid over the sampled
   * full video and the first best-scoring window is reported in seconds.
   */
  method FrameCrossCorrelation(full: Video, clip: Video, step: nat, sim: (Descriptor, Descriptor) -> real) returns (r: Localisation)
    requires step >= 1 && full.fps > 0.0 && clip.fps > 0.0
    ensures r == Localise(Sampled(full.read, full.frameCount, step), Sampled(clip.read, clip.frameCount, step),
                          sim, step, full.fps, clip.frameCount, clip.fps)
  {
    var fullFrames := SampleFrames(full, step);
    var clipFrames := SampleFrames(clip, step);
    if |clipFrames| == 0 {
      return NoMatch;
    }
    var scores := ScoreWindows(fullFrames, clipFrames, sim);
    assert scores == WindowScores(fullFrames, clipFrames, sim);
    if |scores| == 0 {
      return NoMatch;
    }
    var bestIdx := ArgMax(scores);
    var startTime := WindowToSeconds(bestIdx, step, full.fps);
    var endTime := startTime + clip.frameCount as real / clip.fps;
    r := Found(Interval(startTime, endTime));
  }

  /** There is no match exactly when no clip frame was sampled or the sampled clip is longer than the sampled full video. */
  lemma LocaliseNoMatchIff(fullFrames: seq<Descriptor>, clipFrames: seq<Descriptor>, sim: (Descriptor, Descriptor) -> real,
                           step: nat, fullFps: real, clipFrameCount: int, clipFps: real)
    requires fullFps > 0.0 && clipFps > 0.0
    ensures Localise(fullFrames, clipFrames, sim, step, fullFps, clipFrameCount, clipFps).NoMatch?
      <==> |clipFrames| == 0 || |clipFrames| > |fullFrames|
  {
  }

  /**
   * A match starts at the first best-scoring window, converted to seconds:
   * the window index lies in 0 .. M - W, and start * fullFps is that index
   * times step, the source frame the window starts at.
   */
  lemma LocaliseStartsAtFirstBestWindow(fullFrames: seq<Descriptor>, clipFrames: seq<Descriptor>, sim: (Descriptor, Descriptor) -> real,
                                        step: nat, fullFps: real, clipFrameCount: int, clipFps: real)
    requires fullFps > 0.0 && clipFps > 0.0
    requires Localise(fullFrames, clipFrames, sim, step, fullFps, clipFrameCount, clipFps).Found?
    ensures 1 <= |clipFrames| <= |fullFrames|
    ensures var scores := WindowScores(fullFrames, clipFrames, sim);
      var best := ArgMax(scores);
      && best <= |fullFrames| - |clipFrames|
      && Localise(fullFrames, clipFrames, sim, step, fullFps, clipFrameCount, clipFps).span.startTime * fullFps == (best * step) as real
  {
    var scores := WindowScores(fullFrames, clipFrames, sim);
    var start := WindowToSeconds(ArgMax(scores), step, fullFps);
    assert Localise(fullFrames, clipFrames, sim, step, fullFps, clipFrameCount, clipFps).span.startTime == start;
  }

  /** When every frame similarity lies in [lo, hi], so does every window score. */
  lemma WindowScoresBounded(full: seq<Descriptor>, clip: seq<Descriptor>, sim: (Descriptor, Descriptor) -> real, lo: real, hi: real)
    requires 1 <= |clip|
    requires forall i, j :: 0 <= i < |full| && 0 <= j < |clip| ==> lo <= sim(full[i], clip[j]) <= hi
    ensures forall i :: 0 <= i < |WindowScores(full, clip, sim)| ==> lo <= WindowScores(full, clip, sim)[i] <= hi
  {
    var scores := WindowScores(full, clip, sim);
    forall i | 0 <= i < |scores|
      ensures lo <= scores[i] <= hi
    {
      var pairs := PairSimilarities(full[i..i + |clip|], clip, sim);
      assert forall j :: 0 <= j < |pairs| ==> pairs[j] == sim(full[i + j], clip[j]);
      MeanAtLeast(pairs, lo);
      MeanAtMost(pairs, hi);
    }
  }

  /**
   * Self-match: with a similarity that never exceeds 1 and is 1 between a
   * clip frame and itself, a clip that occurs in the full video at window t
   * scores 1 there, and the window chosen is no later than t and also
   * scores 1.
   */
  lemma FrameSelfMatch(full: seq<Descriptor>, clip: seq<Descriptor>, sim: (Descriptor, Descriptor) -> real, t: nat)
    requires 1 <= |clip| && t + |clip| <= |full| && full[t..t + |clip|] == clip
    requires forall i, j :: 0 <= i < |full| && 0 <= j < |clip| ==> sim(full[i], clip[j]) <= 1.0
    requires forall j :: 0 <= j < |clip| ==> sim(clip[j], clip[j]) == 1.0
    ensures |WindowScores(full, clip, sim)| > 0
    ensures ArgMax(WindowScores(full, clip, sim)) <= t
    ensures WindowScores(full, clip, sim)[ArgMax(WindowScores(full, clip, sim))] == 1.0
  {
    var scores := WindowScores(full, clip, sim);
    forall i | 0 <= i < |scores|
      ensures scores[i] <= 1.0
    {
      var pairs := PairSimilarities(full[i..i + |clip|], clip, sim);
      assert forall j :: 0 <= j < |pairs| ==> pairs[j] == sim(full[i + j], clip[j]);
      MeanAtMost(pairs, 1.0);
    }
    var own := PairSimilarities(full[t..t + |clip|], clip, sim);
    assert forall j :: 0 <= j < |own| ==> own[j] == 1.0;
    MeanAtLeast(own, 1.0);
    assert scores[t] == 1.0;
  }

  /** Self-match, in seconds: the reported start is no later than the occurrence's own start frame, t * step. */
  lemma FrameSelfMatchLocated(full: seq<Descriptor>, clip: seq<Descriptor>, sim: (Descriptor, Descriptor) -> real, t: nat,
                              step: nat, fullFps: real, clipFrameCount: int, clipFps: real)
    requires fullFps > 0.0 && clipFps > 0.0
    requires 1 <= |clip| && t + |clip| <= |full| && full[t..t + |clip|] == clip
    requires forall i, j :: 0 <= i < |full| && 0 <= j < |clip| ==> sim(full[i], clip[j]) <= 1.0
    requires forall j :: 0 <= j < |clip| ==> sim(clip[j], clip[j]) == 1.0
    ensures Localise(full, clip, sim, step, fullFps, clipFrameCount, clipFps).Found?
    ensures Localise(full, clip, sim, step, fullFps, clipFrameCount, clipFps).span.startTime * fullFps <= (t * step) as real
  {
    FrameSelfMatch(full, clip, sim, t);
    LocaliseNoMatchIff(full, clip, sim, step, fullFps, clipFrameCount, clipFps);
    StartNoLaterThan(full, clip, sim, step, fullFps, clipFrameCount, clipFps, t);
  }

  /** A best window no later than t gives a start time no later than t's, measured in frames. */
  lemma StartNoLaterThan(fullFrames: seq<Descriptor>, clipFrames: seq<Descriptor>, sim: (Descriptor, Descriptor) -> real,
                         step: nat, fullFps: real, clipFrameCount: int, clipFps: real, t: nat)
    requires fullFps > 0.0 && clipFps > 0.0
    requires Localise(fullFrames, clipFrames, sim, step, fullFps, clipFrameCount, clipFps).Found?
    requires 1 <= |clipFrames| && ArgMax(WindowScores(fullFrames, clipFrames, sim)) <= t
    ensures Localise(fullFrames, clipFrames, sim, step, fullFps, clipFrameCount, clipFps).span.startTime * fullFps <= (t * step) as real
  {
    LocaliseStartsAtFirstBestWindow(fullFrames, clipFrames, sim, step, fullFps, clipFrameCount, clipFps);
    var best := ArgMax(WindowScores(fullFrames, clipFrames, sim));
    ScaleMonotone(best, t, step);
  }

  lemma ScaleMonotone(a: nat, b: nat, c: nat)
    requires a <= b
    ensures a * c <= b * c
  {
  }

  /**
   * The frame path's result as the source computes it. With no clip
   * descriptor the window length is 0, every one of the M + 1 window scores
   * is the mean of nothing (not a number), argmax returns index 0, and a
   * match at time 0 is reported instead of no match.
   */
  function LocaliseAsWritten(fullFrames: seq<Descriptor>, clipFrames: seq<Descriptor>, sim: (Descriptor, Descriptor) -> real,
                             step: nat, fullFps: real, clipFrameCount: int, clipFps: real): (r: Localisation)
    requires fullFps > 0.0 && clipFps > 0.0
    ensures |clipFrames| > 0 ==> r == Localise(fullFrames, clipFrames, sim, step, fullFps, clipFrameCount, clipFps)
  {
    if |clipFrames| == 0 then Found(Interval(WindowToSeconds(0, step, fullFps), WindowToSeconds(0, step, fullFps) + clipFrameCount as real / clipFps))
    else Localise(fullFrames, clipFrames, sim, step, fullFps, clipFrameCount, clipFps)
  }

  /**
   * The discrepancy: when no clip frame can be read, the source reports the
   * clip at time 0 of the full video, where no window was compared at all;
   * the corrected Localise reports no match.
   */
  lemma EmptyClipSpuriousMatch(fullFrames: seq<Descriptor>, sim: (Descriptor, Descriptor) -> real,
                               step: nat, fullFps: real, clipFrameCount: int, clipFps: real)
    requires fullFps > 0.0 && clipFps > 0.0
    ensures LocaliseAsWritten(fullFrames, [], sim, step, fullFps, clipFrameCount, clipFps)
      == Found(Interval(0.0, clipFrameCount as real / clipFps))
    ensures Localise(fullFrames, [], sim, step, fullFps, clipFrameCount, clipFps) == NoMatch
  {
  }
}
