# Audio timestamp extraction — a Dafny model

The system locates a short clip inside a long video and reports the clip's
start and end time, in seconds, within the full video. It has two locators:

- The **audio path** decodes both soundtracks at 22050 Hz. It mixes each
  track down to mono, scales each by its peak absolute sample, and slides the
  clip over the full track (valid-mode cross-correlation). The first offset
  with the greatest correlation, divided by 22050, is the start time. The end
  time is the start plus the clip's duration.
- The **frame path** reads every `step`-th frame of both videos as a
  descriptor, and stops at the first frame that cannot be read. A window as
  long as the sampled clip slides over the sampled full video. Each window is
  scored by the mean similarity of aligned frame pairs. The first best window,
  converted back to a source frame and then to seconds, is the start time.

An evaluation harness reads the ground-truth times from the clip's file name
(`…_<start>_<end>.mp4`) and scores an estimate by its signed overlap with the
ground truth.

The modules are:

- `Outcomes` (`outcomes.dfy`): Option, Result and Interval.
- `Numeric` (`numeric.dfy`): the array reductions, over exact reals.
- `AudioCorrelator` (`audio_correlator.dfy`): the audio path, as pure functions.
- `FrameCorrelator` (`frame_correlator.dfy`): the frame path. Frame sampling
  and window scoring are methods with loops, proved against specification
  functions.
- `ClipPath` (`clip_path.dfy`): the file-name parser, with a reference
  predicate for the regular expression `_(\d+)_(\d+)\.mp4`.
- `Overlap` (`overlap.dfy`): the overlap score.

Samples, descriptors and scores are exact reals. The frame similarity (the
cosine of two descriptors) is a parameter `sim` of the frame path, because it
needs a square root.

Decoding cannot fail in the audio model. The audio path's errors are
modelled as `Err` values. Two of them are raised by the source itself:

- `EmptySignal`: the maximum of an empty array raises.
- `DimensionMismatch`: one track is mixed to mono while the other keeps its
  single column, and the correlation refuses arrays of different rank.

The other two are guards the model adds where the source carries on:

- `SilentSignal`: the peak is 0. The source divides by it and goes on with
  not-a-number samples.
- `ClipLongerThanFull`: the clip has more samples than the full track. The
  correlation routine would swap its two inputs.

## Model

| member | source | states |
|---|---|---|
| `Numeric.ArgMax` | cross_correlation_utility.py:42 | the index holds the largest value and every earlier index a strictly smaller one (ties go to the first) |
| `Numeric.MaxAbs` | cross_correlation_utility.py:34-35 | bounds every absolute sample and is attained by one of them |
| `Numeric.Mean` | cross_correlation_utility.py:132 | the mean of a single value is that value |
| `Numeric.MeanAtMost` | cross_correlation_utility.py:132 | a mean of values that are all at most hi is at most hi |
| `Numeric.MeanAtLeast` | cross_correlation_utility.py:132 | a mean of values that are all at least lo is at least lo |
| `AudioCorrelator.Mix` | cross_correlation_utility.py:27-31 | keeps one sample per row, and each sample is the mean of its row's channels |
| `AudioCorrelator.Normalise` | cross_correlation_utility.py:33-35 | an empty track fails with EmptySignal and a zero peak fails with SilentSignal (both iff); otherwise each sample is the input sample divided by the (positive) peak, so the length is kept, every sample lies in [-1, 1], and one sample has absolute value 1 |
| `AudioCorrelator.ScaledSignal` | cross_correlation_utility.py:34-35 | dividing by the peak keeps every sample in [-1, 1], multiplying back by the peak restores it, and the peak sample becomes ±1 |
| `AudioCorrelator.NormaliseFullScale` | cross_correlation_utility.py:34-35 | normalisation leaves a track whose peak is already 1 unchanged |
| `AudioCorrelator.Correlate` | cross_correlation_utility.py:39 | there is one value per offset where the clip fits (Nf - Nc + 1 of them), and each is the dot product of the clip with the aligned window |
| `AudioCorrelator.SamplesToSeconds` | cross_correlation_utility.py:46 | a non-negative time that, multiplied by 22050, gives the sample offset back |
| `AudioCorrelator.AudioCrossCorrelation` | cross_correlation_utility.py:7-49 | on success the start is non-negative, lies within the last offset where the clip fits, and the end is the start plus the clip's duration |
| `AudioCorrelator.AudioSucceedsExactly` | cross_correlation_utility.py:28-39 | the audio path succeeds iff both tracks are non-empty and non-silent, their ranks agree, and the clip is no longer than the full track |
| `AudioCorrelator.AudioStartIsFirstBestOffset` | cross_correlation_utility.py:39-46 | the start, in samples, is the first offset of greatest correlation between the normalised tracks |
| `AudioCorrelator.DotAgainstSignClip` | cross_correlation_utility.py:39 | a window of values in [-1, 1] correlates with a clip of ±1 values by at most the clip length, with equality iff the window equals the clip |
| `AudioCorrelator.CorrelationAtMostClipLength` | cross_correlation_utility.py:39 | against a clip of ±1 samples, a signal in [-1, 1] correlates at most the clip length at every offset |
| `AudioCorrelator.FirstBestNoLaterThan` | cross_correlation_utility.py:42 | when the value at t is the largest, the first maximum is no later than t and has that value |
| `AudioCorrelator.SignClipSelfMatch` | cross_correlation_utility.py:39-42 | if a ±1 clip occurs in the full track at offset t, the chosen offset is no later than t and the clip occurs there too |
| `AudioCorrelator.SignClipUniqueMatch` | cross_correlation_utility.py:39-42 | if that occurrence is the only one, the chosen offset is exactly t |
| `AudioCorrelator.LouderWindowWins` | cross_correlation_utility.py:39-42 | in [1, 1, 0.5] the clip [1, 0.5] occurs at offset 1, but the correlation is [1.5, 1.25] and offset 0 is chosen |
| `AudioCorrelator.BurstOffset` | cross_correlation_utility.py:39-42 | a unit burst of n samples after a silent samples is found at offset a by a clip holding only the burst |
| `AudioCorrelator.BurstIsLocated` | cross_correlation_utility.py:7-49 | the audio path locates that burst clip at a / 22050 seconds, ending clipDuration later |
| `AudioCorrelator.BurstAt300` | cross_correlation_utility.py:7-49 | a 50-sample burst at sample 300 of a 1000-sample track is located at 300 / 22050 seconds |
| `FrameCorrelator.SlotsFromBounds` | cross_correlation_utility.py:79 | the frame range from i below count in steps of step has ceil((count - i) / step) positions, stated as bounds by multiplication |
| `FrameCorrelator.SampledFromShape` | cross_correlation_utility.py:79-90 | every sampled descriptor is the read of frame i + j * step below count, and the list stops short of the range only at a frame whose read fails |
| `FrameCorrelator.SampledShape` | cross_correlation_utility.py:79-104 | the same from frame 0, with the range length as a ceiling, and the full range is sampled when every read succeeds |
| `FrameCorrelator.SampleFrames` | cross_correlation_utility.py:79-90 | the loop collects exactly the sampled descriptor list of the video |
| `FrameCorrelator.PairSimilarities` | cross_correlation_utility.py:121-129 | one similarity per clip frame |
| `FrameCorrelator.WindowScores` | cross_correlation_utility.py:116-133 | one score per window position, max(0, M - W + 1) of them |
| `FrameCorrelator.ScoreWindows` | cross_correlation_utility.py:113-133 | the nested loops produce one score per window, and each is the mean of the window's frame-pair similarities |
| `FrameCorrelator.WindowToSeconds` | cross_correlation_utility.py:144-145 | a non-negative time that, multiplied by the frame rate, gives index * step back |
| `FrameCorrelator.Localise` | cross_correlation_utility.py:136-146 | a reported interval starts at a non-negative time and lasts exactly clipFrameCount / clipFps seconds |
| `FrameCorrelator.FrameCrossCorrelation` | cross_correlation_utility.py:52-148 | the method's result is the localisation of the two sampled descriptor lists |
| `FrameCorrelator.LocaliseNoMatchIff` | cross_correlation_utility.py:113-138 | there is no match iff no clip frame was sampled or the sampled clip is longer than the sampled full video |
| `FrameCorrelator.LocaliseStartsAtFirstBestWindow` | cross_correlation_utility.py:140-145 | a match starts at the first best window, whose index is at most M - W, with start * fps = index * step |
| `FrameCorrelator.WindowScoresBounded` | cross_correlation_utility.py:128-133 | when every frame similarity lies in [lo, hi], so does every window score |
| `FrameCorrelator.FrameSelfMatch` | cross_correlation_utility.py:116-140 | if the clip occurs in the full video at window t and self-similarity is the largest possible (1), the chosen window is no later than t and scores 1 |
| `FrameCorrelator.FrameSelfMatchLocated` | cross_correlation_utility.py:136-146 | in that case a match is reported, and its start, in source frames, is no later than t * step |
| `FrameCorrelator.StartNoLaterThan` | cross_correlation_utility.py:140-145 | a best window no later than t gives a start, in source frames, no later than t * step |
| `FrameCorrelator.LocaliseAsWritten` | cross_correlation_utility.py:113-146 | the source's result agrees with the corrected one whenever a clip frame was sampled |
| `FrameCorrelator.EmptyClipSpuriousMatch` | cross_correlation_utility.py:113-146 | with no clip frame, the source reports a match at time 0, while the corrected definition reports no match |
| `ClipPath.NatToString` | extract_clip_from_movie.py:16 | the decimal spelling is a non-empty run of digits that starts with '0' only for 0 |
| `ClipPath.DecimalOfNatToString` | main.py:19-20 | reading the decimal spelling of n back as a number gives n |
| `ClipPath.DigitRunEnd` | main.py:17 | the end of the maximal run of digits from i |
| `ClipPath.MatchAtExact` | main.py:17 | trying the pattern at p yields (q, r) iff the regular expression matches at p with its second underscore at q and its dot at r |
| `ClipPath.Search` | main.py:17 | a found match is a regular-expression match with no match further left; no result means no match at any position |
| `ClipPath.SearchFindsFirst` | main.py:17 | scanning from any start up to the leftmost match finds exactly that match |
| `ClipPath.ExtractStartEndTime` | main.py:12-23 | fails, naming the path, iff the pattern matches nowhere; the times it returns are non-negative |
| `ClipPath.ExtractLeftmost` | main.py:17-21 | the leftmost match's two digit groups, read as decimal numbers, are the returned times |
| `ClipPath.ClipNameMatchesOnlyAtSuffix` | main.py:17 | in a clip name whose prefix has no match of its own, the pattern can only match at the timestamp suffix |
| `ClipPath.ClipNameRoundTrip` | main.py:17-21 | for any prefix in which the pattern matches nowhere, parsing the name the cutter writes for (start, end) gives (start, end) back |
| `ClipPath.DottedDirectoryRoundTrip` | main.py:17-21 | a clip name under the prefix `./clips/a`, which contains '.', still parses back to its times |
| `ClipPath.SecondClipName` | extract_clip_from_movie.py:9-16 | the cutter names the 2060 s to 2075 s clip `input_clips/planet_earth_01_from_pole_to_pole_clip_2060_2075.mp4`, the harness's second clip path |
| `ClipPath.SecondClipTimes` | main.py:9 | that path parses to (2060.0, 2075.0) |
| `Overlap.EvaluateOverlap` | main.py:26-33 | for a proper ground truth the score is at most 1, equals 1 iff the estimate covers the ground truth, and is negative iff a proper estimate is disjoint from it |
| `Overlap.ContainedEstimateScoresItsShare` | main.py:32-33 | an estimate inside the ground truth scores its length as a fraction of the ground truth's |
| `Overlap.LateEstimateScoresMinusGap` | main.py:32-33 | an estimate after the ground truth scores minus the gap, as a fraction of the ground truth's length |
| `Overlap.DisjointExample` | main.py:32-33 | ground truth 0 s to 10 s against an estimate 20 s to 30 s scores -1 |

## Left out

- Media decoding is not modelled. Decoding covers opening the files, resampling the soundtrack to 22050 Hz, seeking, and reading frames. Tracks and frames are inputs; a frame read is a function that may return None.
- The frame descriptor is not modelled. That covers grayscale conversion, resizing to 160 × 120 and flattening; a descriptor is any list of reals.
- AudioCorrelator.SignClipSelfMatch: exact self-match is proved only for clips whose samples are all 1 or -1. Plain valid-mode correlation favours louder windows, so a clip embedded in the full track is not always found where it occurs; `LouderWindowWins` gives an input where it is not.
- FrameCorrelator: the similarity of two descriptors is a parameter `sim`. The model does not compute the cosine (a square root) or the not-a-number that an all-black frame (zero norm) produces. The self-match lemmas instead assume a similarity that is at most 1 and equals 1 for a frame and itself.
- FrameCorrelator.FrameCrossCorrelation: the sampling step must be at least 1 and both frame rates positive. A step of 0 raises in the source's range; a negative step, or a frame rate of 0 (division by zero), is not modelled.
- AudioCorrelator.Normalise: a track whose peak is 0 fails with SilentSignal. In the source the division yields not-a-number samples and the search goes on with them.
- AudioCorrelator.AudioCrossCorrelation: a clip longer than the full track fails with ClipLongerThanFull. The correlation routine would instead swap its arguments in that case.
- AudioCorrelator.AudioCrossCorrelation: the correlation is computed directly, not through the FFT. The model covers only the two-dimensional single-column array and the multi-channel array that the decoder returns.
- AudioCorrelator.AudioCrossCorrelation: the clip's duration is a parameter (the decoder's duration value).
- The correlation strength (cross_correlation_utility.py:43) is left out because it is computed and never used. The best frame score (cross_correlation_utility.py:141) is left out for the same reason.
- The Euclidean distance between estimate and ground truth (main.py:42) is left out because it needs a square root.
- The harness wiring and all console output are left out: `main`, `test_estimating_clip_from_movie`, and the fixed paths used only as inputs (main.py:7-8, 36-57).
- The clip-cutting script (extract_clip_from_movie.py) is not part of this model beyond the file-name format it writes.
- ClipPath.ExtractStartEndTime: `\d` is read as the ASCII digits 0-9 only; the regular-expression engine also accepts other Unicode decimal digits.
- ClipPath.ExtractStartEndTime: times are exact, so the rounding of very large digit runs when converted to a float is not modelled.
- Overlap.EvaluateOverlap: a ground truth of zero length is excluded by a precondition, since the source divides by the length unguarded.

## Findings

| source | as written | input that shows it | evidently intended | confidence | as-written member | corrected member |
|---|---|---|---|---|---|---|
| cross_correlation_utility.py:113-146 | with no sampled clip frame the window length is 0; every one of the M + 1 window scores is the mean of nothing (not a number), argmax picks index 0, and a match at 0 s is returned | a clip whose first frame cannot be read (or whose frame count is 0) | report no match, as for an empty score list | high (not executed) | `FrameCorrelator.LocaliseAsWritten` | `FrameCorrelator.Localise` |
