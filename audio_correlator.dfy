/**
 * The audio path of the clip locator: both soundtracks, decoded at a fixed
 * 22050 Hz, are mixed down to mono, scaled by their peak, and the clip is
 * slid over the full track; the first offset of greatest correlation, in
 * samples, becomes the start time in seconds.
 */
module AudioCorrelator {
  import opened Outcomes
  import opened Numeric

  /** The rate, in samples per second, at which both soundtracks are decoded. */
  const SampleRate: real := 22050.0

  /**
   * A decoded soundtrack: one row per sample instant, holding one value per
   * channel (the shape of the decoder's sound array).
   */
  datatype SoundArray = SoundArray(rows: seq<seq<real>>, channels: nat)

  predicate WellFormed(a: SoundArray)
  {
    a.channels >= 1 && forall i :: 0 <= i < |a.rows| ==> |a.rows[i]| == a.channels
  }

  /** Why a localisation produced no interval. */
  datatype AudioError =
    | EmptySignal         // a soundtrack has no samples: the peak of nothing is undefined
    | SilentSignal        // a soundtrack's peak is 0: scaling by it divides by zero
    | DimensionMismatch   // one track was mixed to mono and the other kept its single column
    | ClipLongerThanFull  // no offset puts the whole clip inside the full track

  /**
   * Mono signal of a soundtrack. Several channels are averaged row by row; a
   * single channel is taken as it is. Either way each sample is the mean of
   * its row.
   */
  function Mix(a: SoundArray): (m: seq<real>)
    requires WellFormed(a)
    ensures |m| == |a.rows|
    ensures forall i :: 0 <= i < |m| ==> m[i] == Mean(a.rows[i])
  {
    if a.channels > 1 then seq(|a.rows|, i requires 0 <= i < |a.rows| => Mean(a.rows[i]))
    else seq(|a.rows|, i requires 0 <= i < |a.rows| => a.rows[i][0])
  }

  /** x / p lies in [-1, 1] when |x| <= p, and is -1 or 1 when |x| == p. */
  lemma ScaledByPeak(x: real, p: real)
    requires p > 0.0 && Abs(x) <= p
    ensures -1.0 <= x / p <= 1.0 && (x / p) * p == x
    ensures Abs(x) == p ==> Abs(x / p) == 1.0
  {
    if x == p {
      assert x / p == 1.0;
    } else if x == -p {
      assert x / p == -1.0;
    }
  }

  /**
   * Peak normalisation: every sample divided by the largest absolute sample.
   * The result has the input's length, lies in [-1, 1] and touches 1 in
   * absolute value; an empty or silent signal is an error.
   */
  function Normalise(s: seq<real>): (r: Result<seq<real>, AudioError>)
    ensures |s| == 0 <==> r == Err(EmptySignal)
    ensures |s| > 0 ==> (MaxAbs(s) == 0.0 <==> r == Err(SilentSignal))
    ensures r.Ok? ==> |r.value| == |s|
    ensures r.Ok? ==> forall i :: 0 <= i < |s| ==> -1.0 <= r.value[i] <= 1.0
    ensures r.Ok? ==> exists i :: 0 <= i < |s| && Abs(r.value[i]) == 1.0
    ensures r.Ok? ==> MaxAbs(s) > 0.0 && forall i :: 0 <= i < |s| ==> r.value[i] == s[i] / MaxAbs(s)
  {
    if |s| == 0 then Err(EmptySignal)
    else
      var p := MaxAbs(s);
      if p == 0.0 then Err(SilentSignal)
      else
        assert p > 0.0 by {
          assert Abs(s[0]) <= p;
        }
        ScaledSignal(s, p, Scale(s, p));
        Ok(Scale(s, p))
  }

  /** Every sample divided by p. */
  function Scale(s: seq<real>, p: real): seq<real>
    requires p != 0.0
  {
    seq(|s|, i requires 0 <= i < |s| => s[i] / p)
  }

  /** The facts behind Normalise: dividing by the peak keeps every sample in [-1, 1] and the peak sample at full scale. */
  lemma ScaledSignal(s: seq<real>, p: real, n: seq<real>)
    requires p > 0.0
    requires forall i :: 0 <= i < |s| ==> Abs(s[i]) <= p
    requires exists i :: 0 <= i < |s| && Abs(s[i]) == p
    requires |n| == |s| && forall i :: 0 <= i < |s| ==> n[i] == s[i] / p
    ensures forall i :: 0 <= i < |s| ==> -1.0 <= n[i] <= 1.0 && n[i] * p == s[i]
    ensures exists i :: 0 <= i < |s| && Abs(n[i]) == 1.0
  {
    forall i | 0 <= i < |s|
      ensures -1.0 <= n[i] <= 1.0 && n[i] * p == s[i]
    {
      ScaledByPeak(s[i], p);
    }
    var k :| 0 <= k < |s| && Abs(s[k]) == p;
    ScaledByPeak(s[k], p);
    assert Abs(n[k]) == 1.0;
  }

  /** A signal whose peak is already 1 is left unchanged by normalisation. */
  lemma NormaliseFullScale(s: seq<real>)
    requires |s| > 0 && MaxAbs(s) == 1.0
    ensures Normalise(s) == Ok(s)
  {
    var n := Scale(s, 1.0);
    forall i | 0 <= i < |s|
      ensures n[i] == s[i]
    {
      assert n[i] == s[i] / 1.0;
    }
    assert n == s;
  }

  /**
   * Valid-mode cross-correlation of the full signal f with the clip c: the
   * clip is laid against f at every offset where it fits entirely, and the
   * products of aligned samples are summed.
   */
  function Correlate(f: seq<real>, c: seq<real>): (r: seq<real>)
    requires |c| <= |f|
    ensures |r| == |f| - |c| + 1
    ensures forall i :: 0 <= i < |r| ==> r[i] == Dot(f[i..i + |c|], c)
    decreases |f|
  {
    if |f| == |c| then
      assert f[0..|c|] == f;
      [Dot(f, c)]
    else
      var rest := Correlate(f[1..], c);
      assert forall i :: 0 <= i < |rest| ==> rest[i] == Dot(f[i + 1..i + 1 + |c|], c) by {
        forall i | 0 <= i < |rest| ensures rest[i] == Dot(f[i + 1..i + 1 + |c|], c) {
          assert f[1..][i..i + |c|] == f[i + 1..i + 1 + |c|];
        }
      }
      [Dot(f[..|c|], c)] + rest
  }

  /** Converts an offset in samples into seconds; the conversion is exact and never negative. */
  function SamplesToSeconds(offset: nat): (t: real)
    ensures t >= 0.0
    ensures t * SampleRate == offset as real
  {
    offset as real / SampleRate
  }

  /**
   * Locates the clip in the full video by its soundtrack: the start time is
   * the first best-correlating offset in seconds, and the end time adds the
   * clip's own playing time.
   */
  function AudioCrossCorrelation(full: SoundArray, clip: SoundArray, clipDuration: real): (r: Result<Interval, AudioError>)
    requires WellFormed(full) && WellFormed(clip)
    ensures r.Ok? ==> 0.0 <= r.value.startTime
    ensures r.Ok? ==> r.value.startTime * SampleRate <= (|full.rows| - |clip.rows|) as real
    ensures r.Ok? ==> r.value.endTime == r.value.startTime + clipDuration
    ensures r.Ok? && clipDuration >= 0.0 ==> r.value.startTime <= r.value.endTime
  {
    var f :- Normalise(Mix(full));
    var c :- Normalise(Mix(clip));
    if (full.channels > 1) != (clip.channels > 1) then Err(DimensionMismatch)
    else if |c| > |f| then Err(ClipLongerThanFull)
    else
      var best := ArgMax(Correlate(f, c));
      var start := SamplesToSeconds(best);
      Ok(Interval(start, start + clipDuration))
  }

  /** The localisation succeeds exactly when neither track is empty or silent, both have the same shape, and the clip fits. */
  lemma AudioSucceedsExactly(full: SoundArray, clip: SoundArray, clipDuration: real)
    requires WellFormed(full) && WellFormed(clip)
    ensures AudioCrossCorrelation(full, clip, clipDuration).Ok? <==>
      && |full.rows| > 0 && MaxAbs(Mix(full)) != 0.0
      && |clip.rows| > 0 && MaxAbs(Mix(clip)) != 0.0
      && (full.channels > 1) == (clip.channels > 1)
      && |clip.rows| <= |full.rows|
  {
  }

  /**
   * On success the start time, in samples, is the first offset at which the
   * normalised clip correlates best with the normalised full track.
   */
  lemma AudioStartIsFirstBestOffset(full: SoundArray, clip: SoundArray, clipDuration: real)
    requires WellFormed(full) && WellFormed(clip)
    requires AudioCrossCorrelation(full, clip, clipDuration).Ok?
    ensures Normalise(Mix(full)).Ok? && Normalise(Mix(clip)).Ok?
    ensures |Mix(clip)| <= |Mix(full)|
    ensures AudioCrossCorrelation(full, clip, clipDuration).value.startTime * SampleRate
      == ArgMax(Correlate(Normalise(Mix(full)).value, Normalise(Mix(clip)).value)) as real
  {
  }

  /**
   * Against a clip whose samples are all 1 or -1, a window whose samples lie
   * in [-1, 1] correlates at most |c|, and exactly |c| only if it equals the clip.
   */
  lemma {:induction false} DotAgainstSignClip(w: seq<real>, c: seq<real>)
    requires |w| == |c| && InUnitRange(w) && AllFullScale(c)
    ensures Dot(w, c) <= |c| as real
    ensures Dot(w, c) == |c| as real <==> w == c
  {
    if |c| > 0 {
      var n := |c| - 1;
      assert forall k :: 0 <= k < n ==> w[..n][k] == w[k] && c[..n][k] == c[k];
      DotAgainstSignClip(w[..n], c[..n]);
      assert w[n] * c[n] <= 1.0;
      assert w[n] * c[n] == 1.0 <==> w[n] == c[n];
      assert w == c <==> w[..n] == c[..n] && w[n] == c[n] by {
        if w[..n] == c[..n] && w[n] == c[n] {
          assert w == w[..n] + [w[n]] && c == c[..n] + [c[n]];
        }
      }
    }
  }

  /**
   * Self-match: when the full signal lies in [-1, 1] (as a normalised one
   * does), the clip is made of full-scale samples and it occurs in the full
   * signal at t, the chosen offset is no later than t and is itself an exact
   * occurrence of the clip.
   */
  lemma SignClipSelfMatch(f: seq<real>, c: seq<real>, t: nat)
    requires 0 < |c| && t + |c| <= |f|
    requires InUnitRange(f) && AllFullScale(c)
    requires f[t..t + |c|] == c
    ensures ArgMax(Correlate(f, c)) <= t
    ensures OccursAt(f, c, ArgMax(Correlate(f, c)))
  {
    var r := Correlate(f, c);
    CorrelationAtMostClipLength(f, c);
    SelfDot(c);
    assert r[t] == Dot(c, c);
    FirstBestNoLaterThan(r, t, |c| as real);
    var b := ArgMax(r);
    WindowInUnitRange(f, b, b + |c|);
    DotAgainstSignClip(f[b..b + |c|], c);
  }

  /** Against a clip of full-scale samples, a signal in [-1, 1] correlates at most the clip length at every offset. */
  lemma CorrelationAtMostClipLength(f: seq<real>, c: seq<real>)
    requires |c| <= |f| && InUnitRange(f) && AllFullScale(c)
    ensures forall i :: 0 <= i < |f| - |c| + 1 ==> Correlate(f, c)[i] <= |c| as real
  {
    var r := Correlate(f, c);
    forall i | 0 <= i < |r|
      ensures r[i] <= |c| as real
    {
      WindowInUnitRange(f, i, i + |c|);
      DotAgainstSignClip(f[i..i + |c|], c);
    }
  }

  /** A clip of full-scale samples correlates with itself to exactly its length. */
  lemma SelfDot(c: seq<real>)
    requires AllFullScale(c)
    ensures Dot(c, c) == |c| as real
  {
    DotAgainstSignClip(c, c);
  }

  /** If the value at t is the largest, the first maximum is no later than t and has that value. */
  lemma FirstBestNoLaterThan(r: seq<real>, t: nat, top: real)
    requires t < |r| && r[t] == top
    requires forall i :: 0 <= i < |r| ==> r[i] <= top
    ensures ArgMax(r) <= t && r[ArgMax(r)] == top
  {
  }

  /** Every sample lies in [-1, 1], as after peak normalisation. */
  predicate InUnitRange(s: seq<real>) {
    forall k :: 0 <= k < |s| ==> -1.0 <= s[k] <= 1.0
  }

  /** Every sample is 1 or -1. */
  predicate AllFullScale(s: seq<real>) {
    forall k :: 0 <= k < |s| ==> s[k] == 1.0 || s[k] == -1.0
  }

  /** A window of a signal in [-1, 1] lies in [-1, 1]. */
  lemma WindowInUnitRange(f: seq<real>, i: nat, j: nat)
    requires i <= j <= |f| && InUnitRange(f)
    ensures InUnitRange(f[i..j])
  {
    assert forall k :: 0 <= k < j - i ==> f[i..j][k] == f[i + k];
  }

  /** The clip occurs in the signal f starting at sample i. */
  predicate OccursAt(f: seq<real>, c: seq<real>, i: nat)
  {
    i + |c| <= |f| && f[i..i + |c|] == c
  }

  /** With a single occurrence of the clip, the offset found is exactly that occurrence. */
  lemma SignClipUniqueMatch(f: seq<real>, c: seq<real>, t: nat)
    requires 0 < |c| && t + |c| <= |f|
    requires InUnitRange(f) && AllFullScale(c)
    requires f[t..t + |c|] == c
    requires forall i :: OccursAt(f, c, i) ==> i == t
    ensures ArgMax(Correlate(f, c)) == t
  {
    SignClipSelfMatch(f, c, t);
  }

  /**
   * Self-match fails for clips that are not all full-scale: plain
   * correlation favours louder windows. In [1, 1, 0.5] the clip [1, 0.5]
   * occurs at offset 1, yet offset 0 correlates more (1.5 against 1.25)
   * and is the one chosen.
   */
  lemma LouderWindowWins()
    ensures OccursAt([1.0, 1.0, 0.5], [1.0, 0.5], 1)
    ensures Correlate([1.0, 1.0, 0.5], [1.0, 0.5]) == [1.5, 1.25]
    ensures ArgMax(Correlate([1.0, 1.0, 0.5], [1.0, 0.5])) == 0
  {
    var f, c := [1.0, 1.0, 0.5], [1.0, 0.5];
    assert f[1..3] == c;
    var r := Correlate(f, c);
    assert f[0..2] == [1.0, 1.0];
    assert Dot([1.0, 1.0], c) == 1.5 by {
      assert [1.0, 1.0][..1] == [1.0] && c[..1] == [1.0];
      assert [1.0][..0] == [];
    }
    assert Dot(c, c) == 1.25 by {
      assert c[..1] == [1.0];
      assert [1.0][..0] == [];
    }
    assert r == [1.5, 1.25];
  }

  /** A silent track of a + n + b samples with a full-scale burst of n samples starting at sample a. */
  function Burst(a: nat, n: nat, b: nat): (s: seq<real>)
    ensures |s| == a + n + b
  {
    seq(a + n + b, i requires 0 <= i < a + n + b => if a <= i < a + n then 1.0 else 0.0)
  }

  /** A single-channel sound array holding the given samples. */
  function Column(s: seq<real>): (a: SoundArray)
    ensures WellFormed(a) && |a.rows| == |s|
  {
    SoundArray(seq(|s|, i requires 0 <= i < |s| => [s[i]]), 1)
  }

  /** Mixing a single-channel array gives back its column. */
  lemma MixColumn(s: seq<real>)
    ensures Mix(Column(s)) == s
  {
    var m := Mix(Column(s));
    assert forall i :: 0 <= i < |s| ==> m[i] == s[i];
  }

  /** A burst track is at full scale: its peak is 1 and normalising leaves it unchanged. */
  lemma BurstFullScale(a: nat, n: nat, b: nat)
    requires n > 0
    ensures Normalise(Burst(a, n, b)) == Ok(Burst(a, n, b))
  {
    var f := Burst(a, n, b);
    var p := MaxAbs(f);
    assert Abs(f[a]) == 1.0;
    var k :| 0 <= k < |f| && Abs(f[k]) == p;
    assert p == 1.0;
    NormaliseFullScale(f);
  }

  /** The burst occurs in its track at sample a and nowhere else. */
  lemma BurstOccursOnce(a: nat, n: nat, b: nat)
    requires n > 0
    ensures OccursAt(Burst(a, n, b), Burst(0, n, 0), a)
    ensures forall i :: OccursAt(Burst(a, n, b), Burst(0, n, 0), i) ==> i == a
  {
    var f, c := Burst(a, n, b), Burst(0, n, 0);
    assert f[a..a + n] == c;
    forall i | 0 <= i && i != a
      ensures !OccursAt(f, c, i)
    {
      if i + n <= |f| {
        if i < a {
          assert f[i..i + n][0] != c[0];
        } else {
          assert f[i..i + n][n - 1] != c[n - 1];
        }
      }
    }
  }

  /**
   * A burst of n full-scale samples at sample a of an otherwise silent full
   * track, searched for with the burst itself as the clip, is found at
   * exactly a / 22050 seconds, and the end time adds the clip's duration.
   */
  lemma BurstIsLocated(a: nat, n: nat, b: nat, clipDuration: real)
    requires n > 0
    ensures AudioCrossCorrelation(Column(Burst(a, n, b)), Column(Burst(0, n, 0)), clipDuration).Ok?
    ensures AudioCrossCorrelation(Column(Burst(a, n, b)), Column(Burst(0, n, 0)), clipDuration).value
      == Interval(a as real / 22050.0, a as real / 22050.0 + clipDuration)
  {
    var f, c := Burst(a, n, b), Burst(0, n, 0);
    MixColumn(f);
    MixColumn(c);
    BurstFullScale(a, n, b);
    BurstFullScale(0, n, 0);
    BurstOffset(a, n, b);
    LocatedAtBestOffset(Column(f), Column(c), clipDuration, f, c, a);
    assert SamplesToSeconds(a) == a as real / 22050.0;
  }

  /** Once both tracks normalise, have the same shape and the clip fits, the interval starts at the first best offset. */
  lemma LocatedAtBestOffset(full: SoundArray, clip: SoundArray, clipDuration: real, f: seq<real>, c: seq<real>, best: nat)
    requires WellFormed(full) && WellFormed(clip)
    requires Normalise(Mix(full)) == Ok(f) && Normalise(Mix(clip)) == Ok(c)
    requires full.channels == clip.channels && |c| <= |f|
    requires ArgMax(Correlate(f, c)) == best
    ensures AudioCrossCorrelation(full, clip, clipDuration).Ok?
    ensures AudioCrossCorrelation(full, clip, clipDuration).value
      == Interval(SamplesToSeconds(best), SamplesToSeconds(best) + clipDuration)
  {
  }

  /** The burst is found at its own offset. */
  lemma BurstOffset(a: nat, n: nat, b: nat)
    requires n > 0
    ensures ArgMax(Correlate(Burst(a, n, b), Burst(0, n, 0))) == a
  {
    var f, c := Burst(a, n, b), Burst(0, n, 0);
    BurstOccursOnce(a, n, b);
    assert forall i :: 0 <= i < |f| ==> -1.0 <= f[i] <= 1.0;
    assert forall k :: 0 <= k < |c| ==> c[k] == 1.0;
    SignClipUniqueMatch(f, c, a);
  }

  /**
   * The worked scenario: 1000 samples, silent but for a 50-sample burst at
   * sample 300, searched for with that burst, start at 300 / 22050 seconds.
   */
  lemma BurstAt300(clipDuration: real)
    ensures AudioCrossCorrelation(Column(Burst(300, 50, 650)), Column(Burst(0, 50, 0)), clipDuration).Ok?
    ensures AudioCrossCorrelation(Column(Burst(300, 50, 650)), Column(Burst(0, 50, 0)), clipDuration).value
      == Interval(300.0 / 22050.0, 300.0 / 22050.0 + clipDuration)
  {
    BurstIsLocated(300, 50, 650, clipDuration);
  }
}
