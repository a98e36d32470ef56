/**
 * Reading the ground-truth timestamps out of a clip's file name. Clips are
 * named `<prefix>_<start>_<end>.mp4`; the harness searches the path for the
 * leftmost `_<digits>_<digits>.mp4` and reads the two digit runs as seconds.
 */
module ClipPath {
  import opened Outcomes

  predicate IsDigit(c: char) {
    '0' <= c <= '9'
  }

  predicate AllDigits(s: string) {
    forall i :: 0 <= i < |s| ==> IsDigit(s[i])
  }

  function DigitValue(c: char): (d: nat)
    requires IsDigit(c)
    ensures d < 10
  {
    c as int - '0' as int
  }

  function DigitChar(d: nat): (c: char)
    requires d < 10
    ensures IsDigit(c) && DigitValue(c) == d
  {
    ('0' as int + d) as char
  }

  /** The number a run of decimal digits denotes; leading zeros are allowed. */
  function DecimalValue(ds: string): nat
    requires AllDigits(ds)
  {
    if |ds| == 0 then 0 else DecimalValue(ds[..|ds| - 1]) * 10 + DigitValue(ds[|ds| - 1])
  }

  /** The decimal spelling of n, with no leading zero, as the clip cutter writes it. */
  function NatToString(n: nat): (s: string)
    ensures |s| >= 1 && AllDigits(s)
    ensures s[0] == '0' <==> n == 0
  {
    if n < 10 then [DigitChar(n)] else NatToString(n / 10) + [DigitChar(n % 10)]
  }

  lemma {:induction false} DecimalOfNatToString(n: nat)
    ensures DecimalValue(NatToString(n)) == n
  {
    var s := NatToString(n);
    if n < 10 {
      assert s[..0] == [];
    } else {
      assert s[..|s| - 1] == NatToString(n / 10);
      DecimalOfNatToString(n / 10);
    }
  }

  /**
   * The pattern `_(\d+)_(\d+)\.mp4` matches s at p with the second underscore
   * at q and the dot at r; the groups are s[p+1..q] and s[q+1..r].
   */
  predicate RegexMatchAt(s: string, p: nat, q: nat, r: nat) {
    && p + 1 < q && q + 1 < r && r + 4 <= |s|
    && s[p] == '_' && AllDigits(s[p + 1..q])
    && s[q] == '_' && AllDigits(s[q + 1..r])
    && s[r..r + 4] == ".mp4"
  }

  /** Where the run of digits starting at i ends. */
  function DigitRunEnd(s: string, i: nat): (j: nat)
    requires i <= |s|
    ensures i <= j <= |s| && AllDigits(s[i..j])
    ensures j == |s| || !IsDigit(s[j])
    decreases |s| - i
  {
    if i < |s| && IsDigit(s[i]) then
      var j := DigitRunEnd(s, i + 1);
      assert forall k :: 1 <= k < j - i ==> s[i..j][k] == s[i + 1..j][k - 1];
      j
    else i
  }

  lemma {:induction false} DigitRunEndAt(s: string, i: nat, j: nat)
    requires i <= j < |s| && AllDigits(s[i..j]) && !IsDigit(s[j])
    ensures DigitRunEnd(s, i) == j
    decreases j - i
  {
    if i < j {
      DigitsIn(s, i, j);
      DigitRunEndAt(s, i + 1, j);
    }
  }

  lemma DigitsIn(s: string, lo: nat, hi: nat)
    requires lo <= hi <= |s| && AllDigits(s[lo..hi])
    ensures forall k :: lo <= k < hi ==> IsDigit(s[k])
  {
    assert forall k :: lo <= k < hi ==> s[lo..hi][k - lo] == s[k];
  }

  /**
   * Tries the pattern at p. Digit runs are taken whole: neither '_' nor '.'
   * is a digit, so backtracking into a shorter run can never succeed.
   */
  function MatchAt(s: string, p: nat): Option<(nat, nat)> {
    if p >= |s| || s[p] != '_' then None
    else
      var q := DigitRunEnd(s, p + 1);
      if q == p + 1 || q >= |s| || s[q] != '_' then None
      else
        var r := DigitRunEnd(s, q + 1);
        if r == q + 1 || r + 4 > |s| || s[r..r + 4] != ".mp4" then None
        else Some((q, r))
  }

  /** Trying the pattern at p finds exactly the match the pattern admits there. */
  lemma MatchAtExact(s: string, p: nat, q: nat, r: nat)
    ensures MatchAt(s, p) == Some((q, r)) <==> RegexMatchAt(s, p, q, r)
  {
    if RegexMatchAt(s, p, q, r) {
      DigitRunEndAt(s, p + 1, q);
      DigitRunEndAt(s, q + 1, r);
    }
  }

  lemma MatchAtNone(s: string, p: nat)
    requires MatchAt(s, p).None?
    ensures forall q, r :: !RegexMatchAt(s, p, q, r)
  {
    forall q, r ensures !RegexMatchAt(s, p, q, r) {
      MatchAtExact(s, p, q, r);
    }
  }

  /** The leftmost match at or after from, as re.search scans start positions left to right. */
  function Search(s: string, from: nat): (m: Option<(nat, nat, nat)>)
    ensures m.Some? ==> from <= m.value.0 && RegexMatchAt(s, m.value.0, m.value.1, m.value.2)
    ensures m.Some? ==> forall p, q, r :: from <= p < m.value.0 ==> !RegexMatchAt(s, p, q, r)
    ensures m.None? ==> forall p, q, r :: from <= p ==> !RegexMatchAt(s, p, q, r)
    decreases |s| - from
  {
    if from >= |s| then None
    else
      match MatchAt(s, from)
      case Some(qr) =>
        MatchAtExact(s, from, qr.0, qr.1);
        Some((from, qr.0, qr.1))
      case None =>
        MatchAtNone(s, from);
        Search(s, from + 1)
  }

  datatype ParseError = NoTimestamps(path: string)

  /** The ground-truth start and end time, in seconds, named by a clip path. */
  function ExtractStartEndTime(path: string): (r: Result<(real, real), ParseError>)
    ensures r.Ok? ==> r.value.0 >= 0.0 && r.value.1 >= 0.0
    ensures r.Err? <==> forall p, q, e :: !RegexMatchAt(path, p, q, e)
    ensures r.Err? ==> r.error == NoTimestamps(path)
  {
    match Search(path, 0)
    case None => Err(NoTimestamps(path))
    case Some(m) =>
      Ok((DecimalValue(path[m.0 + 1..m.1]) as real, DecimalValue(path[m.1 + 1..m.2]) as real))
  }

  /** The leftmost match supplies the two times, read as decimal numbers. */
  lemma ExtractLeftmost(path: string, p: nat, q: nat, r: nat)
    requires RegexMatchAt(path, p, q, r)
    requires forall p': nat, q': nat, r': nat :: p' < p ==> !RegexMatchAt(path, p', q', r')
    ensures ExtractStartEndTime(path).Ok?
    ensures ExtractStartEndTime(path).value
         == (DecimalValue(path[p + 1..q]) as real, DecimalValue(path[q + 1..r]) as real)
  {
    SearchFindsFirst(path, 0, p, q, r);
  }

  /** Scanning from any start up to the leftmost match finds that match. */
  lemma {:induction false} SearchFindsFirst(s: string, from: nat, p: nat, q: nat, r: nat)
    requires from <= p && RegexMatchAt(s, p, q, r)
    requires forall p': nat, q': nat, r': nat :: from <= p' < p ==> !RegexMatchAt(s, p', q', r')
    ensures Search(s, from) == Some((p, q, r))
    decreases p - from
  {
    MatchAtExact(s, p, q, r);
    if from < p {
      var m := MatchAt(s, from);
      if m.Some? {
        MatchAtExact(s, from, m.value.0, m.value.1);
      }
      SearchFindsFirst(s, from + 1, p, q, r);
    }
  }

  /** The name the clip cutter writes for a clip from start to end seconds. */
  function ClipName(prefix: string, start: nat, end: nat): string {
    prefix + "_" + NatToString(start) + "_" + NatToString(end) + ".mp4"
  }

  /** A match that ends inside the prefix is a match of the prefix alone. */
  lemma MatchWithinPrefix(prefix: string, suffix: string, p: nat, q: nat, r: nat)
    requires RegexMatchAt(prefix + suffix, p, q, r)
    ensures r + 4 <= |prefix| ==> RegexMatchAt(prefix, p, q, r)
  {
    var s := prefix + suffix;
    if r + 4 <= |prefix| {
      assert s[p + 1..q] == prefix[p + 1..q];
      assert s[q + 1..r] == prefix[q + 1..r];
      assert s[r..r + 4] == prefix[r..r + 4];
    }
  }

  /** A string without '.' has no match anywhere. */
  lemma NoDotNoMatch(s: string)
    requires '.' !in s
    ensures forall p, q, r :: !RegexMatchAt(s, p, q, r)
  {
    forall p: nat, q: nat, r: nat ensures !RegexMatchAt(s, p, q, r) {
      if r + 4 <= |s| {
        assert s[r..r + 4][0] == s[r];
      }
    }
  }

  /** A string without '_' has no match anywhere. */
  lemma NoUnderscoreNoMatch(s: string)
    requires '_' !in s
    ensures forall p, q, r :: !RegexMatchAt(s, p, q, r)
  {
  }

  /** In a clip name whose prefix has no match of its own, the pattern can only match at the end. */
  lemma {:induction false} ClipNameMatchesOnlyAtSuffix(prefix: string, start: nat, end: nat, p: nat, q: nat, r: nat)
    requires forall p', q', r' :: !RegexMatchAt(prefix, p', q', r')
    requires RegexMatchAt(ClipName(prefix, start, end), p, q, r)
    ensures p == |prefix|
  {
    var s := ClipName(prefix, start, end);
    var a, b := NatToString(start), NatToString(end);
    var i1 := |prefix|;
    var i2 := i1 + 1 + |a|;
    var i3 := i2 + 1 + |b|;
    assert |s| == i3 + 4;
    assert s == prefix + s[i1..];
    MatchWithinPrefix(prefix, s[i1..], p, q, r);
    assert r + 4 > i1;
    assert forall k :: r <= k < r + 4 ==> s[k] == ".mp4"[k - r];
    assert s[i1] == '_' && s[i2] == '_' && s[i3] == '.';
    assert r >= i1;
    assert forall k :: i1 < k < i2 ==> s[k] == a[k - i1 - 1];
    assert forall k :: i2 < k < i3 ==> s[k] == b[k - i2 - 1];
    assert s[r] == '.';
    assert r == i3;
    assert q <= i2;
    DigitsIn(s, q + 1, r);
    assert q == i2;
    assert p <= i1;
    DigitsIn(s, p + 1, q);
  }

  /** Parsing a clip name gives back the times it was written from. */
  lemma ClipNameRoundTrip(prefix: string, start: nat, end: nat)
    requires forall p, q, r :: !RegexMatchAt(prefix, p, q, r)
    ensures ExtractStartEndTime(ClipName(prefix, start, end)).Ok?
    ensures ExtractStartEndTime(ClipName(prefix, start, end)).value == (start as real, end as real)
  {
    var s := ClipName(prefix, start, end);
    var a, b := NatToString(start), NatToString(end);
    var i1 := |prefix|;
    var i2 := i1 + 1 + |a|;
    var i3 := i2 + 1 + |b|;
    assert s[i1 + 1..i2] == a;
    assert s[i2 + 1..i3] == b;
    assert s[i3..i3 + 4] == ".mp4";
    assert RegexMatchAt(s, i1, i2, i3);
    forall p': nat, q': nat, r': nat | p' < i1
      ensures !RegexMatchAt(s, p', q', r')
    {
      if RegexMatchAt(s, p', q', r') {
        ClipNameMatchesOnlyAtSuffix(prefix, start, end, p', q', r');
      }
    }
    ExtractLeftmost(s, i1, i2, i3);
    DecimalOfNatToString(start);
    DecimalOfNatToString(end);
  }

  /** A clip kept under a relative directory such as `./clips/` still parses back to its times. */
  lemma DottedDirectoryRoundTrip(start: nat, end: nat)
    ensures ExtractStartEndTime(ClipName("./clips/a", start, end)).Ok?
    ensures ExtractStartEndTime(ClipName("./clips/a", start, end)).value == (start as real, end as real)
  {
    NoUnderscoreNoMatch("./clips/a");
    ClipNameRoundTrip("./clips/a", start, end);
  }

  /** The prefix the clip cutter gives its clip names (extract_clip_from_movie.py:16). */
  const ClipNamePrefix: string := "input_clips/" + "planet_earth_01_" + "from_pole_to_pole_clip"

  /** The path of the harness's second clip. */
  const SecondClipPath: string := ClipNamePrefix + "_2060_2075.mp4"

  /** The second clip's path is the name the cutter writes for 2060 s to 2075 s. */
  lemma SecondClipName()
    ensures ClipName(ClipNamePrefix, 2060, 2075) == SecondClipPath
  {
    assert NatToString(2060) == "2060";
    assert NatToString(2075) == "2075";
    assert "_" + "2060" + "_" + "2075" + ".mp4" == "_2060_2075.mp4";
  }

  /** The second clip of the harness names the interval 2060 s to 2075 s. */
  lemma SecondClipTimes()
    ensures ExtractStartEndTime(SecondClipPath).Ok?
    ensures ExtractStartEndTime(SecondClipPath).value == (2060.0, 2075.0)
  {
    // The prefix is written as three literals so that the absence of '.'
    // can be checked piece by piece.
    assert '.' !in "input_clips/" && '.' !in "planet_earth_01_" && '.' !in "from_pole_to_pole_clip";
    assert '.' !in ClipNamePrefix;
    NoDotNoMatch(ClipNamePrefix);
    ClipNameRoundTrip(ClipNamePrefix, 2060, 2075);
    SecondClipName();
  }
}
