/**
 * `extractOnsets` of `src/lib/audio/onset.ts`: spectral-flux onset detection.
 *
 * The buffer is cut into 2048-sample frames every 512 samples, each frame is
 * multiplied by the analysis window and turned into 1024 magnitude bins; the
 * flux of a frame is the sum of the positive bin increases over the previous
 * frame (the first frame is compared with all zeros). The flux series is then
 * smoothed (mean over radius 3), thresholded against its local mean (radius
 * 16), and its strict positive local maxima become onset times, greedily kept
 * only when more than 0.05 s after the last kept one.
 *
 * The FFT and the Hann window are parameters: `spectrumOf` maps a windowed
 * frame to its magnitude bins and `window` is the given window.
 */
module Onset {

  const FrameSize: nat := 2048
  const HopSize: nat := 512
  const Bins: nat := 1024
  const SmoothRadius: nat := 3
  const ThresholdRadius: nat := 16
  const MinInterval: real := 0.05

  // ----- Spectral flux -----

  /** The FFT stand-in yields one magnitude per bin. */
  ghost predicate BinsPerFrame(spectrumOf: seq<real> -> seq<real>) {
    forall f :: |spectrumOf(f)| == Bins
  }

  /** Half-wave rectification: only increases count. */
  function Rectified(d: real): real {
    if d > 0.0 then d else 0.0
  }

  /** The sum of the positive increases from `prev` to `cur`, bin by bin. */
  function FluxSum(prev: seq<real>, cur: seq<real>): (r: real)
    requires |prev| == |cur|
    ensures r >= 0.0
    ensures (forall k :: 0 <= k < |cur| ==> cur[k] <= prev[k]) ==> r == 0.0
  {
    if cur == [] then 0.0
    else
      var n := |cur| - 1;
      FluxSum(prev[..n], cur[..n]) + Rectified(cur[n] - prev[n])
  }

  function Zeros(n: nat): (z: seq<real>)
    ensures |z| == n && forall k :: 0 <= k < n ==> z[k] == 0.0
  {
    seq(n, _ => 0.0)
  }

  /** The number of frame starts `i = 0, 512, 1024, ...` with `i + 2048 < n`. */
  function HopCount(n: nat): nat {
    if n > FrameSize then (n - FrameSize - 1) / HopSize + 1 else 0
  }

  /** Hop `h` is analysed exactly when its frame starts early enough. */
  lemma HopCountCharacterization(n: nat, h: nat)
    ensures h < HopCount(n) <==> h * HopSize + FrameSize < n
  {
    if n > FrameSize {
      var q := (n - FrameSize - 1) / HopSize;
      assert q * HopSize <= n - FrameSize - 1 < q * HopSize + HopSize;
      if h <= q {
        assert h * HopSize <= q * HopSize;
      } else {
        assert h * HopSize >= (q + 1) * HopSize;
      }
    }
  }

  /** The frame starting at sample `i`, multiplied by the window. */
  function Windowed(buffer: seq<real>, window: seq<real>, i: nat): (frame: seq<real>)
    requires |window| == FrameSize && i + FrameSize <= |buffer|
    ensures |frame| == FrameSize
    ensures forall j :: 0 <= j < FrameSize ==> frame[j] == buffer[i + j] * window[j]
  {
    seq(FrameSize, j requires 0 <= j < FrameSize => buffer[i + j] * window[j])
  }

  /** The magnitude bins of hop `h`. */
  function Magnitudes(buffer: seq<real>, window: seq<real>, spectrumOf: seq<real> -> seq<real>, h: nat): (m: seq<real>)
    requires |window| == FrameSize && h * HopSize + FrameSize < |buffer|
    requires BinsPerFrame(spectrumOf)
    ensures |m| == Bins
  {
    spectrumOf(Windowed(buffer, window, h * HopSize))
  }

  /** What hop `h` is compared with: the previous hop's bins, or zeros for the first hop. */
  function Predecessor(buffer: seq<real>, window: seq<real>, spectrumOf: seq<real> -> seq<real>, h: nat): (m: seq<real>)
    requires |window| == FrameSize && h * HopSize + FrameSize < |buffer|
    requires BinsPerFrame(spectrumOf)
    ensures |m| == Bins
  {
    if h == 0 then Zeros(Bins) else Magnitudes(buffer, window, spectrumOf, h - 1)
  }

  /** The flux of hop `h`. */
  function FluxAt(buffer: seq<real>, window: seq<real>, spectrumOf: seq<real> -> seq<real>, h: nat): real
    requires |window| == FrameSize && h * HopSize + FrameSize < |buffer|
    requires BinsPerFrame(spectrumOf)
  {
    FluxSum(Predecessor(buffer, window, spectrumOf, h), Magnitudes(buffer, window, spectrumOf, h))
  }

  /** The whole flux series: one non-negative value per analysed hop. */
  function SpectralFlux(buffer: seq<real>, window: seq<real>, spectrumOf: seq<real> -> seq<real>): (flux: seq<real>)
    requires |window| == FrameSize && BinsPerFrame(spectrumOf)
    ensures |flux| == HopCount(|buffer|)
    ensures |buffer| <= FrameSize ==> flux == []
    ensures forall h :: 0 <= h < |flux| ==> flux[h] >= 0.0
  {
    seq(HopCount(|buffer|), h requires 0 <= h < HopCount(|buffer|) =>
      HopCountCharacterization(|buffer|, h);
      FluxAt(buffer, window, spectrumOf, h))
  }

  /** The inner frame loop: copy one windowed frame into a fresh array. */
  method FillFrame(buffer: seq<real>, window: seq<real>, i: nat) returns (frame: array<real>)
    requires |window| == FrameSize && i + FrameSize <= |buffer|
    ensures fresh(frame)
    ensures frame[..] == Windowed(buffer, window, i)
  {
    frame := new real[FrameSize];
    for j := 0 to FrameSize
      invariant forall m :: 0 <= m < j ==> frame[m] == buffer[i + m] * window[m]
    {
      frame[j] := buffer[i + j] * window[j];
    }
  }

  /** The bin loop: sum the positive increases and store the new bins as the previous ones. */
  method AccumulateFlux(prevMag: array<real>, mag: seq<real>) returns (sum: real)
    requires prevMag.Length == |mag|
    modifies prevMag
    ensures sum == FluxSum(old(prevMag[..]), mag)
    ensures prevMag[..] == mag
  {
    ghost var prev := prevMag[..];
    sum := 0.0;
    for k := 0 to prevMag.Length
      invariant prevMag[..k] == mag[..k]
      invariant prevMag[k..] == prev[k..]
      invariant sum == FluxSum(prev[..k], mag[..k])
    {
      var diff := mag[k] - prevMag[k];
      assert prev[..k + 1][..k] == prev[..k] && mag[..k + 1][..k] == mag[..k];
      if diff > 0.0 {
        sum := sum + diff;
      }
      prevMag[k] := mag[k];
      assert prevMag[..k + 1] == mag[..k + 1];
    }
    assert prev[..prevMag.Length] == prev && mag[..prevMag.Length] == mag;
  }

  /** One pass of the analysis loop: window hop `h`, take its bins, add up its flux and keep the bins. */
  method HopFlux(buffer: seq<real>, window: seq<real>, spectrumOf: seq<real> -> seq<real>, prevMag: array<real>, h: nat)
    returns (sum: real)
    requires |window| == FrameSize && BinsPerFrame(spectrumOf) && h * HopSize + FrameSize < |buffer|
    requires prevMag[..] == Predecessor(buffer, window, spectrumOf, h)
    modifies prevMag
    ensures sum == FluxAt(buffer, window, spectrumOf, h)
    ensures prevMag[..] == Magnitudes(buffer, window, spectrumOf, h)
  {
    var frame := FillFrame(buffer, window, h * HopSize);
    var mag := spectrumOf(frame[..]);
    sum := AccumulateFlux(prevMag, mag);
  }

  /** The analysis loop of `extractOnsets`. */
  method ComputeFlux(buffer: seq<real>, window: seq<real>, spectrumOf: seq<real> -> seq<real>) returns (flux: seq<real>)
    requires |window| == FrameSize && BinsPerFrame(spectrumOf)
    ensures flux == SpectralFlux(buffer, window, spectrumOf)
  {
    var prevMag := new real[Bins](_ => 0.0);
    flux := [];
    var i: nat := 0;
    while i + FrameSize < |buffer|
      invariant i == |flux| * HopSize
      invariant |flux| <= HopCount(|buffer|)
      invariant forall h :: 0 <= h < |flux| ==> h * HopSize + FrameSize < |buffer|
      invariant forall h :: 0 <= h < |flux| ==> flux[h] == FluxAt(buffer, window, spectrumOf, h)
      invariant prevMag[..] == if |flux| == 0 then Zeros(Bins) else Magnitudes(buffer, window, spectrumOf, |flux| - 1)
      decreases |buffer| - i
    {
      HopCountCharacterization(|buffer|, |flux|);
      var sum := HopFlux(buffer, window, spectrumOf, prevMag, |flux|);
      ghost var done := flux;
      flux := flux + [sum];
      assert forall h :: 0 <= h < |done| ==> flux[h] == done[h];
      i := i + HopSize;
    }
    HopCountCharacterization(|buffer|, |flux|);
  }

  // ----- Smoothing and adaptive threshold -----

  function Sum(s: seq<real>): real {
    if s == [] then 0.0 else Sum(s[..|s| - 1]) + s[|s| - 1]
  }

  function Max(a: int, b: int): int {
    if a >= b then a else b
  }

  function Min(a: int, b: int): int {
    if a <= b then a else b
  }

  /** The first index of the window of radius `r` around `i`, clipped at 0. */
  function WindowStart(i: nat, r: nat): nat {
    Max(0, i - r)
  }

  /** One past the last index of the window of radius `r` around `i`, clipped at `n`. */
  function WindowEnd(n: nat, i: nat, r: nat): nat {
    Min(n, i + r + 1)
  }

  /** The in-range elements within radius `r` of index `i`; never empty, since `i` is one of them. */
  function Neighbourhood(data: seq<real>, i: nat, r: nat): (w: seq<real>)
    requires i < |data|
    ensures 1 <= |w| <= 2 * r + 1
  {
    data[WindowStart(i, r)..WindowEnd(|data|, i, r)]
  }

  function LocalMean(data: seq<real>, i: nat, r: nat): real
    requires i < |data|
  {
    var w := Neighbourhood(data, i, r);
    Sum(w) / |w| as real
  }

  /** `smooth(data, radius)`. */
  function Smoothed(data: seq<real>, radius: nat): (s: seq<real>)
    ensures |s| == |data|
  {
    seq(|data|, i requires 0 <= i < |data| => LocalMean(data, i, radius))
  }

  /** `adaptiveThreshold(data, windowSize)`: the excess over the local mean, or 0. */
  function Thresholded(data: seq<real>, windowSize: nat): (s: seq<real>)
    ensures |s| == |data|
    ensures forall i :: 0 <= i < |s| ==> s[i] >= 0.0
  {
    seq(|data|, i requires 0 <= i < |data| =>
      var mean := LocalMean(data, i, windowSize);
      if data[i] > mean then data[i] - mean else 0.0)
  }

  /** The index loop shared by `smooth` and `adaptiveThreshold`: the mean of the in-range neighbours. */
  method WindowMean(data: seq<real>, i: nat, radius: nat) returns (mean: real)
    requires i < |data|
    ensures mean == LocalMean(data, i, radius)
  {
    var lo, hi := WindowStart(i, radius), WindowEnd(|data|, i, radius);
    var sum := 0.0;
    var count: nat := 0;
    var j: int := -(radius as int);
    while j <= radius
      invariant -(radius as int) <= j <= radius + 1
      invariant lo <= lo + count <= hi
      invariant lo + count == Max(lo, Min(hi, i + j))
      invariant sum == Sum(data[lo..lo + count])
      decreases radius - j
    {
      var idx := i + j;
      if 0 <= idx < |data| {
        assert idx == lo + count;
        assert data[lo..idx + 1][..count] == data[lo..idx];
        sum := sum + data[idx];
        count := count + 1;
      }
      j := j + 1;
    }
    assert data[lo..lo + count] == Neighbourhood(data, i, radius);
    mean := sum / count as real;
  }

  method Smooth(data: seq<real>, radius: nat) returns (out: seq<real>)
    ensures out == Smoothed(data, radius)
  {
    out := [];
    for i := 0 to |data|
      invariant |out| == i
      invariant forall k :: 0 <= k < i ==> out[k] == LocalMean(data, k, radius)
    {
      var mean := WindowMean(data, i, radius);
      out := out + [mean];
    }
  }

  method AdaptiveThreshold(data: seq<real>, windowSize: nat) returns (out: seq<real>)
    ensures out == Thresholded(data, windowSize)
  {
    out := [];
    for i := 0 to |data|
      invariant |out| == i
      invariant forall k :: 0 <= k < i ==> out[k] == Thresholded(data, windowSize)[k]
    {
      var mean := WindowMean(data, i, windowSize);
      var v := data[i];
      out := out + [if v > mean then v - mean else 0.0];
    }
  }

  // ----- Peak picking -----

  /** Index `i` is a strict positive local maximum. */
  predicate IsPeak(t: seq<real>, i: nat)
    requires 0 < i < |t| - 1
  {
    t[i] > t[i - 1] && t[i] > t[i + 1] && t[i] > 0.0
  }

  /** The time in seconds of hop `i`. */
  function HopTime(i: nat, sampleRate: real): real
    requires sampleRate > 0.0
  {
    (i * HopSize) as real / sampleRate
  }

  /** The onsets kept after examining the interior indices `1 .. k-1`, left to right. */
  function Picks(t: seq<real>, sampleRate: real, k: nat): seq<real>
    requires sampleRate > 0.0 && (k <= 1 || k < |t|)
    decreases k
  {
    if k <= 1 then []
    else
      var before := Picks(t, sampleRate, k - 1);
      var time := HopTime(k - 1, sampleRate);
      if IsPeak(t, k - 1) && (before == [] || time - before[|before| - 1] > MinInterval)
      then before + [time]
      else before
  }

  /** The number of loop iterations plus one: indices `1 .. |t|-2` are examined. */
  function LastIndex(t: seq<real>): nat {
    if |t| >= 1 then |t| - 1 else 0
  }

  function PickedOnsets(t: seq<real>, sampleRate: real): seq<real>
    requires sampleRate > 0.0
  {
    Picks(t, sampleRate, LastIndex(t))
  }

  /** The peak-picking loop of `extractOnsets`. */
  method PickPeaks(t: seq<real>, sampleRate: real) returns (onsets: seq<real>)
    requires sampleRate > 0.0
    ensures onsets == PickedOnsets(t, sampleRate)
  {
    onsets := [];
    var i := 1;
    while i < |t| - 1
      invariant 1 <= i && (i <= 1 || i < |t|)
      invariant onsets == Picks(t, sampleRate, i)
    {
      if t[i] > t[i - 1] && t[i] > t[i + 1] && t[i] > 0.0 {
        var time := (i * HopSize) as real / sampleRate;
        if |onsets| == 0 || time - onsets[|onsets| - 1] > MinInterval {
          onsets := onsets + [time];
        }
      }
      i := i + 1;
    }
  }

  /** The whole pipeline as one function of its inputs. */
  function Onsets(buffer: seq<real>, sampleRate: real, window: seq<real>, spectrumOf: seq<real> -> seq<real>): seq<real>
    requires sampleRate > 0.0 && |window| == FrameSize && BinsPerFrame(spectrumOf)
  {
    var smoothed := Smoothed(SpectralFlux(buffer, window, spectrumOf), SmoothRadius);
    PickedOnsets(Thresholded(smoothed, ThresholdRadius), sampleRate)
  }

  method ExtractOnsets(buffer: seq<real>, sampleRate: real, window: seq<real>, spectrumOf: seq<real> -> seq<real>)
    returns (onsets: seq<real>)
    requires sampleRate > 0.0 && |window| == FrameSize && BinsPerFrame(spectrumOf)
    ensures onsets == Onsets(buffer, sampleRate, window, spectrumOf)
    ensures |buffer| <= FrameSize ==> onsets == []
  {
    var flux := ComputeFlux(buffer, window, spectrumOf);
    var smoothed := Smooth(flux, SmoothRadius);
    var thresholded := AdaptiveThreshold(smoothed, ThresholdRadius);
    onsets := PickPeaks(thresholded, sampleRate);
  }

  // ----- Properties -----

  function SeqMin(s: seq<real>): (m: real)
    requires |s| >= 1
    ensures m in s && forall k :: 0 <= k < |s| ==> m <= s[k]
  {
    if |s| == 1 then s[0]
    else
      var m := SeqMin(s[..|s| - 1]);
      if s[|s| - 1] < m then s[|s| - 1] else m
  }

  function SeqMax(s: seq<real>): (m: real)
    requires |s| >= 1
    ensures m in s && forall k :: 0 <= k < |s| ==> s[k] <= m
  {
    if |s| == 1 then s[0]
    else
      var m := SeqMax(s[..|s| - 1]);
      if s[|s| - 1] > m then s[|s| - 1] else m
  }

  /** A sum lies between length times any lower bound and length times any upper bound. */
  lemma {:induction false} SumBetween(s: seq<real>, lo: real, hi: real)
    requires forall k :: 0 <= k < |s| ==> lo <= s[k] <= hi
    ensures |s| as real * lo <= Sum(s) <= |s| as real * hi
  {
    if s != [] {
      SumBetween(s[..|s| - 1], lo, hi);
    }
  }

  /** A mean lies between the smallest and the largest element it averages. */
  lemma MeanBetween(s: seq<real>)
    requires |s| >= 1
    ensures SeqMin(s) <= Sum(s) / |s| as real <= SeqMax(s)
  {
    MeanWithinBounds(s, SeqMin(s), SeqMax(s));
  }

  lemma MeanWithinBounds(s: seq<real>, lo: real, hi: real)
    requires |s| >= 1
    requires forall k :: 0 <= k < |s| ==> lo <= s[k] <= hi
    ensures lo <= Sum(s) / |s| as real <= hi
  {
    SumBetween(s, lo, hi);
    QuotientBetween(Sum(s), |s| as real, lo, hi);
  }

  lemma QuotientBetween(total: real, n: real, lo: real, hi: real)
    requires n > 0.0 && n * lo <= total <= n * hi
    ensures lo <= total / n <= hi
  {
    DivideWeak(n * lo, total, n);
    DivideWeak(total, n * hi, n);
    assert n * lo / n == lo;
    assert n * hi / n == hi;
  }

  lemma DivideWeak(a: real, b: real, s: real)
    requires a <= b && s > 0.0
    ensures a / s <= b / s
  {
    assert a / s * s == a && b / s * s == b;
  }

  /** Each smoothed value lies between the minimum and the maximum of the values it averages. */
  lemma SmoothedWithinNeighbourhood(data: seq<real>, radius: nat, i: nat)
    requires i < |data|
    ensures SeqMin(Neighbourhood(data, i, radius)) <= Smoothed(data, radius)[i]
    ensures Smoothed(data, radius)[i] <= SeqMax(Neighbourhood(data, i, radius))
  {
    MeanBetween(Neighbourhood(data, i, radius));
  }

  /** Smoothing a non-negative series (such as the flux) keeps it non-negative. */
  lemma SmoothedNonNegative(data: seq<real>, radius: nat)
    requires forall k :: 0 <= k < |data| ==> data[k] >= 0.0
    ensures forall k :: 0 <= k < |data| ==> Smoothed(data, radius)[k] >= 0.0
  {
    forall k | 0 <= k < |data| ensures Smoothed(data, radius)[k] >= 0.0 {
      SmoothedWithinNeighbourhood(data, radius, k);
    }
  }

  /** A thresholded value is positive exactly where the input exceeds its local mean, and is then the excess. */
  lemma ThresholdedIsExcess(data: seq<real>, windowSize: nat, i: nat)
    requires i < |data|
    ensures Thresholded(data, windowSize)[i] > 0.0 <==> data[i] > LocalMean(data, i, windowSize)
    ensures data[i] > LocalMean(data, i, windowSize) ==>
      Thresholded(data, windowSize)[i] == data[i] - LocalMean(data, i, windowSize)
  {
  }

  lemma HopTimeIncreasing(i: nat, j: nat, sampleRate: real)
    requires i < j && sampleRate > 0.0
    ensures HopTime(i, sampleRate) < HopTime(j, sampleRate)
  {
    var a, b := (i * HopSize) as real, (j * HopSize) as real;
    assert a < b;
    assert a / sampleRate * sampleRate == a && b / sampleRate * sampleRate == b;
  }

  /** Every kept onset is the time of an interior strict positive local maximum examined so far. */
  lemma {:induction false} PicksArePeakTimes(t: seq<real>, sampleRate: real, k: nat)
    requires sampleRate > 0.0 && (k <= 1 || k < |t|)
    ensures forall j :: 0 <= j < |Picks(t, sampleRate, k)| ==>
      exists i :: 0 < i < k && i < |t| - 1 && IsPeak(t, i) && Picks(t, sampleRate, k)[j] == HopTime(i, sampleRate)
  {
    if k > 1 {
      PicksArePeakTimes(t, sampleRate, k - 1);
      var before := Picks(t, sampleRate, k - 1);
      var r := Picks(t, sampleRate, k);
      forall j | 0 <= j < |r|
        ensures exists i :: 0 < i < k && i < |t| - 1 && IsPeak(t, i) && r[j] == HopTime(i, sampleRate)
      {
        if j < |before| {
          assert r[j] == before[j];
          var i :| 0 < i < k - 1 && i < |t| - 1 && IsPeak(t, i) && before[j] == HopTime(i, sampleRate);
        } else {
          assert r[j] == HopTime(k - 1, sampleRate) && IsPeak(t, k - 1);
        }
      }
      assert forall j :: 0 <= j < |r| ==>
        exists i :: 0 < i < k && i < |t| - 1 && IsPeak(t, i) && r[j] == HopTime(i, sampleRate);
    } else {
      assert Picks(t, sampleRate, k) == [];
    }
  }

  /** Any two kept onsets are more than 0.05 s apart, later ones later: the list is strictly increasing. */
  lemma {:induction false} PicksSpaced(t: seq<real>, sampleRate: real, k: nat)
    requires sampleRate > 0.0 && (k <= 1 || k < |t|)
    ensures forall a, b :: 0 <= a < b < |Picks(t, sampleRate, k)| ==>
      Picks(t, sampleRate, k)[b] - Picks(t, sampleRate, k)[a] > MinInterval
  {
    if k > 1 {
      PicksSpaced(t, sampleRate, k - 1);
    }
  }

  /** Every onset kept after examining indices below `k` is earlier than hop `k`. */
  lemma {:induction false} PicksPrecede(t: seq<real>, sampleRate: real, k: nat)
    requires sampleRate > 0.0 && (k <= 1 || k < |t|)
    ensures forall j :: 0 <= j < |Picks(t, sampleRate, k)| ==> Picks(t, sampleRate, k)[j] < HopTime(k, sampleRate)
  {
    if k > 1 {
      PicksPrecede(t, sampleRate, k - 1);
      HopTimeIncreasing(k - 1, k, sampleRate);
    } else {
      assert Picks(t, sampleRate, k) == [];
    }
  }

  /** Each peak below index `k` has an onset in `r` at most 0.05 s before (or at) its time. */
  ghost predicate CoversPeaks(r: seq<real>, t: seq<real>, sampleRate: real, k: nat)
    requires sampleRate > 0.0
  {
    forall i :: 0 < i < k && i < |t| - 1 && IsPeak(t, i) ==>
      exists j :: 0 <= j < |r| && r[j] <= HopTime(i, sampleRate) && HopTime(i, sampleRate) - r[j] <= MinInterval
  }

  /** A peak is dropped only when an onset was kept no more than 0.05 s before it. */
  lemma {:induction false} PicksCoverPeaks(t: seq<real>, sampleRate: real, k: nat)
    requires sampleRate > 0.0 && (k <= 1 || k < |t|)
    ensures CoversPeaks(Picks(t, sampleRate, k), t, sampleRate, k)
  {
    if k > 1 {
      PicksCoverPeaks(t, sampleRate, k - 1);
      var before := Picks(t, sampleRate, k - 1);
      var r := Picks(t, sampleRate, k);
      assert before <= r;
      PicksPrecede(t, sampleRate, k - 1);
      forall i | 0 < i < k && i < |t| - 1 && IsPeak(t, i)
        ensures exists j :: 0 <= j < |r| && r[j] <= HopTime(i, sampleRate) && HopTime(i, sampleRate) - r[j] <= MinInterval
      {
        var time := HopTime(i, sampleRate);
        if i < k - 1 {
          var j :| 0 <= j < |before| && before[j] <= time && time - before[j] <= MinInterval;
          assert r[j] == before[j];
        } else if |r| > |before| {
          assert r[|r| - 1] == time;
        } else {
          var last := |before| - 1;
          assert r[last] < time && time - r[last] <= MinInterval;
        }
      }
      assert CoversPeaks(r, t, sampleRate, k);
    } else {
      assert Picks(t, sampleRate, k) == [];
    }
  }

  /**
   * What `extractOnsets` promises about its result: every onset is the time
   * `i * 512 / sampleRate` of an interior strict positive local maximum of the
   * thresholded flux (never the first or the last index), onsets are more than
   * 0.05 s apart and increasing, and a maximum is left out only when an onset
   * was kept at most 0.05 s before it.
   */
  lemma OnsetsProperties(buffer: seq<real>, sampleRate: real, window: seq<real>, spectrumOf: seq<real> -> seq<real>)
    requires sampleRate > 0.0 && |window| == FrameSize && BinsPerFrame(spectrumOf)
    ensures var t := Thresholded(Smoothed(SpectralFlux(buffer, window, spectrumOf), SmoothRadius), ThresholdRadius);
            var r := Onsets(buffer, sampleRate, window, spectrumOf);
      && (forall j :: 0 <= j < |r| ==> exists i :: 0 < i < |t| - 1 && IsPeak(t, i) && r[j] == HopTime(i, sampleRate))
      && (forall a, b :: 0 <= a < b < |r| ==> r[b] - r[a] > MinInterval)
      && (forall i :: 0 < i < |t| - 1 && IsPeak(t, i) ==>
            exists j :: 0 <= j < |r| && r[j] <= HopTime(i, sampleRate) && HopTime(i, sampleRate) - r[j] <= MinInterval)
  {
    var t := Thresholded(Smoothed(SpectralFlux(buffer, window, spectrumOf), SmoothRadius), ThresholdRadius);
    PicksArePeakTimes(t, sampleRate, LastIndex(t));
    PicksSpaced(t, sampleRate, LastIndex(t));
    PicksCoverPeaks(t, sampleRate, LastIndex(t));
    assert CoversPeaks(PickedOnsets(t, sampleRate), t, sampleRate, LastIndex(t));
  }
}
