/**
 * `extractPitch` of `src/lib/audio/pitch.ts`: one pitch estimate per hop of the
 * buffer. The YIN detector of the `pitchfinder` library is a parameter
 * (`detectPitch`), so only what the loop around it does is modelled.
 */
module Pitch {
  import opened Wrappers

  /** The default hop and chunk sizes (samples) the analysis worker relies on. */
  const DefaultHopSize: nat := 512
  const DefaultChunkSize: nat := 2048

  /** One hop: `freq` is `None` where the detector returned `null`. */
  datatype PitchFrame = PitchFrame(time: real, freq: Option<real>, confidence: nat)

  /** JavaScript truthiness of a `number | null`: present and nonzero. */
  predicate Truthy(freq: Option<real>) {
    freq.Some? && freq.value != 0.0
  }

  function Min(a: int, b: int): int {
    if a <= b then a else b
  }

  /** `data.subarray(i, i + chunkSize)`: clipped at the end of the buffer, never padded. */
  function Chunk(data: seq<real>, i: nat, chunkSize: nat): (w: seq<real>)
    requires i < |data|
    ensures |w| == Min(chunkSize, |data| - i)
    ensures forall j :: 0 <= j < |w| ==> w[j] == data[i + j]
  {
    data[i..Min(i + chunkSize, |data|)]
  }

  /** The number of hops needed to cover `n` samples: ceil(n / d). */
  function CeilDiv(n: nat, d: nat): nat
    requires d > 0
  {
    (n + d - 1) / d
  }

  /** `k` is the least count of `d`-sample hops that covers `n` samples. */
  lemma CeilDivUnique(n: nat, d: nat, k: nat)
    requires d > 0
    requires k * d >= n && (k == 0 || (k - 1) * d < n)
    ensures k == CeilDiv(n, d)
  {
    var q := (n + d - 1) / d;
    assert q * d <= n + d - 1 < q * d + d;
    LessByFactor(q, k + 1, d);
    if k > 0 {
      LessByFactor(k - 1, q, d);
    }
  }

  lemma LessByFactor(a: int, b: int, d: int)
    requires d > 0 && a * d < b * d
    ensures a < b
  {
    assert (b - a) * d > 0;
  }

  /** The frame the loop records for the hop starting at sample `i`. */
  function FrameAt(data: seq<real>, sampleRate: real, detectPitch: seq<real> -> Option<real>, chunkSize: nat, i: nat): (f: PitchFrame)
    requires i < |data| && sampleRate > 0.0
    ensures f.time == i as real / sampleRate
    ensures f.freq == detectPitch(Chunk(data, i, chunkSize))
    ensures f.confidence == (if Truthy(f.freq) then 1 else 0)
  {
    var freq := detectPitch(Chunk(data, i, chunkSize));
    PitchFrame(i as real / sampleRate, freq, if Truthy(freq) then 1 else 0)
  }

  method ExtractPitch(
    data: seq<real>,
    sampleRate: real,
    detectPitch: seq<real> -> Option<real>,
    hopSize: nat,
    chunkSize: nat
  ) returns (frames: seq<PitchFrame>)
    requires hopSize > 0 && sampleRate > 0.0
    ensures |frames| == CeilDiv(|data|, hopSize)
    ensures |data| == 0 ==> frames == []
    ensures forall k :: 0 <= k < |frames| ==>
      k * hopSize < |data| && frames[k] == FrameAt(data, sampleRate, detectPitch, chunkSize, k * hopSize)
    ensures forall j, k :: 0 <= j < k < |frames| ==> frames[j].time < frames[k].time
  {
    frames := [];
    var i: nat := 0;
    while i < |data|
      invariant i == |frames| * hopSize
      invariant |frames| == 0 || (|frames| - 1) * hopSize < |data|
      invariant forall k :: 0 <= k < |frames| ==>
        k * hopSize < |data| && frames[k] == FrameAt(data, sampleRate, detectPitch, chunkSize, k * hopSize)
      decreases |data| - i
    {
      var frame := data[i..Min(i + chunkSize, |data|)];
      var freq := detectPitch(frame);
      frames := frames + [PitchFrame(i as real / sampleRate, freq, if Truthy(freq) then 1 else 0)];
      i := i + hopSize;
    }
    CeilDivUnique(|data|, hopSize, |frames|);
    forall j, k | 0 <= j < k < |frames| ensures frames[j].time < frames[k].time {
      MultiplyStrictNat(j, k, hopSize);
      DivideStrict((j * hopSize) as real, (k * hopSize) as real, sampleRate);
    }
  }

  lemma MultiplyStrictNat(j: nat, k: nat, d: nat)
    requires j < k && d > 0
    ensures j * d < k * d
  {
  }

  lemma DivideStrict(a: real, b: real, s: real)
    requires a < b && s > 0.0
    ensures a / s < b / s
  {
    assert a / s * s == a && b / s * s == b;
  }

  /** The analysis worker's call: hops of 512 samples, so ceil(L / 512) frames. */
  method ExtractPitchWithDefaults(
    data: seq<real>,
    sampleRate: real,
    detectPitch: seq<real> -> Option<real>
  ) returns (frames: seq<PitchFrame>)
    requires sampleRate > 0.0
    ensures |frames| == CeilDiv(|data|, 512)
    ensures forall k :: 0 <= k < |frames| ==> frames[k].time == (k * 512) as real / sampleRate
    ensures forall k :: 0 <= k < |frames| ==>
      k * 512 < |data| && frames[k] == FrameAt(data, sampleRate, detectPitch, 2048, k * 512)
  {
    frames := ExtractPitch(data, sampleRate, detectPitch, DefaultHopSize, DefaultChunkSize);
  }
}
