# WebTranscribe core, modelled and verified in Dafny

WebTranscribe is a browser tool for transcribing music by ear. This project
models the parts of it that carry the logic:

- **Playback transport** (`src/lib/engine/engine.svelte.ts`). The
  `AudioEngine` tracks the loaded blob and buffer, the sampled clock `now`,
  `isPlaying`, `startTime`, `offset`, `playbackRate` and the flag that
  suppresses one `ended` event. It also defines the derived `duration` and
  `playbackPosition`, and the operations `play`, `pause`, `stop`,
  `togglePlay`, `seekTo`, `clearAudio`, `loadAudio`, the source node's
  `onended` handler and one tick of the animation-frame clock.
  - Module `Transport` gives each operation as a pure state transition, with
    the lemmas about them.
  - Module `Engine` is the class itself. Its methods update its fields in
    place, and each is proved to reach the state that `Transport` gives.
- **Numeric parameters** (`src/lib/engine/parameter.ts`): construction with
  defaults, rounding to the nearest step, increment and decrement clamped to
  the bounds, and the slider attributes. Module `Parameter`.
- **Time formatting** (`formatTime` in `src/lib/utils.ts`): `MM:SS:mmm` or
  `MM:SS`, each field zero-padded. Module `FormatTime` proves the fields are
  in range and that the string reads back to those fields.
- **Pitch track** (`src/lib/audio/pitch.ts`): one frame per hop, each with
  its time, the detector's frequency on a chunk and a 0/1 confidence. Module
  `Pitch`.
- **Onset detection** (`src/lib/audio/onset.ts`): spectral flux over
  Hann-windowed frames, smoothing, adaptive threshold and peak picking with a
  50 ms minimum spacing. Module `Onset`.
- **WSOLA time stretching** (`rust/src/timestretch.rs`): the AMDF search
  `find_best_match` and the overlap-add loop of `process`. Module `Wsola`;
  module `Wrappers` holds `Option` and `Result`.

Modelling choices:

- Numbers are exact reals. Rust's `as usize` is written out as truncation
  saturating at 0. JavaScript's `%`, `Math.floor`, `Math.round` and
  `toString` are written out as well.
- The FFT magnitudes, the pitch detector and the Hann window come in as
  parameters: a function from frame to spectrum, a function from chunk to
  optional frequency, and a sequence of coefficients.
- The audio-context clock `ctx.currentTime` is the `currentTime` argument of
  the operations that read it.
- A Rust panic is the `Err` of a `Result`.

Where the system's documentation and the code differ, the model follows the
code:

- The `ended` handler calls `stop`, which rewinds to 0, not `pause`.
- The engine has no loop region or speed control. `playbackRate` is a field
  that nothing changes.

## Model

| member | source | states |
|---|---|---|
| `Parameter.NewParameter` | src/lib/engine/parameter.ts:22-28 | Each option that is absent takes its default: value 0, step 1, min −∞, max +∞, slider step 0.01. Each option that is given is kept. |
| `Parameter.JsRound` | src/lib/engine/parameter.ts:31 | `Math.round` yields the integer `n` with `x − ½ < n ≤ x + ½`, so halves round up. |
| `Parameter.ToNearestStep` | src/lib/engine/parameter.ts:30-32 | The result is always a whole multiple of the step. |
| `Parameter.ToNearestStepIsNearest` | src/lib/engine/parameter.ts:30-32 | For a positive step, the result lies within half a step of the value. |
| `Parameter.ToNearestStepOfMultiple` | src/lib/engine/parameter.ts:30-32 | A value already on the step grid is returned unchanged. |
| `Parameter.ToNearestStepIdempotent` | src/lib/engine/parameter.ts:30-32 | Rounding twice gives the same result as rounding once. |
| `Parameter.ToNearestStepMonotonic` | src/lib/engine/parameter.ts:30-32 | Rounding preserves order. |
| `Parameter.IncrementNeverExceedsMax` | src/lib/engine/parameter.ts:33-35 | When max lies on the step grid, `increment` never goes past max. |
| `Parameter.DecrementNeverBelowMin` | src/lib/engine/parameter.ts:36-38 | When min lies on the step grid, `decrement` never goes below min. |
| `Parameter.Increment` | src/lib/engine/parameter.ts:33-35 | `increment` always lands on the step grid, and for a positive step never more than half a step past a set max. |
| `Parameter.Decrement` | src/lib/engine/parameter.ts:36-38 | `decrement` always lands on the step grid, and for a positive step less than half a step below a set min. |
| `Parameter.IncrementIsOneStep` | src/lib/engine/parameter.ts:33-35 | From a grid value, `increment` moves up exactly one step when that stays within max. |
| `Parameter.DecrementIsOneStep` | src/lib/engine/parameter.ts:36-38 | From a grid value, `decrement` moves down exactly one step when that stays within min. |
| `Parameter.IncrementClampsAtMax` | src/lib/engine/parameter.ts:33-35 | With max 2 and step 0.1, incrementing 1.95 clamps to 2 before rounding. |
| `Parameter.GetSliderAttributes` | src/lib/engine/parameter.ts:41-47 | The slider gets the parameter's min and max and the slider step, not the hotkey step. |
| `FormatTime.NatToString` | src/lib/utils.ts:23 | `toString` of a whole number is a non-empty string of decimal digits, with a leading zero only for 0 itself. |
| `FormatTime.DigitsValueOfNatToString` | src/lib/utils.ts:23 | Those digits read back to the number. |
| `FormatTime.IntToString` | src/lib/utils.ts:23 | `toString` of a non-negative whole number is digits reading back to it. A negative one is `-` followed by the digits of its magnitude. |
| `FormatTime.PadStart` | src/lib/utils.ts:23-26 | `padStart(w, '0')` gives length max(w, length). The original string is the suffix, and only zeros are prepended. |
| `FormatTime.DigitsValueOfPadded` | src/lib/utils.ts:23-26 | Zero-padding a digit string keeps its value. |
| `FormatTime.FormatTime` | src/lib/utils.ts:16-19 | An undefined time is `--:--`, or `--:--:---` with milliseconds. |
| `FormatTime.Fields` | src/lib/utils.ts:20-22 | Definition of the three `Math.floor` lines with JavaScript's truncating `%`; properties in `FieldsInRange`. |
| `FormatTime.FieldsInRange` | src/lib/utils.ts:20-22 | For a non-negative time: minutes is the floor of t/60, seconds are 0..59, and minutes·60 + seconds is the whole seconds of t. Milliseconds are 0..999, the floor of the fractional part times 1000. |
| `FormatTime.FormatTimeFields` | src/lib/utils.ts:20-26 | The formatted string is the padded minutes, seconds and (unless excluded) milliseconds, joined by colons. |
| `FormatTime.SplitAppend` | src/lib/utils.ts:23-25 | Splitting at `:` after a colon-free field yields that field followed by the split of the rest. |
| `FormatTime.ParseTwoFields` | src/lib/utils.ts:23 | Two digit fields joined by `:` read back as minutes and seconds. |
| `FormatTime.ParseThreeFields` | src/lib/utils.ts:23-26 | Three digit fields read back as minutes, seconds and milliseconds. |
| `FormatTime.FormatTimeRoundTrip` | src/lib/utils.ts:16-28 | For any time ≥ 0, reading the formatted string back gives exactly the computed fields (milliseconds 0 when excluded). The string has 2 or 3 colon-separated fields accordingly. |
| `FormatTime.LongMinutesKeepAllDigits` | src/lib/utils.ts:20-23 | From 100 minutes on, the minutes field has 3 or more digits: padding never truncates. |
| `Pitch.Chunk` | src/lib/audio/pitch.ts:17 | `subarray(i, i + chunkSize)` has min(chunkSize, remaining) samples, namely the samples from `i` on. |
| `Pitch.FrameAt` | src/lib/audio/pitch.ts:17-23 | A frame's time is i/sampleRate and its frequency is the detector's result on the chunk. Confidence is 1 exactly when that frequency is truthy. |
| `Pitch.ExtractPitch` | src/lib/audio/pitch.ts:4-29 | There are ⌈L/hop⌉ frames, none for empty data. Frame k is the frame at sample k·hop, and times strictly increase. |
| `Pitch.ExtractPitchWithDefaults` | src/lib/audio/pitch.ts:4-24 | With the defaults hop 512 and chunk 2048: ⌈L/512⌉ frames. Frame k is at time 512k/sampleRate, and its frequency and confidence come from the detector run on the 2048-sample chunk at sample 512k. |
| `Onset.FluxSum` | src/lib/audio/onset.ts:27-37 | The half-wave-rectified flux of a frame is ≥ 0, and it is 0 when no bin grew. |
| `Onset.HopCountCharacterization` | src/lib/audio/onset.ts:16 | Hop h is analysed exactly when h·512 + 2048 < buffer length. |
| `Onset.Windowed` | src/lib/audio/onset.ts:19-21 | A frame holds 2048 samples, each the buffer sample at i + j times window coefficient j. |
| `Onset.SpectralFlux` | src/lib/audio/onset.ts:16-40 | There is one flux value per analysed hop, none when the buffer is at most 2048 samples, and every value is ≥ 0. |
| `Onset.FillFrame` | src/lib/audio/onset.ts:17-21 | The filled array is the windowed frame. |
| `Onset.AccumulateFlux` | src/lib/audio/onset.ts:27-37 | The bins loop returns the rectified flux against the old magnitudes and leaves `prevMag` holding the new ones. |
| `Onset.HopFlux` | src/lib/audio/onset.ts:17-37 | One hop computes its flux against the previous hop's magnitudes (zeros for the first) and stores its own magnitudes. |
| `Onset.ComputeFlux` | src/lib/audio/onset.ts:12-40 | The analysis loop produces exactly the spectral-flux sequence. |
| `Onset.Neighbourhood` | src/lib/audio/onset.ts:80-85 | The in-range neighbours of an index number between 1 and 2r + 1, so the division never divides by zero. |
| `Onset.LocalMean` | src/lib/audio/onset.ts:78-87 | Definition: the sum of the in-range neighbours over their count; bounds in `MeanBetween` and `SmoothedWithinNeighbourhood`. |
| `Onset.WindowMean` | src/lib/audio/onset.ts:78-87 | The index loop computes the mean of the in-range neighbours. |
| `Onset.Smoothed` | src/lib/audio/onset.ts:76-89 | Smoothing keeps the length. |
| `Onset.Smooth` | src/lib/audio/onset.ts:76-89 | `smooth` yields the local mean at every index. |
| `Onset.Thresholded` | src/lib/audio/onset.ts:91-107 | The adaptive threshold keeps the length and never goes negative. |
| `Onset.AdaptiveThreshold` | src/lib/audio/onset.ts:91-107 | `adaptiveThreshold` yields the excess over the local mean, or 0, at every index. |
| `Onset.SmoothedWithinNeighbourhood` | src/lib/audio/onset.ts:76-89 | Each smoothed value lies between the least and the greatest value it averages. |
| `Onset.SmoothedNonNegative` | src/lib/audio/onset.ts:43 | Smoothing a non-negative flux keeps it non-negative. |
| `Onset.ThresholdedIsExcess` | src/lib/audio/onset.ts:104-105 | A thresholded value is positive if and only if the input exceeds its local mean, and it is then the excess. |
| `Onset.PickPeaks` | src/lib/audio/onset.ts:47-61 | The peak-picking loop yields `PickedOnsets`: the interior strict positive local maxima, left to right, each kept when more than 0.05 s after the last kept one. |
| `Onset.PickedOnsets` | src/lib/audio/onset.ts:47-61 | Definition of the greedy peak picking over indices 1..n−2; properties in `PicksArePeakTimes`, `PicksSpaced`, `PicksCoverPeaks`. |
| `Onset.PicksArePeakTimes` | src/lib/audio/onset.ts:50-58 | Every kept onset is the time of an interior strict positive local maximum. |
| `Onset.PicksSpaced` | src/lib/audio/onset.ts:56-59 | Any two kept onsets are more than 0.05 s apart, in increasing order. |
| `Onset.PicksPrecede` | src/lib/audio/onset.ts:50-59 | Onsets kept before hop k are earlier than hop k's time. |
| `Onset.PicksCoverPeaks` | src/lib/audio/onset.ts:50-59 | A peak is left out only when an onset was kept at most 0.05 s before it. |
| `Onset.ExtractOnsets` | src/lib/audio/onset.ts:3-66 | The pipeline of flux, smoothing (radius 3), threshold (radius 16) and peaks gives the specified onsets, none for a buffer of at most 2048 samples. |
| `Onset.Onsets` | src/lib/audio/onset.ts:3-66 | Definition of the whole pipeline as one function; properties in `OnsetsProperties`. |
| `Onset.OnsetsProperties` | src/lib/audio/onset.ts:3-66 | The onsets are peak times, more than 0.05 s apart and increasing, and they cover every peak within 0.05 s. |
| `Transport.Tick` | src/lib/engine/engine.svelte.ts:66-72 | A clock frame keeps the state valid. |
| `Transport.Stop` | src/lib/engine/engine.svelte.ts:124-131 | `stop` keeps the state valid. |
| `Transport.Play` | src/lib/engine/engine.svelte.ts:96-112 | `play` keeps the state valid: the engine plays only with a buffer. |
| `Transport.Pause` | src/lib/engine/engine.svelte.ts:114-122 | `pause` keeps the state valid. |
| `Transport.TogglePlay` | src/lib/engine/engine.svelte.ts:91-94 | `togglePlay` keeps the state valid. |
| `Transport.SeekTo` | src/lib/engine/engine.svelte.ts:133-151 | `seekTo` keeps the state valid. |
| `Transport.OnEnded` | src/lib/engine/engine.svelte.ts:82-87 | The `ended` handler keeps the state valid. |
| `Transport.ClearAudio` | src/lib/engine/engine.svelte.ts:53-57 | `clearAudio` keeps the state valid. |
| `Transport.LoadAudio` | src/lib/engine/engine.svelte.ts:59-64 | `loadAudio` keeps the state valid, whether or not decoding succeeds. |
| `Transport.Duration` | src/lib/engine/engine.svelte.ts:31 | The duration is never negative in a valid state (0 without a buffer). |
| `Transport.PlaybackPosition` | src/lib/engine/engine.svelte.ts:33-42 | While playing in a valid state, the position never exceeds the duration; the full case split is `PlaybackPositionCases`. |
| `Transport.PlaybackPositionCases` | src/lib/engine/engine.svelte.ts:31-42 | The position is 0 without a buffer and `offset` when not playing. While playing it is the elapsed position while that is within the duration, and the duration once playback has passed the end. |
| `Transport.PlaybackPositionAdvances` | src/lib/engine/engine.svelte.ts:33-42 | While playing, the position never moves backwards as the clock advances. |
| `Transport.PlayIsIdempotent` | src/lib/engine/engine.svelte.ts:97 | `play` is a no-op while playing or without a buffer, so the second `play()` does nothing. |
| `Transport.PlayStartsAtOffset` | src/lib/engine/engine.svelte.ts:107-110 | A successful `play` records the start time and keeps the offset, the blob, buffer, clock, rate and suppression flag. At rate 1 the shown position does not jump at the first frame. |
| `Transport.PauseKeepsPosition` | src/lib/engine/engine.svelte.ts:114-122 | `pause` stops playback and freezes the shown position into `offset`, keeping the blob, buffer, clock, start time, rate and suppression flag. It is a no-op when not playing. |
| `Transport.StopRewinds` | src/lib/engine/engine.svelte.ts:124-131 | `stop` leaves a stopped engine at position 0 and keeps the buffer and the suppression flag. |
| `Transport.TogglePlayFlips` | src/lib/engine/engine.svelte.ts:91-94 | With a buffer, `togglePlay` flips the playing state. |
| `Transport.SeekToClamps` | src/lib/engine/engine.svelte.ts:133-151 | Without a buffer nothing changes. Otherwise the offset is the target clamped into [0, duration], the playing state is restored (restarted at `currentTime`), the buffer is kept, and the next `ended` is suppressed. |
| `Transport.SeekDuringPlaybackSurvivesEnded` | src/lib/engine/engine.svelte.ts:133-151 | When a seek during playback is followed by the old source's `ended` event, playback continues at the new offset. |
| `Transport.OnEndedIsOneShot` | src/lib/engine/engine.svelte.ts:82-87 | The handler stops only a playing, unsuppressed engine, and it always clears the suppression. |
| `Transport.SuppressionAbsorbsExactlyOne` | src/lib/engine/engine.svelte.ts:82-87 | One suppression absorbs one `ended` event. A second one stops playback at 0. |
| `Transport.EndOfBufferRewinds` | src/lib/engine/engine.svelte.ts:82-87 | An unsuppressed end of playback stops and rewinds to 0. |
| `Transport.ClearAudioEmpties` | src/lib/engine/engine.svelte.ts:53-57 | After `clearAudio` there is no blob and no buffer, the engine is stopped, and duration and position are 0. |
| `Transport.LoadAudioStops` | src/lib/engine/engine.svelte.ts:59-64 | The blob is always stored. A decoded buffer leaves the engine stopped at 0 with the new duration, and a failed decode changes nothing else. |
| `Transport.SeekWhilePausedSwallowsEnd` | src/lib/engine/engine.svelte.ts:136 | As written, after a seek while paused, the real end of the next playback is ignored and the engine still reports playing. |
| `Transport.SeekToIntended` | src/lib/engine/engine.svelte.ts:133-151 | The corrected `seekTo` agrees with the written one while playing. While paused it only moves the offset. |
| `Transport.SeekToIntendedEndsPlayback` | src/lib/engine/engine.svelte.ts:133-151 | With the corrected `seekTo`, playback after a paused seek ends and rewinds normally. |
| `Transport.PauseBeforeFirstFrameGoesNegative` | src/lib/engine/engine.svelte.ts:107 | As written, a `pause` before the clock's first frame after `play` stores a negative offset when `now` is stale. |
| `Transport.PlayIntended` | src/lib/engine/engine.svelte.ts:96-112 | The corrected `play` starts playback exactly when the written one does, and keeps the state valid. |
| `Transport.PlayIntendedThenPauseKeepsOffset` | src/lib/engine/engine.svelte.ts:114-122 | With the corrected `play`, an immediate `pause` returns the offset playback started from. |
| `Engine.AudioEngine.constructor` | src/lib/engine/engine.svelte.ts:9-27 | A new engine is in the initial state (no audio, stopped, offset 0, rate 1), holds no source and is valid. |
| `Engine.AudioEngine.Duration` | src/lib/engine/engine.svelte.ts:31 | The engine's `duration` is `Transport.Duration` of its fields, never negative in a valid engine. |
| `Engine.AudioEngine.PlaybackPosition` | src/lib/engine/engine.svelte.ts:33-42 | The engine's `playbackPosition` is `Transport.PlaybackPosition` of its fields, within the duration while playing. |
| `Engine.AudioEngine.Tick` | src/lib/engine/engine.svelte.ts:66-72 | In place, one clock frame equals `Transport.Tick` and keeps the engine valid. |
| `Engine.AudioEngine.Stop` | src/lib/engine/engine.svelte.ts:124-131 | In place, equals `Transport.Stop` and drops the source. |
| `Engine.AudioEngine.Play` | src/lib/engine/engine.svelte.ts:96-112 | In place, equals `Transport.Play`. A source is held exactly while playing. |
| `Engine.AudioEngine.Pause` | src/lib/engine/engine.svelte.ts:114-122 | In place, equals `Transport.Pause`. |
| `Engine.AudioEngine.TogglePlay` | src/lib/engine/engine.svelte.ts:91-94 | In place, equals `Transport.TogglePlay`. |
| `Engine.AudioEngine.SeekTo` | src/lib/engine/engine.svelte.ts:133-151 | In place, equals `Transport.SeekTo`, including the double `play()`. |
| `Engine.AudioEngine.OnEnded` | src/lib/engine/engine.svelte.ts:82-87 | In place, equals `Transport.OnEnded`. |
| `Engine.AudioEngine.ClearAudio` | src/lib/engine/engine.svelte.ts:53-57 | In place, equals `Transport.ClearAudio`. |
| `Engine.AudioEngine.LoadAudio` | src/lib/engine/engine.svelte.ts:59-64 | In place, equals `Transport.LoadAudio`. It reports whether decoding succeeded. |
| `Wsola.New` | rust/src/timestretch.rs:8-14 | The window is ⌊0.02·sampleRate⌋ and the search range ⌊0.01·sampleRate⌋. The output hop then equals the search range. |
| `Wsola.ExpectedSize` | rust/src/timestretch.rs:40 | The output buffer is never shorter than one window. |
| `Wsola.HopOut` | rust/src/timestretch.rs:43 | `hop_out` is half the window rounded down: 2·hop_out ≤ window < 2·hop_out + 2. |
| `Wsola.HopIn` | rust/src/timestretch.rs:44 | `hop_in` is hop_out·speed_ratio truncated: within one sample below it when that product is non-negative. |
| `Wsola.AmdfPrefix` | rust/src/timestretch.rs:22-25 | AMDF scores are ≥ 0. |
| `Wsola.Scan` | rust/src/timestretch.rs:21-30 | The scan returns the first offset below k with the least score. |
| `Wsola.BestMatch` | rust/src/timestretch.rs:17-32 | The result is the first offset with the least AMDF score, or 0 when the search area is no longer than the template. |
| `Wsola.FindBestMatch` | rust/src/timestretch.rs:17-32 | The two nested loops compute `BestMatch`. |
| `Wsola.AmdfOfMatch` | rust/src/timestretch.rs:22-25 | A sample-for-sample match scores 0. |
| `Wsola.Advance` | rust/src/timestretch.rs:65-91 | An in-bounds iteration moves the output pointer by one output hop. The input pointer moves by at least one input hop and stays within the search range of it. The output keeps its length, and the next window fits in the input. |
| `Wsola.Step` | rust/src/timestretch.rs:65-91 | An iteration panics exactly when the template slice ends past the output, and the panic names that end and the length. |
| `Wsola.Run` | rust/src/timestretch.rs:63-92 | A loop that does not panic ends with the guard false, the output length kept and both pointers advanced. |
| `Wsola.ProcessSpec` | rust/src/timestretch.rs:35-37 | Input shorter than window plus search range is returned unchanged. |
| `Wsola.Finish` | rust/src/timestretch.rs:94-96 | Definition of the final `truncate(out_ptr + window_size)`, which never lengthens: min(size, out_ptr + window) samples; properties in `FinishCases` and `FinishLength`. |
| `Wsola.OverlapAddInto` | rust/src/timestretch.rs:81-87 | Overlap-add in place: the windowed input is added within the output's length, and the rest is untouched. |
| `Wsola.OverlapAdd` | rust/src/timestretch.rs:81-87 | The blended output keeps its length, and every index outside the window span is unchanged; `OverlapAddInto` is proved equal to it. |
| `Wsola.Iteration` | rust/src/timestretch.rs:65-91 | One iteration on the output array is `Step`: the same panic, or the same pointers and output. |
| `Wsola.InitializeOutput` | rust/src/timestretch.rs:40-60 | The output starts as `expected_size` zeros with the first window of windowed input. |
| `Wsola.MainLoop` | rust/src/timestretch.rs:46-92 | The main loop over the array is `Run` from both pointers at 0. |
| `Wsola.Process` | rust/src/timestretch.rs:34-97 | `process` returns `ProcessSpec`: the short-input case, the panic, or the truncated output. |
| `Wsola.AdvanceKeepsPrefix` | rust/src/timestretch.rs:81-87 | An iteration never changes the output before its own template. |
| `Wsola.RunProgress` | rust/src/timestretch.rs:63-92 | After m iterations without a panic: out_ptr has moved exactly m output hops and in_ptr at least m input hops. The guard fails, and the output keeps its length and everything before the first template. |
| `Wsola.ProcessOutput` | rust/src/timestretch.rs:94-96 | `process` returns the loop's output truncated to min(expected_size, out_ptr + window), or panics exactly when the loop does. |
| `Wsola.ProcessLength` | rust/src/timestretch.rs:94-96 | A non-panicking `process` returns between one window and `expected_size` samples. |
| `Wsola.RunKeepsFirstWindow` | rust/src/timestretch.rs:57-60 | The loop keeps the first output hop as the windowed input, and the whole first window when it runs no iteration. |
| `Wsola.ProcessKeepsFirstWindow` | rust/src/timestretch.rs:57-60 | The result of `process` begins with the windowed input for one output hop, or for a whole window when no iteration ran. |
| `Wsola.SilentBestMatch` | rust/src/timestretch.rs:21-28 | On silence every offset scores 0, and the strict `<` keeps offset 0. |
| `Wsola.OverlapAddSilence` | rust/src/timestretch.rs:81-87 | Overlap-adding silence changes nothing. |
| `Wsola.SilentStep` | rust/src/timestretch.rs:65-91 | On silence, an in-bounds iteration advances both pointers by exactly one hop and leaves the output as it was. |
| `Wsola.SilenceRunPanics` | rust/src/timestretch.rs:63-70 | On silence, if iteration `last` passes the guard but its template would end past the output, the loop panics. |
| `Wsola.SilencePanics` | rust/src/timestretch.rs:34-97 | `process` on silence panics whenever some iteration passes the guard with its template past `expected_size`. |
| `Wsola.SmallSilencePanics` | rust/src/timestretch.rs:69-70 | 25 zero samples with window 4, search range 2 and speed 0.75 make `process` panic. |
| `Wsola.HalfSpeedSilencePanics` | rust/src/timestretch.rs:8-14 | 100 s of silence at 44.1 kHz and speed 0.5, through `Wsola::new`, make `process` panic. |
| `Wsola.RunBounded` | rust/src/timestretch.rs:63 | The corrected loop keeps the output length and ends with no room for another in-bounds iteration. |
| `Wsola.ProcessBounded` | rust/src/timestretch.rs:34-97 | The corrected `process` always returns: short input unchanged, otherwise between one window and `expected_size` samples. |
| `Wsola.RunBoundedAgrees` | rust/src/timestretch.rs:63-92 | Wherever the written loop does not panic, the corrected loop computes the same cursor. |
| `Wsola.ProcessBoundedAgrees` | rust/src/timestretch.rs:34-97 | The corrected `process` returns what the written one returns whenever that one does not panic. |

## Left out

- Floating point is left out: f32/f64 rounding, NaN and infinities. Samples, times and rates are exact reals, and `f32::MAX` as the initial minimum of `find_best_match` is "no score yet".
- The FFT (`fft.js`), the YIN pitch detector (`pitchfinder`) and the Hann window's cosine are left out. They are parameters of the model, and the spectrum function is only required to yield 1024 bins.
- `requestAnimationFrame` scheduling is left out. `Tick` models one frame of the clock loop, and the rAF id with `cancelAnimationFrame` is not modelled.
- The Web Audio graph is left out: `AudioContext`, gain node, `createBufferSource`, `start`/`stop` of a node and `ctx.resume`. Holding a source node is the ghost field `hasSource`.
- Engine.AudioEngine.LoadAudio: the two awaits of `loadAudio` are folded into one call that receives the decode result. Interleaving with other operations while a decode is pending is not modelled.
- The `blob` getter is the reader `Blob()` and states nothing beyond the field.
- Timing and logging (`new Date()`, `console.log`) in `extractOnsets` and `extractPitch` are left out.
- The analysis workers, stores and UI that call these functions are left out.
- Parameter.ToNearestStep: requires a nonzero step. JavaScript would divide by zero and return NaN, and floating point is not modelled.
- Parameter.IncrementNeverExceedsMax: proved only for a max on the step grid. Off the grid, rounding after clamping can exceed max, which the code allows.
- Pitch.ExtractPitch: requires a positive hop and sample rate. A zero hop never terminates in the source.
- Onset.ExtractOnsets: requires a positive sample rate. Otherwise the times divide by zero.
- Wsola.Process: requires a positive speed ratio and an input hop of at least one sample (`Runnable`). Otherwise `expected_size` is unbounded or the loop's termination depends on the search.
- Wsola.ProcessLength: states the bounds of the result's length. The exact length, min(expected_size, out_ptr + window) with out_ptr one hop per iteration, is stated by `ProcessOutput` and `RunProgress` separately.
- `FormatTime` proves the read-back only for non-negative times. A negative time formats with `-` signs, which the model computes but does not parse.

## Findings

| source | as written | input that shows it | evidently intended | confidence | as-written member | corrected member |
|---|---|---|---|---|---|---|
| src/lib/engine/engine.svelte.ts:136 | `seekTo` sets `suppressEnded` even when not playing, and no source's `ended` event clears it | Load audio, seek while paused, play, and let the audio reach its end: the `ended` event is ignored and the engine still reports playing | suppress only when a playing source is stopped and restarted | not executed | `Transport.SeekWhilePausedSwallowsEnd` | `Transport.SeekToIntended` (with `Transport.SeekToIntendedEndsPlayback`) |
| src/lib/engine/engine.svelte.ts:107 | `play` sets `startTime` but not `now`, and `stop` has cancelled the clock, so `now` is stale | From a stopped engine at offset 0 with `now` < currentTime, `play` then `pause` before the next animation frame stores `offset = now − startTime < 0` | the position clock starts at the moment playback starts | not executed | `Transport.PauseBeforeFirstFrameGoesNegative` | `Transport.PlayIntended` (with `Transport.PlayIntendedThenPauseKeepsOffset`) |
| rust/src/timestretch.rs:63-70 | The loop guard checks only the input. Because `hop_in` is rounded down, `out_ptr` outruns `expected_size`, and `output[template_start..template_start + hop_out]` panics | 25 zero samples with window 4, search range 2, speed 0.75; also 4,410,000 zero samples with `Wsola::new(44100.0, 0.5)` | stop when the next template no longer fits in the output | not executed | `Wsola.SmallSilencePanics` (with `Wsola.HalfSpeedSilencePanics`, `Wsola.SilencePanics`) | `Wsola.ProcessBounded` (with `Wsola.ProcessBoundedAgrees`) |
