/**
 * The playback transport of `src/lib/engine/engine.svelte.ts` as pure state
 * transitions: the fields `AudioEngine` keeps, the derived `duration` and
 * `playbackPosition`, and one function per operation. The class in module
 * `Engine` performs the same operations in place and is proved to agree
 * with these functions; the lemmas here state what the operations promise.
 *
 * Times are exact reals in seconds. `now` is the clock value last sampled by
 * the animation-frame loop; `currentTime` parameters are the audio context's
 * clock at the moment of the call.
 */
module Transport {
  import opened Wrappers

  /** The bytes of the loaded audio file; never inspected. */
  type Blob = seq<bv8>

  datatype State = State(
    blob: Option<Blob>,       // audioBlob
    buffer: Option<real>,     // the decoded AudioBuffer, represented by its duration
    now: real,                // clock value last sampled by the animation-frame loop
    isPlaying: bool,
    startTime: real,          // audio-context time at the last successful play()
    offset: real,             // where playback (re)starts, in seconds
    playbackRate: real,
    suppressEnded: bool)      // ignore the next `ended` event of a source

  /** The state of a freshly constructed engine. */
  const Initial: State := State(None, None, 0.0, false, 0.0, 0.0, 1.0, false)

  /** What every reachable state satisfies. */
  predicate Valid(s: State) {
    && s.playbackRate > 0.0
    && (s.buffer.Some? ==> s.buffer.value >= 0.0)
    && (s.isPlaying ==> s.buffer.Some?)
  }

  function Min(a: real, b: real): real {
    if a <= b then a else b
  }

  function Max(a: real, b: real): real {
    if a >= b then a else b
  }

  /** `duration`: the buffer's duration, 0 with no buffer. */
  function Duration(s: State): (d: real)
    ensures Valid(s) ==> d >= 0.0
  {
    if s.buffer.Some? then s.buffer.value else 0.0
  }

  /** `playbackPosition`: 0 with no buffer; the elapsed position, capped at the duration, while playing; else `offset`. */
  function PlaybackPosition(s: State): (p: real)
    ensures Valid(s) && s.isPlaying ==> p <= Duration(s)
  {
    if s.buffer.None? then 0.0
    else if s.isPlaying then Min((s.offset + (s.now - s.startTime)) * s.playbackRate, Duration(s))
    else s.offset
  }

  /** One animation frame of the clock loop: `now` takes the audio-context time. */
  function Tick(s: State, currentTime: real): (r: State)
    ensures Valid(s) ==> Valid(r)
  {
    s.(now := currentTime)
  }

  function Stop(s: State): (r: State)
    ensures Valid(s) ==> Valid(r)
  {
    s.(offset := 0.0, isPlaying := false)
  }

  function Play(s: State, currentTime: real): (r: State)
    ensures Valid(s) ==> Valid(r)
  {
    if s.isPlaying || s.buffer.None? then s
    else s.(startTime := currentTime, isPlaying := true)
  }

  function Pause(s: State): (r: State)
    ensures Valid(s) ==> Valid(r)
  {
    if !s.isPlaying then s
    else s.(offset := PlaybackPosition(s), isPlaying := false)
  }

  function TogglePlay(s: State, currentTime: real): (r: State)
    ensures Valid(s) ==> Valid(r)
  {
    if s.isPlaying then Pause(s) else Play(s, currentTime)
  }

  /** `Math.max(0, Math.min(time, duration))`. */
  function ClampToDuration(s: State, time: real): real {
    Max(0.0, Min(time, Duration(s)))
  }

  /** `seekTo`: suppress the next `ended`, stop if playing, move the offset, restart (with `play()` called twice). */
  function SeekTo(s: State, time: real, currentTime: real): (r: State)
    ensures Valid(s) ==> Valid(r)
  {
    if s.buffer.None? then s
    else
      var wasPlaying := s.isPlaying;
      var suppressed := s.(suppressEnded := true);
      var stopped := if wasPlaying then Stop(suppressed) else suppressed;
      var moved := stopped.(offset := ClampToDuration(s, time));
      if wasPlaying then Play(Play(moved, currentTime), currentTime) else moved
  }

  /** The `onended` handler installed on every source node. */
  function OnEnded(s: State): (r: State)
    ensures Valid(s) ==> Valid(r)
  {
    var handled := if s.isPlaying && !s.suppressEnded then Stop(s) else s;
    handled.(suppressEnded := false)
  }

  function ClearAudio(s: State): (r: State)
    ensures Valid(s) ==> Valid(r)
  {
    Stop(s).(blob := None, buffer := None)
  }

  /**
   * `loadAudio` once its awaits have settled: the blob is stored first; a
   * rejected decode (`decoded == None`) leaves everything else as it was,
   * a successful one installs the buffer and stops.
   */
  function LoadAudio(s: State, blob: Blob, decoded: Option<real>): (r: State)
    requires decoded.Some? ==> decoded.value >= 0.0
    ensures Valid(s) ==> Valid(r)
  {
    var withBlob := s.(blob := Some(blob));
    if decoded.None? then withBlob else Stop(withBlob.(buffer := decoded))
  }

  // ----- Derived values -----

  /** The three cases of `playbackPosition`; while playing it never passes the end. */
  lemma PlaybackPositionCases(s: State)
    requires Valid(s)
    ensures s.buffer.None? ==> PlaybackPosition(s) == 0.0 && Duration(s) == 0.0
    ensures s.buffer.Some? && !s.isPlaying ==> PlaybackPosition(s) == s.offset
    ensures s.isPlaying ==> PlaybackPosition(s) <= Duration(s)
    ensures s.isPlaying && (s.offset + (s.now - s.startTime)) * s.playbackRate <= Duration(s) ==>
      PlaybackPosition(s) == (s.offset + (s.now - s.startTime)) * s.playbackRate
    ensures s.isPlaying && (s.offset + (s.now - s.startTime)) * s.playbackRate > Duration(s) ==>
      PlaybackPosition(s) == Duration(s)
  {
  }

  /** While playing, the position moves forward (or stays at the end) as the clock advances. */
  lemma PlaybackPositionAdvances(s: State, t1: real, t2: real)
    requires Valid(s) && s.isPlaying && t1 <= t2
    ensures PlaybackPosition(Tick(s, t1)) <= PlaybackPosition(Tick(s, t2))
  {
    var a := s.offset + (t1 - s.startTime);
    var b := s.offset + (t2 - s.startTime);
    var x := a * s.playbackRate;
    var y := b * s.playbackRate;
    ScaleMonotonic(a, b, s.playbackRate);
    MinMonotonic(x, y, Duration(s));
    assert PlaybackPosition(Tick(s, t1)) == Min(x, Duration(s));
    assert PlaybackPosition(Tick(s, t2)) == Min(y, Duration(s));
  }

  lemma MinMonotonic(x: real, y: real, d: real)
    requires x <= y
    ensures Min(x, d) <= Min(y, d)
  {
  }

  lemma ScaleMonotonic(a: real, b: real, k: real)
    requires a <= b && k > 0.0
    ensures a * k <= b * k
  {
    assert b * k - a * k == (b - a) * k;
  }

  // ----- play, pause, stop, togglePlay -----

  /** `play` does nothing while playing or without a buffer, so a second `play()` is a no-op. */
  lemma PlayIsIdempotent(s: State, t1: real, t2: real)
    ensures s.isPlaying || s.buffer.None? ==> Play(s, t1) == s
    ensures Play(Play(s, t1), t2) == Play(s, t1)
  {
  }

  /** A successful `play` records the start time and keeps the offset; the shown position does not jump. */
  lemma PlayStartsAtOffset(s: State, t: real)
    requires Valid(s) && !s.isPlaying && s.buffer.Some?
    ensures Play(s, t).isPlaying && Play(s, t).startTime == t && Play(s, t).offset == s.offset
    ensures Play(s, t).blob == s.blob && Play(s, t).buffer == s.buffer && Play(s, t).now == s.now
    ensures Play(s, t).playbackRate == s.playbackRate && Play(s, t).suppressEnded == s.suppressEnded
    ensures s.playbackRate == 1.0 && 0.0 <= s.offset <= Duration(s) ==>
      PlaybackPosition(Tick(Play(s, t), t)) == PlaybackPosition(s)
  {
  }

  /** `pause` freezes the shown position into `offset`; it is a no-op when not playing. */
  lemma PauseKeepsPosition(s: State)
    ensures !Pause(s).isPlaying
    ensures PlaybackPosition(Pause(s)) == PlaybackPosition(s)
    ensures s.isPlaying ==> Pause(s).offset == PlaybackPosition(s)
    ensures !s.isPlaying ==> Pause(s) == s
    ensures Pause(s).blob == s.blob && Pause(s).buffer == s.buffer && Pause(s).now == s.now
    ensures Pause(s).startTime == s.startTime && Pause(s).playbackRate == s.playbackRate
    ensures Pause(s).suppressEnded == s.suppressEnded
  {
  }

  /** Whatever the state, `stop` leaves a stopped engine at offset 0 with the buffer kept. */
  lemma StopRewinds(s: State)
    ensures !Stop(s).isPlaying && Stop(s).offset == 0.0
    ensures PlaybackPosition(Stop(s)) == 0.0
    ensures Stop(s).buffer == s.buffer && Stop(s).suppressEnded == s.suppressEnded
  {
  }

  /** With a buffer loaded, `togglePlay` flips between playing and not playing. */
  lemma TogglePlayFlips(s: State, t: real)
    requires s.buffer.Some?
    ensures TogglePlay(s, t).isPlaying == !s.isPlaying
  {
  }

  // ----- seekTo -----

  /**
   * With a buffer, `seekTo` clamps the target into [0, duration], restores the
   * playing flag (restarting at `currentTime` if it was playing) and arms the
   * suppression of the next `ended` event; without a buffer it changes nothing.
   */
  lemma SeekToClamps(s: State, time: real, currentTime: real)
    requires Valid(s)
    ensures s.buffer.None? ==> SeekTo(s, time, currentTime) == s
    ensures s.buffer.Some? ==>
      var r := SeekTo(s, time, currentTime);
      && 0.0 <= r.offset <= Duration(s)
      && (0.0 <= time <= Duration(s) ==> r.offset == time)
      && (time < 0.0 ==> r.offset == 0.0)
      && (time > Duration(s) ==> r.offset == Duration(s))
      && r.isPlaying == s.isPlaying
      && r.suppressEnded
      && r.buffer == s.buffer
      && (s.isPlaying ==> r.startTime == currentTime)
      && (!s.isPlaying ==> PlaybackPosition(r) == r.offset)
  {
  }

  /** After a seek during playback, the `ended` event of the stopped source is absorbed and playback goes on. */
  lemma SeekDuringPlaybackSurvivesEnded(s: State, time: real, currentTime: real)
    requires Valid(s) && s.isPlaying
    ensures var r := OnEnded(SeekTo(s, time, currentTime));
      r.isPlaying && r.offset == ClampToDuration(s, time) && !r.suppressEnded
  {
  }

  // ----- onended -----

  /** The handler stops only a playing, unsuppressed engine, and always clears the suppression. */
  lemma OnEndedIsOneShot(s: State)
    ensures !OnEnded(s).suppressEnded
    ensures s.suppressEnded ==> OnEnded(s) == s.(suppressEnded := false)
    ensures !s.suppressEnded && s.isPlaying ==> OnEnded(s) == Stop(s)
    ensures !s.suppressEnded && !s.isPlaying ==> OnEnded(s) == s
  {
  }

  /** One suppression absorbs exactly one event: the second `ended` stops playback. */
  lemma SuppressionAbsorbsExactlyOne(s: State)
    requires s.isPlaying && s.suppressEnded
    ensures OnEnded(s).isPlaying
    ensures !OnEnded(OnEnded(s)).isPlaying && OnEnded(OnEnded(s)).offset == 0.0
  {
  }

  /** Reaching the end of the buffer rewinds to 0 (the handler calls `stop`, not `pause`). */
  lemma EndOfBufferRewinds(s: State)
    requires Valid(s) && s.isPlaying && !s.suppressEnded
    ensures !OnEnded(s).isPlaying && PlaybackPosition(OnEnded(s)) == 0.0
  {
  }

  // ----- clearAudio, loadAudio -----

  /** `clearAudio` leaves no blob and no buffer: duration and position 0, stopped. */
  lemma ClearAudioEmpties(s: State)
    ensures var r := ClearAudio(s);
      r.blob.None? && r.buffer.None? && !r.isPlaying && r.offset == 0.0
      && Duration(r) == 0.0 && PlaybackPosition(r) == 0.0
  {
  }

  /** A decoded load ends stopped at offset 0 with the new duration; a failed decode only stores the blob. */
  lemma LoadAudioStops(s: State, blob: Blob, decoded: Option<real>)
    requires decoded.Some? ==> decoded.value >= 0.0
    ensures var r := LoadAudio(s, blob, decoded);
      r.blob == Some(blob)
      && (decoded.Some? ==> !r.isPlaying && r.offset == 0.0 && Duration(r) == decoded.value && PlaybackPosition(r) == 0.0)
      && (decoded.None? ==> r == s.(blob := Some(blob)))
  {
  }

  // ----- Discrepancies between the code and its evident intent -----

  /**
   * As written, `seekTo` arms the suppression even when not playing. Nothing
   * consumes it until the next real end of the buffer, which is then ignored:
   * the engine keeps reporting that it is playing after the audio ended.
   */
  lemma SeekWhilePausedSwallowsEnd(s: State, time: real, t1: real, t2: real)
    requires Valid(s) && !s.isPlaying && s.buffer.Some?
    ensures var r := OnEnded(Play(SeekTo(s, time, t1), t2));
      r.isPlaying && !r.suppressEnded
  {
  }

  /** `seekTo` as evidently intended: only a seek that restarts a source suppresses its `ended` event. */
  function SeekToIntended(s: State, time: real, currentTime: real): (r: State)
    ensures Valid(s) ==> Valid(r)
    ensures s.isPlaying ==> r == SeekTo(s, time, currentTime)
    ensures !s.isPlaying ==> r == s.(offset := if s.buffer.Some? then ClampToDuration(s, time) else s.offset)
  {
    if s.buffer.None? then s
    else
      var wasPlaying := s.isPlaying;
      var suppressed := if wasPlaying then s.(suppressEnded := true) else s;
      var stopped := if wasPlaying then Stop(suppressed) else suppressed;
      var moved := stopped.(offset := ClampToDuration(s, time));
      if wasPlaying then Play(Play(moved, currentTime), currentTime) else moved
  }

  /** With the intended `seekTo`, a seek while paused does not swallow the end of the buffer. */
  lemma SeekToIntendedEndsPlayback(s: State, time: real, t1: real, t2: real)
    requires Valid(s) && !s.isPlaying && !s.suppressEnded && s.buffer.Some?
    ensures var r := OnEnded(Play(SeekToIntended(s, time, t1), t2));
      !r.isPlaying && r.offset == 0.0
  {
  }

  /**
   * As written, `play` records `startTime` but leaves `now` at its last sampled
   * value; after `stop` the clock loop is cancelled, so `now` is stale. A
   * `pause` before the next animation frame stores `offset + now - startTime`,
   * which is negative when starting from 0.
   */
  lemma PauseBeforeFirstFrameGoesNegative(s: State, t: real)
    requires Valid(s) && !s.isPlaying && s.buffer.Some?
    requires s.offset == 0.0 && s.playbackRate == 1.0 && s.now < t
    ensures Pause(Play(s, t)).offset < 0.0
  {
  }

  /** `play` as evidently intended: the position clock starts at the moment playback starts. */
  function PlayIntended(s: State, currentTime: real): (r: State)
    ensures Valid(s) ==> Valid(r)
    ensures r.isPlaying == (s.isPlaying || s.buffer.Some?)
  {
    if s.isPlaying || s.buffer.None? then s
    else s.(startTime := currentTime, now := currentTime, isPlaying := true)
  }

  /** With the intended `play`, pausing at once gives back the offset playback started from. */
  lemma PlayIntendedThenPauseKeepsOffset(s: State, t: real)
    requires Valid(s) && !s.isPlaying && s.buffer.Some?
    requires s.playbackRate == 1.0 && 0.0 <= s.offset <= Duration(s)
    ensures Pause(PlayIntended(s, t)).offset == s.offset
    ensures PlaybackPosition(Pause(PlayIntended(s, t))) == PlaybackPosition(s)
  {
  }
}
