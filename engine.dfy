/**
 * `AudioEngine` of `src/lib/engine/engine.svelte.ts` as a class whose methods
 * update its fields in place. Each method is proved to take the engine from
 * `State()` to the state the matching function of module `Transport` gives,
 * and to keep `Valid()`; the properties of those functions are proved there.
 *
 * The Web Audio objects are not modelled: the decoded buffer is its duration,
 * the existence of a source node is the ghost field `hasSource`, and the
 * audio-context clock is the `currentTime` argument of the methods that read it.
 */
module Engine {
  import opened Wrappers
  import Transport

  class AudioEngine {
    var audioBlob: Option<Transport.Blob>
    var buffer: Option<real>
    var now: real
    var isPlaying: bool
    var startTime: real
    var offset: real
    var playbackRate: real
    var suppressEnded: bool
    /** Whether a source node is held (`source !== null`). */
    ghost var hasSource: bool

    function State(): Transport.State
      reads this
    {
      Transport.State(audioBlob, buffer, now, isPlaying, startTime, offset, playbackRate, suppressEnded)
    }

    /** A source node is held exactly while playing. */
    ghost predicate Valid()
      reads this
    {
      Transport.Valid(State()) && hasSource == isPlaying
    }

    function Duration(): (d: real)
      reads this
      ensures Valid() ==> d >= 0.0
    {
      Transport.Duration(State())
    }

    function PlaybackPosition(): (p: real)
      reads this
      ensures Valid() && isPlaying ==> p <= Duration()
    {
      Transport.PlaybackPosition(State())
    }

    function Blob(): Option<Transport.Blob>
      reads this
    {
      audioBlob
    }

    constructor()
      ensures Valid() && State() == Transport.Initial && !hasSource
    {
      audioBlob := None;
      buffer := None;
      now := 0.0;
      isPlaying := false;
      startTime := 0.0;
      offset := 0.0;
      playbackRate := 1.0;
      suppressEnded := false;
      hasSource := false;
    }

    /** One iteration of the animation-frame clock loop. */
    method Tick(currentTime: real)
      requires Valid()
      modifies this
      ensures Valid() && State() == Transport.Tick(old(State()), currentTime)
    {
      now := currentTime;
    }

    method Stop()
      requires Valid()
      modifies this
      ensures Valid() && State() == Transport.Stop(old(State()))
    {
      hasSource := false;
      offset := 0.0;
      isPlaying := false;
    }

    method Play(currentTime: real)
      requires Valid()
      modifies this
      ensures Valid() && State() == Transport.Play(old(State()), currentTime)
    {
      if isPlaying || buffer.None? {
        return;
      }
      hasSource := true;
      startTime := currentTime;
      isPlaying := true;
    }

    method Pause()
      requires Valid()
      modifies this
      ensures Valid() && State() == Transport.Pause(old(State()))
    {
      if !isPlaying {
        return;
      }
      offset := PlaybackPosition();
      hasSource := false;
      isPlaying := false;
    }

    method TogglePlay(currentTime: real)
      requires Valid()
      modifies this
      ensures Valid() && State() == Transport.TogglePlay(old(State()), currentTime)
    {
      if isPlaying {
        Pause();
      } else {
        Play(currentTime);
      }
    }

    method SeekTo(time: real, currentTime: real)
      requires Valid()
      modifies this
      ensures Valid() && State() == Transport.SeekTo(old(State()), time, currentTime)
    {
      if buffer.None? {
        return;
      }
      var wasPlaying := isPlaying;
      suppressEnded := true;
      if wasPlaying {
        Stop();
      }
      var clamped := Transport.Max(0.0, Transport.Min(time, Duration()));
      offset := clamped;
      if wasPlaying {
        Play(currentTime);
        Play(currentTime);
      }
    }

    /** The `onended` handler of a source node. */
    method OnEnded()
      requires Valid()
      modifies this
      ensures Valid() && State() == Transport.OnEnded(old(State()))
    {
      if isPlaying && !suppressEnded {
        Stop();
      }
      suppressEnded := false;
    }

    method ClearAudio()
      requires Valid()
      modifies this
      ensures Valid() && State() == Transport.ClearAudio(old(State()))
    {
      Stop();
      audioBlob := None;
      buffer := None;
    }

    /**
     * `loadAudio` with the outcome of decoding passed in: `decoded` is the
     * duration of the decoded buffer, `None` when decoding rejects, in which
     * case `ok` is false and the call ends after storing the blob.
     */
    method LoadAudio(blob: Transport.Blob, decoded: Option<real>) returns (ok: bool)
      requires Valid()
      requires decoded.Some? ==> decoded.value >= 0.0
      modifies this
      ensures Valid() && State() == Transport.LoadAudio(old(State()), blob, decoded)
      ensures ok == decoded.Some?
    {
      audioBlob := Some(blob);
      if decoded.None? {
        return false;
      }
      buffer := decoded;
      Stop();
      return true;
    }
  }
}
