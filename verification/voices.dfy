/** The playback voices a sound binds.

    A voice's own behaviour (how it starts, fades, pauses, stops, locks) lives
    outside the sound layer, so it enters the model as a `Reaction`: the
    voice state that results from sending a voice one call. What the sound
    layer decides is which calls go to which voices, in which order. */
module Voices {
  import opened Options

  type VoiceId = nat
  type SoundId = nat

  /** What a sound can observe of a voice, plus the back-reference to the
      sound that holds it. */
  datatype Voice = Voice(
    owner: Option<SoundId>,
    playing: bool,
    paused: bool,
    fading: bool,
    fadingIn: bool,
    fadingOut: bool,
    looping: bool,
    locked: bool,
    gain: real,
    sampleOffset: real)

  /** The calls a sound makes on a voice. `StopNow` is `stop()` with its
      default arguments. */
  datatype Call =
    | Play(fadeTime: real, looping: bool)
    | Replay(fadeTime: real, looping: bool)
    | Stop(fadeTime: real)
    | StopNow
    | Pause(fadeTime: real)
    | SetGain(gain: real)
    | Lock
    | Unlock

  /** The voice's own response to a call. */
  type Reaction = (Voice, Call) -> Voice

  /** Voice states by handle: the manager's pool. */
  type Pool = map<VoiceId, Voice>
}
