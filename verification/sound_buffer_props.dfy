/** Properties that relate several calls on a sound. */
module SoundBufferProps {
  import opened Options
  import V = Voices
  import opened SoundBuffer
  import SoundName

  /** A new sound is registered under the prefix followed by its file name
      without the directory part and without the last extension. */
  lemma NewSoundName(id: V.SoundId, category: string, prefix: string,
                     dir: string, stem: string, ext: string)
    requires dir == [] || dir[|dir| - 1] == '/' || dir[|dir| - 1] == '\\'
    requires '/' !in stem && '\\' !in stem
    requires '/' !in ext && '\\' !in ext && '.' !in ext
    ensures New(id, dir + stem + "." + ext, category, prefix).name == prefix + stem
  {
    SoundName.DeriveNameOfPath(prefix, dir, stem, ext);
  }

  /** Unbinding a voice that was just bound restores the sound and the voice
      exactly, provided the voice was free and not already in the list. */
  lemma UnbindUndoesBind(st: State, v: V.VoiceId)
    requires Bound(st) && v in st.pool
    requires v !in st.sound.sources && st.pool[v].owner == None
    ensures UnbindSource(BindSource(st, v), v) == st
  {
    RemoveLast(st.sound.sources, v);
  }

  /** Removing the first `v` from a list that has `v` only at its end gives
      back the list without it. */
  lemma RemoveLast(s: seq<V.VoiceId>, v: V.VoiceId)
    requires v !in s
    ensures RemoveFirst(s + [v], v) == s
  {
    var t := s + [v];
    assert t[..|s|] == s;
    assert IndexOf(t, v) == |s|;
  }

  /** Playing a sound twice, when the first play leaves its voice playing,
      binds a second voice: the re-use branch is taken only for a primary
      voice that is not playing. */
  lemma SecondPlayStacksVoice(st: State, fadeTime: real, looping: bool,
                              a: V.VoiceId, b: V.VoiceId, react: V.Reaction)
    requires Bound(st) && st.sound.sources == []
    requires a in st.pool && b in st.pool && a != b
    requires react(st.pool[a].(owner := Some(st.sound.id)), V.Play(fadeTime, looping)).playing
    ensures
      var first := Play(st, true, fadeTime, looping, Some(a), react);
      var second := Play(first.state, true, fadeTime, looping, Some(b), react);
      && first.requested && second.requested
      && second.handle == Some(b)
      && second.state.sound.sources == [a, b]
  {
  }

  /** A primary voice that is not playing, and that `Play` leaves not playing
      (say, still fading in), is re-used by every further play: no voice is
      ever requested and the list does not grow. */
  lemma IdlePrimaryIsReused(st: State, fadeTime: real, looping: bool,
                            alloc: Option<V.VoiceId>, react: V.Reaction)
    requires Bound(st) && |st.sound.sources| > 0
    requires alloc.Some? ==> alloc.value in st.pool
    requires !st.pool[st.sound.sources[0]].playing
    requires !react(st.pool[st.sound.sources[0]], V.Play(fadeTime, looping)).playing
    ensures
      var first := Play(st, true, fadeTime, looping, alloc, react);
      var second := Play(first.state, true, fadeTime, looping, alloc, react);
      && !first.requested && !second.requested
      && first.handle == second.handle == Some(st.sound.sources[0])
      && second.state.sound == st.sound
  {
  }

  /** A run of replays, each with its own allocator answer. */
  function ReplayMany(st: State, loaded: bool, fadeTime: real, looping: bool,
                      allocs: seq<Option<V.VoiceId>>, react: V.Reaction): (r: State)
    requires Bound(st)
    requires forall i :: 0 <= i < |allocs| ==> allocs[i].Some? ==> allocs[i].value in st.pool
    ensures Bound(r) && r.pool.Keys == st.pool.Keys
    decreases |allocs|
  {
    if allocs == [] then st
    else
      var next := Replay(st, loaded, fadeTime, looping, allocs[0], react).state;
      ReplayMany(next, loaded, fadeTime, looping, allocs[1..], react)
  }

  /** However often a sound is replayed, it never holds more than one voice,
      and once it holds one, that voice stays its only voice. */
  lemma {:induction false} ReplaysKeepOneVoice(st: State, loaded: bool, fadeTime: real, looping: bool,
                                               allocs: seq<Option<V.VoiceId>>, react: V.Reaction)
    requires Bound(st) && |st.sound.sources| <= 1
    requires forall i :: 0 <= i < |allocs| ==> allocs[i].Some? ==> allocs[i].value in st.pool
    ensures |ReplayMany(st, loaded, fadeTime, looping, allocs, react).sound.sources| <= 1
    ensures |st.sound.sources| == 1 ==>
      ReplayMany(st, loaded, fadeTime, looping, allocs, react).sound == st.sound
    decreases |allocs|
  {
    if allocs != [] {
      var next := Replay(st, loaded, fadeTime, looping, allocs[0], react).state;
      ReplaysKeepOneVoice(next, loaded, fadeTime, looping, allocs[1..], react);
    }
  }

  /** Every query depends on the primary voice alone: two sounds whose
      primary voices agree answer alike, whatever their other voices do. */
  lemma QueriesIgnoreSecondaries(a: State, b: State, loaded: bool)
    requires Bound(a) && Bound(b)
    requires |a.sound.sources| > 0 && |b.sound.sources| > 0
    requires a.pool[a.sound.sources[0]] == b.pool[b.sound.sources[0]]
    ensures IsPlaying(a) == IsPlaying(b) && IsPaused(a) == IsPaused(b)
    ensures IsFading(a) == IsFading(b) && IsFadingIn(a) == IsFadingIn(b)
    ensures IsFadingOut(a) == IsFadingOut(b) && IsLooping(a) == IsLooping(b)
    ensures IsLocked(a) == IsLocked(b)
    ensures GetGain(a, loaded) == GetGain(b, loaded)
    ensures GetSampleOffset(a, loaded) == GetSampleOffset(b, loaded)
  {
  }

  /** With no voice bound every query gives its inactive default, and with
      no buffer loaded so do the gain and offset queries. */
  lemma QueriesOfSilentSound(st: State, loaded: bool)
    requires Bound(st)
    ensures |st.sound.sources| == 0 ==>
      && !IsPlaying(st) && !IsPaused(st) && !IsFading(st) && !IsFadingIn(st)
      && !IsFadingOut(st) && !IsLooping(st) && !IsLocked(st)
    ensures |st.sound.sources| == 0 || !loaded ==>
      GetGain(st, loaded) == 1.0 && GetSampleOffset(st, loaded) == 0.0
    ensures |st.sound.sources| > 0 ==>
      var p := st.pool[st.sound.sources[0]];
      && IsPlaying(st) == p.playing && IsPaused(st) == p.paused && IsFading(st) == p.fading
      && IsFadingIn(st) == p.fadingIn && IsFadingOut(st) == p.fadingOut
      && IsLooping(st) == p.looping && IsLocked(st) == p.locked
      && (loaded ==> GetGain(st, loaded) == p.gain && GetSampleOffset(st, loaded) == p.sampleOffset)
  {
  }

  /** A sound whose primary voice has stopped reports "not playing" even
      while a second voice of it is still playing; `StopAll` is the only
      call that reaches that second voice. */
  lemma SecondaryVoiceIsInvisible(st: State, fadeTime: real, react: V.Reaction)
    requires Bound(st) && |st.sound.sources| == 2
    requires st.sound.sources[0] != st.sound.sources[1]
    requires !st.pool[st.sound.sources[0]].playing && st.pool[st.sound.sources[1]].playing
    ensures !IsPlaying(st)
    ensures Stop(st, true, fadeTime, react).pool[st.sound.sources[1]] == st.pool[st.sound.sources[1]]
    ensures StopAll(st, true, fadeTime, react).pool[st.sound.sources[1]]
         == react(st.pool[st.sound.sources[1]], V.Stop(fadeTime))
  {
  }

  /** Each control sent to the primary voice shows in the matching query:
      the sound reports what the primary voice made of the call. */
  lemma ControlsShowInQueries(st: State, fadeTime: real, gain: real, react: V.Reaction)
    requires Bound(st) && |st.sound.sources| > 0
    ensures
      var p := st.pool[st.sound.sources[0]];
      && IsLocked(Lock(st, react)) == react(p, V.Lock).locked
      && IsLocked(Unlock(st, react)) == react(p, V.Unlock).locked
      && IsPaused(Pause(st, true, fadeTime, react)) == react(p, V.Pause(fadeTime)).paused
      && GetGain(SetGain(st, true, gain, react), true) == react(p, V.SetGain(gain)).gain
      && IsPlaying(Stop(st, true, fadeTime, react)) == react(p, V.Stop(fadeTime)).playing
  {
  }

  /** Without a buffer, pausing and setting the gain change nothing the
      sound reports, while locking and unlocking still reach the primary. */
  lemma ControlsWithoutBuffer(st: State, fadeTime: real, gain: real, react: V.Reaction)
    requires Bound(st) && |st.sound.sources| > 0
    ensures IsPaused(Pause(st, false, fadeTime, react)) == IsPaused(st)
    ensures GetGain(SetGain(st, false, gain, react), false) == 1.0
    ensures IsLocked(Lock(st, react)) == react(st.pool[st.sound.sources[0]], V.Lock).locked
  {
  }
}
