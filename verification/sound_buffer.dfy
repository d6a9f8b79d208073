/** A playable sound and the voices bound to it.

    A sound keeps its bound voices in allocation order. The first one is the
    primary voice: gain, pause, stop, lock and every query act on it alone.
    Only `StopAll` reaches the other voices. Whether the sound's audio
    buffer is loaded is an input (`loaded`), and so is the manager's answer
    to a voice request (`alloc`, the voice `allocateSource` hands out, or
    `None` when it has none). */
module SoundBuffer {
  import opened Options
  import V = Voices
  import SoundName

  datatype Sound = Sound(
    id: V.SoundId,
    filename: string,
    name: string,
    category: string,
    duration: real,
    sources: seq<V.VoiceId>)

  /** A sound together with the voices it can reach. */
  datatype State = State(sound: Sound, pool: V.Pool)

  /** What `Play` and `Replay` return: the new state, the voice handle
      (`None` for the null result) and whether a voice was requested from
      the manager. */
  datatype Started = Started(state: State, handle: Option<V.VoiceId>, requested: bool)

  /** Every bound voice exists in the pool. */
  predicate Bound(st: State)
  {
    forall i :: 0 <= i < |st.sound.sources| ==> st.sound.sources[i] in st.pool
  }

  /** No voice is bound twice. */
  predicate Distinct(vs: seq<V.VoiceId>)
  {
    forall i, j :: 0 <= i < j < |vs| ==> vs[i] != vs[j]
  }

  /** Only voice `v` may differ between the two pools. */
  predicate OthersKept(before: V.Pool, after: V.Pool, v: V.VoiceId)
  {
    && after.Keys == before.Keys
    && forall u :: u in before && u != v ==> after[u] == before[u]
  }

  /** `after` differs from `before` only in that `v` received call `c`. */
  predicate Sent(before: V.Pool, after: V.Pool, v: V.VoiceId, c: V.Call, react: V.Reaction)
    requires v in before
  {
    OthersKept(before, after, v) && after[v] == react(before[v], c)
  }

  /** A new sound: its registered name, its category, no voices. */
  function New(id: V.SoundId, filename: string, category: string, prefix: string): (s: Sound)
    ensures s.id == id && s.filename == filename && s.category == category
    ensures s.sources == [] && s.duration == 0.0
    ensures |s.name| >= |prefix| && s.name[..|prefix|] == prefix
    ensures s.name == SoundName.DeriveName(prefix, filename)
  {
    Sound(id, filename, SoundName.DeriveName(prefix, filename), category, 0.0, [])
  }

  /** Sending one call to one voice. */
  function Deliver(st: State, v: V.VoiceId, c: V.Call, react: V.Reaction): (r: State)
    requires v in st.pool
    ensures r.sound == st.sound && Sent(st.pool, r.pool, v, c, react)
  {
    st.(pool := st.pool[v := react(st.pool[v], c)])
  }

  /** The voice takes this sound as its owner and joins the end of the list. */
  function BindSource(st: State, v: V.VoiceId): (r: State)
    requires Bound(st) && v in st.pool
    ensures Bound(r)
    ensures r.sound == st.sound.(sources := st.sound.sources + [v])
    ensures OthersKept(st.pool, r.pool, v)
    ensures r.pool[v] == st.pool[v].(owner := Some(st.sound.id))
  {
    State(st.sound.(sources := st.sound.sources + [v]),
          st.pool[v := st.pool[v].(owner := Some(st.sound.id))])
  }

  /** Position of the first occurrence of `v`. */
  function IndexOf(s: seq<V.VoiceId>, v: V.VoiceId): (i: nat)
    requires v in s
    ensures i < |s| && s[i] == v && v !in s[..i]
  {
    if s[0] == v then 0 else 1 + IndexOf(s[1..], v)
  }

  /** The list without its first `v`; unchanged when `v` is absent. */
  function RemoveFirst(s: seq<V.VoiceId>, v: V.VoiceId): (r: seq<V.VoiceId>)
    ensures multiset(r) == multiset(s) - multiset{v}
    ensures forall u :: u in r ==> u in s
    ensures v !in s ==> r == s
    ensures v in s ==> var i := IndexOf(s, v); r == s[..i] + s[i + 1..]
  {
    if v !in s then s
    else
      var i := IndexOf(s, v);
      assert s == s[..i] + [v] + s[i + 1..];
      s[..i] + s[i + 1..]
  }

  /** The voice loses its owner and leaves the list. */
  function UnbindSource(st: State, v: V.VoiceId): (r: State)
    requires Bound(st) && v in st.pool
    ensures Bound(r)
    ensures r.sound == st.sound.(sources := r.sound.sources)
    ensures multiset(r.sound.sources) == multiset(st.sound.sources) - multiset{v}
    ensures OthersKept(st.pool, r.pool, v)
    ensures r.pool[v] == st.pool[v].(owner := None)
    ensures v !in st.sound.sources ==> r.sound == st.sound
    ensures v in st.sound.sources ==>
      var i := IndexOf(st.sound.sources, v);
      r.sound.sources == st.sound.sources[..i] + st.sound.sources[i + 1..]
  {
    var r := State(st.sound.(sources := RemoveFirst(st.sound.sources, v)), Release(st.pool, v));
    KeptVoicesBound(st, r);
    r
  }

  /** The voice with its owner cleared; no other voice changes. */
  function Release(pool: V.Pool, v: V.VoiceId): (r: V.Pool)
    requires v in pool
    ensures OthersKept(pool, r, v) && r[v] == pool[v].(owner := None)
  {
    pool[v := pool[v].(owner := None)]
  }

  /** A state whose voices are drawn from the bound voices of `st`, over a
      pool with the same voices, is bound. */
  lemma KeptVoicesBound(st: State, r: State)
    requires Bound(st) && r.pool.Keys == st.pool.Keys
    requires forall u :: u in r.sound.sources ==> u in st.sound.sources
    ensures Bound(r)
  {
    forall i | 0 <= i < |r.sound.sources|
      ensures r.sound.sources[i] in r.pool
    {
      var u := r.sound.sources[i];
      assert u in st.sound.sources;
      var j :| 0 <= j < |st.sound.sources| && st.sound.sources[j] == u;
    }
  }

  /** `Play` asks for a fresh voice exactly when no voice is bound or the
      primary one is playing. */
  predicate NeedsVoice(st: State)
    requires Bound(st)
  {
    |st.sound.sources| == 0 || st.pool[st.sound.sources[0]].playing
  }

  /** Starts the sound: allocates and binds a new voice when `NeedsVoice`,
      otherwise restarts the primary voice in place. */
  function Play(st: State, loaded: bool, fadeTime: real, looping: bool,
                alloc: Option<V.VoiceId>, react: V.Reaction): (o: Started)
    requires Bound(st)
    requires alloc.Some? ==> alloc.value in st.pool
    ensures Bound(o.state) && o.state.pool.Keys == st.pool.Keys
    ensures !loaded ==> o == Started(st, None, false)
    ensures loaded ==> (o.requested <==> NeedsVoice(st))
    ensures o.handle.None? <==> !loaded || (NeedsVoice(st) && alloc.None?)
    ensures o.handle.None? ==> o.state == st
    ensures o.requested && o.handle.Some? ==>
      var v := alloc.value;
      && o.handle == alloc
      && o.state.sound == st.sound.(sources := st.sound.sources + [v])
      && Sent(st.pool[v := st.pool[v].(owner := Some(st.sound.id))], o.state.pool, v,
              V.Play(fadeTime, looping), react)
    ensures !o.requested && o.handle.Some? ==>
      var p := st.sound.sources[0];
      && o.handle == Some(p)
      && o.state.sound == st.sound
      && Sent(st.pool, o.state.pool, p, V.Play(fadeTime, looping), react)
    ensures Distinct(st.sound.sources) && (alloc.Some? ==> alloc.value !in st.sound.sources) ==>
      Distinct(o.state.sound.sources)
  {
    if !loaded then Started(st, None, false)
    else if NeedsVoice(st) then
      match alloc
      case None => Started(st, None, true)
      case Some(v) =>
        var bound := BindSource(st, v);
        Started(Deliver(bound, v, V.Play(fadeTime, looping), react), Some(v), true)
    else
      var p := st.sound.sources[0];
      Started(Deliver(st, p, V.Play(fadeTime, looping), react), Some(p), false)
  }

  /** Restarts the sound from the beginning: the primary voice is stopped and
      replayed; a voice is requested only when none is bound. */
  function Replay(st: State, loaded: bool, fadeTime: real, looping: bool,
                  alloc: Option<V.VoiceId>, react: V.Reaction): (o: Started)
    requires Bound(st)
    requires alloc.Some? ==> alloc.value in st.pool
    ensures Bound(o.state) && o.state.pool.Keys == st.pool.Keys
    ensures !loaded ==> o == Started(st, None, false)
    ensures loaded ==> (o.requested <==> |st.sound.sources| == 0)
    ensures o.handle.None? <==> !loaded || (|st.sound.sources| == 0 && alloc.None?)
    ensures o.handle.None? ==> o.state == st
    ensures o.requested && o.handle.Some? ==>
      var v := alloc.value;
      && o.handle == alloc
      && o.state.sound == st.sound.(sources := [v])
      && Sent(st.pool[v := st.pool[v].(owner := Some(st.sound.id))], o.state.pool, v,
              V.Replay(fadeTime, looping), react)
    ensures !o.requested && o.handle.Some? ==>
      var p := st.sound.sources[0];
      && o.handle == Some(p)
      && o.state.sound == st.sound
      && OthersKept(st.pool, o.state.pool, p)
      && o.state.pool[p] == react(react(st.pool[p], V.StopNow), V.Replay(fadeTime, looping))
  {
    if !loaded then Started(st, None, false)
    else if |st.sound.sources| == 0 then
      match alloc
      case None => Started(st, None, true)
      case Some(v) =>
        var bound := BindSource(st, v);
        Started(Deliver(bound, v, V.Replay(fadeTime, looping), react), Some(v), true)
    else
      var p := st.sound.sources[0];
      var stopped := Deliver(st, p, V.StopNow, react);
      Started(Deliver(stopped, p, V.Replay(fadeTime, looping), react), Some(p), false)
  }

  /** Sends `c` to the primary voice when the buffer is loaded and a voice is
      bound; otherwise nothing happens. */
  function ControlPrimary(st: State, loaded: bool, c: V.Call, react: V.Reaction): (r: State)
    requires Bound(st)
    ensures Bound(r) && r.sound == st.sound
    ensures !loaded || |st.sound.sources| == 0 ==> r == st
    ensures loaded && |st.sound.sources| > 0 ==> Sent(st.pool, r.pool, st.sound.sources[0], c, react)
  {
    if loaded && |st.sound.sources| > 0 then Deliver(st, st.sound.sources[0], c, react)
    else st
  }

  /** Stops the primary voice. */
  function Stop(st: State, loaded: bool, fadeTime: real, react: V.Reaction): (r: State)
    requires Bound(st)
    ensures Bound(r) && r.sound == st.sound
    ensures !loaded || |st.sound.sources| == 0 ==> r == st
    ensures loaded && |st.sound.sources| > 0 ==>
      Sent(st.pool, r.pool, st.sound.sources[0], V.Stop(fadeTime), react)
  {
    ControlPrimary(st, loaded, V.Stop(fadeTime), react)
  }

  /** Pauses the primary voice. */
  function Pause(st: State, loaded: bool, fadeTime: real, react: V.Reaction): (r: State)
    requires Bound(st)
    ensures Bound(r) && r.sound == st.sound
    ensures !loaded || |st.sound.sources| == 0 ==> r == st
    ensures loaded && |st.sound.sources| > 0 ==>
      Sent(st.pool, r.pool, st.sound.sources[0], V.Pause(fadeTime), react)
  {
    ControlPrimary(st, loaded, V.Pause(fadeTime), react)
  }

  /** Sets the gain of the primary voice. */
  function SetGain(st: State, loaded: bool, gain: real, react: V.Reaction): (r: State)
    requires Bound(st)
    ensures Bound(r) && r.sound == st.sound
    ensures !loaded || |st.sound.sources| == 0 ==> r == st
    ensures loaded && |st.sound.sources| > 0 ==>
      Sent(st.pool, r.pool, st.sound.sources[0], V.SetGain(gain), react)
  {
    ControlPrimary(st, loaded, V.SetGain(gain), react)
  }

  /** Locks the primary voice against eviction; the buffer need not be loaded. */
  function Lock(st: State, react: V.Reaction): (r: State)
    requires Bound(st)
    ensures Bound(r) && r.sound == st.sound
    ensures |st.sound.sources| == 0 ==> r == st
    ensures |st.sound.sources| > 0 ==> Sent(st.pool, r.pool, st.sound.sources[0], V.Lock, react)
  {
    ControlPrimary(st, true, V.Lock, react)
  }

  /** Releases the lock of the primary voice; the buffer need not be loaded. */
  function Unlock(st: State, react: V.Reaction): (r: State)
    requires Bound(st)
    ensures Bound(r) && r.sound == st.sound
    ensures |st.sound.sources| == 0 ==> r == st
    ensures |st.sound.sources| > 0 ==> Sent(st.pool, r.pool, st.sound.sources[0], V.Unlock, react)
  {
    ControlPrimary(st, true, V.Unlock, react)
  }

  /** Sends `Stop(fadeTime)` to each voice of `vs`, front to back. */
  function StopEach(pool: V.Pool, vs: seq<V.VoiceId>, fadeTime: real, react: V.Reaction): (r: V.Pool)
    requires forall i :: 0 <= i < |vs| ==> vs[i] in pool
    ensures r.Keys == pool.Keys
    ensures forall u :: u in pool && u !in vs ==> r[u] == pool[u]
    ensures Distinct(vs) ==>
      forall i :: 0 <= i < |vs| ==> r[vs[i]] == react(pool[vs[i]], V.Stop(fadeTime))
    decreases |vs|
  {
    if vs == [] then pool
    else
      var first := pool[vs[0] := react(pool[vs[0]], V.Stop(fadeTime))];
      StopEach(first, vs[1..], fadeTime, react)
  }

  /** Stops every bound voice, primary and secondary alike. */
  function StopAll(st: State, loaded: bool, fadeTime: real, react: V.Reaction): (r: State)
    requires Bound(st)
    ensures Bound(r) && r.sound == st.sound && r.pool.Keys == st.pool.Keys
    ensures !loaded ==> r == st
    ensures forall u :: u in st.pool && u !in st.sound.sources ==> r.pool[u] == st.pool[u]
    ensures loaded && Distinct(st.sound.sources) ==>
      forall i :: 0 <= i < |st.sound.sources| ==>
        r.pool[st.sound.sources[i]] == react(st.pool[st.sound.sources[i]], V.Stop(fadeTime))
  {
    if loaded then st.(pool := StopEach(st.pool, st.sound.sources, fadeTime, react)) else st
  }

  // Queries. Each one reports on the primary voice, with an inactive default
  // when no voice is bound.

  predicate IsPlaying(st: State)
    requires Bound(st)
    ensures |st.sound.sources| == 0 ==> !IsPlaying(st)
    ensures |st.sound.sources| > 0 ==> (IsPlaying(st) <==> st.pool[st.sound.sources[0]].playing)
  {
    |st.sound.sources| > 0 && st.pool[st.sound.sources[0]].playing
  }

  predicate IsPaused(st: State)
    requires Bound(st)
    ensures |st.sound.sources| == 0 ==> !IsPaused(st)
    ensures |st.sound.sources| > 0 ==> (IsPaused(st) <==> st.pool[st.sound.sources[0]].paused)
  {
    |st.sound.sources| > 0 && st.pool[st.sound.sources[0]].paused
  }

  predicate IsFading(st: State)
    requires Bound(st)
    ensures |st.sound.sources| == 0 ==> !IsFading(st)
    ensures |st.sound.sources| > 0 ==> (IsFading(st) <==> st.pool[st.sound.sources[0]].fading)
  {
    |st.sound.sources| > 0 && st.pool[st.sound.sources[0]].fading
  }

  predicate IsFadingIn(st: State)
    requires Bound(st)
    ensures |st.sound.sources| == 0 ==> !IsFadingIn(st)
    ensures |st.sound.sources| > 0 ==> (IsFadingIn(st) <==> st.pool[st.sound.sources[0]].fadingIn)
  {
    |st.sound.sources| > 0 && st.pool[st.sound.sources[0]].fadingIn
  }

  predicate IsFadingOut(st: State)
    requires Bound(st)
    ensures |st.sound.sources| == 0 ==> !IsFadingOut(st)
    ensures |st.sound.sources| > 0 ==> (IsFadingOut(st) <==> st.pool[st.sound.sources[0]].fadingOut)
  {
    |st.sound.sources| > 0 && st.pool[st.sound.sources[0]].fadingOut
  }

  predicate IsLooping(st: State)
    requires Bound(st)
    ensures |st.sound.sources| == 0 ==> !IsLooping(st)
    ensures |st.sound.sources| > 0 ==> (IsLooping(st) <==> st.pool[st.sound.sources[0]].looping)
  {
    |st.sound.sources| > 0 && st.pool[st.sound.sources[0]].looping
  }

  predicate IsLocked(st: State)
    requires Bound(st)
    ensures |st.sound.sources| == 0 ==> !IsLocked(st)
    ensures |st.sound.sources| > 0 ==> (IsLocked(st) <==> st.pool[st.sound.sources[0]].locked)
  {
    |st.sound.sources| > 0 && st.pool[st.sound.sources[0]].locked
  }

  /** Gain of the primary voice; 1 when the buffer is not loaded or no voice
      is bound. */
  function GetGain(st: State, loaded: bool): (g: real)
    requires Bound(st)
    ensures !loaded || |st.sound.sources| == 0 ==> g == 1.0
    ensures loaded && |st.sound.sources| > 0 ==> g == st.pool[st.sound.sources[0]].gain
  {
    if !loaded || |st.sound.sources| == 0 then 1.0 else st.pool[st.sound.sources[0]].gain
  }

  /** Playback position of the primary voice; 0 when the buffer is not
      loaded or no voice is bound. */
  function GetSampleOffset(st: State, loaded: bool): (t: real)
    requires Bound(st)
    ensures !loaded || |st.sound.sources| == 0 ==> t == 0.0
    ensures loaded && |st.sound.sources| > 0 ==> t == st.pool[st.sound.sources[0]].sampleOffset
  {
    if !loaded || |st.sound.sources| == 0 then 0.0 else st.pool[st.sound.sources[0]].sampleOffset
  }

  /** Whether the sound's file counts as Ogg: `.ogg` occurs somewhere in
      its file name. */
  predicate IsOgg(s: Sound)
    ensures IsOgg(s) <==> exists i: nat :: SoundName.OccursAt(s.filename, ".ogg", i)
  {
    SoundName.IsOgg(s.filename)
  }
}
