# libxal core: sounds, voices, categories and the Ogg source

A Dafny model of three parts of the xal audio library:

- **SoundBuffer.** A playable sound and the voices bound to it. A sound keeps
  its voices in allocation order, and the first is the *primary* voice. Gain,
  pause, stop, lock and every query act on the primary alone. `stopAll`
  reaches every voice. `play` either re-uses the primary or binds a freshly
  allocated voice. `replay` stops and restarts the primary. The module also
  covers how the sound's name is derived from its file name, and the `.ogg`
  test.
- **Ogg source.** `open` fills the format fields: 16 bits per sample, and a
  size of frames × channels × 2 bytes. `close` and `rewind` touch the decoder
  only when the base call succeeds. `load` and `loadChunk` share one read
  loop, and on a big-endian host a byte-swap pass follows it. The source
  record follows the fields of `include/xal/Source.h`: size, channels,
  sampling rate and bits per sample.
- **Category.** A named gain group. Its gain is stored, and the manager then
  re-applies its global gain, so that every player picks the change up.

External behaviour enters as parameters:

- A voice's reaction to a call (`play`, `stop`, `pause`, `setGain`, `lock`,
  ...) is a function `Reaction` from voice state and call to voice state.
- The manager's `allocateSource` is its answer, `alloc: Option<VoiceId>`.
- "buffer loaded" (`getBuffer() != 0`) is a boolean `loaded`.
- The Vorbis decoder is a `StreamInfo` at open time and a `ReadSize` oracle
  for each `ov_read`. The oracle's answer is clipped to what was asked for
  and to the data left. That clipping makes the read loop terminate and
  bounds its result.
- The base class's `open`/`close`/`rewind`/`load`/`loadChunk` are their
  results.
- The host's byte order is a boolean `bigEndian`.

The model follows the code of `play` (trunk/src/SoundBuffer.cpp:150). It
requests a new voice when no voice is bound **or when the primary voice is
playing**, and re-uses the primary only when that voice is not playing. One
could instead read the method as meant to re-use a playing primary and to
request a voice only for an idle one; the code does the opposite.
`SoundBufferProps.SecondPlayStacksVoice` shows the consequence: two plays in
a row bind two voices.

Files: `options.dfy` (Option), `sound_name.dfy`, `voices.dfy`,
`sound_buffer.dfy`, `sound_buffer_props.dfy`, `categories.dfy`,
`endian_pass.dfy`, `ogg_source.dfy`, `ogg_findings.dfy` (the two defects under "Findings").

## Model

| member | source | states |
|---|---|---|
| `SoundName.Normalize` | trunk/src/SoundBuffer.cpp:32 | every backslash becomes a slash, every other character is kept, and no backslash remains |
| `SoundName.LastComponent` | trunk/src/SoundBuffer.cpp:32 | the result is the longest suffix without a slash, preceded by a slash whenever it is not the whole string |
| `SoundName.StripExtension` | trunk/src/SoundBuffer.cpp:32 | the result is the text before the last dot; the dropped part starts with a dot and holds no further dot; no dot means no change |
| `SoundName.DeriveName` | trunk/src/SoundBuffer.cpp:32 | the name starts with the prefix and the rest holds no slash or backslash |
| `SoundName.DeriveNameOfPath` | trunk/src/SoundBuffer.cpp:32 | for any directory part, the name of `dir + stem + "." + ext` is `prefix + stem`, so only the last extension is dropped |
| `SoundName.DeriveNameWithoutExtension` | trunk/src/SoundBuffer.cpp:32 | a file part without a dot is kept whole behind the prefix |
| `SoundName.Contains` | trunk/src/SoundBuffer.cpp:138 | true exactly when the pattern occurs at some position |
| `SoundName.IsOgg` | trunk/src/SoundBuffer.cpp:136-139 | a file name counts as Ogg exactly when `.ogg` occurs at some position of it |
| `SoundName.IsOggIsNotSuffixTest` | trunk/src/SoundBuffer.cpp:136-139 | `music.ogg.bak` counts as Ogg: the test looks for `.ogg` anywhere, not at the end |
| `SoundName.IsOggIsCaseSensitive` | trunk/src/SoundBuffer.cpp:136-139 | `music.OGG` does not count as Ogg |
| `SoundName.OggSuffixIsOgg` | trunk/src/SoundBuffer.cpp:136-139 | every name ending in `.ogg` counts as Ogg |
| `SoundBuffer.New` | trunk/src/SoundBuffer.cpp:28-34 | a new sound has no voices, duration 0, its file name and category, and the name derived from prefix and file name |
| `SoundBufferProps.NewSoundName` | trunk/src/SoundBuffer.cpp:32 | a sound made from `dir + stem + "." + ext` is named `prefix + stem`, for every directory part and stem |
| `SoundBuffer.BindSource` | trunk/src/SoundBuffer.cpp:43-47 | the voice joins the end of the list and takes the sound as owner; no other voice changes |
| `SoundBuffer.UnbindSource` | trunk/src/SoundBuffer.cpp:49-53 | the first occurrence of the voice leaves the list and the other voices keep their order, so the primary stays in front unless it is the one removed. An unbound voice leaves the list unchanged. The voice's owner is cleared and no other voice changes |
| `SoundBufferProps.UnbindUndoesBind` | trunk/src/SoundBuffer.cpp:43-53 | binding a free, unbound voice and unbinding it again restores sound and pool exactly |
| `SoundBuffer.Play` | trunk/src/SoundBuffer.cpp:143-165 | no buffer: null, nothing changes, nothing requested. A voice is requested iff none is bound or the primary is playing. A failed request gives null and no change. A granted one appends exactly that voice, owned by the sound, and sends it `play`. Otherwise the primary gets `play`, the list stays and no other voice changes. Distinct voices stay distinct |
| `SoundBufferProps.SecondPlayStacksVoice` | trunk/src/SoundBuffer.cpp:150-158 | when the first play leaves its voice playing and the allocator then grants a different voice, a second play requests and binds it: the list becomes `[a, b]` |
| `SoundBufferProps.IdlePrimaryIsReused` | trunk/src/SoundBuffer.cpp:150-163 | a primary voice that is not playing, and stays so after `play`, is re-used by two plays in a row without any request |
| `SoundBuffer.Replay` | trunk/src/SoundBuffer.cpp:167-190 | no buffer: null and no change. With a voice bound, nothing is requested, the list stays, and the primary gets `stop()` and then `replay`. With none bound, a voice is requested and, when granted, becomes the only one |
| `SoundBufferProps.ReplaysKeepOneVoice` | trunk/src/SoundBuffer.cpp:167-190 | starting from at most one bound voice, any run of replays leaves at most one voice bound, and once one is bound the sound never changes again; a sound that `play` gave two voices keeps both |
| `SoundBuffer.Stop` | trunk/src/SoundBuffer.cpp:192-198 | with a buffer and a voice, only the primary receives `stop`; otherwise nothing changes |
| `SoundBuffer.Pause` | trunk/src/SoundBuffer.cpp:211-217 | with a buffer and a voice, only the primary receives `pause`; otherwise nothing changes |
| `SoundBuffer.SetGain` | trunk/src/SoundBuffer.cpp:89-95 | with a buffer and a voice, only the primary receives the gain; otherwise nothing changes |
| `SoundBuffer.Lock` | trunk/src/SoundBuffer.cpp:55-61 | with a voice bound, only the primary receives `lock`, whether or not a buffer is loaded; otherwise nothing changes |
| `SoundBuffer.Unlock` | trunk/src/SoundBuffer.cpp:63-69 | with a voice bound, only the primary receives `unlock`, whether or not a buffer is loaded; otherwise nothing changes |
| `SoundBuffer.StopEach` | trunk/src/SoundBuffer.cpp:204-207 | voices outside the list keep their state; each voice of a duplicate-free list receives `stop` exactly once |
| `SoundBuffer.StopAll` | trunk/src/SoundBuffer.cpp:200-209 | with a buffer loaded every bound voice receives `stop` and unbound voices keep their state; without one nothing changes |
| `SoundBuffer.IsLocked` | trunk/src/SoundBuffer.cpp:71-78 | false with no voice bound, whether or not a buffer is loaded; otherwise whether the primary voice is locked |
| `SoundBuffer.GetSampleOffset` | trunk/src/SoundBuffer.cpp:80-87 | 0 with no buffer or no voice; otherwise the primary voice's playback position |
| `SoundBuffer.GetGain` | trunk/src/SoundBuffer.cpp:97-104 | 1 with no buffer or no voice; otherwise the primary voice's gain |
| `SoundBuffer.IsPlaying` | trunk/src/SoundBuffer.cpp:106-109 | false with no voice bound; otherwise whether the primary voice is playing, whatever the other voices do |
| `SoundBuffer.IsPaused` | trunk/src/SoundBuffer.cpp:111-114 | false with no voice bound; otherwise whether the primary voice is paused |
| `SoundBuffer.IsFading` | trunk/src/SoundBuffer.cpp:116-119 | false with no voice bound; otherwise whether the primary voice is fading |
| `SoundBuffer.IsFadingIn` | trunk/src/SoundBuffer.cpp:121-124 | false with no voice bound; otherwise whether the primary voice is fading in |
| `SoundBuffer.IsFadingOut` | trunk/src/SoundBuffer.cpp:126-129 | false with no voice bound; otherwise whether the primary voice is fading out |
| `SoundBuffer.IsLooping` | trunk/src/SoundBuffer.cpp:131-134 | false with no voice bound; otherwise whether the primary voice loops |
| `SoundBuffer.IsOgg` | trunk/src/SoundBuffer.cpp:136-139 | a sound counts as Ogg exactly when `.ogg` occurs at some position of its file name |
| `SoundBufferProps.QueriesOfSilentSound` | trunk/src/SoundBuffer.cpp:71-134 | with no voice bound every flag query is false; with no voice or no buffer the gain is 1 and the offset 0; otherwise each query reports the primary voice |
| `SoundBufferProps.QueriesIgnoreSecondaries` | trunk/src/SoundBuffer.cpp:71-134 | two sounds whose primary voices agree answer every query alike, whatever their other voices do |
| `SoundBufferProps.ControlsShowInQueries` | trunk/src/SoundBuffer.cpp:55-217 | with a buffer and a voice, `isLocked` after `lock` or `unlock`, `isPaused` after `pause`, `getGain` after `setGain` and `isPlaying` after `stop` report what the primary voice made of that call |
| `SoundBufferProps.ControlsWithoutBuffer` | trunk/src/SoundBuffer.cpp:55-217 | without a buffer, `pause` leaves `isPaused` as it was and `getGain` stays 1 after `setGain`, while `lock` still reaches the primary and shows in `isLocked` |
| `SoundBufferProps.SecondaryVoiceIsInvisible` | trunk/src/SoundBuffer.cpp:106-109 | with a stopped primary and a playing second voice the sound reports "not playing", `stop` leaves the second voice alone, and `stopAll` stops it |
| `Categories.NewCategory` | src/Category.cpp:17-22 | a new category has gain 1 and the given name, buffer mode and source mode |
| `Categories.IsStreamed` | src/Category.cpp:35-38 | a streamed category's buffer mode is neither MANAGED nor any other mode |
| `Categories.IsMemoryManaged` | src/Category.cpp:40-43 | a memory-managed category's buffer mode is neither STREAMED nor any other mode |
| `Categories.NewCategoryModes` | src/Category.cpp:17-43 | a new category is streamed exactly when it was given STREAMED and memory-managed exactly when it was given MANAGED |
| `Categories.SetGainKeepsModes` | src/Category.cpp:28-43 | setting a category's gain keeps the set of categories and every category's name, buffer mode, source mode and both mode answers |
| `Categories.StreamedAndManagedExclusive` | src/Category.cpp:35-43 | streamed iff the buffer mode is STREAMED, memory-managed iff MANAGED, never both |
| `Categories.SetGlobalGain` | src/Category.cpp:32 | the global gain takes the value, categories stay, and every player's applied gain becomes global × category × own gain (no fade factor) |
| `Categories.SetGain` | src/Category.cpp:28-33 | the category's gain equals the value and no other category changes. The global gain is unchanged, and every player's applied gain is brought up to date |
| `Categories.GainChangeIsLive` | src/Category.cpp:28-33 | from an up-to-date manager, players of the category are heard at global × new gain × own gain, and all others keep their applied gain |
| `Categories.SetGainUndone` | src/Category.cpp:28-33 | setting a category's gain and then setting it back restores the manager |
| `OggSource.Open` | audiosources/OGG_Source.cpp:30-52 | true iff both the base open and the decoder succeed. Only then are the fields set: 16 bits per sample, the decoder's channels and rate, size = frames × channels × bytes per sample, decoder at position 0. On failure nothing changes |
| `OggSource.Close` | audiosources/OGG_Source.cpp:54-62 | the decoder is cleared only when the base close succeeds; the base result is returned |
| `OggSource.Rewind` | audiosources/OGG_Source.cpp:64-72 | the decoder seeks to position 0 only when the base rewind succeeds, and the base result is returned. No other field changes, and a cleared decoder leaves the source untouched |
| `OggSource.Delivered` | audiosources/OGG_Source.cpp:84-93 | reference count of the bytes the read loop gets: never more than requested and never past the end of the decoded data |
| `OggSource.ReadLoop` | audiosources/OGG_Source.cpp:84-93 | bytes read plus `remaining` equals the request, the bytes are those of `Drain`, and a non-zero `remaining` means the decoder delivered nothing |
| `OggSource.Round` | audiosources/OGG_Source.cpp:86-92 | one round of the loop with a non-zero delivery keeps the loop invariant `Progress` and shrinks `remaining` |
| `OggSource.Fill` | audiosources/OGG_Source.cpp:80-93 | the part `load` and `loadChunk` share: the bytes read are those of `Drain`, they are copied to the front of the buffer, and the decoder advances by their count |
| `OggSource.DrainReadsAll` | audiosources/OGG_Source.cpp:84-93 | with a decoder that delivers something whenever data is left, the loop reads min(request, data left): a short read means end of stream |
| `OggSource.Load` | audiosources/OGG_Source.cpp:74-101 | false exactly when the base load fails, and then nothing changes. A short read still returns true. The buffer starts with the bytes read and keeps the rest. The decoder advances by the bytes read. On a big-endian host every word below `size` is swapped |
| `OggSource.ChunkReads` | audiosources/OGG_Source.cpp:103-130 | the bytes of successive `loadChunk` calls up to the first empty one are the decoded data from the current position onwards, in order, without gaps |
| `OggSource.ChunkReadsAll` | audiosources/OGG_Source.cpp:103-130 | with a decoder that delivers something whenever data is left, calling `loadChunk` with any positive chunk size until it reads nothing yields the whole rest of the stream |
| `OggSource.LoadOfOpenedStreamIsComplete` | audiosources/OGG_Source.cpp:40-42 | a freshly opened stream whose decoded data has `size` bytes is read completely |
| `OggSource.CloseIsIdempotent` | audiosources/OGG_Source.cpp:54-62 | after a successful close, a second close leaves the source unchanged, whatever the base close reports |
| `OggSource.ReopenAfterClose` | audiosources/OGG_Source.cpp:30-62 | opening a closed source succeeds exactly when opening the unclosed one would, and a successful open gives the same source either way |
| `OggSource.RewindRestoresOpenedStream` | audiosources/OGG_Source.cpp:64-72 | after any amount of reading, a rewind restores the source exactly as `open` left it, so the next read yields the same bytes |
| `OggSource.LoadChunk` | audiosources/OGG_Source.cpp:103-130 | a base result of 0 gives 0 and touches nothing. Otherwise the result is request − remaining, within [0, request], equal to the bytes read, and the decoder advances by it. The big-endian pass stays inside the chunk buffer |
| `OggFindings.OpenSizeAsWritten` | audiosources/OGG_Source.cpp:42 | the size computed in 32-bit `int` arithmetic lies in the 32-bit range and agrees with frames × channels × 2 modulo 2^32, which fixes its value |
| `OggFindings.Mul32` | audiosources/OGG_Source.cpp:42 | a product in 32-bit `int` arithmetic lies in the 32-bit range and agrees with the exact product modulo 2^32 |
| `OggFindings.OpenSizeAgreesWhenSmall` | audiosources/OGG_Source.cpp:42 | while frames × channels × 2 fits in 31 bits, the 32-bit computation equals the size `Open` stores |
| `OggFindings.OpenSizeOverflows` | audiosources/OGG_Source.cpp:42 | 2^29 stereo frames give a 32-bit size of −2^31 instead of 2^31 bytes |
| `OggFindings.ChunkPassAsWritten` | audiosources/OGG_Source.cpp:123-128 | the chunk pass bounded by the whole stream's size fails exactly when some word it swaps reaches past the chunk buffer |
| `OggFindings.ChunkPassOverruns` | audiosources/OGG_Source.cpp:123-128 | for every chunk shorter than the stream, the as-written pass reaches past the chunk buffer |
| `OggFindings.ChunkPassOverrunsExample` | audiosources/OGG_Source.cpp:123-128 | a 4096-byte stream read in 1024-byte chunks overruns the chunk buffer |
| `OggFindings.ChunkPassInBounds` | audiosources/OGG_Source.cpp:123-128 | the pass bounded by the chunk's own length stays in bounds and is undone by a second pass |
| `EndianPass.SwapPairs` | audiosources/OGG_Source.cpp:94-99 | each byte of the first `pairs` words holds its partner's old byte, the bytes after them are unchanged, and the length is kept |
| `EndianPass.SwapPairsTwice` | audiosources/OGG_Source.cpp:94-99 | swapping the same words twice gives the data back |
| `EndianPass.Iterations` | audiosources/OGG_Source.cpp:95 | the number of runs of a loop from 0 in steps of 2 below `bound`: the last offset is below the bound and the next is not |
| `EndianPass.NormalizeUpTo` | audiosources/OGG_Source.cpp:95-98 | the pass fails exactly when the words the loop visits need more bytes than the buffer has. Otherwise the length is kept, every byte of a word whose start is below the bound holds its partner's old byte, and every byte of a word starting at or past the bound is unchanged |
| `EndianPass.OverrunIffWordOutside` | audiosources/OGG_Source.cpp:95-98 | the pass fails exactly when some even offset below the bound has its partner byte outside the buffer |
| `EndianPass.WholeWordPass` | audiosources/OGG_Source.cpp:124-127 | a pass bounded by the buffer's own length rounded down to even stays inside the buffer and swaps every whole word |
| `EndianPass.NormalizeAll` | audiosources/OGG_Source.cpp:94-99 | on an even-length buffer the pass bounded by that length swaps every word of it |

## Left out

- Voice internals: `Source::play`, `replay`, `stop`, `pause`, `setGain`, `lock`, `unlock` and the voice queries belong to the voice class. That class is not part of this model, so their effect is the `Reaction` parameter.
- A call to a voice never changes the sound's list of bound voices: `Reaction` maps a voice's state to a voice state, so a call cannot change the list. It can change the voice's `owner` field, and nothing ties `owner` to the list: a reaction that clears `owner` leaves the voice in the list without an owner. `unbindSource` (trunk/src/SoundBuffer.cpp:49-53) is not called from the sound's own code, so the voice or manager code calls it. If `stop()` unbinds the voice, `replay` (:185-188) replays a voice that is no longer bound, and `stopAll` (:204-207) changes the list while walking it. `SoundBuffer.Replay` (the list stays), `SoundBuffer.StopAll` (each bound voice receives `stop`) and `SoundBufferProps.ReplaysKeepOneVoice` hold only under the assumption that a voice call leaves the list alone.
- `stop()` with no arguments, as `replay` calls it, is the separate call `StopNow`: its default fade time is declared in a header that is not part of this model.
- `AudioManager::allocateSource`, its voice pool and eviction policy are not part of this model. The allocator's answer is a parameter, and a granted voice is required to exist in the pool.
- `SoundBuffer.Play`: appends the granted voice as it is, assuming the allocator never grants a voice still bound to this sound. An allocator that evicts a voice would first unbind it from its old sound. For example, with a pool of one voice that is evicted and granted again, the source ends with `[a]` while the model gives `[a, a]`. `SoundBufferProps.SecondPlayStacksVoice` therefore requires the second voice to differ from the first, and `Play`'s distinctness clause requires the granted voice to be unbound.
- `getBuffer()` is not part of this model. Whether the buffer is loaded is the parameter `loaded`.
- `getCategoryByName` is not part of this model. A sound stores its category's name.
- The destructor's log message, and the plain field getters of a sound: logging, and reads of stored fields.
- Removing a voice that is not bound: the container library is not part of this model. The model leaves the list unchanged in that case.
- `SoundBuffer.StopAll`: states the effect on each voice only for a list without repeated voices. A voice bound twice receives `stop` once per occurrence, which the contract does not spell out.
- `SoundBuffer.StopEach`: the same restriction as `StopAll`.
- The manager's mutex in `Category::setGain`: the call is one atomic step.
- `AudioManager::_setGlobalGain` is not part of this model. The model computes, for every player, global gain × category gain × the player's own gain and stores it as the player's applied gain.
- The fade factor of a fading player is not modelled: the applied gain has no fade term. Every player is updated, whether it is playing or not.
- The buffer-mode and source-mode enumerations are declared in a header that is not part of this model. The modelled code tests only STREAMED and MANAGED, so the model names those two and folds every other buffer mode into `OtherBufferMode`. The source mode is stored and never inspected, so it is an uninterpreted code.
- Gains are reals: float rounding is not modelled.
- The float `duration` computation in `open` is not modelled (floating point), so the record has no duration field.
- The `streamOpen` flag belongs to the base `Source` class, which is not part of this model. Its effect on the record is not modelled either.
- Negative error codes from `ov_read` and `ov_pcm_total` are not modelled: the read oracle answers between 0 and the amount requested, and the read loop's termination rests on that.
- The source does not handle a negative `ov_read` result (audiosources/OGG_Source.cpp:84-93 and 113-122). Subtracting it makes `remaining` grow and moves `buffer` backwards. A decoder that keeps answering with an error never lets the loop end, and an error on the first call makes the next read write before the start of `output`. One way to get there: a file that exists but is not Ogg. The base open succeeds, `ov_fopen` fails (:45-49), and `open` returns false without undoing the base open. A later `load` whose base call succeeds then reads from a decoder that never opened. This defect is recorded here and not modelled.
- `OggSource.Load`: requires an open decoder whenever the base `load` succeeds. The source does not guarantee this: after a failed `ov_fopen` the base stream stays open and the decoder does not (the model's `Open` leaves a cleared decoder cleared). The call on an unopened decoder, whose `ov_read` answers with an error, is not modelled.
- `OggSource.LoadChunk`: requires an open decoder whenever the base `loadChunk` returns non-zero, for the same reason as `OggSource.Load`. The call on an unopened decoder is not modelled.
- The byte reinterpretation of `XAL_NORMALIZE_ENDIAN` is modelled as exchanging the two bytes of a 16-bit word.
- The OGG source constructor and destructor have empty bodies.
- The FLAC source (all stubs), the SDL audio manager header and the WAV source header hold no behaviour to model. The mixing callback is not in the modelled files.

## Findings

| source | as written | input that shows it | evidently intended | confidence | as-written member | corrected member |
|---|---|---|---|---|---|---|
| audiosources/OGG_Source.cpp:124 | `loadChunk`'s big-endian pass visits every even offset below `this->size`, the size of the whole stream, on a buffer of `size` bytes, the chunk size (the parameter shadows the field) | a 4096-byte stream read in 1024-byte chunks on a big-endian host: the words at offsets 1024 to 4094 lie past the chunk buffer | swap only the words of the chunk buffer | high, not executed | `OggFindings.ChunkPassAsWritten` | `OggSource.LoadChunk` |
| audiosources/OGG_Source.cpp:42 | the byte size is computed in 32-bit `int`: the 64-bit frame count is cast to `int`, then multiplied by channels and 2 | 2^29 stereo frames (about 3 h 23 min at 44100 Hz) give −2^31 instead of 2^31 | size = frames × channels × 2 | medium, not executed; signed overflow is undefined in C++, and two's-complement wrap is assumed | `OggFindings.OpenSizeAsWritten` | `OggSource.Open` |
