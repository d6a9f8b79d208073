/** The Ogg Vorbis audio source: opening the stream and filling the
    format fields, closing and rewinding it, and the read loops of `load` and
    `loadChunk`.

    The Vorbis decoder enters the model through its answers. Opening it
    yields a `StreamInfo` (or `None` when the file does not open), and each
    `ov_read` call yields as many bytes as a `ReadSize` oracle grants. That
    answer is never more than was asked for, nor more than the decoded data
    has left. The base-class halves of `open`, `close`, `rewind`, `load` and
    `loadChunk` enter as their results. */
module OggSource {
  import opened Options
  import opened EndianPass

  /** What the decoder reports once the file is open, and the PCM bytes it
      will go on to deliver. */
  datatype StreamInfo = StreamInfo(channels: nat, rate: nat, pcmTotal: nat, pcm: seq<Byte>)

  /** The decoder's state: cleared, or open at a byte position of its data. */
  datatype Decoder = Cleared | Decoding(pcm: seq<Byte>, pos: nat)

  /** The format fields of the source record, and its decoder. */
  datatype Ogg = Ogg(
    filename: string,
    size: int,
    channels: int,
    samplingRate: int,
    bitsPerSample: int,
    decoder: Decoder)

  /** A call's boolean result together with the source it leaves behind. */
  datatype Status = Status(source: Ogg, ok: bool)

  /** How many bytes the decoder delivers when asked for `max` bytes at
      position `pos`. */
  type ReadSize = (nat, nat) -> nat

  /** The size field is a whole number of 16-bit words and the decoder
      position lies within its data. */
  predicate Valid(src: Ogg)
  {
    && src.size >= 0
    && src.size % 2 == 0
    && (src.decoder.Decoding? ==> src.decoder.pos <= |src.decoder.pcm|)
  }

  /** The size field counts every frame of every channel at the sample
      width. */
  predicate FormatMatches(src: Ogg, frames: nat)
  {
    src.size == frames * src.channels * (src.bitsPerSample / 8)
  }

  /** Opens the stream. The result is true only when both the base open and
      the decoder succeed, and only then are the format fields set: 16 bits
      per sample, and a size that covers every frame of every channel. */
  function Open(src: Ogg, baseOk: bool, info: Option<StreamInfo>): (r: Status)
    requires Valid(src)
    ensures Valid(r.source)
    ensures r.ok <==> baseOk && info.Some?
    ensures !r.ok ==> r.source == src
    ensures r.ok ==>
      && r.source.filename == src.filename
      && r.source.bitsPerSample == 16
      && r.source.channels == info.value.channels
      && r.source.samplingRate == info.value.rate
      && FormatMatches(r.source, info.value.pcmTotal)
      && r.source.decoder == Decoding(info.value.pcm, 0)
  {
    if !baseOk then Status(src, false)
    else
      match info
      case None => Status(src, false)
      case Some(i) =>
        var bitsPerSample := 16;
        var bytes := bitsPerSample / 8;
        Status(src.(channels := i.channels,
                    samplingRate := i.rate,
                    bitsPerSample := bitsPerSample,
                    size := i.pcmTotal * i.channels * bytes,
                    decoder := Decoding(i.pcm, 0)),
               true)
  }

  /** Closes the stream: the decoder is cleared only when the base close
      succeeds, and the base result is passed on. */
  function Close(src: Ogg, baseOk: bool): (r: Status)
    requires Valid(src)
    ensures Valid(r.source)
    ensures r.ok == baseOk
    ensures !baseOk ==> r.source == src
    ensures baseOk ==> r.source == src.(decoder := Cleared)
  {
    if baseOk then Status(src.(decoder := Cleared), true) else Status(src, false)
  }

  /** Closing is idempotent: after a successful close, a second close
      leaves the source as it was, whatever the base close reports. */
  lemma CloseIsIdempotent(src: Ogg, baseOk: bool)
    requires Valid(src)
    ensures Close(Close(src, true).source, baseOk).source == Close(src, true).source
  {
  }

  /** A closed source opens again as if it had never been opened: a
      successful open sets the same fields and decoder either way, and the
      result does not depend on the close. */
  lemma ReopenAfterClose(src: Ogg, baseOk: bool, info: Option<StreamInfo>)
    requires Valid(src)
    ensures Open(Close(src, true).source, baseOk, info).ok == Open(src, baseOk, info).ok
    ensures baseOk && info.Some? ==>
      Open(Close(src, true).source, baseOk, info) == Open(src, baseOk, info)
  {
  }

  /** Rewinds the stream: the decoder seeks back to the start only when the
      base rewind succeeds, and the base result is passed on. */
  function Rewind(src: Ogg, baseOk: bool): (r: Status)
    requires Valid(src)
    ensures Valid(r.source)
    ensures r.ok == baseOk
    ensures !baseOk ==> r.source == src
    ensures baseOk ==> r.source.decoder.Decoding? == src.decoder.Decoding?
    ensures baseOk && src.decoder.Decoding? ==>
      r.source == src.(decoder := Decoding(src.decoder.pcm, 0))
    ensures baseOk && src.decoder.Cleared? ==> r.source == src
  {
    if !baseOk then Status(src, false)
    else
      match src.decoder
      case Cleared => Status(src, true)
      case Decoding(pcm, _) => Status(src.(decoder := Decoding(pcm, 0)), true)
  }

  function Min(a: nat, b: nat): nat
  {
    if a <= b then a else b
  }

  /** What one `ov_read` call delivers: the oracle's answer, never more than
      was asked for and never more than the data has left. */
  function Granted(pcm: seq<Byte>, pos: nat, want: nat, grant: ReadSize): (n: nat)
    requires pos <= |pcm|
    ensures n <= want && pos + n <= |pcm|
  {
    Min(grant(pos, want), Min(want, |pcm| - pos))
  }

  /** Reference definition of how many bytes the read loop gets: ask for
      everything still missing, count what comes, stop when nothing is
      missing or nothing comes. */
  function Delivered(pcm: seq<Byte>, pos: nat, want: nat, grant: ReadSize): (n: nat)
    requires pos <= |pcm|
    ensures n <= want && pos + n <= |pcm|
    decreases want
  {
    if want == 0 then 0
    else
      var n := Granted(pcm, pos, want, grant);
      if n == 0 then 0 else n + Delivered(pcm, pos + n, want - n, grant)
  }

  /** The bytes the read loop gets: the next `Delivered` bytes of the
      decoded data. */
  function Drain(pcm: seq<Byte>, pos: nat, want: nat, grant: ReadSize): (r: seq<Byte>)
    requires pos <= |pcm|
    ensures |r| == Delivered(pcm, pos, want, grant)
    ensures |r| <= want && pos + |r| <= |pcm|
    ensures r == pcm[pos..pos + |r|]
  {
    pcm[pos..pos + Delivered(pcm, pos, want, grant)]
  }

  /** The loop shared by `load` and `loadChunk`: reads until `remaining`
      reaches 0 or the decoder delivers nothing. */
  method ReadLoop(pcm: seq<Byte>, pos: nat, want: nat, grant: ReadSize)
    returns (data: seq<Byte>, remaining: nat)
    requires pos <= |pcm|
    ensures |data| + remaining == want
    ensures data == Drain(pcm, pos, want, grant)
    ensures remaining > 0 ==> Granted(pcm, pos + |data|, remaining, grant) == 0
  {
    data := [];
    remaining := want;
    var at: nat := pos;
    while remaining > 0
      invariant Progress(pcm, pos, want, grant, data, remaining, at)
      decreases remaining
    {
      var read := Granted(pcm, at, remaining, grant);
      if read == 0 {
        break;
      }
      var next := Round(pcm, pos, want, grant, data, remaining, at, read);
      data, remaining, at := next.0, next.1, next.2;
    }
  }

  /** The loop's invariant: the bytes read so far are the data between the
      start and the current position, and what they lack of the request, and
      of what the loop gets in all, is what the rest of the loop asks for and
      gets. */
  ghost predicate Progress(pcm: seq<Byte>, pos: nat, want: nat, grant: ReadSize,
                           data: seq<Byte>, remaining: nat, at: nat)
  {
    && pos <= at <= |pcm|
    && at - pos + remaining == want
    && at - pos + Delivered(pcm, at, remaining, grant) == Delivered(pcm, pos, want, grant)
    && data == pcm[pos..at]
  }

  /** One round of the loop after the decoder delivered `read` bytes: the
      bytes are appended, `remaining` shrinks by as many and the position
      moves past them. The round keeps the invariant. */
  function Round(pcm: seq<Byte>, pos: nat, want: nat, grant: ReadSize,
                 data: seq<Byte>, remaining: nat, at: nat, read: nat): (r: (seq<Byte>, nat, nat))
    requires Progress(pcm, pos, want, grant, data, remaining, at)
    requires remaining > 0 && read == Granted(pcm, at, remaining, grant) > 0
    ensures Progress(pcm, pos, want, grant, r.0, r.1, r.2)
    ensures r.1 < remaining
  {
    StepKeepsProgress(pcm, pos, want, grant, data, remaining, at, read);
    (data + pcm[at..at + read], remaining - read, at + read)
  }

  /** The invariant holds after the round. */
  lemma StepKeepsProgress(pcm: seq<Byte>, pos: nat, want: nat, grant: ReadSize,
                          data: seq<Byte>, remaining: nat, at: nat, read: nat)
    requires Progress(pcm, pos, want, grant, data, remaining, at)
    requires remaining > 0 && read == Granted(pcm, at, remaining, grant) > 0
    ensures read <= remaining
    ensures Progress(pcm, pos, want, grant, data + pcm[at..at + read], remaining - read, at + read)
  {
    DeliveredStep(pcm, at, remaining, read, grant);
    SliceJoin(pcm, pos, at, at + read);
  }

  /** One round of the loop: what the decoder delivers now plus what the
      rest of the loop gets. */
  lemma DeliveredStep(pcm: seq<Byte>, at: nat, want: nat, read: nat, grant: ReadSize)
    requires at <= |pcm| && want > 0 && read == Granted(pcm, at, want, grant) > 0
    ensures at + read <= |pcm| && read <= want
    ensures Delivered(pcm, at, want, grant) == read + Delivered(pcm, at + read, want - read, grant)
  {
  }

  /** Two adjacent slices make up the slice they span. */
  lemma SliceJoin(s: seq<Byte>, i: nat, j: nat, k: nat)
    requires i <= j <= k <= |s|
    ensures s[i..j] + s[j..k] == s[i..k]
  {
  }

  /** `output` with its first bytes replaced by `data`. */
  function Overwrite(output: seq<Byte>, data: seq<Byte>): (r: seq<Byte>)
    requires |data| <= |output|
    ensures |r| == |output| && r[..|data|] == data && r[|data|..] == output[|data|..]
  {
    data + output[|data|..]
  }

  /** The part `load` and `loadChunk` share: run the read loop for `want`
      bytes, copy them to the front of `output` and advance the decoder. */
  method Fill(src: Ogg, output: seq<Byte>, want: nat, grant: ReadSize)
    returns (data: seq<Byte>, remaining: nat, out: seq<Byte>, after: Ogg)
    requires Valid(src) && src.decoder.Decoding? && |output| == want
    ensures data == Drain(src.decoder.pcm, src.decoder.pos, want, grant)
    ensures |data| + remaining == want
    ensures out == Overwrite(output, data)
    ensures after == src.(decoder := Decoding(src.decoder.pcm, src.decoder.pos + |data|))
    ensures Valid(after)
  {
    var pcm, pos := src.decoder.pcm, src.decoder.pos;
    data, remaining := ReadLoop(pcm, pos, want, grant);
    after := src.(decoder := Decoding(pcm, pos + |data|));
    out := Overwrite(output, data);
  }

  /** Reads the whole stream into `output`, a buffer of `size` bytes. The
      result is false only when the base load fails, and then nothing is
      read; a short read still succeeds. On a big-endian host every 16-bit
      word of the buffer is byte-swapped afterwards. */
  method Load(src: Ogg, baseOk: bool, output: seq<Byte>, grant: ReadSize, bigEndian: bool)
    returns (ok: bool, out: seq<Byte>, after: Ogg)
    requires Valid(src) && |output| == src.size
    requires baseOk ==> src.decoder.Decoding?
    ensures Valid(after) && |out| == |output|
    ensures ok == baseOk
    ensures !baseOk ==> out == output && after == src
    ensures baseOk ==>
      var got := Drain(src.decoder.pcm, src.decoder.pos, src.size, grant);
      && after == src.(decoder := Decoding(src.decoder.pcm, src.decoder.pos + |got|))
      && (!bigEndian ==> out == Overwrite(output, got))
      && (bigEndian ==> out == SwapPairs(Overwrite(output, got), |output| / 2))
  {
    if !baseOk {
      return false, output, src;
    }
    var data, remaining;
    data, remaining, out, after := Fill(src, output, src.size, grant);
    if bigEndian {
      out := NormalizeAll(out);
    }
    ok := true;
  }

  /** Reads at most `chunkSize` bytes into `output`, a buffer of that many
      bytes, and returns how many it read. When the base call reports 0,
      nothing is read. On a big-endian host the words of the chunk buffer
      are byte-swapped afterwards. */
  method LoadChunk(src: Ogg, baseResult: int, output: seq<Byte>, chunkSize: nat,
                   grant: ReadSize, bigEndian: bool)
    returns (n: int, out: seq<Byte>, after: Ogg)
    requires Valid(src) && |output| == chunkSize
    requires baseResult != 0 ==> src.decoder.Decoding?
    ensures Valid(after) && |out| == |output|
    ensures 0 <= n <= chunkSize
    ensures baseResult == 0 ==> n == 0 && out == output && after == src
    ensures baseResult != 0 ==>
      var got := Drain(src.decoder.pcm, src.decoder.pos, chunkSize, grant);
      && n == |got|
      && after == src.(decoder := Decoding(src.decoder.pcm, src.decoder.pos + n))
      && (!bigEndian ==> out == Overwrite(output, got))
      && (bigEndian ==> out == SwapPairs(Overwrite(output, got), chunkSize / 2))
  {
    if baseResult == 0 {
      return 0, output, src;
    }
    var data, remaining;
    data, remaining, out, after := Fill(src, output, chunkSize, grant);
    n := chunkSize - remaining;
    if bigEndian {
      out := SwapPairs(out, chunkSize / 2);
    }
  }

  /** The decoder never delivers nothing while data is left and bytes are
      asked for. */
  ghost predicate Eager(pcm: seq<Byte>, grant: ReadSize)
  {
    forall p: nat, m: nat :: p < |pcm| && m > 0 ==> grant(p, m) > 0
  }

  /** With an eager decoder the loop reads everything asked for, up to the
      end of the data: a short read happens only at the end of the stream. */
  lemma {:induction false} DrainReadsAll(pcm: seq<Byte>, pos: nat, want: nat, grant: ReadSize)
    requires pos <= |pcm| && Eager(pcm, grant)
    ensures |Drain(pcm, pos, want, grant)| == Min(want, |pcm| - pos)
    decreases want
  {
    if want > 0 && pos < |pcm| {
      var n := Granted(pcm, pos, want, grant);
      assert grant(pos, want) > 0;
      DrainReadsAll(pcm, pos + n, want - n, grant);
    }
  }

  /** The bytes that successive `loadChunk` calls of `chunk` bytes each
      deliver from decoder position `pos` on, up to the first call that
      reads nothing: each call gets the next `Drain` and moves the decoder
      past it. */
  function ChunkReads(pcm: seq<Byte>, pos: nat, chunk: nat, grant: ReadSize): (r: seq<Byte>)
    requires pos <= |pcm|
    ensures pos + |r| <= |pcm| && r == pcm[pos..pos + |r|]
    decreases |pcm| - pos
  {
    var got := Drain(pcm, pos, chunk, grant);
    if |got| == 0 then []
    else
      var rest := ChunkReads(pcm, pos + |got|, chunk, grant);
      SliceJoin(pcm, pos, pos + |got|, pos + |got| + |rest|);
      got + rest
  }

  /** With an eager decoder, calling `loadChunk` until it reads nothing
      yields the whole rest of the stream, whatever the chunk size. */
  lemma {:induction false} ChunkReadsAll(pcm: seq<Byte>, pos: nat, chunk: nat, grant: ReadSize)
    requires pos <= |pcm| && chunk > 0 && Eager(pcm, grant)
    ensures ChunkReads(pcm, pos, chunk, grant) == pcm[pos..]
    decreases |pcm| - pos
  {
    DrainReadsAll(pcm, pos, chunk, grant);
    var got := Drain(pcm, pos, chunk, grant);
    if pos < |pcm| {
      ChunkReadsAll(pcm, pos + |got|, chunk, grant);
    }
    var r := ChunkReads(pcm, pos, chunk, grant);
    assert |r| == |pcm| - pos;
  }

  /** Loading a freshly ready stream whose decoded data is exactly `size`
      bytes long reads all of that data. */
  lemma LoadOfOpenedStreamIsComplete(src: Ogg, info: StreamInfo, grant: ReadSize)
    requires Valid(src) && Eager(info.pcm, grant)
    requires |info.pcm| == info.pcmTotal * info.channels * 2
    ensures
      var ready := Open(src, true, Some(info)).source;
      Drain(info.pcm, 0, ready.size, grant) == info.pcm
  {
    var ready := Open(src, true, Some(info)).source;
    DrainReadsAll(info.pcm, 0, ready.size, grant);
  }

  /** After any amount of reading, rewinding puts the source back exactly as
      opening left it, so the next load yields the same bytes as the first. */
  lemma RewindRestoresOpenedStream(src: Ogg, info: StreamInfo, pos: nat, grant: ReadSize)
    requires Valid(src) && pos <= |info.pcm|
    ensures
      var ready := Open(src, true, Some(info)).source;
      var rewound := Rewind(ready.(decoder := Decoding(info.pcm, pos)), true).source;
      && rewound == ready
      && Drain(rewound.decoder.pcm, rewound.decoder.pos, rewound.size, grant)
         == Drain(info.pcm, 0, ready.size, grant)
  {
  }
}
