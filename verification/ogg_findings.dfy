/** The size computation of `open` and the chunk pass of `loadChunk` as the
    Ogg source writes them, set against the corrected definitions of
    `OggSource`. */
module OggFindings {
  import opened Options
  import opened EndianPass
  import opened OggSource

  const TwoTo31: int := 0x8000_0000
  const TwoTo32: int := 0x1_0000_0000

  /** Two's-complement truncation to a 32-bit signed integer. */
  function Wrap32(x: int): (r: int)
    ensures -TwoTo31 <= r < TwoTo31
    ensures (r - x) % TwoTo32 == 0
    ensures -TwoTo31 <= x < TwoTo31 ==> r == x
  {
    (x + TwoTo31) % TwoTo32 - TwoTo31
  }

  /** A product in 32-bit `int` arithmetic. */
  function Mul32(a: int, b: int): (r: int)
    ensures -TwoTo31 <= r < TwoTo31
    ensures (r - a * b) % TwoTo32 == 0
  {
    Wrap32(a * b)
  }

  /** The size as the open path computes it in 32-bit `int` arithmetic: the
      frame count cast down to `int`, then multiplied by the channel count
      and the sample width. */
  function OpenSizeAsWritten(pcmTotal: nat, channels: nat): (size: int)
    ensures -TwoTo31 <= size < TwoTo31
    ensures (size - pcmTotal * channels * 2) % TwoTo32 == 0
  {
    var frames := Wrap32(pcmTotal);
    var samples := Mul32(frames, channels);
    MulCongruent(frames, pcmTotal, channels);
    MulCongruent(samples, pcmTotal * channels, 2);
    Mul32(samples, 2)
  }

  /** A 32-bit product of a number that agrees with `b` modulo 2^32 agrees
      with the exact product of `b`. */
  lemma MulCongruent(a: int, b: int, c: int)
    requires (a - b) % TwoTo32 == 0
    ensures (Mul32(a, c) - b * c) % TwoTo32 == 0
  {
    ScaledCongruence(a, b, c);
    CongruenceTransitive(Mul32(a, c), a * c, b * c);
  }

  /** Multiplying two numbers that agree modulo 2^32 by the same factor
      keeps them in agreement. */
  lemma ScaledCongruence(a: int, b: int, c: int)
    requires (a - b) % TwoTo32 == 0
    ensures (a * c - b * c) % TwoTo32 == 0
  {
    var q := (a - b) / TwoTo32;
    assert a - b == TwoTo32 * q;
    assert a * c - b * c == TwoTo32 * (q * c);
  }

  /** Agreement modulo 2^32 is transitive. */
  lemma CongruenceTransitive(x: int, y: int, z: int)
    requires (x - y) % TwoTo32 == 0 && (y - z) % TwoTo32 == 0
    ensures (x - z) % TwoTo32 == 0
  {
    var p := (x - y) / TwoTo32;
    var q := (y - z) / TwoTo32;
    assert x - y == TwoTo32 * p;
    assert y - z == TwoTo32 * q;
    assert x - z == TwoTo32 * (p + q);
  }

  /** While the byte count fits in 32 bits, the as-written size is the
      byte count that `Open` stores. */
  lemma OpenSizeAgreesWhenSmall(src: Ogg, info: StreamInfo)
    requires Valid(src)
    requires info.pcmTotal * info.channels * 2 < TwoTo31
    ensures OpenSizeAsWritten(info.pcmTotal, info.channels) == Open(src, true, Some(info)).source.size
  {
    assert info.pcmTotal * info.channels < TwoTo31;
    assert info.pcmTotal < TwoTo31 || info.channels == 0;
  }

  /** A stereo stream of 2^29 frames (about three hours and twenty minutes
      at 44100 Hz) gets a negative size, where the byte count is 2^31. */
  lemma OpenSizeOverflows()
    ensures OpenSizeAsWritten(0x2000_0000, 2) == -TwoTo31
    ensures 0x2000_0000 * 2 * 2 == TwoTo31
  {
  }

  /** The chunk pass as the source writes it: swapping words of the chunk
      buffer at every even offset below the size of the whole stream. */
  function ChunkPassAsWritten(chunk: seq<Byte>, src: Ogg): (r: Option<seq<Byte>>)
    ensures r.None? <==> exists i :: 0 <= i < src.size && i % 2 == 0 && i + 1 >= |chunk|
  {
    OverrunIffWordOutside(chunk, src.size);
    NormalizeUpTo(chunk, src.size)
  }

  /** For any chunk shorter than the whole stream the as-written pass swaps
      bytes past the end of the chunk buffer. */
  lemma ChunkPassOverruns(chunk: seq<Byte>, src: Ogg)
    requires Valid(src) && |chunk| < src.size
    ensures ChunkPassAsWritten(chunk, src).None?
  {
  }

  /** A 4096-byte stream read in 1024-byte chunks. */
  lemma ChunkPassOverrunsExample()
    ensures ChunkPassAsWritten(seq(1024, _ => 0 as Byte),
                               Ogg("a.ogg", 4096, 2, 44100, 16, Decoding([], 0))).None?
  {
  }

  /** The corrected pass of `LoadChunk` stays inside the chunk buffer and can
      be undone: swapping twice gives the chunk back. */
  lemma ChunkPassInBounds(chunk: seq<Byte>)
    ensures NormalizeUpTo(chunk, 2 * (|chunk| / 2)).Some?
    ensures SwapPairs(SwapPairs(chunk, |chunk| / 2), |chunk| / 2) == chunk
  {
    WholeWordPass(chunk);
    SwapPairsTwice(chunk, |chunk| / 2);
  }
}
