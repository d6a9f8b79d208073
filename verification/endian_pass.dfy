/** Byte-order normalization of 16-bit sample data.

    On a big-endian host the decoder's little-endian 16-bit samples are
    normalized by exchanging the two bytes of each word, walking the buffer
    with a step of two from offset 0 while the offset is below a bound. */
module EndianPass {
  import opened Options

  newtype Byte = b: int | 0 <= b < 256

  /** The other byte of the 16-bit word holding offset `i`. */
  function Partner(i: nat): (j: nat)
    ensures j / 2 == i / 2 && j != i
  {
    if i % 2 == 0 then i + 1 else i - 1
  }

  /** The first `pairs` 16-bit words of `b` with their two bytes exchanged;
      the bytes after them are left alone. */
  function SwapPairs(b: seq<Byte>, pairs: nat): (r: seq<Byte>)
    requires 2 * pairs <= |b|
    ensures |r| == |b|
    ensures forall i :: 0 <= i < 2 * pairs ==> r[i] == b[Partner(i)]
    ensures forall i :: 2 * pairs <= i < |b| ==> r[i] == b[i]
    decreases pairs
  {
    if pairs == 0 then b
    else
      var k := 2 * (pairs - 1);
      SwapPairs(b, pairs - 1)[k := b[k + 1]][k + 1 := b[k]]
  }

  /** Swapping the same words twice gives the data back. */
  lemma {:induction false} SwapPairsTwice(b: seq<Byte>, pairs: nat)
    requires 2 * pairs <= |b|
    ensures SwapPairs(SwapPairs(b, pairs), pairs) == b
  {
    var once := SwapPairs(b, pairs);
    var twice := SwapPairs(once, pairs);
    forall i | 0 <= i < |b|
      ensures twice[i] == b[i]
    {
      if i < 2 * pairs {
        PartnerInWords(i, pairs);
        assert twice[i] == once[Partner(i)];
      }
    }
  }

  /** The partner of a byte in the first `pairs` words lies in them too,
      and its partner is the byte itself. */
  lemma PartnerInWords(i: nat, pairs: nat)
    requires i < 2 * pairs
    ensures Partner(i) < 2 * pairs && Partner(Partner(i)) == i
  {
  }

  /** How many times the loop `for (i = 0; i < bound; i += 2)` runs. */
  function Iterations(bound: int): (n: nat)
    ensures bound <= 0 ==> n == 0
    ensures bound > 0 ==> 2 * n - 2 < bound <= 2 * n
  {
    if bound <= 0 then 0 else (bound + 1) / 2
  }

  /** The pass over a buffer `b` with offsets below `bound`, as the loop runs
      it: `None` when the words it swaps reach past the end of `b`. */
  function NormalizeUpTo(b: seq<Byte>, bound: int): (r: Option<seq<Byte>>)
    ensures r.None? <==> |b| < 2 * Iterations(bound)
    ensures r.Some? ==> r.value == SwapPairs(b, Iterations(bound))
    ensures r.Some? ==> |r.value| == |b|
    ensures r.Some? ==> forall i :: 0 <= i < |b| && i - i % 2 < bound ==> r.value[i] == b[Partner(i)]
    ensures r.Some? ==> forall i :: 0 <= i < |b| && i - i % 2 >= bound ==> r.value[i] == b[i]
  {
    var n := Iterations(bound);
    if 2 * n <= |b| then PassByOffset(b, bound, n); Some(SwapPairs(b, n)) else None
  }

  /** An offset is visited by the loop, as the start of its word, exactly
      when it lies in one of the first `Iterations(bound)` words. */
  lemma {:induction false} VisitedWords(bound: int, i: nat)
    ensures i - i % 2 < bound <==> i < 2 * Iterations(bound)
  {
    assert i - i % 2 == 2 * (i / 2);
  }

  /** The swapped words, offset by offset, relative to the loop's bound. */
  lemma PassByOffset(b: seq<Byte>, bound: int, n: nat)
    requires n == Iterations(bound) && 2 * n <= |b|
    ensures forall i :: 0 <= i < |b| && i - i % 2 < bound ==> SwapPairs(b, n)[i] == b[Partner(i)]
    ensures forall i :: 0 <= i < |b| && i - i % 2 >= bound ==> SwapPairs(b, n)[i] == b[i]
  {
    forall i | 0 <= i < |b|
      ensures i - i % 2 < bound <==> i < 2 * n
    {
      VisitedWords(bound, i);
    }
  }

  /** The pass fails exactly when the loop reaches an even offset below the
      bound whose partner byte lies outside the buffer. */
  lemma OverrunIffWordOutside(b: seq<Byte>, bound: int)
    ensures NormalizeUpTo(b, bound).None? <==>
      exists i :: 0 <= i < bound && i % 2 == 0 && i + 1 >= |b|
  {
    var n := Iterations(bound);
    if |b| < 2 * n {
      var last := 2 * n - 2;
      assert 0 <= last < bound && last % 2 == 0 && last + 1 >= |b|;
    } else {
      forall i | 0 <= i < bound && i % 2 == 0
        ensures i + 1 < |b|
      {
        assert i < 2 * n && i != 2 * n - 1;
      }
    }
  }

  /** A pass bounded by the buffer's length rounded down to even swaps every
      whole word of the buffer and stays inside it. */
  lemma {:induction false} WholeWordPass(b: seq<Byte>)
    ensures 2 * (|b| / 2) <= |b|
    ensures NormalizeUpTo(b, 2 * (|b| / 2)) == Some(SwapPairs(b, |b| / 2))
  {
    EvenPass(b, 2 * (|b| / 2), |b| / 2);
  }

  /** A pass up to an even bound within the buffer, `2 * pairs`, swaps
      every word below the bound. */
  lemma {:induction false} EvenPass(b: seq<Byte>, bound: int, pairs: nat)
    requires bound == 2 * pairs && 2 * pairs <= |b|
    ensures NormalizeUpTo(b, bound) == Some(SwapPairs(b, pairs))
  {
    assert Iterations(bound) == pairs;
  }

  /** The pass over a whole buffer of even length, bounded by that length:
      it stays inside the buffer and swaps every word. */
  function NormalizeAll(b: seq<Byte>): (r: seq<Byte>)
    requires |b| % 2 == 0
    ensures 2 * (|b| / 2) == |b| && r == SwapPairs(b, |b| / 2)
  {
    EvenPass(b, |b|, |b| / 2);
    NormalizeUpTo(b, |b|).value
  }
}
