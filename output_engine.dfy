/**
 * The output buffer engine: a caller pushes samples into a queue, the
 * device's callback fills its hardware buffer from that queue, and two
 * cursors count samples sent and samples consumed so that the caller can
 * read its backpressure.
 *
 * The engine is generic over the sample type: samples are only copied. The
 * device configuration (native rate, channel count) is given at creation;
 * the channel between the two threads is the field `queue`, and the sink
 * cursor, shared under a lock in the Rust code, is a plain field.
 */
module OutputEngine {
  import opened Prims
  import opened Wrappers

  datatype Error = InvalidArgument

  /** `samples_behind` in `u64`: `sink_cursor + buffer_padding - source_cursor`,
      wrapping when the caller is ahead of the target. */
  function SamplesBehindU64(sinkCursor: nat, bufferPadding: nat, sourceCursor: nat): (r: U64)
    ensures (r - (sinkCursor + bufferPadding - sourceCursor)) % U64_MODULUS == 0
    ensures sourceCursor <= sinkCursor + bufferPadding < sourceCursor + U64_MODULUS ==>
      r == sinkCursor + bufferPadding - sourceCursor
  {
    WrapU64(sinkCursor + bufferPadding - sourceCursor)
  }

  /** The value `OutputStreamOcaml::samples_behind` returns: the `u64` result
      cast to `i32`. */
  function SamplesBehindI32(sinkCursor: nat, bufferPadding: nat, sourceCursor: nat): (r: I32)
    ensures (r - (sinkCursor + bufferPadding - sourceCursor)) % U32_MODULUS == 0
  {
    var wide := SamplesBehindU64(sinkCursor, bufferPadding, sourceCursor);
    NarrowCongruence(U64ToI32(wide), wide, sinkCursor + bufferPadding - sourceCursor);
    U64ToI32(wide)
  }

  /** Read as signed, the wrapped difference is the true difference whenever
      that fits in an `i32`, negative when the caller is ahead. */
  lemma SamplesBehindSigned(sinkCursor: nat, bufferPadding: nat, sourceCursor: nat)
    requires I32_MIN <= sinkCursor + bufferPadding - sourceCursor <= I32_MAX
    ensures SamplesBehindI32(sinkCursor, bufferPadding, sourceCursor)
      == sinkCursor + bufferPadding - sourceCursor
  {
    SignedThroughU64(sinkCursor + bufferPadding - sourceCursor);
  }

  /** Changing only the padding shifts the reported value by the same amount. */
  lemma PaddingShift(sinkCursor: nat, sourceCursor: nat, before: nat, after: nat)
    requires I32_MIN <= sinkCursor + before - sourceCursor <= I32_MAX
    requires I32_MIN <= sinkCursor + after - sourceCursor <= I32_MAX
    ensures SamplesBehindI32(sinkCursor, after, sourceCursor)
      == SamplesBehindI32(sinkCursor, before, sourceCursor) + (after - before)
  {
    SamplesBehindSigned(sinkCursor, before, sourceCursor);
    SamplesBehindSigned(sinkCursor, after, sourceCursor);
  }

  /** Slot `i` of a buffer cut into chunks of `k` lies in chunk `c`. */
  lemma ChunkOf(i: int, c: nat, k: nat)
    requires k >= 1 && c * k <= i < c * k + k
    ensures i / k == c
  {
    var q := i / k;
    assert q * k <= i < q * k + k;
    assert (q - c) * k == q * k - c * k;
    BelowOneFactor(q - c, k);
    assert (c - q) * k == c * k - q * k;
    BelowOneFactor(c - q, k);
  }

  /** The loop of `Fill` ran past the end of a buffer of `n` slots after
      `filled` chunks: it visited every chunk. */
  lemma ChunksDone(filled: nat, n: nat, k: nat)
    requires k >= 1 && n <= filled * k && (filled == 0 || (filled - 1) * k < n)
    ensures filled == ChunkCount(n, k)
  {
    if filled > 0 {
      assert (filled - 1) * k == filled * k - k;
    }
    ChunkCountUnique(n, k, filled);
  }

  /** The loop of `Fill` stopped inside the buffer: chunks were left. */
  lemma ChunksLeft(filled: nat, n: nat, k: nat)
    requires k >= 1 && filled * k < n
    ensures filled < ChunkCount(n, k)
  {
    CancelLt(filled, ChunkCount(n, k), k);
  }

  /** `for element in output { *element = input }`: write `x` into the
      slots `start..stop` and nowhere else. */
  method Replicate<T>(data: array<T>, start: nat, stop: nat, x: T)
    requires start <= stop <= data.Length
    modifies data
    ensures forall i :: start <= i < stop ==> data[i] == x
    ensures forall i :: 0 <= i < data.Length && !(start <= i < stop) ==> data[i] == old(data[i])
  {
    var j := start;
    while j < stop
      invariant start <= j <= stop
      invariant forall i :: start <= i < j ==> data[i] == x
      invariant forall i :: 0 <= i < data.Length && !(start <= i < j) ==> data[i] == old(data[i])
    {
      data[j] := x;
      j := j + 1;
    }
  }

  class OutputStream<T> {
    /** The device's sample rate, Hz. */
    const nativeRate: nat
    /** The device's channel count. */
    const channels: nat
    /** How many consecutive frames repeat each sample. */
    const downsample: nat
    /** The target backlog, in samples. */
    var bufferPadding: nat
    /** Samples the caller has sent. */
    var sourceCursor: nat
    /** Samples the device callback has consumed. */
    var sinkCursor: nat
    /** Samples sent and not yet consumed, oldest first. */
    var queue: seq<T>

    /** Every sample sent is either still queued or consumed. */
    ghost predicate Valid()
      reads this
    {
      && downsample >= 1
      && channels >= 1
      && sourceCursor == sinkCursor + |queue|
    }

    /** `OutputStream::new_with_downsample` once the device is open. */
    constructor (nativeRate: nat, channels: nat, downsample: nat)
      requires downsample >= 1 && channels >= 1
      ensures Valid()
      ensures this.nativeRate == nativeRate && this.channels == channels
      ensures this.downsample == downsample
      ensures sourceCursor == 0 && sinkCursor == 0 && queue == []
      ensures bufferPadding == nativeRate / 20
    {
      this.nativeRate := nativeRate;
      this.channels := channels;
      this.downsample := downsample;
      bufferPadding := nativeRate / 20;
      sourceCursor := 0;
      sinkCursor := 0;
      queue := [];
    }

    /** `sample_rate_hz`: the native rate divided by the downsample factor,
        rounded down. */
    function SampleRateHz(): (r: nat)
      reads this
      requires downsample >= 1
      ensures r * downsample <= nativeRate < r * downsample + downsample
      ensures downsample == 1 ==> r == nativeRate
    {
      nativeRate / downsample
    }

    function SamplesBehind(): I32
      reads this
    {
      SamplesBehindI32(sinkCursor, bufferPadding, sourceCursor)
    }

    /** The backpressure the caller reads is the padding minus the backlog:
        positive exactly while fewer samples are queued than the padding. */
    lemma SamplesBehindIsShortfall()
      requires Valid()
      requires I32_MIN <= bufferPadding - |queue| <= I32_MAX
      ensures SamplesBehind() == bufferPadding - |queue|
      ensures SamplesBehind() > 0 <==> |queue| < bufferPadding
    {
      SamplesBehindSigned(sinkCursor, bufferPadding, sourceCursor);
    }

    /** `play_sample`: queue the sample and count it. */
    method PlaySample(sample: T)
      requires Valid()
      modifies this
      ensures Valid()
      ensures sourceCursor == old(sourceCursor) + 1
      ensures queue == old(queue) + [sample]
      ensures sinkCursor == old(sinkCursor) && bufferPadding == old(bufferPadding)
    {
      queue := queue + [sample];
      sourceCursor := sourceCursor + 1;
    }

    /** `OutputStreamOcaml::set_buffer_padding`: a negative padding is
        refused and leaves the padding as it was. */
    method SetBufferPadding(padding: I32) returns (r: Outcome<Error>)
      requires Valid()
      modifies this
      ensures Valid()
      ensures r == Pass <==> padding >= 0
      ensures r == Pass ==> bufferPadding == padding
      ensures r.Fail? ==> bufferPadding == old(bufferPadding) && r.error == InvalidArgument
      ensures sourceCursor == old(sourceCursor) && sinkCursor == old(sinkCursor)
      ensures queue == old(queue)
    {
      if padding < 0 {
        return Fail(InvalidArgument);
      }
      bufferPadding := padding;
      r := Pass;
    }

    /** The device callback: cut `data` into chunks of `channels * downsample`
        slots; for each chunk take one queued sample and write it into every
        slot of the chunk, counting it; stop at the first chunk for which the
        queue is empty, leaving the rest of `data` as it was. */
    method Fill(data: array<T>)
      requires Valid()
      modifies this, data
      ensures Valid()
      ensures var k := channels * downsample;
        var m := Min(|old(queue)|, ChunkCount(data.Length, k));
        && queue == old(queue)[m..]
        && sinkCursor == old(sinkCursor) + m
        && (forall i :: 0 <= i < data.Length && i < m * k ==> i / k < m && data[i] == old(queue)[i / k])
        && (forall i :: m * k <= i < data.Length ==> data[i] == old(data[i]))
      ensures sourceCursor == old(sourceCursor) && bufferPadding == old(bufferPadding)
    {
      var k := channels * downsample;
      var start := 0;
      ghost var filled: nat := 0;
      while start < data.Length
        invariant Valid() && sourceCursor == old(sourceCursor) && bufferPadding == old(bufferPadding)
        invariant start == filled * k
        invariant filled <= |old(queue)|
        invariant filled == 0 || (filled - 1) * k < data.Length
        invariant queue == old(queue)[filled..]
        invariant sinkCursor == old(sinkCursor) + filled
        invariant forall i :: 0 <= i < data.Length && i < start ==> i / k < filled && data[i] == old(queue)[i / k]
        invariant forall i :: start <= i < data.Length ==> data[i] == old(data[i])
      {
        if queue == [] {
          break;
        }
        var input := queue[0];
        queue := queue[1..];
        var stop := if start + k < data.Length then start + k else data.Length;
        Replicate(data, start, stop, input);
        forall i | start <= i < stop
          ensures i / k == filled
        {
          ChunkOf(i, filled, k);
        }
        sinkCursor := sinkCursor + 1;
        assert start + k == (filled + 1) * k;
        filled := filled + 1;
        start := start + k;
      }
      if start < data.Length {
        ChunksLeft(filled, data.Length, k);
      } else {
        ChunksDone(filled, data.Length, k);
      }
    }
  }

  /** `OutputStreamOcaml::new_with_downsample`: a non-positive factor is
      refused; otherwise the stream starts empty, with a padding of a
      twentieth of a second. */
  method CreateOutputStream<T>(downsample: I32, nativeRate: nat, channels: nat)
    returns (r: Result<OutputStream<T>, Error>)
    requires channels >= 1
    ensures r.Err? <==> downsample <= 0
    ensures r.Ok? ==> fresh(r.value) && r.value.Valid()
    ensures r.Ok? ==> r.value.downsample == downsample && r.value.nativeRate == nativeRate
    ensures r.Ok? ==> r.value.channels == channels
    ensures r.Ok? ==> r.value.sourceCursor == 0 && r.value.sinkCursor == 0 && r.value.queue == []
    ensures r.Ok? ==> r.value.bufferPadding == nativeRate / 20
  {
    if downsample <= 0 {
      return Err(InvalidArgument);
    }
    var stream := new OutputStream<T>(nativeRate, channels, downsample as nat);
    r := Ok(stream);
  }

  /** Refusing padding -1, then setting 5 and 9 with the cursors held:
      samples behind rises by exactly 4. */
  method PaddingScenario() returns (refused: Outcome<Error>, at5: I32, at9: I32)
    ensures refused == Fail(InvalidArgument)
    ensures at9 == at5 + 4
  {
    var stream := new OutputStream<real>(44100, 2, 1);
    refused := stream.SetBufferPadding(-1);
    assert stream.bufferPadding == 2205;
    var ok := stream.SetBufferPadding(5);
    at5 := stream.SamplesBehind();
    ok := stream.SetBufferPadding(9);
    at9 := stream.SamplesBehind();
    PaddingShift(0, 0, 5, 9);
  }
}
