/**
 * The integer part of the mono downmix: interleaved PCM samples are cut into
 * frames of `channels` samples (the last frame may be short) and each frame
 * becomes the mean of its samples, computed on `i64` with Rust's division,
 * which truncates toward zero.
 */
module Downmix {
  import opened Prims

  /** Rust's `/` on signed integers: truncation toward zero, unlike Dafny's
      Euclidean `/` on negative dividends. */
  function TruncDiv(a: int, b: int): (q: int)
    requires b >= 1
    ensures a >= 0 ==> q * b <= a < q * b + b
    ensures a < 0 ==> q * b - b < a <= q * b
  {
    if a >= 0 then a / b else -((-a) / b)
  }

  function Sum(s: seq<int>): int
  {
    if s == [] then 0 else Sum(s[..|s| - 1]) + s[|s| - 1]
  }

  /** `chunk.iter().map(|&x| x as i64).sum::<i64>() / chunk.len() as i64`. */
  function Mean(chunk: seq<int>): int
    requires chunk != []
  {
    TruncDiv(Sum(chunk), |chunk|)
  }

  /** The `c`-th chunk `samples.chunks(channels)` yields: `channels`
      samples from `c * channels` on, or fewer at the end. */
  function Frame(samples: seq<int>, channels: nat, c: nat): (r: seq<int>)
    requires channels >= 1 && c * channels < |samples|
    ensures 1 <= |r| <= channels
    ensures c * channels + |r| <= |samples|
    ensures |r| < channels ==> c * channels + |r| == |samples|
    ensures forall i :: 0 <= i < |r| ==> r[i] == samples[c * channels + i]
  {
    samples[c * channels .. Min(c * channels + channels, |samples|)]
  }

  /** One mean per chunk of `channels` consecutive samples. */
  function ChannelMeans(samples: seq<int>, channels: nat): (r: seq<int>)
    requires channels >= 1
    ensures |r| == ChunkCount(|samples|, channels)
    decreases |samples|
  {
    if samples == [] then []
    else if |samples| <= channels then
      assert 1 * channels < |samples| + channels;
      ChunkCountUnique(|samples|, channels, 1);
      [Mean(samples)]
    else
      var rest := ChannelMeans(samples[channels..], channels);
      var m := |rest|;
      assert (m + 1) * channels == m * channels + channels;
      ChunkCountUnique(|samples|, channels, m + 1);
      [Mean(samples[..channels])] + rest
  }

  /** Each output value is the truncated mean of its frame, and every frame
      but the last holds exactly `channels` samples. */
  lemma {:induction false} ChannelMeansAt(samples: seq<int>, channels: nat, c: nat)
    requires channels >= 1 && c * channels < |samples|
    ensures c < |ChannelMeans(samples, channels)|
    ensures Frame(samples, channels, c) != []
    ensures c * channels + channels <= |samples| ==> |Frame(samples, channels, c)| == channels
    ensures ChannelMeans(samples, channels)[c] == Mean(Frame(samples, channels, c))
    decreases c
  {
    var n := |samples|;
    if c == 0 {
      if n <= channels {
        assert Frame(samples, channels, 0) == samples;
      } else {
        assert Frame(samples, channels, 0) == samples[..channels];
      }
    } else {
      FrameShift(samples, channels, c);
      var rest := samples[channels..];
      assert ChannelMeans(samples, channels) == [Mean(samples[..channels])] + ChannelMeans(rest, channels);
      ChannelMeansAt(rest, channels, c - 1);
    }
  }

  /** Dropping the first frame shifts the frame numbers down by one. */
  lemma FrameShift(samples: seq<int>, channels: nat, c: nat)
    requires channels >= 1 && c >= 1 && c * channels < |samples|
    ensures |samples| > channels && (c - 1) * channels < |samples| - channels
    ensures Frame(samples[channels..], channels, c - 1) == Frame(samples, channels, c)
  {
    var n := |samples|;
    var lo := (c - 1) * channels;
    assert c * channels == lo + channels;
    var rest := samples[channels..];
    var hi := Min(lo + channels, n - channels);
    assert hi + channels == Min(c * channels + channels, n);
    assert rest[lo..hi] == samples[lo + channels .. hi + channels];
  }

  /** Every sample of `s` lies between `lo` and `hi`. */
  predicate Within(s: seq<int>, lo: int, hi: int)
  {
    forall i :: 0 <= i < |s| ==> lo <= s[i] <= hi
  }

  lemma {:induction false} SumWithin(s: seq<int>, lo: int, hi: int)
    requires Within(s, lo, hi)
    ensures |s| * lo <= Sum(s) <= |s| * hi
  {
    if s != [] {
      var init := s[..|s| - 1];
      assert Within(init, lo, hi);
      SumWithin(init, lo, hi);
      assert |s| * lo == |init| * lo + lo;
      assert |s| * hi == |init| * hi + hi;
    }
  }

  /** The truncated mean of a frame lies between the frame's extremes, so a
      downmix of in-range samples stays in range. */
  lemma MeanWithin(chunk: seq<int>, lo: int, hi: int)
    requires chunk != [] && Within(chunk, lo, hi)
    ensures lo <= Mean(chunk) <= hi
  {
    var n, total := |chunk|, Sum(chunk);
    SumWithin(chunk, lo, hi);
    var q := Mean(chunk);
    assert (q + 1) * n == q * n + n;
    assert (q - 1) * n == q * n - n;
    if total >= 0 {
      CancelLe(q, hi, n);
      CancelLt(lo, q + 1, n);
    } else {
      CancelLe(lo, q, n);
      CancelLt(q - 1, hi, n);
    }
  }

  /** The two-channel 16-bit frames (0, 0), (32767, -32768) and
      (16384, 16384): the middle mean is -1/2, which truncates to 0. */
  lemma StereoExample()
    ensures ChannelMeans([0, 0, 32767, -32768, 16384, 16384], 2) == [0, 0, 16384]
    ensures TruncDiv(-1, 2) == 0 && -1 / 2 == -1
  {
    var s := [0, 0, 32767, -32768, 16384, 16384];
    assert s[2..][2..] == [16384, 16384];
    assert Sum([0, 0]) == 0;
    assert Sum([32767, -32768]) == -1;
    assert Sum([16384, 16384]) == 32768;
  }
}
